// The counter server: the only owner of its value, it handles one mailbox
// message at a time, while clients send increments without waiting and calls
// that carry a reply channel.
module GenServer {
  import opened Options
  import opened Sums

  datatype Message =
    | Increment(from: nat, amount: int)
    | GetValue(from: nat)   // the reply channel it carries is the sender's
    | Stop

  // Processes 0 to clients - 1 are the clients, the last one is the orchestrator.
  datatype State = State(
    clients: nat,
    total: nat,                 // increments each client makes
    capacity: nat,              // of the mailbox
    sent: seq<nat>,             // mailbox sends that have returned, by process
    slots: seq<Option<int>>,    // the process's reply channel
    got: seq<Option<int>>,      // the reply it has received
    posted: seq<Message>,       // all that was ever put in the mailbox, in order
    handled: nat,               // how much of it the server has received
    value: int,
    stopped: bool)

  datatype Action =
    | Push(p: nat)    // a send finds room in the mailbox
    | Take            // the server receives from the mailbox
    | Meet(p: nat)    // the server waits on an empty mailbox and p sends
    | Reply(p: nat)   // p receives its reply

  function Init(clients: nat, total: nat, capacity: nat): State {
    var nothing := seq(clients + 1, _ => None);
    State(clients, total, capacity, seq(clients + 1, _ => 0), nothing, nothing, [], 0, 0, false)
  }

  predicate Shaped(s: State) {
    |s.sent| == |s.slots| == |s.got| == s.clients + 1
  }

  predicate ClientDone(s: State, p: nat)
    requires Shaped(s) && p < s.clients
  {
    s.sent[p] == s.total + 1 && s.got[p].Some?
  }

  // What process p is about to send, if it is at a send: a client makes half
  // its increments, a call, and the rest; the orchestrator waits for the
  // clients, calls, and stops the server.
  function Next(s: State, p: nat): Option<Message>
    requires Shaped(s) && p <= s.clients
  {
    if p < s.clients then
      if s.sent[p] < s.total / 2 then Some(Increment(p, 1))
      else if s.sent[p] == s.total / 2 then Some(GetValue(p))
      else if s.got[p].Some? && s.sent[p] <= s.total then Some(Increment(p, 1))
      else None
    else
      if s.sent[p] == 0 && (forall q :: 0 <= q < s.clients ==> ClientDone(s, q)) then Some(GetValue(p))
      else if s.sent[p] == 1 && s.got[p].Some? then Some(Stop)
      else None
  }

  predicate Enabled(s: State, a: Action)
    requires Shaped(s)
  {
    match a
    case Push(p) => p <= s.clients && Next(s, p).Some? && |s.posted| - s.handled < s.capacity
    case Take => !s.stopped && s.handled < |s.posted|
    case Meet(p) => p <= s.clients && Next(s, p).Some? && s.handled == |s.posted| && !s.stopped
    case Reply(p) => p <= s.clients && s.slots[p].Some?
  }

  function Post(s: State, p: nat): State
    requires Shaped(s) && p <= s.clients && Next(s, p).Some?
  {
    s.(posted := s.posted + [Next(s, p).value], sent := s.sent[p := s.sent[p] + 1])
  }

  // One round of the server's loop.
  function Serve(s: State): State
    requires Shaped(s) && s.handled < |s.posted|
  {
    var t := s.(handled := s.handled + 1);
    match s.posted[s.handled]
    case Increment(_, amount) => t.(value := s.value + amount)
    case GetValue(p) => if p <= s.clients then t.(slots := s.slots[p := Some(s.value)]) else t
    case Stop => t.(stopped := true)
  }

  function Apply(s: State, a: Action): State
    requires Shaped(s) && Enabled(s, a)
  {
    match a
    case Push(p) => Post(s, p)
    case Take => Serve(s)
    case Meet(p) => Serve(Post(s, p))
    case Reply(p) => s.(got := s.got[p := s.slots[p]], slots := s.slots[p := None])
  }

  // ---- what a mailbox history adds up to ----

  function Total(h: seq<Message>): int {
    if h == [] then 0
    else Total(h[..|h| - 1]) + if h[|h| - 1].Increment? then h[|h| - 1].amount else 0
  }

  // The increments of client p.
  function Count(h: seq<Message>, p: nat): nat {
    if h == [] then 0
    else Count(h[..|h| - 1], p) + if h[|h| - 1].Increment? && h[|h| - 1].from == p then 1 else 0
  }

  // The sum of the increments ahead of p's call.
  function ReplyFor(h: seq<Message>, p: nat): Option<int> {
    if h == [] then None
    else if h[|h| - 1] == GetValue(p) then Some(Total(h[..|h| - 1]))
    else ReplyFor(h[..|h| - 1], p)
  }

  function Counts(h: seq<Message>, n: nat): seq<nat> {
    seq(n, p requires 0 <= p < n => Count(h, p))
  }

  lemma Append(h: seq<Message>, m: Message, p: nat)
    ensures Total(h + [m]) == Total(h) + if m.Increment? then m.amount else 0
    ensures Count(h + [m], p) == Count(h, p) + if m.Increment? && m.from == p then 1 else 0
    ensures ReplyFor(h + [m], p) == if m == GetValue(p) then Some(Total(h)) else ReplyFor(h, p)
  {
    assert (h + [m])[..|h|] == h;
  }

  // What a history adds up to: amounts add, and nothing else counts.
  lemma {:induction false} TotalAdds(a: seq<Message>, b: seq<Message>)
    ensures Total(a + b) == Total(a) + Total(b)
  {
    if b == [] {
      assert a + b == a;
    } else {
      var k := |b| - 1;
      TotalAdds(a, b[..k]);
      assert (a + b)[..|a| + k] == a + b[..k];
    }
  }

  lemma TotalOfOne(p: nat, amount: int)
    ensures Total([Increment(p, amount)]) == amount
    ensures Total([GetValue(p)]) == 0 && Total([Stop]) == 0
  {
    assert [Increment(p, amount)][..0] == [];
  }

  lemma {:induction false} CountPrefix(h: seq<Message>, k: nat, p: nat)
    requires k <= |h|
    ensures Count(h[..k], p) <= Count(h, p)
    decreases |h|
  {
    if k < |h| {
      CountPrefix(h[..|h| - 1], k, p);
      assert h[..|h| - 1][..k] == h[..k];
    } else {
      assert h[..k] == h;
    }
  }

  lemma {:induction false} ReplyForIs(h: seq<Message>, p: nat)
    ensures ReplyFor(h, p).None? ==> GetValue(p) !in h
    ensures ReplyFor(h, p).Some? ==>
              exists k :: 0 <= k < |h| && h[k] == GetValue(p) && ReplyFor(h, p).value == Total(h[..k])
    decreases |h|
  {
    if h != [] {
      var n := |h| - 1;
      ReplyForIs(h[..n], p);
      if h[n] != GetValue(p) && ReplyFor(h, p).Some? {
        var k :| 0 <= k < n && h[..n][k] == GetValue(p) && ReplyFor(h, p).value == Total(h[..n][..k]);
        assert h[..n][..k] == h[..k];
      }
    }
  }

  predicate UnitIncrements(h: seq<Message>, n: nat) {
    forall k :: 0 <= k < |h| && h[k].Increment? ==> h[k].from < n && h[k].amount == 1
  }

  lemma {:induction false} TotalByClient(h: seq<Message>, n: nat)
    requires UnitIncrements(h, n)
    ensures Total(h) == Sum(Counts(h, n))
    decreases |h|
  {
    if h == [] {
      InitSum(n);
      assert Counts(h, n) == seq(n, _ => 0 as nat);
    } else {
      var init, m := h[..|h| - 1], h[|h| - 1];
      TotalByClient(init, n);
      if m.Increment? {
        SumUpdate(Counts(init, n), m.from, Count(init, m.from) + 1);
        assert Counts(h, n) == Counts(init, n)[m.from := Count(init, m.from) + 1];
      } else {
        assert Counts(h, n) == Counts(init, n);
      }
    }
  }

  // ---- the server's loop ----

  datatype Sent = Sent(to: nat, value: int)

  // The replies a mailbox history calls for.
  function Answers(h: seq<Message>): seq<Sent> {
    if h == [] then []
    else
      var init := h[..|h| - 1];
      Answers(init) + if h[|h| - 1].GetValue? then [Sent(h[|h| - 1].from, Total(init))] else []
  }

  // counter_server, given what its receives return until its mailbox is closed:
  // it handles everything up to the first stop.
  method CounterServer(mailbox: seq<Message>) returns (value: int, handled: nat, replies: seq<Sent>, stopped: bool)
    ensures handled <= |mailbox|
    ensures stopped ==> 0 < handled && mailbox[handled - 1] == Stop && Stop !in mailbox[..handled - 1]
    ensures !stopped ==> handled == |mailbox| && Stop !in mailbox
    ensures value == Total(mailbox[..handled]) && replies == Answers(mailbox[..handled])
  {
    value, handled, replies, stopped := 0, 0, [], false;
    while handled < |mailbox|
      invariant handled <= |mailbox| && Stop !in mailbox[..handled]
      invariant value == Total(mailbox[..handled]) && replies == Answers(mailbox[..handled])
    {
      var m := mailbox[handled];
      assert mailbox[..handled + 1][..handled] == mailbox[..handled];
      handled := handled + 1;
      match m {
        case Increment(_, amount) => value := value + amount;
        case GetValue(p) => replies := replies + [Sent(p, value)];
        case Stop =>
          stopped := true;
          return;
      }
    }
  }

  // The n-th call is answered n-th, to its sender, with the sum ahead of it.
  lemma {:induction false} AnswerAt(h: seq<Message>, p: nat, more: seq<Message>)
    ensures |Answers(h)| < |Answers(h + [GetValue(p)] + more)|
    ensures Answers(h + [GetValue(p)] + more)[|Answers(h)|] == Sent(p, Total(h))
    decreases |more|
  {
    var all := h + [GetValue(p)] + more;
    if more == [] {
      assert all[..|h|] == h && all[|h|] == GetValue(p) && |all| == |h| + 1;
    } else {
      AnswerAt(h, p, more[..|more| - 1]);
      assert all[..|all| - 1] == h + [GetValue(p)] + more[..|more| - 1];
    }
  }

  // As many answers as calls.
  lemma OneAnswerPerCall(h: seq<Message>, m: Message)
    ensures |Answers(h + [m])| == |Answers(h)| + if m.GetValue? then 1 else 0
  {
    assert (h + [m])[..|h|] == h;
  }

  // A process's reply in a history is one the server sends it.
  lemma {:induction false} ReplyIsAnswer(h: seq<Message>, p: nat)
    ensures ReplyFor(h, p).Some? ==> Sent(p, ReplyFor(h, p).value) in Answers(h)
    ensures ReplyFor(h, p).None? ==> forall v :: Sent(p, v) !in Answers(h)
    decreases |h|
  {
    if h != [] {
      ReplyIsAnswer(h[..|h| - 1], p);
    }
  }

  // ---- the invariant ----

  // How the k-th message sits among those before it.
  predicate Fits(h: seq<Message>, k: nat, n: nat, total: nat)
    requires k < |h|
  {
    match h[k]
    case Increment(p, amount) => p < n && amount == 1
    case GetValue(p) =>
      && p <= n && GetValue(p) !in h[..k]
      && (p < n ==> Count(h[..k], p) == total / 2)
      && (p == n ==> forall q: nat :: q < n ==> Count(h[..k], q) == total)
    case Stop => true
  }

  // Each client's sends, counted, and its call where it belongs.
  predicate Mailbox(s: State)
    requires Shaped(s)
  {
    && |s.posted| == Sum(s.sent)
    && (forall k :: 0 <= k < |s.posted| ==> Fits(s.posted, k, s.clients, s.total))
    && (forall p: nat :: p < s.clients ==>
          && s.sent[p] <= s.total + 1
          && Count(s.posted, p) == s.sent[p] - (if s.sent[p] > s.total / 2 then 1 else 0)
          && (GetValue(p) in s.posted <==> s.sent[p] > s.total / 2))
  }

  predicate Orchestrated(s: State)
    requires Shaped(s)
  {
    var main := s.clients;
    && s.sent[main] <= 2
    && (GetValue(main) in s.posted <==> s.sent[main] >= 1)
    && (Stop in s.posted <==> s.sent[main] == 2)
    && (s.sent[main] >= 1 ==> forall p :: 0 <= p < s.clients ==> ClientDone(s, p))
    && (s.sent[main] == 2 ==> s.got[main].Some? && s.posted[|s.posted| - 1] == Stop)
    && (forall k :: 0 <= k < |s.posted| && s.posted[k] == Stop ==> k == |s.posted| - 1)
  }

  function Answer(s: State, p: nat): Option<int>
    requires Shaped(s) && p <= s.clients
  {
    if s.got[p].Some? then s.got[p] else s.slots[p]
  }

  // The server's own state reflects exactly what it has handled.
  predicate Served(s: State)
    requires Shaped(s)
  {
    && s.handled <= |s.posted|
    && s.value == Total(s.posted[..s.handled])
    && (s.stopped <==> Stop in s.posted[..s.handled])
    && (forall p: nat :: p <= s.clients ==>
          && Answer(s, p) == ReplyFor(s.posted[..s.handled], p)
          && (s.got[p].Some? ==> s.slots[p].None?))
  }

  predicate Inv(s: State) {
    Shaped(s) && Mailbox(s) && Orchestrated(s) && Served(s) && |s.posted| <= s.handled + s.capacity
  }

  lemma InitInv(clients: nat, total: nat, capacity: nat)
    ensures Inv(Init(clients, total, capacity))
  {
    InitSum(clients + 1);
  }

  lemma FitsAppend(h: seq<Message>, m: Message, k: nat, n: nat, total: nat)
    requires k < |h|
    ensures Fits(h + [m], k, n, total) == Fits(h, k, n, total)
  {
    assert (h + [m])[..k] == h[..k];
  }

  // The next message a process posts belongs where it lands.
  lemma NextFits(s: State, p: nat)
    requires Shaped(s) && Mailbox(s) && Orchestrated(s) && p <= s.clients && Next(s, p).Some?
    ensures Fits(s.posted + [Next(s, p).value], |s.posted|, s.clients, s.total)
  {
    var h := s.posted + [Next(s, p).value];
    assert h[..|s.posted|] == s.posted;
    if p == s.clients && Next(s, p).value.GetValue? {
      forall q: nat | q < s.clients ensures Count(s.posted, q) == s.total {
        assert ClientDone(s, q);
      }
    }
  }

  lemma PostFits(s: State, p: nat)
    requires Shaped(s) && Mailbox(s) && Orchestrated(s) && p <= s.clients && Next(s, p).Some?
    ensures forall k :: 0 <= k <= |s.posted| ==> Fits(Post(s, p).posted, k, s.clients, s.total)
  {
    NextFits(s, p);
    hide Fits, Next, Orchestrated;
    forall k | 0 <= k < |s.posted| ensures Fits(Post(s, p).posted, k, s.clients, s.total) {
      FitsAppend(s.posted, Next(s, p).value, k, s.clients, s.total);
    }
  }

  // What a client's next message does to its own counts and to nobody else's.
  lemma PostCounts(s: State, p: nat, q: nat)
    requires Shaped(s) && Mailbox(s) && p <= s.clients && q < s.clients && Next(s, p).Some?
    ensures var t := Post(s, p);
            && t.sent[q] <= s.total + 1
            && Count(t.posted, q) == t.sent[q] - (if t.sent[q] > s.total / 2 then 1 else 0)
            && (GetValue(q) in t.posted <==> t.sent[q] > s.total / 2)
  {
    hide Fits;
    Append(s.posted, Next(s, p).value, q);
  }

  lemma PostKeepsMailbox(s: State, p: nat)
    requires Shaped(s) && Mailbox(s) && Orchestrated(s) && p <= s.clients && Next(s, p).Some?
    ensures Mailbox(Post(s, p))
  {
    SumUpdate(s.sent, p, s.sent[p] + 1);
    PostFits(s, p);
    hide Fits, Next, Orchestrated;
    forall q: nat | q < s.clients
      ensures var t := Post(s, p);
              && t.sent[q] <= s.total + 1
              && Count(t.posted, q) == t.sent[q] - (if t.sent[q] > s.total / 2 then 1 else 0)
              && (GetValue(q) in t.posted <==> t.sent[q] > s.total / 2)
    {
      PostCounts(s, p, q);
    }
  }

  lemma PostKeepsOrchestrated(s: State, p: nat)
    requires Shaped(s) && Orchestrated(s) && p <= s.clients && Next(s, p).Some?
    ensures Orchestrated(Post(s, p))
  {
    var t := Post(s, p);
    assert forall q :: 0 <= q < s.clients && ClientDone(s, q) ==> q != p;
    assert forall q :: 0 <= q < s.clients && ClientDone(s, q) ==> ClientDone(t, q);
    if p < s.clients {
      assert !ClientDone(s, p);
      assert s.sent[s.clients] == 0;
    }
  }

  lemma PostKeepsServed(s: State, p: nat)
    requires Shaped(s) && Served(s) && p <= s.clients && Next(s, p).Some?
    ensures Served(Post(s, p))
  {
    assert Post(s, p).posted[..s.handled] == s.posted[..s.handled];
  }

  lemma ServeKeepsServed(s: State)
    requires Shaped(s) && Served(s) && Mailbox(s) && s.handled < |s.posted| && !s.stopped
    requires forall p: nat :: GetValue(p) == s.posted[s.handled] ==> p <= s.clients && Answer(s, p).None?
    ensures Served(Serve(s))
  {
    var t := Serve(s);
    var m := s.posted[s.handled];
    var before := s.posted[..s.handled];
    assert t.posted[..t.handled] == before + [m];
    forall p: nat | p <= s.clients
      ensures Answer(t, p) == ReplyFor(before + [m], p) && (t.got[p].Some? ==> t.slots[p].None?)
    {
      Append(before, m, p);
    }
    Append(before, m, 0);
  }

  // A call that has not been handled yet has not been answered.
  lemma NotAnsweredYet(s: State, p: nat)
    requires Shaped(s) && Mailbox(s) && Served(s) && s.handled < |s.posted| && s.posted[s.handled] == GetValue(p)
    ensures p <= s.clients && Answer(s, p).None?
  {
    assert Fits(s.posted, s.handled, s.clients, s.total);
    if Answer(s, p).Some? {
      ReplyForIs(s.posted[..s.handled], p);
    }
  }

  lemma PostKeeps(s: State, p: nat)
    requires Inv(s) && p <= s.clients && Next(s, p).Some?
    ensures var t := Post(s, p); Shaped(t) && Mailbox(t) && Orchestrated(t) && Served(t)
  {
    PostKeepsMailbox(s, p);
    PostKeepsOrchestrated(s, p);
    PostKeepsServed(s, p);
  }

  lemma ServeKeeps(s: State)
    requires Shaped(s) && Mailbox(s) && Orchestrated(s) && Served(s) && s.handled < |s.posted| && !s.stopped
    ensures var t := Serve(s); Shaped(t) && Mailbox(t) && Orchestrated(t) && Served(t)
  {
    forall p: nat | GetValue(p) == s.posted[s.handled] ensures p <= s.clients && Answer(s, p).None? {
      NotAnsweredYet(s, p);
    }
    ServeKeepsServed(s);
    hide Served;
    var t := Serve(s);
    assert forall q :: 0 <= q < s.clients ==> (ClientDone(s, q) <==> ClientDone(t, q));
  }

  lemma StepKeepsInv(s: State, a: Action)
    requires Inv(s) && Enabled(s, a)
    ensures Inv(Apply(s, a))
  {
    match a
    case Push(p) => PostKeeps(s, p);
    case Take => ServeKeeps(s);
    case Meet(p) =>
      PostKeeps(s, p);
      ServeKeeps(Post(s, p));
    case Reply(p) =>
      ReplyKeeps(s, p);
  }

  lemma ReplyKeeps(s: State, p: nat)
    requires Inv(s) && p <= s.clients && s.slots[p].Some?
    ensures Inv(Apply(s, Reply(p)))
  {
    var t := Apply(s, Reply(p));
    assert forall q :: 0 <= q < s.clients && ClientDone(s, q) ==> ClientDone(t, q);
  }

  // ---- what callers see ----

  // Every reply is the sum of the increments ahead of its call in the mailbox,
  // and the server's value the sum of everything it has handled.
  lemma RepliesAreSums(s: State, p: nat)
    requires Inv(s) && p <= s.clients
    ensures s.value == Total(s.posted[..s.handled])
    ensures s.got[p].Some? ==>
              exists k :: 0 <= k < s.handled && s.posted[k] == GetValue(p) && s.got[p].value == Total(s.posted[..k])
  {
    var h := s.posted[..s.handled];
    ReplyForIs(h, p);
    if s.got[p].Some? {
      assert Answer(s, p) == s.got[p];
      var k :| 0 <= k < |h| && h[k] == GetValue(p) && ReplyFor(h, p).value == Total(h[..k]);
      assert h[..k] == s.posted[..k];
    }
  }

  lemma PrefixCounts(s: State, k: nat)
    requires Inv(s) && k <= |s.posted|
    ensures Total(s.posted[..k]) == Sum(Counts(s.posted[..k], s.clients))
    ensures forall q: nat :: q < s.clients ==> Count(s.posted[..k], q) <= s.total
  {
    var h := s.posted[..k];
    forall j | 0 <= j < |h| && h[j].Increment? ensures h[j].from < s.clients && h[j].amount == 1 {
      assert Fits(s.posted, j, s.clients, s.total);
    }
    TotalByClient(h, s.clients);
    forall q: nat | q < s.clients ensures Count(h, q) <= s.total {
      CountPrefix(s.posted, k, q);
    }
  }

  lemma SumRange(counts: seq<nat>, p: nat, total: nat)
    requires p < |counts| && counts[p] <= total
    requires forall q: nat :: q < |counts| ==> counts[q] <= total
    ensures counts[p] <= Sum(counts) <= counts[p] + (|counts| - 1) * total
  {
    SumUpdate(counts, p, total);
    SumUpdate(counts, p, 0);
    SumBound(counts[p := total], total);
    assert |counts| * total == (|counts| - 1) * total + total;
  }

  // A client's midway reply counts its own first half, and of the others' increments some.
  lemma MidwayRange(s: State, p: nat)
    requires Inv(s) && p < s.clients && s.got[p].Some?
    ensures s.total / 2 <= s.got[p].value <= s.total / 2 + (s.clients - 1) * s.total
  {
    RepliesAreSums(s, p);
    var k :| 0 <= k < s.handled && s.posted[k] == GetValue(p) && s.got[p].value == Total(s.posted[..k]);
    assert Fits(s.posted, k, s.clients, s.total);
    PrefixCounts(s, k);
    hide Inv;
    SumRange(Counts(s.posted[..k], s.clients), p, s.total);
  }

  // The orchestrator's reply counts every increment of every client.
  lemma FinalValue(s: State)
    requires Inv(s) && s.got[s.clients].Some?
    ensures s.got[s.clients].value == s.clients * s.total
  {
    RepliesAreSums(s, s.clients);
    var k :| 0 <= k < s.handled && s.posted[k] == GetValue(s.clients) && s.got[s.clients].value == Total(s.posted[..k]);
    assert Fits(s.posted, k, s.clients, s.total);
    PrefixCounts(s, k);
    SumBound(Counts(s.posted[..k], s.clients), s.total);
  }

  // ---- every run ends ----

  predicate Finished(s: State)
    requires Shaped(s)
  {
    && s.stopped && s.handled == |s.posted|
    && (forall p :: 0 <= p < s.clients ==> ClientDone(s, p))
    && s.sent[s.clients] == 2 && s.got[s.clients].Some?
  }

  // Whatever the mailbox capacity, some process can move until all have returned.
  lemma CanMove(s: State) returns (a: Action)
    requires Inv(s) && !Finished(s)
    ensures Enabled(s, a)
  {
    if s.stopped {
      assert false;
    } else if s.handled < |s.posted| {
      a := Take;
    } else if p: nat :| p <= s.clients && s.slots[p].Some? {
      a := Reply(p);
    } else {
      var p := CanSend(s);
      a := Meet(p);
    }
  }

  lemma CanSend(s: State) returns (p: nat)
    requires Inv(s) && !s.stopped && s.handled == |s.posted|
    requires forall q: nat :: q <= s.clients ==> s.slots[q].None?
    ensures p <= s.clients && Next(s, p).Some?
  {
    assert s.posted[..s.handled] == s.posted;
    forall q: nat | q <= s.clients ensures GetValue(q) in s.posted ==> s.got[q].Some? {
      ReplyForIs(s.posted, q);
    }
    if q: nat :| q < s.clients && !ClientDone(s, q) {
      p := q;
    } else {
      p := s.clients;
    }
  }

  function Replies(got: seq<Option<int>>): nat {
    if got == [] then 0 else Replies(got[..|got| - 1]) + if got[|got| - 1].Some? then 1 else 0
  }

  lemma {:induction false} RepliesUpdate(got: seq<Option<int>>, p: nat, x: Option<int>)
    requires p < |got| && got[p].None? && x.Some?
    ensures Replies(got[p := x]) == Replies(got) + 1
    decreases |got|
  {
    var k := |got| - 1;
    if p < k {
      RepliesUpdate(got[..k], p, x);
      assert got[p := x][..k] == got[..k][p := x];
    } else {
      assert got[p := x][..k] == got[..k];
    }
  }

  lemma {:induction false} RepliesBound(got: seq<Option<int>>)
    ensures Replies(got) <= |got|
  {
    if got != [] {
      RepliesBound(got[..|got| - 1]);
    }
  }

  // Messages posted, messages handled, replies received.
  function Progress(s: State): nat {
    |s.posted| + s.handled + Replies(s.got)
  }

  // total + 1 messages per client and two more from the orchestrator.
  function Messages(clients: nat, total: nat): nat {
    clients * (total + 1) + 2
  }

  lemma PostedBound(s: State)
    requires Inv(s)
    ensures |s.posted| <= Messages(s.clients, s.total)
    ensures Finished(s) ==> |s.posted| == Messages(s.clients, s.total)
  {
    var clients := s.sent[..s.clients];
    assert s.sent == clients + [s.sent[s.clients]];
    SumBound(clients, s.total + 1);
    if Finished(s) {
      forall p | 0 <= p < s.clients ensures clients[p] == s.total + 1 {
        assert ClientDone(s, p);
      }
    }
  }

  lemma ProgressBound(s: State)
    requires Inv(s)
    ensures Progress(s) <= 2 * Messages(s.clients, s.total) + s.clients + 1
  {
    PostedBound(s);
    RepliesBound(s.got);
  }

  lemma StepAdvances(s: State, a: Action)
    requires Inv(s) && Enabled(s, a)
    ensures Progress(s) < Progress(Apply(s, a)) <= 2 * Messages(s.clients, s.total) + s.clients + 1
  {
    var t := Apply(s, a);
    if a.Reply? {
      RepliesUpdate(s.got, a.p, s.slots[a.p]);
    }
    StepKeepsInv(s, a);
    ProgressBound(t);
  }

  ghost predicate IsRun(init: State, states: seq<State>, actions: seq<Action>) {
    && |states| == |actions| + 1
    && states[0] == init
    && (forall k :: 0 <= k < |states| ==> Shaped(states[k]))
    && forall k :: 0 <= k < |actions| ==>
         Enabled(states[k], actions[k]) && states[k + 1] == Apply(states[k], actions[k])
  }

  lemma {:induction false} RunInvariant(
    clients: nat, total: nat, capacity: nat, states: seq<State>, actions: seq<Action>, k: nat)
    requires IsRun(Init(clients, total, capacity), states, actions) && k < |states|
    ensures Inv(states[k]) && states[k].clients == clients && states[k].total == total
    ensures k <= Progress(states[k])
  {
    hide Inv, Enabled, Progress;
    if k == 0 {
      InitInv(clients, total, capacity);
    } else {
      RunInvariant(clients, total, capacity, states, actions, k - 1);
      StepKeepsInv(states[k - 1], actions[k - 1]);
      StepAdvances(states[k - 1], actions[k - 1]);
    }
  }

  // No schedule goes on for ever, and one that cannot go on has everybody
  // finished, every client's midway value in its range, the exact total at the
  // end and no message left over.
  lemma EveryRunFinishes(clients: nat, total: nat, capacity: nat, states: seq<State>, actions: seq<Action>)
    requires IsRun(Init(clients, total, capacity), states, actions)
    ensures |actions| <= 2 * Messages(clients, total) + clients + 1
    ensures var s := states[|actions|];
            (forall a :: !Enabled(s, a)) ==>
              && s.clients == clients && Finished(s) && s.handled == Messages(clients, total)
              && s.got[clients] == Some(clients * total)
              && forall p :: 0 <= p < clients ==>
                   s.got[p].Some? && total / 2 <= s.got[p].value <= total / 2 + (clients - 1) * total
  {
    hide Inv, Enabled, Progress;
    var s := states[|actions|];
    RunInvariant(clients, total, capacity, states, actions, |actions|);
    ProgressBound(s);
    if exists a :: Enabled(s, a) {
      return;
    }
    if !Finished(s) {
      var a := CanMove(s);
    }
    PostedBound(s);
    FinalValue(s);
    forall p | 0 <= p < clients
      ensures s.got[p].Some? && total / 2 <= s.got[p].value <= total / 2 + (clients - 1) * total
    {
      assert ClientDone(s, p);
      MidwayRange(s, p);
    }
  }
}
