// The chat room: one actor owns the member table, sessions talk to it through
// one mailbox, and it answers through one inbox per member.
module Chat {

  datatype Message = Join(id: int) | Leave(id: int) | Say(id: int, text: string)

  // What the room writes into an inbox.
  datatype Line = Welcome(id: int) | Joined(id: int) | Left(id: int) | Said(id: int, text: string)

  // ---- histories: everything the sessions have posted, in mailbox order ----

  function Members(h: seq<Message>): set<int> {
    if h == [] then {}
    else
      var k := |h| - 1;
      match h[k]
      case Join(id) => Members(h[..k]) + {id}
      case Leave(id) => Members(h[..k]) - {id}
      case Say(_, _) => Members(h[..k])
  }

  function Arrivals(h: seq<Message>): set<int> {
    if h == [] then {}
    else
      var k := |h| - 1;
      if h[k].Join? then Arrivals(h[..k]) + {h[k].id} else Arrivals(h[..k])
  }

  // ---- the sessions ----

  // Session i's own posts, in the order it sent them.
  function Posts(h: seq<Message>, i: int): seq<Message> {
    if h == [] then []
    else
      var k := |h| - 1;
      Posts(h[..k], i) + if h[k].id == i then [h[k]] else []
  }

  // session_actor and session_reader: a join, then chat lines, then one leave.
  // A session that is still going has sent some prefix of that.
  predicate Behaves(posts: seq<Message>, i: int, sessions: nat) {
    && (posts != [] ==> 1 <= i <= sessions && posts[0] == Join(i))
    && (forall k :: 1 <= k < |posts| ==> !posts[k].Join?)
    && (forall k :: 0 <= k < |posts| - 1 ==> !posts[k].Leave?)
  }

  ghost predicate AllBehave(h: seq<Message>, sessions: nat) {
    forall i :: Behaves(Posts(h, i), i, sessions)
  }

  // ---- what that means for the room ----

  predicate MayPost(h: seq<Message>, m: Message, sessions: nat) {
    match m
    case Join(id) => 1 <= id <= sessions && id !in Arrivals(h)
    case Leave(id) => id in Members(h)
    case Say(id, _) => id in Members(h)
  }

  // The room knows the sender of every message as a member, or does not know it yet if it joins.
  predicate Legal(h: seq<Message>, sessions: nat) {
    forall k :: 0 <= k < |h| ==> MayPost(h[..k], h[k], sessions)
  }

  // ---- what a member should see ----

  // The k-th message is for session i: its own join, or another's message while it is a member.
  predicate Addressed(h: seq<Message>, k: nat, i: int)
    requires k < |h|
  {
    h[k] == Join(i) || (i in Members(h[..k]) && h[k].id != i)
  }

  function Render(m: Message, i: int): Line {
    match m
    case Join(id) => if id == i then Welcome(i) else Joined(id)
    case Leave(id) => Left(id)
    case Say(id, text) => Said(id, text)
  }

  // The history positions session i sees, ascending.
  function Positions(h: seq<Message>, i: int): seq<nat> {
    if h == [] then []
    else
      var k := |h| - 1;
      Positions(h[..k], i) + if Addressed(h, k, i) then [k] else []
  }

  function InboxOf(h: seq<Message>, i: int): seq<Line> {
    if h == [] then []
    else
      var k := |h| - 1;
      InboxOf(h[..k], i) + if Addressed(h, k, i) then [Render(h[k], i)] else []
  }

  lemma PrefixAddressed(h: seq<Message>, n: nat, k: nat, i: int)
    requires k < n <= |h|
    ensures Addressed(h[..n], k, i) == Addressed(h, k, i)
  {
    assert h[..n][..k] == h[..k];
  }

  // An inbox is the history restricted to the positions addressed to its
  // owner: in history order, each once ...
  lemma {:induction false} InboxIsRestriction(h: seq<Message>, i: int)
    ensures |InboxOf(h, i)| == |Positions(h, i)|
    ensures forall a :: 0 <= a < |Positions(h, i)| ==>
              Positions(h, i)[a] < |h| && InboxOf(h, i)[a] == Render(h[Positions(h, i)[a]], i)
    ensures forall a, b :: 0 <= a < b < |Positions(h, i)| ==> Positions(h, i)[a] < Positions(h, i)[b]
    decreases |h|
  {
    if h != [] {
      InboxIsRestriction(h[..|h| - 1], i);
    }
  }

  // ... and none missing.
  lemma {:induction false} PositionsAreAddressed(h: seq<Message>, i: int, k: nat)
    ensures k in Positions(h, i) <==> k < |h| && Addressed(h, k, i)
    decreases |h|
  {
    if h != [] {
      var n := |h| - 1;
      PositionsAreAddressed(h[..n], i, k);
      if k < n {
        PrefixAddressed(h, n, k, i);
      }
    }
  }

  // Total order: two messages that reach both i and j appear in the same order
  // in both inboxes, namely the order of the room's mailbox.
  lemma SameOrderEverywhere(h: seq<Message>, i: int, j: int, a: nat, b: nat, c: nat, d: nat)
    requires a < |Positions(h, i)| && b < |Positions(h, i)| && c < |Positions(h, j)| && d < |Positions(h, j)|
    requires Positions(h, i)[a] == Positions(h, j)[c]
    requires Positions(h, i)[b] == Positions(h, j)[d]
    ensures a < b <==> c < d
    ensures |InboxOf(h, i)| == |Positions(h, i)| && |InboxOf(h, j)| == |Positions(h, j)|
    ensures Positions(h, i)[a] < |h| && h[Positions(h, i)[a]].Say? ==> InboxOf(h, i)[a] == InboxOf(h, j)[c]
  {
    InboxIsRestriction(h, i);
    InboxIsRestriction(h, j);
  }

  // What one more message brings session i: a newcomer is welcomed and
  // announced to the members, a leaver announced to those who stay, and a chat
  // line passed on to the other members; nobody else gets anything.
  lemma NextLine(h: seq<Message>, m: Message, i: int)
    ensures m.Join? ==>
              InboxOf(h + [m], i) ==
                if i == m.id then InboxOf(h, i) + [Welcome(i)]
                else if i in Members(h) then InboxOf(h, i) + [Joined(m.id)] else InboxOf(h, i)
    ensures m.Leave? ==>
              InboxOf(h + [m], i) ==
                if i in Members(h) && i != m.id then InboxOf(h, i) + [Left(m.id)] else InboxOf(h, i)
    ensures m.Say? ==>
              InboxOf(h + [m], i) ==
                if i in Members(h) && i != m.id then InboxOf(h, i) + [Said(m.id, m.text)] else InboxOf(h, i)
  {
    InboxAfter(h, m, i);
  }

  // A chat line reaches exactly the members at that moment other than its sender.
  lemma WhoHears(h: seq<Message>, k: nat, i: int, sessions: nat)
    requires Legal(h, sessions) && k < |h| && h[k].Say?
    ensures k in Positions(h, i) <==> i in Members(h[..k]) && i != h[k].id
    ensures h[k].id in Members(h[..k])
  {
    PositionsAreAddressed(h, i, k);
    assert MayPost(h[..k], h[k], sessions);
  }

  // ---- legal histories ----

  lemma LegalPrefix(h: seq<Message>, n: nat, sessions: nat)
    requires Legal(h, sessions) && n <= |h|
    ensures Legal(h[..n], sessions)
  {
    forall k | 0 <= k < n ensures MayPost(h[..n][..k], h[..n][k], sessions) {
      assert h[..n][..k] == h[..k];
    }
  }

  lemma {:induction false} PostsTellMembership(h: seq<Message>, i: int, sessions: nat)
    requires AllBehave(h, sessions)
    ensures i in Arrivals(h) <==> Posts(h, i) != []
    ensures i in Members(h) <==> Posts(h, i) != [] && !Posts(h, i)[|Posts(h, i)| - 1].Leave?
    decreases |h|
  {
    if h != [] {
      var k := |h| - 1;
      ForgetLast(h, sessions);
      PostsTellMembership(h[..k], i, sessions);
      var before, posts := Posts(h[..k], i), Posts(h, i);
      assert Behaves(posts, i, sessions);
      if h[k].id == i {
        assert posts == before + [h[k]];
        if before != [] {
          assert posts[|before| - 1] == before[|before| - 1];
        }
      }
    }
  }

  lemma ForgetLast(h: seq<Message>, sessions: nat)
    requires h != [] && AllBehave(h, sessions)
    ensures AllBehave(h[..|h| - 1], sessions)
  {
    var init := h[..|h| - 1];
    forall j ensures Behaves(Posts(init, j), j, sessions) {
      assert Behaves(Posts(h, j), j, sessions);
      assert Posts(init, j) == Posts(h, j)[..|Posts(init, j)|];
    }
  }

  // One more post fits its session's life exactly when the room's table says so.
  lemma NextPost(h: seq<Message>, m: Message, sessions: nat)
    requires AllBehave(h, sessions)
    ensures Behaves(Posts(h, m.id) + [m], m.id, sessions) <==> MayPost(h, m, sessions)
  {
    var posts := Posts(h, m.id);
    PostsTellMembership(h, m.id, sessions);
    PostsOwner(h, m.id);
    assert Behaves(posts, m.id, sessions);
    var more := posts + [m];
    assert forall k :: 0 <= k < |posts| ==> more[k] == posts[k];
    assert more[|posts|] == m;
    if posts != [] && Behaves(more, m.id, sessions) {
      assert !more[|posts| - 1].Leave?;
    }
  }

  lemma {:induction false} PostsOwner(h: seq<Message>, i: int)
    ensures forall k :: 0 <= k < |Posts(h, i)| ==> Posts(h, i)[k].id == i
    decreases |h|
  {
    if h != [] {
      PostsOwner(h[..|h| - 1], i);
    }
  }

  // The interleavings of well-behaved sessions are exactly the histories in
  // which every leave and every chat line comes from a current member.
  lemma {:induction false} OnlyMembersPost(h: seq<Message>, sessions: nat)
    ensures Legal(h, sessions) <==> AllBehave(h, sessions)
    decreases |h|
  {
    hide Behaves, MayPost;
    if h != [] {
      var k := |h| - 1;
      var init, m := h[..k], h[k];
      OnlyMembersPost(init, sessions);
      if Legal(h, sessions) {
        LegalPrefix(h, k, sessions);
        NextPost(init, m, sessions);
        assert MayPost(h[..k], h[k], sessions);
        assert forall i :: i != m.id ==> Posts(h, i) == Posts(init, i);
      }
      if AllBehave(h, sessions) {
        ForgetLast(h, sessions);
        NextPost(init, m, sessions);
        assert Posts(h, m.id) == Posts(init, m.id) + [m];
        ExtendLegal(init, m, sessions);
        assert h == init + [m];
      }
    } else {
      NoPosts(sessions);
    }
  }

  lemma NoPosts(sessions: nat)
    ensures AllBehave([], sessions)
  {}

  lemma ExtendLegal(h: seq<Message>, m: Message, sessions: nat)
    requires Legal(h, sessions) && MayPost(h, m, sessions)
    ensures Legal(h + [m], sessions)
  {
    var g := h + [m];
    assert g[..|h|] == h;
    forall k | 0 <= k < |g| ensures MayPost(g[..k], g[k], sessions) {
      if k < |h| {
        assert g[..k] == h[..k];
      }
    }
  }

  lemma {:induction false} MembersArrived(h: seq<Message>, sessions: nat)
    requires Legal(h, sessions)
    ensures Members(h) <= Arrivals(h)
    ensures forall id :: id in Arrivals(h) ==> 1 <= id <= sessions
    decreases |h|
  {
    if h != [] {
      LegalPrefix(h, |h| - 1, sessions);
      MembersArrived(h[..|h| - 1], sessions);
      assert MayPost(h[..|h| - 1], h[|h| - 1], sessions);
    }
  }

  // ---- one sender's lines at one receiver ----

  // The texts session j has sent, in its own order.
  function Texts(posts: seq<Message>): seq<string> {
    if posts == [] then []
    else
      var k := |posts| - 1;
      Texts(posts[..k]) + if posts[k].Say? then [posts[k].text] else []
  }

  // The texts an inbox has from session j, in the order they came in.
  function HeardFrom(inbox: seq<Line>, j: int): seq<string> {
    if inbox == [] then []
    else
      var k := |inbox| - 1;
      HeardFrom(inbox[..k], j) + if inbox[k].Said? && inbox[k].id == j then [inbox[k].text] else []
  }

  lemma HeardAppend(inbox: seq<Line>, l: Line, j: int)
    ensures HeardFrom(inbox + [l], j) ==
            if l.Said? && l.id == j then HeardFrom(inbox, j) + [l.text] else HeardFrom(inbox, j)
  {
    assert (inbox + [l])[..|inbox|] == inbox;
  }

  lemma TextsAppend(posts: seq<Message>, m: Message)
    ensures Texts(posts + [m]) == if m.Say? then Texts(posts) + [m.text] else Texts(posts)
  {
    assert (posts + [m])[..|posts|] == posts;
  }

  // heard is the unbroken run of texts between two positions; open at its end
  // if it may still grow, empty there if it has not begun.
  predicate IsRun(heard: seq<string>, texts: seq<string>, from: nat, to: nat, begun: bool, open: bool) {
    && from <= to <= |texts| && heard == texts[from..to]
    && (!begun ==> from == |texts|)
    && (open ==> to == |texts|)
  }

  // What session i hears from another session j is an unbroken run of the
  // lines j sent, in the order j sent them: those sent while i was a member.
  lemma {:induction false} HearsInSendingOrder(h: seq<Message>, i: int, j: int, sessions: nat)
    returns (from: nat, to: nat)
    requires Legal(h, sessions) && i != j
    ensures IsRun(HeardFrom(InboxOf(h, i), j), Texts(Posts(h, j)), from, to, i in Arrivals(h), i in Members(h))
    decreases |h|
  {
    from, to := 0, 0;
    if h != [] {
      var init, m := h[..|h| - 1], h[|h| - 1];
      assert h == init + [m];
      LegalPrefix(h, |h| - 1, sessions);
      MembersArrived(init, sessions);
      from, to := HearsInSendingOrder(init, i, j, sessions);
      OneMoreHeard(init, m, i, j);
      MembersAfter(init, m);
      assert MayPost(init, m, sessions);
      hide Members, Arrivals, HeardFrom, Texts, Posts, InboxOf, Legal;
      if m.Say? && m.id == j {
        from, to := LongerRun(HeardFrom(InboxOf(init, i), j), Texts(Posts(init, j)), m.text,
                              from, to, i in Arrivals(init), i in Members(init));
      }
    }
  }

  lemma LongerRun(heard: seq<string>, texts: seq<string>, text: string, from: nat, to: nat, begun: bool, open: bool)
    returns (from': nat, to': nat)
    requires IsRun(heard, texts, from, to, begun, open) && (open ==> begun)
    ensures IsRun(if open then heard + [text] else heard, texts + [text], from', to', begun, open)
  {
    from', to' := from, to;
    if open {
      to' := to + 1;
    } else if !begun {
      from', to' := from + 1, to + 1;
    }
  }

  lemma OneMoreHeard(h: seq<Message>, m: Message, i: int, j: int)
    requires i != j
    ensures m.Say? && m.id == j ==>
              && Texts(Posts(h + [m], j)) == Texts(Posts(h, j)) + [m.text]
              && HeardFrom(InboxOf(h + [m], i), j) ==
                   if i in Members(h) then HeardFrom(InboxOf(h, i), j) + [m.text] else HeardFrom(InboxOf(h, i), j)
    ensures !(m.Say? && m.id == j) ==>
              && Texts(Posts(h + [m], j)) == Texts(Posts(h, j))
              && HeardFrom(InboxOf(h + [m], i), j) == HeardFrom(InboxOf(h, i), j)
  {
    PostsAppend(h, m, j);
    InboxAfter(h, m, i);
    HeardAppend(InboxOf(h, i), Render(m, i), j);
    TextsAppend(Posts(h, j), m);
  }

  lemma PostsAppend(h: seq<Message>, m: Message, j: int)
    ensures Posts(h + [m], j) == if m.id == j then Posts(h, j) + [m] else Posts(h, j)
  {
    assert (h + [m])[..|h|] == h;
  }

  function Ids(n: nat): set<int> {
    if n == 0 then {} else Ids(n - 1) + {n}
  }

  lemma {:induction false} IdsSize(n: nat)
    ensures |Ids(n)| == n
    ensures forall id :: id in Ids(n) <==> 1 <= id <= n
  {
    if n > 0 {
      IdsSize(n - 1);
    }
  }

  // The room has nothing more to do: everyone came and everyone left.
  predicate Served(h: seq<Message>, sessions: nat) {
    |Arrivals(h)| == sessions && |Members(h)| == 0
  }

  // When that holds no session can post anything any more.
  lemma ServedIsFinal(h: seq<Message>, m: Message, sessions: nat)
    requires Legal(h, sessions) && Served(h, sessions)
    ensures !MayPost(h, m, sessions)
  {
    MembersArrived(h, sessions);
    IdsSize(sessions);
    forall id | id in Arrivals(h) ensures id in Ids(sessions) {}
    SubsetOfSameSize(Arrivals(h), Ids(sessions));
  }

  lemma SubsetOfSameSize(a: set<int>, b: set<int>)
    requires a <= b && |a| == |b|
    ensures a == b
  {
    assert b == a + (b - a);
    assert |b| == |a| + |b - a|;
  }

  // The room leaves its loop after n messages only if its mailbox is empty
  // then and no session will ever send to it again.
  lemma ExitsWithEmptyMailbox(h: seq<Message>, n: nat, sessions: nat)
    requires Legal(h, sessions) && n <= |h| && Served(h[..n], sessions)
    ensures n == |h|
    ensures forall m :: !MayPost(h, m, sessions)
  {
    LegalPrefix(h, n, sessions);
    if n < |h| {
      assert MayPost(h[..n], h[n], sessions);
      ServedIsFinal(h[..n], h[n], sessions);
    } else {
      assert h[..n] == h;
      forall m ensures !MayPost(h, m, sessions) {
        ServedIsFinal(h, m, sessions);
      }
    }
  }

  // ---- the room actor ----

  // The ids in ascending order, as std::map iterates them.
  predicate Ascending(ids: seq<int>) {
    forall a, b :: 0 <= a < b < |ids| ==> ids[a] < ids[b]
  }

  // Each inbox has received what its owner should have seen.
  predicate Delivered(inboxes: map<int, seq<Line>>, h: seq<Message>) {
    inboxes.Keys == Arrivals(h) && forall i :: i in inboxes ==> inboxes[i] == InboxOf(h, i)
  }

  // The room's own books: who is in, how many came, whose inbox is closed.
  ghost predicate Table(members: seq<int>, totalJoined: nat, closed: set<int>, h: seq<Message>) {
    && Ascending(members) && |members| == |Members(h)|
    && (forall i :: i in members <==> i in Members(h))
    && totalJoined == |Arrivals(h)|
    && closed == Arrivals(h) - Members(h)
  }

  predicate AllOpen(members: seq<int>, inboxes: map<int, seq<Line>>, closed: set<int>) {
    Ascending(members) && forall k :: 0 <= k < |members| ==> members[k] in inboxes && members[k] !in closed
  }

  // Every member but `except` has been sent the line, nobody else anything.
  predicate Announced(
    before: map<int, seq<Line>>, after: map<int, seq<Line>>, members: seq<int>, line: Line, except: int)
  {
    && after.Keys == before.Keys
    && forall i :: i in before ==> after[i] == before[i] + if i in members && i != except then [line] else []
  }

  class Room {
    const sessions: nat
    var members: seq<int>
    var inboxes: map<int, seq<Line>>   // everything sent to each inbox
    var closed: set<int>
    var totalJoined: nat
    ghost var history: seq<Message>    // the messages handled so far

    ghost predicate Valid()
      reads this
    {
      Legal(history, sessions) && Table(members, totalJoined, closed, history) && Delivered(inboxes, history)
    }

    constructor (sessions: nat)
      ensures Valid() && this.sessions == sessions && history == []
    {
      this.sessions := sessions;
      members, inboxes, closed, totalJoined, history := [], map[], {}, 0, [];
    }

    // inbox->async_send; an inbox the room has closed must not be written to.
    method Send(i: int, line: Line)
      requires i in inboxes && i !in closed
      modifies `inboxes
      ensures inboxes == old(inboxes)[i := old(inboxes)[i] + [line]]
    {
      inboxes := inboxes[i := inboxes[i] + [line]];
    }

    // The loop over the member table: every member but `except` gets the line.
    method SendToAll(line: Line, except: int)
      requires AllOpen(members, inboxes, closed)
      modifies `inboxes
      ensures Announced(old(inboxes), inboxes, members, line, except)
    {
      var k := 0;
      while k < |members|
        invariant k <= |members|
        invariant Announced(old(inboxes), inboxes, members[..k], line, except)
      {
        assert members[..k + 1] == members[..k] + [members[k]];
        assert members[k] !in members[..k];
        if members[k] != except {
          Send(members[k], line);
        }
        k := k + 1;
      }
      assert members[..k] == members;
    }

    // A newcomer's inbox gets the welcome, everybody else's the announcement.
    method Greet(id: int)
      requires AllOpen(members, inboxes, closed)
      requires id !in inboxes && id !in closed
      modifies `inboxes
      ensures Announced(old(inboxes)[id := [Welcome(id)]], inboxes, members, Joined(id), id)
    {
      inboxes := inboxes[id := []];
      Send(id, Welcome(id));
      SendToAll(Joined(id), id);
    }

    method OnJoin(id: int)
      requires Valid() && MayPost(history, Join(id), sessions)
      modifies this
      ensures Valid() && history == old(history) + [Join(id)]
    {
      hide Legal, Table, Delivered, AllOpen, Announced;
      JoinOpens(members, totalJoined, closed, inboxes, history, id, sessions);
      JoinKeepsTable(members, totalJoined, closed, history, id, sessions);
      totalJoined := totalJoined + 1;
      Greet(id);
      AfterMessage(old(inboxes), inboxes, members, old(totalJoined), closed, history, Join(id), sessions);
      members := Insert(members, id);
      history := history + [Join(id)];
    }

    // The lookup in the member table never comes back empty.
    method OnLeave(id: int)
      requires Valid() && MayPost(history, Leave(id), sessions)
      modifies this
      ensures Valid() && history == old(history) + [Leave(id)]
      ensures id in old(members) && id !in old(closed) && closed == old(closed) + {id}
    {
      hide Legal, Table, Delivered, AllOpen, Announced;
      LeaveKeepsTable(members, totalJoined, closed, history, id, sessions);
      LeaveOpens(members, totalJoined, closed, inboxes, history, id, sessions);
      closed := closed + {id};
      members := Erase(members, id);
      SendToAll(Left(id), id);
      LeaverExcepted(old(inboxes), inboxes, old(members), id);
      AfterMessage(old(inboxes), inboxes, old(members), totalJoined, old(closed), history, Leave(id), sessions);
      history := history + [Leave(id)];
    }

    method OnSay(id: int, text: string)
      requires Valid() && MayPost(history, Say(id, text), sessions)
      modifies this
      ensures Valid() && history == old(history) + [Say(id, text)]
    {
      hide Legal, Table, Delivered, AllOpen, Announced;
      MembersOpen(members, totalJoined, closed, inboxes, history, sessions);
      SendToAll(Said(id, text), id);
      AfterMessage(old(inboxes), inboxes, members, totalJoined, closed, history, Say(id, text), sessions);
      SayKeepsTable(members, totalJoined, closed, history, id, text);
      history := history + [Say(id, text)];
    }

    // One round of the loop: handle a message, then see whether to return.
    method Handle(m: Message) returns (finished: bool)
      requires Valid() && MayPost(history, m, sessions)
      modifies this
      ensures Valid() && history == old(history) + [m]
      ensures finished <==> Served(history, sessions)
    {
      match m {
        case Join(id) => OnJoin(id);
        case Leave(id) => OnLeave(id);
        case Say(id, text) => OnSay(id, text);
      }
      finished := totalJoined == sessions && members == [];
    }
  }

  // ---- the books, message by message ----

  lemma MembersAfter(h: seq<Message>, m: Message)
    ensures Members(h + [m]) ==
            if m.Join? then Members(h) + {m.id} else if m.Leave? then Members(h) - {m.id} else Members(h)
    ensures Arrivals(h + [m]) == if m.Join? then Arrivals(h) + {m.id} else Arrivals(h)
  {
    assert (h + [m])[..|h|] == h;
  }

  lemma JoinKeepsTable(
    members: seq<int>, totalJoined: nat, closed: set<int>, h: seq<Message>, id: int, sessions: nat)
    requires Legal(h, sessions) && Table(members, totalJoined, closed, h) && id !in Arrivals(h)
    ensures Ascending(members) && Table(Insert(members, id), totalJoined + 1, closed, h + [Join(id)])
  {
    hide Legal, Members, Arrivals;
    MembersArrived(h, sessions);
    MembersAfter(h, Join(id));
  }

  lemma LeaveKeepsTable(
    members: seq<int>, totalJoined: nat, closed: set<int>, h: seq<Message>, id: int, sessions: nat)
    requires Legal(h, sessions) && Table(members, totalJoined, closed, h) && id in Members(h)
    ensures Ascending(members) && Table(Erase(members, id), totalJoined, closed + {id}, h + [Leave(id)])
    ensures id in members && id !in closed
  {
    hide Legal, Members, Arrivals;
    MembersArrived(h, sessions);
    MembersAfter(h, Leave(id));
  }

  lemma SayKeepsTable(
    members: seq<int>, totalJoined: nat, closed: set<int>, h: seq<Message>, id: int, text: string)
    requires Table(members, totalJoined, closed, h)
    ensures Table(members, totalJoined, closed, h + [Say(id, text)])
  {
    MembersAfter(h, Say(id, text));
  }

  // No member's inbox is missing or closed.
  lemma MembersOpen(
    members: seq<int>, totalJoined: nat, closed: set<int>, inboxes: map<int, seq<Line>>, h: seq<Message>, sessions: nat)
    requires Legal(h, sessions) && Table(members, totalJoined, closed, h) && Delivered(inboxes, h)
    ensures AllOpen(members, inboxes, closed)
  {
    MembersArrived(h, sessions);
    hide Legal, Members, Arrivals;
    forall k | 0 <= k < |members| ensures members[k] in inboxes && members[k] !in closed {
      assert members[k] in members;
    }
  }

  lemma JoinOpens(
    members: seq<int>, totalJoined: nat, closed: set<int>, inboxes: map<int, seq<Line>>,
    h: seq<Message>, id: int, sessions: nat)
    requires Legal(h, sessions) && Table(members, totalJoined, closed, h) && Delivered(inboxes, h)
    requires id !in Arrivals(h)
    ensures AllOpen(members, inboxes, closed) && id !in inboxes && id !in closed
  {
    MembersOpen(members, totalJoined, closed, inboxes, h, sessions);
  }

  lemma LeaveOpens(
    members: seq<int>, totalJoined: nat, closed: set<int>, inboxes: map<int, seq<Line>>,
    h: seq<Message>, id: int, sessions: nat)
    requires Legal(h, sessions) && Table(members, totalJoined, closed, h) && Delivered(inboxes, h)
    ensures Ascending(members) && AllOpen(Erase(members, id), inboxes, closed + {id})
  {
    MembersOpen(members, totalJoined, closed, inboxes, h, sessions);
    var rest := Erase(members, id);
    forall k | 0 <= k < |rest| ensures rest[k] in inboxes && rest[k] !in closed + {id} {
      assert rest[k] in rest;
      assert rest[k] in members;
    }
  }

  // The leaver is out of the table already, so excepting it makes no difference.
  lemma LeaverExcepted(before: map<int, seq<Line>>, after: map<int, seq<Line>>, members: seq<int>, id: int)
    requires Ascending(members) && Announced(before, after, Erase(members, id), Left(id), id)
    ensures Announced(before, after, members, Left(id), id)
  {}

  // What one message brings the inboxes is what its recipients should see.
  lemma AfterMessage(
    before: map<int, seq<Line>>, after: map<int, seq<Line>>, members: seq<int>, totalJoined: nat, closed: set<int>,
    h: seq<Message>, m: Message, sessions: nat)
    requires Legal(h, sessions) && MayPost(h, m, sessions)
    requires Delivered(before, h) && Table(members, totalJoined, closed, h)
    requires m.Join? ==> Announced(before[m.id := [Welcome(m.id)]], after, members, Joined(m.id), m.id)
    requires !m.Join? ==> Announced(before, after, members, Render(m, 0), m.id)
    ensures Legal(h + [m], sessions) && Delivered(after, h + [m])
  {
    ExtendLegal(h, m, sessions);
    MembersAfter(h, m);
    var g := h + [m];
    forall i | i in after ensures after[i] == InboxOf(g, i) {
      InboxAfter(h, m, i);
      if m == Join(i) {
        InboxBeforeJoin(h, i, sessions);
      }
    }
  }

  lemma InboxAfter(h: seq<Message>, m: Message, i: int)
    ensures InboxOf(h + [m], i) ==
            if m == Join(i) || (i in Members(h) && m.id != i) then InboxOf(h, i) + [Render(m, i)] else InboxOf(h, i)
  {
    assert (h + [m])[..|h|] == h;
  }

  lemma {:induction false} InboxBeforeJoin(h: seq<Message>, i: int, sessions: nat)
    requires Legal(h, sessions) && i !in Arrivals(h)
    ensures InboxOf(h, i) == []
    decreases |h|
  {
    if h != [] {
      var init := h[..|h| - 1];
      LegalPrefix(h, |h| - 1, sessions);
      InboxBeforeJoin(init, i, sessions);
      MembersArrived(init, sessions);
    }
  }

  function Insert(ids: seq<int>, id: int): (out: seq<int>)
    requires Ascending(ids)
    ensures Ascending(out) && forall x :: x in out <==> x in ids || x == id
    ensures id !in ids ==> |out| == |ids| + 1
  {
    if ids == [] then [id]
    else if id < ids[0] then [id] + ids
    else if id == ids[0] then ids
    else
      var rest := Insert(ids[1..], id);
      assert ids == [ids[0]] + ids[1..];
      assert forall k :: 0 <= k < |rest| ==> rest[k] in rest;
      [ids[0]] + rest
  }

  function Erase(ids: seq<int>, id: int): (out: seq<int>)
    requires Ascending(ids)
    ensures Ascending(out) && forall x :: x in out <==> x in ids && x != id
    ensures id in ids ==> |out| == |ids| - 1
  {
    if ids == [] then []
    else
      assert ids == [ids[0]] + ids[1..];
      if id == ids[0] then ids[1..]
      else
        var rest := Erase(ids[1..], id);
        assert forall k :: 0 <= k < |rest| ==> rest[k] in rest;
        [ids[0]] + rest
  }

  // With no session expected nobody ever writes to the room, so it waits for ever.
  lemma NobodyExpected(h: seq<Message>)
    requires AllBehave(h, 0)
    ensures h == []
  {
    if h != [] {
      OnlyExpectedPost(h, h[|h| - 1].id, 0);
    }
  }

  lemma OnlyExpectedPost(h: seq<Message>, i: int, sessions: nat)
    requires AllBehave(h, sessions) && Posts(h, i) != []
    ensures 1 <= i <= sessions
  {
    assert Behaves(Posts(h, i), i, sessions);
  }

  // room_actor, given what arrives in its mailbox: it handles messages in order
  // and returns only when everyone has come and left.
  method RoomActor(mailbox: seq<Message>, sessions: nat) returns (room: Room, handled: nat, returned: bool)
    requires AllBehave(mailbox, sessions)
    ensures handled <= |mailbox| && room.Valid() && room.sessions == sessions
    ensures room.history == mailbox[..handled]
    ensures returned <==> mailbox != [] && Served(mailbox, sessions)
    ensures handled == |mailbox|
  {
    OnlyMembersPost(mailbox, sessions);
    room := new Room(sessions);
    hide Served, MayPost, Members, Arrivals;
    handled, returned := 0, false;
    while handled < |mailbox|
      invariant handled <= |mailbox| && room.Valid() && fresh(room) && room.sessions == sessions
      invariant room.history == mailbox[..handled]
      invariant !returned && Legal(mailbox, sessions)
      invariant handled > 0 ==> !Served(mailbox[..handled], sessions)
    {
      assert mailbox[..handled + 1] == mailbox[..handled] + [mailbox[handled]];
      assert MayPost(mailbox[..handled], mailbox[handled], sessions);
      returned := room.Handle(mailbox[handled]);
      handled := handled + 1;
      if returned {
        ExitsWithEmptyMailbox(mailbox, handled, sessions);
        assert mailbox[..handled] == mailbox;
        return;
      }
    }
    assert mailbox[..handled] == mailbox;
  }
}
