// The chat room and its sessions as processes: a bounded mailbox in front of
// the room, a bounded inbox in front of each session's writer, and every
// process suspended where its channel is full or empty.
module ChatNetwork {
  import opened Chat
  import opened Sums

  // The room waits for a message, still has to send the one it took to some
  // sessions, or has left its loop.
  datatype RoomAt = Receiving | Sending(todo: seq<int>) | Returned

  // Session i's entries stand at index i - 1.
  datatype State = State(
    texts: seq<seq<string>>,       // the lines each session's peer types before it disconnects
    mailboxSize: nat,
    inboxSize: nat,
    posted: seq<Message>,          // all that was ever sent to the room, in order
    taken: nat,                    // how much of it the room has received
    room: RoomAt,
    members: seq<int>,
    totalJoined: nat,
    closed: set<int>,              // whose inbox the room has closed
    inboxes: seq<seq<Line>>,
    written: seq<seq<Line>>,       // what each writer has passed on to its socket
    over: set<int>)                // whose writer has returned

  datatype Action =
    | Push(i: int)      // session i's send finds room in the mailbox
    | Take              // the room receives from the mailbox
    | Meet(i: int)      // the room waits on an empty mailbox and session i sends
    | Deliver           // the room's send finds room in an inbox
    | HandOver          // the room's send meets a writer that waits on its empty inbox
    | Done              // the room has sent to everyone
    | Write(i: int)     // a writer takes a line from its inbox
    | End(i: int)       // a writer finds its inbox closed and empty

  function Init(texts: seq<seq<string>>, mailboxSize: nat, inboxSize: nat): State {
    var nothing := seq(|texts|, _ => []);
    State(texts, mailboxSize, inboxSize, [], 0, Receiving, [], 0, {}, nothing, nothing, {})
  }

  function Says(texts: seq<string>, i: int): seq<Message> {
    seq(|texts|, k requires 0 <= k < |texts| => Say(i, texts[k]))
  }

  // session_actor and session_reader: join, every line, leave.
  function Script(texts: seq<string>, i: int): seq<Message> {
    [Join(i)] + Says(texts, i) + [Leave(i)]
  }

  predicate IsSession(s: State, i: int) {
    1 <= i <= |s.texts|
  }

  predicate Shaped(s: State) {
    && |s.inboxes| == |s.written| == |s.texts|
    && Ascending(s.members) && s.taken <= |s.posted|
    && (s.room.Sending? ==> s.taken > 0 && forall k :: 0 <= k < |s.room.todo| ==> IsSession(s, s.room.todo[k]))
  }

  predicate CanPost(s: State, i: int) {
    IsSession(s, i) && |Posts(s.posted, i)| < |s.texts[i - 1]| + 2
  }

  function Next(s: State, i: int): Message
    requires CanPost(s, i)
  {
    Script(s.texts[i - 1], i)[|Posts(s.posted, i)|]
  }

  // Whose inbox is next.
  function Target(s: State): int
    requires Shaped(s) && s.room.Sending? && s.room.todo != []
  {
    s.room.todo[0]
  }

  predicate Enabled(s: State, a: Action)
    requires Shaped(s)
  {
    match a
    case Push(i) => CanPost(s, i) && |s.posted| - s.taken < s.mailboxSize
    case Take => s.room.Receiving? && s.taken < |s.posted|
    case Meet(i) => s.room.Receiving? && s.taken == |s.posted| && CanPost(s, i)
    case Deliver =>
      s.room.Sending? && s.room.todo != [] && |s.inboxes[Target(s) - 1]| < s.inboxSize
    case HandOver =>
      s.room.Sending? && s.room.todo != [] && s.inboxes[Target(s) - 1] == [] && Target(s) !in s.over
    case Done => s.room == Sending([])
    case Write(i) => IsSession(s, i) && s.inboxes[i - 1] != [] && i !in s.over
    case End(i) => IsSession(s, i) && i in s.closed && s.inboxes[i - 1] == [] && i !in s.over
  }

  function Post(s: State, i: int): State
    requires CanPost(s, i)
  {
    s.(posted := s.posted + [Next(s, i)])
  }

  // The room takes its next message: it counts or closes, and turns to whom it will send.
  function Begin(s: State): State
    requires Shaped(s) && s.taken < |s.posted|
  {
    var t := s.(taken := s.taken + 1);
    match s.posted[s.taken]
    case Join(id) => t.(totalJoined := s.totalJoined + 1, room := Sending([id] + s.members))
    case Leave(id) =>
      t.(closed := s.closed + {id}, members := Erase(s.members, id), room := Sending(Erase(s.members, id)))
    case Say(id, _) => t.(room := Sending(Erase(s.members, id)))
  }

  // The line the room is sending, as session i sees it.
  function Current(s: State, i: int): Line
    requires Shaped(s) && s.room.Sending?
  {
    Render(s.posted[s.taken - 1], i)
  }

  function Sent(s: State): State
    requires Shaped(s) && s.room.Sending? && s.room.todo != []
  {
    s.(room := Sending(s.room.todo[1..]))
  }

  // A newcomer enters the table last; then the room sees whether to return.
  function Finish(s: State): State
    requires Shaped(s) && s.room.Sending?
  {
    var m := s.posted[s.taken - 1];
    var members := if m.Join? then Insert(s.members, m.id) else s.members;
    s.(members := members, room := if s.totalJoined == |s.texts| && members == [] then Returned else Receiving)
  }

  function Apply(s: State, a: Action): State
    requires Shaped(s) && Enabled(s, a)
  {
    match a
    case Push(i) => Post(s, i)
    case Take => Begin(s)
    case Meet(i) => Begin(Post(s, i))
    case Deliver =>
      var i := Target(s);
      Sent(s).(inboxes := s.inboxes[i - 1 := s.inboxes[i - 1] + [Current(s, i)]])
    case HandOver =>
      var i := Target(s);
      Sent(s).(written := s.written[i - 1 := s.written[i - 1] + [Current(s, i)]])
    case Done => Finish(s)
    case Write(i) =>
      var line := s.inboxes[i - 1][0];
      s.(inboxes := s.inboxes[i - 1 := s.inboxes[i - 1][1..]], written := s.written[i - 1 := s.written[i - 1] + [line]])
    case End(i) => s.(over := s.over + {i})
  }

  // ---- the invariant ----

  function History(s: State): seq<Message>
    requires s.taken <= |s.posted|
  {
    s.posted[..s.taken]
  }

  // Every session has sent the beginning of its script.
  predicate InScript(s: State) {
    && (forall i :: 1 <= i <= |s.texts| ==> Posts(s.posted, i) <= Script(s.texts[i - 1], i))
    && (forall k :: 0 <= k < |s.posted| ==> IsSession(s, s.posted[k].id))
  }

  // The room's books are those of its history, but for a newcomer it is still greeting.
  ghost predicate Books(s: State)
    requires Shaped(s)
  {
    if s.room.Sending? && s.posted[s.taken - 1].Join? then
      s.totalJoined > 0 && Table(s.members, s.totalJoined - 1, s.closed, s.posted[..s.taken - 1])
    else
      Table(s.members, s.totalJoined, s.closed, History(s))
  }

  function Pending(s: State, i: int): seq<Line>
    requires Shaped(s)
  {
    if s.room.Sending? && i in s.room.todo then [Current(s, i)] else []
  }

  // What session i has got, will get and is being sent is what it should see.
  predicate Mail(s: State, i: int)
    requires Shaped(s) && IsSession(s, i)
  {
    s.written[i - 1] + s.inboxes[i - 1] + Pending(s, i) == InboxOf(History(s), i)
  }

  predicate Distinct(ids: seq<int>) {
    forall j, k :: 0 <= j < k < |ids| ==> ids[j] != ids[k]
  }

  predicate Channels(s: State)
    requires Shaped(s)
  {
    && (forall k :: 0 <= k < |s.inboxes| ==> |s.inboxes[k]| <= s.inboxSize)
    && (s.room.Sending? ==>
          Distinct(s.room.todo) && forall k :: 0 <= k < |s.room.todo| ==> s.room.todo[k] !in s.closed)
    && (forall i :: i in s.over ==> IsSession(s, i) && i in s.closed && s.inboxes[i - 1] == [])
  }

  predicate AtExit(s: State)
    requires Shaped(s)
  {
    && (s.room.Receiving? ==> s.taken == 0 || !Served(History(s), |s.texts|))
    && (s.room.Returned? ==> Served(History(s), |s.texts|))
  }

  ghost predicate Core(s: State) {
    && Shaped(s) && InScript(s) && Books(s) && Channels(s) && AtExit(s)
    && forall i :: 1 <= i <= |s.texts| ==> Mail(s, i)
  }

  ghost predicate Inv(s: State) {
    Core(s) && |s.posted| <= s.taken + s.mailboxSize
  }

  lemma InitInv(texts: seq<seq<string>>, mailboxSize: nat, inboxSize: nat)
    ensures Inv(Init(texts, mailboxSize, inboxSize))
  {
    hide Script;
  }

  // ---- the sessions' side ----

  lemma ScriptBehaves(texts: seq<string>, posts: seq<Message>, i: int, sessions: nat)
    requires 1 <= i <= sessions && posts <= Script(texts, i)
    ensures Behaves(posts, i, sessions)
  {
    var script := Script(texts, i);
    assert forall k :: 0 <= k < |posts| ==> posts[k] == script[k];
  }

  lemma {:induction false} NobodysPosts(h: seq<Message>, i: int)
    requires forall k :: 0 <= k < |h| ==> h[k].id != i
    ensures Posts(h, i) == []
  {
    if h != [] {
      NobodysPosts(h[..|h| - 1], i);
    }
  }

  lemma SessionsBehave(s: State)
    requires Shaped(s) && InScript(s)
    ensures AllBehave(s.posted, |s.texts|) && Legal(s.posted, |s.texts|) && Legal(History(s), |s.texts|)
  {
    forall i ensures Behaves(Posts(s.posted, i), i, |s.texts|) {
      if IsSession(s, i) {
        ScriptBehaves(s.texts[i - 1], Posts(s.posted, i), i, |s.texts|);
      } else {
        NobodysPosts(s.posted, i);
      }
    }
    OnlyMembersPost(s.posted, |s.texts|);
    LegalPrefix(s.posted, s.taken, |s.texts|);
  }

  lemma NextIsOwn(s: State, i: int)
    requires CanPost(s, i)
    ensures Next(s, i).id == i && |Script(s.texts[i - 1], i)| == |s.texts[i - 1]| + 2
  {}

  lemma LongerPrefix(part: seq<Message>, whole: seq<Message>)
    requires part <= whole && |part| < |whole|
    ensures part + [whole[|part|]] <= whole
  {}

  lemma PostKeepsScript(s: State, i: int)
    requires InScript(s) && CanPost(s, i)
    ensures InScript(Post(s, i))
  {
    NextIsOwn(s, i);
    forall j | 1 <= j <= |s.texts| ensures Posts(Post(s, i).posted, j) <= Script(s.texts[j - 1], j) {
      OneMoreInScript(s, i, j);
    }
    hide Posts, Script, Next;
  }

  lemma OneMoreInScript(s: State, i: int, j: int)
    requires CanPost(s, i) && IsSession(s, j)
    requires Posts(s.posted, i) <= Script(s.texts[i - 1], i) && Posts(s.posted, j) <= Script(s.texts[j - 1], j)
    ensures Posts(Post(s, i).posted, j) <= Script(s.texts[j - 1], j)
  {
    NextIsOwn(s, i);
    OnePostMore(s, i, j);
    if j == i {
      LongerPrefix(Posts(s.posted, i), Script(s.texts[i - 1], i));
    }
    hide Posts, Script;
  }

  lemma OnePostMore(s: State, i: int, j: int)
    requires CanPost(s, i)
    ensures Posts(Post(s, i).posted, j) == if j == i then Posts(s.posted, i) + [Next(s, i)] else Posts(s.posted, j)
  {
    NextIsOwn(s, i);
    hide Next, CanPost, Posts;
    PostsAppend(s.posted, Next(s, i), j);
  }

  // What a session may send the room is ready for.
  lemma NextIsLegal(s: State, i: int)
    requires Shaped(s) && InScript(s) && CanPost(s, i)
    ensures MayPost(s.posted, Next(s, i), |s.texts|)
  {
    SessionsBehave(s);
    NextIsOwn(s, i);
    var more := Posts(s.posted, i) + [Next(s, i)];
    ScriptBehaves(s.texts[i - 1], more, i, |s.texts|);
    NextPost(s.posted, Next(s, i), |s.texts|);
  }

  // ---- the room takes a message ----

  lemma TakesLegal(s: State)
    requires Shaped(s) && InScript(s) && s.taken < |s.posted|
    ensures Legal(History(s), |s.texts|) && MayPost(History(s), s.posted[s.taken], |s.texts|)
    ensures History(s.(taken := s.taken + 1, room := Receiving)) == History(s) + [s.posted[s.taken]]
  {
    SessionsBehave(s);
    assert s.posted[..s.taken + 1] == s.posted[..s.taken] + [s.posted[s.taken]];
  }

  lemma AscendingIsDistinct(ids: seq<int>)
    requires Ascending(ids)
    ensures Distinct(ids)
  {}

  // To whom the room will send: the newcomer, and the members but the sender.
  lemma Recipients(s: State)
    requires Shaped(s) && InScript(s) && Books(s) && s.room.Receiving? && s.taken < |s.posted|
    ensures var t, m := Begin(s), s.posted[s.taken];
            && t.room.Sending? && Distinct(t.room.todo)
            && (forall i :: i in t.room.todo <==> m == Join(i) || (i in Members(History(s)) && m.id != i))
  {
    TakesLegal(s);
    MembersArrived(History(s), |s.texts|);
    hide InScript, Members, Arrivals, Legal;
  }

  lemma BeginShapes(s: State)
    requires Shaped(s) && InScript(s) && Books(s) && s.room.Receiving? && s.taken < |s.posted|
    ensures Shaped(Begin(s))
    ensures forall k :: 0 <= k < |Begin(s).room.todo| ==> Begin(s).room.todo[k] !in Begin(s).closed
  {
    Recipients(s);
    TakesLegal(s);
    MembersArrived(History(s), |s.texts|);
    var t := Begin(s);
    forall k | 0 <= k < |t.room.todo| ensures IsSession(s, t.room.todo[k]) && t.room.todo[k] !in t.closed {
      assert t.room.todo[k] in t.room.todo;
    }
  }

  lemma BeginKeepsBooks(s: State)
    requires Shaped(s) && InScript(s) && Books(s) && s.room.Receiving? && s.taken < |s.posted|
    requires Shaped(Begin(s))
    ensures Books(Begin(s))
  {
    TakesLegal(s);
    var h, m := History(s), s.posted[s.taken];
    var t := Begin(s);
    assert t.posted[..t.taken] == h + [m];
    match m
    case Join(id) => assert t.posted[..t.taken - 1] == h;
    case Leave(id) => LeaveKeepsTable(s.members, s.totalJoined, s.closed, h, id, |s.texts|);
    case Say(id, text) => SayKeepsTable(s.members, s.totalJoined, s.closed, h, id, text);
  }

  lemma BeginKeepsMail(s: State, i: int)
    requires Shaped(s) && InScript(s) && Books(s) && s.room.Receiving? && s.taken < |s.posted|
    requires Shaped(Begin(s)) && IsSession(s, i) && Mail(s, i)
    ensures Mail(Begin(s), i)
  {
    hide InScript, Books, InboxOf, Members, Erase, Arrivals, Legal;
    Recipients(s);
    var m, t := s.posted[s.taken], Begin(s);
    InboxAfter(History(s), m, i);
    TakenHistory(s);
    assert Current(t, i) == Render(m, i) && t.written == s.written && t.inboxes == s.inboxes;
    hide Begin;
    MailAppend(s.written[i - 1] + s.inboxes[i - 1], InboxOf(History(s), i), Render(m, i));
  }

  lemma TakenHistory(s: State)
    requires s.taken < |s.posted|
    ensures s.posted[..s.taken + 1] == History(s) + [s.posted[s.taken]]
  {}

  lemma MailAppend(got: seq<Line>, due: seq<Line>, line: Line)
    requires got + [] == due
    ensures got == due && got + [line] == due + [line]
  {}

  lemma BeginKeeps(s: State)
    requires Core(s) && s.room.Receiving? && s.taken < |s.posted|
    ensures Core(Begin(s))
  {
    Recipients(s);
    BeginShapes(s);
    BeginKeepsBooks(s);
    forall i | 1 <= i <= |s.texts| ensures Mail(Begin(s), i) {
      BeginKeepsMail(s, i);
    }
    hide Books, Mail, InScript;
    BeginKeepsChannels(s);
  }

  lemma BeginKeepsChannels(s: State)
    requires Shaped(s) && Channels(s) && s.room.Receiving? && s.taken < |s.posted| && Shaped(Begin(s))
    requires Begin(s).room.Sending? && Distinct(Begin(s).room.todo)
    requires forall k :: 0 <= k < |Begin(s).room.todo| ==> Begin(s).room.todo[k] !in Begin(s).closed
    ensures Channels(Begin(s)) && AtExit(Begin(s))
  {}

  lemma PostKeeps(s: State, i: int)
    requires Core(s) && CanPost(s, i)
    ensures Core(Post(s, i))
  {
    var t := Post(s, i);
    PostKeepsScript(s, i);
    assert t.posted[..t.taken] == s.posted[..s.taken];
    if s.taken > 0 {
      assert t.posted[..t.taken - 1] == s.posted[..s.taken - 1];
    }
    forall j | 1 <= j <= |s.texts| ensures Mail(t, j) {
      assert Mail(s, j);
    }
  }

  // ---- the room sends, finishes ----

  // The first of the sessions still to be sent to gets its line, in its inbox or directly.
  lemma DeliverKeeps(s: State, a: Action)
    requires Core(s) && (a.Deliver? || a.HandOver?) && Enabled(s, a)
    ensures Core(Apply(s, a))
  {
    DeliverKeepsRest(s, a);
    var t := Apply(s, a);
    forall j | 1 <= j <= |s.texts| ensures Mail(t, j) {
      DeliverKeepsMail(s, a, j);
    }
    hide Mail, Books, InScript, Channels, AtExit, Apply, Enabled;
  }

  lemma DeliverKeepsRest(s: State, a: Action)
    requires Shaped(s) && InScript(s) && Books(s) && Channels(s) && AtExit(s)
    requires (a.Deliver? || a.HandOver?) && Enabled(s, a)
    ensures var t := Apply(s, a);
            Shaped(t) && InScript(t) && Books(t) && Channels(t) && AtExit(t) && t.texts == s.texts
  {
    hide Table, Posts, Script, Served, Render;
    var t, i := Apply(s, a), Target(s);
    assert i in s.room.todo;
    assert forall k :: 0 <= k < |t.room.todo| ==> t.room.todo[k] == s.room.todo[k + 1];
  }

  lemma DeliverKeepsMail(s: State, a: Action, j: int)
    requires Core(s) && (a.Deliver? || a.HandOver?) && Enabled(s, a) && IsSession(s, j) && Shaped(Apply(s, a))
    ensures Mail(Apply(s, a), j)
  {
    hide InScript, Books, AtExit, InboxOf, Render;
    var t, i := Apply(s, a), Target(s);
    assert Mail(s, j);
    assert s.room.todo == [i] + t.room.todo;
    if j == i {
      assert Pending(s, j) == [Current(s, j)] && Pending(t, j) == [];
      LineArrives(s.written[j - 1], s.inboxes[j - 1], Current(s, j));
    } else {
      assert j in s.room.todo <==> j in t.room.todo;
      assert Pending(s, j) == Pending(t, j);
    }
  }

  lemma LineArrives(written: seq<Line>, inbox: seq<Line>, line: Line)
    ensures written + (inbox + [line]) + [] == written + inbox + [line]
    ensures inbox == [] ==> (written + [line]) + inbox + [] == written + inbox + [line]
  {}

  // The message being sent, and what the room had handled before it.
  lemma LastTaken(s: State)
    requires Shaped(s) && InScript(s) && s.room.Sending?
    ensures var before, m := s.posted[..s.taken - 1], s.posted[s.taken - 1];
            && History(s) == before + [m]
            && Legal(before, |s.texts|) && MayPost(before, m, |s.texts|)
  {
    SessionsBehave(s);
    var h, k := History(s), s.taken - 1;
    assert h[..k] == s.posted[..k];
    LegalPrefix(h, k, |s.texts|);
    assert MayPost(h[..k], h[k], |s.texts|);
  }

  lemma FinishKeepsBooks(s: State)
    requires Shaped(s) && InScript(s) && Books(s) && s.room.Sending?
    ensures Table(Finish(s).members, s.totalJoined, s.closed, History(s))
  {
    LastTaken(s);
    var m := s.posted[s.taken - 1];
    if m.Join? {
      JoinKeepsTable(s.members, s.totalJoined - 1, s.closed, s.posted[..s.taken - 1], m.id, |s.texts|);
    }
  }

  lemma TableTellsServed(members: seq<int>, totalJoined: nat, closed: set<int>, h: seq<Message>, sessions: nat)
    requires Table(members, totalJoined, closed, h)
    ensures Served(h, sessions) <==> totalJoined == sessions && members == []
  {}

  lemma FinishKeeps(s: State)
    requires Core(s) && s.room == Sending([])
    ensures Core(Finish(s))
  {
    var t := Finish(s);
    FinishKeepsBooks(s);
    TableTellsServed(t.members, t.totalJoined, t.closed, History(s), |s.texts|);
    assert Ascending(t.members);
    hide Table, Served, InScript;
    forall i | 1 <= i <= |s.texts| ensures Mail(t, i) {
      assert Mail(s, i);
    }
    hide Mail;
  }

  // ---- the writers ----

  lemma WriteKeeps(s: State, i: int)
    requires Core(s) && Enabled(s, Write(i))
    ensures Core(Apply(s, Write(i)))
  {
    var t := Apply(s, Write(i));
    forall j | 1 <= j <= |s.texts| ensures Mail(t, j) {
      assert Mail(s, j);
      WriteKeepsMail(s, i, j);
    }
    hide Mail, InScript, Table, AtExit;
  }

  lemma WriteKeepsMail(s: State, i: int, j: int)
    requires Shaped(s) && Enabled(s, Write(i)) && IsSession(s, j) && Mail(s, j) && Shaped(Apply(s, Write(i)))
    ensures Mail(Apply(s, Write(i)), j)
  {
    hide InboxOf, Render;
    MoveLine(s.written[i - 1], s.inboxes[i - 1]);
  }

  lemma MoveLine(written: seq<Line>, inbox: seq<Line>)
    requires inbox != []
    ensures (written + [inbox[0]]) + inbox[1..] == written + inbox
  {}

  lemma EndKeeps(s: State, i: int)
    requires Core(s) && Enabled(s, End(i))
    ensures Core(Apply(s, End(i)))
  {
    hide InScript, Table, Served, InboxOf;
    var t := Apply(s, End(i));
    forall j | 1 <= j <= |s.texts| ensures Mail(t, j) {
      assert Mail(s, j);
    }
    hide Mail;
    assert Books(t) && AtExit(t);
    assert InScript(t) by {
      SameScript(s, t);
    }
  }

  lemma SameScript(s: State, t: State)
    requires InScript(s) && t.posted == s.posted && t.texts == s.texts
    ensures InScript(t)
  {}

  lemma StepKeepsInv(s: State, a: Action)
    requires Inv(s) && Enabled(s, a)
    ensures Inv(Apply(s, a))
  {
    assert Shaped(s);
    hide Core;
    match a
    case Push(i) => PostKeeps(s, i);
    case Take => BeginKeeps(s);
    case Meet(i) =>
      PostKeeps(s, i);
      BeginKeeps(Post(s, i));
    case Deliver => DeliverKeeps(s, a);
    case HandOver => DeliverKeeps(s, a);
    case Done => FinishKeeps(s);
    case Write(i) => WriteKeeps(s, i);
    case End(i) => EndKeeps(s, i);
  }

  // ---- every run ends ----

  function Counts(h: seq<Message>, n: nat): seq<nat> {
    seq(n, k requires 0 <= k < n => |Posts(h, k + 1)|)
  }

  lemma {:induction false} CountsCover(h: seq<Message>, n: nat)
    requires forall k :: 0 <= k < |h| ==> 1 <= h[k].id <= n
    ensures |h| == Sum(Counts(h, n))
  {
    if h == [] {
      InitSum(n);
      assert Counts(h, n) == seq(n, _ => 0 as nat);
    } else {
      var init, i := h[..|h| - 1], h[|h| - 1].id;
      CountsCover(init, n);
      SumUpdate(Counts(init, n), i - 1, |Posts(init, i)| + 1);
      assert Counts(h, n) == Counts(init, n)[i - 1 := |Posts(init, i)| + 1];
    }
  }

  lemma {:induction false} SumMonotone(a: seq<nat>, b: seq<nat>)
    requires |a| == |b| && forall k :: 0 <= k < |a| ==> a[k] <= b[k]
    ensures Sum(a) <= Sum(b)
  {
    if a != [] {
      SumMonotone(a[..|a| - 1], b[..|b| - 1]);
    }
  }

  // How many messages the sessions send in all.
  function Messages(texts: seq<seq<string>>): nat {
    Sum(seq(|texts|, k requires 0 <= k < |texts| => |texts[k]| + 2))
  }

  lemma PostedBound(s: State)
    requires InScript(s)
    ensures |s.posted| <= Messages(s.texts)
  {
    var n := |s.texts|;
    CountsCover(s.posted, n);
    forall k | 0 <= k < n ensures Counts(s.posted, n)[k] <= |s.texts[k]| + 2 {
      assert Posts(s.posted, k + 1) <= Script(s.texts[k], k + 1);
    }
    SumMonotone(Counts(s.posted, n), seq(n, k requires 0 <= k < n => |s.texts[k]| + 2));
  }

  lemma {:induction false} InboxLength(h: seq<Message>, i: int)
    ensures |InboxOf(h, i)| <= |h|
    decreases |h|
  {
    if h != [] {
      InboxLength(h[..|h| - 1], i);
    }
  }

  // Lines in inboxes, and twice those that have gone through one.
  function Traffic(s: State): seq<nat>
    requires Shaped(s)
  {
    seq(|s.texts|, k requires 0 <= k < |s.texts| => 2 * |s.written[k]| + |s.inboxes[k]|)
  }

  function Progress(s: State): int
    requires Shaped(s)
  {
    |s.posted| + 2 * s.taken - (if s.room.Sending? then 1 else 0) + Sum(Traffic(s)) + |s.over|
  }

  function Bound(texts: seq<seq<string>>): nat {
    3 * Messages(texts) + |texts| * (2 * Messages(texts)) + |texts|
  }

  // A line moves to or through session i's inbox.
  lemma TrafficGrows(s: State, t: State, i: int)
    requires Shaped(s) && Shaped(t) && t.texts == s.texts && IsSession(s, i)
    requires t.written == s.written[i - 1 := t.written[i - 1]] && t.inboxes == s.inboxes[i - 1 := t.inboxes[i - 1]]
    ensures Sum(Traffic(t)) == Sum(Traffic(s)) + 2 * |t.written[i - 1]| + |t.inboxes[i - 1]|
                               - 2 * |s.written[i - 1]| - |s.inboxes[i - 1]|
  {
    var more := 2 * |t.written[i - 1]| + |t.inboxes[i - 1]|;
    SumUpdate(Traffic(s), i - 1, more);
    assert Traffic(t) == Traffic(s)[i - 1 := more];
  }

  lemma StepAdvances(s: State, a: Action)
    requires Shaped(s) && Enabled(s, a) && Shaped(Apply(s, a))
    ensures Progress(s) < Progress(Apply(s, a))
    ensures Apply(s, a).texts == s.texts
  {
    hide Posts, Render, Insert, Erase;
    match a
    case Deliver => LineAdvances(s, a, Target(s));
    case HandOver => LineAdvances(s, a, Target(s));
    case Write(i) => LineAdvances(s, a, i);
    case _ => RoomAdvances(s, a);
  }

  lemma LineAdvances(s: State, a: Action, i: int)
    requires Shaped(s) && Enabled(s, a) && Shaped(Apply(s, a)) && (a.Deliver? || a.HandOver? || a.Write?)
    requires i == if a.Write? then a.i else Target(s)
    ensures Progress(s) < Progress(Apply(s, a))
  {
    hide Posts, Render, Insert, Erase;
    TrafficGrows(s, Apply(s, a), i);
    hide Traffic, Sum;
  }

  lemma RoomAdvances(s: State, a: Action)
    requires Shaped(s) && Enabled(s, a) && Shaped(Apply(s, a)) && !(a.Deliver? || a.HandOver? || a.Write?)
    ensures Progress(s) < Progress(Apply(s, a))
  {
    hide Posts, Render, Insert, Erase, Sum, Traffic, Ascending, Next;
    SameTraffic(s, Apply(s, a));
  }

  lemma SameTraffic(s: State, t: State)
    requires Shaped(s) && Shaped(t) && t.texts == s.texts && t.written == s.written && t.inboxes == s.inboxes
    ensures Traffic(t) == Traffic(s)
  {}

  lemma ProgressIsBounded(s: State)
    requires Core(s)
    ensures Progress(s) <= Bound(s.texts)
  {
    PostedBound(s);
    TrafficBound(s);
    OverBound(s);
  }

  lemma TrafficBound(s: State)
    requires Core(s)
    ensures Sum(Traffic(s)) <= |s.texts| * (2 * Messages(s.texts))
  {
    PostedBound(s);
    forall k | 0 <= k < |s.texts| ensures Traffic(s)[k] <= 2 * Messages(s.texts) {
      assert Mail(s, k + 1);
      InboxLength(History(s), k + 1);
    }
    SumBound(Traffic(s), 2 * Messages(s.texts));
  }

  lemma OverBound(s: State)
    requires Shaped(s) && Channels(s)
    ensures |s.over| <= |s.texts|
  {
    IdsSize(|s.texts|);
    var all := Ids(|s.texts|);
    forall i | i in s.over ensures i in all {
      assert IsSession(s, i);
    }
    assert s.over <= all;
    assert all == s.over + (all - s.over);
    assert |all| == |s.over| + |all - s.over|;
  }

  // ---- no deadlock ----

  // Everyone has sent all it had to, the room has returned, and every session
  // has written what it should have seen and found its inbox closed.
  predicate Finished(s: State)
    requires Shaped(s)
  {
    && s.room.Returned? && s.taken == |s.posted|
    && forall i :: 1 <= i <= |s.texts| ==>
         && Posts(s.posted, i) == Script(s.texts[i - 1], i)
         && i in s.closed && i in s.over && s.inboxes[i - 1] == []
         && s.written[i - 1] == InboxOf(s.posted, i)
  }

  lemma AllSent(s: State)
    requires Shaped(s) && InScript(s) && forall i :: !CanPost(s, i)
    ensures forall i :: 1 <= i <= |s.texts| ==> Posts(s.posted, i) == Script(s.texts[i - 1], i)
  {
    forall i | 1 <= i <= |s.texts| ensures Posts(s.posted, i) == Script(s.texts[i - 1], i) {
      assert !CanPost(s, i);
      assert Posts(s.posted, i) <= Script(s.texts[i - 1], i);
    }
  }

  // A script says the peer's lines, in the order they were typed.
  lemma ScriptSays(texts: seq<string>, i: int)
    ensures Texts(Script(texts, i)) == texts
    ensures Script(texts, i)[0] == Join(i) && Script(texts, i)[|texts| + 1] == Leave(i)
  {
    var says := Says(texts, i);
    SaysSay([Join(i)], texts, i);
    assert [Join(i)][..0] == [];
    assert Texts([Join(i)]) == [];
    TextsAppend([Join(i)] + says, Leave(i));
    assert [] + texts == texts;
  }

  lemma {:induction false} SaysSay(before: seq<Message>, texts: seq<string>, i: int)
    ensures Texts(before + Says(texts, i)) == Texts(before) + texts
  {
    if texts == [] {
      assert before + Says(texts, i) == before;
      assert Texts(before) + [] == Texts(before);
    } else {
      var init, last := texts[..|texts| - 1], texts[|texts| - 1];
      SaysSay(before, init, i);
      assert Says(texts, i) == Says(init, i) + [Say(i, last)];
      hide *;
      AppendThird(before, Says(init, i), [Say(i, last)]);
      TextsAppend(before + Says(init, i), Say(i, last));
      TextsThird(Texts(before), texts);
    }
  }

  lemma AppendThird(a: seq<Message>, b: seq<Message>, c: seq<Message>)
    ensures a + (b + c) == (a + b) + c
  {}

  lemma TextsThird(before: seq<string>, texts: seq<string>)
    requires texts != []
    ensures (before + texts[..|texts| - 1]) + [texts[|texts| - 1]] == before + texts
  {}

  // When all scripts are through, everyone has come and gone.
  lemma AllSentMeansServed(s: State)
    requires Shaped(s) && InScript(s) && forall i :: !CanPost(s, i)
    ensures Served(s.posted, |s.texts|) && Arrivals(s.posted) == Ids(|s.texts|)
    ensures s.texts != [] ==> s.posted != []
  {
    var h, n := s.posted, |s.texts|;
    AllSent(s);
    SessionsBehave(s);
    MembersArrived(h, n);
    IdsSize(n);
    forall i | i in Ids(n) ensures i in Arrivals(h) && i !in Members(h) {
      PostsTellMembership(h, i, n);
      assert Posts(h, i) == Script(s.texts[i - 1], i);
    }
    forall i | i in Arrivals(h) ensures i in Ids(n) {}
    assert Arrivals(h) == Ids(n);
    NoneOfThem(Members(h), n);
    if n > 0 {
      assert Posts(h, 1) == Script(s.texts[0], 1);
    }
  }

  lemma {:induction false} NoneOfThem(a: set<int>, n: nat)
    requires a <= Ids(n) && forall i :: i in Ids(n) ==> i !in a
    ensures |a| == 0
  {
    if n > 0 {
      NoneOfThem(a, n - 1);
    }
  }

  // Once the room has returned nobody has anything left to send.
  lemma ReturnedMeansAllSent(s: State)
    requires Core(s) && s.room.Returned?
    ensures s.taken == |s.posted| && forall i :: !CanPost(s, i)
    ensures forall i :: 1 <= i <= |s.texts| ==> i in s.closed
  {
    var n := |s.texts|;
    SessionsBehave(s);
    ExitsWithEmptyMailbox(s.posted, s.taken, n);
    assert History(s) == s.posted;
    forall i ensures !CanPost(s, i) {
      if CanPost(s, i) {
        NextIsLegal(s, i);
      }
    }
    AllSentMeansServed(s);
    IdsSize(n);
    ServedClosesAll(s.members, s.totalJoined, s.closed, s.posted, n);
  }

  lemma ServedClosesAll(members: seq<int>, totalJoined: nat, closed: set<int>, h: seq<Message>, sessions: nat)
    requires Table(members, totalJoined, closed, h) && Served(h, sessions)
    ensures forall i :: i in Arrivals(h) ==> i in closed
  {
    assert |Members(h)| == 0;
    assert Members(h) == {};
  }

  // Whatever the sizes of mailbox and inboxes, someone can move until all have finished.
  lemma CanMove(s: State) returns (a: Action)
    requires Core(s) && !Finished(s) && s.texts != []
    ensures Enabled(s, a)
  {
    match s.room
    case Sending(todo) =>
      a := SenderMoves(s);
    case Receiving =>
      if s.taken < |s.posted| {
        a := Take;
      } else {
        SomeoneStillSends(s);
        var i :| CanPost(s, i);
        a := Meet(i);
      }
    case Returned =>
      a := WriterMoves(s);
  }

  lemma SomeoneStillSends(s: State)
    requires Core(s) && s.room.Receiving? && s.taken == |s.posted| && s.texts != []
    ensures exists i :: CanPost(s, i)
  {
    assert History(s) == s.posted;
    if forall i :: !CanPost(s, i) {
      AllSentMeansServed(s);
    }
  }

  lemma SenderMoves(s: State) returns (a: Action)
    requires Core(s) && s.room.Sending?
    ensures Enabled(s, a)
  {
    if s.room.todo == [] {
      a := Done;
    } else if s.inboxes[Target(s) - 1] == [] {
      a := HandOver;
    } else {
      a := Write(Target(s));
    }
  }

  lemma WriterMoves(s: State) returns (a: Action)
    requires Core(s) && s.room.Returned? && !Finished(s)
    ensures Enabled(s, a)
  {
    ReturnedMeansAllSent(s);
    AllSent(s);
    assert History(s) == s.posted;
    if k :| 0 <= k < |s.inboxes| && s.inboxes[k] != [] {
      a := Write(k + 1);
    } else if i :| 1 <= i <= |s.texts| && i !in s.over {
      a := End(i);
    } else {
      forall i | 1 <= i <= |s.texts| ensures s.written[i - 1] == InboxOf(s.posted, i) {
        assert Mail(s, i);
      }
    }
  }

  // ---- whole runs ----

  ghost predicate IsRun(init: State, states: seq<State>, actions: seq<Action>) {
    && |states| == |actions| + 1 && states[0] == init
    && (forall k :: 0 <= k < |states| ==> Shaped(states[k]))
    && forall k :: 0 <= k < |actions| ==>
         Enabled(states[k], actions[k]) && states[k + 1] == Apply(states[k], actions[k])
  }

  lemma {:induction false} RunInvariant(
    texts: seq<seq<string>>, mailboxSize: nat, inboxSize: nat, states: seq<State>, actions: seq<Action>, k: nat)
    requires IsRun(Init(texts, mailboxSize, inboxSize), states, actions) && k < |states|
    ensures Inv(states[k]) && states[k].texts == texts && k <= Progress(states[k])
  {
    hide Inv, Enabled, Progress, Apply;
    if k == 0 {
      InitInv(texts, mailboxSize, inboxSize);
      InitProgress(texts, mailboxSize, inboxSize);
    } else {
      RunInvariant(texts, mailboxSize, inboxSize, states, actions, k - 1);
      StepKeepsInv(states[k - 1], actions[k - 1]);
      assert states[k] == Apply(states[k - 1], actions[k - 1]);
      StepAdvances(states[k - 1], actions[k - 1]);
    }
  }

  lemma InitProgress(texts: seq<seq<string>>, mailboxSize: nat, inboxSize: nat)
    ensures Shaped(Init(texts, mailboxSize, inboxSize)) && Progress(Init(texts, mailboxSize, inboxSize)) >= 0
  {}

  // At no moment of any run is the room about to send to an inbox it has closed.
  lemma NeverSendsToClosed(
    texts: seq<seq<string>>, mailboxSize: nat, inboxSize: nat, states: seq<State>, actions: seq<Action>, k: nat, i: int)
    requires IsRun(Init(texts, mailboxSize, inboxSize), states, actions) && k < |states|
    requires states[k].room.Sending? && i in states[k].room.todo
    ensures 1 <= i <= |texts| && i !in states[k].closed
  {
    RunInvariant(texts, mailboxSize, inboxSize, states, actions, k);
  }

  lemma NobodyMoves(mailboxSize: nat, inboxSize: nat, a: Action)
    ensures !Enabled(Init([], mailboxSize, inboxSize), a)
  {}

  // No run of room and sessions goes on for ever, and one that cannot go on
  // has the room returned and every session finished, each having written
  // exactly the lines it should have seen - for any mailbox and inbox size. A
  // room that expects nobody never moves.
  lemma EveryRunFinishes(
    texts: seq<seq<string>>, mailboxSize: nat, inboxSize: nat, states: seq<State>, actions: seq<Action>)
    requires IsRun(Init(texts, mailboxSize, inboxSize), states, actions)
    ensures |actions| <= Bound(texts)
    ensures var s := states[|actions|];
            (forall a :: !Enabled(s, a)) ==>
              if texts == [] then actions == [] && s.room.Receiving?
              else Finished(s) && forall i :: 1 <= i <= |texts| ==> Texts(Posts(s.posted, i)) == texts[i - 1]
  {
    var s := states[|actions|];
    RunInvariant(texts, mailboxSize, inboxSize, states, actions, |actions|);
    ProgressIsBounded(s);
    if exists a :: Enabled(s, a) {
      return;
    }
    if texts != [] {
      if !Finished(s) {
        var a := CanMove(s);
      }
      forall i | 1 <= i <= |texts| ensures Texts(Posts(s.posted, i)) == texts[i - 1] {
        assert Posts(s.posted, i) == Script(s.texts[i - 1], i);
        ScriptSays(texts[i - 1], i);
      }
    } else if actions != [] {
      NobodyMoves(mailboxSize, inboxSize, actions[0]);
    }
  }
}
