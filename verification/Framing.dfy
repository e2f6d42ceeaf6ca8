// Line framing between the counter client and server: a byte stream that recv
// may split anywhere, and the lines both sides recover from it.
module Framing {

  newtype Byte = x: int | 0 <= x < 256

  type Bytes = seq<Byte>

  const LF: Byte := 10
  const CR: Byte := 13
  const QUIT: Bytes := [113, 117, 105, 116]

  // ---- the stream ----

  // What successive recv calls deliver until one returns nothing.
  function Received(chunks: seq<Bytes>): Bytes {
    if chunks == [] || chunks[0] == [] then [] else chunks[0] + Received(chunks[1..])
  }

  // std::string::find('\n'), with the length standing for npos
  function Find(s: Bytes): (i: nat)
    ensures i <= |s|
    ensures forall j :: 0 <= j < i ==> s[j] != LF
    ensures i < |s| ==> s[i] == LF
  {
    if s == [] || s[0] == LF then 0 else 1 + Find(s[1..])
  }

  // The newline-ended lines of a stream, and what follows the last newline.
  function Lines(s: Bytes): seq<Bytes>
    decreases |s|
  {
    var i := Find(s);
    if i == |s| then [] else [s[..i]] + Lines(s[i + 1..])
  }

  function Tail(s: Bytes): Bytes
    decreases |s|
  {
    var i := Find(s);
    if i == |s| then s else Tail(s[i + 1..])
  }

  // Lines put back on the wire.
  function Framed(lines: seq<Bytes>): Bytes {
    if lines == [] then [] else lines[0] + [LF] + Framed(lines[1..])
  }

  lemma FindAt(s: Bytes, i: nat)
    requires i <= |s| && LF !in s[..i] && (i < |s| ==> s[i] == LF)
    ensures Find(s) == i
  {
    assert forall j :: 0 <= j < i ==> s[..i][j] in s[..i];
  }

  // Lines and Tail lose nothing ...
  lemma {:induction false} LinesCoverStream(s: Bytes)
    ensures Framed(Lines(s)) + Tail(s) == s
    decreases |s|
  {
    var i := Find(s);
    if i == |s| {
      NothingFramed(s);
    } else {
      var rest := s[i + 1..];
      LinesCoverStream(rest);
      FirstOfStream(s);
      hide *;
      FramedCons(s[..i], Lines(rest));
      Rejoin(s, i, Framed(Lines(rest)), Tail(rest));
    }
  }

  lemma NothingFramed(s: Bytes)
    requires Find(s) == |s|
    ensures Framed(Lines(s)) + Tail(s) == s
  {
    assert Lines(s) == [] && Tail(s) == s && Framed([]) == [];
    hide *;
    assert [] + s == s;
  }

  lemma FirstOfStream(s: Bytes)
    requires Find(s) < |s|
    ensures var i, rest := Find(s), s[Find(s) + 1..];
            s[i] == LF && Lines(s) == [s[..i]] + Lines(rest) && Tail(s) == Tail(rest)
  {}

  lemma Rejoin(s: Bytes, i: nat, a: Bytes, b: Bytes)
    requires i < |s| && s[i] == LF && a + b == s[i + 1..]
    ensures (s[..i] + [LF] + a) + b == s
  {
    assert (s[..i] + [LF] + a) + b == s[..i] + [LF] + (a + b);
  }

  lemma FramedCons(line: Bytes, lines: seq<Bytes>)
    ensures Framed([line] + lines) == line + [LF] + Framed(lines)
  {
    assert ([line] + lines)[1..] == lines;
  }

  // ... no line contains a newline ...
  lemma {:induction false} LinesAreLines(s: Bytes)
    ensures forall k :: 0 <= k < |Lines(s)| ==> LF !in Lines(s)[k]
    ensures LF !in Tail(s)
    decreases |s|
  {
    var i := Find(s);
    if i < |s| {
      LinesAreLines(s[i + 1..]);
    }
  }

  lemma FirstCut(line: Bytes, rest: Bytes)
    requires LF !in line
    ensures var s := line + ([LF] + rest);
            Find(s) == |line| < |s| && s[..|line|] == line && s[|line| + 1..] == rest
  {
    var s := line + ([LF] + rest);
    assert s[..|line|] == line && s[|line|] == LF;
    FindAt(s, |line|);
  }

  lemma FramedFirst(lines: seq<Bytes>, tail: Bytes)
    requires lines != []
    ensures Framed(lines) + tail == lines[0] + ([LF] + (Framed(lines[1..]) + tail))
  {}

  // ... and they are the only way to cut a stream at its newlines.
  lemma {:induction false} LinesOfFramed(lines: seq<Bytes>, tail: Bytes)
    requires forall k :: 0 <= k < |lines| ==> LF !in lines[k]
    requires LF !in tail
    ensures Lines(Framed(lines) + tail) == lines
    ensures Tail(Framed(lines) + tail) == tail
    decreases |lines|
  {
    var s := Framed(lines) + tail;
    if lines == [] {
      assert s == tail;
      FindAt(s, |s|);
    } else {
      LinesOfFramed(lines[1..], tail);
      FramedFirst(lines, tail);
      FirstCut(lines[0], Framed(lines[1..]) + tail);
    }
  }

  // ---- the server's side of a connection ----

  function Clean(line: Bytes): Bytes {
    if line != [] && line[|line| - 1] == CR then line[..|line| - 1] else line
  }

  // The loop over recv was left, a quit came, or a reply could not be sent.
  datatype End = PeerDone | Quit | SendFailed

  datatype Session = Session(handled: seq<Bytes>, end: End)

  // What a connection does with its lines: the commands it hands on in order,
  // and why it stops. sent(k) tells whether the k-th reply could be sent.
  ghost function Serve(lines: seq<Bytes>, sent: nat -> bool, k: nat): Session {
    if lines == [] then Session([], PeerDone)
    else
      var line := Clean(lines[0]);
      if line == QUIT then Session([], Quit)
      else if !sent(k) then Session([line], SendFailed)
      else
        var rest := Serve(lines[1..], sent, k + 1);
        Session([line] + rest.handled, rest.end)
  }

  // Serve, read off position by position: the commands are the cleaned lines
  // before the first quit or unsent reply.
  lemma {:induction false} ServeMeaning(lines: seq<Bytes>, sent: nat -> bool, k: nat)
    ensures var r := Serve(lines, sent, k);
            && |r.handled| <= |lines|
            && (forall j :: 0 <= j < |r.handled| ==> r.handled[j] == Clean(lines[j]) && r.handled[j] != QUIT)
    decreases |lines|
  {
    if lines != [] && Clean(lines[0]) != QUIT && sent(k) {
      ServeMeaning(lines[1..], sent, k + 1);
    }
  }

  lemma {:induction false} WhyServeStops(lines: seq<Bytes>, sent: nat -> bool, k: nat)
    ensures var r := Serve(lines, sent, k);
            && (forall m :: k <= m < k + |r.handled| - 1 ==> sent(m))
            && match r.end
               case PeerDone => |r.handled| == |lines| && (lines != [] ==> sent(k + |lines| - 1))
               case Quit => |r.handled| < |lines| && Clean(lines[|r.handled|]) == QUIT
                            && (r.handled != [] ==> sent(k + |r.handled| - 1))
               case SendFailed => r.handled != [] && !sent(k + |r.handled| - 1)
    decreases |lines|
  {
    if lines != [] && Clean(lines[0]) != QUIT && sent(k) {
      WhyServeStops(lines[1..], sent, k + 1);
    }
  }

  // s continues the session that stands at `handled`.
  ghost predicate Continues(all: Session, handled: seq<Bytes>, s: Session) {
    all.handled == handled + s.handled && all.end == s.end
  }

  // The first complete line in the buffer is the first line of the stream.
  lemma FirstLine(pending: Bytes, later: Bytes)
    requires Find(pending) < |pending|
    ensures var pos := Find(pending);
            && Lines(pending + later) == [pending[..pos]] + Lines(pending[pos + 1..] + later)
            && Tail(pending + later) == Tail(pending[pos + 1..] + later)
  {
    var s, pos := pending + later, Find(pending);
    assert s[..pos] == pending[..pos];
    FindAt(s, pos);
    assert s[pos + 1..] == pending[pos + 1..] + later;
  }

  // One line served takes the session one step on.
  lemma ServeStep(all: Session, handled: seq<Bytes>, first: Bytes, rest: seq<Bytes>, sent: nat -> bool)
    requires Continues(all, handled, Serve([first] + rest, sent, |handled|))
    ensures Clean(first) == QUIT ==> all == Session(handled, Quit)
    ensures Clean(first) != QUIT && !sent(|handled|) ==> all == Session(handled + [Clean(first)], SendFailed)
    ensures Clean(first) != QUIT && sent(|handled|) ==>
              Continues(all, handled + [Clean(first)], Serve(rest, sent, |handled| + 1))
  {
    assert ([first] + rest)[1..] == rest;
  }

  lemma NoMoreLines(pending: Bytes, sent: nat -> bool, k: nat)
    requires LF !in pending
    ensures Tail(pending) == pending && Serve(Lines(pending), sent, k) == Session([], PeerDone)
  {
    FindAt(pending, |pending|);
  }

  // The inner loop: handle every complete line in the buffer.
  method HandleLines(buffer: Bytes, before: seq<Bytes>, sent: nat -> bool, ghost later: Bytes, ghost all: Session)
    returns (pending: Bytes, handled: seq<Bytes>, end: End)
    requires Continues(all, before, Serve(Lines(buffer + later), sent, |before|))
    ensures end == PeerDone ==>
              && LF !in pending && Tail(pending + later) == Tail(buffer + later)
              && Continues(all, handled, Serve(Lines(pending + later), sent, |handled|))
    ensures end != PeerDone ==> all == Session(handled, end)
  {
    hide Serve, Lines, Tail, Continues;
    pending, handled := buffer, before;
    var pos := Find(pending);
    while pos < |pending|
      invariant pos == Find(pending)
      invariant Tail(pending + later) == Tail(buffer + later)
      invariant Continues(all, handled, Serve(Lines(pending + later), sent, |handled|))
      decreases |pending|
    {
      FirstLine(pending, later);
      ServeStep(all, handled, pending[..pos], Lines(pending[pos + 1..] + later), sent);
      var line := pending[..pos];
      pending := pending[pos + 1..];
      if line != [] && line[|line| - 1] == CR {
        line := line[..|line| - 1];
      }
      if line == QUIT {
        return pending, handled, Quit;
      }
      handled := handled + [line];
      if !sent(|handled| - 1) {
        return pending, handled, SendFailed;
      }
      pos := Find(pending);
    }
    end := PeerDone;
  }

  // The chunks received before the stop flag is seen; stop(k) is what the loop
  // reads from it before its k-th recv.
  function BeforeStop(chunks: seq<Bytes>, stop: nat -> bool, k: nat): seq<Bytes> {
    if chunks == [] || stop(k) then [] else [chunks[0]] + BeforeStop(chunks[1..], stop, k + 1)
  }

  lemma {:induction false} BeforeStopIsPrefix(chunks: seq<Bytes>, stop: nat -> bool, k: nat)
    ensures var seen := BeforeStop(chunks, stop, k);
            && seen <= chunks && (forall m :: k <= m < k + |seen| ==> !stop(m))
            && (|seen| < |chunks| ==> stop(k + |seen|))
    decreases |chunks|
  {
    if chunks != [] && !stop(k) {
      BeforeStopIsPrefix(chunks[1..], stop, k + 1);
    }
  }

  // serve_connection: append each chunk to `pending` and handle the complete
  // lines in it. However recv splits the stream, the commands handled are the
  // lines of what is received before the peer is done or the server stops, up
  // to the first quit or failed send.
  method ServeConnection(chunks: seq<Bytes>, stop: nat -> bool, sent: nat -> bool)
    returns (handled: seq<Bytes>, end: End, pending: Bytes)
    ensures Session(handled, end) == Serve(Lines(Received(BeforeStop(chunks, stop, 0))), sent, 0)
    ensures end == PeerDone ==> pending == Tail(Received(BeforeStop(chunks, stop, 0)))
  {
    hide Serve, Lines, Tail;
    handled, pending := [], [];
    ghost var stream := Received(BeforeStop(chunks, stop, 0));
    ghost var all := Serve(Lines(stream), sent, 0);
    var i := 0;
    assert chunks[0..] == chunks;
    assert pending + Received(BeforeStop(chunks, stop, 0)) == stream;
    while i < |chunks| && !stop(i) && chunks[i] != []
      invariant i <= |chunks|
      invariant LF !in pending
      invariant Tail(pending + Received(BeforeStop(chunks[i..], stop, i))) == Tail(stream)
      invariant Continues(all, handled,
                          Serve(Lines(pending + Received(BeforeStop(chunks[i..], stop, i))), sent, |handled|))
    {
      ghost var later := Received(BeforeStop(chunks[i + 1..], stop, i + 1));
      assert chunks[i..][1..] == chunks[i + 1..];
      assert pending + Received(BeforeStop(chunks[i..], stop, i)) == (pending + chunks[i]) + later;
      pending, handled, end := HandleLines(pending + chunks[i], handled, sent, later, all);
      if end != PeerDone {
        return;
      }
      i := i + 1;
    }
    assert pending + Received(BeforeStop(chunks[i..], stop, i)) == pending;
    NoMoreLines(pending, sent, |handled|);
    end := PeerDone;
  }

  // ---- the client's side ----

  // request_once: read until the first newline; nothing if it never comes.
  method ReadReply(chunks: seq<Bytes>) returns (reply: Bytes)
    ensures var s := Received(chunks);
            reply == if Find(s) < |s| then s[..Find(s)] else []
  {
    var buffer: Bytes := [];
    ghost var stream := Received(chunks);
    var i := 0;
    assert buffer + Received(chunks[0..]) == stream;
    while Find(buffer) == |buffer|
      invariant i <= |chunks|
      invariant buffer + Received(chunks[i..]) == stream
      decreases |chunks| - i
    {
      if i == |chunks| || chunks[i] == [] {
        assert buffer + Received(chunks[i..]) == buffer;
        return [];
      }
      ghost var later := Received(chunks[i + 1..]);
      assert buffer + Received(chunks[i..]) == (buffer + chunks[i]) + later;
      buffer := buffer + chunks[i];
      i := i + 1;
    }
    reply := buffer[..Find(buffer)];
    FindInPrefix(buffer, Received(chunks[i..]));
  }

  lemma FindInPrefix(s: Bytes, later: Bytes)
    requires Find(s) < |s|
    ensures Find(s + later) == Find(s) && (s + later)[..Find(s)] == s[..Find(s)]
  {
    assert (s + later)[..Find(s)] == s[..Find(s)];
    FindAt(s + later, Find(s));
  }

  // A reply without a newline comes out as it was sent, however it was split
  // and whatever follows it; one with a newline is cut there.
  lemma ReplySurvives(reply: Bytes, more: Bytes)
    ensures var s := reply + [LF] + more;
            Find(s) < |s| && (s[..Find(s)] == reply <==> LF !in reply)
  {
    var s := reply + [LF] + more;
    var i := Find(s);
    assert s[|reply|] == LF;
    if LF !in reply {
      assert s[..|reply|] == reply;
      FindAt(s, |reply|);
    } else if i == |reply| {
      assert forall j :: 0 <= j < |reply| ==> s[j] == reply[j];
    }
  }

  // The command the server handles is the one the client was given exactly
  // when it has no newline, does not end in a carriage return and is not quit.
  lemma CommandArrives(line: Bytes)
    ensures Serve(Lines(line + [LF]), _ => true, 0).handled == [line] <==>
            LF !in line && (line == [] || line[|line| - 1] != CR) && line != QUIT
  {
    hide Lines, Serve, Clean;
    if LF in line {
      CutCommand(line);
    } else {
      WholeCommand(line);
    }
  }

  lemma CutCommand(line: Bytes)
    requires LF in line
    ensures Serve(Lines(line + [LF]), _ => true, 0).handled != [line]
  {
    hide Lines, Serve;
    var lines := Lines(line + [LF]);
    var handled := Serve(lines, _ => true, 0).handled;
    LinesAreLines(line + [LF]);
    ServeMeaning(lines, _ => true, 0);
    if |handled| == 1 {
      assert handled[0] == Clean(lines[0]) && LF !in handled[0];
    }
  }

  lemma WholeCommand(line: Bytes)
    requires LF !in line
    ensures Serve(Lines(line + [LF]), _ => true, 0).handled == if Clean(line) == QUIT then [] else [Clean(line)]
    ensures (Clean(line) == line && line != QUIT) <==> (line == [] || line[|line| - 1] != CR) && line != QUIT
  {
    hide Lines;
    OneLine(line);
    assert [line][1..] == [];
  }

  lemma OneLine(line: Bytes)
    requires LF !in line
    ensures Lines(line + [LF]) == [line]
  {
    assert [line][1..] == [];
    assert Framed([line]) + [] == line + [LF];
    LinesOfFramed([line], []);
  }

  // ---- whole conversations ----

  // A command as clients write it on the wire, with or without a carriage return.
  datatype Command = Command(text: Bytes, cr: bool)

  function Wire(commands: seq<Command>): Bytes {
    if commands == [] then []
    else
      var c := commands[0];
      c.text + (if c.cr then [13, 10] else [10]) + Wire(commands[1..])
  }

  function Texts(commands: seq<Command>): seq<Bytes> {
    if commands == [] then [] else [commands[0].text] + Texts(commands[1..])
  }

  // One line, not the quit command; a text that ends in a carriage return
  // needs another one to protect it.
  predicate Sendable(c: Command) {
    && 10 !in c.text && c.text != [113, 117, 105, 116]
    && (!c.cr ==> c.text == [] || c.text[|c.text| - 1] != 13)
  }

  function Raw(c: Command): Bytes {
    if c.cr then c.text + [CR] else c.text
  }

  function RawLines(commands: seq<Command>): seq<Bytes> {
    if commands == [] then [] else [Raw(commands[0])] + RawLines(commands[1..])
  }

  lemma RawIsClean(c: Command)
    requires Sendable(c)
    ensures LF !in Raw(c) && Clean(Raw(c)) == c.text && c.text != QUIT
  {}

  lemma {:induction false} WireIsFramed(commands: seq<Command>)
    requires forall k :: 0 <= k < |commands| ==> Sendable(commands[k])
    ensures Wire(commands) == Framed(RawLines(commands))
    ensures forall k :: 0 <= k < |RawLines(commands)| ==> LF !in RawLines(commands)[k]
  {
    if commands != [] {
      var c, rest := commands[0], commands[1..];
      RawIsClean(c);
      WireIsFramed(rest);
      assert Wire(commands) == c.text + (if c.cr then [13, 10] else [10]) + Wire(rest);
      assert RawLines(commands) == [Raw(c)] + RawLines(rest);
      hide Wire, RawLines, Framed;
      FramedCons(Raw(c), RawLines(rest));
      RawThenLf(c);
    }
  }

  lemma RawThenLf(c: Command)
    ensures c.text + (if c.cr then [13, 10] else [10]) == Raw(c) + [LF]
  {
    assert [CR] + [LF] == [13, 10];
  }

  lemma ServeFirst(line: Bytes, rest: seq<Bytes>, sent: nat -> bool, k: nat)
    requires Clean(line) != QUIT && sent(k)
    ensures var r := Serve(rest, sent, k + 1);
            Serve([line] + rest, sent, k) == Session([Clean(line)] + r.handled, r.end)
  {
    assert ([line] + rest)[1..] == rest;
  }

  lemma ConsAppend(x: Bytes, a: seq<Bytes>, b: seq<Bytes>)
    ensures ([x] + a) + b == [x] + (a + b)
  {}

  lemma {:induction false} ServesTexts(commands: seq<Command>, more: seq<Bytes>, sent: nat -> bool, k: nat)
    requires forall j :: 0 <= j < |commands| ==> Sendable(commands[j])
    requires forall j :: k <= j < k + |commands| ==> sent(j)
    ensures var r := Serve(more, sent, k + |commands|);
            Serve(RawLines(commands) + more, sent, k) == Session(Texts(commands) + r.handled, r.end)
    decreases |commands|
  {
    if commands == [] {
      assert RawLines(commands) + more == more;
      assert Texts(commands) + Serve(more, sent, k).handled == Serve(more, sent, k).handled;
    } else {
      var c, rest := commands[0], commands[1..];
      RawIsClean(c);
      ServesTexts(rest, more, sent, k + 1);
      assert RawLines(commands) == [Raw(c)] + RawLines(rest) && Texts(commands) == [c.text] + Texts(rest);
      hide *;
      ConsAppend(Raw(c), RawLines(rest), more);
      ConsAppend(c.text, Texts(rest), Serve(more, sent, k + |commands|).handled);
      ServeFirst(Raw(c), RawLines(rest) + more, sent, k);
    }
  }

  // A conversation: the commands sent, each with LF or CR LF, are exactly the
  // commands handled.
  lemma Conversation(commands: seq<Command>, sent: nat -> bool)
    requires forall k :: 0 <= k < |commands| ==> Sendable(commands[k])
    requires forall k :: 0 <= k < |commands| ==> sent(k)
    ensures Serve(Lines(Wire(commands)), sent, 0) == Session(Texts(commands), PeerDone)
  {
    assert Serve([], sent, |commands|) == Session([], PeerDone);
    hide Serve, Lines, Tail, Wire, RawLines, Texts, Framed, Sendable;
    WireIsFramed(commands);
    ServesTexts(commands, [], sent, 0);
    var raw := RawLines(commands);
    LinesOfFramed(raw, []);
    assert Framed(raw) + [] == Framed(raw) && raw + [] == raw;
    assert Texts(commands) + [] == Texts(commands);
  }

  // A quit, with LF or CR LF, ends it; nothing after that is handled.
  lemma QuitEnds(commands: seq<Command>, sent: nat -> bool, cr: bool, more: Bytes)
    requires forall k :: 0 <= k < |commands| ==> Sendable(commands[k])
    requires forall k :: 0 <= k < |commands| ==> sent(k)
    ensures var quit: Bytes := if cr then [113, 117, 105, 116, 13, 10] else [113, 117, 105, 116, 10];
            Serve(Lines(Wire(commands) + (quit + more)), sent, 0) == Session(Texts(commands), Quit)
  {
    var quit := if cr then QUIT + [CR] else QUIT;
    var rest := [quit] + Lines(more);
    assert Clean(quit) == QUIT;
    assert Serve(rest, sent, |commands|) == Session([], Quit);
    hide Serve, Lines, Tail, Wire, RawLines, Texts, Framed, Sendable;
    WireIsFramed(commands);
    LinesAfter(RawLines(commands), quit, more);
    ServesTexts(commands, rest, sent, 0);
    assert (if cr then [113, 117, 105, 116, 13, 10] else [113, 117, 105, 116, 10]) == quit + [LF];
    assert Texts(commands) + [] == Texts(commands);
  }

  lemma {:induction false} FramedConcat(a: seq<Bytes>, b: seq<Bytes>)
    ensures Framed(a + b) == Framed(a) + Framed(b)
  {
    if a == [] {
      assert a + b == b;
    } else {
      FramedConcat(a[1..], b);
      hide *;
      assert a == [a[0]] + a[1..];
      ConsAppend(a[0], a[1..], b);
      FramedCons(a[0], a[1..] + b);
      FramedCons(a[0], a[1..]);
      AppendTwice(a[0] + [LF], Framed(a[1..]), Framed(b));
    }
  }

  lemma LinesAfter(lines: seq<Bytes>, line: Bytes, more: Bytes)
    requires LF !in line && forall k :: 0 <= k < |lines| ==> LF !in lines[k]
    ensures Lines(Framed(lines) + (line + [LF] + more)) == lines + ([line] + Lines(more))
  {
    var all := lines + ([line] + Lines(more));
    LinesCoverStream(more);
    LinesAreLines(more);
    hide Framed, Lines, Tail;
    FramedConcat(lines, [line] + Lines(more));
    FramedCons(line, Lines(more));
    Regroup(Framed(lines), line + [LF], Framed(Lines(more)), Tail(more));
    LinesOfFramed(all, Tail(more));
  }

  lemma AppendTwice(a: Bytes, b: Bytes, c: Bytes)
    ensures a + (b + c) == (a + b) + c
  {}

  lemma Regroup(a: Bytes, b: Bytes, c: Bytes, d: Bytes)
    ensures a + (b + (c + d)) == (a + (b + c)) + d
  {}

  // What recv delivers is the chunks one after the other, up to the first that is empty.
  lemma {:induction false} ReceivedInOrder(chunks: seq<Bytes>, more: seq<Bytes>)
    requires forall k :: 0 <= k < |chunks| ==> chunks[k] != []
    ensures Received(chunks + more) == Received(chunks) + Received(more)
    ensures Received([[]] + more) == []
  {
    if chunks == [] {
      assert chunks + more == more;
    } else {
      ReceivedInOrder(chunks[1..], more);
      assert (chunks + more)[1..] == chunks[1..] + more;
    }
  }

  lemma ReceivedWhole(chunk: Bytes)
    ensures Received([chunk]) == chunk
  {
    assert [chunk][1..] == [];
  }
}
