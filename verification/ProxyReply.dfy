/** A tunnelled HTTP response, end to end: the agent replays the request and
    sends the answer as messages (Runner.handleProxyRequest,
    pkg/agentrunner/runner.go), the control plane relays those that reach it to
    the customer (relayResponse, pkg/cluster/proxy.go). */
module ProxyReply {
  import opened Options
  import opened Wire

  type Byte = bv8

  datatype Message =
    | Response(error: string, status: int, length: Option<nat>)
    | Data(data: seq<Byte>, eof: bool, reset: bool)

  /** What the instance does with the replayed request. An answer may declare
      its length; its body is read piece by piece until a read reports its end
      or an error, and that read may still carry bytes. */
  datatype Upstream =
    | Unreachable(reason: string)
    | Malformed(reason: string)
    | Refused(reason: string)
    | Answered(status: int, length: Option<nat>, pieces: seq<seq<Byte>>, last: seq<Byte>, intact: bool)

  // ---------------------------------------------------------------------
  // The agent's side
  // ---------------------------------------------------------------------

  function Flat(pieces: seq<seq<Byte>>): seq<Byte> {
    if pieces == [] then [] else pieces[0] + Flat(pieces[1..])
  }

  /** One message a piece; an empty read sends nothing. */
  function Chunks(pieces: seq<seq<Byte>>): seq<Message> {
    if pieces == [] then []
    else (if pieces[0] == [] then [] else [Data(pieces[0], false, false)]) + Chunks(pieces[1..])
  }

  function Terminal(intact: bool): Message {
    Data([], intact, !intact)
  }

  /** Everything the agent has to say about one request. */
  function Word(up: Upstream): seq<Message> {
    match up
    case Unreachable(reason) => [Response("instance not reachable: " + reason, 0, None)]
    case Malformed(reason) => [Response("could not build request: " + reason, 0, None)]
    case Refused(reason) => [Response("connection failed: " + reason, 0, None)]
    case Answered(status, length, pieces, last, intact) =>
      [Response("", status, length)] + Chunks(pieces + [last]) + [Terminal(intact)]
  }

  function Body(up: Upstream): seq<Byte>
    requires up.Answered?
  {
    Flat(up.pieces + [up.last])
  }

  /** The handler stops at the first write that fails. */
  ghost predicate SaidUntilFailure(works: nat -> bool, start: nat, word: seq<Message>, said: seq<Message>) {
    && said != [] && said <= word
    && (forall i | start <= i < start + |said| - 1 :: works(i))
    && (said != word ==> !works(start + |said| - 1))
  }

  /** Every write worked so far, and todo is what is left of the word. */
  ghost predicate Saying(s: Stream<Message>, before: seq<Message>, word: seq<Message>, todo: seq<Message>)
    reads s
  {
    && |before| <= |s.attempts| && s.attempts[..|before|] == before
    && s.attempts[|before|..] + todo == word
    && forall i | |before| <= i < |s.attempts| :: s.works(i)
  }

  /** Writing the next message of the word: either it worked and the word goes
      on, or it failed and what was said is final. */
  method Say(s: Stream<Message>, m: Message, ghost before: seq<Message>, ghost word: seq<Message>,
             ghost todo: seq<Message>)
    returns (ok: bool)
    requires Saying(s, before, word, [m] + todo)
    modifies s
    ensures ok ==> Saying(s, before, word, todo)
    ensures |before| < |s.attempts| && s.attempts[..|before|] == before
    ensures !ok || todo == [] ==> SaidUntilFailure(s.works, |before|, word, s.attempts[|before|..])
  {
    ghost var said := s.attempts[|before|..];
    SaidNext(said, m, todo);
    ok := s.Send(m);
    assert s.attempts[..|before|] == before && s.attempts[|before|..] == said + [m];
  }

  lemma SaidNext(said: seq<Message>, m: Message, todo: seq<Message>)
    ensures said + ([m] + todo) == said + [m] + todo && said + [m] <= said + ([m] + todo)
    ensures todo == [] ==> said + [m] == said + ([m] + todo)
  {
  }

  /** One turn of the copy loop: an empty read sends nothing. */
  method SayPiece(s: Stream<Message>, piece: seq<Byte>, ghost rest: seq<seq<Byte>>, ghost before: seq<Message>,
                  ghost word: seq<Message>, ghost ending: seq<Message>)
    returns (ok: bool)
    requires Saying(s, before, word, Chunks([piece] + rest) + ending) && ending != []
    modifies s
    ensures ok ==> Saying(s, before, word, Chunks(rest) + ending)
    ensures |before| <= |s.attempts| && s.attempts[..|before|] == before
    ensures !ok ==> SaidUntilFailure(s.works, |before|, word, s.attempts[|before|..])
  {
    assert ([piece] + rest)[1..] == rest;
    if piece == [] {
      assert Chunks([piece] + rest) == Chunks(rest);
      return true;
    }
    assert Chunks([piece] + rest) + ending == [Data(piece, false, false)] + (Chunks(rest) + ending);
    ok := Say(s, Data(piece, false, false), before, word, Chunks(rest) + ending);
  }

  method HandleProxyRequest(s: Stream<Message>, up: Upstream)
    modifies s
    ensures |old(s.attempts)| <= |s.attempts| && s.attempts[..|old(s.attempts)|] == old(s.attempts)
    ensures SaidUntilFailure(s.works, |old(s.attempts)|, Word(up), s.attempts[|old(s.attempts)|..])
  {
    if !up.Answered? {
      var prefix := if up.Unreachable? then "instance not reachable: "
                    else if up.Malformed? then "could not build request: " else "connection failed: ";
      assert Word(up) == [Response(prefix + up.reason, 0, None)] + [];
      var _ := Say(s, Response(prefix + up.reason, 0, None), s.attempts, Word(up), []);
    } else {
      Copy(s, up);
    }
  }

  /** The response has begun: the header, then the copy loop. */
  method Copy(s: Stream<Message>, up: Upstream)
    requires up.Answered?
    modifies s
    ensures |old(s.attempts)| <= |s.attempts| && s.attempts[..|old(s.attempts)|] == old(s.attempts)
    ensures SaidUntilFailure(s.works, |old(s.attempts)|, Word(up), s.attempts[|old(s.attempts)|..])
  {
    ghost var before, word, ending := s.attempts, Word(up), [Terminal(up.intact)];
    var pieces := up.pieces + [up.last];
    assert word == [Response("", up.status, up.length)] + (Chunks(pieces) + ending);
    var ok := Say(s, Response("", up.status, up.length), before, word, Chunks(pieces) + ending);
    if !ok {
      return;
    }
    var i := 0;
    while true
      invariant 0 <= i < |pieces|
      invariant Saying(s, before, word, Chunks(pieces[i..]) + ending)
      decreases |pieces| - i
    {
      assert pieces[i..] == [pieces[i]] + pieces[i + 1..];
      ok := SayPiece(s, pieces[i], pieces[i + 1..], before, word, ending);
      if !ok {
        return;
      }
      if i == |pieces| - 1 {
        assert Chunks(pieces[i + 1..]) + ending == ending + [];
        var _ := Say(s, Terminal(up.intact), before, word, []);
        return;
      }
      i := i + 1;
    }
  }

  /** The language of replies: one error, or a header, non-empty data, and one
      terminal that is an end or a reset and not both. */
  ghost predicate WellFormed(word: seq<Message>) {
    && word != [] && word[0].Response?
    && if word[0].error != "" then |word| == 1
       else
         && |word| >= 2
         && (forall i | 0 < i < |word| - 1 :: Plain(word[i]))
         && var end := word[|word| - 1];
         && end.Data? && end.data == [] && (end.eof <==> !end.reset)
  }

  function Carried(ms: seq<Message>): seq<Byte> {
    if ms == [] then [] else (if ms[0].Data? then ms[0].data else []) + Carried(ms[1..])
  }

  predicate Plain(m: Message) {
    m.Data? && m.data != [] && !m.eof && !m.reset
  }

  ghost predicate AllPlain(ms: seq<Message>) {
    forall i | 0 <= i < |ms| :: Plain(ms[i])
  }

  lemma {:induction false} ChunksArePlain(pieces: seq<seq<Byte>>)
    ensures AllPlain(Chunks(pieces))
  {
    if pieces != [] {
      ChunksArePlain(pieces[1..]);
    }
  }

  lemma {:induction false} CarriedConcat(a: seq<Message>, b: seq<Message>)
    ensures Carried(a + b) == Carried(a) + Carried(b)
  {
    if a == [] {
      assert a + b == b;
    } else {
      assert (a + b)[1..] == a[1..] + b;
      CarriedConcat(a[1..], b);
    }
  }

  lemma {:induction false} ChunksCarryTheBody(pieces: seq<seq<Byte>>)
    ensures Carried(Chunks(pieces)) == Flat(pieces)
  {
    if pieces != [] {
      ChunksCarryTheBody(pieces[1..]);
      if pieces[0] != [] {
        assert Chunks(pieces)[1..] == Chunks(pieces[1..]);
      } else {
        assert Chunks(pieces) == Chunks(pieces[1..]) && Flat(pieces) == Flat(pieces[1..]);
      }
    }
  }

  /** Every reply is in the language, and its data is the body that was read. */
  lemma RepliesAreWellFormed(up: Upstream)
    ensures WellFormed(Word(up))
    ensures up.Answered? ==> Carried(Word(up)) == Body(up)
    ensures up.Answered? ==> (Word(up)[|Word(up)| - 1].eof <==> up.intact)
  {
    if up.Answered? {
      var data := Chunks(up.pieces + [up.last]);
      ChunksArePlain(up.pieces + [up.last]);
      ChunksCarryTheBody(up.pieces + [up.last]);
      CarriedConcat([Response("", up.status, up.length)] + data, [Terminal(up.intact)]);
      CarriedConcat([Response("", up.status, up.length)], data);
      assert forall i | 0 < i < |Word(up)| - 1 :: Word(up)[i] == data[i - 1];
    }
  }

  // ---------------------------------------------------------------------
  // The control plane's side
  // ---------------------------------------------------------------------

  const RESPONSE_LIMIT := 32 * 1024 * 1024

  /** How the wait for the next message can end. */
  datatype Stop = Deadline | Idle | Disconnected

  /** What the customer has: no status until headers are written, and the
      declared length, if any, among them. Nothing else tells how the relay
      ended: it returns in the same way in every case. */
  datatype Reply = Reply(status: Option<int>, length: Option<nat>, body: seq<Byte>)

  function Text(s: string): seq<Byte> {
    seq(|s|, i requires 0 <= i < |s| => if s[i] < 256 as char then s[i] as Byte else 63)
  }

  function ErrorPage(status: int, text: string): Reply {
    Reply(Some(status), None, Text(text + "\n"))
  }

  /** Headers are written once; later ones are ignored, and an error page then
      only adds its text to the body. */
  function Heading(reply: Reply, status: int, length: Option<nat>): Reply {
    if reply.status.Some? then reply else reply.(status := Some(status), length := length)
  }

  function Failing(reply: Reply, status: int, text: string): Reply {
    if reply.status.Some? then reply.(body := reply.body + Text(text + "\n")) else ErrorPage(status, text)
  }

  function GiveUp(reply: Reply, stop: Stop): Reply {
    if reply.status.Some? then reply
    else match stop
      case Deadline => ErrorPage(504, "the instance did not respond in time")
      case Idle => ErrorPage(502, "the instance stopped responding")
      case Disconnected => ErrorPage(502, "the node hosting this instance became unreachable")
  }

  function Relay(reply: Reply, events: seq<Message>, stop: Stop): Reply
    decreases events
  {
    if events == [] then GiveUp(reply, stop)
    else match events[0]
      case Response(error, status, length) =>
        if error != "" then Failing(reply, 502, "this instance could not be reached: " + error)
        else Relay(Heading(reply, if status == 0 then 200 else status, length), events[1..], stop)
      case Data(data, eof, reset) =>
        if reset then reply
        else if data != [] && |reply.body| + |data| > RESPONSE_LIMIT then reply
        else
          var next := if data == [] then reply else Written(reply, data);
          if eof then next else Relay(next, events[1..], stop)
  }

  function Written(reply: Reply, data: seq<Byte>): Reply {
    reply.(status := if reply.status.None? then Some(200) else reply.status, body := reply.body + data)
  }

  const NOTHING := Reply(None, None, [])

  method RelayResponse(events: seq<Message>, stop: Stop) returns (reply: Reply)
    ensures reply == Relay(NOTHING, events, stop)
  {
    var headersSent, written := false, 0;
    reply := NOTHING;
    for i := 0 to |events|
      invariant headersSent == reply.status.Some? && written == |reply.body|
      invariant Relay(reply, events[i..], stop) == Relay(NOTHING, events, stop)
    {
      var ev := events[i];
      assert events[i..][0] == ev && events[i..][1..] == events[i + 1..];
      if ev.Response? {
        if ev.error != "" {
          return Failing(reply, 502, "this instance could not be reached: " + ev.error);
        }
        var status := ev.status;
        if status == 0 {
          status := 200;
        }
        reply := Heading(reply, status, ev.length);
        headersSent := true;
      } else {
        if ev.reset {
          return;
        }
        if |ev.data| > 0 {
          written := written + |ev.data|;
          if written > RESPONSE_LIMIT {
            return;
          }
          if !headersSent {
            reply := reply.(status := Some(200));
            headersSent := true;
          }
          reply := reply.(body := reply.body + ev.data);
        }
        if ev.eof {
          return;
        }
      }
    }
    assert events[|events|..] == [];
    return GiveUp(reply, stop);
  }

  /** With nothing to show before the wait ends, the customer is told why it
      ended. */
  lemma {:induction false} SilenceIsExplained(events: seq<Message>, stop: Stop)
    requires forall i | 0 <= i < |events| :: events[i].Data? && events[i].data == [] && !events[i].eof && !events[i].reset
    ensures Relay(NOTHING, events, stop) ==
            match stop
            case Deadline => Reply(Some(504), None, Text("the instance did not respond in time\n"))
            case Idle => Reply(Some(502), None, Text("the instance stopped responding\n"))
            case Disconnected => Reply(Some(502), None, Text("the node hosting this instance became unreachable\n"))
    decreases events
  {
    if events == [] {
      assert "the instance did not respond in time" + "\n" == "the instance did not respond in time\n";
      assert "the instance stopped responding" + "\n" == "the instance stopped responding\n";
      assert "the node hosting this instance became unreachable" + "\n" ==
             "the node hosting this instance became unreachable\n";
    } else {
      SilenceIsExplained(events[1..], stop);
    }
  }

  // ---------------------------------------------------------------------
  // From the instance to the customer
  // ---------------------------------------------------------------------

  /** A message goes missing when its write fails, or when the request's
      channel stays full for five seconds. */
  function Arrived(kept: seq<bool>, said: seq<Message>): seq<Message>
    requires |kept| == |said|
  {
    if said == [] then []
    else (if kept[0] then [said[0]] else []) + Arrived(kept[1..], said[1..])
  }

  lemma RelayOne(reply: Reply, m: Message, rest: seq<Message>, tail: seq<Message>, stop: Stop)
    requires Plain(m)
    ensures Relay(reply, [m] + rest + tail, stop) ==
            if |reply.body| + |m.data| > RESPONSE_LIMIT then reply
            else Relay(Written(reply, m.data), rest + tail, stop)
    ensures reply.body + Carried([m] + rest) == Written(reply, m.data).body + Carried(rest)
  {
    assert ([m] + rest + tail)[1..] == rest + tail;
    assert ([m] + rest)[1..] == rest;
    assert reply.body + (m.data + Carried(rest)) == reply.body + m.data + Carried(rest);
  }

  /** Relaying data messages: they are written in order while they fit. */
  lemma {:induction false} RelayChunks(reply: Reply, data: seq<Message>, kept: seq<bool>, tail: seq<Message>, stop: Stop)
    requires |kept| == |data| && |reply.body| <= RESPONSE_LIMIT
    requires AllPlain(data)
    ensures var arrived := Arrived(kept, data);
            var bytes := reply.body + Carried(arrived);
            var reply' := Relay(reply, arrived + tail, stop);
            if |bytes| <= RESPONSE_LIMIT then
              reply' == Relay(Reply(if arrived != [] && reply.status.None? then Some(200) else reply.status,
                                    reply.length, bytes), tail, stop)
            else
              && reply'.body < bytes && |reply'.body| <= RESPONSE_LIMIT && reply'.length == reply.length
              && (reply.status.Some? ==> reply'.status == reply.status)
    decreases data
  {
    if data == [] {
      assert Arrived(kept, data) + tail == tail;
      assert reply.body + [] == reply.body;
    } else {
      assert Plain(data[0]) && AllPlain(data[1..]);
      var rest := Arrived(kept[1..], data[1..]);
      if !kept[0] {
        assert Arrived(kept, data) == rest;
        RelayChunks(reply, data[1..], kept[1..], tail, stop);
      } else {
        assert Arrived(kept, data) == [data[0]] + rest;
        RelayOne(reply, data[0], rest, tail, stop);
        if |reply.body| + |data[0].data| <= RESPONSE_LIMIT {
          RelayChunks(Written(reply, data[0].data), data[1..], kept[1..], tail, stop);
        }
      }
    }
  }

  lemma {:induction false} ArrivedSplit(kept: seq<bool>, said: seq<Message>, n: nat)
    requires n <= |kept| == |said|
    ensures Arrived(kept, said) == Arrived(kept[..n], said[..n]) + Arrived(kept[n..], said[n..])
  {
    if n > 0 {
      ArrivedSplit(kept[1..], said[1..], n - 1);
      assert kept[..n][1..] == kept[1..][..n - 1] && said[..n][1..] == said[1..][..n - 1];
    }
  }

  function Normal(status: int): int {
    if status == 0 then 200 else status
  }

  /** How many of the messages come before the terminal. */
  function Before(up: Upstream, said: seq<Message>): nat
    requires said != []
  {
    if said == Word(up) then |said| - 1 else |said|
  }

  /** The body bytes that reach the control plane. */
  function Reached(up: Upstream, said: seq<Message>, kept: seq<bool>): seq<Byte>
    requires up.Answered? && said != [] && said <= Word(up) && |kept| == |said|
  {
    var n := Before(up, said);
    Carried(Arrived(kept[1..n], said[1..n]))
  }

  /** What is shown once those have been relayed: an answer whose header went
      missing becomes a 200. */
  function Shown(up: Upstream, said: seq<Message>, kept: seq<bool>): Reply
    requires up.Answered? && said != [] && said <= Word(up) && |kept| == |said|
  {
    var bytes := Reached(up, said, kept);
    if kept[0] then Reply(Some(Normal(up.status)), up.length, bytes)
    else Reply(if bytes != [] then Some(200) else None, None, bytes)
  }

  lemma {:induction false} SomeBytes(kept: seq<bool>, data: seq<Message>)
    requires |kept| == |data| && AllPlain(data)
    ensures Arrived(kept, data) == [] <==> Carried(Arrived(kept, data)) == []
  {
    if data != [] {
      assert Plain(data[0]) && AllPlain(data[1..]);
      SomeBytes(kept[1..], data[1..]);
      if !kept[0] {
        assert Arrived(kept, data) == Arrived(kept[1..], data[1..]);
      }
    }
  }

  /** The header, if it arrives, only sets the status. */
  lemma RelayHeader(up: Upstream, said: seq<Message>, kept: seq<bool>, stop: Stop)
    requires up.Answered? && said != [] && said <= Word(up) && |kept| == |said|
    ensures Relay(NOTHING, Arrived(kept, said), stop) ==
            Relay(Headed(up, kept[0]), Arrived(kept[1..], said[1..]), stop)
  {
    DataIsPlain(up, said);
    var rest := Arrived(kept[1..], said[1..]);
    if kept[0] {
      assert Arrived(kept, said)[1..] == rest;
    } else {
      assert Arrived(kept, said) == rest;
    }
  }

  function Headed(up: Upstream, arrived: bool): Reply
    requires up.Answered?
  {
    if arrived then Reply(Some(Normal(up.status)), up.length, []) else NOTHING
  }

  /** The terminal, if it was sent and arrived. */
  function End(up: Upstream, said: seq<Message>, kept: seq<bool>): seq<Message>
    requires up.Answered? && said != [] && said <= Word(up) && |kept| == |said|
  {
    if said == Word(up) && kept[|said| - 1] then [Terminal(up.intact)] else []
  }

  lemma ArrivedParts(up: Upstream, said: seq<Message>, kept: seq<bool>)
    requires up.Answered? && said != [] && said <= Word(up) && |kept| == |said|
    ensures var n := Before(up, said);
            Arrived(kept[1..], said[1..]) == Arrived(kept[1..n], said[1..n]) + End(up, said, kept)
  {
    var n := Before(up, said);
    ArrivedSplit(kept[1..], said[1..], n - 1);
    assert said[1..][..n - 1] == said[1..n] && kept[1..][..n - 1] == kept[1..n];
    assert said[1..][n - 1..] == said[n..] && kept[1..][n - 1..] == kept[n..];
    if said == Word(up) {
      assert said[n..] == [Terminal(up.intact)] && kept[n..] == [kept[n]];
      assert Arrived(kept[n..], said[n..]) == End(up, said, kept);
    }
  }

  /** Relaying the body and then the terminal, if it is there. */
  lemma RelayToEnd(reply: Reply, data: seq<Message>, kept: seq<bool>, end: seq<Message>, stop: Stop)
    requires reply.body == [] && |kept| == |data| && AllPlain(data)
    requires end == [] || exists intact :: end == [Terminal(intact)]
    ensures var bytes := Carried(Arrived(kept, data));
            var shown := Reply(if bytes != [] && reply.status.None? then Some(200) else reply.status, reply.length, bytes);
            var reply' := Relay(reply, Arrived(kept, data) + end, stop);
            if |bytes| > RESPONSE_LIMIT then
              && reply'.body < bytes && |reply'.body| <= RESPONSE_LIMIT && reply'.length == reply.length
              && (reply.status.Some? ==> reply'.status == reply.status)
            else reply' == if end != [] then shown else GiveUp(shown, stop)
  {
    var bytes := Carried(Arrived(kept, data));
    assert reply.body + bytes == bytes;
    SomeBytes(kept, data);
    RelayChunks(reply, data, kept, end, stop);
  }

  lemma RelayParts(up: Upstream, said: seq<Message>, kept: seq<bool>, stop: Stop)
    requires up.Answered? && said != [] && said <= Word(up) && |kept| == |said|
    ensures var n := Before(up, said);
            && AllPlain(said[1..n])
            && Relay(NOTHING, Arrived(kept, said), stop) ==
               Relay(Headed(up, kept[0]), Arrived(kept[1..n], said[1..n]) + End(up, said, kept), stop)
  {
    DataIsPlain(up, said);
    RelayHeader(up, said, kept, stop);
    ArrivedParts(up, said, kept);
  }

  /** The relay of whatever arrives of an answer. */
  lemma Relaying(up: Upstream, said: seq<Message>, kept: seq<bool>, stop: Stop)
    requires up.Answered? && said != [] && said <= Word(up) && |kept| == |said|
    ensures var reply := Relay(NOTHING, Arrived(kept, said), stop);
            if |Reached(up, said, kept)| > RESPONSE_LIMIT then
              && reply.body < Reached(up, said, kept) && |reply.body| <= RESPONSE_LIMIT
              && (kept[0] ==> reply.status == Some(Normal(up.status)) && reply.length == up.length)
            else reply == if End(up, said, kept) != [] then Shown(up, said, kept) else GiveUp(Shown(up, said, kept), stop)
  {
    var n := Before(up, said);
    RelayParts(up, said, kept, stop);
    RelayToEnd(Headed(up, kept[0]), said[1..n], kept[1..n], End(up, said, kept), stop);
  }

  lemma DataIsPlain(up: Upstream, said: seq<Message>)
    requires up.Answered? && said != [] && said <= Word(up)
    ensures said[0] == Response("", up.status, up.length)
    ensures AllPlain(said[1..Before(up, said)])
  {
    RepliesAreWellFormed(up);
    forall i | 0 <= i < Before(up, said) - 1 ensures Plain(said[1..Before(up, said)][i]) {
      assert said[1..Before(up, said)][i] == Word(up)[i + 1];
    }
  }

  lemma {:induction false} NothingMissing(kept: seq<bool>, data: seq<Message>)
    requires |kept| == |data| && AllPlain(data)
    ensures |Carried(Arrived(kept, data))| <= |Carried(data)|
    ensures |Carried(Arrived(kept, data))| == |Carried(data)| <==> forall i | 0 <= i < |kept| :: kept[i]
    ensures (forall i | 0 <= i < |kept| :: kept[i]) ==> Arrived(kept, data) == data
  {
    if data != [] {
      assert Plain(data[0]) && AllPlain(data[1..]);
      NothingMissing(kept[1..], data[1..]);
      assert forall i | 1 <= i < |kept| :: kept[i] == kept[1..][i - 1];
      if kept[0] {
        assert Arrived(kept, data)[1..] == Arrived(kept[1..], data[1..]);
        if forall i | 0 <= i < |kept[1..]| :: kept[1..][i] {
          assert forall i | 0 <= i < |kept| :: kept[i];
        }
      } else {
        assert Arrived(kept, data) == Arrived(kept[1..], data[1..]);
      }
    }
  }

  lemma DataCarriesTheBody(up: Upstream)
    requires up.Answered?
    ensures Carried(Word(up)[1..|Word(up)| - 1]) == Body(up)
  {
    ChunksCarryTheBody(up.pieces + [up.last]);
    assert Word(up)[1..|Word(up)| - 1] == Chunks(up.pieces + [up.last]);
  }

  /** Once the header has arrived, the customer has the instance's status and
      declared length, and the body bytes that arrived - all of them, if they
      are within the limit, and otherwise a beginning of them that is. Whether
      the answer's end arrived makes no difference. */
  lemma CustomerHas(up: Upstream, said: seq<Message>, kept: seq<bool>, stop: Stop)
    requires up.Answered? && said != [] && said <= Word(up) && |kept| == |said| && kept[0]
    ensures var reply, reached := Relay(NOTHING, Arrived(kept, said), stop), Reached(up, said, kept);
            && reply.status == Some(Normal(up.status)) && reply.length == up.length && |reply.body| <= RESPONSE_LIMIT
            && if |reached| <= RESPONSE_LIMIT then reply.body == reached else reply.body < reached
  {
    Relaying(up, said, kept, stop);
  }

  /** Every data message was written and arrived. */
  predicate AllThere(up: Upstream, kept: seq<bool>) {
    |kept| >= |Word(up)| - 1 && forall i | 0 < i < |Word(up)| - 1 :: kept[i]
  }

  /** What was said of the body, and whether that is all of it. */
  lemma SaidOfBody(up: Upstream, said: seq<Message>)
    requires up.Answered? && said != [] && said <= Word(up)
    ensures AllPlain(said[1..Before(up, said)])
    ensures var sofar := Carried(said[1..Before(up, said)]);
            && |sofar| <= |Body(up)|
            && (|sofar| == |Body(up)| <==> Before(up, said) == |Word(up)| - 1)
            && (Before(up, said) == |Word(up)| - 1 ==> sofar == Body(up))
  {
    DataIsPlain(up, said);
    var rest := Unsaid(up, said);
    DataCarriesTheBody(up);
    CarriedConcat(said[1..Before(up, said)], rest);
    SomeCarried(rest);
  }

  /** The data messages that were not said. */
  lemma Unsaid(up: Upstream, said: seq<Message>) returns (rest: seq<Message>)
    requires up.Answered? && said != [] && said <= Word(up)
    ensures AllPlain(rest) && |rest| == |Word(up)| - 1 - Before(up, said)
    ensures Word(up)[1..|Word(up)| - 1] == said[1..Before(up, said)] + rest
  {
    DataIsPlain(up, Word(up));
    rest := Rest(Word(up), said, Before(up, said));
  }

  lemma Rest(word: seq<Message>, said: seq<Message>, n: nat) returns (rest: seq<Message>)
    requires said <= word && 1 <= n <= |said| && n < |word| && AllPlain(word[1..|word| - 1])
    ensures AllPlain(rest) && |rest| == |word| - 1 - n && word[1..|word| - 1] == said[1..n] + rest
  {
    rest := word[n..|word| - 1];
    assert forall i | 0 <= i < |rest| :: rest[i] == word[1..|word| - 1][n - 1 + i];
  }

  /** What arrives of the body is never longer than the body, and as long only
      if all of it is there. */
  lemma ReachedOfBody(up: Upstream, said: seq<Message>, kept: seq<bool>)
    requires up.Answered? && said != [] && said <= Word(up) && |kept| == |said|
    ensures |Reached(up, said, kept)| <= |Body(up)|
    ensures |Reached(up, said, kept)| == |Body(up)| <==> AllThere(up, kept)
    ensures AllThere(up, kept) ==> Reached(up, said, kept) == Body(up)
  {
    var n := Before(up, said);
    SaidOfBody(up, said);
    NothingMissing(kept[1..n], said[1..n]);
    assert forall i | 0 < i < n :: kept[i] == kept[1..n][i - 1];
    assert forall i | 0 <= i < n - 1 :: kept[1..n][i] == kept[i + 1];
  }

  lemma SomeCarried(data: seq<Message>)
    requires AllPlain(data)
    ensures Carried(data) == [] <==> data == []
  {
    if data != [] {
      assert Plain(data[0]);
    }
  }

  /** The customer has the whole body exactly when every piece of it was sent
      and arrived, and it is within the limit. */
  lemma WholeIffNothingDropped(up: Upstream, said: seq<Message>, kept: seq<bool>, stop: Stop)
    requires up.Answered? && said != [] && said <= Word(up) && |kept| == |said| && kept[0]
    ensures var reply := Relay(NOTHING, Arrived(kept, said), stop);
            && |reply.body| <= |Body(up)|
            && (reply.body == Body(up) <==> AllThere(up, kept) && |Body(up)| <= RESPONSE_LIMIT)
            && (|reply.body| == |Body(up)| ==> reply.body == Body(up))
  {
    CustomerHas(up, said, kept, stop);
    ReachedOfBody(up, said, kept);
  }

  /** If every message arrives, the customer has the instance's answer: its
      status, its declared length, and its body up to the limit. */
  lemma AnswerArrives(up: Upstream, kept: seq<bool>, stop: Stop)
    requires up.Answered? && |kept| == |Word(up)| && forall i | 0 <= i < |kept| :: kept[i]
    ensures var reply := Relay(NOTHING, Arrived(kept, Word(up)), stop);
            && reply.status == Some(Normal(up.status)) && reply.length == up.length
            && if |Body(up)| <= RESPONSE_LIMIT then reply.body == Body(up) else reply.body < Body(up)
  {
    CustomerHas(up, Word(up), kept, stop);
    ReachedOfBody(up, Word(up), kept);
  }

  // ---------------------------------------------------------------------
  // Can the customer tell?
  // ---------------------------------------------------------------------

  /** A whole answer, whose declared length, if there is one, is right. */
  predicate Truthful(up: Upstream) {
    up.Answered? && up.intact && (up.length.Some? ==> up.length.value == |Body(up)|)
  }

  function Kept(n: nat): seq<bool> {
    seq(n, _ => true)
  }

  /** Some whole answer, relayed without loss, gives just this reply. */
  ghost predicate LooksWhole(reply: Reply) {
    exists up, stop :: Truthful(up) && |Body(up)| <= RESPONSE_LIMIT &&
      Relay(NOTHING, Arrived(Kept(|Word(up)|), Word(up)), stop) == reply
  }

  /** For every answer, whole or breaking off, with a right or a wrong declared
      length, and whatever is dropped, cut off or over the limit: what the
      customer has looks like a whole answer exactly if no length was declared,
      or just as many bytes arrived. */
  lemma LossShowsIff(up: Upstream, said: seq<Message>, kept: seq<bool>, stop: Stop)
    requires up.Answered? && said != [] && said <= Word(up) && |kept| == |said| && kept[0]
    ensures var reply := Relay(NOTHING, Arrived(kept, said), stop);
            LooksWhole(reply) <==> up.length.None? || up.length.value == |reply.body|
  {
    var reply := Relay(NOTHING, Arrived(kept, said), stop);
    CustomerHas(up, said, kept, stop);
    if up.length.None? || up.length.value == |reply.body| {
      Shorter(up.status, up.length, reply.body, stop);
    }
    if LooksWhole(reply) {
      LooksWholeHasLength(reply);
    }
  }

  /** So of a whole answer that declared its length a customer sees whenever
      anything is missing; and of one that breaks off, if it declared more than
      arrived. */
  lemma DeclaredLossShows(up: Upstream, said: seq<Message>, kept: seq<bool>, stop: Stop)
    requires up.Answered? && said != [] && said <= Word(up) && |kept| == |said| && kept[0]
    ensures var reply := Relay(NOTHING, Arrived(kept, said), stop);
            && (Truthful(up) ==> (LooksWhole(reply) <==> up.length.None? || reply.body == Body(up)))
            && (up.length.Some? && up.length.value > |Body(up)| ==> !LooksWhole(reply))
  {
    LossShowsIff(up, said, kept, stop);
    WholeIffNothingDropped(up, said, kept, stop);
  }

  lemma LooksWholeHasLength(reply: Reply)
    requires LooksWhole(reply)
    ensures reply.length.Some? ==> reply.length.value == |reply.body|
  {
    var up, stop :| Truthful(up) && |Body(up)| <= RESPONSE_LIMIT &&
      Relay(NOTHING, Arrived(Kept(|Word(up)|), Word(up)), stop) == reply;
    AnswerArrives(up, Kept(|Word(up)|), stop);
  }

  lemma Shorter(status: int, length: Option<nat>, body: seq<Byte>, stop: Stop)
    requires |body| <= RESPONSE_LIMIT && (length.Some? ==> length.value == |body|)
    ensures LooksWhole(Reply(Some(Normal(status)), length, body))
  {
    var up := Answered(status, length, [], body, true);
    assert up.pieces + [up.last] == [body];
    assert Flat([body]) == body + [];
    AnswerArrives(up, Kept(|Word(up)|), stop);
  }

  lemma {:induction false} ArriveUntil(kept: seq<bool>, said: seq<Message>, n: nat)
    requires n <= |kept| == |said| && forall i | 0 <= i < |kept| :: kept[i] == (i < n)
    ensures Arrived(kept, said) == said[..n]
  {
    if said != [] {
      assert forall i | 0 <= i < |kept[1..]| :: kept[1..][i] == kept[i + 1];
      ArriveUntil(kept[1..], said[1..], if n == 0 then 0 else n - 1);
    }
  }

  /** With everything but the last message arriving, a beginning of the body
      reaches the control plane. */
  lemma ReachedBeginning(up: Upstream, said: seq<Message>, kept: seq<bool>)
    requires up.Answered? && |said| > 1 && said <= Word(up) && |kept| == |said|
    requires !kept[|said| - 1] && forall i | 0 <= i < |said| - 1 :: kept[i]
    ensures Reached(up, said, kept) == Carried(said[1..|said| - 1])
  {
    var n, m := Before(up, said), |said| - 1;
    assert forall i | 1 <= i < n :: kept[1..n][i - 1] == kept[i];
    ArriveUntil(kept[1..n], said[1..n], m - 1);
    assert said[1..n][..m - 1] == said[1..m];
  }

  lemma BeginningOfBody(up: Upstream, said: seq<Message>)
    requires up.Answered? && |said| > 1 && said <= Word(up)
    ensures Carried(said[1..|said| - 1]) <= Body(up)
  {
    var word, m := Word(up), |said| - 1;
    DataCarriesTheBody(up);
    Middle(word, said, m);
    CarriedConcat(said[1..m], word[m..|word| - 1]);
  }

  lemma Middle(word: seq<Message>, said: seq<Message>, m: nat)
    requires 1 <= m < |said| <= |word| && said <= word
    ensures word[1..|word| - 1] == said[1..m] + word[m..|word| - 1]
  {
  }

  /** If the agent's writes fail part-way, or its terminal is lost, the customer
      has the status and a beginning of the body. */
  lemma LostWriteTruncates(up: Upstream, said: seq<Message>, kept: seq<bool>, stop: Stop)
    requires up.Answered? && |said| > 1 && said <= Word(up) && |kept| == |said|
    requires !kept[|said| - 1] && forall i | 0 <= i < |said| - 1 :: kept[i]
    ensures var reply := Relay(NOTHING, Arrived(kept, said), stop);
            reply.status == Some(Normal(up.status)) && reply.length == up.length && reply.body <= Body(up)
  {
    CustomerHas(up, said, kept, stop);
    ReachedBeginning(up, said, kept);
    BeginningOfBody(up, said);
  }

  /** An instance that cannot be reached is reported as such. */
  lemma FailureArrives(up: Upstream, stop: Stop)
    requires !up.Answered?
    ensures Relay(NOTHING, Word(up), stop) ==
            Reply(Some(502), None,
                  Text("this instance could not be reached: "
                       + (match up
                          case Unreachable(_) => "instance not reachable: "
                          case Malformed(_) => "could not build request: "
                          case Refused(_) => "connection failed: ")
                       + up.reason + "\n"))
  {
    var kind := match up
      case Unreachable(_) => "instance not reachable: "
      case Malformed(_) => "could not build request: "
      case Refused(_) => "connection failed: ";
    var start := "this instance could not be reached: ";
    assert Word(up) == [Response(kind + up.reason, 0, None)];
    assert start + (kind + up.reason) + "\n" == start + kind + up.reason + "\n";
  }

  /** A reset cuts the reply off at once, with whatever it carries; an end lets
      what it carries through; and nothing behind either is looked at. */
  lemma EndAndReset(reply: Reply, data: seq<Byte>, eof: bool, rest: seq<Message>, stop: Stop)
    requires reply.status.Some? && |reply.body| + |data| <= 32 * 1024 * 1024
    ensures Relay(reply, [Data(data, eof, true)] + rest, stop) == reply
    ensures Relay(reply, [Data(data, true, false)] + rest, stop) == reply.(body := reply.body + data)
    ensures Relay(reply, [Data(data, false, false)] + rest, stop) == Relay(reply.(body := reply.body + data), rest, stop)
  {
    assert ([Data(data, false, false)] + rest)[1..] == rest;
    assert data == [] ==> reply.body + data == reply.body;
  }

  lemma TwoPieces(a: seq<Byte>, b: seq<Byte>)
    requires a != [] && b != []
    ensures Chunks([a] + [b]) == [Data(a, false, false), Data(b, false, false)]
    ensures Flat([a] + [b]) == a + b
  {
    assert ([a] + [b])[1..] == [b] && [b][1..] == [];
    assert Chunks([b]) == [Data(b, false, false)] && Flat([b]) == b;
  }

  /** A dropped message is not noticed: of an answer in two pieces, with no
      declared length, the second alone looks like a whole answer. */
  lemma DroppedPieceLooksComplete(a: seq<Byte>, b: seq<Byte>, stop: Stop)
    requires a != [] && b != [] && |b| <= RESPONSE_LIMIT
    ensures var up := Answered(200, None, [a], b, true);
            && |Word(up)| == 4 && Body(up) == a + b
            && Relay(NOTHING, [Word(up)[0], Word(up)[2], Word(up)[3]], stop) == Reply(Some(200), None, b)
            && LooksWhole(Reply(Some(200), None, b))
  {
    TwoPieces(a, b);
    Shorter(200, None, b, stop);
    var header, second, end := Response("", 200, None), Data(b, false, false), Data([], true, false);
    var one, both := Reply(Some(200), None, []), Reply(Some(200), None, b);
    assert [header, second, end][1..] == [second, end] && [second, end][1..] == [end];
    assert Relay(NOTHING, [header, second, end], stop) == Relay(one, [second, end], stop);
    assert Written(one, b) == both;
    assert Relay(one, [second, end], stop) == Relay(both, [end], stop);
  }
}
