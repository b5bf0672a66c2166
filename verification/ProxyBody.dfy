/** Delivery of tunnelled request bodies: chunks arrive on the receive loop,
    are routed by request id into a bounded channel, and are read by the
    request's handler (pkg/agentrunner/runner.go). */
module ProxyBody {
  import opened Options

  type Id = string
  type Byte = bv8

  datatype Chunk = Chunk(data: seq<Byte>, eof: bool, reset: bool)

  const CHANNEL_SIZE := 256

  function Body(cs: seq<Chunk>): seq<Byte> {
    if cs == [] then [] else Body(cs[..|cs| - 1]) + cs[|cs| - 1].data
  }

  // ---------------------------------------------------------------------
  // One Read, as a specification
  // ---------------------------------------------------------------------

  /** The fields of a proxyBodyReader. */
  datatype Reader = Reader(limit: nat, read: nat, pending: seq<Byte>, done: bool)

  datatype Result = Bytes(data: seq<Byte>) | CleanEof | Aborted | TooLarge | Cancelled | Blocked

  /** Receiving until there is something to hand out. The channel holds queue;
      cancelAfter is how many chunks arrive before the context ends, if it
      does. Blocked: the call would wait for a chunk that has not come. */
  function Receive(r: Reader, queue: seq<Chunk>, cancelAfter: Option<nat>): (Reader, seq<Chunk>, Result)
    decreases |queue|
  {
    if r.pending != [] then (r, queue, Bytes(r.pending))
    else if r.done then (r, queue, CleanEof)
    else if cancelAfter == Some(0) then (r, queue, Cancelled)
    else if queue == [] then (r, queue, Blocked)
    else
      var chunk := queue[0];
      var left := if cancelAfter.Some? then Some(cancelAfter.value - 1) else None;
      if chunk.reset then (r.(done := true), queue[1..], Aborted)
      else if r.read + |chunk.data| > r.limit then
        (r.(done := true, read := r.read + |chunk.data|), queue[1..], TooLarge)
      else
        Receive(r.(read := r.read + |chunk.data|, pending := chunk.data, done := chunk.eof), queue[1..], left)
  }

  /** A Read into a buffer of max bytes. */
  function ReadOnce(r: Reader, queue: seq<Chunk>, max: nat, cancelAfter: Option<nat>): (Reader, seq<Chunk>, Result) {
    var (r', queue', result) := Receive(r, queue, cancelAfter);
    if result.Bytes? then
      var n := if max < |r'.pending| then max else |r'.pending|;
      (r'.(pending := r'.pending[n..]), queue', Bytes(r'.pending[..n]))
    else (r', queue', result)
  }

  class ProxyBodyReader {
    const limit: nat
    var queue: seq<Chunk>    // the channel
    var read: nat
    var pending: seq<Byte>
    var done: bool

    function State(): Reader
      reads this
    {
      Reader(limit, read, pending, done)
    }

    constructor (queue: seq<Chunk>, limit: nat)
      ensures State() == Reader(limit, 0, [], false) && this.queue == queue
    {
      this.limit, this.queue := limit, queue;
      read, pending, done := 0, [], false;
    }

    method Read(max: nat, cancelAfter: Option<nat>) returns (result: Result)
      requires !Receive(State(), queue, cancelAfter).2.Blocked?
      modifies this
      ensures (State(), queue, result) == ReadOnce(old(State()), old(queue), max, cancelAfter)
    {
      var left := cancelAfter;
      while pending == []
        invariant Receive(State(), queue, left) == old(Receive(State(), queue, cancelAfter))
        decreases |queue|, |pending| == 0
      {
        if done {
          return CleanEof;
        }
        if left == Some(0) {
          return Cancelled;
        }
        var chunk := queue[0];
        queue := queue[1..];
        left := if left.Some? then Some(left.value - 1) else None;
        if chunk.reset {
          done := true;
          return Aborted;
        }
        read := read + |chunk.data|;
        if read > limit {
          done := true;
          return TooLarge;
        }
        pending := chunk.data;
        done := chunk.eof;
      }
      var n := if max < |pending| then max else |pending|;
      result := Bytes(pending[..n]);
      pending := pending[n..];
    }
  }

  // ---------------------------------------------------------------------
  // The runner's side: routing by request id
  // ---------------------------------------------------------------------

  /** One request: its channel, its reader, and what has happened to it - the
      chunks the control plane sent for it, those the channel took, the bytes
      its handler got, and the first result that was not bytes. */
  datatype Flow = Flow(
    hasBody: bool, finished: bool, queue: seq<Chunk>, reader: Reader,
    sent: seq<Chunk>, accepted: seq<Chunk>, got: seq<Byte>, ended: Option<Result>)

  /** channels: the keys of Runner.proxyBodies. */
  datatype Router = Router(channels: set<Id>, flows: map<Id, Flow>)

  datatype Event =
    | Dispatch(id: Id, hasBody: bool, limit: nat)
    | HandlerOpens(id: Id)
    | Data(id: Id, chunk: Chunk)
    | HandlerReads(id: Id, max: nat, cancelAfter: Option<nat>)
    | HandlerReturns(id: Id)

  predicate Enabled(s: Router, e: Event) {
    match e
    case Dispatch(id, _, _) => id !in s.flows
    case HandlerOpens(id) => id in s.flows && s.flows[id].hasBody && !s.flows[id].finished
    case Data(_, _) => true
    case HandlerReads(id, max, cancelAfter) =>
      && id in s.flows && s.flows[id].hasBody && !s.flows[id].finished
      && !ReadOnce(s.flows[id].reader, s.flows[id].queue, max, cancelAfter).2.Blocked?
    case HandlerReturns(id) => id in s.flows && !s.flows[id].finished
  }

  /** A chunk that finds no channel is dropped; one that finds it full for five
      seconds is dropped too. */
  function Offer(f: Flow, hasChannel: bool, chunk: Chunk): Flow {
    var f' := f.(sent := f.sent + [chunk]);
    if hasChannel && |f.queue| < CHANNEL_SIZE
    then f'.(queue := f.queue + [chunk], accepted := f.accepted + [chunk])
    else f'
  }

  function ReadFlow(f: Flow, max: nat, cancelAfter: Option<nat>): Flow {
    var (reader, queue, result) := ReadOnce(f.reader, f.queue, max, cancelAfter);
    Answer(f, reader, queue, result)
  }

  function Answer(f: Flow, reader: Reader, queue: seq<Chunk>, result: Result): Flow {
    var f' := f.(reader := reader, queue := queue);
    if result.Bytes? then f'.(got := f.got + result.data)
    else if f.ended.None? then f'.(ended := Some(result))
    else f'
  }

  function Step(s: Router, e: Event): Router
    requires Enabled(s, e)
  {
    match e
    case Dispatch(id, hasBody, limit) =>
      Router(if hasBody then s.channels + {id} else s.channels,
             s.flows[id := Flow(hasBody, false, [], Reader(limit, 0, [], false), [], [], [], None)])
    case HandlerOpens(id) => s.(channels := s.channels + {id})
    case Data(id, chunk) =>
      if id in s.flows then s.(flows := s.flows[id := Offer(s.flows[id], id in s.channels, chunk)]) else s
    case HandlerReads(id, max, cancelAfter) => s.(flows := s.flows[id := ReadFlow(s.flows[id], max, cancelAfter)])
    case HandlerReturns(id) =>
      Router(if s.flows[id].hasBody then s.channels - {id} else s.channels,
             s.flows[id := s.flows[id].(finished := true)])
  }

  predicate Possible(s: Router, es: seq<Event>)
    decreases es
  {
    es == [] || (Enabled(s, es[0]) && Possible(Step(s, es[0]), es[1..]))
  }

  function After(s: Router, es: seq<Event>): Router
    requires Possible(s, es)
    decreases es
  {
    if es == [] then s else After(Step(s, es[0]), es[1..])
  }

  // ---------------------------------------------------------------------
  // What every interleaving keeps
  // ---------------------------------------------------------------------

  /** a can be had from b by leaving chunks out. */
  ghost predicate Subsequence(a: seq<Chunk>, b: seq<Chunk>)
    decreases b
  {
    if b == [] then a == []
    else Subsequence(a, b[..|b| - 1]) ||
         (a != [] && a[|a| - 1] == b[|b| - 1] && Subsequence(a[..|a| - 1], b[..|b| - 1]))
  }

  /** What a request body amounts to, chunk by chunk: the bytes, the size seen
      so far, and whether and how it has ended. */
  datatype Intake = Intake(bytes: seq<Byte>, size: nat, verdict: Verdict)
  datatype Verdict = Open | Ended | WasReset | Over

  function Feed(limit: nat, cs: seq<Chunk>): Intake {
    if cs == [] then Intake([], 0, Open) else Fed(limit, Feed(limit, cs[..|cs| - 1]), cs[|cs| - 1])
  }

  function Fed(limit: nat, i: Intake, c: Chunk): Intake {
    if i.verdict != Open then i
    else if c.reset then i.(verdict := WasReset)
    else if i.size + |c.data| > limit then i.(verdict := Over, size := i.size + |c.data|)
    else Intake(i.bytes + c.data, i.size + |c.data|, if c.eof then Ended else Open)
  }

  /** The chunks the reader has taken out of the channel. */
  function Consumed(f: Flow): seq<Chunk>
    requires |f.queue| <= |f.accepted|
  {
    f.accepted[..|f.accepted| - |f.queue|]
  }

  /** A reader that has been through i, having handed out got. */
  ghost predicate Reading(r: Reader, i: Intake, got: seq<Byte>) {
    && got + r.pending == i.bytes && r.read == i.size
    && (r.done <==> i.verdict != Open)
    && (i.verdict in {WasReset, Over} ==> r.pending == [])
  }

  /** A reader takes nothing more once its body has ended. */
  ghost predicate StoppedInTime(limit: nat, cs: seq<Chunk>) {
    cs != [] ==> Feed(limit, cs[..|cs| - 1]).verdict == Open
  }

  ghost predicate Told(ended: Option<Result>, r: Reader, v: Verdict) {
    match ended
    case None => v in {Open, Ended}
    case Some(CleanEof) => v == Ended && r.pending == []
    case Some(Aborted) => v == WasReset
    case Some(TooLarge) => v == Over
    case Some(Cancelled) => true
    case Some(_) => false
  }

  ghost predicate FlowOk(f: Flow) {
    && |f.queue| <= |f.accepted| && f.queue == f.accepted[|f.accepted| - |f.queue|..]
    && Subsequence(f.accepted, f.sent)
    && var i := Feed(f.reader.limit, Consumed(f));
    && Reading(f.reader, i, f.got) && Told(f.ended, f.reader, i.verdict)
    && StoppedInTime(f.reader.limit, Consumed(f))
  }

  ghost predicate Invariant(s: Router) {
    && (forall id | id in s.flows :: FlowOk(s.flows[id]))
    && forall id :: id in s.channels <==> Awaited(s, id)
  }

  /** A request with a body that is still being handled. */
  predicate Awaited(s: Router, id: Id) {
    id in s.flows && s.flows[id].hasBody && !s.flows[id].finished
  }

  /** What one chunk does to a reader that has nothing to hand out. */
  function Taken(r: Reader, chunk: Chunk): Reader {
    if chunk.reset then r.(done := true)
    else if r.read + |chunk.data| > r.limit then r.(done := true, read := r.read + |chunk.data|)
    else r.(read := r.read + |chunk.data|, pending := chunk.data, done := chunk.eof)
  }

  /** What a receive reports, against the chunks taken so far. */
  ghost predicate Reports(result: Result, r: Reader, v: Verdict) {
    match result
    case Bytes(data) => data == r.pending != []
    case CleanEof => r.done && r.pending == []
    case Aborted => v == WasReset
    case TooLarge => v == Over
    case _ => true
  }

  /** A receive that found the first k of all taken and left with the first j
      taken, r0 having become r. */
  ghost predicate Took(all: seq<Chunk>, k: nat, j: nat, r0: Reader, r: Reader, got: seq<Byte>, result: Result) {
    && k <= j <= |all| && r.limit == r0.limit
    && StoppedInTime(r.limit, all[..j])
    && var i := Feed(r.limit, all[..j]);
    && Reading(r, i, got) && Reports(result, r, i.verdict)
    && (i.verdict in {WasReset, Over} ==> result.Aborted? || result.TooLarge? || j == k)
    && (r0.done ==> j == k && r == r0 && !result.Aborted? && !result.TooLarge?)
  }

  predicate Terminal(r: Reader, chunk: Chunk) {
    chunk.reset || r.read + |chunk.data| > r.limit
  }

  function Left(cancelAfter: Option<nat>): Option<nat>
    requires cancelAfter != Some(0)
  {
    if cancelAfter.Some? then Some(cancelAfter.value - 1) else None
  }

  /** A receive with nothing to take leaves everything as it was. */
  lemma NothingTaken(r: Reader, all: seq<Chunk>, k: nat, cancelAfter: Option<nat>, got: seq<Byte>)
    requires k <= |all| && Reading(r, Feed(r.limit, all[..k]), got) && StoppedInTime(r.limit, all[..k])
    requires r.pending != [] || r.done || cancelAfter == Some(0) || k == |all|
    ensures var (r', queue', result) := Receive(r, all[k..], cancelAfter);
            Took(all, k, k, r, r', got, result) && queue' == all[k..]
  {
  }

  /** A receive that has to take a chunk: it stops there, or goes on. */
  lemma ChunkTaken(r: Reader, all: seq<Chunk>, k: nat, cancelAfter: Option<nat>)
    requires k < |all| && r.pending == [] && !r.done && cancelAfter != Some(0)
    ensures Receive(r, all[k..], cancelAfter) ==
            if all[k].reset then (Taken(r, all[k]), all[k + 1..], Aborted)
            else if Terminal(r, all[k]) then (Taken(r, all[k]), all[k + 1..], TooLarge)
            else Receive(Taken(r, all[k]), all[k + 1..], Left(cancelAfter))
  {
    assert all[k..][0] == all[k] && all[k..][1..] == all[k + 1..];
  }

  /** A receive takes chunks out of the channel in order and accounts for every
      byte of them. */
  lemma {:induction false} ReceiveKeeps(r: Reader, all: seq<Chunk>, k: nat, cancelAfter: Option<nat>, got: seq<Byte>)
    returns (j: nat)
    requires k <= |all| && Reading(r, Feed(r.limit, all[..k]), got) && StoppedInTime(r.limit, all[..k])
    ensures var (r', queue', result) := Receive(r, all[k..], cancelAfter);
            Took(all, k, j, r, r', got, result) && queue' == all[j..]
    decreases |all| - k
  {
    if r.pending != [] || r.done || cancelAfter == Some(0) || k == |all| {
      j := k;
      NothingTaken(r, all, k, cancelAfter, got);
    } else {
      ChunkTaken(r, all, k, cancelAfter);
      TakeKeeps(r, all, k, got);
      if Terminal(r, all[k]) {
        j := k + 1;
      } else {
        j := ReceiveKeeps(Taken(r, all[k]), all, k + 1, Left(cancelAfter), got);
      }
    }
  }

  lemma TakeKeeps(r: Reader, all: seq<Chunk>, k: nat, got: seq<Byte>)
    requires k < |all| && r.pending == [] && !r.done
    requires Reading(r, Feed(r.limit, all[..k]), got) && StoppedInTime(r.limit, all[..k])
    ensures StoppedInTime(r.limit, all[..k + 1])
    ensures var i := Feed(r.limit, all[..k + 1]);
            && Reading(Taken(r, all[k]), i, got)
            && i.verdict == if all[k].reset then WasReset else if r.read + |all[k].data| > r.limit then Over
                            else if all[k].eof then Ended else Open
  {
    assert all[..k + 1][..k] == all[..k] && all[..k + 1][k] == all[k];
    assert Feed(r.limit, all[..k + 1]) == Fed(r.limit, Feed(r.limit, all[..k]), all[k]);
  }

  lemma ReadAnswers(f: Flow, max: nat, cancelAfter: Option<nat>)
    ensures var (r, queue, result) := Receive(f.reader, f.queue, cancelAfter);
            var n := if max < |r.pending| then max else |r.pending|;
            ReadFlow(f, max, cancelAfter) ==
            if result.Bytes? then Answer(f, r.(pending := r.pending[n..]), queue, Bytes(r.pending[..n]))
            else Answer(f, r, queue, result)
  {
  }

  lemma ReadKeepsFlow(f: Flow, max: nat, cancelAfter: Option<nat>)
    requires FlowOk(f) && !Receive(f.reader, f.queue, cancelAfter).2.Blocked?
    ensures FlowOk(ReadFlow(f, max, cancelAfter))
  {
    var k := |f.accepted| - |f.queue|;
    var (r, queue, result) := Receive(f.reader, f.queue, cancelAfter);
    var j := FlowReceives(f, k, cancelAfter);
    ReadAnswers(f, max, cancelAfter);
    if result.Bytes? {
      BytesKeepFlow(f, k, j, r, max);
    } else {
      VerdictKeepsFlow(f, k, j, r, result);
    }
  }

  lemma FlowReceives(f: Flow, k: nat, cancelAfter: Option<nat>) returns (j: nat)
    requires FlowOk(f) && k == |f.accepted| - |f.queue|
    ensures var (r, queue, result) := Receive(f.reader, f.queue, cancelAfter);
            && Took(f.accepted, k, j, f.reader, r, f.got, result) && queue == f.accepted[j..]
            && (result.Bytes? ==> result == Bytes(r.pending))
  {
    j := ReceiveKeeps(f.reader, f.accepted, k, cancelAfter, f.got);
  }

  lemma BytesKeepFlow(f: Flow, k: nat, j: nat, r: Reader, max: nat)
    requires FlowOk(f) && k == |f.accepted| - |f.queue|
    requires Took(f.accepted, k, j, f.reader, r, f.got, Bytes(r.pending))
    ensures var n := if max < |r.pending| then max else |r.pending|;
            FlowOk(Answer(f, r.(pending := r.pending[n..]), f.accepted[j..], Bytes(r.pending[..n])))
  {
    var n := if max < |r.pending| then max else |r.pending|;
    var f' := Answer(f, r.(pending := r.pending[n..]), f.accepted[j..], Bytes(r.pending[..n]));
    assert Consumed(f') == f.accepted[..j] && Consumed(f) == f.accepted[..k];
    HandingOut(f, k, j, r, n);
  }

  /** Handing out the first n bytes of what is pending. */
  lemma HandingOut(f: Flow, k: nat, j: nat, r: Reader, n: nat)
    requires k <= |f.accepted| && n <= |r.pending|
    requires Told(f.ended, f.reader, Feed(f.reader.limit, f.accepted[..k]).verdict)
    requires Reading(f.reader, Feed(f.reader.limit, f.accepted[..k]), f.got)
    requires Took(f.accepted, k, j, f.reader, r, f.got, Bytes(r.pending))
    ensures var i, r' := Feed(r.limit, f.accepted[..j]), r.(pending := r.pending[n..]);
            Reading(r', i, f.got + r.pending[..n]) && Told(f.ended, r', i.verdict)
  {
    assert f.got + r.pending[..n] + r.pending[n..] == f.got + r.pending;
  }

  /** What a reader was told stays right while it goes on, and what it is told
      now is right. */
  lemma ToldStays(f: Flow, k: nat, j: nat, r: Reader, result: Result)
    requires k <= |f.accepted| && !result.Bytes? && !result.Blocked?
    requires Told(f.ended, f.reader, Feed(f.reader.limit, f.accepted[..k]).verdict)
    requires Reading(f.reader, Feed(f.reader.limit, f.accepted[..k]), f.got)
    requires Took(f.accepted, k, j, f.reader, r, f.got, result)
    ensures Told(if f.ended.None? then Some(result) else f.ended, r, Feed(r.limit, f.accepted[..j]).verdict)
  {
  }

  lemma VerdictKeepsFlow(f: Flow, k: nat, j: nat, r: Reader, result: Result)
    requires FlowOk(f) && k == |f.accepted| - |f.queue| && !result.Bytes? && !result.Blocked?
    requires Took(f.accepted, k, j, f.reader, r, f.got, result)
    ensures FlowOk(Answer(f, r, f.accepted[j..], result))
  {
    var f' := Answer(f, r, f.accepted[j..], result);
    assert Consumed(f') == f.accepted[..j] && Consumed(f) == f.accepted[..k];
    ToldStays(f, k, j, r, result);
  }

  lemma OfferKeepsFlow(f: Flow, hasChannel: bool, chunk: Chunk)
    requires FlowOk(f)
    ensures FlowOk(Offer(f, hasChannel, chunk))
  {
    var f' := Offer(f, hasChannel, chunk);
    assert f'.sent[..|f.sent|] == f.sent;
    assert Subsequence(f.accepted, f'.sent);
    if f'.accepted != f.accepted {
      assert f'.accepted[..|f.accepted|] == f.accepted;
    }
    assert Consumed(f') == Consumed(f);
  }

  lemma StepKeepsFlow(s: Router, e: Event, id: Id)
    requires Enabled(s, e) && id in s.flows && FlowOk(s.flows[id])
    ensures id in Step(s, e).flows && FlowOk(Step(s, e).flows[id])
  {
    var f := s.flows[id];
    match e
    case Data(x, chunk) =>
      if x == id {
        OfferKeepsFlow(f, id in s.channels, chunk);
      }
    case HandlerReads(x, max, cancelAfter) =>
      if x == id {
        ReadKeepsFlow(f, max, cancelAfter);
      }
    case HandlerReturns(x) => assert Consumed(f.(finished := true)) == Consumed(f);
    case _ =>
  }

  lemma StepKeepsChannel(s: Router, e: Event, id: Id)
    requires Enabled(s, e) && forall x :: x in s.channels <==> Awaited(s, x)
    ensures id in Step(s, e).channels <==> Awaited(Step(s, e), id)
  {
  }

  lemma StepKeepsInvariant(s: Router, e: Event)
    requires Invariant(s) && Enabled(s, e)
    ensures Invariant(Step(s, e))
  {
    var t := Step(s, e);
    forall id ensures id in t.channels <==> Awaited(t, id) {
      StepKeepsChannel(s, e, id);
    }
    forall id | id in t.flows ensures FlowOk(t.flows[id]) {
      if id in s.flows {
        StepKeepsFlow(s, e, id);
      }
    }
  }

  lemma {:induction false} RunsKeepInvariant(s: Router, es: seq<Event>)
    requires Invariant(s) && Possible(s, es)
    ensures Invariant(After(s, es))
    decreases es
  {
    if es != [] {
      StepKeepsInvariant(s, es[0]);
      RunsKeepInvariant(Step(s, es[0]), es[1..]);
    }
  }

  lemma {:induction false} BodyPrefix(cs: seq<Chunk>, n: nat)
    requires n <= |cs|
    ensures Body(cs[..n]) <= Body(cs)
  {
    if n < |cs| {
      BodyPrefix(cs[..|cs| - 1], n);
      assert cs[..|cs| - 1][..n] == cs[..n];
    } else {
      assert cs[..n] == cs;
    }
  }

  const IDLE := Router({}, map[])

  /** What a handler has read is a prefix of the concatenation of chunks sent
      for its own request, in the order they came and never past the limit; and
      if the first thing it was told was a clean end of file, it has read
      exactly the body of the chunks up to one marked eof. */
  ghost predicate InOrder(f: Flow) {
    && Subsequence(f.accepted, f.sent)
    && f.got <= Body(f.accepted)
    && |f.got| <= f.reader.limit
    && (f.ended == Some(CleanEof) ==>
        exists n :: 0 < n <= |f.accepted| && f.accepted[n - 1].eof && f.got == Body(f.accepted[..n]))
  }

  lemma FlowInOrder(f: Flow)
    requires FlowOk(f)
    ensures InOrder(f)
  {
    var n := |f.accepted| - |f.queue|;
    FeedMeans(f.reader.limit, f.accepted[..n]);
    BodyPrefix(f.accepted, n);
    assert f.got <= f.got + f.reader.pending;
    if f.ended == Some(CleanEof) {
      assert f.got + f.reader.pending == f.got;
      assert f.accepted[..n][n - 1] == f.accepted[n - 1];
    }
  }

  /** For every interleaving of any number of requests: the channels are those
      of the requests with a body that are still being handled, and every
      handler gets its own body in order. */
  lemma BodiesArriveInOrder(es: seq<Event>, id: Id)
    requires Possible(IDLE, es)
    ensures var s := After(IDLE, es);
            && (id in s.channels <==> Awaited(s, id))
            && (id in s.flows ==> InOrder(s.flows[id]))
  {
    assert Invariant(IDLE);
    RunsKeepInvariant(IDLE, es);
    var s := After(IDLE, es);
    if id in s.flows {
      FlowInOrder(s.flows[id]);
    }
  }

  /** What the reader takes in is the body of what it took out of the channel,
      up to the limit, and it ends cleanly only on a chunk marked eof. */
  lemma {:induction false} FeedMeans(limit: nat, cs: seq<Chunk>)
    requires StoppedInTime(limit, cs)
    ensures var i := Feed(limit, cs);
            && i.bytes <= Body(cs) && |i.bytes| <= limit
            && (i.verdict in {Open, Ended} ==> i.bytes == Body(cs) && i.size == |i.bytes|)
            && (i.verdict == Ended ==> cs != [] && cs[|cs| - 1].eof)
  {
    if cs != [] {
      var rest := cs[..|cs| - 1];
      assert rest == [] || Feed(limit, rest) == Fed(limit, Feed(limit, rest[..|rest| - 1]), rest[|rest| - 1]);
      FeedMeans(limit, rest);
    }
  }

  // ---------------------------------------------------------------------
  // Nothing dropped: the whole body
  // ---------------------------------------------------------------------

  /** Every chunk for id found a channel with room. */
  predicate NothingDropped(s: Router, es: seq<Event>, id: Id)
    requires Possible(s, es)
    decreases es
  {
    es == [] ||
    ((es[0].Data? && es[0].id == id && id in s.flows ==> id in s.channels && |s.flows[id].queue| < CHANNEL_SIZE) &&
     NothingDropped(Step(s, es[0]), es[1..], id))
  }

  lemma {:induction false} AllAccepted(s: Router, es: seq<Event>, id: Id)
    requires Possible(s, es) && NothingDropped(s, es, id)
    requires id in s.flows ==> s.flows[id].accepted == s.flows[id].sent
    ensures var t := After(s, es); id in t.flows ==> t.flows[id].accepted == t.flows[id].sent
    decreases es
  {
    if es != [] {
      AllAccepted(Step(s, es[0]), es[1..], id);
    }
  }

  /** If no delivery timed out, a clean end of file means the handler has read
      the sent body, whole: everything up to the eof chunk. */
  lemma WholeBodyArrives(es: seq<Event>, id: Id)
    requires Possible(IDLE, es) && NothingDropped(IDLE, es, id)
    requires id in After(IDLE, es).flows
    ensures var f := After(IDLE, es).flows[id];
            && f.got <= Body(f.sent)
            && (f.ended == Some(CleanEof) && (forall i | 0 <= i < |f.sent| - 1 :: !f.sent[i].eof) ==>
                f.got == Body(f.sent) && |f.sent| > 0 && f.sent[|f.sent| - 1].eof)
  {
    BodiesArriveInOrder(es, id);
    AllAccepted(IDLE, es, id);
    var f := After(IDLE, es).flows[id];
    if f.ended == Some(CleanEof) {
      var n :| 0 < n <= |f.accepted| && f.accepted[n - 1].eof && f.got == Body(f.accepted[..n]);
      if n == |f.sent| {
        assert f.sent[..n] == f.sent;
      }
    }
  }

  // ---------------------------------------------------------------------
  // Who gets a chunk
  // ---------------------------------------------------------------------

  /** A chunk goes to the request it names and to no other: behind what waits
      there, if the request has a body, is still being handled and its channel
      is not full; otherwise it is dropped. */
  ghost predicate Delivered(s: Router, id: Id, chunk: Chunk, s': Router)
    requires id in s.flows
  {
    && s'.channels == s.channels && s'.flows.Keys == s.flows.Keys
    && (forall other | other in s.flows && other != id :: s'.flows[other] == s.flows[other])
    && var (f, f') := (s.flows[id], s'.flows[id]);
    && f'.sent == f.sent + [chunk]
    && (f.hasBody && !f.finished && |f.queue| < 256 ==>
        f'.queue == f.queue + [chunk] && f'.accepted == f.accepted + [chunk])
    && (!f.hasBody || f.finished || |f.queue| >= 256 ==> f'.queue == f.queue && f'.accepted == f.accepted)
    && f'.reader == f.reader && f'.got == f.got && f'.ended == f.ended
  }

  lemma StepDelivers(s: Router, id: Id, chunk: Chunk)
    requires id in s.flows && (id in s.channels <==> Awaited(s, id))
    ensures Delivered(s, id, chunk, Step(s, Data(id, chunk)))
  {
  }

  /** So it is in every reachable state. */
  lemma ChunkGoesTo(es: seq<Event>, id: Id, chunk: Chunk)
    requires Possible(IDLE, es) && id in After(IDLE, es).flows
    ensures Delivered(After(IDLE, es), id, chunk, Step(After(IDLE, es), Data(id, chunk)))
  {
    assert Invariant(IDLE);
    RunsKeepInvariant(IDLE, es);
    StepDelivers(After(IDLE, es), id, chunk);
  }

  lemma NextEvent(s: Router, e: Event, rest: seq<Event>)
    requires Enabled(s, e) && Possible(Step(s, e), rest)
    ensures Possible(s, [e] + rest) && After(s, [e] + rest) == After(Step(s, e), rest)
  {
    assert ([e] + rest)[1..] == rest;
  }

  /** An ordinary request: one chunk within the limit, the end, and two reads. */
  lemma OrdinaryBody(id: Id, data: seq<Byte>, limit: nat) returns (es: seq<Event>)
    requires 0 < |data| <= limit
    ensures es == [Dispatch(id, true, limit), Data(id, Chunk(data, false, false)), Data(id, Chunk([], true, false)),
                   HandlerReads(id, |data|, None), HandlerReads(id, |data|, None), HandlerReturns(id)]
    ensures Possible(IDLE, es)
    ensures var s := After(IDLE, es);
            id in s.flows && s.flows[id].got == data && s.flows[id].ended == Some(CleanEof) && s.channels == {}
  {
    var piece, end := Chunk(data, false, false), Chunk([], true, false);
    var s1 := Step(IDLE, Dispatch(id, true, limit));
    var s2 := Step(s1, Data(id, piece));
    var s3 := Step(s2, Data(id, end));
    OneRead(data, limit);
    assert s3.flows[id].queue == [piece, end];
    var s4 := Step(s3, HandlerReads(id, |data|, None));
    assert s4.flows[id].got == [] + data == data;
    var s5 := Step(s4, HandlerReads(id, |data|, None));
    es := [HandlerReturns(id)] + [];
    NextEvent(s5, HandlerReturns(id), []);
    NextEvent(s4, HandlerReads(id, |data|, None), es);
    es := [HandlerReads(id, |data|, None)] + es;
    NextEvent(s3, HandlerReads(id, |data|, None), es);
    es := [HandlerReads(id, |data|, None)] + es;
    NextEvent(s2, Data(id, end), es);
    es := [Data(id, end)] + es;
    NextEvent(s1, Data(id, piece), es);
    es := [Data(id, piece)] + es;
    NextEvent(IDLE, Dispatch(id, true, limit), es);
    es := [Dispatch(id, true, limit)] + es;
  }

  lemma OneRead(data: seq<Byte>, limit: nat)
    requires 0 < |data| <= limit
    ensures var piece, end := Chunk(data, false, false), Chunk([], true, false);
            && ReadOnce(Reader(limit, 0, [], false), [piece, end], |data|, None) ==
               (Reader(limit, |data|, [], false), [end], Bytes(data))
            && ReadOnce(Reader(limit, |data|, [], false), [end], |data|, None) ==
               (Reader(limit, |data|, [], true), [], CleanEof)
  {
    var piece, end := Chunk(data, false, false), Chunk([], true, false);
    assert [piece, end][1..] == [end] && [end][1..] == [];
    assert Receive(Reader(limit, |data|, data, false), [end], None) == (Reader(limit, |data|, data, false), [end], Bytes(data));
    assert Receive(Reader(limit, |data|, [], true), [], None) == (Reader(limit, |data|, [], true), [], CleanEof);
    assert data[..|data|] == data && data[|data|..] == [];
  }
}
