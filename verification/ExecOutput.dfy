/** Terminal output of an interactive session: writes are rate-limited,
    coalesced for a moment, and sent as messages that one ExecEnd follows
    (pkg/agentrunner/runner.go). */
module ExecOutput {
  import opened Wire

  type Byte = bv8

  datatype Outcome = Exited(code: int) | Unsupported | NotFound | Failed

  datatype Message = ExecOpen | Output(data: seq<Byte>) | ExecEnd(outcome: Outcome)

  const COALESCE_MAX := 32 * 1024
  const RATE_BURST := 64 * 1024

  /** The bytes of the output messages, in order. */
  function Text(ms: seq<Message>): seq<Byte> {
    if ms == [] then []
    else Text(ms[..|ms| - 1]) + (if ms[|ms| - 1].Output? then ms[|ms| - 1].data else [])
  }

  // ---------------------------------------------------------------------
  // The sender
  // ---------------------------------------------------------------------

  /** The sender's fields, and what it has sent. */
  datatype Sender = Sender(buf: seq<Byte>, armed: bool, said: seq<Message>)

  /** The limiter refuses a write above its burst outright; otherwise it makes
      the writer wait, and refuses if the session ends first. */
  predicate Admits(p: seq<Byte>, inTime: bool) {
    |p| <= RATE_BURST && inTime
  }

  function Flushed(o: Sender): Sender {
    Sender([], false, if o.buf == [] then o.said else o.said + [Output(o.buf)])
  }

  function Wrote(o: Sender, p: seq<Byte>): Sender {
    var o' := o.(buf := o.buf + p, armed := true);
    if |o'.buf| >= COALESCE_MAX then Flushed(o') else o'
  }

  class ExecOutputSender {
    const out: Stream<Message>
    var buf: seq<Byte>
    var armed: bool    // a flush is scheduled

    function State(): Sender
      reads this, out
    {
      Sender(buf, armed, out.attempts)
    }

    constructor (out: Stream<Message>)
      ensures this.out == out && State() == Sender([], false, out.attempts)
    {
      this.out := out;
      buf, armed := [], false;
    }

    method Write(p: seq<Byte>, inTime: bool) returns (n: nat, ok: bool)
      modifies this, out
      ensures ok <==> |p| <= 64 * 1024 && inTime
      ensures n == if ok then |p| else 0
      ensures State() == if ok then Wrote(old(State()), p) else old(State())
    {
      if |p| > RATE_BURST || !inTime {
        return 0, false;
      }
      buf := buf + p;
      if !armed {
        armed := true;
      }
      if |buf| >= COALESCE_MAX {
        FlushLocked();
      }
      return |p|, true;
    }

    method Flush()
      modifies this, out
      ensures State() == Flushed(old(State()))
      ensures !armed && buf == []
      ensures out.attempts == old(out.attempts) + (if old(buf) == [] then [] else [Output(old(buf))])
    {
      FlushLocked();
    }

    method FlushLocked()
      modifies this, out
      ensures State() == Flushed(old(State()))
      ensures !armed && buf == []
      ensures out.attempts == old(out.attempts) + (if old(buf) == [] then [] else [Output(old(buf))])
    {
      if armed {
        armed := false;
      }
      if |buf| == 0 {
        return;
      }
      var data := buf;
      buf := [];
      var _ := out.Send(Output(data));
    }
  }

  /** Something to send means a flush is scheduled; what waits is small, and so
      is every message. */
  ghost predicate Tidy(o: Sender) {
    && (o.buf != [] ==> o.armed)
    && |o.buf| < COALESCE_MAX
    && Small(o.said)
  }

  ghost predicate Small(ms: seq<Message>) {
    forall i | 0 <= i < |ms| && ms[i].Output? :: 0 < |ms[i].data| < COALESCE_MAX + RATE_BURST
  }

  lemma FlushKeeps(o: Sender)
    requires Tidy(o) || (|o.buf| < COALESCE_MAX + RATE_BURST && Tidy(o.(buf := [])))
    ensures Tidy(Flushed(o)) && Flushed(o).buf == []
    ensures Text(Flushed(o).said) == Text(o.said) + o.buf
  {
    if o.buf != [] {
      assert (o.said + [Output(o.buf)])[..|o.said|] == o.said;
    }
  }

  /** No byte of an admitted write is lost, repeated or overtaken. */
  lemma WriteKeeps(o: Sender, p: seq<Byte>)
    requires Tidy(o) && |p| <= RATE_BURST
    ensures Tidy(Wrote(o, p))
    ensures Text(Wrote(o, p).said) + Wrote(o, p).buf == Text(o.said) + o.buf + p
  {
    var o' := o.(buf := o.buf + p, armed := true);
    assert Text(o.said) + (o.buf + p) == Text(o.said) + o.buf + p;
    if |o'.buf| >= COALESCE_MAX {
      FlushKeeps(o');
      assert Text(Wrote(o, p).said) + [] == Text(Wrote(o, p).said);
    }
  }

  // ---------------------------------------------------------------------
  // A session: the handler's steps among writes and timers
  // ---------------------------------------------------------------------

  /** Where handleExecStart is: attached, past ExecAttach, past its own flush,
      past sending ExecEnd, past the deferred flush. */
  datatype Phase = Attached | Returned | AfterFlush | Ended | Closed

  datatype Session = Session(phase: Phase, outcome: Outcome, sender: Sender, accepted: seq<Byte>)

  /** The executor opens, writes and returns; timers flush, possibly after they
      were stopped; the handler takes its next step. */
  datatype Event =
    | Opens
    | Writes(p: seq<Byte>, inTime: bool)
    | TimerFires
    | AttachReturns(outcome: Outcome)
    | HandlerFlushes
    | HandlerEnds
    | DeferredFlush

  predicate Enabled(s: Session, e: Event) {
    match e
    case Opens => s.phase == Attached
    case Writes(_, _) => true
    case TimerFires => true
    case AttachReturns(_) => s.phase == Attached
    case HandlerFlushes => s.phase == Returned
    case HandlerEnds => s.phase == AfterFlush
    case DeferredFlush => s.phase == Ended
  }

  function Step(s: Session, e: Event): Session
    requires Enabled(s, e)
  {
    match e
    case Opens => s.(sender := s.sender.(said := s.sender.said + [ExecOpen]))
    case Writes(p, inTime) =>
      if Admits(p, inTime) then s.(sender := Wrote(s.sender, p), accepted := s.accepted + p) else s
    case TimerFires => s.(sender := Flushed(s.sender))
    case AttachReturns(outcome) => s.(phase := Returned, outcome := outcome)
    case HandlerFlushes => s.(phase := AfterFlush, sender := Flushed(s.sender))
    case HandlerEnds => s.(phase := Ended, sender := s.sender.(said := s.sender.said + [ExecEnd(s.outcome)]))
    case DeferredFlush => s.(phase := Closed, sender := Flushed(s.sender))
  }

  predicate Possible(s: Session, es: seq<Event>)
    decreases es
  {
    es == [] || (Enabled(s, es[0]) && Possible(Step(s, es[0]), es[1..]))
  }

  function After(s: Session, es: seq<Event>): Session
    requires Possible(s, es)
    decreases es
  {
    if es == [] then s else After(Step(s, es[0]), es[1..])
  }

  const STARTED := Session(Attached, Failed, Sender([], false, []), [])

  predicate HasEnded(s: Session) {
    s.phase == Ended || s.phase == Closed
  }

  /** The outcomes of the ExecEnd messages. */
  function Endings(ms: seq<Message>): seq<Outcome> {
    if ms == [] then []
    else Endings(ms[..|ms| - 1]) + (if ms[|ms| - 1].ExecEnd? then [ms[|ms| - 1].outcome] else [])
  }

  /** The messages carry the admitted writes, in order and whole, but for what
      the buffer still holds; and there is one ExecEnd once there should be. */
  ghost predicate Kept(s: Session) {
    && Tidy(s.sender)
    && Text(s.sender.said) + s.sender.buf == s.accepted
    && Endings(s.sender.said) == if HasEnded(s) then [s.outcome] else []
  }

  lemma Said(ms: seq<Message>, m: Message)
    ensures Text(ms + [m]) == Text(ms) + (if m.Output? then m.data else [])
    ensures Endings(ms + [m]) == Endings(ms) + (if m.ExecEnd? then [m.outcome] else [])
  {
    assert (ms + [m])[..|ms|] == ms;
  }

  lemma FlushKeepsSession(s: Session)
    requires Kept(s)
    ensures Kept(s.(sender := Flushed(s.sender)))
  {
    FlushKeeps(s.sender);
    Said(s.sender.said, Output(s.sender.buf));
    assert Text(s.sender.said) + s.sender.buf + [] == s.accepted;
  }

  lemma WriteKeepsSession(s: Session, p: seq<Byte>)
    requires Kept(s) && |p| <= RATE_BURST
    ensures Kept(s.(sender := Wrote(s.sender, p), accepted := s.accepted + p))
  {
    WriteKeeps(s.sender, p);
    Said(s.sender.said, Output(s.sender.buf + p));
  }

  lemma SmallAfter(ms: seq<Message>, m: Message)
    requires Small(ms) && !m.Output?
    ensures Small(ms + [m])
  {
  }

  lemma OpenKeepsSession(s: Session)
    requires Kept(s)
    ensures Kept(s.(sender := s.sender.(said := s.sender.said + [ExecOpen])))
  {
    Said(s.sender.said, ExecOpen);
    SmallAfter(s.sender.said, ExecOpen);
  }

  lemma EndKeepsSession(s: Session)
    requires Kept(s) && !HasEnded(s)
    ensures Kept(s.(phase := Ended, sender := s.sender.(said := s.sender.said + [ExecEnd(s.outcome)])))
  {
    Said(s.sender.said, ExecEnd(s.outcome));
    SmallAfter(s.sender.said, ExecEnd(s.outcome));
  }

  lemma StepKeeps(s: Session, e: Event)
    requires Kept(s) && Enabled(s, e)
    ensures Kept(Step(s, e))
  {
    match e
    case Opens => OpenKeepsSession(s);
    case Writes(p, inTime) =>
      if Admits(p, inTime) {
        WriteKeepsSession(s, p);
      }
    case HandlerEnds => EndKeepsSession(s);
    case AttachReturns(_) =>
    case _ => FlushKeepsSession(s);
  }

  /** In every run, at every point: nothing accepted is lost, repeated or
      reordered, a flush is scheduled whenever something waits, and the size of
      every message is bounded. */
  lemma {:induction false} RunsKeep(s: Session, es: seq<Event>)
    requires Kept(s) && Possible(s, es)
    ensures Kept(After(s, es))
    decreases es
  {
    if es != [] {
      StepKeeps(s, es[0]);
      RunsKeep(Step(s, es[0]), es[1..]);
    }
  }

  /** The bytes of the admitted writes among es. */
  function Admitted(es: seq<Event>): seq<Byte> {
    if es == [] then []
    else (if es[0].Writes? && Admits(es[0].p, es[0].inTime) then es[0].p else []) + Admitted(es[1..])
  }

  lemma {:induction false} AcceptedAre(s: Session, es: seq<Event>)
    requires Possible(s, es)
    ensures After(s, es).accepted == s.accepted + Admitted(es)
    decreases es
  {
    if es != [] {
      AcceptedAre(Step(s, es[0]), es[1..]);
      if es[0].Writes? && Admits(es[0].p, es[0].inTime) {
        assert s.accepted + es[0].p + Admitted(es[1..]) == s.accepted + (es[0].p + Admitted(es[1..]));
      }
    }
  }

  /** For every interleaving of writes, timers and the handler's steps: the
      messages followed by the buffer are the admitted writes in order. */
  lemma OutputIsConserved(es: seq<Event>)
    requires Possible(STARTED, es)
    ensures var o := After(STARTED, es).sender;
            && Text(o.said) + o.buf == Admitted(es)
            && (o.buf != [] ==> o.armed) && |o.buf| < 32 * 1024
            && forall i | 0 <= i < |o.said| && o.said[i].Output? :: 0 < |o.said[i].data| < 96 * 1024
  {
    RunsKeep(STARTED, es);
    AcceptedAre(STARTED, es);
    assert Admitted(es) == [] + Admitted(es);
    assert Small(After(STARTED, es).sender.said);
  }

  lemma {:induction false} TextConcat(a: seq<Message>, b: seq<Message>)
    ensures Text(a + b) == Text(a) + Text(b)
    decreases b
  {
    if b == [] {
      assert a + b == a;
    } else {
      assert (a + b)[..|a + b| - 1] == a + b[..|b| - 1];
      TextConcat(a, b[..|b| - 1]);
    }
  }

  lemma {:induction false} NoTextNoOutput(ms: seq<Message>)
    requires forall i | 0 <= i < |ms| && ms[i].Output? :: ms[i].data != []
    ensures Text(ms) == [] <==> forall i | 0 <= i < |ms| :: !ms[i].Output?
    decreases ms
  {
    if ms != [] {
      NoTextNoOutput(ms[..|ms| - 1]);
    }
  }

  /** The i-th message is the one ExecEnd. */
  ghost predicate EndAt(ms: seq<Message>, i: int) {
    && 0 <= i < |ms| && ms[i].ExecEnd?
    && forall j | 0 <= j < |ms| && j != i :: !ms[j].ExecEnd?
  }

  lemma {:induction false} OneEnding(ms: seq<Message>) returns (i: int)
    ensures |Endings(ms)| == 0 ==> forall j | 0 <= j < |ms| :: !ms[j].ExecEnd?
    ensures |Endings(ms)| == 1 ==> EndAt(ms, i) && ms[i].outcome == Endings(ms)[0]
    decreases ms
  {
    i := 0;
    if ms != [] {
      i := OneEnding(ms[..|ms| - 1]);
      if ms[|ms| - 1].ExecEnd? {
        i := |ms| - 1;
      }
    }
  }

  /** By the schedule alone: the admitted bytes that no flush - by a timer, by
      the handler, or of a full buffer - has sent when the handler ends. */
  function Late(waiting: seq<Byte>, ended: bool, es: seq<Event>): seq<Byte>
    decreases es
  {
    if es == [] then waiting
    else match es[0]
      case Writes(p, inTime) =>
        if !Admits(p, inTime) then Late(waiting, ended, es[1..])
        else if !ended && |waiting + p| >= COALESCE_MAX then Late([], ended, es[1..])
        else Late(waiting + p, ended, es[1..])
      case HandlerEnds => Late(waiting, true, es[1..])
      case TimerFires => Late(if ended then waiting else [], ended, es[1..])
      case HandlerFlushes => Late(if ended then waiting else [], ended, es[1..])
      case _ => Late(waiting, ended, es[1..])
  }

  lemma {:induction false} LateAfterEnd(waiting: seq<Byte>, es: seq<Event>)
    ensures Late(waiting, true, es) == waiting + Admitted(es)
    decreases es
  {
    if es != [] {
      var p := if es[0].Writes? && Admits(es[0].p, es[0].inTime) then es[0].p else [];
      LateAfterEnd(waiting + p, es[1..]);
      assert waiting + p + Admitted(es[1..]) == waiting + (p + Admitted(es[1..]));
      assert waiting + [] == waiting;
    }
  }

  lemma {:induction false} SaidGrows(s: Session, es: seq<Event>)
    requires Possible(s, es)
    ensures s.sender.said <= After(s, es).sender.said
    decreases es
  {
    if es != [] {
      SaidGrows(Step(s, es[0]), es[1..]);
    }
  }

  /** The n-th message is an ExecEnd, and what was said before it lacks late. */
  predicate SplitAt(t: Session, n: nat, late: seq<Byte>) {
    n < |t.sender.said| && t.sender.said[n].ExecEnd? && Text(t.sender.said[..n]) + late == t.accepted
  }

  /** The handler ends: what is said stands, and what waits, or comes later, is
      late. */
  lemma SaidAtEnd(s: Session, es: seq<Event>)
    requires Kept(s) && Possible(s, es) && es != [] && es[0].HandlerEnds?
    ensures SplitAt(After(s, es), |s.sender.said|, Late(s.sender.buf, false, es))
  {
    var s', rest := Step(s, es[0]), es[1..];
    SaidGrows(s', rest);
    LateAfterEnd(s.sender.buf, rest);
    AcceptedAre(s', rest);
    Beginning(After(s', rest).sender.said, s.sender.said, ExecEnd(s.outcome));
    Joined(Text(s.sender.said), s.sender.buf, Admitted(rest));
  }

  lemma Beginning(all: seq<Message>, before: seq<Message>, m: Message)
    requires before + [m] <= all
    ensures |before| < |all| && all[|before|] == m && all[..|before|] == before
  {
    assert (before + [m])[|before|] == m;
  }

  lemma Joined(a: seq<Byte>, b: seq<Byte>, c: seq<Byte>)
    ensures a + (b + c) == a + b + c
  {
  }

  /** What is said by the time the handler ends, and what comes late. */
  lemma {:induction false} SaidBeforeEnd(s: Session, es: seq<Event>) returns (n: nat)
    requires Kept(s) && !HasEnded(s) && Possible(s, es) && HasEnded(After(s, es))
    ensures SplitAt(After(s, es), n, Late(s.sender.buf, false, es))
    decreases es
  {
    assert es != [];
    var e, rest := es[0], es[1..];
    if e.HandlerEnds? {
      n := |s.sender.said|;
      SaidAtEnd(s, es);
    } else {
      var s' := NextStep(s, e);
      assert After(s, es) == After(s', rest);
      n := SaidBeforeEnd(s', rest);
      LateStep(s, es);
    }
  }

  lemma NextStep(s: Session, e: Event) returns (s': Session)
    requires Kept(s) && !HasEnded(s) && Enabled(s, e) && !e.HandlerEnds?
    ensures s' == Step(s, e) && Kept(s') && !HasEnded(s')
  {
    s' := Step(s, e);
    StepKeeps(s, e);
  }

  lemma LateStep(s: Session, es: seq<Event>)
    requires es != [] && Enabled(s, es[0]) && !HasEnded(s) && !es[0].HandlerEnds?
    ensures Late(s.sender.buf, false, es) == Late(Step(s, es[0]).sender.buf, false, es[1..])
  {
  }

  /** What was said before the one ExecEnd, followed by what the schedule makes
      late, is the admitted output. So all of it precedes ExecEnd exactly when
      nothing is late - in other words, when nothing waits at the end of the
      run and no output follows ExecEnd. */
  lemma OutputPrecedesEndIff(es: seq<Event>) returns (i: int)
    requires Possible(STARTED, es) && HasEnded(After(STARTED, es))
    ensures var s := After(STARTED, es);
            && EndAt(s.sender.said, i) && s.sender.said[i].outcome == s.outcome
            && Text(s.sender.said[..i]) + Late([], false, es) == Admitted(es)
            && (Text(s.sender.said[..i]) == Admitted(es) <==> Late([], false, es) == [])
            && (Late([], false, es) == [] <==>
                s.sender.buf == [] && forall j | i < j < |s.sender.said| :: !s.sender.said[j].Output?)
  {
    RunsKeep(STARTED, es);
    AcceptedAre(STARTED, es);
    var s := After(STARTED, es);
    i := OneEnding(s.sender.said);
    SplitText(s.sender, i);
    var n := SaidBeforeEnd(STARTED, es);
    assert n == i;
    assert [] + Admitted(es) == Admitted(es);
  }

  lemma SplitText(o: Sender, i: int)
    requires Tidy(o) && 0 <= i < |o.said| && !o.said[i].Output?
    ensures Text(o.said[..i]) <= Text(o.said) + o.buf
    ensures Text(o.said[..i]) == Text(o.said) + o.buf <==>
            o.buf == [] && forall j | i < j < |o.said| :: !o.said[j].Output?
  {
    var before, after := o.said[..i], o.said[i..];
    assert o.said == before + after;
    TextConcat(before, after);
    NoTextNoOutput(after);
    assert Text(before) + Text(after) + o.buf == Text(before) + (Text(after) + o.buf);
    assert forall j | i < j < |o.said| :: o.said[j] == after[j - i];
    assert forall j | 0 <= j < |after| :: after[j] == o.said[j + i];
  }

  /** No write is admitted once the handler has made its own flush - let alone
      once ExecAttach has returned. */
  predicate QuietAfterFlush(s: Session, es: seq<Event>)
    requires Possible(s, es)
    decreases es
  {
    es == [] ||
    ((es[0].Writes? && s.phase !in {Attached, Returned} ==> !Admits(es[0].p, es[0].inTime) || es[0].p == []) &&
     QuietAfterFlush(Step(s, es[0]), es[1..]))
  }

  /** From the handler's flush on, nothing waits, and ExecEnd ends it all. */
  ghost predicate AllSaid(s: Session) {
    && (s.phase in {AfterFlush, Ended, Closed} ==> s.sender.buf == [])
    && (HasEnded(s) <==> s.sender.said != [] && s.sender.said[|s.sender.said| - 1].ExecEnd?)
  }

  lemma QuietStep(s: Session, e: Event)
    requires Enabled(s, e) && AllSaid(s)
    requires e.Writes? && s.phase !in {Attached, Returned} ==> !Admits(e.p, e.inTime) || e.p == []
    ensures AllSaid(Step(s, e))
  {
    if e.Writes? && s.phase in {AfterFlush, Ended, Closed} && Admits(e.p, e.inTime) {
      assert Wrote(s.sender, e.p) == s.sender.(armed := true);
    }
  }

  lemma {:induction false} QuietRuns(s: Session, es: seq<Event>)
    requires Possible(s, es) && QuietAfterFlush(s, es) && AllSaid(s)
    ensures AllSaid(After(s, es))
    decreases es
  {
    if es != [] {
      QuietStep(s, es[0]);
      QuietRuns(Step(s, es[0]), es[1..]);
    }
  }

  /** If nothing is written after the handler's flush, the session's last word is
      ExecEnd, with ExecAttach's outcome, after every byte that was admitted. */
  lemma EndComesLast(es: seq<Event>)
    requires Possible(STARTED, es) && QuietAfterFlush(STARTED, es)
    requires HasEnded(After(STARTED, es))
    ensures var s := After(STARTED, es);
            var n := |s.sender.said| - 1;
            && EndAt(s.sender.said, n) && s.sender.said[n].outcome == s.outcome
            && Text(s.sender.said[..n]) == s.accepted
  {
    QuietRuns(STARTED, es);
    RunsKeep(STARTED, es);
    var s := After(STARTED, es);
    var i := OneEnding(s.sender.said);
    assert i == |s.sender.said| - 1;
    assert Text(s.sender.said) + [] == Text(s.sender.said);
  }

  lemma NextEvent(s: Session, e: Event, rest: seq<Event>)
    requires Enabled(s, e) && Possible(Step(s, e), rest)
    ensures Possible(s, [e] + rest) && After(s, [e] + rest) == After(Step(s, e), rest)
    ensures !e.Writes? || s.phase in {Attached, Returned} ==>
            (QuietAfterFlush(s, [e] + rest) <==> QuietAfterFlush(Step(s, e), rest))
  {
    assert ([e] + rest)[1..] == rest;
  }

  /** An ordinary session, with one write that fits: opened, the output, the
      end. */
  lemma OrdinarySession(p: seq<Byte>, outcome: Outcome) returns (es: seq<Event>)
    requires 0 < |p| < 32 * 1024
    ensures es == [Opens, Writes(p, true), AttachReturns(outcome), HandlerFlushes, HandlerEnds, DeferredFlush]
    ensures Possible(STARTED, es) && After(STARTED, es).sender.said == [ExecOpen, Output(p), ExecEnd(outcome)]
    ensures QuietAfterFlush(STARTED, es)
  {
    var s1 := Step(STARTED, Opens);
    var s2 := Step(s1, Writes(p, true));
    var s3 := Step(s2, AttachReturns(outcome));
    var s4 := Step(s3, HandlerFlushes);
    var s5 := Step(s4, HandlerEnds);
    assert [] + p == p;
    assert s5.sender.said == [ExecOpen, Output(p), ExecEnd(outcome)];
    es := [DeferredFlush] + [];
    NextEvent(s5, DeferredFlush, []);
    NextEvent(s4, HandlerEnds, es);
    es := [HandlerEnds] + es;
    NextEvent(s3, HandlerFlushes, es);
    es := [HandlerFlushes] + es;
    NextEvent(s2, AttachReturns(outcome), es);
    es := [AttachReturns(outcome)] + es;
    NextEvent(s1, Writes(p, true), es);
    es := [Writes(p, true)] + es;
    NextEvent(STARTED, Opens, es);
    es := [Opens] + es;
  }
}
