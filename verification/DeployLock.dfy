/** The lock around one Teepin Build session's deploys
    (pkg/api/build_handlers.go, pkg/teepinbuild/session.go). Times are in
    milliseconds of one clock. */
module DeployLock {
  import opened Options

  const FLOW_TIMEOUT := 18 * 60 * 1000
  const STALE_AFTER := FLOW_TIMEOUT + 2 * 60 * 1000

  // ---------------------------------------------------------------------
  // The session row and one flow
  // ---------------------------------------------------------------------

  /** A lock is free if it is not held, or was taken too long ago. */
  predicate Free(lock: Option<int>, now: int, staleAfter: int) {
    lock.None? || lock.value < now - staleAfter
  }

  /** How the steps of one flow turn out. */
  datatype Course = Course(
    found: bool, approved: bool, lockable: bool, covered: bool, builds: bool, portsValid: bool, anyPort: bool,
    swaps: bool, creates: bool, readable: bool, records: bool, releases: bool)

  datatype Answer =
    | NotFound | NotApproved | Broken | InProgress
    | NotCovered | BuildFailed | InvalidRequest | NoPort | CreateFailed | Unreadable | SwapFailed
    | Swapped | Deployed

  /** The flow gets as far as asking for the lock. */
  predicate Asks(c: Course) {
    c.found && c.approved && c.lockable
  }

  class Session {
    var lock: Option<int>    // deploy_lock_acquired_at
    var hasApp: bool         // an app instance id is recorded
    var instances: nat       // app instances created for the session

    method AcquireDeployLock(now: int, staleAfter: int) returns (acquired: bool)
      modifies `lock
      ensures acquired <==> old(lock).None? || old(lock).value < now - staleAfter
      ensures lock == if acquired then Some(now) else old(lock)
    {
      acquired := lock.None? || lock.value < now - staleAfter;
      if acquired {
        lock := Some(now);
      }
    }

    method ReleaseDeployLock()
      modifies `lock
      ensures lock == None
    {
      lock := None;
    }

    /** One flow with no other in between: whatever it ran into, the lock is as
        it should be; an instance is created exactly by a first deploy that
        gets that far, and recorded if the record can be written. */
    method DeployBuildSession(now: int, c: Course) returns (answer: Answer)
      modifies this
      ensures answer == NotFound <==> !c.found
      ensures answer == NotApproved <==> c.found && !c.approved
      ensures answer == Broken <==> c.found && c.approved && !c.lockable
      ensures answer == InProgress <==> Asks(c) && old(lock).Some? && old(lock).value >= now - STALE_AFTER
      ensures var locked := Asks(c) && answer != InProgress;
              var built := locked && c.covered && c.builds && c.portsValid;
              var made := built && !old(hasApp) && c.anyPort && c.creates;
              && lock == (if !locked then old(lock) else if c.releases then None else Some(now))
              && (answer == NotCovered <==> locked && !c.covered)
              && (answer == BuildFailed <==> locked && c.covered && !c.builds)
              && (answer == InvalidRequest <==> locked && c.covered && c.builds && !c.portsValid)
              && (answer == Swapped <==> built && old(hasApp) && c.swaps)
              && (answer == SwapFailed <==> built && old(hasApp) && !c.swaps)
              && (answer == NoPort <==> built && !old(hasApp) && !c.anyPort)
              && (answer == CreateFailed <==> built && !old(hasApp) && c.anyPort && !c.creates)
              && (answer == Unreadable <==> made && !c.readable)
              && (answer == Deployed <==> made && c.readable)
              && instances == old(instances) + (if made then 1 else 0)
              && (hasApp <==> old(hasApp) || (answer == Deployed && c.records))
    {
      if !c.found {
        return NotFound;
      }
      if !c.approved {
        return NotApproved;
      }
      if !c.lockable {
        return Broken;
      }
      var acquired := AcquireDeployLock(now, STALE_AFTER);
      if !acquired {
        return InProgress;
      }
      answer := DeployLocked(c);
      if c.releases {
        ReleaseDeployLock();
      }
    }

    /** The part of a flow that holds the lock. */
    method DeployLocked(c: Course) returns (answer: Answer)
      modifies `hasApp, `instances
      ensures answer !in {NotFound, NotApproved, Broken, InProgress}
      ensures var built := c.covered && c.builds && c.portsValid;
              var made := built && !old(hasApp) && c.anyPort && c.creates;
              && (answer == NotCovered <==> !c.covered)
              && (answer == BuildFailed <==> c.covered && !c.builds)
              && (answer == InvalidRequest <==> c.covered && c.builds && !c.portsValid)
              && (answer == Swapped <==> built && old(hasApp) && c.swaps)
              && (answer == SwapFailed <==> built && old(hasApp) && !c.swaps)
              && (answer == NoPort <==> built && !old(hasApp) && !c.anyPort)
              && (answer == CreateFailed <==> built && !old(hasApp) && c.anyPort && !c.creates)
              && (answer == Unreadable <==> made && !c.readable)
              && (answer == Deployed <==> made && c.readable)
              && instances == old(instances) + (if made then 1 else 0)
              && (hasApp <==> old(hasApp) || (answer == Deployed && c.records))
    {
      if !c.covered {
        return NotCovered;
      }
      if !c.builds {
        return BuildFailed;
      }
      if !c.portsValid {
        return InvalidRequest;
      }
      if hasApp {
        return if c.swaps then Swapped else SwapFailed;
      }
      if !c.anyPort {
        return NoPort;
      }
      if !c.creates {
        return CreateFailed;
      }
      instances := instances + 1;
      if !c.readable {
        return Unreadable;
      }
      if c.records {
        hasApp := true;
      }
      return Deployed;
    }
  }

  // ---------------------------------------------------------------------
  // Flows that overlap
  // ---------------------------------------------------------------------

  type Id = nat

  datatype Phase = Begun | Reading | Holding | Done

  /** One flow: when its context started, whether it saw an app instance,
      whether that was still so when it took the lock, whether it has created
      one, and when it took the lock. */
  datatype Flow = Flow(phase: Phase, started: int, sawApp: bool, current: bool, created: bool, acquiredAt: int)

  datatype State = State(now: int, lock: Option<int>, hasApp: bool, instances: nat, flows: map<Id, Flow>)

  /** flowTimeout and staleAfter are parameters here: the results say for which
      of them the lock is one. */
  datatype Timing = Timing(flowTimeout: nat, staleAfter: nat)

  datatype Event =
    | Begin(id: Id)
    | ReadSession(id: Id)
    | Acquire(id: Id)
    | Create(id: Id, recorded: bool)
    | Release(id: Id)
    | Dies(id: Id)
    | Passes(time: nat)

  predicate In(s: State, id: Id, phase: Phase) {
    id in s.flows && s.flows[id].phase == phase
  }

  /** A flow ends, or dies with its process, before its context does. */
  predicate InTime(t: Timing, s: State, now: int) {
    forall id | id in s.flows && s.flows[id].phase != Done :: now <= s.flows[id].started + t.flowTimeout
  }

  predicate Enabled(t: Timing, s: State, e: Event) {
    match e
    case Begin(id) => id !in s.flows
    case ReadSession(id) => In(s, id, Begun)
    case Acquire(id) => In(s, id, Reading)
    case Create(id, _) => In(s, id, Holding) && !s.flows[id].sawApp && !s.flows[id].created
    case Release(id) => In(s, id, Holding)
    case Dies(id) => id in s.flows
    case Passes(time) => InTime(t, s, s.now + time)
  }

  function Step(t: Timing, s: State, e: Event): State
    requires Enabled(t, s, e)
  {
    match e
    case Begin(id) => s.(flows := s.flows[id := Flow(Begun, s.now, false, false, false, s.now)])
    case ReadSession(id) => s.(flows := s.flows[id := s.flows[id].(phase := Reading, sawApp := s.hasApp)])
    case Acquire(id) =>
      var f := s.flows[id];
      if Free(s.lock, s.now, t.staleAfter) then
        s.(lock := Some(s.now),
           flows := s.flows[id := f.(phase := Holding, acquiredAt := s.now, current := f.sawApp == s.hasApp)])
      else s.(flows := s.flows[id := f.(phase := Done)])
    case Create(id, recorded) =>
      s.(instances := s.instances + 1, hasApp := s.hasApp || recorded,
         flows := s.flows[id := s.flows[id].(created := true)])
    case Release(id) => s.(lock := None, flows := s.flows[id := s.flows[id].(phase := Done)])
    case Dies(id) => s.(flows := s.flows[id := s.flows[id].(phase := Done)])
    case Passes(time) => s.(now := s.now + time)
  }

  predicate Possible(t: Timing, s: State, es: seq<Event>)
    decreases es
  {
    es == [] || (Enabled(t, s, es[0]) && Possible(t, Step(t, s, es[0]), es[1..]))
  }

  function After(t: Timing, s: State, es: seq<Event>): State
    requires Possible(t, s, es)
    decreases es
  {
    if es == [] then s else After(t, Step(t, s, es[0]), es[1..])
  }

  const FRESH := State(0, None, false, 0, map[])

  // ---------------------------------------------------------------------
  // Mutual exclusion
  // ---------------------------------------------------------------------

  /** No two flows are past the lock at once, and the lock a flow would release
      is its own. */
  ghost predicate Exclusive(s: State) {
    && (forall a, b | In(s, a, Holding) && In(s, b, Holding) :: a == b)
    && forall a | In(s, a, Holding) :: s.lock == Some(s.flows[a].acquiredAt)
  }

  ghost predicate Invariant(t: Timing, s: State) {
    && Exclusive(s)
    && InTime(t, s, s.now)
    && (forall a | In(s, a, Holding) :: s.flows[a].started <= s.flows[a].acquiredAt)
    && forall a | a in s.flows :: s.flows[a].started <= s.now
  }

  lemma StepKeepsInvariant(t: Timing, s: State, e: Event)
    requires t.flowTimeout <= t.staleAfter && Invariant(t, s) && Enabled(t, s, e)
    ensures Invariant(t, Step(t, s, e))
  {
    var s' := Step(t, s, e);
    forall a | In(s, a, Holding) ensures !Free(s.lock, s.now, t.staleAfter) {
      HolderIsInTime(t, s, a);
    }
    assert forall a | In(s', a, Holding) :: In(s, a, Holding) || (e.Acquire? && e.id == a);
  }

  /** While its flow can still run, a lock is not stale. */
  lemma HolderIsInTime(t: Timing, s: State, a: Id)
    requires t.flowTimeout <= t.staleAfter && Invariant(t, s) && In(s, a, Holding)
    ensures !Free(s.lock, s.now, t.staleAfter)
  {
  }

  lemma {:induction false} RunsKeepInvariant(t: Timing, s: State, es: seq<Event>)
    requires t.flowTimeout <= t.staleAfter && Invariant(t, s) && Possible(t, s, es)
    ensures Invariant(t, After(t, s, es))
    decreases es
  {
    if es != [] {
      StepKeepsInvariant(t, s, es[0]);
      RunsKeepInvariant(t, Step(t, s, es[0]), es[1..]);
    }
  }

  ghost predicate AlwaysExclusive(t: Timing) {
    forall es | Possible(t, FRESH, es) :: Exclusive(After(t, FRESH, es))
  }

  /** The lock excludes in every run exactly when it goes stale no sooner than
      the flows it guards must end. */
  lemma ExclusiveIff(t: Timing)
    ensures AlwaysExclusive(t) <==> t.flowTimeout <= t.staleAfter
  {
    if t.flowTimeout <= t.staleAfter {
      forall es | Possible(t, FRESH, es) ensures Exclusive(After(t, FRESH, es)) {
        RunsKeepInvariant(t, FRESH, es);
      }
    } else {
      ReclaimedTooSoon(t);
    }
  }

  /** And with the constants in use it does. */
  lemma DeploysExclude()
    ensures AlwaysExclusive(Timing(FLOW_TIMEOUT, STALE_AFTER))
  {
    ExclusiveIff(Timing(FLOW_TIMEOUT, STALE_AFTER));
  }

  /** Every instance that is created is also recorded. */
  predicate AllRecorded(es: seq<Event>) {
    es == [] || ((es[0].Create? ==> es[0].recorded) && AllRecorded(es[1..]))
  }

  lemma First(t: Timing, s: State, e: Event, rest: seq<Event>)
    requires Enabled(t, s, e) && Possible(t, Step(t, s, e), rest)
    ensures Possible(t, s, [e] + rest) && After(t, s, [e] + rest) == After(t, Step(t, s, e), rest)
    ensures AllRecorded([e] + rest) <==> (e.Create? ==> e.recorded) && AllRecorded(rest)
  {
    assert ([e] + rest)[1..] == rest;
  }

  /** A flow that begins, reads and finds the lock free, all at one moment. */
  function Taken(s: State, id: Id): State {
    s.(lock := Some(s.now), flows := s.flows[id := Flow(Holding, s.now, s.hasApp, true, false, s.now)])
  }

  lemma FlowTakes(t: Timing, s: State, id: Id, rest: seq<Event>) returns (es: seq<Event>)
    requires id !in s.flows && Free(s.lock, s.now, t.staleAfter) && Possible(t, Taken(s, id), rest)
    ensures Possible(t, s, es) && After(t, s, es) == After(t, Taken(s, id), rest)
  {
    var s1 := Step(t, s, Begin(id));
    var s2 := Step(t, s1, ReadSession(id));
    assert Step(t, s2, Acquire(id)).flows == Taken(s, id).flows;
    First(t, s2, Acquire(id), rest);
    es := [Acquire(id)] + rest;
    First(t, s1, ReadSession(id), es);
    es := [ReadSession(id)] + es;
    First(t, s, Begin(id), es);
    es := [Begin(id)] + es;
  }

  /** A second flow takes the lock of a first that still runs. */
  lemma ReclaimedTooSoon(t: Timing)
    requires t.flowTimeout > t.staleAfter
    ensures !AlwaysExclusive(t)
  {
    var held := Taken(FRESH, 0);
    var late := Passes(t.staleAfter + 1);
    var stale := Step(t, held, late);
    var es := FlowTakes(t, stale, 1, []);
    First(t, held, late, es);
    es := FlowTakes(t, FRESH, 0, [late] + es);
    var end := Taken(stale, 1);
    assert In(end, 0, Holding) && In(end, 1, Holding);
  }

  // ---------------------------------------------------------------------
  // One app instance
  // ---------------------------------------------------------------------

  /** Every flow that creates an instance found its reading of the session still
      true when it took the lock. */
  predicate AllCurrent(t: Timing, s: State, es: seq<Event>)
    requires Possible(t, s, es)
    decreases es
  {
    es == [] || ((es[0].Create? ==> s.flows[es[0].id].current) && AllCurrent(t, Step(t, s, es[0]), es[1..]))
  }

  /** A flow that would create one: it saw no app, and there is one exactly if
      its reading was out of date. */
  ghost predicate Creating(s: State, id: Id) {
    In(s, id, Holding) && !s.flows[id].created && !s.flows[id].sawApp
  }

  ghost predicate Counted(s: State) {
    && (s.instances > 0 <==> s.hasApp)
    && (forall a | Creating(s, a) :: s.flows[a].current <==> !s.hasApp)
    && forall a | a in s.flows && s.flows[a].sawApp :: s.hasApp
  }

  lemma StepKeepsCount(t: Timing, s: State, e: Event)
    requires Exclusive(s) && Counted(s) && Enabled(t, s, e) && (e.Create? ==> e.recorded)
    ensures Counted(Step(t, s, e))
    ensures Step(t, s, e).instances >= s.instances
    ensures e.Create? ==> (s.flows[e.id].current <==> s.instances == 0)
  {
    var s' := Step(t, s, e);
    assert forall a | Creating(s', a) :: Creating(s, a) || (e.Acquire? && e.id == a);
    if e.Create? {
      assert Creating(s, e.id);
    }
  }

  lemma {:induction false} OneInstanceFrom(t: Timing, s: State, es: seq<Event>)
    requires t.flowTimeout <= t.staleAfter && Invariant(t, s) && Counted(s) && Possible(t, s, es) && AllRecorded(es)
    ensures After(t, s, es).instances >= s.instances
    ensures s.instances <= 1 ==> (After(t, s, es).instances <= 1 <==> AllCurrent(t, s, es))
    decreases es
  {
    if es != [] {
      StepKeepsInvariant(t, s, es[0]);
      StepKeepsCount(t, s, es[0]);
      OneInstanceFrom(t, Step(t, s, es[0]), es[1..]);
    }
  }

  /** A condition on the schedule alone. waiting: the flows that have read the
      session and not yet asked for the lock. overtaken: those of them, and of
      those that have asked since, during whose wait an instance was created.
      None of these creates another. */
  predicate Orderly(waiting: set<Id>, overtaken: set<Id>, es: seq<Event>)
    decreases es
  {
    es == [] ||
    ((es[0].Create? ==> es[0].id !in overtaken) &&
     Orderly(Waiting(waiting, es[0]), Overtaken(waiting, overtaken, es[0]), es[1..]))
  }

  /** The schedule's sets say what the flows know. */
  ghost predicate Linked(s: State, waiting: set<Id>, overtaken: set<Id>) {
    && (forall id :: id in waiting <==> In(s, id, Reading))
    && (forall id | id in overtaken :: id in s.flows && s.flows[id].phase != Begun)
    && (forall id | In(s, id, Reading) && !s.flows[id].sawApp :: id in overtaken <==> s.hasApp)
    && (forall id | Creating(s, id) :: id in overtaken <==> !s.flows[id].current)
  }

  /** What an event does to the schedule's sets. */
  function Waiting(waiting: set<Id>, e: Event): set<Id> {
    match e
    case ReadSession(id) => waiting + {id}
    case Acquire(id) => waiting - {id}
    case Dies(id) => waiting - {id}
    case _ => waiting
  }

  function Overtaken(waiting: set<Id>, overtaken: set<Id>, e: Event): set<Id> {
    if e.Create? then overtaken + waiting else overtaken
  }

  lemma CreateKeepsLink(t: Timing, s: State, waiting: set<Id>, overtaken: set<Id>, e: Event)
    requires Enabled(t, s, e) && e.Create? && e.recorded && Linked(s, waiting, overtaken)
    ensures Linked(Step(t, s, e), waiting, overtaken + waiting)
    ensures s.flows[e.id].current <==> e.id !in overtaken
  {
    assert Creating(s, e.id);
  }

  lemma StepKeepsLink(t: Timing, s: State, waiting: set<Id>, overtaken: set<Id>, e: Event)
    requires Enabled(t, s, e) && (e.Create? ==> e.recorded) && Linked(s, waiting, overtaken)
    ensures Linked(Step(t, s, e), Waiting(waiting, e), Overtaken(waiting, overtaken, e))
  {
    if e.Create? {
      CreateKeepsLink(t, s, waiting, overtaken, e);
    }
  }

  lemma {:induction false} CurrentIffOrderly(t: Timing, s: State, waiting: set<Id>, overtaken: set<Id>, es: seq<Event>)
    requires Possible(t, s, es) && AllRecorded(es) && Linked(s, waiting, overtaken)
    ensures AllCurrent(t, s, es) <==> Orderly(waiting, overtaken, es)
    decreases es
  {
    if es != [] {
      StepKeepsLink(t, s, waiting, overtaken, es[0]);
      if es[0].Create? {
        CreateKeepsLink(t, s, waiting, overtaken, es[0]);
      }
      CurrentIffOrderly(t, Step(t, s, es[0]), Waiting(waiting, es[0]), Overtaken(waiting, overtaken, es[0]), es[1..]);
    }
  }

  /** As long as instances are recorded, a session gets at most one exactly when
      no flow creates one that had one created between its reading of the
      session and its asking for the lock. */
  lemma OneInstanceIff(t: Timing, es: seq<Event>)
    requires t.flowTimeout <= t.staleAfter && Possible(t, FRESH, es) && AllRecorded(es)
    ensures After(t, FRESH, es).instances <= 1 <==> Orderly({}, {}, es)
  {
    OneInstanceFrom(t, FRESH, es);
    CurrentIffOrderly(t, FRESH, {}, {}, es);
  }

  /** Every flow reads the session when no other is about to create: whenever an
      instance is created, nobody is waiting with a reading. */
  predicate ReadsFollowWork(waiting: set<Id>, es: seq<Event>)
    decreases es
  {
    es == [] ||
    ((es[0].Create? ==> waiting == {}) && ReadsFollowWork(Waiting(waiting, es[0]), es[1..]))
  }

  lemma UnrollReads(waiting: set<Id>, e: Event, rest: seq<Event>)
    ensures ReadsFollowWork(waiting, [e] + rest) <==>
            (e.Create? ==> waiting == {}) && ReadsFollowWork(Waiting(waiting, e), rest)
  {
    assert ([e] + rest)[1..] == rest;
  }

  /** As when flows come one after another. */
  lemma OneAfterAnother(id: Id, recorded: bool, rest: seq<Event>) returns (es: seq<Event>)
    requires ReadsFollowWork({}, rest)
    ensures es == [Begin(id), ReadSession(id), Acquire(id), Create(id, recorded), Release(id)] + rest
    ensures ReadsFollowWork({}, es)
  {
    assert {id} - {id} == {} && {} + {id} == {id};
    UnrollReads({}, Release(id), rest);
    es := [Release(id)] + rest;
    UnrollReads({}, Create(id, recorded), es);
    es := [Create(id, recorded)] + es;
    UnrollReads({id}, Acquire(id), es);
    es := [Acquire(id)] + es;
    UnrollReads({}, ReadSession(id), es);
    es := [ReadSession(id)] + es;
    UnrollReads({}, Begin(id), es);
    es := [Begin(id)] + es;
  }

  lemma {:induction false} ReadsFollowWorkIsOrderly(waiting: set<Id>, es: seq<Event>)
    requires ReadsFollowWork(waiting, es)
    ensures Orderly(waiting, {}, es)
    decreases es
  {
    if es != [] {
      assert Overtaken(waiting, {}, es[0]) == {};
      ReadsFollowWorkIsOrderly(Waiting(waiting, es[0]), es[1..]);
    }
  }

  /** So at most one instance is created if each reading follows the previous
      flow's work - as it would if the session were read under the lock. */
  lemma ReadAfterReleaseSuffices(t: Timing, es: seq<Event>)
    requires t.flowTimeout <= t.staleAfter && Possible(t, FRESH, es) && AllRecorded(es) && ReadsFollowWork({}, es)
    ensures After(t, FRESH, es).instances <= 1
  {
    ReadsFollowWorkIsOrderly({}, es);
    OneInstanceIff(t, es);
  }

  /** Which does happen, since the session is read before the lock is taken: two
      deploys that both read first, then go one after the other. */
  lemma ReadBeforeLockCreatesTwo(t: Timing) returns (es: seq<Event>)
    ensures Possible(t, FRESH, es) && AllRecorded(es) && After(t, FRESH, es).instances == 2
  {
    var s1 := Step(t, FRESH, Begin(0));
    var s2 := Step(t, s1, Begin(1));
    var s3 := Step(t, s2, ReadSession(0));
    var s4 := Step(t, s3, ReadSession(1));
    es := TwoCreate(t, s4);
    First(t, s3, ReadSession(1), es);
    es := [ReadSession(1)] + es;
    First(t, s2, ReadSession(0), es);
    es := [ReadSession(0)] + es;
    First(t, s1, Begin(1), es);
    es := [Begin(1)] + es;
    First(t, FRESH, Begin(0), es);
    es := [Begin(0)] + es;
  }

  /** Two flows that both saw no app take the lock in turn. */
  lemma TwoCreate(t: Timing, s: State) returns (es: seq<Event>)
    requires s.lock.None? && s.instances == 0
    requires forall id | id in {0, 1} :: In(s, id, Reading) && !s.flows[id].sawApp && !s.flows[id].created
    ensures Possible(t, s, es) && AllRecorded(es) && After(t, s, es).instances == 2
  {
    var s1 := Step(t, s, Acquire(0));
    var s2 := Step(t, s1, Create(0, true));
    var s3 := Step(t, s2, Release(0));
    es := OneCreates(t, s3, 1);
    First(t, s2, Release(0), es);
    es := [Release(0)] + es;
    First(t, s1, Create(0, true), es);
    es := [Create(0, true)] + es;
    First(t, s, Acquire(0), es);
    es := [Acquire(0)] + es;
  }

  lemma OneCreates(t: Timing, s: State, id: Id) returns (es: seq<Event>)
    requires s.lock.None? && In(s, id, Reading) && !s.flows[id].sawApp && !s.flows[id].created
    ensures Possible(t, s, es) && AllRecorded(es) && After(t, s, es).instances == s.instances + 1
  {
    var s1 := Step(t, s, Acquire(id));
    First(t, s1, Create(id, true), []);
    es := [Create(id, true)] + [];
    First(t, s, Acquire(id), es);
    es := [Acquire(id)] + es;
  }
}
