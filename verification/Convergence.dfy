/** What a sweep repairs when it is left undisturbed, when the control plane's
    cache therefore comes to show the cluster, and when it does not. */
module Convergence {
  import opened Options
  import opened Protocol
  import opened Statuses
  import Sweeps = StatusSweep

  // ---------------------------------------------------------------------
  // One quiet sweep
  // ---------------------------------------------------------------------

  /** The steps of a sweep whose writes all succeed, with nothing else going
      on but the far end reading. */
  predicate Quiet(steps: seq<Step>) {
    forall i | 0 <= i < |steps| ::
      match steps[i]
      case ApplyOne(_, ok) => ok
      case ApplyGone(_, ok) => ok
      case Deliver(_) => true
      case _ => false
  }

  /** A sweep lists the cluster and takes statusMu. */
  function Begun(z: System): System
    requires z.sweep.Idle?
  {
    Do(Do(z, List(z.epoch)), ApplyStart(|z.listings|))
  }

  /** steps are such a sweep's, up to its end. */
  predicate Sweeping(z: System, steps: seq<Step>) {
    z.up && z.sweep.Idle? && Possible(Begun(z), steps) && Quiet(steps) && Enabled(After(Begun(z), steps), ApplyEnd)
  }

  function Swept(z: System, steps: seq<Step>): System
    requires Sweeping(z, steps)
  {
    Do(After(Begun(z), steps), ApplyEnd)
  }

  /** Where the sweep that began in state z stands, instance by instance. */
  ghost predicate Halfway(z: System, s: System, id: Id) {
    && s.sweep.Applying?
    && var untouched := Get(s.last, id) == Get(z.last, id) && Get(Drained(s), id) == Get(Drained(z), id);
    && if id in s.sweep.todo then untouched
       else if id in z.cluster then Get(s.last, id) == Some(z.cluster[id]) && (Agreed(s, id) <==> Healed(z, id))
       else if id in s.last then untouched
       else (Agreed(s, id) <==> Healed(z, id))
  }

  /** Whether a sweep of what the cluster holds now leaves id agreed: it was
      agreed, or the sweep has something to say about it. */
  ghost predicate Healed(z: System, id: Id) {
    Agreed(z, id) || Get(z.last, id) != Get(z.cluster, id)
  }

  ghost predicate Underway(z: System, s: System) {
    && s.sweep.Applying? && s.up && s.epoch == z.epoch == s.sweep.epoch
    && s.sweep.listed == z.cluster.Keys && s.cluster == z.cluster
    && "" !in Drained(s)
    && (forall id | id in s.sweep.todo :: id in z.cluster && s.sweep.todo[id] == z.cluster[id])
    && forall id :: Halfway(z, s, id)
  }

  lemma SweepStatus(z: System, s: System, last: map<Id, Key>, sweep: Sweep, r: Report)
    requires Underway(z, s)
    requires sweep.Applying? && sweep.epoch == s.sweep.epoch && sweep.listed == s.sweep.listed
    requires forall id | id != r.id :: Get(last, id) == Get(s.last, id) && (id in sweep.todo <==> id in s.sweep.todo)
    requires forall id | id in sweep.todo :: id in s.sweep.todo && sweep.todo[id] == s.sweep.todo[id]
    requires r.id !in sweep.todo
    requires if r.id in z.cluster then Get(last, r.id) == Some(r.key) == Some(z.cluster[r.id])
             else r.id !in last && r.key == GONE
    requires Get(z.last, r.id) != Get(z.cluster, r.id)
    ensures Underway(z, SendStatus(s.(last := last, sweep := sweep), sweep.epoch, r, true))
  {
    var s1 := s.(last := last, sweep := sweep);
    var t := SendStatus(s1, sweep.epoch, r, true);
    DrainedAfterSend(s, Status(r));
    assert t.wire == s.wire + [Status(r)] && t.view == s.view;
    forall id ensures Halfway(z, t, id) {
      assert Halfway(z, s, id);
      if id != r.id {
        HearElsewhere(Drained(s), Status(r), id);
        ElsewhereHalfway(z, s, t, id);
      } else {
        SaidHalfway(z, s, t, r);
      }
    }
  }

  lemma SaidHalfway(z: System, s: System, t: System, r: Report)
    requires t.sweep.Applying? && r.id !in t.sweep.todo && "" !in Drained(s)
    requires if r.id in z.cluster then Get(t.last, r.id) == Some(r.key) == Some(z.cluster[r.id])
             else r.id !in t.last && r.key == GONE
    requires Get(z.last, r.id) != Get(z.cluster, r.id)
    requires Drained(t) == Record(Drained(s), r)
    ensures Halfway(z, t, r.id)
  {
    RecordSettles(Drained(s), r);
    SettledMeans(Drained(t), r);
  }

  lemma ElsewhereHalfway(z: System, s: System, t: System, id: Id)
    requires Halfway(z, s, id) && t.sweep.Applying? && (id in t.sweep.todo <==> id in s.sweep.todo)
    requires Get(t.last, id) == Get(s.last, id) && Get(Drained(t), id) == Get(Drained(s), id)
    ensures Halfway(z, t, id)
  {
    AgreeLocal(s.last, Drained(s), t.last, Drained(t), id);
  }

  lemma SameUnderway(z: System, s: System, t: System)
    requires Underway(z, s) && t.sweep == s.sweep && t.up == s.up && t.epoch == s.epoch && t.cluster == s.cluster
    requires t.last == s.last && Drained(t) == Drained(s)
    ensures Underway(z, t)
  {
    forall id ensures Halfway(z, t, id) {
      assert Halfway(z, s, id);
    }
  }

  lemma SweepOne(z: System, s: System, id: Id)
    requires Underway(z, s) && id in s.sweep.todo
    ensures Underway(z, Do(s, ApplyOne(id, true)))
  {
    var t, key := Do(s, ApplyOne(id, true)), s.sweep.todo[id];
    var sweep := s.sweep.(todo := s.sweep.todo - {id});
    assert Halfway(z, s, id);
    if id in s.last && s.last[id] == key {
      assert Drained(t) == Drained(s);
      AgreeLocal(s.last, Drained(s), z.last, Drained(z), id);
      forall i ensures Halfway(z, t, i) {
        assert Halfway(z, s, i);
      }
    } else {
      SweepStatus(z, s, s.last[id := key], sweep, Report(id, key));
    }
  }

  lemma SweepGone(z: System, s: System, id: Id)
    requires Underway(z, s) && Enabled(s, ApplyGone(id, true))
    ensures Underway(z, Do(s, ApplyGone(id, true)))
  {
    assert Halfway(z, s, id);
    SweepStatus(z, s, s.last - {id}, s.sweep, Report(id, GONE));
  }

  lemma SweepStep(z: System, s: System, step: Step)
    requires Underway(z, s) && Enabled(s, step) && Quiet([step])
    ensures Underway(z, Do(s, step))
  {
    assert step == [step][0];
    match step
    case ApplyOne(id, _) => SweepOne(z, s, id);
    case ApplyGone(id, _) => SweepGone(z, s, id);
    case Deliver(waiting) => SameUnderway(z, s, Read(s, waiting));
  }

  lemma {:induction false} SweepSteps(z: System, s: System, steps: seq<Step>)
    requires Underway(z, s) && Possible(s, steps) && Quiet(steps)
    ensures Underway(z, After(s, steps))
    decreases steps
  {
    if steps != [] {
      assert Quiet([steps[0]]) && Quiet(steps[1..]) by {
        assert forall i | 0 <= i < |steps[1..]| :: steps[1..][i] == steps[i + 1];
      }
      SweepStep(z, s, steps[0]);
      SweepSteps(z, Do(s, steps[0]), steps[1..]);
    }
  }

  /** One undisturbed sweep makes lastReported the cluster itself, and brings
      the cache into agreement on exactly the ids that agreed before or that
      the sweep still had something to say about. The only ids it cannot
      repair are those whose remembered key is already the listed one. */
  lemma QuietSweepRepairs(z: System, steps: seq<Step>)
    requires Sweeping(z, steps) && "" !in Drained(z)
    ensures var t := Swept(z, steps);
            && t.last == t.cluster == z.cluster && t.sweep.Idle?
            && forall id :: Agreed(t, id) <==> Agreed(z, id) || Get(z.last, id) != Get(z.cluster, id)
  {
    var s := Begun(z);
    assert Drained(s) == Drained(z);
    forall id ensures Halfway(z, s, id) {
      AgreeLocal(s.last, Drained(s), z.last, Drained(z), id);
    }
    SweepSteps(z, s, steps);
    var u := After(s, steps);
    var t := Do(u, ApplyEnd);
    assert Drained(t) == Drained(u);
    forall id ensures Get(t.last, id) == Get(z.cluster, id) && (Agreed(t, id) <==> Healed(z, id)) {
      assert Halfway(z, u, id);
    }
    SameMap(t.last, z.cluster);
  }

  lemma SameMap(a: map<Id, Key>, b: map<Id, Key>)
    requires forall id :: Get(a, id) == Get(b, id)
    ensures a == b
  {
    forall id ensures (id in a <==> id in b) && (id in a ==> a[id] == b[id]) {
      assert Get(a, id) == Get(b, id);
    }
    assert a.Keys == b.Keys;
  }

  /** What is left to do in a sweep gets less. */
  lemma SweepMoves(s: System) returns (step: Step)
    requires s.sweep.Applying? && s.sweep.todo.Keys <= s.sweep.listed && !Enabled(s, ApplyEnd)
    ensures (step.ApplyOne? || step.ApplyGone?) && Quiet([step]) && Enabled(s, step)
    ensures var t := Do(s, step);
            && t.sweep.Applying? && t.sweep.listed == s.sweep.listed && t.sweep.todo.Keys <= t.sweep.listed
            && (t.sweep.todo.Keys < s.sweep.todo.Keys ||
                (t.sweep.todo.Keys == s.sweep.todo.Keys && t.last.Keys - t.sweep.listed < s.last.Keys - s.sweep.listed))
  {
    if s.sweep.todo != map[] {
      var id :| id in s.sweep.todo;
      step := ApplyOne(id, true);
      assert Do(s, step).sweep.todo.Keys == s.sweep.todo.Keys - {id};
    } else {
      var id :| id in s.last && id !in s.sweep.listed;
      step := ApplyGone(id, true);
      assert Do(s, step).last.Keys - s.sweep.listed == s.last.Keys - s.sweep.listed - {id};
    }
  }

  /** A quiet sweep can always be carried through. */
  lemma {:induction false} SweepCanFinish(s: System) returns (steps: seq<Step>)
    requires s.sweep.Applying? && s.sweep.todo.Keys <= s.sweep.listed
    ensures Possible(s, steps) && Quiet(steps) && Enabled(After(s, steps), ApplyEnd)
    decreases s.sweep.todo.Keys, s.last.Keys - s.sweep.listed
  {
    if Enabled(s, ApplyEnd) {
      steps := [];
    } else {
      var step := SweepMoves(s);
      var rest := SweepCanFinish(Do(s, step));
      steps := [step] + rest;
      assert steps[1..] == rest;
      assert [step][0] == step;
    }
  }

  /** The cache shows what the cluster holds of id: nothing alive where there is
      nothing; and otherwise the status, unless it was recorded as terminated
      before, and the endpoint, as far as one is known. */
  predicate Shows(view: View, cluster: map<Id, Key>, id: Id) {
    if id !in cluster then Gone(view, id)
    else
      && id in view
      && (view[id].status == cluster[id].status || view[id].status == TERMINATED)
      && (view[id].status == cluster[id].status && cluster[id].endpoint != NO_ENDPOINT ==> view[id] == cluster[id])
  }

  /** What agreement means to a reader of the cache once the stream has been
      read to its end and lastReported is the cluster. */
  lemma AgreementShowsCluster(s: System, id: Id)
    requires s.last == s.cluster && s.wire == [] && id != "" && Agreed(s, id)
    ensures Shows(s.view, s.cluster, id)
  {
    if id in s.cluster {
      SettledMeans(s.view, Report(id, s.cluster[id]));
    }
  }

  // ---------------------------------------------------------------------
  // Convergence
  // ---------------------------------------------------------------------

  /** A sweep has nothing to say about id - it is listed just as it was last
      reported, or it is neither remembered nor there - although something the
      agent cannot see may have happened to it in the cache: a result that
      raced its last status, or an entry the agent does not remember. */
  predicate Unsaid(z: System, id: Id) {
    Get(z.last, id) == Get(z.cluster, id) && Unaccounted(z, id)
  }

  /** After any run - any interleaving, any lost writes, any reconnects - once
      the connection has no failure pending and every result has been acted on,
      one quiet sweep brings every id into agreement that is not unsaid; and
      when the stream has been read, the cache shows the cluster there. */
  lemma QuietSystemConverges(s: System, run: seq<Step>, steps: seq<Step>)
    requires Initial(s) && Possible(s, run)
    requires var z := After(s, run); !z.token && (forall id :: !Pending(z, id)) && Sweeping(z, steps)
    ensures var z := After(s, run);
            var t := Swept(z, steps);
            && t.last == t.cluster == z.cluster
            && forall id :: Unsaid(z, id) ||
                 (Agreed(t, id) && (t.wire == [] && id != "" ==> Shows(t.view, t.cluster, id)))
  {
    var z := After(s, run);
    var t := Swept(z, steps);
    NothingLostSilently(s, run);
    RunsKeepInvariant(s, run);
    NeverNameless(z.view, z.wire);
    QuietSweepRepairs(z, steps);
    forall id | !Unsaid(z, id)
      ensures Agreed(t, id) && (t.wire == [] && id != "" ==> Shows(t.view, t.cluster, id))
    {
      assert Unaccounted(z, id) || Agreed(z, id);
      if t.wire == [] && id != "" {
        AgreementShowsCluster(t, id);
      }
    }
  }

  /** Nothing but sweeps, removals and lost writes, against a control plane that
      starts afresh on a reconnect and whose callers wait for their results. */
  predicate Ordinary(run: seq<Step>) {
    forall i | 0 <= i < |run| ::
      match run[i]
      case CreateReply(_, _, _, _) => false
      case Deliver(waiting) => waiting
      case RunStarts(forgets) => forgets
      case _ => true
  }

  lemma {:induction false} NothingOrphaned(s: System, run: seq<Step>)
    requires Possible(s, run) && Ordinary(run) && s.past.orphaned == {}
    ensures After(s, run).past.orphaned == {}
    decreases run
  {
    if run != [] {
      assert Ordinary(run[1..]) by {
        assert forall i | 0 <= i < |run[1..]| :: run[1..][i] == run[i + 1];
      }
      var step := run[0];
      assert match step case CreateReply(_, _, _, _) => false
                        case Deliver(waiting) => waiting
                        case RunStarts(forgets) => forgets
                        case _ => true;
      NothingOrphaned(Do(s, step), run[1..]);
    }
  }

  /** In such runs everything converges, provided no id that was removed is
      back, before any sweep has listed its absence, just as it was last
      reported. */
  lemma OrdinaryRunsConverge(s: System, run: seq<Step>, steps: seq<Step>)
    requires Initial(s) && Possible(s, run) && Ordinary(run)
    requires var z := After(s, run); !z.token && (forall id :: !Pending(z, id)) && Sweeping(z, steps)
    requires var z := After(s, run);
             forall id | id in z.past.raced && id in z.last && id in z.cluster :: z.last[id] != z.cluster[id]
    ensures var t := Swept(After(s, run), steps);
            && t.last == t.cluster && (forall id :: Agreed(t, id))
            && (t.wire == [] ==> forall id | id != "" :: Shows(t.view, t.cluster, id))
  {
    NothingOrphaned(s, run);
    QuietSystemConverges(s, run, steps);
    assert forall id :: !Unsaid(After(s, run), id);
  }

  /** A reconnect followed by a quiet sweep repairs an id exactly when the
      control plane started afresh, or the cluster still lists it, or the kept
      cache did not show it alive: what vanished while the agent was away stays
      alive in a kept cache. */
  lemma ReconnectRepairs(s: System, forgets: bool, steps: seq<Step>)
    requires !s.up && s.sweep.Idle? && "" !in Drained(s)
    requires Sweeping(Do(s, RunStarts(forgets)), steps)
    ensures var t := Swept(Do(s, RunStarts(forgets)), steps);
            forall id :: Agreed(t, id) <==> forgets || id in s.cluster || Gone(Drained(s), id)
  {
    var z := Do(s, RunStarts(forgets));
    assert Drained(z) == z.view;
    QuietSweepRepairs(z, steps);
  }

  // ---------------------------------------------------------------------
  // The exceptions are real
  // ---------------------------------------------------------------------

  /** A create result that its caller acts on. */
  function CreateSeeds(s: System, id: Id, endpoint: Endpoint): System
    requires s.up && s.wire == [] && s.answers == []
  {
    Do(Do(Do(s, CreateReply(id, endpoint, s.epoch, true)), Deliver(true)), CallerActs(0))
  }

  lemma SeededView(s: System, id: Id, endpoint: Endpoint)
    requires s.up && s.wire == [] && s.answers == []
    ensures CreateSeeds(s, id, endpoint) == Racing(s, id).(view := Act(s.view, Created(id, endpoint)))
  {
    var replied := Do(s, CreateReply(id, endpoint, s.epoch, true));
    assert replied == Racing(s, id).(wire := [Created(id, endpoint)]);
    assert Do(replied, Deliver(true)) == Racing(s, id).(answers := [Created(id, endpoint)]);
  }

  /** A creation's result, when a sweep has already reported the instance, puts
      it back to pending in the cache, and a quiet sweep does not notice. */
  lemma CreateReplyOverwrites(s: System, id: Id, endpoint: Endpoint, steps: seq<Step>)
    requires s.up && s.sweep.Idle? && s.wire == [] && s.answers == [] && "" !in s.view && id != ""
    requires Get(s.last, id) == Get(s.cluster, id) && id in s.last && Agreed(s, id)
    requires s.last[id].status != "pending" && s.view[id].status != TERMINATED
    requires Sweeping(CreateSeeds(s, id, endpoint), steps)
    ensures var t := Swept(CreateSeeds(s, id, endpoint), steps);
            t.last == s.cluster && !Agreed(t, id)
  {
    var z := CreateSeeds(s, id, endpoint);
    SeededView(s, id, endpoint);
    SettledMeans(s.view, Report(id, s.last[id]));
    SettledMeans(z.view, Report(id, s.last[id]));
    QuietSweepRepairs(z, steps);
  }

  ghost predicate Reaches(s: System, t: System) {
    exists steps :: Possible(s, steps) && After(s, steps) == t
  }

  lemma {:induction false} Concat(s: System, a: seq<Step>, b: seq<Step>)
    requires Possible(s, a) && Possible(After(s, a), b)
    ensures Possible(s, a + b) && After(s, a + b) == After(After(s, a), b)
    decreases a
  {
    if a == [] {
      assert a + b == b;
    } else {
      assert (a + b)[0] == a[0] && (a + b)[1..] == a[1..] + b;
      Concat(Do(s, a[0]), a[1..], b);
    }
  }

  lemma Walk(s: System, t: System, step: Step) returns (u: System)
    requires Reaches(s, t) && Enabled(t, step)
    ensures u == Do(t, step) && Reaches(s, u)
  {
    u := Do(t, step);
    var steps :| Possible(s, steps) && After(s, steps) == t;
    assert Possible(u, []);
    assert Possible(t, [step]) && After(t, [step]) == u;
    Concat(s, steps, [step]);
  }

  function Alive(): map<Id, Key> {
    map["a" := Key("running", NO_ENDPOINT)]
  }

  function Start(): System {
    System(Alive(), map[], Idle, [], {}, false, false, 0, [], [], map[], Past({}, {}, {}))
  }

  /** Without the proviso convergence fails: a stop whose reply races an older
      listing, and the same instance created again, running by the time it is
      next listed. Its own create result only makes the cache show it as
      pending - or, if the caller has given up, not at all - and no quiet sweep
      from here on has anything to say. */
  lemma RecreatedTooSoon(waiting: bool) returns (z: System)
    ensures Initial(Start()) && Reaches(Start(), z)
    ensures z.up && !z.token && z.sweep.Idle? && z.listings == [] && z.wire == [] && forall id :: !Pending(z, id)
    ensures z.cluster == z.last == Alive()
    ensures z.view == if waiting then map["a" := Key("pending", NO_ENDPOINT)] else map[]
    ensures forall steps | Sweeping(z, steps) :: !Agreed(Swept(z, steps), "a")
  {
    assert Possible(Start(), []) && After(Start(), []) == Start();
    z := ReportedAndListedAgain();
    z := StoppedMeanwhile(z);
    z := ReportedOnceMore(z);
    z := Replying(z);
    z := Removing(z);
    z := CreatedAgain(z, waiting);
    forall steps | Sweeping(z, steps) ensures !Agreed(Swept(z, steps), "a") {
      QuietSweepRepairs(z, steps);
      SettledMeans(z.view, Report("a", Alive()["a"]));
    }
  }

  /** An ordinary sweep reports "a"; another lists it and is delayed. */
  lemma ReportedAndListedAgain() returns (z: System)
    requires Reaches(Start(), Start())
    ensures Reaches(Start(), z)
    ensures z == System(Alive(), Alive(), Idle, [Listing(1, Alive())], {}, false, true, 1,
                        [Status(Report("a", Alive()["a"]))], [], map[], Past({}, {}, {}))
  {
    z := Walk(Start(), Start(), RunStarts(true));
    z := Walk(Start(), z, List(1));
    z := Walk(Start(), z, ApplyStart(0));
    z := Walk(Start(), z, ApplyOne("a", true));
    assert z.sweep.todo == map[];
    z := Walk(Start(), z, ApplyEnd);
    z := Walk(Start(), z, List(1));
  }

  /** The stop handler ends the pod and forgets it. */
  lemma StoppedMeanwhile(y: System) returns (z: System)
    requires Reaches(Start(), y)
    requires y == System(Alive(), Alive(), Idle, [Listing(1, Alive())], {}, false, true, 1,
                         [Status(Report("a", Alive()["a"]))], [], map[], Past({}, {}, {}))
    ensures Reaches(Start(), z)
    ensures z == y.(cluster := map[], last := map[], removals := {Removal(0, "a", 1, true)}, past := Past({}, {"a"}, {}))
  {
    var r := Removal(0, "a", 1, false);
    z := Walk(Start(), y, ClusterChanges(map[]));
    z := Walk(Start(), z, RemovalStart(r));
    z := Walk(Start(), z, RemovalForget(r));
    assert z.last == map[] && z.removals == {r.(forgotten := true)};
  }

  /** The delayed sweep is applied before the reply goes out. */
  lemma ReportedOnceMore(y: System) returns (z: System)
    requires Reaches(Start(), y)
    requires y.sweep.Idle? && y.listings == [Listing(1, Alive())] && y.last == map[] && y.up && y.epoch == 1
    requires y.removals == {Removal(0, "a", 1, true)}
    ensures Reaches(Start(), z)
    ensures z == y.(listings := [], last := Alive(), wire := y.wire + [Status(Report("a", Alive()["a"]))])
  {
    z := Walk(Start(), y, ApplyStart(0));
    assert Removal(0, "a", 1, true) in z.removals;
    assert "a" in Outstanding(z);
    z := Walk(Start(), z, ApplyOne("a", true));
    assert z.sweep.todo == map[] && z.last == Alive();
    z := Walk(Start(), z, ApplyEnd);
  }

  /** The reply is written, and the far end reads what came before it. */
  lemma Replying(y: System) returns (z: System)
    requires Reaches(Start(), y) && y.view == map[] && y.up && y.epoch == 1
    requires y.removals == {Removal(0, "a", 1, true)}
    requires y.wire == [Status(Report("a", Alive()["a"])), Status(Report("a", Alive()["a"]))]
    ensures Reaches(Start(), z)
    ensures z == y.(removals := {}, wire := [Removed("a")], view := Alive())
  {
    z := Walk(Start(), y, RemovalReply(Removal(0, "a", 1, true), true));
    assert z.removals == {};
    z := Walk(Start(), z, Deliver(true));
    z := Walk(Start(), z, Deliver(true));
  }

  /** The caller gets its result and forgets the instance. */
  lemma Removing(y: System) returns (z: System)
    requires Reaches(Start(), y) && y.view == Alive() && y.answers == [] && y.wire == [Removed("a")]
    ensures Reaches(Start(), z)
    ensures z == y.(wire := [], view := map[])
  {
    z := Walk(Start(), y, Deliver(true));
    z := Walk(Start(), z, CallerActs(0));
    assert z.view == map[];
  }

  lemma CreatedAgain(y: System, waiting: bool) returns (z: System)
    requires Reaches(Start(), y) && y.view == map[] && y.answers == [] && y.wire == [] && y.up && y.epoch == 1
    requires y.removals == {} && y.past == Past({}, {"a"}, {})
    ensures Reaches(Start(), z) && forall id :: !Pending(z, id)
    ensures z == y.(cluster := Alive(), past := Past({}, {"a"}, {"a"}),
                    view := if waiting then map["a" := Key("pending", NO_ENDPOINT)] else map[])
  {
    z := Walk(Start(), y, ClusterChanges(Alive()));
    z := Walk(Start(), z, CreateReply("a", NO_ENDPOINT, 1, true));
    z := Walk(Start(), z, Deliver(waiting));
    if waiting {
      z := Walk(Start(), z, CallerActs(0));
    }
  }

  // ---------------------------------------------------------------------
  // A quiet sweep is the agent's sweep
  // ---------------------------------------------------------------------

  function AsWire(rs: seq<Report>): (ms: seq<Message>)
    ensures |ms| == |rs|
  {
    seq(|rs|, i requires 0 <= i < |rs| => Status(rs[i]))
  }

  function Ones(statuses: seq<Report>): (steps: seq<Step>)
    ensures |steps| == |statuses|
  {
    seq(|statuses|, i requires 0 <= i < |statuses| => ApplyOne(statuses[i].id, true))
  }

  function Gones(ids: seq<Id>): (steps: seq<Step>)
    ensures |steps| == |ids|
  {
    seq(|ids|, i requires 0 <= i < |ids| => ApplyGone(ids[i], true))
  }

  predicate Distinct(statuses: seq<Report>) {
    forall i, j | 0 <= i < j < |statuses| :: statuses[i].id != statuses[j].id
  }

  predicate CanApply(s: System) {
    s.sweep.Applying? && s.up && s.sweep.epoch == s.epoch
  }

  /** What one turn of the first loop sends. */
  function Change(last: map<Id, Key>, st: Report): seq<Report> {
    if st.id in last && last[st.id] == st.key then [] else [st]
  }

  lemma OneWrites(s: System, st: Report)
    requires CanApply(s) && st.id in s.sweep.todo && s.sweep.todo[st.id] == st.key
    ensures var t := Do(s, ApplyOne(st.id, true));
            && CanApply(t) && t.wire == s.wire + AsWire(Change(s.last, st)) && t.last == s.last[st.id := st.key]
            && t.sweep == s.sweep.(todo := s.sweep.todo - {st.id})
  {
    if st.id in s.last && s.last[st.id] == st.key {
      assert s.last[st.id := st.key] == s.last;
    }
  }

  lemma ChangesFirst(last: map<Id, Key>, statuses: seq<Report>)
    requires statuses != []
    ensures AsWire(Sweeps.Changes(last, statuses)) ==
            AsWire(Change(last, statuses[0])) +
            AsWire(Sweeps.Changes(last[statuses[0].id := statuses[0].key], statuses[1..]))
  {
    var st := statuses[0];
    if st.id in last && last[st.id] == st.key {
      assert last[st.id := st.key] == last;
    }
  }

  lemma MinusBoth(todo: map<Id, Key>, id: Id, rest: set<Id>)
    ensures todo - {id} - rest == todo - ({id} + rest)
  {
  }

  lemma AppendBoth(a: seq<Message>, b: seq<Message>, c: seq<Message>)
    ensures a + b + c == a + (b + c)
  {
  }

  /** Comparing the listed statuses one by one writes exactly what the first
      loop of a sweep sends. */
  lemma {:induction false} OnesWrite(s: System, statuses: seq<Report>)
    requires CanApply(s) && Distinct(statuses)
    requires forall i | 0 <= i < |statuses| ::
               statuses[i].id in s.sweep.todo && s.sweep.todo[statuses[i].id] == statuses[i].key
    ensures Possible(s, Ones(statuses))
    ensures var t := After(s, Ones(statuses));
            && CanApply(t) && t.wire == s.wire + AsWire(Sweeps.Changes(s.last, statuses))
            && t.last == Sweeps.Advance(s.last, statuses)
            && t.sweep == s.sweep.(todo := s.sweep.todo - Sweeps.Ids(statuses))
    decreases statuses
  {
    if statuses == [] {
      assert s.sweep.todo - {} == s.sweep.todo;
    } else {
      var st, rest := statuses[0], statuses[1..];
      var t := Do(s, ApplyOne(st.id, true));
      OneWrites(s, st);
      assert Ones(statuses)[0] == ApplyOne(st.id, true) && Ones(statuses)[1..] == Ones(rest);
      OnesWrite(t, rest);
      FirstIds(statuses);
      MinusBoth(s.sweep.todo, st.id, Sweeps.Ids(rest));
      ChangesFirst(s.last, statuses);
      AppendBoth(s.wire, AsWire(Change(s.last, st)), AsWire(Sweeps.Changes(t.last, rest)));
    }
  }

  lemma FirstIds(statuses: seq<Report>)
    requires statuses != []
    ensures Sweeps.Ids(statuses) == {statuses[0].id} + Sweeps.Ids(statuses[1..])
  {
    assert forall i | 0 <= i < |statuses| :: i > 0 ==> statuses[i] == statuses[1..][i - 1];
    assert forall i | 0 <= i < |statuses[1..]| :: statuses[1..][i] == statuses[i + 1];
  }

  lemma OneGoneWrites(s: System, id: Id)
    requires CanApply(s) && s.sweep.todo == map[] && id in s.last && id !in s.sweep.listed
    ensures var t := Do(s, ApplyGone(id, true));
            CanApply(t) && t.wire == s.wire + [Status(Report(id, GONE))] && t.last == s.last - {id} && t.sweep == s.sweep
  {
  }

  function Members(ids: seq<Id>): set<Id> {
    set id | id in ids
  }

  lemma FirstMember(ids: seq<Id>)
    requires ids != []
    ensures Members(ids) == {ids[0]} + Members(ids[1..])
  {
    assert ids == [ids[0]] + ids[1..];
  }

  lemma GoodbyesFirst(gone: seq<Id>)
    requires gone != []
    ensures AsWire(Sweeps.Goodbyes(gone)) == [Status(Report(gone[0], GONE))] + AsWire(Sweeps.Goodbyes(gone[1..]))
  {
  }

  /** And forgetting the rest writes the goodbyes. */
  lemma {:induction false} GonesWrite(s: System, gone: seq<Id>)
    requires CanApply(s) && s.sweep.todo == map[]
    requires forall i | 0 <= i < |gone| :: gone[i] in s.last && gone[i] !in s.sweep.listed
    requires forall i, j | 0 <= i < j < |gone| :: gone[i] != gone[j]
    ensures Possible(s, Gones(gone))
    ensures var t := After(s, Gones(gone));
            && t.wire == s.wire + AsWire(Sweeps.Goodbyes(gone))
            && t.sweep == s.sweep && t.last.Keys == s.last.Keys - Members(gone)
    decreases gone
  {
    if gone != [] {
      var id, rest := gone[0], gone[1..];
      var t := Do(s, ApplyGone(id, true));
      OneGoneWrites(s, id);
      assert Gones(gone)[0] == ApplyGone(id, true) && Gones(gone)[1..] == Gones(rest);
      GonesWrite(t, rest);
      FirstMember(gone);
      GoodbyesFirst(gone);
    }
  }

  /** An undisturbed sweep of this machine writes exactly what the agent's sweep
      sends: the changed statuses in listing order, then one goodbye each. */
  lemma SweepWrites(z: System, statuses: seq<Report>, gone: seq<Id>)
    requires z.up && z.sweep.Idle? && Distinct(statuses) && z.cluster == Sweeps.Listed(statuses)
    requires Sweeps.OrderOf(gone, z.last.Keys - Sweeps.Ids(statuses))
    ensures var steps := Ones(statuses) + Gones(gone);
            && Sweeping(z, steps)
            && Swept(z, steps).wire ==
               z.wire + AsWire(Sweeps.Changes(z.last, statuses)) + AsWire(Sweeps.Goodbyes(gone))
  {
    var s := Begun(z);
    BegunApplies(z);
    Sweeps.AdvanceKeys(map[], statuses);
    ListedKeys(statuses);
    OnesWrite(s, statuses);
    Sweeps.AdvanceKeys(z.last, statuses);
    SweepGoodbyes(z, After(s, Ones(statuses)), Sweeps.Ids(statuses), gone);
    Concat(s, Ones(statuses), Gones(gone));
    QuietOrder(statuses, gone);
  }

  lemma BegunApplies(z: System)
    requires z.up && z.sweep.Idle?
    ensures var s := Begun(z);
            && CanApply(s) && s.wire == z.wire && s.last == z.last
            && s.sweep == Applying(z.epoch, z.cluster, z.cluster.Keys)
  {
  }

  lemma QuietOrder(statuses: seq<Report>, gone: seq<Id>)
    ensures Quiet(Ones(statuses) + Gones(gone))
  {
  }

  lemma SweepGoodbyes(z: System, u: System, listed: set<Id>, gone: seq<Id>)
    requires CanApply(u) && u.sweep.todo == map[] && u.sweep.listed == listed && u.last.Keys == z.last.Keys + listed
    requires Sweeps.OrderOf(gone, z.last.Keys - listed)
    ensures Possible(u, Gones(gone)) && Enabled(After(u, Gones(gone)), ApplyEnd)
    ensures After(u, Gones(gone)).wire == u.wire + AsWire(Sweeps.Goodbyes(gone))
  {
    Sweeps.OrderOfMembers(gone, z.last.Keys - listed);
    OrderIsDistinct(gone, z.last.Keys - listed);
    assert forall i | 0 <= i < |gone| :: gone[i] in gone;
    GonesWrite(u, gone);
  }

  lemma {:induction false} OrderIsDistinct(ids: seq<Id>, all: set<Id>)
    requires Sweeps.OrderOf(ids, all)
    ensures forall i, j | 0 <= i < j < |ids| :: ids[i] != ids[j]
    decreases ids
  {
    if ids != [] {
      var n := |ids| - 1;
      OrderIsDistinct(ids[..n], all - {ids[n]});
      Sweeps.OrderOfMembers(ids[..n], all - {ids[n]});
      assert forall i | 0 <= i < n :: ids[i] == ids[..n][i] && ids[i] in ids[..n];
    }
  }

  /** A listing of distinct ids holds each of its statuses. */
  lemma {:induction false} ListedKeys(statuses: seq<Report>)
    requires Distinct(statuses)
    ensures forall i | 0 <= i < |statuses| ::
              statuses[i].id in Sweeps.Listed(statuses) && Sweeps.Listed(statuses)[statuses[i].id] == statuses[i].key
    decreases statuses
  {
    if statuses != [] {
      var n := |statuses| - 1;
      assert statuses == statuses[..n] + [statuses[n]];
      Sweeps.AdvanceConcat(map[], statuses[..n], [statuses[n]]);
      ListedKeys(statuses[..n]);
      forall i | 0 <= i < |statuses|
        ensures statuses[i].id in Sweeps.Listed(statuses) && Sweeps.Listed(statuses)[statuses[i].id] == statuses[i].key
      {
        if i < n {
          assert statuses[..n][i] == statuses[i];
        }
      }
    }
  }
}
