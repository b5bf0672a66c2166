/** Redelivered create commands (Runner.handleCreate,
    pkg/agentrunner/runner.go) against the pods of one instance
    (pkg/cluster/direct.go). */
module Creates {

  /** What a pod is doing. Stuck: waiting to pull its image or to restart after
      a crash, which Kubernetes keeps retrying. Lost: its node is unreachable,
      for so long or not. */
  datatype Condition = Pending | Running | Stuck | Lost(long: bool) | Succeeded | Failed

  /** deleted: being removed, which takes a while; the pod stays listed. */
  datatype Pod = Pod(created: nat, condition: Condition, deleted: bool)

  datatype Status = PENDING | RUNNING | FAILED | TERMINATED

  function StatusOf(p: Pod): Status {
    match p.condition
    case Pending => PENDING
    case Running => RUNNING
    case Stuck => FAILED
    case Lost(long) => if long then TERMINATED else PENDING
    case Succeeded => TERMINATED
    case Failed => FAILED
  }

  /** Runs, or may run yet. */
  predicate Live(p: Pod) {
    !p.deleted && p.condition != Succeeded && p.condition != Failed
  }

  predicate AnyLive(pods: seq<Pod>) {
    exists i :: 0 <= i < |pods| && Live(pods[i])
  }

  /** A call that changes something can work, fail without effect, or fail
      after it took effect. */
  datatype Call = Works | Fails(actedAnyway: bool)

  predicate Acts(c: Call) {
    c.Works? || c.actedAnyway
  }

  /** The cluster's answers: may the status be read, are the pods listed, what
      becomes of deleting the k-th of them and of creating one - and where the
      new pod's name places it in later listings. */
  datatype Faults = Faults(statusRead: bool, listed: bool, deletes: nat -> Call, creates: Call, at: nat)

  datatype Reply = Success | NotFound | Error

  // ---------------------------------------------------------------------
  // The commands, as functions of the pods
  // ---------------------------------------------------------------------

  /** The latest created; among equals, the one listed first. */
  predicate IsNewest(pods: seq<Pod>, n: int) {
    && 0 <= n < |pods|
    && (forall i | 0 <= i < |pods| :: pods[i].created <= pods[n].created)
    && forall i | 0 <= i < n :: pods[i].created < pods[n].created
  }

  function Newest(pods: seq<Pod>): (n: int)
    requires pods != []
    ensures IsNewest(pods, n)
  {
    var last := |pods| - 1;
    if last == 0 then 0
    else var n := Newest(pods[..last]); if pods[last].created > pods[n].created then last else n
  }

  lemma OneNewest(pods: seq<Pod>, m: int, n: int)
    requires IsNewest(pods, m) && IsNewest(pods, n)
    ensures m == n
  {
    assert pods[m].created == pods[n].created;
  }

  predicate Alive(st: Status) {
    st == PENDING || st == RUNNING
  }

  /** The idempotency check finds a pod it takes for live. */
  predicate SeenAlive(pods: seq<Pod>, statusRead: bool) {
    statusRead && pods != [] && Alive(StatusOf(pods[Newest(pods)]))
  }

  function Insert(pods: seq<Pod>, at: nat, p: Pod): seq<Pod> {
    var i := if at < |pods| then at else |pods|;
    pods[..i] + [p] + pods[i..]
  }

  function Create(pods: seq<Pod>, now: nat, f: Faults): (seq<Pod>, Reply) {
    (if Acts(f.creates) then Insert(pods, f.at, Pod(now, Pending, false)) else pods,
     if f.creates.Works? then Success else Error)
  }

  /** Deleting the first n in order, which stops at the first failure. */
  function Deleting(pods: seq<Pod>, deletes: nat -> Call, n: nat): (r: (seq<Pod>, bool))
    requires n <= |pods|
    ensures |r.0| == |pods|
  {
    if n == 0 then (pods, true)
    else
      var (rest, ok) := Deleting(pods, deletes, n - 1);
      if !ok then (rest, false)
      else (if Acts(deletes(n - 1)) then rest[n - 1 := rest[n - 1].(deleted := true)] else rest, deletes(n - 1).Works?)
  }

  function Update(pods: seq<Pod>, now: nat, f: Faults): (seq<Pod>, Reply) {
    if !f.listed then (pods, Error)
    else if pods == [] then (pods, NotFound)
    else
      var (rest, ok) := Deleting(pods, f.deletes, |pods|);
      if !ok then (rest, Error) else Create(rest, now, f)
  }

  function Handle(pods: seq<Pod>, now: nat, replace: bool, f: Faults): (seq<Pod>, Reply) {
    if replace then Update(pods, now, f)
    else if SeenAlive(pods, f.statusRead) then (pods, Success)
    else Create(pods, now, f)
  }

  function Delete(pods: seq<Pod>, f: Faults): seq<Pod> {
    if f.listed then Deleting(pods, f.deletes, |pods|).0 else pods
  }

  // ---------------------------------------------------------------------
  // The code
  // ---------------------------------------------------------------------

  method NewestPod(pods: seq<Pod>) returns (newest: int)
    requires pods != []
    ensures IsNewest(pods, newest)
  {
    newest := 0;
    for i := 1 to |pods|
      invariant IsNewest(pods[..i], newest)
    {
      if pods[i].created > pods[newest].created {
        newest := i;
      }
      assert pods[..i + 1] == pods[..i] + [pods[i]];
    }
    assert pods[..|pods|] == pods;
  }

  /** The pods the cluster holds for one instance. */
  class Cluster {
    var pods: seq<Pod>
    var now: nat

    method GetInstanceStatus(f: Faults) returns (found: bool, status: Status)
      ensures found == (f.statusRead && pods != [])
      ensures found ==> status == StatusOf(pods[Newest(pods)])
    {
      if !f.statusRead || |pods| == 0 {
        return false, FAILED;
      }
      var n := NewestPod(pods);
      OneNewest(pods, n, Newest(pods));
      return true, StatusOf(pods[n]);
    }

    method CreateInstance(f: Faults) returns (reply: Reply)
      modifies `pods
      ensures (pods, reply) == Create(old(pods), now, f)
    {
      if Acts(f.creates) {
        pods := Insert(pods, f.at, Pod(now, Pending, false));
      }
      return if f.creates.Works? then Success else Error;
    }

    method UpdateInstance(f: Faults) returns (reply: Reply)
      modifies `pods
      ensures (pods, reply) == Update(old(pods), now, f)
    {
      if !f.listed {
        return Error;
      }
      var items := pods;
      if |items| == 0 {
        return NotFound;
      }
      for i := 0 to |items|
        invariant Deleting(items, f.deletes, i) == (pods, true)
      {
        if Acts(f.deletes(i)) {
          pods := pods[i := pods[i].(deleted := true)];
        }
        if !f.deletes(i).Works? {
          DeletingStops(items, f.deletes, i + 1, |items|);
          return Error;
        }
      }
      reply := CreateInstance(f);
    }

    method HandleCreate(replace: bool, f: Faults) returns (reply: Reply)
      modifies `pods
      ensures (pods, reply) == Handle(old(pods), now, replace, f)
    {
      if !replace {
        var found, status := GetInstanceStatus(f);
        if found && (status == PENDING || status == RUNNING) {
          return Success;
        }
      }
      if replace {
        reply := UpdateInstance(f);
      } else {
        reply := CreateInstance(f);
      }
    }
  }

  lemma {:induction false} DeletingStops(pods: seq<Pod>, deletes: nat -> Call, k: nat, n: nat)
    requires k <= n <= |pods| && !Deleting(pods, deletes, k).1
    ensures Deleting(pods, deletes, n) == Deleting(pods, deletes, k)
  {
    if n > k {
      DeletingStops(pods, deletes, k, n - 1);
    }
  }

  /** Deleting changes nothing but who is being removed. */
  lemma {:induction false} DeletingMarks(pods: seq<Pod>, deletes: nat -> Call, n: nat)
    requires n <= |pods|
    ensures var (rest, ok) := Deleting(pods, deletes, n);
            && (forall i | 0 <= i < |pods| :: rest[i] == pods[i] || rest[i] == pods[i].(deleted := true))
            && (ok ==> forall i | 0 <= i < n :: rest[i].deleted)
  {
    if n > 0 {
      DeletingMarks(pods, deletes, n - 1);
    }
  }

  // ---------------------------------------------------------------------
  // Runs
  // ---------------------------------------------------------------------

  datatype World = World(pods: seq<Pod>, now: nat)

  datatype Event =
    | Command(replace: bool, f: Faults)
    | Removal(f: Faults)
    | PodMoves(i: nat, condition: Condition)
    | PodGone(i: nat)
    | Tick

  /** A pod that has finished stays finished. */
  predicate Enabled(w: World, e: Event) {
    match e
    case PodMoves(i, _) => i < |w.pods| && w.pods[i].condition != Succeeded && w.pods[i].condition != Failed
    case PodGone(i) => i < |w.pods|
    case _ => true
  }

  function Step(w: World, e: Event): World
    requires Enabled(w, e)
  {
    match e
    case Command(replace, f) => w.(pods := Handle(w.pods, w.now, replace, f).0)
    case Removal(f) => w.(pods := Delete(w.pods, f))
    case PodMoves(i, condition) => w.(pods := w.pods[i := w.pods[i].(condition := condition)])
    case PodGone(i) => w.(pods := w.pods[..i] + w.pods[i + 1..])
    case Tick => w.(now := w.now + 1)
  }

  predicate Possible(w: World, es: seq<Event>)
    decreases es
  {
    es == [] || (Enabled(w, es[0]) && Possible(Step(w, es[0]), es[1..]))
  }

  function After(w: World, es: seq<Event>): World
    requires Possible(w, es)
    decreases es
  {
    if es == [] then w else After(Step(w, es[0]), es[1..])
  }

  /** At most one pod is live, and it was created after all others. */
  ghost predicate One(w: World) {
    && (forall i | 0 <= i < |w.pods| :: w.pods[i].created <= w.now)
    && forall i, j | 0 <= i < |w.pods| && 0 <= j < |w.pods| && i != j && Live(w.pods[i]) ::
         !Live(w.pods[j]) && w.pods[j].created < w.pods[i].created
  }

  /** No pod of the instance is as young as the current second. */
  predicate Fresh(w: World) {
    forall i | 0 <= i < |w.pods| :: w.pods[i].created < w.now
  }

  /** The command makes a pod. */
  predicate Makes(pods: seq<Pod>, replace: bool, f: Faults) {
    && Acts(f.creates)
    && if replace then f.listed && pods != [] && Deleting(pods, f.deletes, |pods|).1 else !SeenAlive(pods, f.statusRead)
  }

  /** What a command that makes a pod needs to find to keep at most one live. */
  predicate Safe(w: World, e: Event) {
    e.Command? && Makes(w.pods, e.replace, e.f) ==> Fresh(w) && (!e.replace ==> !AnyLive(w.pods))
  }

  lemma Inserted(pods: seq<Pod>, at: nat, p: Pod)
    ensures var i := if at < |pods| then at else |pods|;
            var after := Insert(pods, at, p);
            && |after| == |pods| + 1 && after[i] == p
            && (forall k | 0 <= k < i :: after[k] == pods[k])
            && (forall k | i < k < |after| :: after[k] == pods[k - 1])
            && (forall k | i <= k < |pods| :: after[k + 1] == pods[k])
  {
  }

  /** A new pod among pods none of which is live. */
  lemma CreateKeepsOne(pods: seq<Pod>, now: nat, f: Faults)
    requires !AnyLive(pods) && Fresh(World(pods, now))
    ensures One(World(Create(pods, now, f).0, now))
    ensures Acts(f.creates) ==> AnyLive(Create(pods, now, f).0)
  {
    Inserted(pods, f.at, Pod(now, Pending, false));
    if Acts(f.creates) {
      var i := if f.at < |pods| then f.at else |pods|;
      assert Live(Create(pods, now, f).0[i]);
    }
  }

  lemma LiveIsNewest(w: World, i: int)
    requires One(w) && 0 <= i < |w.pods| && Live(w.pods[i])
    ensures i == Newest(w.pods)
  {
  }

  /** The pod is shown as what it is: neither waiting to be retried, which is
      reported as failed, nor lost for so long that it is given up. */
  predicate Plain(p: Pod) {
    p.condition != Stuck && p.condition != Lost(true)
  }

  /** The check sees the live pod, if there is one, exactly when the status read
      works and the pod is plain: the newest pod is the live one. */
  lemma LiveIsSeenIff(w: World, statusRead: bool, i: int)
    requires One(w) && 0 <= i < |w.pods| && Live(w.pods[i])
    ensures SeenAlive(w.pods, statusRead) <==> statusRead && Plain(w.pods[i])
  {
    LiveIsNewest(w, i);
  }

  /** A create command keeps at most one pod live exactly when, should one be
      live, the status read works and that pod is plain. */
  lemma CreateKeepsOneIff(w: World, f: Faults)
    requires One(w) && Fresh(w) && Acts(f.creates)
    ensures One(Step(w, Command(false, f))) <==>
            forall i | 0 <= i < |w.pods| && Live(w.pods[i]) :: f.statusRead && Plain(w.pods[i])
  {
    if AnyLive(w.pods) {
      var i :| 0 <= i < |w.pods| && Live(w.pods[i]);
      LiveIsSeenIff(w, f.statusRead, i);
      if !SeenAlive(w.pods, f.statusRead) {
        SecondIsMade(w, f, i);
      }
    } else if !SeenAlive(w.pods, f.statusRead) {
      CreateKeepsOne(w.pods, w.now, f);
    }
  }

  lemma SecondIsMade(w: World, f: Faults, i: int)
    requires 0 <= i < |w.pods| && Live(w.pods[i]) && !SeenAlive(w.pods, f.statusRead) && Acts(f.creates)
    ensures !One(Step(w, Command(false, f)))
  {
    var at := if f.at < |w.pods| then f.at else |w.pods|;
    Inserted(w.pods, f.at, Pod(w.now, Pending, false));
    var after := Step(w, Command(false, f)).pods;
    var k := if i < at then i else i + 1;
    assert Live(after[at]) && Live(after[k]) && at != k;
  }

  lemma ReplaceKeepsOne(w: World, f: Faults)
    requires One(w) && (Makes(w.pods, true, f) ==> Fresh(w))
    ensures One(Step(w, Command(true, f)))
  {
    DeletingMarks(w.pods, f.deletes, |w.pods|);
    var (rest, ok) := Deleting(w.pods, f.deletes, |w.pods|);
    if Makes(w.pods, true, f) {
      CreateKeepsOne(rest, w.now, f);
    }
  }

  lemma GoneKeepsOne(w: World, i: nat)
    requires One(w) && i < |w.pods|
    ensures One(Step(w, PodGone(i)))
  {
    var after := Step(w, PodGone(i)).pods;
    assert forall k | 0 <= k < |after| :: after[k] == w.pods[if k < i then k else k + 1];
  }

  lemma RemovalKeepsOne(w: World, f: Faults)
    requires One(w)
    ensures One(Step(w, Removal(f)))
  {
    DeletingMarks(w.pods, f.deletes, |w.pods|);
  }

  lemma StepKeepsOne(w: World, e: Event)
    requires One(w) && Enabled(w, e) && Safe(w, e)
    ensures One(Step(w, e))
  {
    match e
    case Command(replace, f) =>
      if replace {
        ReplaceKeepsOne(w, f);
      } else if Makes(w.pods, false, f) {
        CreateKeepsOne(w.pods, w.now, f);
      }
    case Removal(f) => RemovalKeepsOne(w, f);
    case PodMoves(_, _) =>
    case PodGone(i) => GoneKeepsOne(w, i);
    case Tick =>
  }

  /** What a run has to offer a command: the status can be read, no pod is shown
      as anything but what it is, and a pod is not made in the same second as
      another. Nothing is asked about how many pods there are. */
  predicate Careful(w: World, e: Event) {
    e.Command? ==>
      && (Makes(w.pods, e.replace, e.f) ==> Fresh(w))
      && (!e.replace ==> e.f.statusRead && forall i | 0 <= i < |w.pods| && !w.pods[i].deleted :: Plain(w.pods[i]))
  }

  /** Then the idempotency check finds the live pod, and no second is made. */
  lemma CarefulIsSafe(w: World, e: Event)
    requires One(w) && Careful(w, e)
    ensures Safe(w, e)
  {
    if e.Command? && !e.replace && AnyLive(w.pods) {
      var i :| 0 <= i < |w.pods| && Live(w.pods[i]);
      LiveIsSeenIff(w, e.f.statusRead, i);
    }
  }

  predicate AllCareful(w: World, es: seq<Event>)
    requires Possible(w, es)
    decreases es
  {
    es == [] || (Careful(w, es[0]) && AllCareful(Step(w, es[0]), es[1..]))
  }

  /** Over every run of commands redelivered any number of times, of replaces,
      removals, completed pods left behind and calls that fail: at most one pod
      of the instance is live, and it is the newest. */
  lemma {:induction false} RunsKeepOne(w: World, es: seq<Event>)
    requires One(w) && Possible(w, es) && AllCareful(w, es)
    ensures One(After(w, es))
    decreases es
  {
    if es != [] {
      CarefulIsSafe(w, es[0]);
      StepKeepsOne(w, es[0]);
      RunsKeepOne(Step(w, es[0]), es[1..]);
    }
  }

  // ---------------------------------------------------------------------
  // Redelivery, completion, replacement
  // ---------------------------------------------------------------------

  /** Once a create has made a pod - even if it reported an error - a second
      delivery changes nothing and reports success, at whatever time it comes. */
  lemma RedeliveryIsQuiet(w: World, f: Faults, again: Faults, later: nat)
    requires One(w) && Fresh(w) && !AnyLive(w.pods) && Makes(w.pods, false, f) && again.statusRead
    ensures var after := Handle(w.pods, w.now, false, f).0;
            |after| == |w.pods| + 1 && Handle(after, later, false, again) == (after, Success)
  {
    CreateKeepsOne(w.pods, w.now, f);
    var after := Handle(w.pods, w.now, false, f).0;
    var at := if f.at < |w.pods| then f.at else |w.pods|;
    Inserted(w.pods, f.at, Pod(w.now, Pending, false));
    LiveIsNewest(World(after, w.now), at);
  }

  /** A reported success means a live pod, unless the pod that was taken for
      live is on its way out. */
  lemma SuccessMeansLive(w: World, replace: bool, f: Faults)
    requires One(w) && Handle(w.pods, w.now, replace, f).1 == Success
    ensures AnyLive(Handle(w.pods, w.now, replace, f).0) <==>
            replace || !SeenAlive(w.pods, f.statusRead) || !w.pods[Newest(w.pods)].deleted
  {
    var after := Handle(w.pods, w.now, replace, f).0;
    if !replace && SeenAlive(w.pods, f.statusRead) {
      if AnyLive(w.pods) {
        var i :| 0 <= i < |w.pods| && Live(w.pods[i]);
        LiveIsNewest(w, i);
      }
    } else {
      var before := if replace then Deleting(w.pods, f.deletes, |w.pods|).0 else w.pods;
      Inserted(before, f.at, Pod(w.now, Pending, false));
      assert Live(after[if f.at < |before| then f.at else |before|]);
    }
  }

  /** Once every pod has finished, a create makes a new one. */
  lemma CompletedIsRecreated(w: World, f: Faults)
    requires f.creates.Works?
    requires forall i | 0 <= i < |w.pods| :: w.pods[i].condition in {Succeeded, Failed}
    ensures var (after, reply) := Handle(w.pods, w.now, false, f);
            && reply == Success && |after| == |w.pods| + 1 && AnyLive(after)
            && (Fresh(w) ==> One(World(after, w.now)))
  {
    Inserted(w.pods, f.at, Pod(w.now, Pending, false));
    assert Live(Handle(w.pods, w.now, false, f).0[if f.at < |w.pods| then f.at else |w.pods|]);
    if Fresh(w) {
      CreateKeepsOne(w.pods, w.now, f);
    }
  }

  /** A replace is never taken for a redelivery: it fails if there is nothing to
      replace, and otherwise leaves the new pod as the only live one. */
  lemma ReplaceReplaces(w: World, f: Faults)
    requires One(w) && Fresh(w) && f.listed && f.creates.Works? && forall i: nat | i < |w.pods| :: f.deletes(i).Works?
    ensures var (after, reply) := Handle(w.pods, w.now, true, f);
            if w.pods == [] then reply == NotFound && after == []
            else reply == Success && One(World(after, w.now)) &&
                 exists i :: 0 <= i < |after| && after[i] == Pod(w.now, Pending, false)
  {
    if w.pods != [] {
      AllDeleted(w.pods, f.deletes, |w.pods|);
      var rest := Deleting(w.pods, f.deletes, |w.pods|).0;
      DeletingMarks(w.pods, f.deletes, |w.pods|);
      CreateKeepsOne(rest, w.now, f);
      Inserted(rest, f.at, Pod(w.now, Pending, false));
    }
  }

  lemma {:induction false} AllDeleted(pods: seq<Pod>, deletes: nat -> Call, n: nat)
    requires n <= |pods| && forall i: nat | i < n :: deletes(i).Works?
    ensures Deleting(pods, deletes, n).1
  {
    if n > 0 {
      AllDeleted(pods, deletes, n - 1);
    }
  }

  /** Calls that fail without effect leave the pods as they were, and are
      reported. */
  lemma NothingActedNothingChanged(pods: seq<Pod>, now: nat, replace: bool, f: Faults)
    requires f.creates == Fails(false) && forall i: nat | i < |pods| :: f.deletes(i) == Fails(false)
    ensures Handle(pods, now, replace, f).0 == pods
    ensures Handle(pods, now, replace, f).1 == Success <==> !replace && SeenAlive(pods, f.statusRead)
  {
    NothingDeleted(pods, f.deletes, |pods|);
  }

  lemma {:induction false} NothingDeleted(pods: seq<Pod>, deletes: nat -> Call, n: nat)
    requires n <= |pods| && forall i: nat | i < n :: deletes(i) == Fails(false)
    ensures Deleting(pods, deletes, n) == (pods, n == 0)
  {
    if n > 0 {
      NothingDeleted(pods, deletes, n - 1);
    }
  }

  /** Although the read works: a pod waiting to be restarted is reported as
      failed, and gets a second one beside it. */
  lemma StuckPodIsDoubled(f: Faults)
    requires f.statusRead && Acts(f.creates)
    ensures var w := World([Pod(3, Stuck, false)], 5);
            One(w) && Fresh(w) && !One(Step(w, Command(false, f)))
  {
    var w := World([Pod(3, Stuck, false)], 5);
    assert Live(w.pods[0]);
    CreateKeepsOneIff(w, f);
  }

  /** And a create right after a delete reports success, although the only pod
      is going away. */
  lemma LeavingPodPassesForLive(f: Faults)
    requires f.statusRead && f.listed && Acts(f.deletes(0))
    ensures var after := Step(World([Pod(3, Running, false)], 5), Removal(f));
            Handle(after.pods, after.now, false, f) == (after.pods, Success) && !AnyLive(after.pods)
  {
    var pods := [Pod(3, Running, false)];
    assert Deleting(pods, f.deletes, 0) == (pods, true);
    assert pods[0 := Pod(3, Running, true)] == [Pod(3, Running, true)];
    assert Deleting(pods, f.deletes, 1).0 == [Pod(3, Running, true)];
  }

  /** Creation times are whole seconds: a pod created in the same second as one
      that has already finished can be listed behind it, is then not taken for
      the newest, and a redelivery puts a second one beside it. */
  lemma SameSecondIsDoubled(f: Faults)
    requires f.statusRead && Acts(f.creates) && f.at >= 1
    ensures var w := World([Pod(5, Succeeded, false)], 5);
            var once := Step(w, Command(false, f));
            One(w) && AnyLive(once.pods) && !One(Step(once, Command(false, f)))
  {
    var w := World([Pod(5, Succeeded, false)], 5);
    var once := Step(w, Command(false, f));
    var young := Pod(5, Pending, false);
    Inserted(w.pods, f.at, young);
    assert once.pods == [Pod(5, Succeeded, false), young];
    assert Live(once.pods[1]);
    assert IsNewest(once.pods, 0);
    OneNewest(once.pods, 0, Newest(once.pods));
    var twice := Step(once, Command(false, f));
    Inserted(once.pods, f.at, young);
    var at := if f.at < 2 then f.at else 2;
    assert Live(twice.pods[at]) && Live(twice.pods[if at == 1 then 2 else 1]);
  }
}
