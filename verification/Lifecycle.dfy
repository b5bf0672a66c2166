/** The life of an instance with a disk: held when credit runs out, started
    again, or purged, with every cluster and store call able to fail
    (cmd/api-server/adapters.go, pkg/api/instance_hold.go, pkg/compute). */
module Lifecycle {
  import opened Options

  type Id = string

  // ---------------------------------------------------------------------
  // Specs and the vault
  // ---------------------------------------------------------------------

  /** The launch spec: its id, the size of its disk, where its GPU slice was
      placed, and everything else. */
  datatype Spec = Spec(id: Id, storageGB: int, placement: Placement, workload: Workload)

  datatype Placement = Placement(
    gpuResource: string, gpuQuantity: int, gpuVramGB: int, nodeName: string, instanceType: string)

  datatype Workload = Workload(
    accountId: string, projectId: string,
    image: string, command: seq<string>, args: seq<string>, env: map<string, string>, labels: map<string, string>,
    cpuUnits: int, memoryGB: int, ephemeralStorageGB: int,
    providerId: string, nodeClass: string,
    ports: seq<(int, string)>, endpointDomain: string, enableTLS: bool, tlsIssuer: string, imagePullSecret: string,
    alwaysPullImage: bool, neverRestart: bool, allowOwnershipChanges: bool)

  /** A sealed spec: readable only with the id it was sealed for, and only
      while it is intact. */
  datatype Sealed = Sealed(boundTo: Id, plain: Spec, intact: bool)

  function Seal(spec: Spec): Sealed {
    Sealed(spec.id, spec, true)
  }

  function Open(id: Id, sealed: Sealed): Option<Spec> {
    if sealed.intact && sealed.boundTo == id && sealed.plain.id == id then Some(sealed.plain) else None
  }

  /** A sealed spec opens to a spec exactly if it is what sealing that spec
      gave, untouched, and it is opened for the instance it was sealed for. */
  lemma OpensWhatWasSealed(id: Id, sealed: Sealed, spec: Spec)
    ensures Open(id, sealed) == Some(spec) <==> sealed == Seal(spec) && spec.id == id
  {
  }

  // ---------------------------------------------------------------------
  // One instance, in the cluster and in the store
  // ---------------------------------------------------------------------

  datatype Status = Pending | Running | Failed | Stopped | Terminated

  /** The row of compute.instances. A terminated row is one with terminated_at
      set. */
  datatype Record = Record(account: string, project: string, status: Status, sealed: Option<Sealed>, gpuVramGB: int)

  /** cached: the control plane has a live status for the instance, without
      which a tenancy-scoped command does not find it. */
  datatype Instance = Instance(pod: bool, disk: bool, cached: bool, record: Record)

  // How the outside calls can end. A failed call may still have acted.
  datatype StopOutcome = StopDone | StopFailed(podGone: bool)
  datatype DeleteOutcome = DeleteDone | DeleteFailed(podGone: bool, diskGone: bool)
  datatype CreateOutcome = CreateDone | CreateFailed(error: CreateError, podUp: bool)
  datatype CreateError = ClusterUnavailable | ResourceExhausted | OtherError
  datatype WriteOutcome = Written | WriteFailed(tookEffect: bool)

  /** StopInstance: a scoped command for an instance the control plane has no
      status for succeeds without touching it. */
  function StopPod(i: Instance, scoped: bool, out: StopOutcome): (Instance, bool) {
    if scoped && !i.cached then (i, true)
    else match out
      case StopDone => (i.(pod := false, cached := false), true)
      case StopFailed(podGone) => (i.(pod := i.pod && !podGone), false)
  }

  function DeleteAll(i: Instance, scoped: bool, out: DeleteOutcome): (Instance, bool) {
    if scoped && !i.cached then (i, true)
    else match out
      case DeleteDone => (i.(pod := false, disk := false, cached := false), true)
      case DeleteFailed(podGone, diskGone) => (i.(pod := i.pod && !podGone, disk := i.disk && !diskGone), false)
  }

  function CreatePod(i: Instance, spec: Spec, out: CreateOutcome): (Instance, bool) {
    match out
    case CreateDone => (i.(pod := true, disk := i.disk || spec.storageGB > 0, cached := true), true)
    case CreateFailed(_, podUp) => (i.(pod := i.pod || podUp, disk := i.disk || (podUp && spec.storageGB > 0)), false)
  }

  function Applied(out: WriteOutcome): bool {
    out.Written? || out.tookEffect
  }

  /** MarkStopped changes only an active running or pending row. */
  function MarkStopped(i: Instance, out: WriteOutcome): (Instance, bool) {
    (if Applied(out) && i.record.status in {Pending, Running} then i.(record := i.record.(status := Stopped)) else i,
     out.Written?)
  }

  function MarkTerminated(i: Instance, out: WriteOutcome): (Instance, bool) {
    (if Applied(out) then i.(record := i.record.(status := Terminated)) else i, out.Written?)
  }

  /** MarkStarted changes only a stopped row, and reports whether it did. */
  function MarkStarted(i: Instance, out: WriteOutcome): (Instance, bool) {
    (if Applied(out) && i.record.status == Stopped then i.(record := i.record.(status := Pending)) else i,
     out.Written? && i.record.status == Stopped)
  }

  /** persistLaunchSpec: best effort, only for an instance with a disk and only
      with a vault; an earlier spec is replaced. */
  function SaveSpec(i: Instance, vault: bool, spec: Spec, sealWorks: bool, out: WriteOutcome): Instance {
    if vault && spec.storageGB > 0 && sealWorks && Applied(out) && i.record.status != Terminated
    then i.(record := i.record.(sealed := Some(Seal(spec))))
    else i
  }

  // ---------------------------------------------------------------------
  // Hold and removal of one instance
  // ---------------------------------------------------------------------

  datatype HoldFaults = HoldFaults(loads: bool, stop: StopOutcome, mark: WriteOutcome)
  datatype RemoveFaults = RemoveFaults(delete: DeleteOutcome, mark: WriteOutcome)

  function HoldOne(i: Instance, canStop: bool, f: HoldFaults): (Instance, bool) {
    if !canStop || !f.loads || i.record.sealed.None? then (i, false)
    else
      var (stopped, ok) := StopPod(i, true, f.stop);
      if ok then MarkStopped(stopped, f.mark) else (stopped, false)
  }

  /** StopInstances, SuspendAccountResources (scoped), PurgeAccount and
      deleteStoppedInstance (unscoped). */
  function RemoveOne(i: Instance, scoped: bool, f: RemoveFaults): (Instance, bool) {
    var (deleted, ok) := DeleteAll(i, scoped, f.delete);
    if ok then MarkTerminated(deleted, f.mark) else (deleted, false)
  }

  /** What the reconciler is told about an instance, if anything. */
  datatype Observed = SeenPending | SeenRunning | SeenFailed | SeenTerminated

  /** Reconcile, one record: a stopped one is left alone; one that is missing
      from the listing, or listed as terminated, is marked terminated; any other
      takes the status seen. A record terminated not long ago that is seen
      alive is revived. */
  function ReconcileOne(i: Instance, seen: Option<Observed>, recent: bool, write: WriteOutcome): Instance {
    if i.record.status == Stopped then i
    else if i.record.status == Terminated then
      if recent && seen.Some? && seen.value in {SeenPending, SeenRunning} && Applied(write)
      then i.(record := i.record.(status := StatusOf(seen.value))) else i
    else if seen.None? || seen.value == SeenTerminated then MarkTerminated(i, write).0
    else if Applied(write) then i.(record := i.record.(status := StatusOf(seen.value))) else i
  }

  function StatusOf(o: Observed): Status {
    match o
    case SeenPending => Pending
    case SeenRunning => Running
    case SeenFailed => Failed
    case SeenTerminated => Terminated
  }

  /** What the records promise: nothing is left of a terminated instance, and a
      stopped one is not running. */
  datatype Half = WhenStopped | WhenTerminated

  predicate Promise(i: Instance, half: Half) {
    match half
    case WhenStopped => i.record.status == Stopped ==> !i.pod
    case WhenTerminated => i.record.status == Terminated ==> !i.pod && !i.disk
  }

  predicate Clean(i: Instance) {
    Promise(i, WhenStopped) && Promise(i, WhenTerminated)
  }

  /** A hold keeps the promise except in one case: the control plane had no
      status for a running pod, so the stop silently skipped it, and the record
      was marked all the same. */
  lemma HoldKeepsClean(i: Instance, canStop: bool, f: HoldFaults)
    requires Clean(i)
    ensures Clean(HoldOne(i, canStop, f).0) <==>
            !(canStop && f.loads && i.record.sealed.Some? && !i.cached && i.pod &&
              i.record.status in {Pending, Running} && Applied(f.mark))
  {
  }

  /** A removal keeps it except when a scoped delete silently skipped
      something that exists. */
  lemma RemoveKeepsClean(i: Instance, scoped: bool, f: RemoveFaults)
    requires Clean(i)
    ensures Clean(RemoveOne(i, scoped, f).0) <==>
            !(scoped && !i.cached && (i.pod || i.disk) && Applied(f.mark))
  {
  }

  /** A reconciliation keeps it except when a record that is neither stopped
      nor terminated vanishes from the listing, or is listed as terminated,
      while a pod or a disk is still there. */
  lemma ReconcileKeepsClean(i: Instance, seen: Option<Observed>, recent: bool, write: WriteOutcome)
    requires Clean(i)
    ensures Clean(ReconcileOne(i, seen, recent, write)) <==> !Strands(i, seen, write)
  {
  }

  predicate Strands(i: Instance, seen: Option<Observed>, write: WriteOutcome) {
    && i.record.status != Stopped && i.record.status != Terminated
    && (seen.None? || seen.value == SeenTerminated)
    && (i.pod || i.disk) && Applied(write)
  }

  /** Holding never destroys a disk, never stops anything on a cluster that
      cannot keep disks, and never stops anything that could not be started
      again. */
  lemma HoldIsSafe(i: Instance, canStop: bool, f: HoldFaults)
    ensures var (j, held) := HoldOne(i, canStop, f);
            && j.disk == i.disk && j.record.sealed == i.record.sealed
            && (j != i ==> canStop && i.record.sealed.Some?)
            && (j.record.status != i.record.status ==> j.record.status == Stopped && i.record.status in {Pending, Running})
            && (held <==> canStop && f.loads && i.record.sealed.Some? && (i.cached ==> f.stop.StopDone?) && f.mark.Written?)
            && (held ==> (i.cached ==> !j.pod) && (j.record.status == Stopped || i.record.status !in {Pending, Running}))
  {
  }

  /** What a removal reports, and what is then true: it counts as done exactly
      if the deletion went through, or found nothing to scope it to, and the
      record was marked; nothing is then left of an instance that was found. */
  lemma RemovalMeans(i: Instance, scoped: bool, f: RemoveFaults)
    ensures var (j, done) := RemoveOne(i, scoped, f);
            && (done <==> ((scoped && !i.cached) || f.delete.DeleteDone?) && f.mark.Written?)
            && (done ==> j.record.status == Terminated && (i.cached || !scoped ==> !j.pod && !j.disk && !j.cached))
            && (j.record.status == Terminated <==>
                i.record.status == Terminated || (((scoped && !i.cached) || f.delete.DeleteDone?) && Applied(f.mark)))
            && (j.record == i.record || j.record == i.record.(status := Terminated))
            && ((i.cached || !scoped) && f.delete.DeleteFailed? ==>
                (j.pod <==> i.pod && !f.delete.podGone) && (j.disk <==> i.disk && !f.delete.diskGone))
  {
  }

  // ---------------------------------------------------------------------
  // Start
  // ---------------------------------------------------------------------

  const CREDIT_FLOOR := 0.000001
  const LAUNCH_RUNWAY_HOURS := 0.25

  datatype Verdict = Unknown | Refused | Allowed

  datatype Allocation = AllocationFailed | Allocation(
    resourceName: string, quantity: int, allocatedVram: int, nodeName: string, instanceType: string, simulated: bool)

  /** Everything StartInstance asks of the outside. */
  datatype StartEnv = StartEnv(
    vault: bool,
    gate: Option<Verdict>,               // None: no payment gate on this deployment
    afford: Option<real -> Verdict>,     // None: no credit guard
    hourlyPrice: real,                   // price of the instance's VRAM
    loads: bool,
    allocate: Option<Allocation>,        // None: no GPU allocator
    create: CreateOutcome,
    mark: WriteOutcome,
    canStop: bool,
    undo: StopOutcome)

  datatype Response =
    | NotFound | NotImplemented | BillingUnavailable | PaymentMethodRequired | InsufficientCredit
    | SpecNotSaved | SpecUnreadable | NoGpu | Unreachable | GpuTaken | Broken | Started

  /** The credit a start must be able to pay for. */
  function Needed(r: Record, hourlyPrice: real): real {
    if r.gpuVramGB > 0 then hourlyPrice * LAUNCH_RUNWAY_HOURS else CREDIT_FLOOR
  }

  function Place(spec: Spec, a: Allocation): Spec
    requires a.Allocation?
  {
    spec.(placement := Placement(if a.simulated then "" else a.resourceName, if a.simulated then 0 else a.quantity,
                                 a.allocatedVram, a.nodeName, a.instanceType))
  }

  /** The refusals before anything is changed. */
  function Gatekeep(i: Instance, project: string, env: StartEnv): Option<Response> {
    if i.record.project != project || i.record.status != Stopped then Some(NotFound)
    else if !env.vault then Some(NotImplemented)
    else if env.gate == Some(Unknown) then Some(BillingUnavailable)
    else if env.gate == Some(Refused) then Some(PaymentMethodRequired)
    else if env.afford.Some? && env.afford.value(Needed(i.record, env.hourlyPrice)).Unknown? then Some(BillingUnavailable)
    else if env.afford.Some? && env.afford.value(Needed(i.record, env.hourlyPrice)).Refused? then Some(InsufficientCredit)
    else None
  }

  /** The spec to launch, or why there is none. */
  function LaunchSpec(id: Id, i: Instance, env: StartEnv): (r: Option<Spec>) {
    if !env.loads || i.record.sealed.None? || Open(id, i.record.sealed.value).None? then None
    else
      var spec := Open(id, i.record.sealed.value).value;
      if i.record.gpuVramGB > 0 && env.allocate.Some? then
        if env.allocate.value.AllocationFailed? then None else Some(Place(spec, env.allocate.value))
      else Some(spec)
  }

  function WhyNoSpec(id: Id, i: Instance, env: StartEnv): Response {
    if !env.loads || i.record.sealed.None? then SpecNotSaved
    else if Open(id, i.record.sealed.value).None? then SpecUnreadable
    else NoGpu
  }

  /** The instance afterwards, the answer, and the spec given to
      CreateInstance, if it was called. */
  datatype StartResult = StartResult(instance: Instance, response: Response, created: Option<Spec>)

  function StartOne(id: Id, i: Instance, project: string, env: StartEnv): StartResult {
    var refusal := Gatekeep(i, project, env);
    if refusal.Some? then StartResult(i, refusal.value, None)
    else
      var spec := LaunchSpec(id, i, env);
      if spec.None? then StartResult(i, WhyNoSpec(id, i, env), None)
      else
        var (up, ok) := CreatePod(i, spec.value, env.create);
        if !ok then
          StartResult(up, match env.create.error
            case ClusterUnavailable => Unreachable
            case ResourceExhausted => GpuTaken
            case OtherError => Broken, spec)
        else
          var (marked, changed) := MarkStarted(up, env.mark);
          if changed then StartResult(marked, Started, spec)
          else StartResult(if env.canStop then StopPod(marked, false, env.undo).0 else marked, Broken, spec)
  }

  /** A start keeps the records' promise except in two cases: a failed create
      left a pod after all, or the record could not be changed and the
      compensating stop did not end the pod either. */
  lemma StartKeepsClean(id: Id, i: Instance, project: string, env: StartEnv)
    requires Clean(i)
    ensures var r := StartOne(id, i, project, env);
            Clean(r.instance) <==>
            !(r.created.Some? &&
              (if env.create.CreateFailed? then env.create.podUp
               else !Applied(env.mark) && (env.canStop ==> env.undo.StopFailed? && !env.undo.podGone)))
  {
  }

  /** What a start launches: the saved spec, placed where the GPU allocator
      says now if the instance has a GPU slice and there is an allocator. */
  lemma StartPlacesAfresh(id: Id, i: Instance, project: string, env: StartEnv, spec: Spec)
    requires i.record.sealed == Some(Seal(spec)) && StartOne(id, i, project, env).created.Some?
    ensures var launched := StartOne(id, i, project, env).created.value;
            && launched.id == spec.id == id && launched.storageGB == spec.storageGB && launched.workload == spec.workload
            && if i.record.gpuVramGB > 0 && env.allocate.Some? then
                 var a := env.allocate.value;
                 && a.Allocation?
                 && launched.placement.nodeName == a.nodeName && launched.placement.instanceType == a.instanceType
                 && launched.placement.gpuVramGB == a.allocatedVram
                 && launched.placement.gpuResource == (if a.simulated then "" else a.resourceName)
                 && launched.placement.gpuQuantity == (if a.simulated then 0 else a.quantity)
               else launched == spec
    ensures var r := StartOne(id, i, project, env);
            var left := if env.create.CreateDone? then true else env.create.podUp;
            r.instance.disk <==> i.disk || (left && spec.storageGB > 0)
  {
  }

  /** The credit guard's answer, where there is one: a GPU instance must be able
      to pay for a quarter of an hour, any other for next to nothing. */
  function Credit(i: Instance, env: StartEnv): Verdict {
    if env.afford.None? then Allowed
    else env.afford.value(if i.record.gpuVramGB > 0 then env.hourlyPrice * 0.25 else 0.000001)
  }

  /** What each answer tells: no answer but the one that fits, and each refusal
      only after the checks before it were passed. */
  lemma AnswersTell(id: Id, i: Instance, project: string, env: StartEnv)
    ensures var r := StartOne(id, i, project, env);
            var stopped := i.record.project == project && i.record.status == Stopped;
            var payable := stopped && env.vault && (env.gate.None? || env.gate.value == Allowed);
            && (r.response == NotFound <==> !stopped)
            && (r.response == NotImplemented <==> stopped && !env.vault)
            && (r.response == PaymentMethodRequired <==> stopped && env.vault && env.gate == Some(Refused))
            && (r.response == InsufficientCredit <==> payable && Credit(i, env) == Refused)
            && (r.response == BillingUnavailable <==>
                (stopped && env.vault && env.gate == Some(Unknown)) || (payable && Credit(i, env) == Unknown))
            && (r.response in {SpecNotSaved, SpecUnreadable, NoGpu} <==>
                payable && Credit(i, env) == Allowed && r.created.None?)
            && (r.response == SpecNotSaved <==>
                payable && Credit(i, env) == Allowed && (!env.loads || i.record.sealed.None?))
            && (r.response == NoGpu ==> env.allocate == Some(AllocationFailed) && i.record.gpuVramGB > 0)
            && (r.response == Unreachable <==>
                r.created.Some? && env.create.CreateFailed? && env.create.error == ClusterUnavailable)
            && (r.response == GpuTaken <==>
                r.created.Some? && env.create.CreateFailed? && env.create.error == ResourceExhausted)
            && (r.response == SpecUnreadable ==> forall spec: Spec | spec.id == id :: i.record.sealed != Some(Seal(spec)))
  {
  }

  /** CreateInstance is reached exactly when every gate said yes and the saved
      spec could be opened and placed; otherwise nothing changes at all. */
  lemma CreateOnlyAfterGates(id: Id, i: Instance, project: string, env: StartEnv)
    ensures var r := StartOne(id, i, project, env);
            && (r.created.None? ==> r.instance == i)
            && (r.created.Some? <==>
                && i.record.project == project && i.record.status == Stopped && env.vault
                && (env.gate.Some? ==> env.gate.value == Allowed)
                && (env.afford.Some? ==> env.afford.value(Needed(i.record, env.hourlyPrice)).Allowed?)
                && env.loads && i.record.sealed.Some? && Open(id, i.record.sealed.value).Some?
                && (i.record.gpuVramGB > 0 && env.allocate.Some? ==> env.allocate.value.Allocation?))
            && (r.response == Started <==>
                r.created.Some? && env.create.CreateDone? && env.mark.Written?)
  {
  }

  // ---------------------------------------------------------------------
  // Bulk operations
  // ---------------------------------------------------------------------

  /** The instances afterwards, the ids that succeeded and those that failed. */
  datatype Batch = Batch(instances: map<Id, Instance>, done: seq<Id>, failed: seq<Id>)

  /** The loop over the first n of the listed instances, touching the wanted
      ones. */
  function Each(m: map<Id, Instance>, listed: seq<Id>, wanted: set<Id>,
                one: (Id, Instance) -> (Instance, bool), n: nat): (b: Batch)
    requires n <= |listed| && forall id | id in listed :: id in m
    ensures b.instances.Keys == m.Keys
  {
    if n == 0 then Batch(m, [], [])
    else
      var b := Each(m, listed, wanted, one, n - 1);
      var id := listed[n - 1];
      if id !in wanted then b
      else
        var (i, ok) := one(id, b.instances[id]);
        Batch(b.instances[id := i],
              if ok then b.done + [id] else b.done,
              if ok then b.failed else b.failed + [id])
  }

  predicate Distinct(ids: seq<Id>) {
    forall i, j | 0 <= i < j < |ids| :: ids[i] != ids[j]
  }

  /** What the loop does to one instance depends on that instance alone. */
  lemma {:induction false} EachActsAlone(m: map<Id, Instance>, listed: seq<Id>, wanted: set<Id>,
                                         one: (Id, Instance) -> (Instance, bool), n: nat, id: Id)
    requires n <= |listed| && Distinct(listed) && id in m && forall x | x in listed :: x in m
    ensures Each(m, listed, wanted, one, n).instances[id] ==
            if id in wanted && id in listed[..n] then one(id, m[id]).0 else m[id]
  {
    if n > 0 {
      EachActsAlone(m, listed, wanted, one, n - 1, id);
      assert listed[..n] == listed[..n - 1] + [listed[n - 1]];
      if id == listed[n - 1] {
        assert forall k | 0 <= k < n - 1 :: listed[k] != id;
      }
    }
  }

  lemma TakeOneMore(listed: seq<Id>, n: nat)
    requires 0 < n <= |listed| && Distinct(listed)
    ensures listed[n - 1] !in listed[..n - 1]
    ensures forall id :: id in listed[..n] <==> id in listed[..n - 1] || id == listed[n - 1]
  {
    assert listed[..n] == listed[..n - 1] + [listed[n - 1]];
  }

  /** Every listed and wanted instance is on one of the two lists, by what its
      own calls did, and nothing else is. */
  lemma {:induction false} EachSorts(m: map<Id, Instance>, listed: seq<Id>, wanted: set<Id>,
                                     one: (Id, Instance) -> (Instance, bool), n: nat, id: Id)
    requires n <= |listed| && Distinct(listed) && forall x | x in listed :: x in m
    ensures var b := Each(m, listed, wanted, one, n);
            && (id in b.done <==> id in wanted && id in listed[..n] && one(id, m[id]).1)
            && (id in b.failed <==> id in wanted && id in listed[..n] && !one(id, m[id]).1)
  {
    if n > 0 {
      EachSorts(m, listed, wanted, one, n - 1, id);
      EachActsAlone(m, listed, wanted, one, n - 1, listed[n - 1]);
      TakeOneMore(listed, n);
    }
  }

  /** And it is there once. */
  lemma {:induction false} EachCounts(m: map<Id, Instance>, listed: seq<Id>, wanted: set<Id>,
                                      one: (Id, Instance) -> (Instance, bool), n: nat, id: Id)
    requires n <= |listed| && Distinct(listed) && forall x | x in listed :: x in m
    ensures var b := Each(m, listed, wanted, one, n);
            multiset(b.done)[id] + multiset(b.failed)[id] == if id in wanted && id in listed[..n] then 1 else 0
  {
    if n > 0 {
      EachCounts(m, listed, wanted, one, n - 1, id);
      TakeOneMore(listed, n);
    }
  }

  /** Bookkeeping: every listed and wanted instance is accounted for exactly
      once, as a success or as a failure by what its own calls did, and nothing
      else is mentioned. */
  lemma EachAccounts(m: map<Id, Instance>, listed: seq<Id>, wanted: set<Id>,
                     one: (Id, Instance) -> (Instance, bool), n: nat, id: Id)
    requires n <= |listed| && Distinct(listed) && forall x | x in listed :: x in m
    ensures var b := Each(m, listed, wanted, one, n);
            && (id in b.done <==> id in wanted && id in listed[..n] && one(id, m[id]).1)
            && (id in b.failed <==> id in wanted && id in listed[..n] && !one(id, m[id]).1)
            && multiset(b.done)[id] + multiset(b.failed)[id] == if id in wanted && id in listed[..n] then 1 else 0
  {
    EachSorts(m, listed, wanted, one, n, id);
    EachCounts(m, listed, wanted, one, n, id);
  }

  /** Of a bulk removal: an instance is reported as ended exactly if it was asked
      for and active, its own deletion went through, or found nothing to scope
      it to, and its record was marked. And what is reported as ended is
      terminated, with nothing left of what the deletion could find. */
  lemma EndedMeans(m: map<Id, Instance>, listed: seq<Id>, wanted: set<Id>, scoped: bool,
                   faults: Id -> RemoveFaults, id: Id)
    requires Distinct(listed) && forall x | x in listed :: x in m
    ensures var b := Each(m, listed, wanted, (x, i) => RemoveOne(i, scoped, faults(x)), |listed|);
            && (id in b.done <==>
                && id in wanted && id in listed
                && ((scoped && !m[id].cached) || faults(id).delete.DeleteDone?) && faults(id).mark.Written?)
            && (id in b.done ==>
                && b.instances[id].record.status == Terminated
                && (m[id].cached || !scoped ==> !b.instances[id].pod && !b.instances[id].disk))
  {
    EachAccounts(m, listed, wanted, (x, i) => RemoveOne(i, scoped, faults(x)), |listed|, id);
    assert listed[..|listed|] == listed;
    if id in wanted && id in listed {
      EachActsAlone(m, listed, wanted, (x, i) => RemoveOne(i, scoped, faults(x)), |listed|, id);
      RemovalMeans(m[id], scoped, faults(id));
    }
  }

  /** ListActiveByAccount, ListStoppedByAccount. */
  predicate Active(r: Record, account: string) { r.account == account && r.status != Terminated }
  predicate Held(r: Record, account: string) { r.account == account && r.status == Stopped }

  ghost predicate Lists(m: map<Id, Instance>, listed: seq<Id>, p: Record -> bool) {
    Distinct(listed) && forall id :: id in listed <==> id in m && p(m[id].record)
  }

  function Seen(seen: map<Id, Observed>, id: Id): Option<Observed> {
    if id in seen then Some(seen[id]) else None
  }

  /** A plain status update. */
  function Overwrite(status: Status): (Instance, WriteOutcome) -> (Instance, bool) {
    (i: Instance, out: WriteOutcome) =>
      (if Applied(out) then i.(record := i.record.(status := status)) else i, out.Written?)
  }

  function Members(ids: seq<Id>): set<Id> {
    set id | id in ids
  }

  /** The records of done reconciled, the others as they were. */
  function Reconciled(m: map<Id, Instance>, done: set<Id>, seen: map<Id, Observed>, recent: set<Id>,
                      writes: Id -> WriteOutcome): map<Id, Instance> {
    map id | id in m :: if id in done then ReconcileOne(m[id], Seen(seen, id), id in recent, writes(id)) else m[id]
  }

  function ReconcileAll(m: map<Id, Instance>, seen: map<Id, Observed>, recent: set<Id>,
                        writes: Id -> WriteOutcome): map<Id, Instance> {
    map id | id in m :: ReconcileOne(m[id], Seen(seen, id), id in recent, writes(id))
  }

  lemma OneMoreReconciled(m: map<Id, Instance>, ids: seq<Id>, n: nat, before: set<Id>, seen: map<Id, Observed>,
                          recent: set<Id>, writes: Id -> WriteOutcome)
    requires n < |ids| && Distinct(ids) && ids[n] in m && ids[n] !in before
    ensures var done, id := before + Members(ids[..n]), ids[n];
            && id !in done
            && Reconciled(m, before + Members(ids[..n + 1]), seen, recent, writes) ==
               Reconciled(m, done, seen, recent, writes)[
                 id := ReconcileOne(m[id], Seen(seen, id), id in recent, writes(id))]
            && Reconciled(m, done, seen, recent, writes)[id] == m[id]
  {
    TakeOneMore(ids, n + 1);
  }

  class Platform {
    /** Whether the cluster client can stop an instance and keep its disk. */
    const canStop: bool
    var instances: map<Id, Instance>

    constructor (canStop: bool, instances: map<Id, Instance>)
      ensures this.canStop == canStop && this.instances == instances
    {
      this.canStop := canStop;
      this.instances := instances;
    }

    // The outside calls, one by one.

    method StopInstance(scoped: bool, id: Id, out: StopOutcome) returns (ok: bool)
      requires id in instances
      modifies this
      ensures instances == old(instances)[id := StopPod(old(instances)[id], scoped, out).0]
      ensures ok == StopPod(old(instances)[id], scoped, out).1
    {
      var (i, r) := StopPod(instances[id], scoped, out);
      instances, ok := instances[id := i], r;
    }

    method DeleteInstance(scoped: bool, id: Id, out: DeleteOutcome) returns (ok: bool)
      requires id in instances
      modifies this
      ensures instances == old(instances)[id := DeleteAll(old(instances)[id], scoped, out).0]
      ensures ok == DeleteAll(old(instances)[id], scoped, out).1
    {
      var (i, r) := DeleteAll(instances[id], scoped, out);
      instances, ok := instances[id := i], r;
    }

    method CreateInstance(id: Id, spec: Spec, out: CreateOutcome) returns (ok: bool)
      requires id in instances
      modifies this
      ensures instances == old(instances)[id := CreatePod(old(instances)[id], spec, out).0]
      ensures ok == CreatePod(old(instances)[id], spec, out).1
    {
      var (i, r) := CreatePod(instances[id], spec, out);
      instances, ok := instances[id := i], r;
    }

    method Mark(id: Id, mark: (Instance, WriteOutcome) -> (Instance, bool), out: WriteOutcome) returns (ok: bool)
      requires id in instances
      modifies this
      ensures instances == old(instances)[id := mark(old(instances)[id], out).0]
      ensures ok == mark(old(instances)[id], out).1
    {
      var (i, r) := mark(instances[id], out);
      instances, ok := instances[id := i], r;
    }

    /** One turn of HoldInstances. */
    method HoldInstance(id: Id, f: HoldFaults) returns (ok: bool)
      requires id in instances
      modifies this
      ensures instances == old(instances)[id := HoldOne(old(instances)[id], canStop, f).0]
      ensures ok == HoldOne(old(instances)[id], canStop, f).1
    {
      assert instances == instances[id := instances[id]];
      if !canStop {
        return false;
      }
      if !f.loads || instances[id].record.sealed.None? {
        return false;
      }
      ok := StopInstance(true, id, f.stop);
      if !ok {
        return;
      }
      ok := Mark(id, MarkStopped, f.mark);
    }

    /** computeStopper.HoldInstances. */
    method HoldInstances(listed: Option<seq<Id>>, account: string, ids: seq<Id>, faults: Id -> HoldFaults)
      returns (held: seq<Id>, errs: seq<Id>)
      requires listed.Some? ==> Lists(instances, listed.value, r => Active(r, account))
      modifies this
      ensures listed.None? ==> instances == old(instances) && held == []
      ensures listed.Some? ==>
        Batch(instances, held, errs) ==
        Each(old(instances), listed.value, set id | id in ids, (id, i) => HoldOne(i, canStop, faults(id)), |listed.value|)
    {
      held, errs := [], [];
      if listed.None? {
        return;
      }
      var active := listed.value;
      var want := set id | id in ids;
      ghost var m := instances;
      ghost var one := (id, i) => HoldOne(i, canStop, faults(id));
      for n := 0 to |active|
        invariant instances.Keys == m.Keys
        invariant Batch(instances, held, errs) == Each(m, active, want, one, n)
      {
        var id := active[n];
        if id !in want {
          continue;
        }
        var ok := HoldInstance(id, faults(id));
        if ok {
          held := held + [id];
        } else {
          errs := errs + [id];
        }
      }
    }

    /** The shared loop of StopInstances, SuspendAccountResources and
        PurgeAccount. */
    method RemoveEach(listed: seq<Id>, want: set<Id>, scoped: bool, faults: Id -> RemoveFaults)
      returns (removed: seq<Id>, errs: seq<Id>)
      requires forall id | id in listed :: id in instances
      modifies this
      ensures Batch(instances, removed, errs) ==
              Each(old(instances), listed, want, (id, i) => RemoveOne(i, scoped, faults(id)), |listed|)
    {
      removed, errs := [], [];
      ghost var m := instances;
      ghost var one := (id, i) => RemoveOne(i, scoped, faults(id));
      for n := 0 to |listed|
        invariant instances.Keys == m.Keys
        invariant Batch(instances, removed, errs) == Each(m, listed, want, one, n)
      {
        var id := listed[n];
        if id !in want {
          continue;
        }
        var ok := DeleteInstance(scoped, id, faults(id).delete);
        if !ok {
          errs := errs + [id];
          continue;
        }
        ok := Mark(id, MarkTerminated, faults(id).mark);
        if !ok {
          errs := errs + [id];
          continue;
        }
        removed := removed + [id];
      }
    }

    /** computeStopper.StopInstances: scoped to each instance's own project. */
    method StopInstances(listed: Option<seq<Id>>, account: string, ids: seq<Id>, faults: Id -> RemoveFaults)
      returns (stopped: seq<Id>, errs: seq<Id>)
      requires listed.Some? ==> Lists(instances, listed.value, r => Active(r, account))
      modifies this
      ensures listed.None? ==> instances == old(instances) && stopped == []
      ensures listed.Some? ==>
        Batch(instances, stopped, errs) ==
        Each(old(instances), listed.value, set id | id in ids, (id, i) => RemoveOne(i, true, faults(id)), |listed.value|)
    {
      stopped, errs := [], [];
      if listed.Some? {
        stopped, errs := RemoveEach(listed.value, set id | id in ids, true, faults);
      }
    }

    /** resourceSuspender.SuspendAccountResources: everything the account has,
        answering with the number it ended. */
    method SuspendAccountResources(listed: Option<seq<Id>>, account: string, faults: Id -> RemoveFaults)
      returns (stopped: nat)
      requires listed.Some? ==> Lists(instances, listed.value, r => Active(r, account))
      modifies this
      ensures listed.None? ==> instances == old(instances) && stopped == 0
      ensures listed.Some? ==>
        var b := Each(old(instances), listed.value, old(instances).Keys,
                      (id, i) => RemoveOne(i, true, faults(id)), |listed.value|);
        instances == b.instances && stopped == |b.done|
    {
      stopped := 0;
      if listed.Some? {
        var removed, _ := RemoveEach(listed.value, instances.Keys, true, faults);
        stopped := |removed|;
      }
    }

    /** heldDisks.PurgeAccount: every stopped instance, unscoped. */
    method PurgeAccount(listed: Option<seq<Id>>, account: string, faults: Id -> RemoveFaults) returns (errs: seq<Id>)
      requires listed.Some? ==> Lists(instances, listed.value, r => Held(r, account))
      modifies this
      ensures listed.None? ==> instances == old(instances)
      ensures listed.Some? ==>
        var b := Each(old(instances), listed.value, old(instances).Keys,
                      (id, i) => RemoveOne(i, false, faults(id)), |listed.value|);
        instances == b.instances && errs == b.failed
    {
      errs := [];
      if listed.Some? {
        var _, failed := RemoveEach(listed.value, instances.Keys, false, faults);
        errs := failed;
      }
    }

    /** Server.deleteStoppedInstance, with the lookup before it. */
    method DeleteStoppedInstance(id: Id, project: string, f: RemoveFaults) returns (deleted: bool)
      requires id in instances
      modifies this
      ensures var i := old(instances)[id];
              if i.record.project == project && i.record.status == Stopped
              then instances == old(instances)[id := RemoveOne(i, false, f).0] && deleted == DeleteAll(i, false, f.delete).1
              else instances == old(instances) && !deleted
    {
      var rec := instances[id].record;
      if rec.project != project || rec.status != Stopped {
        return false;
      }
      deleted := DeleteInstance(false, id, f.delete);
      if deleted {
        // a failure to finalise the record is only a warning
        var _ := Mark(id, MarkTerminated, f.mark);
      }
    }

    /** StartInstance up to the point where it starts asking for things. */
    method CheckGates(id: Id, project: string, env: StartEnv) returns (refusal: Option<Response>)
      requires id in instances
      ensures refusal == Gatekeep(instances[id], project, env)
    {
      var rec := instances[id].record;
      if rec.project != project || rec.status != Stopped {
        return Some(NotFound);
      }
      if !env.vault {
        return Some(NotImplemented);
      }
      if env.gate.Some? {
        if env.gate.value == Unknown {
          return Some(BillingUnavailable);
        }
        if env.gate.value == Refused {
          return Some(PaymentMethodRequired);
        }
      }
      if env.afford.Some? {
        var need := CREDIT_FLOOR;
        if rec.gpuVramGB > 0 {
          need := env.hourlyPrice * LAUNCH_RUNWAY_HOURS;
        }
        var verdict := env.afford.value(need);
        if verdict == Unknown {
          return Some(BillingUnavailable);
        }
        if verdict == Refused {
          return Some(InsufficientCredit);
        }
      }
      refusal := None;
    }

    /** The saved spec, with a GPU slice allocated afresh. */
    method PrepareSpec(id: Id, env: StartEnv) returns (spec: Option<Spec>, why: Response)
      requires id in instances
      ensures spec == LaunchSpec(id, instances[id], env)
      ensures spec.None? ==> why == WhyNoSpec(id, instances[id], env)
    {
      var rec := instances[id].record;
      if !env.loads || rec.sealed.None? {
        return None, SpecNotSaved;
      }
      spec := Open(id, rec.sealed.value);
      if spec.None? {
        return None, SpecUnreadable;
      }
      why := Broken;
      if rec.gpuVramGB > 0 && env.allocate.Some? {
        var allocation := env.allocate.value;
        if allocation.AllocationFailed? {
          return None, NoGpu;
        }
        var resource, quantity := "", 0;
        if !allocation.simulated {
          resource, quantity := allocation.resourceName, allocation.quantity;
        }
        spec := Some(spec.value.(placement := Placement(resource, quantity, allocation.allocatedVram,
                                                        allocation.nodeName, allocation.instanceType)));
      }
    }

    /** Server.StartInstance. */
    method StartInstance(id: Id, project: string, env: StartEnv) returns (response: Response, created: Option<Spec>)
      requires id in instances
      modifies this
      ensures var r := StartOne(id, old(instances)[id], project, env);
              instances == old(instances)[id := r.instance] && response == r.response && created == r.created
    {
      assert instances == instances[id := instances[id]];
      var refusal := CheckGates(id, project, env);
      if refusal.Some? {
        return refusal.value, None;
      }
      created, response := PrepareSpec(id, env);
      if created.None? {
        return;
      }
      var ok := CreateInstance(id, created.value, env.create);
      if !ok {
        response := match env.create.error
          case ClusterUnavailable => Unreachable
          case ResourceExhausted => GpuTaken
          case OtherError => Broken;
        return;
      }
      var changed := Mark(id, MarkStarted, env.mark);
      if !changed {
        if env.canStop {
          var _ := StopInstance(false, id, env.undo);
        }
        return Broken, created;
      }
      response := Started;
    }

    /** One record of a reconciliation. */
    method ReconcileRecord(id: Id, seen: Option<Observed>, recent: bool, write: WriteOutcome)
      requires id in instances && (recent <==> instances[id].record.status == Terminated)
      modifies this
      ensures instances == old(instances)[id := ReconcileOne(old(instances)[id], seen, recent, write)]
    {
      var i := instances[id];
      assert instances == instances[id := i];
      if recent {
        if seen.None? || seen.value !in {SeenPending, SeenRunning} {
          return;
        }
        var _ := Mark(id, Overwrite(StatusOf(seen.value)), write);
        return;
      }
      if i.record.status == Stopped {
        return;
      }
      if seen.None? || seen.value == SeenTerminated {
        var _ := Mark(id, MarkTerminated, write);
        return;
      }
      if i.record.status == StatusOf(seen.value) {
        assert i.(record := i.record.(status := StatusOf(seen.value))) == i;
        return;
      }
      var _ := Mark(id, Overwrite(StatusOf(seen.value)), write);
    }

    /** Reconciler.Reconcile: every active record, then those terminated not
        long ago. Nothing is touched if a list cannot be read. */
    method Reconcile(active: seq<Id>, recent: seq<Id>, seen: Option<map<Id, Observed>>, writes: Id -> WriteOutcome)
      requires Lists(instances, active, (r: Record) => r.status != Terminated)
      requires Distinct(recent) && forall id | id in recent :: id in instances && instances[id].record.status == Terminated
      modifies this
      ensures seen.None? ==> instances == old(instances)
      ensures seen.Some? ==>
        instances == ReconcileAll(old(instances), seen.value, Members(recent), writes)
    {
      if seen.None? {
        return;
      }
      ghost var m, late := instances, Members(recent);
      for n := 0 to |active|
        invariant instances == Reconciled(m, {} + Members(active[..n]), seen.value, late, writes)
      {
        OneMoreReconciled(m, active, n, {}, seen.value, late, writes);
        ReconcileRecord(active[n], Seen(seen.value, active[n]), false, writes(active[n]));
      }
      assert active[..|active|] == active;
      ghost var done := Members(active);
      for n := 0 to |recent|
        invariant instances == Reconciled(m, done + Members(recent[..n]), seen.value, late, writes)
      {
        OneMoreReconciled(m, recent, n, done, seen.value, late, writes);
        ReconcileRecord(recent[n], Seen(seen.value, recent[n]), true, writes(recent[n]));
      }
      assert recent[..|recent|] == recent;
    }
  }

  // ---------------------------------------------------------------------
  // Runs
  // ---------------------------------------------------------------------

  datatype Op =
    | Launch(id: Id, instance: Instance)
    | Redeploy(id: Id, vault: bool, spec: Spec, sealWorks: bool, save: WriteOutcome)
    | PodEnds(id: Id)
    | Reconcile(seen: map<Id, Observed>, recent: set<Id>, writes: Id -> WriteOutcome)
    | CacheChanges(cached: set<Id>)
    | Hold(account: string, wanted: set<Id>, listed: seq<Id>, holdFaults: Id -> HoldFaults)
    | StopForCredit(account: string, wanted: set<Id>, listed: seq<Id>, faults: Id -> RemoveFaults)
    | Suspend(account: string, listed: seq<Id>, faults: Id -> RemoveFaults)
    | Purge(account: string, listed: seq<Id>, faults: Id -> RemoveFaults)
    | DeleteStopped(id: Id, project: string, deleteFaults: RemoveFaults)
    | Start(id: Id, project: string, env: StartEnv)

  /** What an operation may be asked of: the store's own lists, a fresh id. */
  ghost predicate Allows(m: map<Id, Instance>, canStop: bool, op: Op) {
    match op
    case Launch(id, i) => id !in m && i.record.status == Pending
    case Redeploy(id, _, spec, _, _) => id in m && spec.id == id
    case PodEnds(id) => id in m
    case Reconcile(_, _, _) => true
    case CacheChanges(_) => true
    case Hold(account, _, listed, _) => Lists(m, listed, r => Active(r, account))
    case StopForCredit(account, _, listed, _) => Lists(m, listed, r => Active(r, account))
    case Suspend(account, listed, _) => Lists(m, listed, r => Active(r, account))
    case Purge(account, listed, _) => Lists(m, listed, r => Held(r, account))
    case DeleteStopped(id, _, _) => id in m
    case Start(id, _, env) => id in m && env.canStop == canStop
  }

  ghost function Perform(m: map<Id, Instance>, canStop: bool, op: Op): map<Id, Instance>
    requires Allows(m, canStop, op)
  {
    match op
    case Launch(id, i) => m[id := i]
    case Redeploy(id, vault, spec, sealWorks, save) => m[id := SaveSpec(m[id], vault, spec, sealWorks, save)]
    case PodEnds(id) => m[id := m[id].(pod := false)]
    case Reconcile(seen, recent, writes) => ReconcileAll(m, seen, recent, writes)
    case CacheChanges(cached) => map id | id in m :: m[id].(cached := id in cached)
    case Hold(_, wanted, listed, f) => Each(m, listed, wanted, (id, i) => HoldOne(i, canStop, f(id)), |listed|).instances
    case StopForCredit(_, wanted, listed, f) =>
      Each(m, listed, wanted, (id, i) => RemoveOne(i, true, f(id)), |listed|).instances
    case Suspend(_, listed, f) => Each(m, listed, m.Keys, (id, i) => RemoveOne(i, true, f(id)), |listed|).instances
    case Purge(_, listed, f) => Each(m, listed, m.Keys, (id, i) => RemoveOne(i, false, f(id)), |listed|).instances
    case DeleteStopped(id, project, f) =>
      if m[id].record.project == project && m[id].record.status == Stopped
      then m[id := RemoveOne(m[id], false, f).0] else m
    case Start(id, project, env) => m[id := StartOne(id, m[id], project, env).instance]
  }

  /** What an operation does to the instance id, seen from that instance. */
  function Effect(i: Instance, canStop: bool, op: Op, id: Id): Instance {
    match op
    case Redeploy(x, vault, spec, sealWorks, save) => if x == id then SaveSpec(i, vault, spec, sealWorks, save) else i
    case PodEnds(x) => if x == id then i.(pod := false) else i
    case Reconcile(seen, recent, writes) => ReconcileOne(i, Seen(seen, id), id in recent, writes(id))
    case CacheChanges(cached) => i.(cached := id in cached)
    case Hold(account, wanted, _, f) =>
      if id in wanted && Active(i.record, account) then HoldOne(i, canStop, f(id)).0 else i
    case StopForCredit(account, wanted, _, f) =>
      if id in wanted && Active(i.record, account) then RemoveOne(i, true, f(id)).0 else i
    case Suspend(account, _, f) => if Active(i.record, account) then RemoveOne(i, true, f(id)).0 else i
    case Purge(account, _, f) => if Held(i.record, account) then RemoveOne(i, false, f(id)).0 else i
    case DeleteStopped(x, project, f) =>
      if x == id && i.record.project == project && i.record.status == Stopped then RemoveOne(i, false, f).0 else i
    case Start(x, project, env) => if x == id then StartOne(id, i, project, env).instance else i
    case Launch(_, _) => i
  }

  /** Every operation, bulk or not, acts on each instance by itself. */
  lemma PerformActsAlone(m: map<Id, Instance>, canStop: bool, op: Op, id: Id)
    requires Allows(m, canStop, op) && id in m
    ensures id in Perform(m, canStop, op)
    ensures Perform(m, canStop, op)[id] == Effect(m[id], canStop, op, id)
  {
    match op
    case Hold(_, wanted, listed, f) =>
      assert listed[..|listed|] == listed;
      EachActsAlone(m, listed, wanted, (x, i) => HoldOne(i, canStop, f(x)), |listed|, id);
    case StopForCredit(_, wanted, listed, f) =>
      assert listed[..|listed|] == listed;
      EachActsAlone(m, listed, wanted, (x, i) => RemoveOne(i, true, f(x)), |listed|, id);
    case Suspend(_, listed, f) =>
      assert listed[..|listed|] == listed;
      EachActsAlone(m, listed, m.Keys, (x, i) => RemoveOne(i, true, f(x)), |listed|, id);
    case Purge(_, listed, f) =>
      assert listed[..|listed|] == listed;
      EachActsAlone(m, listed, m.Keys, (x, i) => RemoveOne(i, false, f(x)), |listed|, id);
    case _ =>
  }

  /** A bulk operation reaches only the account it is for, and there only what is
      still active and asked for - a purge only what is stopped; a purge that
      goes through leaves nothing of what it reached. */
  lemma ReachesOnly(m: map<Id, Instance>, canStop: bool, op: Op, id: Id)
    requires op.Hold? || op.StopForCredit? || op.Suspend? || op.Purge?
    requires Allows(m, canStop, op) && id in m
    ensures var (r, n) := (m[id].record, Perform(m, canStop, op));
            && id in n
            && (n[id] != m[id] ==> r.account == op.account && r.status != Terminated)
            && (n[id] != m[id] && (op.Hold? || op.StopForCredit?) ==> id in op.wanted)
            && (n[id] != m[id] && op.Purge? ==> r.status == Stopped)
            && (op.Purge? && r.account == op.account && r.status == Stopped
                && op.faults(id).delete.DeleteDone? && Applied(op.faults(id).mark) ==>
                n[id].record.status == Terminated && !n[id].pod && !n[id].disk)
            && (op.Suspend? && r.account == op.account && r.status != Terminated && m[id].cached
                && op.faults(id).delete.DeleteDone? && Applied(op.faults(id).mark) ==>
                n[id].record.status == Terminated && !n[id].pod && !n[id].disk)
  {
    PerformActsAlone(m, canStop, op, id);
  }

  /** What a reconciliation leaves, record by record. A record in use takes just
      the status the cluster lists, and is terminated if the cluster does not
      list it; one terminated not long ago takes it if it is alive. A stopped
      record, one whose write had no effect, and everything but the status of
      any record stays as it was. */
  lemma ReconcileShowsListing(m: map<Id, Instance>, canStop: bool, reconcile: Op, id: Id)
    requires reconcile.Reconcile? && id in m
    ensures var n, seen := Perform(m, canStop, reconcile), reconcile.seen;
            && n.Keys == m.Keys
            && var before, after := m[id].record.status, n[id].record.status;
            && n[id] == m[id].(record := m[id].record.(status := after))
            && (!Applied(reconcile.writes(id)) || before == Stopped ==> after == before)
            && (Applied(reconcile.writes(id)) && before !in {Stopped, Terminated} ==>
                && (id in seen && seen[id] == SeenPending ==> after == Pending)
                && (id in seen && seen[id] == SeenRunning ==> after == Running)
                && (id in seen && seen[id] == SeenFailed ==> after == Failed)
                && (id in seen && seen[id] == SeenTerminated ==> after == Terminated)
                && (id !in seen ==> after == Terminated))
            && (Applied(reconcile.writes(id)) && before == Terminated ==>
                && (id in reconcile.recent && id in seen && seen[id] == SeenPending ==> after == Pending)
                && (id in reconcile.recent && id in seen && seen[id] == SeenRunning ==> after == Running)
                && (id !in reconcile.recent || id !in seen || seen[id] in {SeenFailed, SeenTerminated} ==> after == Terminated))
  {
    PerformActsAlone(m, canStop, reconcile, id);
  }

  /** A redeploy with a disk saves the spec so that it can be opened again, if
      there is a vault and it can be written; otherwise the earlier one, if any,
      stays. */
  lemma RedeploySavesSpec(m: map<Id, Instance>, canStop: bool, redeploy: Op)
    requires redeploy.Redeploy? && Allows(m, canStop, redeploy)
    ensures var n, id := Perform(m, canStop, redeploy), redeploy.id;
            && id in n && n[id] == m[id].(record := m[id].record.(sealed := n[id].record.sealed))
            && if redeploy.vault && redeploy.spec.storageGB > 0 && redeploy.sealWorks
                  && Applied(redeploy.save) && m[id].record.status != Terminated
               then n[id].record.sealed.Some? && Open(id, n[id].record.sealed.value) == Some(redeploy.spec)
               else n[id].record.sealed == m[id].record.sealed
  {
  }

  /** The ways an operation can break a half of the records' promise for id,
      each visible beforehand in the record, the cache, the listing or the
      faults. */
  predicate Harms(half: Half, i: Instance, canStop: bool, op: Op, id: Id) {
    match op
    case Hold(account, wanted, _, f) =>
      half.WhenStopped? && id in wanted && Active(i.record, account) && !i.cached && i.pod
      && canStop && f(id).loads && i.record.sealed.Some? && i.record.status in {Pending, Running} && Applied(f(id).mark)
    case Start(x, project, env) =>
      half.WhenStopped? && x == id && StartOne(id, i, project, env).created.Some?
      && (if env.create.CreateFailed? then env.create.podUp
          else !Applied(env.mark) && (env.canStop ==> env.undo.StopFailed? && !env.undo.podGone))
    case StopForCredit(account, wanted, _, f) =>
      half.WhenTerminated? && id in wanted
      && Active(i.record, account) && !i.cached && (i.pod || i.disk) && Applied(f(id).mark)
    case Suspend(account, _, f) =>
      half.WhenTerminated? && Active(i.record, account) && !i.cached && (i.pod || i.disk) && Applied(f(id).mark)
    case Reconcile(seen, _, writes) => half.WhenTerminated? && Strands(i, Seen(seen, id), writes(id))
    case _ => false
  }

  /** Each operation keeps each half of the promise for every instance, whatever
      became of the other half, except exactly where it harms it. */
  lemma OpKeepsPromise(half: Half, m: map<Id, Instance>, canStop: bool, op: Op, id: Id)
    requires Allows(m, canStop, op) && id in m && Promise(m[id], half)
    ensures id in Perform(m, canStop, op)
    ensures Promise(Perform(m, canStop, op)[id], half) <==> !Harms(half, m[id], canStop, op, id)
  {
    PerformActsAlone(m, canStop, op, id);
    EffectKeepsPromise(half, m[id], canStop, op, id);
  }

  lemma EffectKeepsPromise(half: Half, i: Instance, canStop: bool, op: Op, id: Id)
    requires Promise(i, half)
    ensures Promise(Effect(i, canStop, op, id), half) <==> !Harms(half, i, canStop, op, id)
  {
  }

  ghost predicate Runs(m: map<Id, Instance>, canStop: bool, ops: seq<Op>)
    decreases ops
  {
    ops == [] || (Allows(m, canStop, ops[0]) && Runs(Perform(m, canStop, ops[0]), canStop, ops[1..]))
  }

  ghost function Outcome(m: map<Id, Instance>, canStop: bool, ops: seq<Op>): map<Id, Instance>
    requires Runs(m, canStop, ops)
    decreases ops
  {
    if ops == [] then m else Outcome(Perform(m, canStop, ops[0]), canStop, ops[1..])
  }

  /** No operation of the run harms this half of the promise for id. */
  ghost predicate Harmless(half: Half, m: map<Id, Instance>, canStop: bool, ops: seq<Op>, id: Id)
    requires Runs(m, canStop, ops)
    decreases ops
  {
    ops == [] ||
    ((id in m ==> !Harms(half, m[id], canStop, ops[0], id)) &&
     Harmless(half, Perform(m, canStop, ops[0]), canStop, ops[1..], id))
  }

  /** In every run, under every pattern of faults: stopped means no pod, for every
      instance that no hold or start has harmed; and terminated means no pod and
      no disk, for every instance that no credit stop, suspension or
      reconciliation has harmed. */
  lemma {:induction false} RunsKeepRecordsHonest(half: Half, m: map<Id, Instance>, canStop: bool, ops: seq<Op>, id: Id)
    requires Runs(m, canStop, ops) && Harmless(half, m, canStop, ops, id)
    requires id in m ==> Promise(m[id], half)
    ensures var n := Outcome(m, canStop, ops); id in n ==> Promise(n[id], half)
    decreases ops
  {
    if ops != [] {
      if id in m {
        OpKeepsPromise(half, m, canStop, ops[0], id);
      }
      RunsKeepRecordsHonest(half, Perform(m, canStop, ops[0]), canStop, ops[1..], id);
    }
  }

  /** And in every run without exception, a record is stopped only where the
      cluster can keep disks, with its spec saved. */
  lemma {:induction false} RunsStopOnlyStartable(m: map<Id, Instance>, canStop: bool, ops: seq<Op>, id: Id)
    requires Runs(m, canStop, ops)
    requires id in m && m[id].record.status == Stopped ==> canStop && m[id].record.sealed.Some?
    ensures var n := Outcome(m, canStop, ops);
            id in n && n[id].record.status == Stopped ==> canStop && n[id].record.sealed.Some?
    decreases ops
  {
    if ops != [] {
      if id in m {
        OnlyHoldsStop(m, canStop, ops[0], id);
      }
      RunsStopOnlyStartable(Perform(m, canStop, ops[0]), canStop, ops[1..], id);
    }
  }

  /** Only a hold makes a record stopped, and only where disks can be kept and
      the spec is saved. */
  lemma OnlyHoldsStop(m: map<Id, Instance>, canStop: bool, op: Op, id: Id)
    requires Allows(m, canStop, op) && id in m
    requires m[id].record.status == Stopped ==> canStop && m[id].record.sealed.Some?
    ensures var n := Perform(m, canStop, op);
            id in n && (n[id].record.status == Stopped ==>
              canStop && n[id].record.sealed.Some? && (m[id].record.status == Stopped || op.Hold?))
  {
    PerformActsAlone(m, canStop, op, id);
    EffectStops(m[id], canStop, op, id);
  }

  lemma EffectStops(i: Instance, canStop: bool, op: Op, id: Id)
    requires i.record.status == Stopped ==> canStop && i.record.sealed.Some?
    ensures var j := Effect(i, canStop, op, id);
            j.record.status == Stopped ==> canStop && j.record.sealed.Some? && (i.record.status == Stopped || op.Hold?)
  {
    if op.Hold? {
      HoldIsSafe(i, canStop, op.holdFaults(id));
    }
  }

  // ---------------------------------------------------------------------
  // Held until started
  // ---------------------------------------------------------------------

  /** The operations after which a held instance need not be there any more:
      deletions that reach it, a redeploy, and a start that is recorded. */
  predicate Disturbs(i: Instance, op: Op, id: Id) {
    match op
    case StopForCredit(account, wanted, _, _) => id in wanted && Active(i.record, account)
    case Suspend(account, _, _) => Active(i.record, account)
    case Purge(account, _, _) => Held(i.record, account)
    case DeleteStopped(x, project, _) => x == id && i.record.project == project
    case Redeploy(x, _, _, _, _) => x == id
    case Start(x, project, env) =>
      x == id && StartOne(id, i, project, env).created.Some? && env.create.CreateDone? && Applied(env.mark)
    case _ => false
  }

  ghost predicate Undisturbed(m: map<Id, Instance>, canStop: bool, ops: seq<Op>, id: Id)
    requires Runs(m, canStop, ops) && id in m
    decreases ops
  {
    ops == [] ||
    (!Disturbs(m[id], ops[0], id) && id in Perform(m, canStop, ops[0]) &&
     Undisturbed(Perform(m, canStop, ops[0]), canStop, ops[1..], id))
  }

  /** A stopped record with its disk and a readable spec. */
  predicate Startable(i: Instance, spec: Spec) {
    i.record.status == Stopped && i.disk && i.record.sealed == Some(Seal(spec))
  }

  lemma EffectKeepsStartable(i: Instance, canStop: bool, op: Op, id: Id, spec: Spec)
    requires Startable(i, spec) && !Disturbs(i, op, id)
    ensures Startable(Effect(i, canStop, op, id), spec)
    ensures Effect(i, canStop, op, id).record.gpuVramGB == i.record.gpuVramGB
  {
  }

  lemma {:induction false} StaysStartable(m: map<Id, Instance>, canStop: bool, ops: seq<Op>, id: Id, spec: Spec)
    requires Runs(m, canStop, ops) && id in m && Undisturbed(m, canStop, ops, id)
    requires Startable(m[id], spec)
    ensures var n := Outcome(m, canStop, ops);
            id in n && Startable(n[id], spec) && n[id].record.gpuVramGB == m[id].record.gpuVramGB
    decreases ops
  {
    if ops != [] {
      PerformActsAlone(m, canStop, ops[0], id);
      EffectKeepsStartable(m[id], canStop, ops[0], id, spec);
      StaysStartable(Perform(m, canStop, ops[0]), canStop, ops[1..], id, spec);
    }
  }

  /** No hold, whatever fails during it, takes a disk away. */
  lemma HoldsKeepDisks(m: map<Id, Instance>, canStop: bool, hold: Op, id: Id)
    requires hold.Hold? && Allows(m, canStop, hold) && id in m
    ensures id in Perform(m, canStop, hold) && Perform(m, canStop, hold)[id].disk == m[id].disk
  {
    PerformActsAlone(m, canStop, hold, id);
    HoldIsSafe(m[id], canStop, hold.holdFaults(id));
  }

  /** The gates that a start must pass, and the calls that must work. */
  ghost predicate StartGoesThrough(r: Record, project: string, env: StartEnv) {
    && r.project == project && env.vault
    && (env.gate.Some? ==> env.gate.value == Allowed)
    && (env.afford.Some? ==> env.afford.value(Needed(r, env.hourlyPrice)).Allowed?)
    && env.loads && (r.gpuVramGB > 0 && env.allocate.Some? ==> env.allocate.value.Allocation?)
    && env.create.CreateDone? && env.mark.Written?
  }

  lemma StartOfStartable(id: Id, i: Instance, spec: Spec, project: string, env: StartEnv)
    requires Startable(i, spec) && spec.id == id
    ensures var r := StartOne(id, i, project, env);
            && (r.response == Started <==> StartGoesThrough(i.record, project, env))
            && (r.response == Started ==>
                && r.instance.pod && r.instance.disk && r.instance.cached && r.instance.record.status == Pending
                && r.created.Some? && r.created.value.(placement := spec.placement) == spec
                && (i.record.gpuVramGB <= 0 || env.allocate.None? ==> r.created.value == spec))
  {
    CreateOnlyAfterGates(id, i, project, env);
  }

  /** A start of an id reported as held goes through, if its gates and calls
      do, unless its record says failed: the store does not mark a failed
      instance stopped, and the hold reports it as held all the same. */
  lemma HeldCanBeStarted(id: Id, i: Instance, spec: Spec, canStop: bool, f: HoldFaults, project: string, env: StartEnv)
    requires i.record.status != Terminated
    requires i.record.sealed == Some(Seal(spec)) && spec.id == id
    requires HoldOne(i, canStop, f).1
    ensures StartOne(id, HoldOne(i, canStop, f).0, project, env).response == Started
            <==> i.record.status != Failed && StartGoesThrough(i.record, project, env)
  {
    CreateOnlyAfterGates(id, HoldOne(i, canStop, f).0, project, env);
  }

  /** Hold and start are a round trip, whatever happens in between. An id the
      hold reported as held, of an instance that was pending or running with
      its spec saved, keeps its disk and its spec through any run that neither
      deletes, redeploys nor starts it. The start that follows goes through
      exactly if its gates say yes and its calls work, and then launches it on
      that disk with the saved spec, in every field but the placement of its
      GPU. */
  lemma HoldThenStart(m: map<Id, Instance>, canStop: bool, hold: Op, between: seq<Op>, id: Id, spec: Spec,
                      project: string, env: StartEnv)
    requires hold.Hold? && Allows(m, canStop, hold) && id in m
    requires m[id].disk && m[id].record.sealed == Some(Seal(spec)) && spec.id == id
    requires m[id].record.status in {Pending, Running}
    requires id in Each(m, hold.listed, hold.wanted, (x, i) => HoldOne(i, canStop, hold.holdFaults(x)), |hold.listed|).done
    requires var held := Perform(m, canStop, hold);
             Runs(held, canStop, between) && id in held && Undisturbed(held, canStop, between, id)
    ensures var n := Outcome(Perform(m, canStop, hold), canStop, between);
            && id in n
            && var r := StartOne(id, n[id], project, env);
            && (r.response == Started <==> StartGoesThrough(n[id].record, project, env))
            && (r.response == Started ==>
                && r.instance.pod && r.instance.disk && r.instance.cached && r.instance.record.status == Pending
                && r.created.Some? && r.created.value.(placement := spec.placement) == spec
                && (n[id].record.gpuVramGB <= 0 || env.allocate.None? ==> r.created.value == spec))
  {
    HeldIsStartable(m, canStop, hold, id, spec);
    StaysStartable(Perform(m, canStop, hold), canStop, between, id, spec);
    StartOfStartable(id, Outcome(Perform(m, canStop, hold), canStop, between)[id], spec, project, env);
  }

  lemma HeldIsStartable(m: map<Id, Instance>, canStop: bool, hold: Op, id: Id, spec: Spec)
    requires hold.Hold? && Allows(m, canStop, hold) && id in m
    requires m[id].disk && m[id].record.sealed == Some(Seal(spec)) && m[id].record.status in {Pending, Running}
    requires id in Each(m, hold.listed, hold.wanted, (x, i) => HoldOne(i, canStop, hold.holdFaults(x)), |hold.listed|).done
    ensures id in Perform(m, canStop, hold) && Startable(Perform(m, canStop, hold)[id], spec)
  {
    EachAccounts(m, hold.listed, hold.wanted, (x, i) => HoldOne(i, canStop, hold.holdFaults(x)), |hold.listed|, id);
    PerformActsAlone(m, canStop, hold, id);
    HoldsKeepDisks(m, canStop, hold, id);
  }

  // ---------------------------------------------------------------------
  // Disks that are left behind
  // ---------------------------------------------------------------------

  /** A hold whose stop went through leaves the instance without a cached
      status. */
  lemma HoldUncaches(i: Instance, canStop: bool, f: HoldFaults)
    requires HoldOne(i, canStop, f).1 && (i.cached ==> f.stop.StopDone?)
    ensures !HoldOne(i, canStop, f).0.cached
  {
  }

  /** A suspension finds nothing to delete of an instance without a cached
      status, and marks a held one terminated with its disk still there. */
  lemma SuspendLeavesHeldDisk(m: map<Id, Instance>, canStop: bool, suspend: Op, id: Id)
    requires suspend.Suspend? && Allows(m, canStop, suspend) && id in m
    requires m[id].record.status == Stopped && m[id].record.account == suspend.account && m[id].disk && !m[id].cached
    requires Applied(suspend.faults(id).mark)
    ensures var n := Perform(m, canStop, suspend);
            && id in n && n[id].record.status == Terminated && n[id].disk && !Clean(n[id])
            && !Held(n[id].record, suspend.account)
  {
    PerformActsAlone(m, canStop, suspend, id);
  }

  /** So every hold that goes through, followed by a suspension of the account,
      ends with a terminated record whose disk is still there, and which no
      purge will look at. */
  lemma HoldThenSuspendLeavesDisk(m: map<Id, Instance>, canStop: bool, hold: Op, suspend: Op, id: Id, spec: Spec)
    requires hold.Hold? && Allows(m, canStop, hold) && id in m
    requires m[id].disk && m[id].record.sealed == Some(Seal(spec)) && m[id].record.status in {Pending, Running}
    requires id in Each(m, hold.listed, hold.wanted, (x, i) => HoldOne(i, canStop, hold.holdFaults(x)), |hold.listed|).done
    requires m[id].cached ==> hold.holdFaults(id).stop.StopDone?
    requires suspend.Suspend? && suspend.account == hold.account && Applied(suspend.faults(id).mark)
    requires Allows(Perform(m, canStop, hold), canStop, suspend)
    ensures var n := Perform(Perform(m, canStop, hold), canStop, suspend);
            && id in n && n[id].record.status == Terminated && n[id].disk && !Clean(n[id])
            && !Held(n[id].record, suspend.account)
  {
    EachAccounts(m, hold.listed, hold.wanted, (x, i) => HoldOne(i, canStop, hold.holdFaults(x)), |hold.listed|, id);
    PerformActsAlone(m, canStop, hold, id);
    HeldIsStartable(m, canStop, hold, id, spec);
    HoldUncaches(m[id], canStop, hold.holdFaults(id));
    SuspendLeavesHeldDisk(Perform(m, canStop, hold), canStop, suspend, id);
  }

  /** A pod that ends by itself, noticed by the reconciler, leaves a terminated
      record with a disk. */
  lemma EndedPodLeavesDisk(m: map<Id, Instance>, canStop: bool, reconcile: Op, id: Id)
    requires reconcile.Reconcile? && id in m
    requires m[id].record.status in {Pending, Running, Failed} && m[id].disk
    requires id !in reconcile.seen && Applied(reconcile.writes(id))
    ensures var n := Perform(Perform(m, canStop, PodEnds(id)), canStop, reconcile);
            id in n && n[id].record.status == Terminated && n[id].disk && !Clean(n[id])
  {
    var ended := Perform(m, canStop, PodEnds(id));
    PerformActsAlone(ended, canStop, reconcile, id);
  }

  /** So does a hold that stops the pod and then fails to mark the record. */
  lemma UnmarkedHoldLeavesDisk(i: Instance, f: HoldFaults, seen: Option<Observed>, recent: bool, write: WriteOutcome)
    requires i.cached && i.disk && i.record.sealed.Some? && i.record.status in {Pending, Running}
    requires f.loads && f.stop.StopDone? && !Applied(f.mark)
    requires seen.None? && Applied(write)
    ensures var (held, ok) := HoldOne(i, true, f);
            var j := ReconcileOne(held, seen, recent, write);
            !ok && Clean(held) && j.record.status == Terminated && j.disk && !Clean(j)
  {
  }
}
