/** Runner.reportStatuses and the handlers that share lastReported with it
    (pkg/agentrunner/runner.go). */
module StatusSweep {
  import opened Options
  import opened Statuses
  import opened Wire

  datatype Message = Status(report: Report) | Result(id: Id, success: bool)

  // ---------------------------------------------------------------------
  // One sweep, as a specification
  // ---------------------------------------------------------------------

  function Ids(statuses: seq<Report>): set<Id> {
    set i | 0 <= i < |statuses| :: statuses[i].id
  }

  /** The statuses the first loop sends: those whose key is not the one
      reported last. */
  function Changes(last: map<Id, Key>, statuses: seq<Report>): seq<Report>
    decreases statuses
  {
    if statuses == [] then []
    else
      var st := statuses[0];
      if st.id in last && last[st.id] == st.key then Changes(last, statuses[1..])
      else [st] + Changes(last[st.id := st.key], statuses[1..])
  }

  /** What the first loop leaves in lastReported. */
  function Advance(last: map<Id, Key>, statuses: seq<Report>): map<Id, Key>
    decreases statuses
  {
    if statuses == [] then last
    else Advance(last[statuses[0].id := statuses[0].key], statuses[1..])
  }

  /** What a whole sweep leaves in lastReported: the listing itself. */
  function Listed(statuses: seq<Report>): map<Id, Key> {
    Advance(map[], statuses)
  }

  function Goodbyes(ids: seq<Id>): (rs: seq<Report>)
    ensures |rs| == |ids|
  {
    seq(|ids|, i requires 0 <= i < |ids| => Report(ids[i], GONE))
  }

  /** ids lists the members of s, each once, in any order. */
  ghost predicate OrderOf(ids: seq<Id>, s: set<Id>)
    decreases ids
  {
    if ids == [] then s == {}
    else ids[|ids| - 1] in s && OrderOf(ids[..|ids| - 1], s - {ids[|ids| - 1]})
  }

  lemma {:induction false} OrderOfMembers(ids: seq<Id>, s: set<Id>)
    requires OrderOf(ids, s)
    ensures |ids| == |s| && forall id :: id in ids <==> id in s
    decreases ids
  {
    if ids != [] {
      var n := |ids| - 1;
      OrderOfMembers(ids[..n], s - {ids[n]});
      assert ids == ids[..n] + [ids[n]];
    }
  }

  lemma {:induction false} AdvanceConcat(last: map<Id, Key>, a: seq<Report>, b: seq<Report>)
    ensures Advance(last, a + b) == Advance(Advance(last, a), b)
    decreases a
  {
    if a == [] {
      assert a + b == b;
    } else {
      assert (a + b)[0] == a[0] && (a + b)[1..] == a[1..] + b;
      AdvanceConcat(last[a[0].id := a[0].key], a[1..], b);
    }
  }

  lemma {:induction false} ChangesConcat(last: map<Id, Key>, a: seq<Report>, b: seq<Report>)
    ensures Changes(last, a + b) == Changes(last, a) + Changes(Advance(last, a), b)
    decreases a
  {
    if a == [] {
      assert a + b == b;
    } else {
      assert (a + b)[0] == a[0] && (a + b)[1..] == a[1..] + b;
      if a[0].id in last && last[a[0].id] == a[0].key {
        assert last[a[0].id := a[0].key] == last;
      }
      ChangesConcat(last[a[0].id := a[0].key], a[1..], b);
    }
  }

  /** The first loop touches exactly the listed ids. */
  lemma {:induction false} AdvanceKeys(last: map<Id, Key>, statuses: seq<Report>)
    ensures Advance(last, statuses).Keys == last.Keys + Ids(statuses)
    decreases statuses
  {
    if statuses != [] {
      AdvanceKeys(last[statuses[0].id := statuses[0].key], statuses[1..]);
      assert Ids(statuses) == {statuses[0].id} + Ids(statuses[1..]) by {
        assert forall i | 0 <= i < |statuses| :: i > 0 ==> statuses[i] == statuses[1..][i - 1];
        assert forall i | 0 <= i < |statuses[1..]| :: statuses[1..][i] == statuses[i + 1];
      }
    }
  }

  /** On a listed id the outcome does not depend on what was there before. */
  lemma {:induction false} AdvanceOnListed(last: map<Id, Key>, other: map<Id, Key>, statuses: seq<Report>, id: Id)
    requires id in Ids(statuses) || (id in last && id in other && last[id] == other[id])
    ensures id in Advance(last, statuses) && id in Advance(other, statuses)
    ensures Advance(last, statuses)[id] == Advance(other, statuses)[id]
    decreases statuses
  {
    if statuses != [] {
      var r := statuses[0];
      if id in Ids(statuses) && id != r.id {
        var i :| 0 <= i < |statuses| && statuses[i].id == id;
        assert statuses[1..][i - 1] == statuses[i];
      }
      AdvanceOnListed(last[r.id := r.key], other[r.id := r.key], statuses[1..], id);
    }
  }

  lemma ListedAfterSweep(last: map<Id, Key>, statuses: seq<Report>, m: map<Id, Key>)
    requires m.Keys == Ids(statuses)
    requires forall id | id in m :: id in Advance(last, statuses) && m[id] == Advance(last, statuses)[id]
    ensures m == Listed(statuses)
  {
    AdvanceKeys(map[], statuses);
    forall id | id in m ensures m[id] == Listed(statuses)[id] {
      AdvanceOnListed(last, map[], statuses, id);
    }
  }

  // ---------------------------------------------------------------------
  // The runner
  // ---------------------------------------------------------------------

  class Runner {
    var lastReported: map<Id, Key>
    /** The one-slot fail channel: whether a failure is waiting for Run. */
    var fail: bool

    constructor ()
      ensures lastReported == map[] && !fail
    {
      lastReported := map[];
      fail := false;
    }

    method Send(s: Stream<Message>, m: Message) returns (ok: bool)
      modifies this`fail, s
      ensures s.attempts == old(s.attempts) + [m]
      ensures ok == s.works(old(|s.attempts|))
      ensures fail == (old(fail) || !ok)
      ensures s.Lost() == if ok then old(s.Lost()) else old(s.Lost()) + 1
      ensures s.Delivered() == if ok then old(s.Delivered()) + [m] else old(s.Delivered())
    {
      ok := s.Send(m);
      if !ok {
        fail := true;
      }
    }

    /** Run's first action on a new connection. With nothing remembered, any
        cache at all is in step with the agent. */
    method Reset()
      modifies this`lastReported
      ensures lastReported == map[]
      ensures forall v: View :: Synced(v, lastReported)
    {
      lastReported := map[];
    }

    /** One turn of the first loop. */
    method ReportOne(s: Stream<Message>, st: Report)
      modifies this, s
      ensures lastReported == old(lastReported)[st.id := st.key]
      ensures s.attempts == old(s.attempts) + AsMessages(Changes(old(lastReported), [st]))
      ensures s.Lost() >= old(s.Lost()) && fail == (old(fail) || s.Lost() > old(s.Lost()))
    {
      if st.id in lastReported && lastReported[st.id] == st.key {
        assert lastReported[st.id := st.key] == lastReported;
        return;
      }
      lastReported := lastReported[st.id := st.key];
      var _ := Send(s, Status(st));
    }

    /** The first loop: send what changed, remember everything listed. */
    method ReportChanged(s: Stream<Message>, statuses: seq<Report>) returns (seen: set<Id>)
      modifies this, s
      ensures seen == Ids(statuses)
      ensures lastReported == Advance(old(lastReported), statuses)
      ensures s.attempts == old(s.attempts) + AsMessages(Changes(old(lastReported), statuses))
      ensures s.Lost() >= old(s.Lost()) && fail == (old(fail) || s.Lost() > old(s.Lost()))
    {
      seen := {};
      ghost var before, last := s.attempts, lastReported;
      for i := 0 to |statuses|
        invariant seen == Ids(statuses[..i])
        invariant lastReported == Advance(last, statuses[..i])
        invariant s.attempts == before + AsMessages(Changes(last, statuses[..i]))
        invariant s.Lost() >= old(s.Lost()) && fail == (old(fail) || s.Lost() > old(s.Lost()))
      {
        ReportOne(s, statuses[i]);
        seen := seen + {statuses[i].id};
        OneMoreStatus(last, statuses, i);
      }
      assert statuses[..|statuses|] == statuses;
    }

    /** One turn of the second loop. */
    method Goodbye(s: Stream<Message>, id: Id)
      modifies this, s
      ensures lastReported == old(lastReported) - {id}
      ensures s.attempts == old(s.attempts) + [Status(Report(id, GONE))]
      ensures s.Lost() >= old(s.Lost()) && fail == (old(fail) || s.Lost() > old(s.Lost()))
    {
      lastReported := lastReported - {id};
      var _ := Send(s, Status(Report(id, GONE)));
    }

    /** The second loop: forget, and say goodbye for, what was not seen. */
    method ReportGone(s: Stream<Message>, seen: set<Id>) returns (ghost gone: seq<Id>)
      modifies this, s
      ensures lastReported == old(lastReported) - (old(lastReported).Keys - seen)
      ensures OrderOf(gone, old(lastReported).Keys - seen)
      ensures s.attempts == old(s.attempts) + AsMessages(Goodbyes(gone))
      ensures s.Lost() >= old(s.Lost()) && fail == (old(fail) || s.Lost() > old(s.Lost()))
    {
      gone := [];
      ghost var before, last := s.attempts, lastReported;
      var todo := lastReported.Keys - seen;
      ghost var all := todo;
      while todo != {}
        invariant lastReported == last - (all - todo)
        invariant todo <= all && OrderOf(gone, all - todo)
        invariant s.attempts == before + AsMessages(Goodbyes(gone))
        invariant s.Lost() >= old(s.Lost()) && fail == (old(fail) || s.Lost() > old(s.Lost()))
        decreases todo
      {
        var id :| id in todo;
        Goodbye(s, id);
        OneMoreGoodbye(last, all, todo, gone, id);
        todo, gone := todo - {id}, gone + [id];
      }
      assert all - {} == all;
    }

    /** Whatever was reported before, and whatever fails on the way, a sweep
        attempts exactly the changed statuses and one goodbye per vanished
        instance, and remembers exactly the listing. A listing that failed
        changes nothing. */
    method ReportStatuses(s: Stream<Message>, listing: Option<seq<Report>>) returns (ghost gone: seq<Id>)
      modifies this, s
      ensures listing.None? ==> lastReported == old(lastReported) && s.attempts == old(s.attempts) && fail == old(fail)
      ensures listing.Some? ==> lastReported == Listed(listing.value)
      ensures listing.Some? ==> OrderOf(gone, old(lastReported).Keys - Ids(listing.value))
      ensures listing.Some? ==>
        s.attempts == old(s.attempts) + AsMessages(Changes(old(lastReported), listing.value)) + AsMessages(Goodbyes(gone))
      ensures s.Lost() >= old(s.Lost()) && fail == (old(fail) || s.Lost() > old(s.Lost()))
    {
      gone := [];
      if listing.None? {
        return;
      }
      ghost var last := lastReported;
      var seen := ReportChanged(s, listing.value);
      AdvanceKeys(last, listing.value);
      gone := ReportGone(s, seen);
      ListedAfterSweep(last, listing.value, lastReported);
      assert last.Keys + seen - seen == last.Keys - seen;
    }

    /** handleDelete and handleStop after the cluster call: success forgets
        the instance before replying, failure replies with an error. */
    method FinishRemoval(s: Stream<Message>, id: Id, removed: bool)
      modifies this, s
      ensures lastReported == if removed then old(lastReported) - {id} else old(lastReported)
      ensures s.attempts == old(s.attempts) + [Result(id, removed)]
      ensures fail == (old(fail) || !s.works(old(|s.attempts|)))
    {
      if removed {
        lastReported := lastReported - {id};
      }
      var _ := Send(s, Result(id, removed));
    }

    /** The periodic sweeps: over any listings, some of them failed, the agent
        attempts exactly the deduplicated reports of those that worked. */
    method StatusLoop(s: Stream<Message>, listings: seq<Option<seq<Report>>>) returns (ghost sweeps: seq<Sweep>)
      modifies this, s
      ensures Possible(old(lastReported.Keys), sweeps)
      ensures Follows(sweeps, Worked(listings))
      ensures s.attempts == old(s.attempts) + AsMessages(Deduplicated(old(lastReported), sweeps))
      ensures lastReported == Remembered(old(lastReported), sweeps)
    {
      sweeps := [];
      ghost var before, last := s.attempts, lastReported;
      for n := 0 to |listings|
        invariant Possible(last.Keys, sweeps) && Follows(sweeps, Worked(listings[..n]))
        invariant s.attempts == before + AsMessages(Deduplicated(last, sweeps))
        invariant lastReported == Remembered(last, sweeps)
      {
        assert listings[..n + 1][..n] == listings[..n];
        ghost var attempts := s.attempts;
        var gone := ReportStatuses(s, listings[n]);
        if listings[n].Some? {
          NextSweep(last, before, attempts, sweeps, Worked(listings[..n]), listings[n].value, gone);
          sweeps := sweeps + [Sweep(listings[n].value, gone)];
        }
      }
      assert listings[..|listings|] == listings;
    }

    /** A connection from its start: whatever the agent remembered before and
        whatever the control plane holds, the reports attempted have the effect
        of sending every status of every sweep. */
    method Run(s: Stream<Message>, listings: seq<Option<seq<Report>>>) returns (ghost sweeps: seq<Sweep>)
      modifies this, s
      ensures Follows(sweeps, Worked(listings))
      ensures s.attempts == old(s.attempts) + AsMessages(Deduplicated(map[], sweeps))
      ensures forall v: View :: RecordAll(v, Deduplicated(map[], sweeps)) == RecordAll(v, Everything(sweeps))
    {
      Reset();
      sweeps := StatusLoop(s, listings);
      forall v: View ensures RecordAll(v, Deduplicated(map[], sweeps)) == RecordAll(v, Everything(sweeps)) {
        DeduplicationRefinesResending(v, map[], sweeps, sweeps);
      }
    }
  }

  function AsMessages(rs: seq<Report>): (ms: seq<Message>)
    ensures |ms| == |rs|
  {
    seq(|rs|, i requires 0 <= i < |rs| => Status(rs[i]))
  }

  lemma AsMessagesConcat(a: seq<Report>, b: seq<Report>)
    ensures AsMessages(a + b) == AsMessages(a) + AsMessages(b)
  {
  }

  lemma OneMoreStatus(last: map<Id, Key>, statuses: seq<Report>, i: nat)
    requires i < |statuses|
    ensures Ids(statuses[..i + 1]) == Ids(statuses[..i]) + {statuses[i].id}
    ensures Advance(last, statuses[..i + 1]) == Advance(last, statuses[..i])[statuses[i].id := statuses[i].key]
    ensures AsMessages(Changes(last, statuses[..i + 1])) ==
            AsMessages(Changes(last, statuses[..i])) + AsMessages(Changes(Advance(last, statuses[..i]), [statuses[i]]))
  {
    assert statuses[..i + 1] == statuses[..i] + [statuses[i]];
    AdvanceConcat(last, statuses[..i], [statuses[i]]);
    ChangesConcat(last, statuses[..i], [statuses[i]]);
  }

  lemma OneMoreGoodbye(last: map<Id, Key>, all: set<Id>, todo: set<Id>, gone: seq<Id>, id: Id)
    requires id in todo && todo <= all && OrderOf(gone, all - todo)
    ensures OrderOf(gone + [id], all - (todo - {id}))
    ensures last - (all - todo) - {id} == last - (all - (todo - {id}))
    ensures AsMessages(Goodbyes(gone + [id])) == AsMessages(Goodbyes(gone)) + [Status(Report(id, GONE))]
  {
    assert all - (todo - {id}) == all - todo + {id};
    assert all - (todo - {id}) - {id} == all - todo;
    assert (gone + [id])[..|gone|] == gone;
  }

  // ---------------------------------------------------------------------
  // Reporting changes refines reporting everything
  // ---------------------------------------------------------------------

  /** Every key on record has already had its full effect on the view. */
  ghost predicate Synced(v: View, last: map<Id, Key>) {
    forall id | id in last :: Settled(v, Report(id, last[id]))
  }

  lemma SyncedStep(v: View, last: map<Id, Key>, r: Report)
    requires Synced(v, last)
    ensures Synced(Record(v, r), last[r.id := r.key])
  {
    RecordSettles(v, r);
    forall id | id in last && id != r.id ensures Settled(Record(v, r), Report(id, last[id])) {
      SettledElsewhere(v, r, Report(id, last[id]));
    }
  }

  lemma {:induction false} ChangesSuffice(v: View, last: map<Id, Key>, statuses: seq<Report>)
    requires Synced(v, last)
    ensures RecordAll(v, Changes(last, statuses)) == RecordAll(v, statuses)
    ensures Synced(RecordAll(v, statuses), Advance(last, statuses))
    decreases statuses
  {
    if statuses != [] {
      var st, rest := statuses[0], statuses[1..];
      if st.id in last && last[st.id] == st.key {
        assert Settled(v, Report(st.id, last[st.id]));
        assert last[st.id := st.key] == last;
        ChangesSuffice(v, last, rest);
      } else {
        SyncedStep(v, last, st);
        ChangesSuffice(Record(v, st), last[st.id := st.key], rest);
        assert Changes(last, statuses)[1..] == Changes(last[st.id := st.key], rest);
      }
    }
  }

  /** The goodbyes act on each instance separately, so their order is free. */
  lemma {:induction false} GoodbyesAt(v: View, ids: seq<Id>, id: Id)
    ensures id !in ids ==> (id in RecordAll(v, Goodbyes(ids)) <==> id in v)
    ensures id !in ids && id in v ==> RecordAll(v, Goodbyes(ids))[id] == v[id]
    ensures id in ids ==> (id in RecordAll(v, Goodbyes(ids)) <==> id in Record(v, Report(id, GONE)))
    ensures id in ids && id in RecordAll(v, Goodbyes(ids)) ==>
      RecordAll(v, Goodbyes(ids))[id] == Record(v, Report(id, GONE))[id]
    decreases ids
  {
    if ids != [] {
      var v1 := Record(v, Report(ids[0], GONE));
      assert Goodbyes(ids)[1..] == Goodbyes(ids[1..]);
      assert ids == [ids[0]] + ids[1..];
      GoodbyesAt(v1, ids[1..], id);
      RecordSettles(v, Report(ids[0], GONE));
    }
  }

  lemma GoodbyeOrder(v: View, a: seq<Id>, b: seq<Id>)
    requires forall id :: id in a <==> id in b
    ensures RecordAll(v, Goodbyes(a)) == RecordAll(v, Goodbyes(b))
  {
    var va, vb := RecordAll(v, Goodbyes(a)), RecordAll(v, Goodbyes(b));
    forall id ensures (id in va <==> id in vb) && (id in va ==> va[id] == vb[id]) {
      GoodbyesAt(v, a, id);
      GoodbyesAt(v, b, id);
    }
    assert va.Keys == vb.Keys;
  }

  lemma {:induction false} SyncedAfterGoodbyes(v: View, last: map<Id, Key>, ids: seq<Id>)
    requires Synced(v, last) && forall id | id in ids :: id !in last
    ensures Synced(RecordAll(v, Goodbyes(ids)), last)
    decreases ids
  {
    if ids != [] {
      var bye := Report(ids[0], GONE);
      assert ids[0] in ids;
      forall id | id in last ensures Settled(Record(v, bye), Report(id, last[id])) {
        SettledElsewhere(v, bye, Report(id, last[id]));
      }
      assert Goodbyes(ids)[1..] == Goodbyes(ids[1..]);
      SyncedAfterGoodbyes(Record(v, bye), last, ids[1..]);
    }
  }

  /** A sweep: what the cluster listed and the order of the goodbyes. */
  datatype Sweep = Sweep(statuses: seq<Report>, gone: seq<Id>)

  /** gone names, sweep after sweep, the instances known until then and not
      listed now. */
  ghost predicate Possible(known: set<Id>, sweeps: seq<Sweep>)
    decreases sweeps
  {
    sweeps != [] ==>
      OrderOf(sweeps[0].gone, known - Ids(sweeps[0].statuses)) && Possible(Ids(sweeps[0].statuses), sweeps[1..])
  }

  /** What the agent sends. */
  function Deduplicated(last: map<Id, Key>, sweeps: seq<Sweep>): seq<Report>
    decreases sweeps
  {
    if sweeps == [] then []
    else Changes(last, sweeps[0].statuses) + Goodbyes(sweeps[0].gone)
         + Deduplicated(Listed(sweeps[0].statuses), sweeps[1..])
  }

  /** What an agent that sends every status of every sweep would send. */
  function Everything(sweeps: seq<Sweep>): seq<Report> {
    if sweeps == [] then []
    else sweeps[0].statuses + Goodbyes(sweeps[0].gone) + Everything(sweeps[1..])
  }

  /** The listings that worked. */
  function Worked(listings: seq<Option<seq<Report>>>): seq<seq<Report>> {
    if listings == [] then []
    else
      var last := listings[|listings| - 1];
      Worked(listings[..|listings| - 1]) + (if last.Some? then [last.value] else [])
  }

  /** What is remembered after some sweeps. */
  function Remembered(last: map<Id, Key>, sweeps: seq<Sweep>): map<Id, Key> {
    if sweeps == [] then last else Listed(sweeps[|sweeps| - 1].statuses)
  }

  predicate Follows(sweeps: seq<Sweep>, statuses: seq<seq<Report>>) {
    |sweeps| == |statuses| && forall i | 0 <= i < |sweeps| :: sweeps[i].statuses == statuses[i]
  }

  lemma {:induction false} OneMoreSweep(last: map<Id, Key>, sweeps: seq<Sweep>, sweep: Sweep)
    requires Possible(last.Keys, sweeps)
    requires OrderOf(sweep.gone, Remembered(last, sweeps).Keys - Ids(sweep.statuses))
    ensures Possible(last.Keys, sweeps + [sweep])
    ensures Deduplicated(last, sweeps + [sweep]) ==
            Deduplicated(last, sweeps) + (Changes(Remembered(last, sweeps), sweep.statuses) + Goodbyes(sweep.gone))
    decreases sweeps
  {
    var all := sweeps + [sweep];
    var mine := Changes(Remembered(last, sweeps), sweep.statuses) + Goodbyes(sweep.gone);
    if sweeps == [] {
      assert all[1..] == [];
      assert Possible(Ids(sweep.statuses), all[1..]);
      assert Deduplicated(last, all) == mine + [];
    } else {
      var next := Listed(sweeps[0].statuses);
      AdvanceKeys(map[], sweeps[0].statuses);
      assert next.Keys == Ids(sweeps[0].statuses);
      assert all[0] == sweeps[0] && all[1..] == sweeps[1..] + [sweep];
      assert Remembered(last, sweeps) == Remembered(next, sweeps[1..]);
      OneMoreSweep(next, sweeps[1..], sweep);
      var first := Changes(last, sweeps[0].statuses) + Goodbyes(sweeps[0].gone);
      assert first + (Deduplicated(next, sweeps[1..]) + mine) == first + Deduplicated(next, sweeps[1..]) + mine;
    }
  }

  lemma Appended(before: seq<Message>, sent: seq<Report>, changes: seq<Report>, goodbyes: seq<Report>)
    ensures before + AsMessages(sent) + AsMessages(changes) + AsMessages(goodbyes) ==
            before + AsMessages(sent + (changes + goodbyes))
  {
    AsMessagesConcat(changes, goodbyes);
    AsMessagesConcat(sent, changes + goodbyes);
  }

  lemma NextSweep(last: map<Id, Key>, before: seq<Message>, attempts: seq<Message>, sweeps: seq<Sweep>,
                  done: seq<seq<Report>>, statuses: seq<Report>, gone: seq<Id>)
    requires Possible(last.Keys, sweeps) && Follows(sweeps, done)
    requires attempts == before + AsMessages(Deduplicated(last, sweeps))
    requires OrderOf(gone, Remembered(last, sweeps).Keys - Ids(statuses))
    ensures var sweeps' := sweeps + [Sweep(statuses, gone)];
            && Possible(last.Keys, sweeps') && Follows(sweeps', done + [statuses])
            && Remembered(last, sweeps') == Listed(statuses)
            && attempts + AsMessages(Changes(Remembered(last, sweeps), statuses)) + AsMessages(Goodbyes(gone)) ==
               before + AsMessages(Deduplicated(last, sweeps'))
  {
    OneMoreSweep(last, sweeps, Sweep(statuses, gone));
    Appended(before, Deduplicated(last, sweeps), Changes(Remembered(last, sweeps), statuses), Goodbyes(gone));
  }

  /** One sweep of changes has the effect of one sweep of everything, and
      leaves the view in step with what is remembered. */
  lemma OneSweep(v: View, last: map<Id, Key>, statuses: seq<Report>, gone: seq<Id>, gone': seq<Id>)
    requires Synced(v, last)
    requires OrderOf(gone, last.Keys - Ids(statuses)) && OrderOf(gone', last.Keys - Ids(statuses))
    ensures RecordAll(v, Changes(last, statuses) + Goodbyes(gone)) == RecordAll(v, statuses + Goodbyes(gone'))
    ensures Synced(RecordAll(v, statuses + Goodbyes(gone')), Listed(statuses))
  {
    var mid := RecordAll(v, statuses);
    RecordAllConcat(v, Changes(last, statuses), Goodbyes(gone));
    RecordAllConcat(v, statuses, Goodbyes(gone'));
    ChangesSuffice(v, last, statuses);
    OrderOfMembers(gone, last.Keys - Ids(statuses));
    OrderOfMembers(gone', last.Keys - Ids(statuses));
    GoodbyeOrder(mid, gone, gone');
    AdvanceKeys(map[], statuses);
    forall id | id in Listed(statuses)
      ensures Settled(mid, Report(id, Listed(statuses)[id]))
    {
      AdvanceKeys(last, statuses);
      AdvanceOnListed(last, map[], statuses, id);
    }
    SyncedAfterGoodbyes(mid, Listed(statuses), gone');
  }

  /** Sending only changes leaves the control plane with the same cache as
      sending everything, after any number of sweeps, from any cache that
      agrees with what the agent remembers - in particular from any cache at
      all when it remembers nothing, as after a reconnect. */
  lemma {:induction false} DeduplicationRefinesResending(v: View, last: map<Id, Key>, sweeps: seq<Sweep>, full: seq<Sweep>)
    requires Synced(v, last)
    requires |sweeps| == |full| && forall i | 0 <= i < |full| :: full[i].statuses == sweeps[i].statuses
    requires Possible(last.Keys, sweeps) && Possible(last.Keys, full)
    ensures RecordAll(v, Deduplicated(last, sweeps)) == RecordAll(v, Everything(full))
    decreases sweeps
  {
    if sweeps != [] {
      var now, other := sweeps[0], full[0];
      OneSweep(v, last, now.statuses, now.gone, other.gone);
      var v1 := RecordAll(v, other.statuses + Goodbyes(other.gone));
      AdvanceKeys(map[], now.statuses);
      assert Listed(now.statuses).Keys == Ids(now.statuses);
      DeduplicationRefinesResending(v1, Listed(now.statuses), sweeps[1..], full[1..]);
      RecordAllConcat(v, Changes(last, now.statuses) + Goodbyes(now.gone), Deduplicated(Listed(now.statuses), sweeps[1..]));
      RecordAllConcat(v, other.statuses + Goodbyes(other.gone), Everything(full[1..]));
    }
  }

  /** The first sweep after a reset, sent to a control plane that starts from
      nothing, rebuilds the whole listing there. */
  lemma {:induction false} FirstSweepRebuilds(statuses: seq<Report>)
    requires forall i, j | 0 <= i < j < |statuses| :: statuses[i].id != statuses[j].id
    requires forall i | 0 <= i < |statuses| :: statuses[i].id != ""
    ensures RecordAll(map[], Changes(map[], statuses)) == Listed(statuses)
  {
    ChangesSuffice(map[], map[], statuses);
    RebuildFrom(map[], statuses);
  }

  lemma {:induction false} RebuildFrom(v: View, statuses: seq<Report>)
    requires forall i, j | 0 <= i < j < |statuses| :: statuses[i].id != statuses[j].id
    requires forall i | 0 <= i < |statuses| :: statuses[i].id != "" && statuses[i].id !in v
    ensures RecordAll(v, statuses) == Advance(v, statuses)
    decreases statuses
  {
    if statuses != [] {
      RebuildFrom(Record(v, statuses[0]), statuses[1..]);
    }
  }
}
