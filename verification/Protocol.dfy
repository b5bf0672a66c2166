/** Status reporting as a whole: concurrent sweeps, delete, stop and create
    handlers, writes that fail, the one-slot failure channel, reconnects, and
    the control plane's cache at the far end of the stream.

    A sweep lists the cluster before it takes statusMu, so an older listing
    can be applied after a newer one; each write takes sendMu on its own, so a
    handler's reply can fall between two reports of one sweep. At the far end
    reports are recorded as they are read, but a result is handed to the caller
    that waits for it, who acts on it later, or has given up waiting. */
module Protocol {
  import opened Options
  import opened Statuses

  function Get<K, V>(m: map<K, V>, k: K): Option<V> {
    if k in m then Some(m[k]) else None
  }

  // ---------------------------------------------------------------------
  // The far end
  // ---------------------------------------------------------------------

  datatype Message =
    | Status(report: Report)
    | Removed(id: Id)                       // a delete or stop that succeeded
    | Created(id: Id, endpoint: Endpoint)   // a create that succeeded

  function Subject(m: Message): Id {
    match m
    case Status(r) => r.id
    case Removed(id) => id
    case Created(id, _) => id
  }

  /** A message is read: only a report reaches the cache by itself. */
  function Hear(v: View, m: Message): View {
    if m.Status? then Record(v, m.report) else v
  }

  function HearAll(v: View, ms: seq<Message>): View
    decreases ms
  {
    if ms == [] then v else HearAll(Hear(v, ms[0]), ms[1..])
  }

  /** A caller acts on its result: a removal forgets the instance, a creation
      seeds it as pending. */
  function Act(v: View, m: Message): View {
    match m
    case Status(_) => v
    case Removed(id) => v - {id}
    case Created(id, endpoint) => Record(v, Report(id, Key("pending", endpoint)))
  }

  function Results(ms: seq<Message>): (rs: seq<Message>)
    ensures forall i | 0 <= i < |rs| :: !rs[i].Status?
    ensures forall i | 0 <= i < |rs| :: rs[i] in ms
  {
    if ms == [] then [] else (if ms[0].Status? then [] else [ms[0]]) + Results(ms[1..])
  }

  // ---------------------------------------------------------------------
  // The whole system
  // ---------------------------------------------------------------------

  /** A listing of the cluster, taken for the connection numbered epoch. */
  datatype Listing = Listing(epoch: nat, statuses: map<Id, Key>)

  /** Who holds statusMu: nobody, or a sweep with some statuses left to
      compare. */
  datatype Sweep = Idle | Applying(epoch: nat, todo: map<Id, Key>, listed: set<Id>)

  /** A delete or stop handler whose cluster call has succeeded. */
  datatype Removal = Removal(tag: nat, id: Id, epoch: nat, forgotten: bool)

  datatype System = System(
    cluster: map<Id, Key>,
    last: map<Id, Key>,         // Runner.lastReported
    sweep: Sweep,
    listings: seq<Listing>,     // taken and not yet applied
    removals: set<Removal>,
    token: bool,                // a failure waits in Runner.fail
    up: bool,                   // Run is past its reset and has not returned
    epoch: nat,
    wire: seq<Message>,         // written and not yet read, in order
    answers: seq<Message>,      // results whose callers have yet to act
    view: View,
    past: Past)

  /** History. lost: ids whose write failed since the last reset. raced: ids
      with a result that may take effect after the last status written about
      them. orphaned: ids the cache may show although the agent, not
      remembering them, will never say that they are gone. A status written
      while no result about an id is under way clears both. */
  datatype Past = Past(lost: set<Id>, raced: set<Id>, orphaned: set<Id>)

  /** The cache once every report already written has been read. */
  function Drained(s: System): View {
    HearAll(s.view, s.wire)
  }

  function Outstanding(s: System): set<Id> {
    set r | r in s.removals && r.forgotten :: r.id
  }

  predicate HasResult(ms: seq<Message>, id: Id) {
    exists i :: 0 <= i < |ms| && !ms[i].Status? && Subject(ms[i]) == id
  }

  /** A result about id has yet to be written, read or acted on. */
  predicate Pending(s: System, id: Id) {
    id in Outstanding(s) || HasResult(s.wire, id) || HasResult(s.answers, id)
  }

  predicate Sent(s: System, epoch: nat, ok: bool) {
    ok && epoch == s.epoch && s.up
  }

  /** A write either joins the stream or, on a dead or replaced stream, fails
      and leaves a failure for Run to find. */
  function Send(s: System, epoch: nat, m: Message, ok: bool): System {
    if Sent(s, epoch, ok) then s.(wire := s.wire + [m])
    else s.(token := true, past := s.past.(lost := s.past.lost + {Subject(m)}))
  }

  function SendStatus(s: System, epoch: nat, r: Report, ok: bool): System {
    var t := Send(s, epoch, Status(r), ok);
    if Sent(s, epoch, ok) && !Pending(s, r.id)
    then t.(past := Past(t.past.lost, t.past.raced - {r.id}, t.past.orphaned - {r.id}))
    else t
  }

  datatype Step =
    | ClusterChanges(now: map<Id, Key>)
    | List(epoch: nat)
    | ApplyStart(index: nat)
    | ApplyOne(id: Id, ok: bool)
    | ApplyGone(id: Id, ok: bool)
    | ApplyEnd
    | RemovalStart(removal: Removal)
    | RemovalForget(removal: Removal)
    | RemovalReply(removal: Removal, ok: bool)
    | CreateReply(id: Id, endpoint: Endpoint, epoch: nat, ok: bool)
    | OtherWrite(epoch: nat, ok: bool)   // inventory, heartbeat, error replies
    | Deliver(waiting: bool)             // the next message is read
    | CallerActs(index: nat)
    | RunReturns(consume: bool, kept: nat)
    | RunStarts(forgets: bool)

  predicate Enabled(s: System, step: Step) {
    match step
    case ClusterChanges(_) => true
    case List(epoch) => epoch <= s.epoch
    case ApplyStart(index) => s.sweep.Idle? && index < |s.listings|
    case ApplyOne(id, _) => s.sweep.Applying? && id in s.sweep.todo
    case ApplyGone(id, _) => s.sweep.Applying? && s.sweep.todo == map[] && id in s.last && id !in s.sweep.listed
    case ApplyEnd => s.sweep.Applying? && s.sweep.todo == map[] && s.last.Keys <= s.sweep.listed
    case RemovalStart(r) => !r.forgotten && r.epoch == s.epoch && forall q | q in s.removals :: q.tag != r.tag
    case RemovalForget(r) => s.sweep.Idle? && r in s.removals && !r.forgotten
    case RemovalReply(r, _) => r in s.removals && r.forgotten
    case CreateReply(_, _, epoch, _) => epoch <= s.epoch
    case OtherWrite(epoch, _) => epoch <= s.epoch
    case Deliver(_) => s.wire != []
    case CallerActs(index) => index < |s.answers|
    case RunReturns(consume, kept) => s.up && (consume ==> s.token) && kept <= |s.wire|
    case RunStarts(_) => !s.up && s.sweep.Idle?
  }

  function Do(s: System, step: Step): System
    requires Enabled(s, step)
  {
    match step
    case ClusterChanges(now) => s.(cluster := now)
    case List(epoch) => s.(listings := s.listings + [Listing(epoch, s.cluster)])
    case ApplyStart(index) =>
      var l := s.listings[index];
      s.(sweep := Applying(l.epoch, l.statuses, l.statuses.Keys),
         listings := s.listings[..index] + s.listings[index + 1..])
    case ApplyOne(id, ok) =>
      var key := s.sweep.todo[id];
      var t := s.(sweep := s.sweep.(todo := s.sweep.todo - {id}));
      if id in s.last && s.last[id] == key then t
      else SendStatus(t.(last := t.last[id := key]), s.sweep.epoch, Report(id, key), ok)
    case ApplyGone(id, ok) =>
      SendStatus(s.(last := s.last - {id}), s.sweep.epoch, Report(id, GONE), ok)
    case ApplyEnd => s.(sweep := Idle)
    case RemovalStart(r) => s.(removals := s.removals + {r})
    case RemovalForget(r) =>
      s.(last := s.last - {r.id}, removals := s.removals - {r} + {r.(forgotten := true)},
         past := s.past.(raced := s.past.raced + {r.id}))
    case RemovalReply(r, ok) => Send(s.(removals := s.removals - {r}), r.epoch, Removed(r.id), ok)
    case CreateReply(id, endpoint, epoch, ok) => Send(Racing(s, id), epoch, Created(id, endpoint), ok)
    case OtherWrite(epoch, ok) =>
      if Sent(s, epoch, ok) then s else s.(token := true)
    case Deliver(waiting) => Read(s, waiting)
    case CallerActs(index) =>
      s.(view := Act(s.view, s.answers[index]), answers := s.answers[..index] + s.answers[index + 1..])
    // Run comes back because it consumed the failure, or because the stream
    // or the context ended; what the peer had not received by then is gone.
    case RunReturns(consume, kept) =>
      s.(up := false, token := s.token && !consume, wire := s.wire[..kept])
    // The next Run forgets what was reported. The fail channel is not emptied.
    // The control plane may have restarted (forgets) or kept its cache.
    case RunStarts(forgets) => Restart(s, if forgets then map[] else Drained(s),
                                       if forgets then [] else s.answers + Results(s.wire))
  }

  function Racing(s: System, id: Id): System {
    s.(past := s.past.(raced := s.past.raced + {id}, orphaned := s.past.orphaned + {id}))
  }

  function Read(s: System, waiting: bool): System
    requires s.wire != []
  {
    var m, rest := s.wire[0], s.(wire := s.wire[1..]);
    match m
    case Status(r) => rest.(view := Record(s.view, r))
    case Removed(id) =>
      if waiting then rest.(answers := s.answers + [m])
      else rest.(past := s.past.(orphaned := s.past.orphaned + {id}))
    case Created(_, _) => if waiting then rest.(answers := s.answers + [m]) else rest
  }

  function Subjects(ms: seq<Message>): set<Id> {
    set i | 0 <= i < |ms| :: Subject(ms[i])
  }

  function Restart(s: System, view: View, answers: seq<Message>): System {
    s.(up := true, epoch := s.epoch + 1, last := map[], view := view, wire := [], answers := answers,
       past := Past({}, Outstanding(s) + Subjects(answers), view.Keys + Subjects(answers)))
  }

  predicate Possible(s: System, steps: seq<Step>)
    decreases steps
  {
    steps == [] || (Enabled(s, steps[0]) && Possible(Do(s, steps[0]), steps[1..]))
  }

  function After(s: System, steps: seq<Step>): System
    requires Possible(s, steps)
    decreases steps
  {
    if steps == [] then s else After(Do(s, steps[0]), steps[1..])
  }

  /** An agent that has just been started, and a control plane whose cache may
      hold anything. */
  predicate Initial(s: System) {
    s.last == map[] && s.sweep.Idle? && s.listings == [] && s.removals == {} && !s.token && !s.up
    && s.wire == [] && s.answers == [] && s.past == Past({}, {}, {}) && "" !in s.view
  }

  // ---------------------------------------------------------------------
  // What the far end makes of the messages about one id
  // ---------------------------------------------------------------------

  /** The last message about id. */
  function LastWord(ms: seq<Message>, id: Id): Option<Message> {
    if ms == [] then None
    else if Subject(ms[|ms| - 1]) == id then Some(ms[|ms| - 1])
    else LastWord(ms[..|ms| - 1], id)
  }

  lemma LastWordAppend(ms: seq<Message>, m: Message, id: Id)
    ensures LastWord(ms + [m], id) == if Subject(m) == id then Some(m) else LastWord(ms, id)
  {
    assert (ms + [m])[..|ms|] == ms;
  }

  lemma {:induction false} LastWordRest(ms: seq<Message>, id: Id)
    requires ms != []
    ensures LastWord(ms, id) ==
            if LastWord(ms[1..], id).Some? then LastWord(ms[1..], id)
            else if Subject(ms[0]) == id then Some(ms[0]) else None
    decreases ms
  {
    if |ms| > 1 {
      assert ms[1..][..|ms| - 2] == ms[..|ms| - 1][1..];
      LastWordRest(ms[..|ms| - 1], id);
    }
  }

  lemma {:induction false} HearLast(v: View, ms: seq<Message>, m: Message)
    ensures HearAll(v, ms + [m]) == Hear(HearAll(v, ms), m)
    decreases ms
  {
    if ms == [] {
      assert ms + [m] == [m];
      assert HearAll(Hear(v, m), []) == Hear(v, m);
    } else {
      assert (ms + [m])[0] == ms[0] && (ms + [m])[1..] == ms[1..] + [m];
      HearLast(Hear(v, ms[0]), ms[1..], m);
    }
  }

  lemma HearElsewhere(v: View, m: Message, id: Id)
    requires Subject(m) != id
    ensures Get(Hear(v, m), id) == Get(v, id)
  {
  }

  /** What is heard about id depends on what was known about id alone. */
  lemma {:induction false} HearAllAt(v: View, v': View, ms: seq<Message>, id: Id)
    requires Get(v, id) == Get(v', id)
    ensures Get(HearAll(v, ms), id) == Get(HearAll(v', ms), id)
    decreases ms
  {
    if ms != [] {
      HearAllAt(Hear(v, ms[0]), Hear(v', ms[0]), ms[1..], id);
    }
  }

  lemma {:induction false} NeverNameless(v: View, ms: seq<Message>)
    requires "" !in v
    ensures "" !in HearAll(v, ms)
    decreases ms
  {
    if ms != [] {
      NeverNameless(Hear(v, ms[0]), ms[1..]);
    }
  }

  predicate Gone(v: View, id: Id) {
    id !in v || v[id].status == TERMINATED
  }

  /** Without a word about id, or with a last word that it is gone, it stays or
      ends up gone. */
  lemma {:induction false} LastWordDecides(v: View, ms: seq<Message>, id: Id)
    requires "" !in v
    requires forall i | 0 <= i < |ms| && Subject(ms[i]) == id :: ms[i].Status?
    requires match LastWord(ms, id)
             case None => Gone(v, id)
             case Some(m) => m.Status? && m.report.key.status == TERMINATED
    ensures Gone(HearAll(v, ms), id)
    decreases ms
  {
    if ms != [] {
      var n := |ms| - 1;
      assert ms == ms[..n] + [ms[n]];
      HearLast(v, ms[..n], ms[n]);
      NeverNameless(v, ms[..n]);
      if Subject(ms[n]) != id {
        LastWordDecides(v, ms[..n], id);
        HearElsewhere(HearAll(v, ms[..n]), ms[n], id);
      }
    }
  }

  // ---------------------------------------------------------------------
  // What every run keeps
  // ---------------------------------------------------------------------

  /** The cache is what the agent believes it to be, as far as id goes:
      reporting the remembered key again would change nothing, and an instance
      the agent does not remember is absent or recorded as terminated. */
  ghost predicate Agreed(s: System, id: Id) {
    Agree(s.last, Drained(s), id)
  }

  ghost predicate Agree(last: map<Id, Key>, view: View, id: Id) {
    if id in last then Settled(view, Report(id, last[id])) else Gone(view, id)
  }

  lemma AgreeLocal(last: map<Id, Key>, view: View, last': map<Id, Key>, view': View, id: Id)
    requires Get(last, id) == Get(last', id) && Get(view, id) == Get(view', id)
    ensures Agree(last, view, id) <==> Agree(last', view', id)
  {
    if id in last {
      SettledMeans(view, Report(id, last[id]));
      SettledMeans(view', Report(id, last[id]));
    }
  }

  /** The cache no longer shows id, or a message or a caller is on its way to
      see to that. */
  ghost predicate Silent(s: System, id: Id) {
    match LastWord(s.wire, id)
    case None => Gone(s.view, id) || Removed(id) in s.answers
    case Some(Status(r)) => r.key.status == TERMINATED
    case Some(Removed(_)) => true
    case Some(Created(_, _)) => false
  }

  /** Where things stand with id: remembered and unraced, the cache agrees;
      forgotten and not orphaned, the cache is being told. */
  ghost predicate Sound(s: System, id: Id) {
    if id in s.last then id in s.past.raced || Agreed(s, id)
    else id in s.past.orphaned || id in Outstanding(s) || Silent(s, id)
  }

  predicate Seeds(ms: seq<Message>, id: Id) {
    exists i :: 0 <= i < |ms| && ms[i].Created? && ms[i].id == id
  }

  ghost predicate Invariant(s: System) {
    && "" !in s.view
    && (forall i | 0 <= i < |s.answers| :: !s.answers[i].Status?)
    && (forall id :: Pending(s, id) ==> id in s.past.raced)
    && (forall id :: Seeds(s.wire, id) || Seeds(s.answers, id) ==> id in s.past.orphaned)
    // every lost write has left a failure for Run, or Run has returned
    && (s.past.lost != {} ==> s.token || !s.up)
    && (s.up ==> forall id :: id in s.past.lost || Sound(s, id))
  }

  // One message more on the wire, or among the answers.

  lemma ResultAppend(ms: seq<Message>, m: Message, id: Id)
    ensures HasResult(ms + [m], id) <==> HasResult(ms, id) || (!m.Status? && Subject(m) == id)
    ensures Seeds(ms + [m], id) <==> Seeds(ms, id) || (m.Created? && m.id == id)
  {
    assert (ms + [m])[|ms|] == m;
    assert forall i | 0 <= i < |ms| :: (ms + [m])[i] == ms[i];
  }

  /** Fewer messages, no new results. */
  lemma ResultWithout(ms: seq<Message>, i: nat, id: Id)
    requires i < |ms|
    ensures HasResult(ms[..i] + ms[i + 1..], id) ==> HasResult(ms, id)
    ensures Seeds(ms[..i] + ms[i + 1..], id) ==> Seeds(ms, id)
  {
    var rest := ms[..i] + ms[i + 1..];
    assert forall k | 0 <= k < |rest| :: rest[k] == ms[if k < i then k else k + 1];
  }

  lemma DrainedAfterSend(s: System, m: Message)
    ensures HearAll(s.view, s.wire + [m]) == Hear(Drained(s), m)
  {
    HearLast(s.view, s.wire, m);
  }

  /** A step that leaves everything about id as it was. */
  lemma SoundLocal(s: System, t: System, id: Id)
    requires Sound(s, id)
    requires Get(t.last, id) == Get(s.last, id) && Get(Drained(t), id) == Get(Drained(s), id)
    requires LastWord(t.wire, id) == LastWord(s.wire, id) && Get(t.view, id) == Get(s.view, id)
    requires Removed(id) in s.answers ==> Removed(id) in t.answers
    requires id in Outstanding(s) ==> id in Outstanding(t)
    requires id in s.past.raced ==> id in t.past.raced
    requires id in s.past.orphaned ==> id in t.past.orphaned
    ensures Sound(t, id)
  {
    AgreeLocal(s.last, Drained(s), t.last, Drained(t), id);
  }

  /** A message is written about another id. */
  lemma SoundAfterSend(s: System, t: System, m: Message, id: Id)
    requires Sound(s, id) && Subject(m) != id
    requires Get(t.last, id) == Get(s.last, id)
    requires t.wire == s.wire + [m] && t.view == s.view && t.answers == s.answers
    requires id in Outstanding(s) ==> id in Outstanding(t)
    requires id in s.past.raced ==> id in t.past.raced
    requires id in s.past.orphaned ==> id in t.past.orphaned
    ensures Sound(t, id)
  {
    DrainedAfterSend(s, m);
    HearElsewhere(Drained(s), m, id);
    LastWordAppend(s.wire, m, id);
    SoundLocal(s, t, id);
  }

  // ---------------------------------------------------------------------
  // Step by step
  // ---------------------------------------------------------------------

  /** The heart of a sweep: remembering a key and writing it keeps the two
      sides together, or leaves the loss on record. */
  lemma StatusSound(s: System, last: map<Id, Key>, epoch: nat, r: Report, ok: bool, id: Id)
    requires s.up && (forall i :: Pending(s, i) ==> i in s.past.raced)
    requires id in s.past.lost || Sound(s, id)
    requires id != r.id ==> Get(last, id) == Get(s.last, id)
    requires if r.id in last then last[r.id] == r.key else r.key == GONE
    ensures var t := SendStatus(s.(last := last), epoch, r, ok); id in t.past.lost || Sound(t, id)
  {
    var t := SendStatus(s.(last := last), epoch, r, ok);
    if id !in t.past.lost {
      if Sent(s, epoch, ok) {
        if id != r.id {
          SoundAfterSend(s, t, Status(r), id);
        } else {
          StatusSoundItself(s, last, r, t);
        }
      } else {
        SoundLocal(s, t, id);
      }
    }
  }

  lemma StatusSoundItself(s: System, last: map<Id, Key>, r: Report, t: System)
    requires Pending(s, r.id) ==> r.id in s.past.raced
    requires if r.id in last then last[r.id] == r.key else r.key == GONE
    requires t.last == last && t.wire == s.wire + [Status(r)] && t.view == s.view
    requires Pending(s, r.id) ==> t.past == s.past
    ensures Sound(t, r.id)
  {
    DrainedAfterSend(s, Status(r));
    LastWordAppend(s.wire, Status(r), r.id);
    RecordSettles(Drained(s), r);
  }

  lemma StatusKeepsInvariant(s: System, last: map<Id, Key>, epoch: nat, r: Report, ok: bool)
    requires Invariant(s)
    requires forall id | id != r.id :: Get(last, id) == Get(s.last, id)
    requires if r.id in last then last[r.id] == r.key else r.key == GONE
    ensures Invariant(SendStatus(s.(last := last), epoch, r, ok))
  {
    var t := SendStatus(s.(last := last), epoch, r, ok);
    forall id ensures (Pending(t, id) ==> id in t.past.raced)
                   && (Seeds(t.wire, id) || Seeds(t.answers, id) ==> id in t.past.orphaned)
    {
      StatusPending(s, last, epoch, r, ok, id);
    }
    if t.up {
      forall id ensures id in t.past.lost || Sound(t, id) {
        StatusSound(s, last, epoch, r, ok, id);
      }
    }
  }

  lemma StatusPending(s: System, last: map<Id, Key>, epoch: nat, r: Report, ok: bool, id: Id)
    requires Pending(s, id) ==> id in s.past.raced
    requires Seeds(s.wire, id) || Seeds(s.answers, id) ==> id in s.past.orphaned
    ensures var t := SendStatus(s.(last := last), epoch, r, ok);
            && (Pending(t, id) ==> id in t.past.raced)
            && (Seeds(t.wire, id) || Seeds(t.answers, id) ==> id in t.past.orphaned)
  {
    assert Pending(s.(last := last), r.id) <==> Pending(s, r.id);
    ResultAppend(s.wire, Status(r), id);
    SeedsArePending(s, id);
  }

  lemma SeedsArePending(s: System, id: Id)
    ensures Seeds(s.wire, id) ==> HasResult(s.wire, id)
    ensures Seeds(s.answers, id) ==> HasResult(s.answers, id)
  {
  }

  lemma ApplyKeepsInvariant(s: System, step: Step)
    requires Invariant(s) && Enabled(s, step) && (step.ApplyOne? || step.ApplyGone?)
    ensures Invariant(Do(s, step))
  {
    match step
    case ApplyOne(id, ok) =>
      var key := s.sweep.todo[id];
      var s1 := s.(sweep := s.sweep.(todo := s.sweep.todo - {id}));
      NothingSaid(s, s1);
      if !(id in s.last && s.last[id] == key) {
        StatusKeepsInvariant(s1, s.last[id := key], s.sweep.epoch, Report(id, key), ok);
      }
    case ApplyGone(id, ok) =>
      StatusKeepsInvariant(s, s.last - {id}, s.sweep.epoch, Report(id, GONE), ok);
  }

  /** A step that neither changes what is remembered nor says anything. */
  lemma NothingSaid(s: System, t: System)
    requires Invariant(s)
    requires t.last == s.last && t.wire == s.wire && t.view == s.view && t.answers == s.answers
    requires t.up == s.up && t.past == s.past && Outstanding(t) == Outstanding(s) && (s.token ==> t.token)
    ensures Invariant(t)
  {
    forall id ensures (Pending(t, id) ==> id in t.past.raced) && (Sound(s, id) ==> Sound(t, id)) {
      assert Pending(t, id) <==> Pending(s, id);
    }
  }

  lemma ForgetKeepsInvariant(s: System, r: Removal)
    requires Invariant(s) && Enabled(s, RemovalForget(r))
    ensures Invariant(Do(s, RemovalForget(r)))
  {
    var t := Do(s, RemovalForget(r));
    assert r.(forgotten := true) in t.removals;
    assert Outstanding(t) == Outstanding(s) + {r.id};
    forall id ensures Pending(t, id) ==> id in t.past.raced {
      assert Pending(t, id) ==> Pending(s, id) || id == r.id;
    }
    if t.up {
      forall id ensures id in t.past.lost || Sound(t, id) {
        if id != r.id && id !in t.past.lost {
          SoundLocal(s, t, id);
        }
      }
    }
  }

  /** A result is written: about its id the last word is Removed, or the
      history says what may come of it. */
  lemma ResultKeepsInvariant(s: System, t: System, m: Message)
    requires Invariant(s) && !m.Status? && t.wire == s.wire + [m]
    requires t.last == s.last && t.view == s.view && t.answers == s.answers && t.up == s.up && t.token == s.token
    requires t.past.lost == s.past.lost
    requires Outstanding(t) <= Outstanding(s) <= Outstanding(t) + {Subject(m)}
    requires s.past.raced <= t.past.raced && Subject(m) in t.past.raced
    requires s.past.orphaned <= t.past.orphaned && (m.Created? ==> m.id in t.past.orphaned)
    ensures Invariant(t)
  {
    forall id ensures (Pending(t, id) ==> id in t.past.raced)
                   && (Seeds(t.wire, id) || Seeds(t.answers, id) ==> id in t.past.orphaned)
    {
      ResultAppend(s.wire, m, id);
      assert Pending(t, id) ==> Pending(s, id) || id == Subject(m);
    }
    if t.up {
      forall id ensures id in t.past.lost || Sound(t, id) {
        if id != Subject(m) && id !in t.past.lost {
          SoundAfterSend(s, t, m, id);
        } else {
          LastWordAppend(s.wire, m, id);
        }
      }
    }
  }

  /** A write that fails leaves its subject on record and a failure behind. */
  lemma LossKeepsInvariant(s: System, t: System, id: Id)
    requires Invariant(s)
    requires t.last == s.last && t.wire == s.wire && t.view == s.view && t.answers == s.answers && t.up == s.up
    requires t.token && t.past.lost == s.past.lost + {id}
    requires s.past.raced <= t.past.raced && s.past.orphaned <= t.past.orphaned
    requires Outstanding(t) <= Outstanding(s) <= Outstanding(t) + {id}
    ensures Invariant(t)
  {
    forall i ensures Pending(t, i) ==> i in t.past.raced {
      assert Pending(t, i) ==> Pending(s, i);
    }
    if t.up {
      forall i ensures i in t.past.lost || Sound(t, i) {
        if i !in t.past.lost {
          SoundLocal(s, t, i);
        }
      }
    }
  }

  lemma ReplyKeepsInvariant(s: System, step: Step)
    requires Invariant(s) && Enabled(s, step) && (step.RemovalReply? || step.CreateReply?)
    ensures Invariant(Do(s, step))
  {
    var t := Do(s, step);
    match step
    case RemovalReply(r, ok) =>
      assert r.id in Outstanding(s) && Pending(s, r.id);
      assert Outstanding(t) <= Outstanding(s) <= Outstanding(t) + {r.id};
      if Sent(s, r.epoch, ok) {
        ResultKeepsInvariant(s, t, Removed(r.id));
      } else {
        LossKeepsInvariant(s, t, r.id);
      }
    case CreateReply(id, endpoint, epoch, ok) =>
      assert Outstanding(t) == Outstanding(s);
      if Sent(s, epoch, ok) {
        ResultKeepsInvariant(s, t, Created(id, endpoint));
      } else {
        LossKeepsInvariant(s, t, id);
      }
  }

  lemma ReadChangesLittle(s: System, waiting: bool)
    requires s.wire != []
    ensures var t := Read(s, waiting);
            && Drained(t) == Drained(s) && Outstanding(t) == Outstanding(s) && t.last == s.last
            && t.past.raced == s.past.raced && s.past.orphaned <= t.past.orphaned
            && forall id :: Removed(id) in s.answers ==> Removed(id) in t.answers
  {
  }

  lemma ReadSilentElsewhere(s: System, waiting: bool, id: Id)
    requires s.wire != [] && Silent(s, id) && Subject(s.wire[0]) != id
    ensures Silent(Read(s, waiting), id)
  {
    ReadChangesLittle(s, waiting);
    LastWordRest(s.wire, id);
    HearElsewhere(s.view, s.wire[0], id);
  }

  /** An instance on its way out of the cache stays on its way. */
  lemma ReadSilent(s: System, waiting: bool, id: Id)
    requires s.wire != [] && Silent(s, id) && "" !in s.view && Subject(s.wire[0]) == id
    requires !s.wire[0].Created?
    ensures Silent(Read(s, waiting), id) || id in Read(s, waiting).past.orphaned
  {
    LastWordRest(s.wire, id);
    var t := Read(s, waiting);
    if s.wire[0].Removed? && waiting {
      assert t.answers[|s.answers|] == Removed(id);
    }
  }

  lemma ReadSound(s: System, waiting: bool, id: Id)
    requires s.wire != [] && Sound(s, id) && "" !in s.view
    requires Seeds(s.wire, id) ==> id in s.past.orphaned
    ensures Sound(Read(s, waiting), id)
  {
    var t, m := Read(s, waiting), s.wire[0];
    ReadChangesLittle(s, waiting);
    if id in s.last {
      AgreeLocal(s.last, Drained(s), t.last, Drained(t), id);
    } else if id !in s.past.orphaned && id !in Outstanding(s) {
      assert m.Created? && m.id == id ==> Seeds(s.wire, id);
      if Subject(m) == id {
        ReadSilent(s, waiting, id);
      } else {
        ReadSilentElsewhere(s, waiting, id);
      }
    }
  }

  lemma ReadPending(s: System, waiting: bool, id: Id)
    requires s.wire != []
    ensures Pending(Read(s, waiting), id) ==> Pending(s, id)
    ensures var t := Read(s, waiting);
            Seeds(t.wire, id) || Seeds(t.answers, id) ==> Seeds(s.wire, id) || Seeds(s.answers, id)
  {
    ReadChangesLittle(s, waiting);
    var m, rest := s.wire[0], s.wire[1..];
    assert s.wire[..0] + rest == rest;
    ResultWithout(s.wire, 0, id);
    assert !m.Status? && Subject(m) == id ==> HasResult(s.wire, id);
    assert m.Created? && m.id == id ==> Seeds(s.wire, id);
    if Read(s, waiting).answers != s.answers {
      ResultAppend(s.answers, m, id);
    }
  }

  lemma ReadKeepsInvariant(s: System, waiting: bool)
    requires Invariant(s) && s.wire != []
    ensures Invariant(Read(s, waiting))
  {
    var t := Read(s, waiting);
    forall id ensures (Pending(t, id) ==> id in t.past.raced)
                   && (Seeds(t.wire, id) || Seeds(t.answers, id) ==> id in t.past.orphaned)
    {
      ReadPending(s, waiting, id);
    }
    if t.up {
      forall id ensures id in t.past.lost || Sound(t, id) {
        if id !in t.past.lost {
          ReadSound(s, waiting, id);
        }
      }
    }
  }

  /** A caller that acts changes the cache only for an id that is raced and, if
      it seeds it, orphaned. */
  lemma ActSound(s: System, index: nat, id: Id)
    requires Invariant(s) && index < |s.answers| && Sound(s, id)
    ensures Sound(Do(s, CallerActs(index)), id)
  {
    var t, m := Do(s, CallerActs(index)), s.answers[index];
    assert Outstanding(t) == Outstanding(s);
    if Subject(m) == id {
      assert HasResult(s.answers, id) && Pending(s, id);
      assert m.Created? ==> Seeds(s.answers, id);
    } else {
      HearAllAt(s.view, t.view, s.wire, id);
      if Removed(id) in s.answers {
        StillThere(s.answers, index, Removed(id));
      }
      SoundLocal(s, t, id);
    }
  }

  lemma StillThere(ms: seq<Message>, index: nat, m: Message)
    requires index < |ms| && m in ms && ms[index] != m
    ensures m in ms[..index] + ms[index + 1..]
  {
    var rest := ms[..index] + ms[index + 1..];
    var k :| 0 <= k < |ms| && ms[k] == m;
    assert rest[if k < index then k else k - 1] == m;
  }

  lemma ActKeepsInvariant(s: System, index: nat)
    requires Invariant(s) && index < |s.answers|
    ensures Invariant(Do(s, CallerActs(index)))
  {
    var t := Do(s, CallerActs(index));
    forall id ensures (Pending(t, id) ==> id in t.past.raced)
                   && (Seeds(t.wire, id) || Seeds(t.answers, id) ==> id in t.past.orphaned)
    {
      ResultWithout(s.answers, index, id);
      assert Pending(t, id) ==> Pending(s, id);
    }
    assert forall k | 0 <= k < |t.answers| :: t.answers[k] == s.answers[if k < index then k else k + 1];
    if t.up {
      forall id ensures id in t.past.lost || Sound(t, id) {
        if id !in t.past.lost {
          ActSound(s, index, id);
        }
      }
    }
  }

  lemma ReturnKeepsInvariant(s: System, consume: bool, kept: nat)
    requires Invariant(s) && Enabled(s, RunReturns(consume, kept))
    ensures Invariant(Do(s, RunReturns(consume, kept)))
  {
    var t := Do(s, RunReturns(consume, kept));
    assert forall i | 0 <= i < kept :: t.wire[i] == s.wire[i];
    forall id ensures Pending(t, id) ==> id in t.past.raced {
      assert Pending(t, id) ==> Pending(s, id);
    }
  }

  lemma RestartKeepsInvariant(s: System, forgets: bool)
    requires Invariant(s) && Enabled(s, RunStarts(forgets))
    ensures Invariant(Do(s, RunStarts(forgets)))
  {
    var t := Do(s, RunStarts(forgets));
    NeverNameless(s.view, s.wire);
    assert Outstanding(t) == Outstanding(s);
    forall id ensures (Pending(t, id) ==> id in t.past.raced) && Sound(t, id)
                   && (Seeds(t.wire, id) || Seeds(t.answers, id) ==> id in t.past.orphaned)
    {
      if HasResult(t.answers, id) || Seeds(t.answers, id) {
        var i :| 0 <= i < |t.answers| && Subject(t.answers[i]) == id;
        assert id in Subjects(t.answers);
      }
    }
  }

  lemma StepKeepsInvariant(s: System, step: Step)
    requires Invariant(s) && Enabled(s, step)
    ensures Invariant(Do(s, step))
  {
    match step
    case ApplyOne(_, _) => ApplyKeepsInvariant(s, step);
    case ApplyGone(_, _) => ApplyKeepsInvariant(s, step);
    case RemovalForget(r) => ForgetKeepsInvariant(s, r);
    case RemovalReply(_, _) => ReplyKeepsInvariant(s, step);
    case CreateReply(_, _, _, _) => ReplyKeepsInvariant(s, step);
    case Deliver(waiting) => ReadKeepsInvariant(s, waiting);
    case CallerActs(index) => ActKeepsInvariant(s, index);
    case RunReturns(consume, kept) => ReturnKeepsInvariant(s, consume, kept);
    case RunStarts(forgets) => RestartKeepsInvariant(s, forgets);
    case RemovalStart(_) => NothingSaid(s, Do(s, step));
    case ClusterChanges(_) => NothingSaid(s, Do(s, step));
    case List(_) => NothingSaid(s, Do(s, step));
    case ApplyStart(_) => NothingSaid(s, Do(s, step));
    case ApplyEnd => NothingSaid(s, Do(s, step));
    case OtherWrite(_, _) => NothingSaid(s, Do(s, step));
  }

  lemma {:induction false} RunsKeepInvariant(s: System, steps: seq<Step>)
    requires Invariant(s) && Possible(s, steps)
    ensures Invariant(After(s, steps))
    decreases steps
  {
    if steps != [] {
      StepKeepsInvariant(s, steps[0]);
      RunsKeepInvariant(Do(s, steps[0]), steps[1..]);
    }
  }

  /** The cache may hold something about id that the agent's memory does not
      account for: a result raced a status, or the cache shows what the agent
      does not remember. */
  predicate Unaccounted(s: System, id: Id) {
    if id in s.last then id in s.past.raced else id in s.past.orphaned
  }

  /** With no result about id under way, being sound is being agreed. */
  lemma SoundMeansAgreed(s: System, id: Id)
    requires "" !in s.view && Sound(s, id) && !Pending(s, id) && !Unaccounted(s, id)
    ensures Agreed(s, id)
  {
    if id !in s.last {
      assert Removed(id) in s.answers ==> HasResult(s.answers, id);
      forall i | 0 <= i < |s.wire| && Subject(s.wire[i]) == id ensures s.wire[i].Status? {
        assert !HasResult(s.wire, id);
      }
      LastWordIsOne(s.wire, id);
      LastWordDecides(s.view, s.wire, id);
    }
  }

  lemma {:induction false} LastWordIsOne(ms: seq<Message>, id: Id)
    ensures LastWord(ms, id).Some? ==>
            exists i :: 0 <= i < |ms| && ms[i] == LastWord(ms, id).value && Subject(ms[i]) == id
    decreases ms
  {
    if ms != [] && Subject(ms[|ms| - 1]) != id {
      LastWordIsOne(ms[..|ms| - 1], id);
    }
  }

  /** The step writes, and the write does not get through. */
  predicate WriteFails(s: System, step: Step)
    requires Enabled(s, step)
  {
    match step
    case ApplyOne(id, ok) =>
      (id in s.last ==> s.last[id] != s.sweep.todo[id]) && !(ok && s.sweep.epoch == s.epoch && s.up)
    case ApplyGone(_, ok) => !(ok && s.sweep.epoch == s.epoch && s.up)
    case RemovalReply(r, ok) => !(ok && r.epoch == s.epoch && s.up)
    case CreateReply(_, _, epoch, ok) => !(ok && epoch == s.epoch && s.up)
    case OtherWrite(epoch, ok) => !(ok && epoch == s.epoch && s.up)
    case _ => false
  }

  /** A failure waits after a step exactly if one waited and was not consumed,
      or a write of the step failed - whatever the write was about. */
  lemma FailureWaitsIff(s: System, step: Step)
    requires Enabled(s, step)
    ensures Do(s, step).token <==> (s.token && !(step.RunReturns? && step.consume)) || WriteFails(s, step)
  {
    match step
    case ApplyOne(id, ok) =>
      var key := s.sweep.todo[id];
      var t := s.(sweep := s.sweep.(todo := s.sweep.todo - {id}));
      StatusFailureWaits(t.(last := t.last[id := key]), s.sweep.epoch, Report(id, key), ok);
    case ApplyGone(id, ok) => StatusFailureWaits(s.(last := s.last - {id}), s.sweep.epoch, Report(id, GONE), ok);
    case _ =>
  }

  lemma StatusFailureWaits(s: System, epoch: nat, r: Report, ok: bool)
    ensures SendStatus(s, epoch, r, ok).token <==> s.token || !(ok && epoch == s.epoch && s.up)
  {
  }

  /** In every run, under every interleaving and every pattern of failed
      writes: no write is lost without a failure that will bring Run down; and
      while a connection has no failure pending, cache and lastReported agree
      on every id with no result under way, unless its history names it. */
  lemma NothingLostSilently(s: System, steps: seq<Step>)
    requires Initial(s) && Possible(s, steps)
    ensures var t := After(s, steps);
            && (t.past.lost != {} ==> t.token || !t.up)
            && (t.up && !t.token ==> forall id :: Pending(t, id) || Unaccounted(t, id) || Agreed(t, id))
  {
    assert Invariant(s);
    RunsKeepInvariant(s, steps);
    var t := After(s, steps);
    if t.up && !t.token {
      forall id | !Pending(t, id) && !Unaccounted(t, id) ensures Agreed(t, id) {
        SoundMeansAgreed(t, id);
      }
    }
  }
}
