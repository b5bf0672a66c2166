/** What the agent tells the control plane about an instance, and the status
    cache the control plane keeps from it (pkg/cluster/agent.go). */
module Statuses {

  type Id = string

  /** The endpoint fields of an instance status. */
  datatype Endpoint = Endpoint(url: string, dns: string, ip: string, tlsEnabled: bool, tlsReady: bool)

  /** The fields a status sweep compares to decide whether anything changed. */
  datatype Key = Key(status: string, endpoint: Endpoint)

  datatype Report = Report(id: Id, key: Key)

  /** The control plane's cache, on the compared fields. */
  type View = map<Id, Key>

  const TERMINATED := "terminated"
  const NO_ENDPOINT := Endpoint("", "", "", false, false)
  const GONE := Key(TERMINATED, NO_ENDPOINT)

  // ---------------------------------------------------------------------
  // The dedup key
  // ---------------------------------------------------------------------

  function Flag(b: bool): string {
    if b then "true" else "false"
  }

  /** The string the agent stores per instance. */
  function Joined(k: Key): string {
    k.status + "|" + (k.endpoint.url + "|" + (k.endpoint.dns + "|" + (k.endpoint.ip + "|"
    + (Flag(k.endpoint.tlsEnabled) + "|" + Flag(k.endpoint.tlsReady)))))
  }

  predicate BarFree(k: Key) {
    '|' !in k.status && '|' !in k.endpoint.url && '|' !in k.endpoint.dns && '|' !in k.endpoint.ip
  }

  lemma FirstBar(a: string, x: string, b: string, y: string)
    requires '|' !in a && '|' !in b
    requires a + "|" + x == b + "|" + y
    ensures a == b && x == y
  {
    var s, t := a + "|" + x, b + "|" + y;
    assert s[|a|] == '|' && t[|b|] == '|';
    assert forall i | 0 <= i < |a| :: s[i] == a[i] && a[i] in a;
    assert forall i | 0 <= i < |b| :: t[i] == b[i] && b[i] in b;
    assert |a| == |b|;
    assert a == s[..|a|] && b == t[..|b|];
    assert x == s[|a| + 1..] && y == t[|b| + 1..];
  }

  /** Comparing the stored strings is comparing the fields, as long as no
      text field holds the separator. */
  lemma JoinedIsFaithful(k: Key, l: Key)
    requires BarFree(k) && BarFree(l)
    ensures Joined(k) == Joined(l) <==> k == l
  {
    if Joined(k) == Joined(l) {
      var d, e := k.endpoint, l.endpoint;
      var k4, l4 := Flag(d.tlsEnabled) + "|" + Flag(d.tlsReady), Flag(e.tlsEnabled) + "|" + Flag(e.tlsReady);
      var k3, l3 := d.ip + "|" + k4, e.ip + "|" + l4;
      var k2, l2 := d.dns + "|" + k3, e.dns + "|" + l3;
      var k1, l1 := d.url + "|" + k2, e.url + "|" + l2;
      FirstBar(k.status, k1, l.status, l1);
      FirstBar(d.url, k2, e.url, l2);
      FirstBar(d.dns, k3, e.dns, l3);
      FirstBar(d.ip, k4, e.ip, l4);
      FirstBar(Flag(d.tlsEnabled), Flag(d.tlsReady), Flag(e.tlsEnabled), Flag(e.tlsReady));
    }
  }

  /** With the separator inside a field, two different statuses share a key. */
  lemma JoinedCollides()
    ensures exists k: Key, l: Key :: k != l && Joined(k) == Joined(l)
  {
    var k := Key("running", Endpoint("a", "b|c", "", false, false));
    var l := Key("running", Endpoint("a|b", "c", "", false, false));
    assert Joined(k) == Joined(l) == "running|a|b|c||false|false";
    assert k != l;
  }

  // ---------------------------------------------------------------------
  // The control plane's cache
  // ---------------------------------------------------------------------

  /** RecordStatus: terminated is final, and a report without endpoint
      fields keeps the endpoint already known. */
  function Record(v: View, r: Report): View {
    if r.id == "" then v
    else if r.id !in v then v[r.id := r.key]
    else if v[r.id].status == TERMINATED && r.key.status != TERMINATED then v
    else if r.key.endpoint == NO_ENDPOINT then v[r.id := Key(r.key.status, v[r.id].endpoint)]
    else v[r.id := r.key]
  }

  function RecordAll(v: View, rs: seq<Report>): View
    decreases rs
  {
    if rs == [] then v else RecordAll(Record(v, rs[0]), rs[1..])
  }

  /** Sending r once more would change nothing. */
  ghost predicate Settled(v: View, r: Report) {
    Record(v, r) == v
  }

  /** What a settled report says about the cache, field by field. */
  lemma SettledMeans(v: View, r: Report)
    ensures Settled(v, r) <==>
            (r.id == "" ||
             (r.id in v &&
              ((v[r.id].status == TERMINATED && r.key.status != TERMINATED) ||
               (v[r.id].status == r.key.status &&
                (r.key.endpoint == NO_ENDPOINT || v[r.id].endpoint == r.key.endpoint)))))
  {
    if r.id != "" && r.id in v {
      assert v == v[r.id := v[r.id]];
      assert Record(v, r)[r.id] == v[r.id] <==> Record(v, r) == v;
    }
  }

  lemma RecordSettles(v: View, r: Report)
    ensures Settled(Record(v, r), r)
  {
    SettledMeans(Record(v, r), r);
  }

  lemma RecordCommutes(v: View, r: Report, q: Report)
    requires r.id != q.id
    ensures Record(Record(v, r), q) == Record(Record(v, q), r)
  {
  }

  lemma SettledElsewhere(v: View, r: Report, q: Report)
    requires r.id != q.id && Settled(v, q)
    ensures Settled(Record(v, r), q)
  {
    RecordCommutes(v, r, q);
  }

  lemma {:induction false} RecordAllConcat(v: View, rs: seq<Report>, qs: seq<Report>)
    ensures RecordAll(v, rs + qs) == RecordAll(RecordAll(v, rs), qs)
    decreases rs
  {
    if rs == [] {
      assert rs + qs == qs;
    } else {
      assert (rs + qs)[0] == rs[0] && (rs + qs)[1..] == rs[1..] + qs;
      RecordAllConcat(Record(v, rs[0]), rs[1..], qs);
    }
  }

  /** Once an instance is recorded as terminated, no stream of reports,
      however long, brings it back. */
  lemma {:induction false} TerminatedIsFinal(v: View, rs: seq<Report>, id: Id)
    requires id in v && v[id].status == TERMINATED
    ensures id in RecordAll(v, rs) && RecordAll(v, rs)[id].status == TERMINATED
    decreases rs
  {
    if rs != [] {
      TerminatedIsFinal(Record(v, rs[0]), rs[1..], id);
    }
  }

  // ---------------------------------------------------------------------
  // What a stream of reports leaves in the cache
  // ---------------------------------------------------------------------

  /** A report without endpoint fields leaves the known endpoint as it is. */
  lemma EndpointIsKept(v: View, r: Report)
    requires r.id in v && r.key.endpoint == NO_ENDPOINT
    ensures r.id in Record(v, r) && Record(v, r)[r.id].endpoint == v[r.id].endpoint
  {
  }

  /** Before the n-th report, id had been reported, or was known, as
      terminated. */
  ghost predicate EndedBefore(v: View, rs: seq<Report>, id: Id, n: int)
    requires n <= |rs|
  {
    (id in v && v[id].status == TERMINATED) ||
    exists j :: 0 <= j < n && rs[j].id == id && rs[j].key.status == TERMINATED
  }

  /** The i-th report is about id and is not refused. */
  ghost predicate Heeded(v: View, rs: seq<Report>, id: Id, i: int) {
    0 <= i < |rs| && rs[i].id == id && (rs[i].key.status == TERMINATED || !EndedBefore(v, rs, id, i))
  }

  /** And it carries an endpoint. */
  ghost predicate Carries(v: View, rs: seq<Report>, id: Id, i: int) {
    Heeded(v, rs, id, i) && rs[i].key.endpoint != NO_ENDPOINT
  }

  /** The last heeded report, and the last that carried an endpoint; -1 if
      there is none. */
  ghost predicate LastHeeded(v: View, rs: seq<Report>, id: Id, i: int) {
    -1 <= i < |rs| && (i >= 0 ==> Heeded(v, rs, id, i)) && forall k | i < k < |rs| :: !Heeded(v, rs, id, k)
  }

  ghost predicate LastCarrying(v: View, rs: seq<Report>, id: Id, i: int) {
    -1 <= i < |rs| && (i >= 0 ==> Carries(v, rs, id, i)) && forall k | i < k < |rs| :: !Carries(v, rs, id, k)
  }

  /** What the cache shows for id after a stream whose last heeded report is the
      i-th, and whose last that carried an endpoint is the e-th. */
  ghost predicate Shows(v: View, rs: seq<Report>, id: Id, i: int, e: int, w: View)
    requires -1 <= i < |rs| && -1 <= e < |rs|
  {
    && (id in w <==> id in v || i >= 0)
    && (id in w ==> w[id].status == if i >= 0 then rs[i].key.status else v[id].status)
    && (id in w ==> w[id].endpoint == if e >= 0 then rs[e].key.endpoint
                                      else if id in v then v[id].endpoint else NO_ENDPOINT)
  }

  lemma OneMoreHeeded(v: View, rs: seq<Report>, r: Report, id: Id)
    ensures forall k | 0 <= k < |rs| :: Heeded(v, rs + [r], id, k) <==> Heeded(v, rs, id, k)
    ensures forall k | 0 <= k < |rs| :: Carries(v, rs + [r], id, k) <==> Carries(v, rs, id, k)
    ensures Heeded(v, rs + [r], id, |rs|) <==>
            r.id == id && (r.key.status == TERMINATED || !EndedBefore(v, rs, id, |rs|))
  {
    forall k | 0 <= k <= |rs| ensures EndedBefore(v, rs + [r], id, k) <==> EndedBefore(v, rs, id, k) {
      assert forall j | 0 <= j < k :: (rs + [r])[j] == rs[j];
    }
  }

  /** Once terminated, and only once, the cache shows it. */
  lemma {:induction false} EndedIsShown(v: View, rs: seq<Report>, id: Id)
    requires id != ""
    ensures EndedBefore(v, rs, id, |rs|) <==> id in RecordAll(v, rs) && RecordAll(v, rs)[id].status == TERMINATED
    decreases rs
  {
    if rs != [] {
      var n := |rs| - 1;
      var r := rs[n];
      EndedIsShown(v, rs[..n], id);
      assert rs == rs[..n] + [r];
      RecordAllConcat(v, rs[..n], [r]);
      assert EndedBefore(v, rs, id, n) <==> EndedBefore(v, rs[..n], id, n);
      assert EndedBefore(v, rs, id, n + 1) <==>
             EndedBefore(v, rs, id, n) || (r.id == id && r.key.status == TERMINATED);
    }
  }

  lemma OneMoreShown(v: View, rs: seq<Report>, r: Report, id: Id, i: int, e: int, w: View) returns (i': int, e': int)
    requires id != "" && LastHeeded(v, rs, id, i) && LastCarrying(v, rs, id, e) && Shows(v, rs, id, i, e, w)
    requires EndedBefore(v, rs, id, |rs|) <==> id in w && w[id].status == TERMINATED
    ensures LastHeeded(v, rs + [r], id, i') && LastCarrying(v, rs + [r], id, e')
    ensures Shows(v, rs + [r], id, i', e', Record(w, r))
  {
    OneMoreHeeded(v, rs, r, id);
    i', e' := i, e;
    if Heeded(v, rs + [r], id, |rs|) {
      i' := |rs|;
      if r.key.endpoint != NO_ENDPOINT {
        e' := |rs|;
      }
    }
  }

  /** After any stream of reports an instance shows the status of the last
      report that was not refused after its termination, and the endpoint of the
      last such report that carried one; what the cache held before stands in
      for either if there was none. */
  lemma {:induction false} LastWordStands(v: View, rs: seq<Report>, id: Id) returns (i: int, e: int)
    requires id != ""
    ensures LastHeeded(v, rs, id, i) && LastCarrying(v, rs, id, e)
    ensures Shows(v, rs, id, i, e, RecordAll(v, rs))
    decreases rs
  {
    if rs == [] {
      i, e := -1, -1;
    } else {
      var before, r := rs[..|rs| - 1], rs[|rs| - 1];
      i, e := LastWordStands(v, before, id);
      EndedIsShown(v, before, id);
      i, e := OneMoreShown(v, before, r, id, i, e, RecordAll(v, before));
      assert rs == before + [r];
      RecordAllConcat(v, before, [r]);
      assert RecordAll(v, rs) == Record(RecordAll(v, before), r);
    }
  }
}
