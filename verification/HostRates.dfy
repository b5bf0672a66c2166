/** What an agent reports about its host's load between two readings
    (Runner.hostUtilization, pkg/agentrunner/runner.go, and the rate functions
    of pkg/agentrunner/hostmetrics.go). Rates are reals. */
module HostRates {
  import opened CpuUsage
  import opened Options
  import opened ProcParse
  import opened Text

  const MB := 1024.0 * 1024.0
  const SECTOR := 512.0

  datatype Rates = Rates(a: real, b: real)

  const NO_RATES := Rates(0.0, 0.0)

  /** A reading, and when it was taken, in seconds. */
  datatype Stamped = Stamped(counters: Pair, at: real)

  /** Nothing, if no time has passed or either counter went back. unit is what
      one count stands for, in bytes. */
  function RatesBetween(prev: Pair, cur: Pair, elapsed: real, unit: real): Option<Rates> {
    if elapsed <= 0.0 || cur.a < prev.a || cur.b < prev.b then None
    else Some(Rates(PerSecond(cur.a - prev.a, unit, elapsed), PerSecond(cur.b - prev.b, unit, elapsed)))
  }

  function PerSecond(delta: int, unit: real, elapsed: real): real
    requires elapsed > 0.0
  {
    delta as real * unit / MB / elapsed
  }

  // ---------------------------------------------------------------------
  // One report
  // ---------------------------------------------------------------------

  /** What one metric reports, given the last good reading. */
  function Reported(last: Option<Stamped>, read: Option<Pair>, now: real, unit: real): Rates {
    if read.None? || last.None? then NO_RATES
    else
      var rates := RatesBetween(last.value.counters, read.value, now - last.value.at, unit);
      if rates.Some? then rates.value else NO_RATES
  }

  /** Only a good reading becomes the next baseline. */
  function Baseline(last: Option<Stamped>, read: Option<Pair>, now: real): Option<Stamped> {
    if read.Some? then Some(Stamped(read.value, now)) else last
  }

  function CpuReported(last: Option<Sample>, read: Option<Sample>): real {
    if read.None? || last.None? || CpuPercent(last.value, read.value).None? then 0.0
    else CpuPercent(last.value, read.value).value
  }

  /** The three files, as far as they could be read and parsed. */
  datatype Reading = Reading(now: real, cpu: Option<Sample>, net: Option<Pair>, disk: Option<Pair>)

  /** What the runner remembers between reports. */
  datatype Host = Host(cpu: Option<Sample>, net: Option<Stamped>, disk: Option<Stamped>)

  datatype Load = Load(cpuPercent: real, net: Rates, disk: Rates)

  function Next(h: Host, r: Reading): Host {
    Host(if r.cpu.Some? then r.cpu else h.cpu, Baseline(h.net, r.net, r.now), Baseline(h.disk, r.disk, r.now))
  }

  function Reporting(h: Host, r: Reading): Load {
    Load(CpuReported(h.cpu, r.cpu), Reported(h.net, r.net, r.now, 1.0), Reported(h.disk, r.disk, r.now, SECTOR))
  }

  class HostUtilization {
    var lastCpu: Option<Sample>
    var lastNet: Option<Stamped>
    var lastDisk: Option<Stamped>

    function State(): Host
      reads this
    {
      Host(lastCpu, lastNet, lastDisk)
    }

    constructor ()
      ensures State() == Host(None, None, None)
    {
      lastCpu, lastNet, lastDisk := None, None, None;
    }

    method Report(r: Reading) returns (load: Load)
      modifies this
      ensures load == old(Reporting(State(), r))
      ensures State() == old(Next(State(), r))
    {
      var cpuPercent, net, disk := 0.0, NO_RATES, NO_RATES;
      if r.cpu.Some? {
        if lastCpu.Some? {
          var percent := CpuPercent(lastCpu.value, r.cpu.value);
          if percent.Some? {
            cpuPercent := percent.value;
          }
        }
        lastCpu := r.cpu;
      }
      if r.net.Some? {
        if lastNet.Some? {
          var rates := RatesBetween(lastNet.value.counters, r.net.value, r.now - lastNet.value.at, 1.0);
          if rates.Some? {
            net := rates.value;
          }
        }
        lastNet := Some(Stamped(r.net.value, r.now));
      }
      if r.disk.Some? {
        if lastDisk.Some? {
          var rates := RatesBetween(lastDisk.value.counters, r.disk.value, r.now - lastDisk.value.at, SECTOR);
          if rates.Some? {
            disk := rates.value;
          }
        }
        lastDisk := Some(Stamped(r.disk.value, r.now));
      }
      return Load(cpuPercent, net, disk);
    }

    /** The periodic reports. */
    method Run(rs: seq<Reading>) returns (loads: seq<Load>)
      modifies this
      ensures loads == old(Reports(State(), rs))
      ensures State() == old(Remembered(State(), rs))
    {
      loads := [];
      ghost var h := State();
      for i := 0 to |rs|
        invariant loads + Reports(State(), rs[i..]) == Reports(h, rs)
        invariant Remembered(State(), rs[i..]) == Remembered(h, rs)
      {
        assert rs[i..][1..] == rs[i + 1..];
        var load := Report(rs[i]);
        loads := loads + [load];
      }
    }
  }

  // ---------------------------------------------------------------------
  // Whole runs
  // ---------------------------------------------------------------------

  /** What a run of reports says, from what is remembered at its start. */
  function Reports(h: Host, rs: seq<Reading>): (loads: seq<Load>)
    ensures |loads| == |rs|
    decreases rs
  {
    if rs == [] then [] else [Reporting(h, rs[0])] + Reports(Next(h, rs[0]), rs[1..])
  }

  /** What is remembered after it. */
  function Remembered(h: Host, rs: seq<Reading>): Host
    decreases rs
  {
    if rs == [] then h else Remembered(Next(h, rs[0]), rs[1..])
  }

  /** Of the first n readings the k-th is the last with a good CPU sample; -1 if
      there is none. */
  ghost predicate LastCpu(rs: seq<Reading>, n: nat, k: int) {
    -1 <= k < n <= |rs| && (k >= 0 ==> rs[k].cpu.Some?) && forall j | k < j < n :: rs[j].cpu.None?
  }

  /** At every report of a run, the CPU figure is the utilisation between the
      last good sample before it and this one; zero if either is missing, or no
      time passed. */
  lemma {:induction false} CpuFigureIs(h: Host, rs: seq<Reading>, i: nat, k: int)
    requires i < |rs| && LastCpu(rs, i, k)
    ensures var prev, cur := if k >= 0 then rs[k].cpu else h.cpu, rs[i].cpu;
            Reports(h, rs)[i].cpuPercent ==
            if prev.Some? && cur.Some? && CpuPercent(prev.value, cur.value).Some?
            then CpuPercent(prev.value, cur.value).value else 0.0
    decreases rs
  {
    if i > 0 {
      CpuFigureIs(Next(h, rs[0]), rs[1..], i - 1, if k >= 0 then k - 1 else -1);
    }
  }

  /** After a run, the CPU sample that is remembered is the last good one read,
      or the one remembered before. */
  lemma {:induction false} CpuRemembered(h: Host, rs: seq<Reading>, k: int)
    requires LastCpu(rs, |rs|, k)
    ensures Remembered(h, rs).cpu == if k >= 0 then rs[k].cpu else h.cpu
    decreases rs
  {
    if rs != [] {
      CpuRemembered(Next(h, rs[0]), rs[1..], if k >= 0 then k - 1 else -1);
    }
  }

  /** Two hosts that read the same of the network at the same times report the
      same of it, whatever their CPUs and disks do and whichever of those reads
      fail; and so for disks. */
  lemma {:induction false} MetricsAreIndependent(h: Host, g: Host, rs: seq<Reading>, qs: seq<Reading>, i: nat)
    requires i < |rs| == |qs| && forall k | 0 <= k < |rs| :: rs[k].now == qs[k].now
    ensures h.net == g.net && (forall k | 0 <= k <= i :: rs[k].net == qs[k].net) ==>
            Reports(h, rs)[i].net == Reports(g, qs)[i].net
    ensures h.disk == g.disk && (forall k | 0 <= k <= i :: rs[k].disk == qs[k].disk) ==>
            Reports(h, rs)[i].disk == Reports(g, qs)[i].disk
    decreases rs
  {
    if 0 < i {
      assert forall k | 0 <= k < |rs| - 1 :: rs[1..][k] == rs[k + 1] && qs[1..][k] == qs[k + 1];
      MetricsAreIndependent(Next(h, rs[0]), Next(g, qs[0]), rs[1..], qs[1..], i - 1);
    }
  }

  /** One metric's reads in a run. */
  datatype Read = Read(now: real, counters: Option<Pair>)

  function NetReads(rs: seq<Reading>): (ns: seq<Read>)
    ensures |ns| == |rs|
  {
    if rs == [] then [] else [Read(rs[0].now, rs[0].net)] + NetReads(rs[1..])
  }

  function DiskReads(rs: seq<Reading>): (ns: seq<Read>)
    ensures |ns| == |rs|
  {
    if rs == [] then [] else [Read(rs[0].now, rs[0].disk)] + DiskReads(rs[1..])
  }

  function AllReported(last: Option<Stamped>, rs: seq<Read>, unit: real): (rates: seq<Rates>)
    ensures |rates| == |rs|
    decreases rs
  {
    if rs == [] then []
    else [Reported(last, rs[0].counters, rs[0].now, unit)] +
         AllReported(Baseline(last, rs[0].counters, rs[0].now), rs[1..], unit)
  }

  /** A run's network and disk figures are each that metric's own. */
  lemma {:induction false} ReportsByMetric(h: Host, rs: seq<Reading>, i: nat)
    requires i < |rs|
    ensures Reports(h, rs)[i].net == AllReported(h.net, NetReads(rs), 1.0)[i]
    ensures Reports(h, rs)[i].disk == AllReported(h.disk, DiskReads(rs), 512.0)[i]
    decreases rs
  {
    assert NetReads(rs)[1..] == NetReads(rs[1..]) && DiskReads(rs)[1..] == DiskReads(rs[1..]);
    if 0 < i {
      ReportsByMetric(Next(h, rs[0]), rs[1..], i - 1);
    }
  }

  ghost predicate LastGood(rs: seq<Read>, n: nat, k: int) {
    -1 <= k < n <= |rs| && (k >= 0 ==> rs[k].counters.Some?) && forall j | k < j < n :: rs[j].counters.None?
  }

  /** Megabytes per second. */
  function Throughput(delta: int, bytesEach: real, elapsed: real): real
    requires elapsed > 0.0
  {
    delta as real * bytesEach / 1048576.0 / elapsed
  }

  /** At every report of a run, a metric's two rates are what the counters
      advanced since its last good reading, over the time since; zero if either
      reading is missing, no time passed or a counter went back. */
  lemma {:induction false} RateIs(last: Option<Stamped>, rs: seq<Read>, unit: real, i: nat, k: int)
    requires i < |rs| && LastGood(rs, i, k)
    ensures var prev := if k >= 0 then Some(Stamped(rs[k].counters.value, rs[k].now)) else last;
            AllReported(last, rs, unit)[i] ==
            if prev.Some? && rs[i].counters.Some? && rs[i].now > prev.value.at
               && rs[i].counters.value.a >= prev.value.counters.a && rs[i].counters.value.b >= prev.value.counters.b
            then Rates(Throughput(rs[i].counters.value.a - prev.value.counters.a, unit, rs[i].now - prev.value.at),
                       Throughput(rs[i].counters.value.b - prev.value.counters.b, unit, rs[i].now - prev.value.at))
            else Rates(0.0, 0.0)
    decreases rs
  {
    if i > 0 {
      RateIs(Baseline(last, rs[0].counters, rs[0].now), rs[1..], unit, i - 1, if k >= 0 then k - 1 else -1);
    }
  }

  /** What is remembered of the network and the disks is their last good
      reading. */
  lemma {:induction false} BaselinesRemembered(h: Host, rs: seq<Reading>)
    ensures Remembered(h, rs).net == Final(h.net, NetReads(rs))
    ensures Remembered(h, rs).disk == Final(h.disk, DiskReads(rs))
    decreases rs
  {
    if rs != [] {
      assert NetReads(rs)[1..] == NetReads(rs[1..]) && DiskReads(rs)[1..] == DiskReads(rs[1..]);
      BaselinesRemembered(Next(h, rs[0]), rs[1..]);
    }
  }

  /** One of the two counters, and its rate. */
  datatype Which = A | B

  function Counter(p: Pair, w: Which): nat {
    if w.A? then p.a else p.b
  }

  function Rate(r: Rates, w: Which): real {
    if w.A? then r.a else r.b
  }

  /** The bytes one report accounts for: its rate times the time since the last
      good reading. */
  function Bytes(last: Option<Stamped>, r: Read, unit: real, w: Which): real {
    if last.None? then 0.0
    else Rate(Reported(last, r.counters, r.now, unit), w) * (r.now - last.value.at) * MB
  }

  function Volume(last: Option<Stamped>, rs: seq<Read>, unit: real, w: Which): real
    decreases rs
  {
    if rs == [] then 0.0
    else Bytes(last, rs[0], unit, w) + Volume(Baseline(last, rs[0].counters, rs[0].now), rs[1..], unit, w)
  }

  /** How far a counter moved over the interval that ends with this read, if
      both its ends are good. */
  function Advance(last: Option<Stamped>, r: Read, w: Which): int {
    if last.Some? && r.counters.Some? then Counter(r.counters.value, w) - Counter(last.value.counters, w) else 0
  }

  /** The interval is reported. */
  predicate Accepted(last: Option<Stamped>, r: Read) {
    last.Some? && r.counters.Some? && RatesBetween(last.value.counters, r.counters.value, r.now - last.value.at, 1.0).Some?
  }

  function Step(last: Option<Stamped>, r: Read, accepted: bool, w: Which): int {
    if Accepted(last, r) == accepted then Advance(last, r, w) else 0
  }

  /** A count, in bytes. */
  function Scaled(n: int, unit: real): real {
    n as real * unit
  }

  /** How far the counter moved over the intervals that were reported, or over
      those that were skipped. */
  function Advanced(last: Option<Stamped>, rs: seq<Read>, accepted: bool, w: Which): int
    decreases rs
  {
    if rs == [] then 0
    else Step(last, rs[0], accepted, w) +
         Advanced(Baseline(last, rs[0].counters, rs[0].now), rs[1..], accepted, w)
  }

  lemma RateTimesTime(delta: int, unit: real, elapsed: real)
    requires elapsed > 0.0
    ensures PerSecond(delta, unit, elapsed) * elapsed * MB == Scaled(delta, unit)
  {
    var bytes := delta as real * unit;
    assert bytes / MB / elapsed * elapsed == bytes / MB;
  }

  /** One interval: its volume is its advance, if it is reported. */
  lemma OneInterval(last: Option<Stamped>, r: Read, unit: real, w: Which)
    ensures Bytes(last, r, unit, w) == Scaled(Step(last, r, true, w), unit)
  {
    if Accepted(last, r) {
      RateTimesTime(Advance(last, r, w), unit, r.now - last.value.at);
    }
  }

  lemma Distribute(x: int, y: int, unit: real)
    ensures Scaled(x + y, unit) == Scaled(x, unit) + Scaled(y, unit)
  {
    assert (x + y) as real == x as real + y as real;
  }

  /** The reported volume is what the reported intervals advanced. */
  lemma {:induction false} VolumeIsAccepted(last: Option<Stamped>, rs: seq<Read>, unit: real, w: Which)
    ensures Volume(last, rs, unit, w) == Scaled(Advanced(last, rs, true, w), unit)
    decreases rs
  {
    if rs != [] {
      var next := Baseline(last, rs[0].counters, rs[0].now);
      VolumeIsAccepted(next, rs[1..], unit, w);
      OneInterval(last, rs[0], unit, w);
      Distribute(Step(last, rs[0], true, w), Advanced(next, rs[1..], true, w), unit);
    }
  }

  /** The last good reading of a run. */
  function Final(last: Option<Stamped>, rs: seq<Read>): Option<Stamped>
    decreases rs
  {
    if rs == [] then last else Final(Baseline(last, rs[0].counters, rs[0].now), rs[1..])
  }

  /** Reported and skipped intervals together: last good reading minus first. */
  lemma {:induction false} AdvancesTelescope(first: Stamped, rs: seq<Read>, w: Which)
    ensures var last := Final(Some(first), rs);
            && last.Some?
            && Advanced(Some(first), rs, true, w) + Advanced(Some(first), rs, false, w) ==
               Counter(last.value.counters, w) - Counter(first.counters, w)
    decreases rs
  {
    if rs != [] {
      AdvancesTelescope(Baseline(Some(first), rs[0].counters, rs[0].now).value, rs[1..], w);
    }
  }

  /** Nothing between two good readings went uncounted. */
  predicate NothingSkipped(last: Option<Stamped>, rs: seq<Read>)
    decreases rs
  {
    rs == [] ||
    ((last.Some? && rs[0].counters.Some? ==> Accepted(last, rs[0])) &&
     NothingSkipped(Baseline(last, rs[0].counters, rs[0].now), rs[1..]))
  }

  lemma {:induction false} NothingSkippedNothingMissed(last: Option<Stamped>, rs: seq<Read>, w: Which)
    requires NothingSkipped(last, rs)
    ensures Advanced(last, rs, false, w) == 0
    decreases rs
  {
    if rs != [] {
      NothingSkippedNothingMissed(Baseline(last, rs[0].counters, rs[0].now), rs[1..], w);
    }
  }

  lemma OneUnit(x: int, y: int, unit: real)
    requires unit > 0.0
    ensures Scaled(x, unit) == Scaled(y, unit) <==> x == y
  {
    if x < y {
      assert (y - x) as real * unit > 0.0;
      Distribute(y - x, x, unit);
    } else if y < x {
      assert (x - y) as real * unit > 0.0;
      Distribute(x - y, y, unit);
    }
  }

  /** Conservation: over any run of reports, with any reads failing in between,
      the volumes reported add up to the last good counter minus the first
      exactly when the skipped intervals cancel out - as they do when no
      interval was skipped. */
  lemma VolumeIsConserved(first: Stamped, rs: seq<Read>, unit: real, w: Which)
    requires unit > 0.0
    ensures var last := Final(Some(first), rs);
            && last.Some?
            && (Volume(Some(first), rs, unit, w) ==
                Scaled(Counter(last.value.counters, w) - Counter(first.counters, w), unit) <==>
                Advanced(Some(first), rs, false, w) == 0)
            && (NothingSkipped(Some(first), rs) ==> Advanced(Some(first), rs, false, w) == 0)
  {
    AdvancesTelescope(first, rs, w);
    VolumeIsAccepted(Some(first), rs, unit, w);
    var last := Final(Some(first), rs);
    OneUnit(Advanced(Some(first), rs, true, w), Counter(last.value.counters, w) - Counter(first.counters, w), unit);
    if NothingSkipped(Some(first), rs) {
      NothingSkippedNothingMissed(Some(first), rs, w);
    }
  }

  /** Until the first good reading nothing is accounted for. */
  lemma {:induction false} NothingBeforeTheFirst(idle: seq<Read>, rs: seq<Read>, unit: real, w: Which)
    requires forall i | 0 <= i < |idle| :: idle[i].counters.None?
    ensures Volume(None, idle + rs, unit, w) == Volume(None, rs, unit, w)
    ensures Final(None, idle + rs) == Final(None, rs)
    ensures Advanced(None, idle + rs, false, w) == Advanced(None, rs, false, w)
    decreases idle
  {
    if idle == [] {
      assert idle + rs == rs;
    } else {
      assert (idle + rs)[0] == idle[0] && (idle + rs)[1..] == idle[1..] + rs;
      NothingBeforeTheFirst(idle[1..], rs, unit, w);
    }
  }

  /** So conservation holds of an agent's whole life: failed readings, the first
      good one, and any run after it. */
  lemma WholeLifeIsConserved(idle: seq<Read>, first: Read, rs: seq<Read>, unit: real, w: Which)
    requires unit > 0.0 && first.counters.Some? && forall i | 0 <= i < |idle| :: idle[i].counters.None?
    ensures var all := idle + ([first] + rs);
            var last := Final(None, all);
            && last.Some?
            && (Volume(None, all, unit, w) ==
                Scaled(Counter(last.value.counters, w) - Counter(first.counters.value, w), unit) <==>
                Advanced(None, all, false, w) == 0)
  {
    NothingBeforeTheFirst(idle, [first] + rs, unit, w);
    assert ([first] + rs)[1..] == rs;
    VolumeIsConserved(Stamped(first.counters.value, first.now), rs, unit, w);
  }

  /** No reading is ever negative, whatever the counters do. */
  lemma RatesAreNotNegative(last: Option<Stamped>, read: Option<Pair>, now: real, unit: real, w: Which)
    requires unit > 0.0
    ensures Rate(Reported(last, read, now, unit), w) >= 0.0
  {
    if read.Some? && last.Some? && RatesBetween(last.value.counters, read.value, now - last.value.at, unit).Some? {
      var prev, cur, elapsed := last.value.counters, read.value, now - last.value.at;
      NotNegative(cur.a - prev.a, unit, elapsed);
      NotNegative(cur.b - prev.b, unit, elapsed);
    }
  }

  lemma NotNegative(delta: int, unit: real, elapsed: real)
    requires delta >= 0 && unit > 0.0 && elapsed > 0.0
    ensures PerSecond(delta, unit, elapsed) >= 0.0
  {
    var bytes := delta as real * unit;
    assert bytes >= 0.0;
    Quotient(bytes / MB, elapsed);
  }

  lemma Quotient(x: real, y: real)
    requires x >= 0.0 && y > 0.0
    ensures x / y >= 0.0
  {
    var q := x / y;
    assert q * y == x;
  }
}
