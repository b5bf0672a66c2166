/** CPU utilisation from two readings of /proc/stat
    (pkg/agentrunner/hostmetrics.go). */
module CpuUsage {
  import opened Options
  import opened Text
  import opened Uint64

  /** Counters as the agent keeps them: below 2^64. */
  datatype Sample = Sample(idle: nat, total: nat)

  // ---------------------------------------------------------------------
  // Reading the aggregate line
  // ---------------------------------------------------------------------

  /** The numbers of a line, if all of its fields are numbers. */
  function Numbers(fields: seq<string>): Option<seq<nat>> {
    if fields == [] then Some([])
    else
      var before, last := Numbers(fields[..|fields| - 1]), ParseUint(fields[|fields| - 1]);
      if before.Some? && last.Some? then Some(before.value + [last.value]) else None
  }

  function Sum(nums: seq<nat>): nat {
    if nums == [] then 0 else Sum(nums[..|nums| - 1]) + nums[|nums| - 1]
  }

  /** The columns a CPU spends doing nothing: idle and iowait. */
  function Idle(nums: seq<nat>): nat {
    (if |nums| > 3 then nums[3] else 0) + (if |nums| > 4 then nums[4] else 0)
  }

  function Counted(nums: seq<nat>): Sample {
    Sample(Wrap(Idle(nums)), Wrap(Sum(nums)))
  }

  /** The columns of the first line that begins with "cpu ". */
  function Columns(lines: seq<string>): Option<seq<nat>>
    decreases lines
  {
    if lines == [] then None
    else if HasPrefix(lines[0], "cpu ") then Numbers(Labelled(lines[0])[1..])
    else Columns(lines[1..])
  }

  function Labelled(line: string): (fields: seq<string>)
    requires HasPrefix(line, "cpu ")
    ensures fields != [] && fields[0] == "cpu"
  {
    assert line[0] == 'c' && line[1] == 'p' && line[2] == 'u' && line[3] == ' ';
    assert WordLength(line) == 3;
    assert line[..3] == "cpu";
    Fields(line)
  }

  method ParseCPUStatLine(contents: string) returns (sample: Sample, ok: bool)
    ensures ok <==> Columns(Split(contents, '\n')).Some?
    ensures ok ==> sample == Counted(Columns(Split(contents, '\n')).value)
  {
    var lines := Split(contents, '\n');
    for k := 0 to |lines|
      invariant Columns(lines) == Columns(lines[k..])
    {
      assert lines[k..][1..] == lines[k + 1..];
      if HasPrefix(lines[k], "cpu ") {
        sample, ok := SumFields(Labelled(lines[k])[1..]);
        return;
      }
    }
    return Sample(0, 0), false;
  }

  /** What one more column adds to the counters. */
  function Counting(sample: Sample, i: nat, v: nat): Sample {
    Sample(if i == 3 || i == 4 then Wrap(sample.idle + v) else sample.idle, Wrap(sample.total + v))
  }

  lemma OneMoreColumn(nums: seq<nat>, v: nat)
    ensures Counted(nums + [v]) == Counting(Counted(nums), |nums|, v)
  {
    assert (nums + [v])[..|nums|] == nums;
    WrapAdd(Sum(nums), v);
    WrapAdd(Idle(nums), v);
  }

  method SumFields(fields: seq<string>) returns (sample: Sample, ok: bool)
    ensures ok <==> Numbers(fields).Some?
    ensures ok ==> sample == Counted(Numbers(fields).value)
  {
    var total: nat, idle: nat := 0, 0;
    for i := 0 to |fields|
      invariant Numbers(fields[..i]).Some? && |Numbers(fields[..i]).value| == i
      invariant Sample(idle, total) == Counted(Numbers(fields[..i]).value)
    {
      assert fields[..i + 1][..i] == fields[..i];
      var v := ParseUint(fields[i]);
      if v.None? {
        NotNumbers(fields, i);
        return Sample(0, 0), false;
      }
      OneMoreColumn(Numbers(fields[..i]).value, v.value);
      total := Wrap(total + v.value);
      if i == 3 || i == 4 {
        idle := Wrap(idle + v.value);
      }
    }
    assert fields[..|fields|] == fields;
    return Sample(idle, total), true;
  }

  lemma {:induction false} NotNumbers(fields: seq<string>, i: nat)
    requires i < |fields| && ParseUint(fields[i]).None?
    ensures Numbers(fields).None?
    decreases fields
  {
    if i < |fields| - 1 {
      NotNumbers(fields[..|fields| - 1], i);
    }
  }

  /** The aggregate line, with any number of columns and any blanks between
      them. */
  function CpuText(nums: seq<nat>, gaps: seq<string>, end: string): string
    requires |gaps| == |nums|
  {
    "cpu" + (Spaced(Decimals(nums), gaps) + end)
  }

  predicate CpuWritten(nums: seq<nat>, gaps: seq<string>, end: string) {
    && |gaps| == |nums| > 0 && Gaps(gaps) && Blank(end) && HasPrefix(gaps[0], " ")
    && forall i | 0 <= i < |nums| :: nums[i] < TWO_TO_64
  }

  lemma OneMoreNumber(nums: seq<nat>, n: nat)
    requires Numbers(Decimals(nums)) == Some(nums) && n < TWO_TO_64
    ensures Numbers(Decimals(nums + [n])) == Some(nums + [n])
  {
    var fields := Decimals(nums);
    OneMoreDecimal(nums, n);
    DecimalReads(n);
    assert (fields + [Decimal(n)])[..|fields|] == fields;
  }

  lemma {:induction false} NumbersOfDecimals(nums: seq<nat>)
    requires forall i | 0 <= i < |nums| :: nums[i] < TWO_TO_64
    ensures Numbers(Decimals(nums)) == Some(nums)
  {
    if nums != [] {
      var rest, last := nums[..|nums| - 1], nums[|nums| - 1];
      NumbersOfDecimals(rest);
      OneMoreNumber(rest, last);
      assert nums == rest + [last];
    }
  }

  lemma CpuLineReads(nums: seq<nat>, gaps: seq<string>, end: string)
    requires CpuWritten(nums, gaps, end)
    ensures var line := CpuText(nums, gaps, end);
            HasPrefix(line, "cpu ") && Numbers(Labelled(line)[1..]) == Some(nums)
  {
    var rest := Spaced(Decimals(nums), gaps) + end;
    DecimalsAreWords(nums);
    assert rest[0] == gaps[0][0] == ' ';
    FieldsOfSpaced(Decimals(nums), gaps, end);
    AfterLabel(rest, Decimals(nums));
    NumbersOfDecimals(nums);
  }

  lemma AfterLabel(rest: string, fields: seq<string>)
    requires HasPrefix(rest, " ") && Fields(rest) == fields
    ensures HasPrefix("cpu" + rest, "cpu ") && Labelled("cpu" + rest)[1..] == fields
  {
    assert ("cpu" + rest)[..4] == "cpu ";
    TakeWord("cpu", rest);
  }

  lemma {:induction false} ColumnsOfFirst(lines: seq<string>, k: nat)
    requires k < |lines| && HasPrefix(lines[k], "cpu ") && forall i | 0 <= i < k :: !HasPrefix(lines[i], "cpu ")
    ensures Columns(lines) == Numbers(Labelled(lines[k])[1..])
    decreases lines
  {
    if k > 0 {
      ColumnsOfFirst(lines[1..], k - 1);
    }
  }

  /** A file whose first aggregate line was written with these numbers, whatever
      else it holds, gives just them: all of them make up total time, the fourth
      and the fifth idle time. */
  lemma CpuFileReads(lines: seq<string>, k: nat, nums: seq<nat>, gaps: seq<string>, end: string)
    requires CpuWritten(nums, gaps, end)
    requires forall i | 0 <= i < |lines| :: '\n' !in lines[i]
    requires k < |lines| && lines[k] == CpuText(nums, gaps, end) && forall i | 0 <= i < k :: !HasPrefix(lines[i], "cpu ")
    ensures Columns(Split(Join(lines, '\n'), '\n')) == Some(nums)
    ensures |nums| > 4 ==> Counted(nums) == Sample(Wrap(nums[3] + nums[4]), Wrap(Sum(nums)))
  {
    CpuLineReads(nums, gaps, end);
    ColumnsOfFile(lines, k, CpuText(nums, gaps, end));
    IdleColumns(nums);
  }

  lemma IdleColumns(nums: seq<nat>)
    ensures |nums| > 4 ==> Counted(nums) == Sample(Wrap(nums[3] + nums[4]), Wrap(Sum(nums)))
  {
    assert |nums| > 4 ==> Idle(nums) == nums[3] + nums[4];
  }

  lemma ColumnsOfFile(lines: seq<string>, k: nat, line: string)
    requires forall i | 0 <= i < |lines| :: '\n' !in lines[i]
    requires k < |lines| && lines[k] == line && HasPrefix(line, "cpu ")
    requires forall i | 0 <= i < k :: !HasPrefix(lines[i], "cpu ")
    ensures Columns(Split(Join(lines, '\n'), '\n')) == Numbers(Labelled(line)[1..])
  {
    SplitJoined(lines, '\n');
    ColumnsOfFirst(lines, k);
  }

  // ---------------------------------------------------------------------
  // The percentage
  // ---------------------------------------------------------------------

  /** Subtraction of unsigned 64-bit counters wraps around. */
  function CpuPercent(prev: Sample, cur: Sample): Option<real> {
    Busy(Wrap(cur.total - prev.total), Wrap(cur.idle - prev.idle))
  }

  function Busy(totalDelta: nat, idleDelta: nat): Option<real> {
    if totalDelta == 0 then None
    else Some(Percent(Wrap(totalDelta - idleDelta), totalDelta))
  }

  function Percent(part: int, whole: int): real
    requires whole > 0
  {
    part as real / whole as real * 100.0
  }

  /** A share of a whole is a percentage. */
  lemma Share(part: nat, whole: nat)
    requires whole > 0
    ensures 0.0 <= Percent(part, whole)
    ensures Percent(part, whole) <= 100.0 <==> part <= whole
  {
    var share := part as real / whole as real;
    assert share * whole as real == part as real;
    if part <= whole {
      assert share <= 1.0;
    } else {
      assert share > 1.0;
    }
  }

  lemma BusyShare(totalDelta: nat, idleDelta: nat)
    requires 0 < totalDelta < TWO_TO_64 && idleDelta < TWO_TO_64
    ensures Wrap(totalDelta - idleDelta) ==
            if idleDelta <= totalDelta then totalDelta - idleDelta else totalDelta - idleDelta + TWO_TO_64
  {
  }

  lemma PercentOf(prev: Sample, cur: Sample, total: int, idle: int)
    requires 0 < total < TWO_TO_64 && 0 <= idle <= total
    requires Wrap(cur.total - prev.total) == total && Wrap(cur.idle - prev.idle) == idle
    ensures CpuPercent(prev, cur) == Some(Percent(total - idle, total))
    ensures 0.0 <= CpuPercent(prev, cur).value <= 100.0
  {
    BusyShare(total, idle);
    Share(total - idle, total);
  }

  /** The reading is a percentage exactly when, as counters go, idle time
      advanced by no more than total time. */
  lemma PercentIff(prev: Sample, cur: Sample)
    requires CpuPercent(prev, cur).Some?
    ensures 0.0 <= CpuPercent(prev, cur).value
    ensures CpuPercent(prev, cur).value <= 100.0 <==> Wrap(cur.idle - prev.idle) <= Wrap(cur.total - prev.total)
  {
    var totalDelta: int, idleDelta: int := Wrap(cur.total - prev.total), Wrap(cur.idle - prev.idle);
    BusyShare(totalDelta, idleDelta);
    Share(Wrap(totalDelta - idleDelta), totalDelta);
  }

  predicate NonDecreasing(before: seq<nat>, after: seq<nat>) {
    |before| == |after| && forall i | 0 <= i < |before| :: before[i] <= after[i]
  }

  /** Idle time is part of total time, and so is its advance. */
  lemma {:induction false} IdleWithinTotal(before: seq<nat>, after: seq<nat>)
    requires NonDecreasing(before, after)
    ensures 0 <= Idle(after) - Idle(before) <= Sum(after) - Sum(before)
    decreases before
  {
    if before != [] {
      IdleWithinTotal(before[..|before| - 1], after[..|after| - 1]);
    }
  }

  lemma TotalDelta(before: seq<nat>, after: seq<nat>)
    requires 0 <= Sum(after) - Sum(before) < TWO_TO_64
    ensures Wrap(Counted(after).total - Counted(before).total) == Sum(after) - Sum(before)
  {
    WrappedDifference(Sum(before), Sum(after));
  }

  lemma IdleDelta(before: seq<nat>, after: seq<nat>)
    requires 0 <= Idle(after) - Idle(before) < TWO_TO_64
    ensures Wrap(Counted(after).idle - Counted(before).idle) == Idle(after) - Idle(before)
  {
    WrappedDifference(Idle(before), Idle(after));
  }

  /** Between two readings of counters none of which went back, the reported
      figure is the busy share of the time that passed, between 0 and 100 -
      even if the sums themselves have wrapped around. */
  lemma UtilisationIsAPercentage(before: seq<nat>, after: seq<nat>)
    requires NonDecreasing(before, after) && 0 < Sum(after) - Sum(before) < TWO_TO_64
    ensures var p := CpuPercent(Counted(before), Counted(after));
            var total: int, idle: int := Sum(after) - Sum(before), Idle(after) - Idle(before);
            && p == Some(Percent(total - idle, total))
            && 0.0 <= p.value <= 100.0
  {
    IdleWithinTotal(before, after);
    TotalDelta(before, after);
    IdleDelta(before, after);
    PercentOf(Counted(before), Counted(after), Sum(after) - Sum(before), Idle(after) - Idle(before));
  }

  /** A single column that goes back, as the kernel allows iowait to, is enough
      to report more than a hundred percent. */
  lemma IowaitGoingBack()
    ensures CpuPercent(Counted([5, 0, 0, 7, 4]), Counted([8, 0, 0, 7, 3])) == Some(150.0)
  {
    SumOfFive(5, 0, 0, 7, 4);
    SumOfFive(8, 0, 0, 7, 3);
    assert Counted([5, 0, 0, 7, 4]) == Sample(11, 16) && Counted([8, 0, 0, 7, 3]) == Sample(10, 18);
    assert Wrap(10 - 11) == TWO_TO_64 - 1;
    BusyShare(2, TWO_TO_64 - 1);
    assert Busy(2, TWO_TO_64 - 1) == Some(3.0 / 2.0 * 100.0);
  }

  lemma SumOfFive(a: nat, b: nat, c: nat, d: nat, e: nat)
    ensures Sum([a, b, c, d, e]) == a + b + c + d + e
  {
    assert [a, b, c, d, e][..4] == [a, b, c, d] && [a, b, c, d][..3] == [a, b, c];
    assert [a, b, c][..2] == [a, b] && [a, b][..1] == [a] && [a][..0] == [];
    assert Sum([a]) == a && Sum([a, b]) == a + b && Sum([a, b, c]) == a + b + c;
    assert Sum([a, b, c, d]) == a + b + c + d;
  }
}
