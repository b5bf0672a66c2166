/** Network and disk counters from /proc/net/dev and /proc/diskstats
    (pkg/agentrunner/hostmetrics.go). */
module ProcParse {
  import opened Options
  import opened Sums
  import opened Text
  import opened Uint64

  /** Two cumulative counters: received and sent, or read and written. */
  datatype Pair = Pair(a: nat, b: nat)

  // ---------------------------------------------------------------------
  // What one line contributes
  // ---------------------------------------------------------------------

  const VIRTUAL_PREFIXES := [
    "lo", "veth", "docker", "br-", "cni", "flannel", "cali", "tun", "tap", "virbr", "vmnet", "lxc", "vnet"
  ]

  predicate IsVirtualIface(name: string) {
    exists i :: 0 <= i < |VIRTUAL_PREFIXES| && HasPrefix(name, VIRTUAL_PREFIXES[i])
  }

  function Numbers(fields: seq<string>, i: nat, j: nat): Option<Pair>
    requires i < |fields| && j < |fields|
  {
    var a, b := ParseUint(fields[i]), ParseUint(fields[j]);
    if a.Some? && b.Some? then Some(Pair(a.value, b.value)) else None
  }

  /** A line of /proc/net/dev, if it counts. */
  function NetLine(line: string): Option<Pair> {
    var colon := Index(line, ':');
    if colon < 0 then None
    else
      var name, fields := TrimSpace(line[..colon]), Fields(line[colon + 1..]);
      if name == "" || IsVirtualIface(name) || |fields| < 16 then None else Numbers(fields, 0, 8)
  }

  predicate AllLower(s: string) {
    forall i | 0 <= i < |s| :: 'a' <= s[i] <= 'z'
  }

  /** prefix, then one or more lower-case letters. */
  predicate Lettered(name: string, prefix: string) {
    HasPrefix(name, prefix) && |name| > |prefix| && AllLower(name[|prefix|..])
  }

  /** nvme, digits, n, digits. */
  predicate Nvme(name: string) {
    HasPrefix(name, "nvme") &&
    exists k :: 4 < k < |name| - 1 && name[k] == 'n' && AllDigits(name[4..k]) && AllDigits(name[k + 1..])
  }

  predicate IsWholeDisk(name: string) {
    Lettered(name, "sd") || Lettered(name, "hd") || Lettered(name, "vd") || Lettered(name, "xvd") || Nvme(name)
  }

  /** A line of /proc/diskstats, if it counts. */
  function DiskLine(line: string): Option<Pair> {
    var fields := Fields(line);
    if |fields| < 10 || !IsWholeDisk(fields[2]) then None else Numbers(fields, 5, 9)
  }

  // ---------------------------------------------------------------------
  // The whole file
  // ---------------------------------------------------------------------

  type Reader = string -> Option<Pair>

  function First(r: Reader): string -> int {
    line => if r(line).Some? then r(line).value.a else 0
  }

  function Second(r: Reader): string -> int {
    line => if r(line).Some? then r(line).value.b else 0
  }

  /** The counters of the qualifying lines, added up. */
  function Total(r: Reader, lines: seq<string>): Pair {
    Pair(Wrap(SumBy(lines, First(r))), Wrap(SumBy(lines, Second(r))))
  }

  predicate Qualifies(r: Reader, lines: seq<string>) {
    exists i :: 0 <= i < |lines| && r(lines[i]).Some?
  }

  /** What one more line does to the running sums. */
  function Adding(sample: Pair, p: Option<Pair>): Pair {
    if p.None? then sample else Pair(Wrap(sample.a + p.value.a), Wrap(sample.b + p.value.b))
  }

  lemma OneMoreLine(r: Reader, lines: seq<string>, i: nat)
    requires i < |lines|
    ensures Total(r, lines[..i + 1]) == Adding(Total(r, lines[..i]), r(lines[i]))
    ensures Qualifies(r, lines[..i + 1]) <==> Qualifies(r, lines[..i]) || r(lines[i]).Some?
  {
    assert lines[..i + 1][..i] == lines[..i];
    WrapAdd(SumBy(lines[..i], First(r)), First(r)(lines[i]));
    WrapAdd(SumBy(lines[..i], Second(r)), Second(r)(lines[i]));
    assert forall k | 0 <= k < i :: lines[..i + 1][k] == lines[..i][k];
    assert lines[..i + 1][i] == lines[i];
  }

  /** The loop of both parsers: a line that does not count is skipped, and one
      bad line does not spoil the rest. */
  method Accumulate(r: Reader, lines: seq<string>) returns (sample: Pair, sawAny: bool)
    ensures sample == Total(r, lines)
    ensures sawAny <==> Qualifies(r, lines)
  {
    sample, sawAny := Pair(0, 0), false;
    for i := 0 to |lines|
      invariant sample == Total(r, lines[..i])
      invariant sawAny <==> Qualifies(r, lines[..i])
    {
      OneMoreLine(r, lines, i);
      var counters := r(lines[i]);
      if counters.None? {
        continue;
      }
      sample := Pair(Wrap(sample.a + counters.value.a), Wrap(sample.b + counters.value.b));
      sawAny := true;
    }
    assert lines[..|lines|] == lines;
  }

  method ParseNetDev(contents: string) returns (sample: Pair, ok: bool)
    ensures sample == Total(NetLine, Split(contents, '\n'))
    ensures ok <==> Qualifies(NetLine, Split(contents, '\n'))
  {
    sample, ok := Accumulate(NetLine, Split(contents, '\n'));
  }

  method ParseDiskStats(contents: string) returns (sample: Pair, ok: bool)
    ensures sample == Total(DiskLine, Split(contents, '\n'))
    ensures ok <==> Qualifies(DiskLine, Split(contents, '\n'))
  {
    sample, ok := Accumulate(DiskLine, Split(contents, '\n'));
  }

  // ---------------------------------------------------------------------
  // Only the qualifying lines count, in any order
  // ---------------------------------------------------------------------

  /** The lines that count. */
  function Counting(r: Reader, lines: seq<string>): seq<string> {
    if lines == [] then []
    else Counting(r, lines[..|lines| - 1]) + (if r(lines[|lines| - 1]).Some? then [lines[|lines| - 1]] else [])
  }

  lemma {:induction false} OthersDoNotCount(r: Reader, lines: seq<string>)
    ensures Total(r, lines) == Total(r, Counting(r, lines))
    ensures Qualifies(r, lines) <==> Counting(r, lines) != []
    decreases lines
  {
    if lines != [] {
      var n := |lines| - 1;
      var rest := Counting(r, lines[..n]);
      OthersDoNotCount(r, lines[..n]);
      assert lines == lines[..n + 1];
      OneMoreLine(r, lines, n);
      if r(lines[n]).Some? {
        assert (rest + [lines[n]])[..|rest|] == rest;
        OneMoreLine(r, rest + [lines[n]], |rest|);
        assert (rest + [lines[n]])[..|rest| + 1] == rest + [lines[n]];
      } else {
        assert Counting(r, lines) == rest;
      }
    }
  }

  /** Two files whose qualifying lines are the same, in any order and among any
      others - headers, virtual interfaces, partitions, malformed lines - are
      read the same. */
  lemma SameQualifyingLines(r: Reader, xs: seq<string>, ys: seq<string>)
    requires xs != [] && ys != []
    requires forall i | 0 <= i < |xs| :: '\n' !in xs[i]
    requires forall i | 0 <= i < |ys| :: '\n' !in ys[i]
    requires multiset(Counting(r, xs)) == multiset(Counting(r, ys))
    ensures var a, b := Split(Join(xs, '\n'), '\n'), Split(Join(ys, '\n'), '\n');
            Total(r, a) == Total(r, b) && (Qualifies(r, a) <==> Qualifies(r, b))
  {
    SplitJoined(xs, '\n');
    SplitJoined(ys, '\n');
    OthersDoNotCount(r, xs);
    OthersDoNotCount(r, ys);
    SumPermutation(Counting(r, xs), Counting(r, ys), First(r));
    SumPermutation(Counting(r, xs), Counting(r, ys), Second(r));
    assert |multiset(Counting(r, xs))| == |Counting(r, xs)|;
    assert |multiset(Counting(r, ys))| == |Counting(r, ys)|;
  }

  /** A device is counted once: no partition of a disk is itself a disk. */
  lemma PartitionsAreNotDisks(disk: string, number: string)
    requires IsWholeDisk(disk) && number != "" && AllDigits(number)
    ensures !IsWholeDisk(disk + (if Nvme(disk) then "p" else "") + number)
  {
    if Nvme(disk) {
      NvmePartition(disk, number);
    } else {
      var part := disk + number;
      assert disk + "" + number == part;
      assert part[|disk|] == number[0] && Digit(part[|disk|]);
      assert !Nvme(part) by {
        assert part[0] == disk[0];
      }
    }
  }

  lemma NvmePartition(disk: string, number: string)
    requires Nvme(disk) && number != "" && AllDigits(number)
    ensures !IsWholeDisk(disk + "p" + number)
  {
    var part := disk + "p" + number;
    var p := |disk|;
    assert part[p] == 'p' && part[..4] == disk[..4] == "nvme";
    assert part[0] == 'n' && part[1] == 'v';
    forall k | 4 < k < |part| - 1 && part[k] == 'n'
      ensures !AllDigits(part[4..k]) || !AllDigits(part[k + 1..])
    {
      assert k > p ==> Digit(part[k]);
      assert part[k + 1..][p - k - 1] == 'p';
    }
  }

  // ---------------------------------------------------------------------
  // What a written file reads as
  // ---------------------------------------------------------------------

  /** The interfaces that are not counted. */
  lemma VirtualAre(name: string)
    ensures IsVirtualIface(name) <==>
            || "lo" <= name || "veth" <= name || "docker" <= name || "br-" <= name || "cni" <= name
            || "flannel" <= name || "cali" <= name || "tun" <= name || "tap" <= name || "virbr" <= name
            || "vmnet" <= name || "lxc" <= name || "vnet" <= name
  {
    assert VIRTUAL_PREFIXES[0] == "lo" && VIRTUAL_PREFIXES[1] == "veth" && VIRTUAL_PREFIXES[2] == "docker";
    assert VIRTUAL_PREFIXES[3] == "br-" && VIRTUAL_PREFIXES[4] == "cni" && VIRTUAL_PREFIXES[5] == "flannel";
    assert VIRTUAL_PREFIXES[6] == "cali" && VIRTUAL_PREFIXES[7] == "tun" && VIRTUAL_PREFIXES[8] == "tap";
    assert VIRTUAL_PREFIXES[9] == "virbr" && VIRTUAL_PREFIXES[10] == "vmnet" && VIRTUAL_PREFIXES[11] == "lxc";
    assert VIRTUAL_PREFIXES[12] == "vnet";
  }

  /** The usual names of real ones are not among them. */
  lemma HardwareCounts(name: string)
    requires "eth" <= name || "en" <= name || "wl" <= name || "ib" <= name
    ensures !IsVirtualIface(name)
  {
    forall i | 0 <= i < |VIRTUAL_PREFIXES| ensures !HasPrefix(name, VIRTUAL_PREFIXES[i]) {
      assert name[0] in "ewi" && VIRTUAL_PREFIXES[i][0] in "lvdbcft";
    }
  }

  /** The names that count, spelled out. */
  datatype Disk = Letters(prefix: string, letters: string) | NvmeDisk(controller: string, namespace: string)

  predicate Proper(d: Disk) {
    match d
    case Letters(prefix, letters) =>
      prefix in ["sd", "hd", "vd", "xvd"] && letters != "" && forall i | 0 <= i < |letters| :: 'a' <= letters[i] <= 'z'
    case NvmeDisk(c, n) => c != "" && AllDigits(c) && n != "" && AllDigits(n)
  }

  function Spelled(d: Disk): string {
    match d
    case Letters(prefix, letters) => prefix + letters
    case NvmeDisk(c, n) => "nvme" + c + "n" + n
  }

  lemma WholeDisksAre(name: string)
    ensures IsWholeDisk(name) <==> exists d :: Proper(d) && Spelled(d) == name
  {
    if IsWholeDisk(name) {
      var d := if Nvme(name) then NvmeSpelled(name) else LettersSpelled(name);
      assert Proper(d) && Spelled(d) == name;
    }
    forall d | Proper(d) && Spelled(d) == name ensures IsWholeDisk(name) {
      ProperIsWhole(d);
    }
  }

  ghost function NvmeSpelled(name: string): (d: Disk)
    requires Nvme(name)
    ensures Proper(d) && Spelled(d) == name
  {
    var k :| 4 < k < |name| - 1 && name[k] == 'n' && AllDigits(name[4..k]) && AllDigits(name[k + 1..]);
    assert name[4..k] + "n" + name[k + 1..] == name[4..];
    NvmeDisk(name[4..k], name[k + 1..])
  }

  function LettersSpelled(name: string): (d: Disk)
    requires IsWholeDisk(name) && !Nvme(name)
    ensures Proper(d) && Spelled(d) == name
  {
    var prefix := if Lettered(name, "sd") then "sd" else if Lettered(name, "hd") then "hd"
                  else if Lettered(name, "vd") then "vd" else "xvd";
    Letters(prefix, name[|prefix|..])
  }

  lemma ProperIsWhole(d: Disk)
    requires Proper(d)
    ensures IsWholeDisk(Spelled(d))
  {
    var name := Spelled(d);
    if d.NvmeDisk? {
      var k := 4 + |d.controller|;
      assert name[..4] == "nvme";
      assert name[k] == 'n' && name[4..k] == d.controller && name[k + 1..] == d.namespace;
    } else {
      assert name[|d.prefix|..] == d.letters;
    }
  }

  /** The rows of /proc/net/dev: an interface, with as many numbers as the
      kernel gives, any blanks between them, and any other line. */
  datatype NetRow = Remark(text: string) | Interface(pad: string, name: string, nums: seq<nat>, gaps: seq<string>, end: string)

  predicate NetWritten(row: NetRow) {
    match row
    case Remark(text) => ':' !in text && '\n' !in text
    case Interface(pad, name, nums, gaps, end) =>
      Blank(pad) && Word(name) && ':' !in name && |gaps| == |nums| && Gaps(gaps) && Blank(end)
  }

  function NetText(row: NetRow): string
    requires NetWritten(row)
  {
    match row
    case Remark(text) => text
    case Interface(pad, name, nums, gaps, end) => pad + name + ":" + (Spaced(Decimals(nums), gaps) + end)
  }

  /** What such a row says: bytes received are the first number, bytes sent the
      ninth, of an interface that is not virtual. */
  function NetSays(row: NetRow): Option<Pair> {
    if row.Interface? && !IsVirtualIface(row.name) && |row.nums| >= 16 && row.nums[0] < TWO_TO_64 && row.nums[8] < TWO_TO_64
    then Some(Pair(row.nums[0], row.nums[8])) else None
  }

  /** And so it is read. */
  lemma NetRowReads(row: NetRow)
    requires NetWritten(row)
    ensures NetLine(NetText(row)) == NetSays(row) && '\n' !in NetText(row)
  {
    match row
    case Remark(text) =>
    case Interface(pad, name, nums, gaps, end) =>
      InterfaceReads(row);
      InterfaceIsOneLine(row);
  }

  lemma InterfaceReads(row: NetRow)
    requires NetWritten(row) && row.Interface?
    ensures NetLine(NetText(row)) == NetSays(row)
  {
    var rest, fields := Spaced(Decimals(row.nums), row.gaps) + row.end, Decimals(row.nums);
    DecimalsAreWords(row.nums);
    FieldsOfSpaced(fields, row.gaps, row.end);
    TrimBlank(row.pad, row.name);
    ReadAfterColon(row.pad + row.name, row.name, rest, fields);
    ColumnsRead(row.nums);
  }

  lemma InterfaceIsOneLine(row: NetRow)
    requires NetWritten(row) && row.Interface?
    ensures '\n' !in NetText(row)
  {
    DecimalsAreWords(row.nums);
    SpacedIsOneLine(Decimals(row.nums), row.gaps);
  }

  lemma ReadAfterColon(before: string, name: string, rest: string, fields: seq<string>)
    requires ':' !in before && TrimSpace(before) == name && name != "" && Fields(rest) == fields
    ensures NetLine(before + ":" + rest) ==
            if IsVirtualIface(name) || |fields| < 16 then None else Numbers(fields, 0, 8)
  {
    ColonAfter(before, rest);
  }

  lemma ColumnsRead(nums: seq<nat>)
    ensures |nums| >= 16 ==>
            Numbers(Decimals(nums), 0, 8) ==
            if nums[0] < TWO_TO_64 && nums[8] < TWO_TO_64 then Some(Pair(nums[0], nums[8])) else None
  {
    if |nums| >= 16 {
      DecimalReads(nums[0]);
      DecimalReads(nums[8]);
    }
  }

  /** A line with its first colon behind the name. */
  lemma ColonAfter(name: string, rest: string)
    requires forall i | 0 <= i < |name| :: name[i] != ':'
    ensures var line := name + ":" + rest;
            Index(line, ':') == |name| && line[..|name|] == name && line[|name| + 1..] == rest
  {
    FirstAt(name + ":" + rest, ':', |name|);
  }

  lemma {:induction false} FirstAt(s: string, c: char, at: nat)
    requires at < |s| && s[at] == c && forall i | 0 <= i < at :: s[i] != c
    ensures Index(s, c) == at
    decreases s
  {
    if at > 0 {
      FirstAt(s[1..], c, at - 1);
    }
  }

  /** The rows of /proc/diskstats: a device by its numbers and its name, and the
      empty line at the end. */
  datatype DiskRow =
    | Empty
    | Device(major: nat, minor: nat, name: string, nums: seq<nat>, gaps: seq<string>, end: string)

  predicate DiskWritten(row: DiskRow) {
    row.Device? ==> Word(row.name) && |row.gaps| == |row.nums| + 3 && Gaps(row.gaps) && Blank(row.end)
  }

  function DiskWords(row: DiskRow): seq<string>
    requires row.Device?
  {
    [Decimal(row.major), Decimal(row.minor), row.name] + Decimals(row.nums)
  }

  function DiskText(row: DiskRow): string
    requires DiskWritten(row)
  {
    if row.Empty? then "" else Spaced(DiskWords(row), row.gaps) + row.end
  }

  /** What such a row says: sectors read are the third number after the name,
      sectors written the seventh, of a whole disk. */
  function DiskSays(row: DiskRow): Option<Pair> {
    if row.Device? && IsWholeDisk(row.name) && |row.nums| >= 7 && row.nums[2] < TWO_TO_64 && row.nums[6] < TWO_TO_64
    then Some(Pair(row.nums[2], row.nums[6])) else None
  }

  lemma DiskRowReads(row: DiskRow)
    requires DiskWritten(row)
    ensures DiskLine(DiskText(row)) == DiskSays(row) && '\n' !in DiskText(row)
  {
    if row.Device? {
      DecimalReads(row.major);
      DecimalReads(row.minor);
      DecimalsAreWords(row.nums);
      assert Words(DiskWords(row));
      FieldsOfSpaced(DiskWords(row), row.gaps, row.end);
      SpacedIsOneLine(DiskWords(row), row.gaps);
      if |row.nums| >= 7 {
        DecimalReads(row.nums[2]);
        DecimalReads(row.nums[6]);
      }
    }
  }

  /** The written lines of a file. */
  function Lines<T>(rows: seq<T>, text: T --> string): (lines: seq<string>)
    requires forall i | 0 <= i < |rows| :: text.requires(rows[i])
    ensures |lines| == |rows| && forall i | 0 <= i < |rows| :: lines[i] == text(rows[i])
  {
    seq(|rows|, i requires 0 <= i < |rows| => text(rows[i]))
  }

  function FirstOf<T>(meaning: T -> Option<Pair>): T -> int {
    row => if meaning(row).Some? then meaning(row).value.a else 0
  }

  function SecondOf<T>(meaning: T -> Option<Pair>): T -> int {
    row => if meaning(row).Some? then meaning(row).value.b else 0
  }

  lemma {:induction false} LineSums<T>(r: Reader, rows: seq<T>, lines: seq<string>, meaning: T -> Option<Pair>)
    requires |lines| == |rows| && forall i | 0 <= i < |rows| :: r(lines[i]) == meaning(rows[i])
    ensures SumBy(lines, First(r)) == SumBy(rows, FirstOf(meaning))
    ensures SumBy(lines, Second(r)) == SumBy(rows, SecondOf(meaning))
  {
    if rows != [] {
      LineSums(r, rows[..|rows| - 1], lines[..|lines| - 1], meaning);
    }
  }

  /** A file of such lines gives the sums of the two columns over the rows that
      count. */
  lemma FileReads<T>(r: Reader, rows: seq<T>, lines: seq<string>, meaning: T -> Option<Pair>)
    requires rows != [] && |lines| == |rows|
    requires forall i | 0 <= i < |rows| :: r(lines[i]) == meaning(rows[i]) && '\n' !in lines[i]
    ensures var read := Split(Join(lines, '\n'), '\n');
            && Total(r, read) == Pair(Wrap(SumBy(rows, FirstOf(meaning))), Wrap(SumBy(rows, SecondOf(meaning))))
            && (Qualifies(r, read) <==> exists i :: 0 <= i < |rows| && meaning(rows[i]).Some?)
  {
    SplitJoined(lines, '\n');
    LineSums(r, rows, lines, meaning);
  }

  /** /proc/net/dev, with its headers and its virtual interfaces: the bytes
      received and sent over the others. */
  lemma NetFileReads(rows: seq<NetRow>)
    requires rows != [] && forall i | 0 <= i < |rows| :: NetWritten(rows[i])
    ensures var read := Split(Join(Lines(rows, NetText), '\n'), '\n');
            && Total(NetLine, read) == Pair(Wrap(SumBy(rows, FirstOf(NetSays))), Wrap(SumBy(rows, SecondOf(NetSays))))
            && (Qualifies(NetLine, read) <==> exists i :: 0 <= i < |rows| && NetSays(rows[i]).Some?)
  {
    forall i | 0 <= i < |rows| ensures NetLine(NetText(rows[i])) == NetSays(rows[i]) && '\n' !in NetText(rows[i]) {
      NetRowReads(rows[i]);
    }
    FileReads(NetLine, rows, Lines(rows, NetText), NetSays);
  }

  /** And /proc/diskstats: the sectors read and written over the whole disks. */
  lemma DiskFileReads(rows: seq<DiskRow>)
    requires rows != [] && forall i | 0 <= i < |rows| :: DiskWritten(rows[i])
    ensures var read := Split(Join(Lines(rows, DiskText), '\n'), '\n');
            && Total(DiskLine, read) ==
               Pair(Wrap(SumBy(rows, FirstOf(DiskSays))), Wrap(SumBy(rows, SecondOf(DiskSays))))
            && (Qualifies(DiskLine, read) <==> exists i :: 0 <= i < |rows| && DiskSays(rows[i]).Some?)
  {
    forall i | 0 <= i < |rows| ensures DiskLine(DiskText(rows[i])) == DiskSays(rows[i]) && '\n' !in DiskText(rows[i]) {
      DiskRowReads(rows[i]);
    }
    FileReads(DiskLine, rows, Lines(rows, DiskText), DiskSays);
  }
}
