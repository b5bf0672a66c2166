/** The parts of Go's strings and strconv packages the parsers rely on. */
module Text {
  import opened Options
  import opened Uint64

  predicate HasPrefix(s: string, prefix: string) {
    prefix <= s
  }

  /** Between every two occurrences of c, and at both ends. */
  function Split(s: string, c: char): (parts: seq<string>)
    ensures parts != []
    ensures forall i | 0 <= i < |parts| :: c !in parts[i]
  {
    if s == "" then [""]
    else
      var rest := Split(s[1..], c);
      if s[0] == c then [""] + rest else [[s[0]] + rest[0]] + rest[1..]
  }

  function Join(parts: seq<string>, c: char): string
    requires parts != []
  {
    if |parts| == 1 then parts[0] else parts[0] + [c] + Join(parts[1..], c)
  }

  /** Splitting is what joining undoes. */
  lemma {:induction false} SplitJoined(parts: seq<string>, c: char)
    requires parts != [] && forall i | 0 <= i < |parts| :: c !in parts[i]
    ensures Split(Join(parts, c), c) == parts
    decreases |parts|, |parts[0]|
  {
    var all := Join(parts, c);
    if parts[0] == "" {
      if |parts| > 1 {
        assert all[1..] == Join(parts[1..], c);
        SplitJoined(parts[1..], c);
      }
    } else {
      var shorter := [parts[0][1..]] + parts[1..];
      assert shorter[1..] == parts[1..];
      assert all[0] == parts[0][0];
      assert all[1..] == Join(shorter, c);
      SplitJoined(shorter, c);
      assert [all[0]] + shorter[0] == parts[0];
      assert [parts[0]] + shorter[1..] == parts;
    }
  }

  predicate IsSpace(c: char) {
    || c in " \t\n\r" || c == '\U{000B}' || c == '\U{000C}' || c == '\U{0085}' || c == '\U{00A0}' || c == '\U{1680}'
    || '\U{2000}' <= c <= '\U{200A}' || c in "\U{2028}\U{2029}\U{202F}\U{205F}\U{3000}"
  }

  /** How far s goes before its first space. */
  function WordLength(s: string): (n: nat)
    ensures n <= |s| && (forall i | 0 <= i < n :: !IsSpace(s[i])) && (n < |s| ==> IsSpace(s[n]))
  {
    if s == "" || IsSpace(s[0]) then 0 else 1 + WordLength(s[1..])
  }

  /** The maximal runs without spaces. */
  function Fields(s: string): (fields: seq<string>)
    ensures forall i | 0 <= i < |fields| :: fields[i] != "" && forall c | c in fields[i] :: !IsSpace(c)
    decreases |s|
  {
    if s == "" then []
    else if IsSpace(s[0]) then Fields(s[1..])
    else [s[..WordLength(s)]] + Fields(s[WordLength(s)..])
  }

  function TrimSpace(s: string): (t: string)
    ensures t != "" ==> !IsSpace(t[0]) && !IsSpace(t[|t| - 1])
    decreases |s|
  {
    if s == "" then s
    else if IsSpace(s[0]) then TrimSpace(s[1..])
    else if IsSpace(s[|s| - 1]) then TrimSpace(s[..|s| - 1])
    else s
  }

  function Index(s: string, c: char): (n: int)
    ensures -1 <= n < |s|
    ensures n >= 0 ==> s[n] == c && c !in s[..n]
    ensures n < 0 ==> c !in s
  {
    if s == "" then -1
    else if s[0] == c then 0
    else
      var n := Index(s[1..], c);
      assert n >= 0 ==> s[..n + 1] == [s[0]] + s[1..][..n];
      if n < 0 then -1 else n + 1
  }

  predicate Digit(c: char) {
    '0' <= c <= '9'
  }

  predicate AllDigits(s: string) {
    forall i | 0 <= i < |s| :: Digit(s[i])
  }

  function Value(s: string): nat
    requires AllDigits(s)
  {
    if s == "" then 0 else 10 * Value(s[..|s| - 1]) + (s[|s| - 1] as nat - '0' as nat)
  }

  /** A 64-bit unsigned decimal: digits only, at least one, and in range. */
  function ParseUint(s: string): Option<nat> {
    if s != "" && AllDigits(s) && Value(s) < TWO_TO_64 then Some(Value(s)) else None
  }

  function Decimal(n: nat): (s: string)
    ensures s != "" && AllDigits(s) && Value(s) == n
  {
    if n < 10 then [DigitOf(n)]
    else
      var s := Decimal(n / 10) + [DigitOf(n % 10)];
      assert s[..|s| - 1] == Decimal(n / 10);
      s
  }

  function DigitOf(n: nat): (c: char)
    requires n < 10
    ensures Digit(c) && c as int == '0' as int + n
  {
    ('0' as int + n) as char
  }

  function Decimals(parts: seq<nat>): (fields: seq<string>)
    ensures |fields| == |parts|
    ensures forall i | 0 <= i < |parts| :: fields[i] == Decimal(parts[i])
  {
    if parts == [] then [] else Decimals(parts[..|parts| - 1]) + [Decimal(parts[|parts| - 1])]
  }

  lemma OneMoreDecimal(parts: seq<nat>, n: nat)
    ensures Decimals(parts + [n]) == Decimals(parts) + [Decimal(n)]
  {
    assert (parts + [n])[..|parts|] == parts;
  }

  // ---------------------------------------------------------------------
  // Words with spaces in between
  // ---------------------------------------------------------------------

  /** Nothing but spaces and tabs. */
  predicate Blank(s: string) {
    forall i | 0 <= i < |s| :: s[i] == ' ' || s[i] == '\t'
  }

  /** A word that Fields can find. */
  predicate Word(s: string) {
    s != "" && forall i | 0 <= i < |s| :: !IsSpace(s[i])
  }

  predicate Words(ws: seq<string>) {
    forall i | 0 <= i < |ws| :: Word(ws[i])
  }

  /** Blanks before each word, which must be there before all but the first. */
  predicate Gaps(gaps: seq<string>) {
    && (forall i | 0 <= i < |gaps| :: Blank(gaps[i]))
    && forall i | 0 < i < |gaps| :: gaps[i] != ""
  }

  /** The words, each after its gap. */
  function Spaced(words: seq<string>, gaps: seq<string>): string
    requires |words| == |gaps|
  {
    if words == [] then "" else gaps[0] + words[0] + Spaced(words[1..], gaps[1..])
  }

  lemma {:induction false} SkipBlank(blank: string, s: string)
    requires Blank(blank)
    ensures Fields(blank + s) == Fields(s)
    decreases blank
  {
    if blank == "" {
      assert blank + s == s;
    } else {
      assert (blank + s)[1..] == blank[1..] + s;
      SkipBlank(blank[1..], s);
    }
  }

  lemma {:induction false} WordEnds(w: string, s: string)
    requires forall i | 0 <= i < |w| :: !IsSpace(w[i])
    requires s == "" || IsSpace(s[0])
    ensures WordLength(w + s) == |w|
    decreases w
  {
    if w == "" {
      assert w + s == s;
    } else {
      assert (w + s)[1..] == w[1..] + s;
      WordEnds(w[1..], s);
    }
  }

  lemma TakeWord(w: string, s: string)
    requires Word(w) && (s == "" || IsSpace(s[0]))
    ensures Fields(w + s) == [w] + Fields(s)
  {
    WordEnds(w, s);
    assert (w + s)[0] == w[0];
    assert (w + s)[..|w|] == w && (w + s)[|w|..] == s;
  }

  lemma GapOrEnd(words: seq<string>, gaps: seq<string>, end: string)
    requires words != [] && |words| == |gaps| && Gaps(gaps) && Blank(end)
    ensures var rest := Spaced(words[1..], gaps[1..]) + end;
            rest == "" || IsSpace(rest[0])
  {
    if |words| == 1 {
      assert Spaced(words[1..], gaps[1..]) + end == end;
    } else {
      var gap, after := gaps[1], words[1] + Spaced(words[2..], gaps[2..]) + end;
      assert Spaced(words[1..], gaps[1..]) + end == gap + after by {
        assert words[1..][1..] == words[2..] && gaps[1..][1..] == gaps[2..];
      }
    }
  }

  lemma Regroup(a: string, b: string, c: string, d: string)
    ensures a + b + c + d == a + (b + (c + d))
  {
  }

  /** However wide the gaps, and whatever blanks follow, the words are found. */
  lemma {:induction false} FieldsOfSpaced(words: seq<string>, gaps: seq<string>, end: string)
    requires |words| == |gaps| && Words(words) && Gaps(gaps) && Blank(end)
    ensures Fields(Spaced(words, gaps) + end) == words
    decreases words
  {
    if words == [] {
      SkipBlank(end, "");
      assert Spaced(words, gaps) + end == end == end + "";
    } else {
      var rest := Spaced(words[1..], gaps[1..]) + end;
      FieldsOfSpaced(words[1..], gaps[1..], end);
      GapOrEnd(words, gaps, end);
      Regroup(gaps[0], words[0], Spaced(words[1..], gaps[1..]), end);
      SkipBlank(gaps[0], words[0] + rest);
      TakeWord(words[0], rest);
    }
  }

  lemma {:induction false} TrimBlank(blank: string, w: string)
    requires Blank(blank) && Word(w)
    ensures TrimSpace(blank + w) == w
    decreases blank
  {
    if blank == "" {
      assert blank + w == w;
    } else {
      assert (blank + w)[1..] == blank[1..] + w;
      TrimBlank(blank[1..], w);
    }
  }

  /** Numbers are written without spaces, and read back as they were. */
  lemma DecimalReads(n: nat)
    ensures Word(Decimal(n))
    ensures ParseUint(Decimal(n)) == if n < TWO_TO_64 then Some(n) else None
  {
    DigitsAreAWord(Decimal(n));
  }

  lemma DigitsAreAWord(s: string)
    requires s != "" && AllDigits(s)
    ensures Word(s)
  {
  }

  lemma DecimalsAreWords(nums: seq<nat>)
    ensures Words(Decimals(nums))
  {
    forall i | 0 <= i < |nums| ensures Word(Decimals(nums)[i]) {
      DecimalReads(nums[i]);
    }
  }

  /** What is written in one line stays in it. */
  lemma {:induction false} SpacedIsOneLine(words: seq<string>, gaps: seq<string>)
    requires |words| == |gaps| && Words(words) && Gaps(gaps)
    ensures '\n' !in Spaced(words, gaps)
    decreases words
  {
    if words != [] {
      SpacedIsOneLine(words[1..], gaps[1..]);
    }
  }
}
