/** The string operations of the parser: lines, trimming, splitting, numbers. */
module Text {
  import opened Prelude

  /** Unicode White_Space. */
  predicate IsSpace(c: char) {
    var n := c as int;
    || 0x9 <= n <= 0xD || n == 0x20 || n == 0x85 || n == 0xA0 || n == 0x1680 || 0x2000 <= n <= 0x200A
    || n == 0x2028 || n == 0x2029 || n == 0x202F || n == 0x205F || n == 0x3000
  }

  function TrimStart(s: string): string {
    if s != [] && IsSpace(s[0]) then TrimStart(s[1..]) else s
  }

  function TrimEnd(s: string): string {
    if s != [] && IsSpace(s[|s| - 1]) then TrimEnd(s[..|s| - 1]) else s
  }

  function Trim(s: string): string {
    TrimEnd(TrimStart(s))
  }

  predicate IsBlank(s: string) {
    Trim(s) == ""
  }

  /** No white space at either end. */
  predicate Trimmed(s: string) {
    s == "" || (!IsSpace(s[0]) && !IsSpace(s[|s| - 1]))
  }

  lemma TrimTrimmed(s: string)
    requires Trimmed(s)
    ensures Trim(s) == s && Trim(" " + s) == s
  {
    assert (" " + s)[1..] == s;
  }

  lemma VisibleStart(s: string)
    requires s != "" && !IsSpace(s[0])
    ensures !IsBlank(s)
  {
    TrimEndKeepsStart(s);
  }

  lemma {:induction false} TrimEndKeepsStart(s: string)
    requires s != "" && !IsSpace(s[0])
    ensures TrimEnd(s) != ""
  {
    if IsSpace(s[|s| - 1]) {
      TrimEndKeepsStart(s[..|s| - 1]);
    }
  }

  // ----- Lines -----

  function StripCr(s: string): string {
    if s != "" && s[|s| - 1] == '\r' then s[..|s| - 1] else s
  }

  /** All trailing carriage returns removed. */
  function StripCrs(s: string): string {
    if s != "" && s[|s| - 1] == '\r' then StripCrs(s[..|s| - 1]) else s
  }

  /** Position of the first c, or the length. */
  function Find(s: string, c: char): (i: nat)
    ensures i <= |s| && c !in s[..i] && (i < |s| ==> s[i] == c)
  {
    if s == "" || s[0] == c then 0
    else
      var i := Find(s[1..], c);
      assert s[..i + 1] == [s[0]] + s[1..][..i];
      i + 1
  }

  lemma {:induction false} FindIs(s: string, c: char, i: nat)
    requires i <= |s| && c !in s[..i] && (i < |s| ==> s[i] == c)
    ensures Find(s, c) == i
  {
    if i > 0 {
      assert s[..i][0] == s[0];
      assert s[1..][..i - 1] == s[..i][1..];
      FindIs(s[1..], c, i - 1);
    }
  }

  /** The iterator over lines: ends at "\n" or "\r\n"; a last line without an end counts if it is not empty. */
  function Lines(s: string): seq<string>
    decreases |s|
  {
    if s == "" then []
    else
      var i := Find(s, '\n');
      if i == |s| then [s] else [StripCr(s[..i])] + Lines(s[i + 1..])
  }

  /** A line as text has it: no line break inside and none of its own at the end. */
  predicate IsLine(s: string) {
    '\n' !in s && (s != "" ==> s[|s| - 1] != '\r')
  }

  lemma FirstLine(line: string, rest: string)
    requires IsLine(line)
    ensures Lines(line + "\n" + rest) == [line] + Lines(rest)
  {
    var s := line + "\n" + rest;
    assert s[..|line|] == line;
    FindIs(s, '\n', |line|);
    assert s[|line| + 1..] == rest;
  }

  lemma OnlyLine(line: string)
    requires IsLine(line) && line != ""
    ensures Lines(line) == [line]
  {
    assert line[..|line|] == line;
    FindIs(line, '\n', |line|);
  }

  /**
   * The lines of any text, by its first line feed: what comes before it, less one carriage return,
   * is a line, and the rest has its own lines; without a line feed a text is one line unless empty.
   */
  lemma LinesExactly(line: string, rest: string)
    requires '\n' !in line
    ensures Lines(line + "\n" + rest)
         == [if line != "" && line[|line| - 1] == '\r' then line[..|line| - 1] else line] + Lines(rest)
    ensures Lines(line) == if line == "" then [] else [line]
  {
    var s := line + "\n" + rest;
    assert s[..|line|] == line && s[|line| + 1..] == rest && line[..|line|] == line;
    FindIs(s, '\n', |line|);
    FindIs(line, '\n', |line|);
  }

  function Join(lines: seq<string>): string {
    if lines == [] then "" else if |lines| == 1 then lines[0] else lines[0] + "\n" + Join(lines[1..])
  }

  /** Splitting a joined text gives the lines back. */
  lemma {:induction false} LinesOfJoin(lines: seq<string>)
    requires lines != [] && (forall l :: l in lines ==> IsLine(l)) && lines[|lines| - 1] != ""
    ensures Lines(Join(lines)) == lines
  {
    if |lines| == 1 {
      OnlyLine(lines[0]);
    } else {
      LinesOfJoin(lines[1..]);
      FirstLine(lines[0], Join(lines[1..]));
    }
  }

  /** Several lines in front of a text. */
  lemma {:induction false} LinesInFront(lines: seq<string>, rest: string)
    requires lines != [] && forall l :: l in lines ==> IsLine(l)
    ensures Lines(Join(lines) + "\n" + rest) == lines + Lines(rest)
  {
    hide Lines;
    if |lines| == 1 {
      FirstLine(lines[0], rest);
      assert lines == [lines[0]];
    } else {
      LinesInFront(lines[1..], rest);
      var tail := Join(lines[1..]) + "\n" + rest;
      assert Join(lines) + "\n" + rest == lines[0] + "\n" + tail;
      FirstLine(lines[0], tail);
      assert lines == [lines[0]] + lines[1..];
    }
  }

  /** The pieces between line feeds. */
  function Pieces(s: string): (r: seq<string>)
    ensures r != []
    decreases |s|
  {
    var i := Find(s, '\n');
    if i == |s| then [s] else [s[..i]] + Pieces(s[i + 1..])
  }

  lemma PiecesStep(s: string)
    requires Find(s, '\n') < |s|
    ensures var i := Find(s, '\n'); Pieces(s) == [s[..i]] + Pieces(s[i + 1..])
  {
  }

  lemma JoinStep(line: string, rest: seq<string>)
    requires rest != []
    ensures Join([line] + rest) == line + "\n" + Join(rest)
  {
    assert ([line] + rest)[1..] == rest;
  }

  lemma CutAtFeed(s: string, i: nat)
    requires i < |s| && s[i] == '\n'
    ensures s == s[..i] + "\n" + s[i + 1..]
  {
  }

  lemma {:induction false} JoinPieces(s: string)
    ensures Join(Pieces(s)) == s
    decreases |s|
  {
    var i := Find(s, '\n');
    if i < |s| {
      var line, tail := s[..i], s[i + 1..];
      JoinPieces(tail);
      PiecesStep(s);
      CutAtFeed(s, i);
      hide *;
      JoinStep(line, Pieces(tail));
    }
  }

  // ----- Key and value -----

  function SplitOnce(s: string, c: char): Option<(string, string)> {
    var i := Find(s, c);
    if i == |s| then None else Some((s[..i], s[i + 1..]))
  }

  lemma SplitOnceIs(key: string, c: char, value: string)
    requires c !in key
    ensures SplitOnce(key + [c] + value, c) == Some((key, value))
  {
    var s := key + [c] + value;
    assert s[..|key|] == key && s[|key| + 1..] == value;
    FindIs(s, c, |key|);
  }

  function StripSuffix(s: string, suffix: string): Option<string> {
    if |s| >= |suffix| && s[|s| - |suffix|..] == suffix then Some(s[..|s| - |suffix|]) else None
  }

  // ----- Unsigned 64-bit numbers -----

  const U64_MAX: nat := 0xFFFF_FFFF_FFFF_FFFF

  predicate IsDigit(c: char) {
    '0' <= c <= '9'
  }

  function DigitsValue(s: string): Option<nat> {
    if s == "" then Some(0)
    else
      var rest := DigitsValue(s[..|s| - 1]);
      var c := s[|s| - 1];
      if rest.Some? && IsDigit(c) then Some(rest.value * 10 + (c as int - '0' as int)) else None
  }

  /** Decimal digits with an optional plus sign; too large a number is an error. */
  function ParseU64(s: string): Option<nat> {
    var digits := if s != "" && s[0] == '+' then s[1..] else s;
    if digits == "" then None
    else
      var v := DigitsValue(digits);
      if v.Some? && v.value <= U64_MAX then v else None
  }

  function ShowNat(n: nat): string {
    if n < 10 then [('0' as int + n) as char] else ShowNat(n / 10) + [('0' as int + n % 10) as char]
  }

  lemma {:induction false} ShowNatReads(n: nat)
    ensures ShowNat(n) != "" && (forall c :: c in ShowNat(n) ==> IsDigit(c))
    ensures DigitsValue(ShowNat(n)) == Some(n)
  {
    if n < 10 {
      var s := ShowNat(n);
      assert s[..0] == "";
      assert DigitsValue(s[..0]) == Some(0);
    } else {
      ShowNatReads(n / 10);
      var s := ShowNat(n);
      assert s[..|s| - 1] == ShowNat(n / 10);
    }
  }

  lemma U64RoundTrip(n: nat)
    requires n <= U64_MAX
    ensures ParseU64(ShowNat(n)) == Some(n)
    ensures Trimmed(ShowNat(n)) && IsLine(ShowNat(n)) && ShowNat(n) != ""
  {
    ShowNatReads(n);
    hide ShowNat;
    DigitsAreText(ShowNat(n));
  }

  lemma DigitsAreText(s: string)
    requires s != "" && forall c :: c in s ==> IsDigit(c)
    ensures Trimmed(s) && IsLine(s) && s[0] != '+'
  {
    assert s[0] in s && s[|s| - 1] in s;
  }

  function Zeros(k: nat): string {
    if k == 0 then "" else Zeros(k - 1) + "0"
  }

  lemma {:induction false} ZerosRead(k: nat)
    ensures DigitsValue(Zeros(k)) == Some(0)
  {
    if k > 0 {
      ZerosRead(k - 1);
      assert Zeros(k)[..|Zeros(k)| - 1] == Zeros(k - 1);
    }
  }

  lemma DigitsAppend(s: string, n: nat, d: nat)
    requires DigitsValue(s) == Some(n) && d < 10
    ensures DigitsValue(s + ['0' + d as char]) == Some(10 * n + d)
  {
    var t := s + ['0' + d as char];
    assert t[..|t| - 1] == s;
  }

  lemma {:induction false} PaddedReads(k: nat, n: nat)
    ensures DigitsValue(Zeros(k) + ShowNat(n)) == Some(n)
  {
    hide DigitsValue, Zeros;
    ZerosRead(k);
    if n < 10 {
      DigitsAppend(Zeros(k), 0, n);
    } else {
      PaddedReads(k, n / 10);
      DigitsAppend(Zeros(k) + ShowNat(n / 10), n / 10, n % 10);
      assert Zeros(k) + ShowNat(n) == Zeros(k) + ShowNat(n / 10) + [('0' as int + n % 10) as char];
    }
  }

  /** A row of digits is the numeral of its value with zeros in front. */
  lemma {:induction false} DigitsArePadded(s: string) returns (k: nat)
    requires s != "" && DigitsValue(s).Some?
    ensures s == Zeros(k) + ShowNat(DigitsValue(s).value)
  {
    var m := |s| - 1;
    var n := DigitsValue(s).value;
    var digit := [s[m]];
    assert s == s[..m] + digit;
    if m == 0 {
      k := 0;
      assert s[..0] == "";
      assert ShowNat(n) == digit;
    } else {
      k := DigitsArePadded(s[..m]);
      var before := DigitsValue(s[..m]).value;
      if before == 0 {
        assert ShowNat(n) == digit;
        k := k + 1;
        assert Zeros(k) == s[..m];
      } else {
        assert n / 10 == before;
        assert ShowNat(n) == ShowNat(before) + digit;
      }
    }
  }

  /** The texts that read as a number: its numeral, with zeros and one plus sign allowed in front, below 2^64. */
  lemma ParseU64Exactly(s: string, n: nat)
    ensures ParseU64(s) == Some(n) <==>
              n < 0x1_0000_0000_0000_0000 &&
              exists k :: s == Zeros(k) + ShowNat(n) || s == "+" + (Zeros(k) + ShowNat(n))
  {
    hide DigitsValue;
    var digits := if s != "" && s[0] == '+' then s[1..] else s;
    if ParseU64(s) == Some(n) {
      var k := DigitsArePadded(digits);
      assert digits == s || s == "+" + digits;
    }
    if k :| s == Zeros(k) + ShowNat(n) || s == "+" + (Zeros(k) + ShowNat(n)) {
      PaddedReads(k, n);
      ShowNatReads(n);
      NoSignInside(k, n);
      hide ShowNat, Zeros;
      assert digits == Zeros(k) + ShowNat(n);
    }
  }

  lemma {:induction false} NoSignInside(k: nat, n: nat)
    ensures var s := Zeros(k) + ShowNat(n); s != "" && s[0] != '+'
  {
    ShowNatReads(n);
    hide ShowNat;
    if k > 0 {
      ZerosStart(k);
    } else {
      assert ShowNat(n)[0] in ShowNat(n);
    }
  }

  lemma {:induction false} ZerosStart(k: nat)
    requires k > 0
    ensures Zeros(k) != "" && Zeros(k)[0] == '0'
  {
    if k > 1 {
      ZerosStart(k - 1);
    }
  }
}
