/** String helpers with the semantics of the Python and JavaScript built-ins the
    system relies on (str.strip, str.split, str.join, str.startswith, integer
    rendering, the \d class over every Unicode decimal digit and the \s class
    as far as the model needs). A string is a sequence of code points, as in Python 3. */
module Text {
  import opened Wrappers

  /** The characters for which Python's str.isspace() holds; str.strip() and the
      regular-expression class \s remove or match exactly these. */
  predicate IsSpace(c: char) {
    || c == ' ' || c == '\t' || c == '\n' || c == '\r' || c == '\U{000B}' || c == '\U{000C}'
    || ('\U{001C}' <= c <= '\U{001F}') || c == '\U{0085}' || c == '\U{00A0}' || c == '\U{1680}'
    || ('\U{2000}' <= c <= '\U{200A}') || c == '\U{2028}' || c == '\U{2029}' || c == '\U{202F}'
    || c == '\U{205F}' || c == '\U{3000}'
  }

  predicate IsDigit(c: char) { '0' <= c <= '9' }

  predicate IsAsciiAlnum(c: char) { ('A' <= c <= 'Z') || ('a' <= c <= 'z') || IsDigit(c) }

  predicate AllDigits(s: string) { forall i :: 0 <= i < |s| ==> IsDigit(s[i]) }

  predicate StartsWith(s: string, prefix: string) { |prefix| <= |s| && s[..|prefix|] == prefix }

  predicate EndsWith(s: string, suffix: string) { |suffix| <= |s| && s[|s| - |suffix|..] == suffix }

  /** Python's str.lstrip(): drops the leading white space. */
  function LStrip(s: string): (r: string)
    ensures |r| <= |s| && r == s[|s| - |r|..]
    ensures r == [] || !IsSpace(r[0])
    ensures forall i :: 0 <= i < |s| - |r| ==> IsSpace(s[i])
  {
    if s != [] && IsSpace(s[0]) then LStrip(s[1..]) else s
  }

  /** Python's str.rstrip(): drops the trailing white space. */
  function RStrip(s: string): (r: string)
    ensures |r| <= |s| && r == s[..|r|]
    ensures r == [] || !IsSpace(r[|r| - 1])
    ensures forall i :: |r| <= i < |s| ==> IsSpace(s[i])
  {
    if s != [] && IsSpace(s[|s| - 1]) then RStrip(s[..|s| - 1]) else s
  }

  /** Python's str.strip(). */
  function Strip(s: string): (r: string)
    ensures |r| <= |s|
    ensures r == [] || (!IsSpace(r[0]) && !IsSpace(r[|r| - 1]))
    ensures (forall i :: 0 <= i < |s| ==> !IsSpace(s[i])) ==> r == s
  {
    RStrip(LStrip(s))
  }

  /** Python's str.lstrip(c) for a single character c. */
  function LStripChar(s: string, c: char): (r: string)
    ensures |r| <= |s| && r == s[|s| - |r|..]
    ensures r == [] || r[0] != c
    ensures forall i :: 0 <= i < |s| - |r| ==> s[i] == c
  {
    if s != [] && s[0] == c then LStripChar(s[1..], c) else s
  }

  /** s[:n] in Python: the first n characters, or all of s when it is shorter. */
  function Take(s: string, n: nat): (r: string)
    ensures |r| <= n && StartsWith(s, r)
    ensures |s| <= n ==> r == s
    ensures n <= |s| ==> |r| == n
  {
    if |s| <= n then s else s[..n]
  }

  /** str.replace(c, "") for one character c. */
  function RemoveChar(s: string, c: char): (r: string)
    ensures c !in r && |r| <= |s|
    ensures c !in s ==> r == s
  {
    if s == [] then []
    else if s[0] == c then RemoveChar(s[1..], c)
    else [s[0]] + RemoveChar(s[1..], c)
  }

  /** The position of the first occurrence of c in s. */
  function IndexOf(s: string, c: char): (i: nat)
    requires c in s
    ensures i < |s| && s[i] == c && c !in s[..i]
  {
    if s[0] == c then 0 else 1 + IndexOf(s[1..], c)
  }

  /** Python's str.split(sep) for a one-character separator: one more part than
      there are separators, and no part contains the separator. */
  function Split(s: string, sep: char): (parts: seq<string>)
    ensures |parts| >= 1
    ensures forall k :: 0 <= k < |parts| ==> sep !in parts[k]
    ensures sep !in s ==> parts == [s]
    decreases |s|
  {
    if sep !in s then [s]
    else
      var i := IndexOf(s, sep);
      [s[..i]] + Split(s[i + 1..], sep)
  }

  /** Python's sep.join(parts). */
  function Join(parts: seq<string>, sep: string): string
  {
    if |parts| == 0 then ""
    else if |parts| == 1 then parts[0]
    else parts[0] + sep + Join(parts[1..], sep)
  }

  /** Joining the parts of a split with the same separator gives back the string. */
  lemma {:induction false} SplitJoin(s: string, sep: char)
    ensures Join(Split(s, sep), [sep]) == s
    decreases |s|
  {
    if sep in s {
      var i := IndexOf(s, sep);
      var rest := Split(s[i + 1..], sep);
      assert Split(s, sep) == [s[..i]] + rest;
      SplitJoin(s[i + 1..], sep);
      JoinAround(s[..i], s[i + 1..], rest, sep);
      AroundIndex(s, i);
    }
  }

  /** A string is the text before position i, the character at i, and the
      text after it. */
  lemma AroundIndex(s: string, i: nat)
    requires i < |s|
    ensures s[..i] + [s[i]] + s[i + 1..] == s
  {
    assert s[i..] == [s[i]] + s[i + 1..];
    assert s == s[..i] + s[i..];
  }

  /** One split step joined back: the part before the separator, the
      separator, and the rest already joined. */
  lemma JoinAround(a: string, b: string, rest: seq<string>, sep: char)
    requires |rest| >= 1 && Join(rest, [sep]) == b
    ensures Join([a] + rest, [sep]) == a + [sep] + b
  {
    JoinCons(a, rest, [sep]);
  }

  lemma JoinCons(a: string, rest: seq<string>, sep: string)
    requires |rest| >= 1
    ensures Join([a] + rest, sep) == a + sep + Join(rest, sep)
  {
    assert ([a] + rest)[1..] == rest;
  }

  /** The text before the first occurrence of sep (s.split(sep)[0]). */
  function Before(s: string, sep: char): (r: string)
    ensures StartsWith(s, r) && sep !in r
    ensures sep in s ==> |r| < |s| && s[|r|] == sep
    ensures sep !in s ==> r == s
  {
    Split(s, sep)[0]
  }

  /** Splitting at the first separator: the text before it comes out whole. */
  lemma BeforeConcat(a: string, sep: char, b: string)
    requires sep !in a
    ensures Before(a + [sep] + b, sep) == a
    ensures (a + [sep] + b)[|a| + 1..] == b
  {
    var s := a + [sep] + b;
    var r := Before(s, sep);
    assert s[|a|] == sep;
    assert forall i :: 0 <= i < |a| ==> s[i] == a[i];
    assert r == s[..|r|];
  }

  /** A split at a leading part without the separator yields that part first. */
  lemma SplitConcat(a: string, sep: char, b: string)
    requires sep !in a
    ensures Split(a + [sep] + b, sep) == [a] + Split(b, sep)
  {
    var s := a + [sep] + b;
    assert s[|a|] == sep;
    var i := IndexOf(s, sep);
    assert forall k :: 0 <= k < |a| ==> s[k] == a[k];
    assert i == |a|;
    assert s[..i] == a;
    assert s[i + 1..] == b;
  }

  /** Every character of Strip(s) comes from s. */
  lemma StripWithin(s: string)
    ensures forall x :: x in Strip(s) ==> x in s
  {
    var l := LStrip(s);
    assert forall x :: x in l ==> x in s;
    assert forall x :: x in RStrip(l) ==> x in l;
  }

  /** The parts of s.split(sep) kept by a list comprehension that strips each one
      and drops the empty ones. */
  function NonEmptyStripped(parts: seq<string>): (r: seq<string>)
    ensures |r| <= |parts|
    ensures forall k :: 0 <= k < |r| ==> r[k] != []
  {
    if parts == [] then []
    else
      var p := Strip(parts[0]);
      (if p == [] then [] else [p]) + NonEmptyStripped(parts[1..])
  }

  lemma StripIdempotent(s: string)
    ensures Strip(Strip(s)) == Strip(s)
  {
    var r := Strip(s);
    assert LStrip(r) == r;
    assert RStrip(r) == r;
  }

  // ---------------------------------------------------------------- digits

  function DigitValue(c: char): (v: nat)
    requires IsDigit(c)
    ensures v < 10
  {
    (c as int - '0' as int) as nat
  }

  function DigitChar(v: nat): (c: char)
    requires v < 10
    ensures IsDigit(c) && DigitValue(c) == v
  {
    ('0' as int + v) as char
  }

  /** The value of a string of decimal digits, as Python's int() reads it. */
  function DigitsValue(s: string): nat
    requires AllDigits(s)
  {
    if s == [] then 0 else 10 * DigitsValue(s[..|s| - 1]) + DigitValue(s[|s| - 1])
  }

  /** Decimal rendering of a natural number, as Python's str() and f-strings print it. */
  function NatToString(n: nat): (s: string)
    ensures AllDigits(s) && |s| >= 1 && DigitsValue(s) == n
    ensures s[0] == '0' ==> n == 0
  {
    if n < 10 then [DigitChar(n)]
    else
      var s := NatToString(n / 10) + [DigitChar(n % 10)];
      assert s[..|s| - 1] == NatToString(n / 10);
      s
  }

  /** Decimal rendering of an integer with a leading "-" when negative. */
  function IntToString(i: int): (s: string)
    ensures i >= 0 ==> s == NatToString(i)
    ensures i < 0 ==> s == "-" + NatToString(-i)
  {
    if i >= 0 then NatToString(i) else "-" + NatToString(-i)
  }

  // ------------------------------------------------------ Unicode decimals

  /** The start of the block of ten Unicode decimal digits (general category
      Nd, Unicode 15.0: 68 blocks, 680 characters) that holds n, if any: the
      largest block start at or below n, and -10 below the first block. */
  function BlockZero(n: int): (z: int)
    requires n >= 0
    ensures z <= n
  {
    if n >= 0x1FBF0 then 0x1FBF0
    else if n >= 0x1E950 then 0x1E950
    else if n >= 0x1E4F0 then 0x1E4F0
    else if n >= 0x1E2F0 then 0x1E2F0
    else if n >= 0x1E140 then 0x1E140
    else if n >= 0x1D7F6 then 0x1D7F6
    else if n >= 0x1D7EC then 0x1D7EC
    else if n >= 0x1D7E2 then 0x1D7E2
    else if n >= 0x1D7D8 then 0x1D7D8
    else if n >= 0x1D7CE then 0x1D7CE
    else if n >= 0x16B50 then 0x16B50
    else if n >= 0x16AC0 then 0x16AC0
    else if n >= 0x16A60 then 0x16A60
    else if n >= 0x11F50 then 0x11F50
    else if n >= 0x11DA0 then 0x11DA0
    else if n >= 0x11D50 then 0x11D50
    else if n >= 0x11C50 then 0x11C50
    else if n >= 0x11950 then 0x11950
    else if n >= 0x118E0 then 0x118E0
    else if n >= 0x11730 then 0x11730
    else if n >= 0x116C0 then 0x116C0
    else if n >= 0x11650 then 0x11650
    else if n >= 0x114D0 then 0x114D0
    else if n >= 0x11450 then 0x11450
    else if n >= 0x112F0 then 0x112F0
    else if n >= 0x111D0 then 0x111D0
    else if n >= 0x11136 then 0x11136
    else if n >= 0x110F0 then 0x110F0
    else if n >= 0x11066 then 0x11066
    else if n >= 0x10D30 then 0x10D30
    else if n >= 0x104A0 then 0x104A0
    else if n >= 0xFF10 then 0xFF10
    else if n >= 0xABF0 then 0xABF0
    else if n >= 0xAA50 then 0xAA50
    else if n >= 0xA9F0 then 0xA9F0
    else if n >= 0xA9D0 then 0xA9D0
    else if n >= 0xA900 then 0xA900
    else if n >= 0xA8D0 then 0xA8D0
    else if n >= 0xA620 then 0xA620
    else if n >= 0x1C50 then 0x1C50
    else if n >= 0x1C40 then 0x1C40
    else if n >= 0x1BB0 then 0x1BB0
    else if n >= 0x1B50 then 0x1B50
    else if n >= 0x1A90 then 0x1A90
    else if n >= 0x1A80 then 0x1A80
    else if n >= 0x19D0 then 0x19D0
    else if n >= 0x1946 then 0x1946
    else if n >= 0x1810 then 0x1810
    else if n >= 0x17E0 then 0x17E0
    else if n >= 0x1090 then 0x1090
    else if n >= 0x1040 then 0x1040
    else if n >= 0xF20 then 0xF20
    else if n >= 0xED0 then 0xED0
    else if n >= 0xE50 then 0xE50
    else if n >= 0xDE6 then 0xDE6
    else if n >= 0xD66 then 0xD66
    else if n >= 0xCE6 then 0xCE6
    else if n >= 0xC66 then 0xC66
    else if n >= 0xBE6 then 0xBE6
    else if n >= 0xB66 then 0xB66
    else if n >= 0xAE6 then 0xAE6
    else if n >= 0xA66 then 0xA66
    else if n >= 0x9E6 then 0x9E6
    else if n >= 0x966 then 0x966
    else if n >= 0x7C0 then 0x7C0
    else if n >= 0x6F0 then 0x6F0
    else if n >= 0x660 then 0x660
    else if n >= 0x30 then 0x30
    else -10
  }

  /** c is a Unicode decimal digit: a character Python's `\d` matches and
      int() and float() read as a digit. Every ASCII digit is one. */
  predicate IsDecimal(c: char)
  {
    c as int < BlockZero(c as int) + 10
  }

  predicate AllDecimals(s: string) { forall i :: 0 <= i < |s| ==> IsDecimal(s[i]) }

  /** The value of a decimal digit: its distance from the start of its block. */
  function DecimalValue(c: char): (v: nat)
    requires IsDecimal(c)
    ensures v < 10
    ensures IsDigit(c) ==> v == DigitValue(c)
  {
    (c as int - BlockZero(c as int)) as nat
  }

  /** s with every decimal digit replaced by the ASCII digit of the same
      value and every other character kept: the text int() and float() read. */
  function AsciiDecimals(s: string): (r: string)
    ensures |r| == |s|
    ensures AllDecimals(s) ==> AllDigits(r)
    ensures AllDigits(s) ==> r == s
    ensures forall i :: 0 <= i < |s| && !IsDecimal(s[i]) ==> r[i] == s[i]
    ensures forall i :: 0 <= i < |s| && IsDecimal(s[i]) ==> IsDigit(r[i]) && DigitValue(r[i]) == DecimalValue(s[i])
  {
    seq(|s|, i requires 0 <= i < |s| => if IsDecimal(s[i]) then DigitChar(DecimalValue(s[i])) else s[i])
  }

  /** The value of a string of decimal digits, as int() reads it. */
  function DecimalsValue(s: string): nat
    requires AllDecimals(s)
  {
    DigitsValue(AsciiDecimals(s))
  }

  /** ASCII digits are decimal digits and keep their value. */
  lemma DigitsAreDecimals(s: string)
    requires AllDigits(s)
    ensures AllDecimals(s) && DecimalsValue(s) == DigitsValue(s)
  {
  }

  /** The longest prefix of s made of decimal digits, or of decimal digits and dots. */
  datatype RunClass = DigitRun | DigitOrDotRun

  predicate InRun(c: char, cls: RunClass) {
    match cls
    case DigitRun => IsDecimal(c)
    case DigitOrDotRun => IsDecimal(c) || c == '.'
  }

  function LeadingRun(s: string, cls: RunClass): (d: string)
    ensures StartsWith(s, d)
    ensures forall i :: 0 <= i < |d| ==> InRun(d[i], cls)
    ensures d == s || !InRun(s[|d|], cls)
  {
    if s != [] && InRun(s[0], cls) then [s[0]] + LeadingRun(s[1..], cls) else []
  }

  /** The longest run of white space at the front of s. */
  function LeadingSpace(s: string): (w: nat)
    ensures w <= |s| && (w == |s| || !IsSpace(s[w]))
    ensures forall i :: 0 <= i < w ==> IsSpace(s[i])
  {
    if s != [] && IsSpace(s[0]) then 1 + LeadingSpace(s[1..]) else 0
  }

  /** End of the maximal run of class cls that starts at k. */
  function RunEnd(s: string, k: nat, cls: RunClass): (e: nat)
    requires k <= |s|
    ensures k <= e <= |s|
  {
    k + |LeadingRun(s[k..], cls)|
  }

  /** The regular expression `(cls+)\s*close` (with skipSpace) or `(cls+)close`
      (without) matches at position k of s. */
  predicate RunMatchesAt(s: string, k: nat, cls: RunClass, skipSpace: bool, close: char)
    requires k <= |s|
  {
    var e := RunEnd(s, k, cls);
    var g := if skipSpace then e + LeadingSpace(s[e..]) else e;
    k < |s| && InRun(s[k], cls) && g < |s| && s[g] == close
  }

  /** Starting inside a run does not change the outcome of the match: the run is
      always taken to its end before the closing character is looked for. */
  lemma RunSuffix(s: string, k: nat, j: nat, cls: RunClass)
    requires k <= |s|
    requires k <= j < RunEnd(s, k, cls)
    ensures RunEnd(s, j, cls) == RunEnd(s, k, cls)
    decreases j - k
  {
    var d := LeadingRun(s[k..], cls);
    if j > k {
      assert s[k + 1..] == s[k..][1..];
      assert LeadingRun(s[k..], cls) == [s[k]] + LeadingRun(s[k + 1..], cls);
      RunSuffix(s, k + 1, j, cls);
    }
  }

  lemma RunMatchesInside(s: string, k: nat, j: nat, cls: RunClass, skipSpace: bool, close: char)
    requires k <= |s|
    requires k <= j < RunEnd(s, k, cls)
    ensures RunMatchesAt(s, j, cls, skipSpace, close) == RunMatchesAt(s, k, cls, skipSpace, close)
  {
    RunSuffix(s, k, j, cls);
    var d := LeadingRun(s[k..], cls);
    assert s[k..][j - k] == s[j];
    assert s[k..][0] == s[k];
  }

  /** Leftmost search for `(cls+)\s*close` from position from: the start and end
      of the captured run, as Python's re.search reports it. */
  function FindRun(s: string, from: nat, cls: RunClass, skipSpace: bool, close: char): (m: Option<(nat, nat)>)
    requires from <= |s|
    ensures m.Some? ==> var (i, j) := m.value;
      && from <= i < j <= |s| && j == RunEnd(s, i, cls)
      && RunMatchesAt(s, i, cls, skipSpace, close)
      && forall k :: from <= k < i ==> !RunMatchesAt(s, k, cls, skipSpace, close)
    ensures m.None? ==> forall k :: from <= k < |s| ==> !RunMatchesAt(s, k, cls, skipSpace, close)
    decreases |s| - from
  {
    if from == |s| then None
    else if !InRun(s[from], cls) then
      FindRun(s, from + 1, cls, skipSpace, close)
    else
      var e := RunEnd(s, from, cls);
      assert s[from..][0] == s[from];
      if RunMatchesAt(s, from, cls, skipSpace, close) then Some((from, e))
      else
        var r := FindRun(s, e, cls, skipSpace, close);
        assert forall k :: from <= k < e ==> !RunMatchesAt(s, k, cls, skipSpace, close) by {
          forall k | from <= k < e ensures !RunMatchesAt(s, k, cls, skipSpace, close) {
            RunMatchesInside(s, from, k, cls, skipSpace, close);
          }
        }
        r
  }

  /** `(cls+)\s*close` (or `(cls+)close`) matches at i and nowhere before:
      where re.search reports its match. */
  predicate LeftmostRun(s: string, i: nat, cls: RunClass, skipSpace: bool, close: char)
  {
    i < |s| && RunMatchesAt(s, i, cls, skipSpace, close)
    && forall k :: 0 <= k < i ==> !RunMatchesAt(s, k, cls, skipSpace, close)
  }

  /** The pattern matches nowhere in s. */
  predicate NoRun(s: string, cls: RunClass, skipSpace: bool, close: char)
  {
    forall k :: 0 <= k < |s| ==> !RunMatchesAt(s, k, cls, skipSpace, close)
  }

  /** The search from the start reports the leftmost match, and nothing
      exactly when there is none. */
  lemma FindRunLeftmost(s: string, cls: RunClass, skipSpace: bool, close: char)
    ensures forall i: nat :: LeftmostRun(s, i, cls, skipSpace, close) ==>
      FindRun(s, 0, cls, skipSpace, close) == Some((i, RunEnd(s, i, cls)))
    ensures FindRun(s, 0, cls, skipSpace, close).None? <==> NoRun(s, cls, skipSpace, close)
  {
    var m := FindRun(s, 0, cls, skipSpace, close);
    if m.Some? {
      var (i, j) := m.value;
      assert RunMatchesAt(s, i, cls, skipSpace, close);
    }
  }

  /** The first maximal run of decimal digits in s, as `re.search(r"(\d+)", s)` finds it. */
  function FirstDigits(s: string, from: nat): (m: Option<(nat, nat)>)
    requires from <= |s|
    ensures m.Some? ==> var (i, j) := m.value;
      && from <= i < j <= |s| && j == RunEnd(s, i, DigitRun) && IsDecimal(s[i])
      && forall k :: from <= k < i ==> !IsDecimal(s[k])
    ensures m.None? ==> forall k :: from <= k < |s| ==> !IsDecimal(s[k])
    decreases |s| - from
  {
    if from == |s| then None
    else if IsDecimal(s[from]) then
      assert s[from..][0] == s[from];
      Some((from, RunEnd(s, from, DigitRun)))
    else FirstDigits(s, from + 1)
  }

  lemma RunIsDecimals(s: string, i: nat)
    requires i <= |s|
    ensures AllDecimals(s[i..RunEnd(s, i, DigitRun)])
  {
    assert s[i..RunEnd(s, i, DigitRun)] == LeadingRun(s[i..], DigitRun);
  }

  /** The value of the decimal digits s[i..j], as int() reads them. */
  function NumberAt(s: string, i: nat, j: nat): nat
    requires i <= j <= |s| && j == RunEnd(s, i, DigitRun)
  {
    RunIsDecimals(s, i);
    DecimalsValue(s[i..j])
  }
}
