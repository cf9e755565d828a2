/** The parts of Python's `str` behaviour that the scraper depends on: the `\d`
    and `\s` character classes of `re`, `int()` on a numeral, `str()` of an
    integer, `str.split` on a one-character separator and substring `in`. */
module PyText {
  import opened Wrappers

  /** `\d`, restricted to the ASCII digits. */
  predicate IsDigit(c: char) { '0' <= c <= '9' }

  /** `\s` of a `str` pattern: exactly the characters for which `str.isspace()` holds. */
  predicate IsSpace(c: char) {
    if c <= ' ' then '\t' <= c <= '\r' || '\U{1C}' <= c
    else if c < '\U{85}' then false
    else if c < '\U{2000}' then c == '\U{85}' || c == '\U{A0}' || c == '\U{1680}'
    else
      c <= '\U{200A}' || c == '\U{2028}' || c == '\U{2029}' || c == '\U{202F}'
      || c == '\U{205F}' || c == '\U{3000}'
  }

  predicate IsSign(c: char) { c == '+' || c == '-' }

  /** The two character classes the record patterns repeat greedily. */
  datatype CharClass = Digit | Space

  predicate InClass(c: char, k: CharClass) {
    match k
    case Digit => IsDigit(c)
    case Space => IsSpace(c)
  }

  /** Every position of `s[lo..hi]` is in class `k`. */
  predicate AllIn(s: string, lo: nat, hi: nat, k: CharClass)
    requires lo <= hi <= |s|
  {
    forall j {:trigger InClass(s[j], k)} :: lo <= j < hi ==> InClass(s[j], k)
  }

  /** The length of the longest run of class `k` that starts at `p`: what a
      greedy `\d+` or `\s*` consumes before it backtracks. */
  function RunLength(s: string, p: nat, k: CharClass): (n: nat)
    requires p <= |s|
    ensures p + n <= |s|
    decreases |s| - p
  {
    if p < |s| && InClass(s[p], k) then 1 + RunLength(s, p + 1, k) else 0
  }

  /** The run `RunLength` measures is all of class `k`, is not followed by
      class `k`, and no run of class `k` from `p` is longer. */
  lemma {:induction false} RunLengthSpec(s: string, p: nat, k: CharClass)
    requires p <= |s|
    ensures AllIn(s, p, p + RunLength(s, p, k), k)
    ensures p + RunLength(s, p, k) < |s| ==> !InClass(s[p + RunLength(s, p, k)], k)
    ensures forall hi :: p <= hi <= |s| && AllIn(s, p, hi, k) ==> hi <= p + RunLength(s, p, k)
    decreases |s| - p
  {
    if p < |s| && InClass(s[p], k) {
      RunLengthSpec(s, p + 1, k);
      forall hi | p <= hi <= |s| && AllIn(s, p, hi, k)
        ensures hi <= p + RunLength(s, p, k)
      {
        if hi > p {
          assert AllIn(s, p + 1, hi, k);
        }
      }
    }
  }

  /** A run of class `k` over `s[lo..hi]` that nothing of class `k` follows is the longest run. */
  lemma RunLengthIs(s: string, lo: nat, hi: nat, k: CharClass)
    requires lo <= hi <= |s| && AllIn(s, lo, hi, k)
    requires hi == |s| || !InClass(s[hi], k)
    ensures RunLength(s, lo, k) == hi - lo
  {
    RunLengthSpec(s, lo, k);
  }

  predicate AllDigits(t: string) { forall j :: 0 <= j < |t| ==> IsDigit(t[j]) }

  predicate AllSpaces(t: string) { forall j :: 0 <= j < |t| ==> IsSpace(t[j]) }

  /** `[+-]?\d+`: what `int()` accepts once the surrounding whitespace is stripped. */
  predicate IsNumeral(t: string) {
    |t| > 0 && if IsSign(t[0]) then |t| > 1 && AllDigits(t[1..]) else AllDigits(t)
  }

  function DigitValue(c: char): (d: nat)
    requires IsDigit(c)
    ensures d < 10
  {
    c as int - '0' as int
  }

  function DigitChar(d: nat): (c: char)
    requires d < 10
    ensures IsDigit(c) && DigitValue(c) == d
  {
    ('0' as int + d) as char
  }

  /** The value of a string of decimal digits, most significant first. */
  function DigitsValue(t: string): nat
    requires AllDigits(t)
    decreases |t|
  {
    if t == [] then 0 else 10 * DigitsValue(t[..|t| - 1]) + DigitValue(t[|t| - 1])
  }

  /** `int(t)` for a numeral `t`, a leading `+` or `-` included. */
  function NumeralValue(t: string): int
    requires IsNumeral(t)
  {
    if t[0] == '-' then -(DigitsValue(t[1..]) as int)
    else if t[0] == '+' then DigitsValue(t[1..])
    else DigitsValue(t)
  }

  /** The number of whitespace characters that end `t` after position `lo`. */
  function TrailingSpaces(t: string, lo: nat): (n: nat)
    requires lo <= |t|
    ensures lo + n <= |t|
    ensures forall j :: |t| - n <= j < |t| ==> IsSpace(t[j])
    ensures lo + n < |t| ==> !IsSpace(t[|t| - n - 1])
    decreases |t|
  {
    if lo < |t| && IsSpace(t[|t| - 1]) then 1 + TrailingSpaces(t[..|t| - 1], lo) else 0
  }

  /** `str.strip()` with no argument: `t` without its leading and trailing whitespace. */
  function Strip(t: string): string {
    var lo := RunLength(t, 0, Space);
    t[lo..|t| - TrailingSpaces(t, lo)]
  }

  /** `t.strip()` is empty exactly when `t` is whitespace only. */
  lemma StripEmpty(t: string)
    ensures Strip(t) == [] <==> AllSpaces(t)
  {
    var lo := RunLength(t, 0, Space);
    RunLengthSpec(t, 0, Space);
    if AllSpaces(t) {
      RunLengthIs(t, 0, |t|, Space);
    } else if Strip(t) == [] {
      var n := TrailingSpaces(t, lo);
      assert lo + n == |t|;
      forall j | 0 <= j < |t| ensures IsSpace(t[j]) {
        if j < lo {
          assert InClass(t[j], Space);
        }
      }
    }
  }

  /** The information separators U+001C to U+001F: `str.isspace()` holds for
      them, but `int()` does not skip them as whitespace. */
  predicate IsSeparatorControl(c: char) { '\U{1C}' <= c <= '\U{1F}' }

  /** Python's `int(t)` on a `str`: `None` is the `ValueError` it raises.
      `int()` skips the surrounding whitespace `strip()` removes, except the
      information separators, so a `t` holding one of them raises. */
  function PyInt(t: string): Option<int> {
    var u := Strip(t);
    if IsNumeral(u) && forall k :: 0 <= k < |t| ==> !IsSeparatorControl(t[k]) then
      Some(NumeralValue(u))
    else None
  }

  /** `int()` rejects a text holding an information separator, even when
      `strip()` would remove it. */
  lemma PyIntRejectsSeparator(t: string, k: nat)
    requires k < |t| && IsSeparatorControl(t[k])
    ensures PyInt(t).None?
  {
  }

  /** `int("3\x1f")` raises, although `"3\x1f".strip()` is `"3"`. */
  lemma SeparatorExample(t: string)
    requires t == "3\U{1F}"
    ensures Strip(t) == "3" && PyInt(t).None?
  {
  }

  /** `str(n)` of a non-negative integer: its shortest decimal form. */
  function NatToDecimal(n: nat): (r: string)
    ensures |r| > 0 && AllDigits(r)
    ensures r[0] == '0' ==> n == 0 && r == "0"
    decreases n
  {
    if n < 10 then [DigitChar(n)] else NatToDecimal(n / 10) + [DigitChar(n % 10)]
  }

  /** `str(i)` of an integer. */
  function IntToDecimal(i: int): string {
    if i < 0 then "-" + NatToDecimal(-i) else NatToDecimal(i)
  }

  /** `int(str(n)) == n` for non-negative `n`. */
  lemma {:induction false} DigitsOfDecimal(n: nat)
    ensures DigitsValue(NatToDecimal(n)) == n
    decreases n
  {
    var r := NatToDecimal(n);
    if n >= 10 {
      DigitsOfDecimal(n / 10);
      assert r[..|r| - 1] == NatToDecimal(n / 10);
    }
  }

  /** A string without surrounding whitespace is left alone by `strip()`. */
  lemma StripUnspaced(t: string)
    requires t == [] || (!IsSpace(t[0]) && !IsSpace(t[|t| - 1]))
    ensures Strip(t) == t
  {
  }

  /** `int(str(i)) == i` for every integer `i`. */
  lemma PyIntOfDecimal(i: int)
    ensures PyInt(IntToDecimal(i)) == Some(i)
  {
    if i < 0 {
      NegativeDecimal(i);
    } else {
      DigitsOfDecimal(i);
      PyIntOfDigits(NatToDecimal(i));
    }
  }

  lemma NegativeDecimal(i: int)
    requires i < 0
    ensures PyInt(IntToDecimal(i)) == Some(i)
  {
    var n: nat := -i;
    var d := NatToDecimal(n);
    var r := "-" + d;
    assert IntToDecimal(i) == r;
    assert r[1..] == d;
    assert IsNumeral(r);
    DigitsOfDecimal(n);
    StripUnspaced(r);
  }

  /** `int(t)` of a plain string of digits is that string's value. */
  lemma PyIntOfDigits(t: string)
    requires |t| > 0 && AllDigits(t)
    ensures PyInt(t) == Some(DigitsValue(t))
  {
    StripUnspaced(t);
  }

  /** `t` without its redundant leading zeros ("007" becomes "7", "000" becomes "0"). */
  function DropLeadingZeros(t: string): (u: string)
    ensures |u| <= |t|
    decreases |t|
  {
    if |t| > 1 && t[0] == '0' then DropLeadingZeros(t[1..]) else t
  }

  lemma {:induction false} LeadingZeroValue(t: string)
    requires AllDigits(t)
    ensures AllDigits(['0'] + t) && DigitsValue(['0'] + t) == DigitsValue(t)
    decreases |t|
  {
    var z := ['0'] + t;
    if t != [] {
      assert z[..|z| - 1] == ['0'] + t[..|t| - 1];
      LeadingZeroValue(t[..|t| - 1]);
    }
  }

  lemma {:induction false} PositiveValue(t: string)
    requires |t| > 0 && AllDigits(t) && t[0] != '0'
    ensures DigitsValue(t) > 0
    decreases |t|
  {
    if |t| > 1 {
      PositiveValue(t[..|t| - 1]);
    }
  }

  /** A digit string with no redundant leading zero is exactly `str` of its value. */
  lemma {:induction false} DecimalOfCanonical(t: string)
    requires |t| > 0 && AllDigits(t) && (t[0] == '0' ==> |t| == 1)
    ensures NatToDecimal(DigitsValue(t)) == t
    decreases |t|
  {
    var u := t[..|t| - 1];
    var c := t[|t| - 1];
    if u == [] {
      assert t == [c];
    } else {
      PositiveValue(u);
      DecimalOfCanonical(u);
      var v := DigitsValue(t);
      assert v / 10 == DigitsValue(u) && v % 10 == DigitValue(c);
      assert t == u + [c];
    }
  }

  /** `str(int(t))` of a digit string drops exactly its leading zeros. */
  lemma {:induction false} DecimalOfDigits(t: string)
    requires |t| > 0 && AllDigits(t)
    ensures AllDigits(DropLeadingZeros(t))
    ensures NatToDecimal(DigitsValue(t)) == DropLeadingZeros(t)
    decreases |t|
  {
    if |t| > 1 && t[0] == '0' {
      assert t == ['0'] + t[1..];
      LeadingZeroValue(t[1..]);
      DecimalOfDigits(t[1..]);
    } else {
      DecimalOfCanonical(t);
    }
  }

  /** `s.split(sep)`: the pieces between occurrences of `sep`, empty ones included. */
  function Split(s: string, sep: char): (parts: seq<string>)
    ensures |parts| > 0
    ensures forall k :: 0 <= k < |parts| ==> sep !in parts[k]
    decreases |s|
  {
    if s == [] then [[]]
    else
      var rest := Split(s[1..], sep);
      if s[0] == sep then [[]] + rest else [[s[0]] + rest[0]] + rest[1..]
  }

  /** `sep.join(parts)`. */
  function Join(parts: seq<string>, sep: char): string
    requires |parts| > 0
    decreases |parts|
  {
    if |parts| == 1 then parts[0] else parts[0] + [sep] + Join(parts[1..], sep)
  }

  /** Splitting loses nothing: joining the pieces gives the string back. */
  lemma {:induction false} JoinSplit(s: string, sep: char)
    ensures Join(Split(s, sep), sep) == s
    decreases |s|
  {
    if s != [] {
      JoinSplit(s[1..], sep);
      var rest := Split(s[1..], sep);
      if s[0] == sep {
        assert s == [sep] + s[1..];
      } else if |rest| == 1 {
        assert s == [s[0]] + s[1..];
      } else {
        var parts := Split(s, sep);
        assert parts[1..] == rest[1..];
        assert s == [s[0]] + s[1..];
      }
    }
  }

  /** There are at least two pieces exactly when the separator occurs. */
  lemma {:induction false} SplitCount(s: string, sep: char)
    ensures |Split(s, sep)| >= 2 <==> sep in s
    decreases |s|
  {
    if s != [] {
      SplitCount(s[1..], sep);
      assert sep in s <==> s[0] == sep || sep in s[1..];
    }
  }

  /** The first piece is everything before the first separator. */
  lemma {:induction false} SplitFirst(a: string, b: string, sep: char)
    requires sep !in a
    ensures Split(a + [sep] + b, sep) == [a] + Split(b, sep)
    decreases |a|
  {
    var s := a + [sep] + b;
    if a == [] {
      assert s == [sep] + b;
      assert s[1..] == b;
    } else {
      assert s[1..] == a[1..] + [sep] + b;
      SplitFirst(a[1..], b, sep);
      assert [a[0]] + a[1..] == a;
    }
  }

  /** Python's `p in t` on two strings. */
  predicate Contains(t: string, p: string)
    decreases |t|
  {
    p <= t || (t != [] && Contains(t[1..], p))
  }

  /** `p` occurs in `t` at position `i`. */
  predicate OccursAt(t: string, p: string, i: nat) {
    i + |p| <= |t| && t[i..i + |p|] == p
  }

  /** An occurrence at position 0 is a prefix. */
  lemma OccursAtStart(t: string, p: string)
    ensures OccursAt(t, p, 0) <==> p <= t
  {
    if |p| <= |t| {
      assert t[0..|p|] == t[..|p|];
    }
  }

  /** Occurrences in `t[1..]` are those in `t` one position further on. */
  lemma OccursShift(t: string, p: string, i: nat)
    requires t != []
    ensures OccursAt(t, p, i + 1) <==> OccursAt(t[1..], p, i)
  {
    if i + 1 + |p| <= |t| {
      assert t[1..][i..i + |p|] == t[i + 1..i + 1 + |p|];
    }
  }

  /** `p in t` holds exactly when `p` occurs at some position of `t`. */
  lemma {:induction false} ContainsAt(t: string, p: string)
    ensures Contains(t, p) <==> exists i: nat :: OccursAt(t, p, i)
    decreases |t|
  {
    OccursAtStart(t, p);
    if p <= t {
      assert OccursAt(t, p, 0);
    } else if t == [] {
      forall i: nat ensures !OccursAt(t, p, i) {
        if i > 0 {
          assert i + |p| > |t|;
        }
      }
    } else {
      ContainsAt(t[1..], p);
      if i: nat :| OccursAt(t, p, i) {
        assert i != 0;
        OccursShift(t, p, i - 1);
      }
      if i: nat :| OccursAt(t[1..], p, i) {
        OccursShift(t, p, i);
      }
    }
  }
}
