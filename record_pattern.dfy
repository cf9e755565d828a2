/** The record column of the results table ("9(1)10 -1", "1 - 0 +1") and the
    two regular expressions scripts/scraper.py reads it with:

      with draws  (\d+)\((\d+)\)(\d+)\s*([+-]?\d+)
      standard    (\d+)\s*-\s*(\d+)\s*([+-]?\d+)

    `re.search` is modelled by a hand-written matcher that tries every start
    position from the left and, at each, follows Python's backtracking order.
    The matcher is proved against a declarative description of the two
    patterns and of which match `re.search` returns. */
module RecordPattern {
  import opened Wrappers
  import opened PyText

  datatype Pattern = WithDraws | Standard

  /** Group ends of the tail `(\d+)\s*([+-]?\d+)` that both patterns share:
      the losses group ends at `lossEnd`, the net-wins group is
      `s[netStart..netEnd]`. */
  datatype Tail = Tail(lossEnd: nat, netStart: nat, netEnd: nat)

  /** Where one match puts its groups in `s`. Wins is `s[start..winsEnd]`,
      losses is `s[lossStart..tail.lossEnd]`, net wins is
      `s[tail.netStart..tail.netEnd]`. With draws, draws is
      `s[winsEnd + 1..midEnd]` and `s[midEnd]` is the `)`; in the standard
      form `s[midEnd]` is the `-`. */
  datatype Match = Match(start: nat, winsEnd: nat, midEnd: nat, lossStart: nat, tail: Tail)

  /** The four numbers a record string stands for. */
  datatype Record = Record(wins: nat, losses: nat, draws: nat, netWins: int)

  /** `\d+` matches `s[lo..hi]`. */
  predicate Numeral(s: string, lo: nat, hi: nat) {
    lo < hi <= |s| && AllIn(s, lo, hi, Digit)
  }

  /** `[+-]?\d+` matches `s[lo..hi]`. */
  predicate SignedNumeral(s: string, lo: nat, hi: nat) {
    lo < |s| && if IsSign(s[lo]) then Numeral(s, lo + 1, hi) else Numeral(s, lo, hi)
  }

  /** `(\d+)\s*([+-]?\d+)` matches from `p` with the groups `t`. */
  predicate IsTail(s: string, p: nat, t: Tail) {
    && p <= t.lossEnd <= t.netStart <= t.netEnd <= |s|
    && Numeral(s, p, t.lossEnd)
    && AllIn(s, t.lossEnd, t.netStart, Space)
    && SignedNumeral(s, t.netStart, t.netEnd)
  }

  /** `(\d+)\((\d+)\)(\d+)\s*([+-]?\d+)` matches in `s` with the groups `m`. */
  predicate IsDrawsMatch(s: string, m: Match) {
    && m.start < m.winsEnd < m.midEnd < m.lossStart <= |s|
    && Numeral(s, m.start, m.winsEnd)
    && s[m.winsEnd] == '('
    && Numeral(s, m.winsEnd + 1, m.midEnd)
    && s[m.midEnd] == ')'
    && m.lossStart == m.midEnd + 1
    && IsTail(s, m.lossStart, m.tail)
  }

  /** `(\d+)\s*-\s*(\d+)\s*([+-]?\d+)` matches in `s` with the groups `m`. */
  predicate IsStandardMatch(s: string, m: Match) {
    && m.start < m.winsEnd <= m.midEnd < m.lossStart <= |s|
    && Numeral(s, m.start, m.winsEnd)
    && AllIn(s, m.winsEnd, m.midEnd, Space)
    && s[m.midEnd] == '-'
    && AllIn(s, m.midEnd + 1, m.lossStart, Space)
    && IsTail(s, m.lossStart, m.tail)
  }

  /** Pattern `p` matches in `s` with the groups `m`. */
  predicate IsMatch(p: Pattern, s: string, m: Match) {
    match p
    case WithDraws => IsDrawsMatch(s, m)
    case Standard => IsStandardMatch(s, m)
  }

  /** Python's matcher tries the ways of matching from one start in an order
      where every greedy quantifier, left to right, first takes its longest
      run. Of two matches it therefore reaches first the one whose group ends
      are larger at the first place they differ: `TailAtMost(t1, t2)` and
      `AtMost(m1, m2)` say that `t2`, `m2` come first or are the same. */
  predicate TailAtMost(t1: Tail, t2: Tail) {
    || t1.lossEnd < t2.lossEnd
    || (t1.lossEnd == t2.lossEnd && t1.netStart < t2.netStart)
    || (t1.lossEnd == t2.lossEnd && t1.netStart == t2.netStart && t1.netEnd <= t2.netEnd)
  }

  predicate AtMost(m1: Match, m2: Match) {
    || m1.winsEnd < m2.winsEnd
    || (m1.winsEnd == m2.winsEnd && m1.midEnd < m2.midEnd)
    || (m1.winsEnd == m2.winsEnd && m1.midEnd == m2.midEnd && m1.lossStart < m2.lossStart)
    || (m1.winsEnd == m2.winsEnd && m1.midEnd == m2.midEnd && m1.lossStart == m2.lossStart
        && TailAtMost(m1.tail, m2.tail))
  }

  /** `m` is the match `re.search(p, s)` returns: no match starts further
      left, and of those starting where it does it is the one tried first. */
  ghost predicate IsFirstMatch(p: Pattern, s: string, m: Match) {
    && IsMatch(p, s, m)
    && forall m' :: IsMatch(p, s, m') ==>
         m.start < m'.start || (m.start == m'.start && AtMost(m', m))
  }

  /** `[+-]?\d+` from `r`: the end of its longest match, if any. */
  function MatchSigned(s: string, r: nat): (f: Option<nat>)
    requires r <= |s|
    ensures f.Some? ==> SignedNumeral(s, r, f.value)
  {
    if r < |s| && IsSign(s[r]) then
      var n := RunLength(s, r + 1, Digit);
      RunLengthSpec(s, r + 1, Digit);
      if n > 0 then Some(r + 1 + n) else None
    else
      var n := RunLength(s, r, Digit);
      RunLengthSpec(s, r, Digit);
      if n > 0 then Some(r + n) else None
  }

  /** No match of `[+-]?\d+` from `r` is longer than the one `MatchSigned` finds. */
  lemma MatchSignedLongest(s: string, r: nat, e: nat)
    requires r <= |s| && SignedNumeral(s, r, e)
    ensures MatchSigned(s, r).Some? && e <= MatchSigned(s, r).value
  {
    if IsSign(s[r]) {
      RunLengthSpec(s, r + 1, Digit);
    } else {
      RunLengthSpec(s, r, Digit);
    }
  }

  /** `(\d+)\s*([+-]?\d+)` from `p`, as the backtracking matcher finds it: the
      losses group first takes the whole run of digits; only if the net-wins
      group then fails does it give back its last digit, which the net-wins
      group takes. */
  function MatchTail(s: string, p: nat): (t: Option<Tail>)
    requires p <= |s|
    ensures t.Some? ==> IsTail(s, p, t.value)
  {
    var k := RunLength(s, p, Digit);
    RunLengthSpec(s, p, Digit);
    if k == 0 then None
    else
      var q := p + k;
      var r := q + RunLength(s, q, Space);
      RunLengthSpec(s, q, Space);
      match MatchSigned(s, r)
      case Some(f) => Some(Tail(q, r, f))
      case None =>
        if k >= 2 then
          assert InClass(s[q - 1], Digit);
          Some(Tail(q - 1, q - 1, q))
        else None
  }

  function WithTail(s: string, start: nat, winsEnd: nat, midEnd: nat, lossStart: nat): Option<Match>
    requires lossStart <= |s|
  {
    match MatchTail(s, lossStart)
    case None => None
    case Some(t) => Some(Match(start, winsEnd, midEnd, lossStart, t))
  }

  /** The pattern with draws, anchored at `i`. */
  function MatchDrawsAt(s: string, i: nat): (m: Option<Match>)
    requires i <= |s|
    ensures m.Some? ==> IsDrawsMatch(s, m.value) && m.value.start == i
  {
    var a := i + RunLength(s, i, Digit);
    RunLengthSpec(s, i, Digit);
    if a == i || a == |s| || s[a] != '(' then None
    else
      var b := a + 1 + RunLength(s, a + 1, Digit);
      RunLengthSpec(s, a + 1, Digit);
      if b == a + 1 || b == |s| || s[b] != ')' then None
      else WithTail(s, i, a, b, b + 1)
  }

  /** The standard pattern, anchored at `i`. */
  function MatchStandardAt(s: string, i: nat): (m: Option<Match>)
    requires i <= |s|
    ensures m.Some? ==> IsStandardMatch(s, m.value) && m.value.start == i
  {
    var a := i + RunLength(s, i, Digit);
    RunLengthSpec(s, i, Digit);
    if a == i then None else StandardAfterWins(s, i, a)
  }

  /** The rest of the standard pattern, once the wins group is `s[i..a]`. */
  function StandardAfterWins(s: string, i: nat, a: nat): (m: Option<Match>)
    requires i < a <= |s| && Numeral(s, i, a)
    ensures m.Some? ==> IsStandardMatch(s, m.value) && m.value.start == i && m.value.winsEnd == a
  {
    var b := a + RunLength(s, a, Space);
    RunLengthSpec(s, a, Space);
    if b == |s| || s[b] != '-' then None else StandardAfterDash(s, i, a, b)
  }

  /** The rest of the standard pattern, once `s[b]` is the `-`. */
  function StandardAfterDash(s: string, i: nat, a: nat, b: nat): (m: Option<Match>)
    requires i < a <= b < |s| && Numeral(s, i, a) && AllIn(s, a, b, Space) && s[b] == '-'
    ensures m.Some? ==> IsStandardMatch(s, m.value) && m.value.start == i
    ensures m.Some? ==> m.value.winsEnd == a && m.value.midEnd == b
  {
    RunLengthSpec(s, b + 1, Space);
    WithTail(s, i, a, b, b + 1 + RunLength(s, b + 1, Space))
  }

  /** Pattern `p` anchored at `i`: the first match the backtracking matcher reaches. */
  function MatchAt(p: Pattern, s: string, i: nat): (m: Option<Match>)
    requires i <= |s|
    ensures m.Some? ==> IsMatch(p, s, m.value) && m.value.start == i
  {
    match p
    case WithDraws => MatchDrawsAt(s, i)
    case Standard => MatchStandardAt(s, i)
  }

  /** `re.search(p, s[i..])`: the first start position, from `i` on, at which
      `p` matches. */
  function Search(p: Pattern, s: string, i: nat): (m: Option<Match>)
    requires i <= |s|
    ensures m.Some? ==> IsMatch(p, s, m.value) && i <= m.value.start
    decreases |s| - i
  {
    var here := MatchAt(p, s, i);
    if here.Some? || i == |s| then here else Search(p, s, i + 1)
  }

  /** A match of `[+-]?\d+` does not start with whitespace. */
  lemma SignedStart(s: string, lo: nat, hi: nat)
    requires SignedNumeral(s, lo, hi)
    ensures !InClass(s[lo], Space)
  {
    if !IsSign(s[lo]) {
      assert InClass(s[lo], Digit);
    }
  }

  /** Of every match of the tail from `p`, the matcher finds one and finds
      the one tried first. */
  lemma MatchTailFirst(s: string, p: nat, t: Tail)
    requires p <= |s| && IsTail(s, p, t)
    ensures MatchTail(s, p).Some? && TailAtMost(t, MatchTail(s, p).value)
  {
    var k := RunLength(s, p, Digit);
    RunLengthSpec(s, p, Digit);
    var q := p + k;
    assert t.lossEnd <= q;
    var r := q + RunLength(s, q, Space);
    RunLengthSpec(s, q, Space);
    if t.lossEnd == q {
      SignedStart(s, t.netStart, t.netEnd);
      assert t.netStart == r;
      MatchSignedLongest(s, r, t.netEnd);
    } else if MatchSigned(s, r).None? {
      assert k >= 2;
      if t.lossEnd == q - 1 {
        SignedStart(s, t.netStart, t.netEnd);
        assert InClass(s[q - 1], Digit);
        assert t.netStart == q - 1;
        assert t.netEnd <= q;
      }
    }
  }

  lemma MatchDrawsAtFirst(s: string, m: Match)
    requires IsDrawsMatch(s, m)
    ensures MatchDrawsAt(s, m.start).Some? && AtMost(m, MatchDrawsAt(s, m.start).value)
  {
    var a, b := m.winsEnd, m.midEnd;
    RunLengthIs(s, m.start, a, Digit);
    RunLengthIs(s, a + 1, b, Digit);
    MatchTailFirst(s, b + 1, m.tail);
  }

  lemma StandardAfterWinsFirst(s: string, m: Match)
    requires IsStandardMatch(s, m)
    ensures StandardAfterWins(s, m.start, m.winsEnd).Some?
    ensures AtMost(m, StandardAfterWins(s, m.start, m.winsEnd).value)
  {
    RunLengthIs(s, m.winsEnd, m.midEnd, Space);
    StandardAfterDashFirst(s, m);
  }

  lemma StandardAfterDashFirst(s: string, m: Match)
    requires IsStandardMatch(s, m)
    ensures StandardAfterDash(s, m.start, m.winsEnd, m.midEnd).Some?
    ensures AtMost(m, StandardAfterDash(s, m.start, m.winsEnd, m.midEnd).value)
  {
    assert InClass(s[m.lossStart], Digit);
    RunLengthIs(s, m.midEnd + 1, m.lossStart, Space);
    MatchTailFirst(s, m.lossStart, m.tail);
  }

  lemma MatchStandardAtFirst(s: string, m: Match)
    requires IsStandardMatch(s, m)
    ensures MatchStandardAt(s, m.start).Some? && AtMost(m, MatchStandardAt(s, m.start).value)
  {
    if m.winsEnd < m.midEnd {
      assert InClass(s[m.winsEnd], Space);
    }
    RunLengthIs(s, m.start, m.winsEnd, Digit);
    StandardAfterWinsFirst(s, m);
  }

  /** Of every match of `p` at a start, the anchored matcher finds one and
      finds the one tried first. */
  lemma MatchAtFirst(p: Pattern, s: string, m: Match)
    requires IsMatch(p, s, m)
    ensures MatchAt(p, s, m.start).Some? && AtMost(m, MatchAt(p, s, m.start).value)
  {
    match p
    case WithDraws => MatchDrawsAtFirst(s, m);
    case Standard => MatchStandardAtFirst(s, m);
  }

  /** `Search` returns the leftmost match that starts at or after `i`, the
      one tried first at that start, and fails only when there is none. */
  lemma {:induction false} SearchFirst(p: Pattern, s: string, i: nat)
    requires i <= |s|
    ensures Search(p, s, i).Some? ==> forall m :: IsMatch(p, s, m) && i <= m.start ==>
      Search(p, s, i).value.start < m.start ||
      (Search(p, s, i).value.start == m.start && AtMost(m, Search(p, s, i).value))
    ensures Search(p, s, i).None? ==> forall m :: IsMatch(p, s, m) ==> m.start < i
    decreases |s| - i
  {
    var here := MatchAt(p, s, i);
    forall m | IsMatch(p, s, m) && m.start == i
      ensures here.Some? && AtMost(m, here.value)
    {
      MatchAtFirst(p, s, m);
    }
    if here.None? && i < |s| {
      SearchFirst(p, s, i + 1);
      assert Search(p, s, i) == Search(p, s, i + 1);
    }
  }

  /** The matcher computes `re.search`: it succeeds exactly when the pattern
      matches somewhere, and then returns the match `re.search` returns. */
  lemma SearchIsReSearch(p: Pattern, s: string)
    ensures Search(p, s, 0).Some? <==> exists m :: IsMatch(p, s, m)
    ensures Search(p, s, 0).Some? ==> IsFirstMatch(p, s, Search(p, s, 0).value)
  {
    SearchFirst(p, s, 0);
  }

  /** The match `re.search` returns is determined by the pattern and the text. */
  lemma FirstMatchUnique(p: Pattern, s: string, m1: Match, m2: Match)
    requires IsFirstMatch(p, s, m1) && IsFirstMatch(p, s, m2)
    ensures m1 == m2
  {
    assert AtMost(m1, m2) && AtMost(m2, m1);
  }

  lemma DigitSlice(s: string, lo: nat, hi: nat)
    requires lo <= hi <= |s| && AllIn(s, lo, hi, Digit)
    ensures AllDigits(s[lo..hi])
  {
    forall j | 0 <= j < hi - lo
      ensures IsDigit(s[lo..hi][j])
    {
      assert InClass(s[lo + j], Digit);
    }
  }

  lemma NumeralSlice(s: string, lo: nat, hi: nat)
    requires lo <= hi <= |s| && SignedNumeral(s, lo, hi)
    ensures IsNumeral(s[lo..hi])
  {
    if IsSign(s[lo]) {
      DigitSlice(s, lo + 1, hi);
      assert s[lo..hi][1..] == s[lo + 1..hi];
    } else {
      DigitSlice(s, lo, hi);
    }
  }

  /** `int()` of each group of a match; the standard form has no draws group
      and the source sets draws to 0. */
  function Captured(p: Pattern, s: string, m: Match): Record
    requires IsMatch(p, s, m)
  {
    DigitSlice(s, m.start, m.winsEnd);
    DigitSlice(s, m.lossStart, m.tail.lossEnd);
    NumeralSlice(s, m.tail.netStart, m.tail.netEnd);
    var draws: nat :=
      if p == WithDraws then DigitSlice(s, m.winsEnd + 1, m.midEnd); DigitsValue(s[m.winsEnd + 1..m.midEnd])
      else 0;
    Record(DigitsValue(s[m.start..m.winsEnd]), DigitsValue(s[m.lossStart..m.tail.lossEnd]), draws,
           NumeralValue(s[m.tail.netStart..m.tail.netEnd]))
  }

  /** The wins, losses, draws and net wins of a record string: the pattern
      with draws first, then the standard one, and all zeros when neither
      matches (the source logs that case and keeps the game). */
  function ParseRecord(s: string): Record {
    match Search(WithDraws, s, 0)
    case Some(m) => Captured(WithDraws, s, m)
    case None =>
      match Search(Standard, s, 0)
      case Some(m) => Captured(Standard, s, m)
      case None => Record(0, 0, 0, 0)
  }

  /** What `ParseRecord` returns, in terms of the patterns alone. */
  lemma ParseRecordSpec(s: string)
    ensures (exists m :: IsMatch(WithDraws, s, m)) ==>
      exists m :: IsFirstMatch(WithDraws, s, m) && ParseRecord(s) == Captured(WithDraws, s, m)
    ensures (forall m :: !IsMatch(WithDraws, s, m)) && (exists m :: IsMatch(Standard, s, m)) ==>
      exists m :: IsFirstMatch(Standard, s, m) && ParseRecord(s) == Captured(Standard, s, m)
    ensures (forall m :: !IsMatch(WithDraws, s, m)) && (forall m :: !IsMatch(Standard, s, m)) ==>
      ParseRecord(s) == Record(0, 0, 0, 0)
  {
    SearchIsReSearch(WithDraws, s);
    SearchIsReSearch(Standard, s);
  }

  /** `s[lo..hi]` is a whole run of class `k`: nothing of the class follows
      it at `hi`. */
  predicate WholeRun(s: string, lo: nat, hi: nat, k: CharClass)
    requires lo <= hi <= |s|
  {
    AllIn(s, lo, hi, k) && (hi == |s| || !InClass(s[hi], k))
  }

  /** No match of either pattern starts at a non-digit, so the search passes
      over a stretch without digits. */
  lemma {:induction false} SearchSkipsNonDigits(p: Pattern, s: string, i: nat, j: nat)
    requires i <= j <= |s|
    requires forall k :: i <= k < j ==> !IsDigit(s[k])
    ensures Search(p, s, i) == Search(p, s, j)
    decreases j - i
  {
    if i < j {
      assert !InClass(s[i], Digit);
      RunLengthIs(s, i, i, Digit);
      SearchSkipsNonDigits(p, s, i + 1, j);
    }
  }

  /** Where the runs of the tail end, the tail matcher ends its groups. */
  lemma MatchTailRuns(s: string, p: nat, e: nat, r: nat, f: nat)
    requires p < e <= r < f <= |s|
    requires WholeRun(s, p, e, Digit) && WholeRun(s, e, r, Space)
    requires SignedNumeral(s, r, f) && (f == |s| || !IsDigit(s[f]))
    ensures MatchTail(s, p) == Some(Tail(e, r, f))
  {
    RunLengthIs(s, p, e, Digit);
    RunLengthIs(s, e, r, Space);
    if IsSign(s[r]) {
      RunLengthIs(s, r + 1, f, Digit);
    } else {
      RunLengthIs(s, r, f, Digit);
    }
  }

  /** `w(d)l n` with every number a whole run: the anchored matcher takes
      each number whole. */
  lemma MatchDrawsAtRuns(s: string, i: nat, a: nat, b: nat, e: nat, r: nat, f: nat)
    requires i < a && a + 1 < b && b + 1 < e <= r < f <= |s|
    requires WholeRun(s, i, a, Digit) && s[a] == '('
    requires WholeRun(s, a + 1, b, Digit) && s[b] == ')'
    requires WholeRun(s, b + 1, e, Digit) && WholeRun(s, e, r, Space)
    requires SignedNumeral(s, r, f) && (f == |s| || !IsDigit(s[f]))
    ensures MatchDrawsAt(s, i) == Some(Match(i, a, b, b + 1, Tail(e, r, f)))
  {
    RunLengthIs(s, i, a, Digit);
    RunLengthIs(s, a + 1, b, Digit);
    MatchTailRuns(s, b + 1, e, r, f);
  }

  /** `w - l n` with every number and every gap a whole run: the anchored
      matcher takes each of them whole. */
  lemma MatchStandardAtRuns(s: string, i: nat, a: nat, b: nat, l: nat, e: nat, r: nat, f: nat)
    requires i < a <= b && b + 1 <= l < e <= r < f <= |s|
    requires WholeRun(s, i, a, Digit) && WholeRun(s, a, b, Space) && s[b] == '-'
    requires WholeRun(s, b + 1, l, Space)
    requires WholeRun(s, l, e, Digit) && WholeRun(s, e, r, Space)
    requires SignedNumeral(s, r, f) && (f == |s| || !IsDigit(s[f]))
    ensures MatchStandardAt(s, i) == Some(Match(i, a, b, l, Tail(e, r, f)))
  {
    RunLengthIs(s, i, a, Digit);
    RunLengthIs(s, a, b, Space);
    StandardAfterDashRuns(s, i, a, b, l, e, r, f);
  }

  lemma StandardAfterDashRuns(s: string, i: nat, a: nat, b: nat, l: nat, e: nat, r: nat, f: nat)
    requires i < a <= b && b + 1 <= l < e <= r < f <= |s|
    requires WholeRun(s, i, a, Digit) && WholeRun(s, a, b, Space) && s[b] == '-'
    requires WholeRun(s, b + 1, l, Space)
    requires WholeRun(s, l, e, Digit) && WholeRun(s, e, r, Space)
    requires SignedNumeral(s, r, f) && (f == |s| || !IsDigit(s[f]))
    ensures StandardAfterDash(s, i, a, b) == Some(Match(i, a, b, l, Tail(e, r, f)))
  {
    RunLengthIs(s, b + 1, l, Space);
    MatchTailRuns(s, l, e, r, f);
  }

  /** A record text laid out as `w(d)l n` after a stretch without digits
      reads as those four numbers. */
  lemma ReadDrawsAt(s: string, i: nat, a: nat, b: nat, e: nat, r: nat, f: nat)
    requires i < a && a + 1 < b && b + 1 < e <= r < f <= |s|
    requires forall k :: 0 <= k < i ==> !IsDigit(s[k])
    requires WholeRun(s, i, a, Digit) && s[a] == '('
    requires WholeRun(s, a + 1, b, Digit) && s[b] == ')'
    requires WholeRun(s, b + 1, e, Digit) && WholeRun(s, e, r, Space)
    requires SignedNumeral(s, r, f) && (f == |s| || !IsDigit(s[f]))
    ensures IsMatch(WithDraws, s, Match(i, a, b, b + 1, Tail(e, r, f)))
    ensures ParseRecord(s) == Captured(WithDraws, s, Match(i, a, b, b + 1, Tail(e, r, f)))
  {
    SearchSkipsNonDigits(WithDraws, s, 0, i);
    MatchDrawsAtRuns(s, i, a, b, e, r, f);
  }

  /** Without a `(` the pattern with draws matches nowhere. */
  lemma NoParenNoDraws(s: string)
    requires forall k :: 0 <= k < |s| ==> s[k] != '('
    ensures Search(WithDraws, s, 0).None?
  {
  }

  /** A record text without `(`, laid out as `w - l n` after a stretch
      without digits, reads as those three numbers and no draws. */
  lemma ReadStandardAt(s: string, i: nat, a: nat, b: nat, l: nat, e: nat, r: nat, f: nat)
    requires i < a <= b && b + 1 <= l < e <= r < f <= |s|
    requires forall k :: 0 <= k < |s| ==> s[k] != '('
    requires forall k :: 0 <= k < i ==> !IsDigit(s[k])
    requires WholeRun(s, i, a, Digit) && WholeRun(s, a, b, Space) && s[b] == '-'
    requires WholeRun(s, b + 1, l, Space)
    requires WholeRun(s, l, e, Digit) && WholeRun(s, e, r, Space)
    requires SignedNumeral(s, r, f) && (f == |s| || !IsDigit(s[f]))
    ensures IsMatch(Standard, s, Match(i, a, b, l, Tail(e, r, f)))
    ensures ParseRecord(s) == Captured(Standard, s, Match(i, a, b, l, Tail(e, r, f)))
  {
    NoParenNoDraws(s);
    SearchSkipsNonDigits(Standard, s, 0, i);
    MatchStandardAtRuns(s, i, a, b, l, e, r, f);
  }

  /** The record with draws from the source's own comment: 9 wins, 1 draw,
      10 losses, net wins -1. */
  lemma DrawsRecordExample(s: string)
    requires s == "9(1)10 -1"
    ensures ParseRecord(s) == Record(9, 10, 1, -1)
  {
    ReadDrawsAt(s, 0, 1, 3, 6, 7, 9);
    DrawsExampleGroups(s);
  }

  lemma DrawsExampleGroups(s: string)
    requires s == "9(1)10 -1"
    ensures IsMatch(WithDraws, s, Match(0, 1, 3, 4, Tail(6, 7, 9)))
    ensures Captured(WithDraws, s, Match(0, 1, 3, 4, Tail(6, 7, 9))) == Record(9, 10, 1, -1)
  {
    assert s[0..1] == "9";
    assert s[2..3] == "1";
    assert s[4..6] == "10" by { assert s[4] == '1' && s[5] == '0'; }
    assert s[7..9] == "-1" by { assert s[7] == '-' && s[8] == '1'; }
    assert DigitsValue("10") == 10 && NumeralValue("-1") == -1;
  }

  /** The standard record from the source's own comment: 1 win, 0 losses,
      net wins +1. */
  lemma StandardRecordExample(s: string)
    requires s == "1 - 0 +1"
    ensures ParseRecord(s) == Record(1, 0, 0, 1)
  {
    ReadStandardAt(s, 0, 1, 2, 4, 5, 6, 8);
    assert Captured(Standard, s, Match(0, 1, 2, 4, Tail(5, 6, 8))) == Record(1, 0, 0, 1) by {
      assert s[0..1] == "1" && s[4..5] == "0" && s[6..8] == "+1";
      assert NumeralValue("+1") == 1;
    }
  }

  /** A record text without a digit matches neither pattern and reads as all
      zeros. */
  lemma DigitFreeReadsZero(s: string)
    requires forall k :: 0 <= k < |s| ==> !IsDigit(s[k])
    ensures Search(WithDraws, s, 0).None? && Search(Standard, s, 0).None?
    ensures ParseRecord(s) == Record(0, 0, 0, 0)
  {
    SearchSkipsNonDigits(WithDraws, s, 0, |s|);
    SearchSkipsNonDigits(Standard, s, 0, |s|);
  }

  /** The fallback from the source's error path. */
  lemma GarbageRecordExample(s: string)
    requires s == "garbage"
    ensures ParseRecord(s) == Record(0, 0, 0, 0)
  {
    DigitFreeReadsZero(s);
  }

  /** Without a net-wins number the losses group gives back its last digit:
      "9(1)10" reads as 9 wins, 1 draw, 1 loss and net wins 0. */
  lemma GiveBackExample(s: string)
    requires s == "9(1)10"
    ensures ParseRecord(s) == Record(9, 1, 1, 0)
  {
    RunLengthIs(s, 0, 1, Digit);
    RunLengthIs(s, 2, 3, Digit);
    RunLengthIs(s, 4, 6, Digit);
    RunLengthIs(s, 6, 6, Space);
    assert MatchTail(s, 4) == Some(Tail(5, 5, 6));
    assert Search(WithDraws, s, 0) == Some(Match(0, 1, 3, 4, Tail(5, 5, 6)));
    assert Captured(WithDraws, s, Match(0, 1, 3, 4, Tail(5, 5, 6))) == Record(9, 1, 1, 0) by {
      assert s[0..1] == "9" && s[2..3] == "1" && s[4..5] == "1" && s[5..6] == "0";
      assert NumeralValue("0") == 0;
    }
  }
}
