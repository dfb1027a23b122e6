/** The scalar parsers of the feature pipeline: digit-run extraction, the
    padded rank list, first number, 1-based position lookup, substring flags
    and the comma stripping done before numeric coercion. Text is ASCII:
    a digit is '0'..'9'. */
module Parsers {
  import opened Wrappers

  // ---------------------------------------------------------------------
  // Digits and decimal values

  predicate IsDigit(c: char) {
    '0' <= c <= '9'
  }

  predicate AllDigits(s: string) {
    forall i :: 0 <= i < |s| ==> IsDigit(s[i])
  }

  predicate NoDigits(s: string) {
    forall i :: 0 <= i < |s| ==> !IsDigit(s[i])
  }

  function DigitValue(c: char): nat
    requires IsDigit(c)
  {
    c as int - '0' as int
  }

  function DigitChar(d: nat): (c: char)
    requires d < 10
    ensures IsDigit(c) && DigitValue(c) == d
  {
    ('0' as int + d) as char
  }

  /** The value of a digit string, most significant digit first
      (Python's `int` applied to a digit run). */
  function DecimalValue(s: string): nat
    requires AllDigits(s)
    decreases |s|
  {
    if s == [] then 0 else 10 * DecimalValue(s[..|s| - 1]) + DigitValue(s[|s| - 1])
  }

  /** Decimal text of `n`, as Python's `str` writes a non-negative int;
      reading it back gives `n`. */
  function NatToString(n: nat): (s: string)
    ensures |s| > 0 && AllDigits(s)
    ensures DecimalValue(s) == n
    decreases n
  {
    if n < 10 then [DigitChar(n)]
    else
      var s := NatToString(n / 10) + [DigitChar(n % 10)];
      assert s[..|s| - 1] == NatToString(n / 10);
      s
  }

  /** Decimal text of an integer, with a leading '-' when negative. */
  function IntToString(i: int): string {
    if i < 0 then "-" + NatToString(-i) else NatToString(i)
  }

  // ---------------------------------------------------------------------
  // Maximal digit runs

  /** Length of the longest digit-free prefix of `s`. */
  function GapLength(s: string): (n: nat)
    ensures n <= |s|
    ensures NoDigits(s[..n])
    ensures n < |s| ==> IsDigit(s[n])
    decreases |s|
  {
    if s == [] || IsDigit(s[0]) then 0
    else
      var n := 1 + GapLength(s[1..]);
      assert s[..n] == [s[0]] + s[1..][..n - 1];
      n
  }

  /** Length of the longest all-digit prefix of `s`. */
  function RunLength(s: string): (n: nat)
    ensures n <= |s|
    ensures AllDigits(s[..n])
    ensures n < |s| ==> !IsDigit(s[n])
    decreases |s|
  {
    if s == [] || !IsDigit(s[0]) then 0
    else
      var n := 1 + RunLength(s[1..]);
      assert s[..n] == [s[0]] + s[1..][..n - 1];
      n
  }

  /** `gaps[0] + runs[0] + gaps[1] + ... + runs[k-1] + gaps[k]`. */
  function Interleave(gaps: seq<string>, runs: seq<string>): string
    requires |gaps| == |runs| + 1
    decreases |runs|
  {
    if runs == [] then gaps[0] else gaps[0] + runs[0] + Interleave(gaps[1..], runs[1..])
  }

  /** `s` is cut into digit-free gaps and non-empty digit runs, with a
      non-empty gap between two consecutive runs: the runs are then exactly
      the maximal digit runs of `s`, left to right. */
  ghost predicate IsRunSplit(s: string, gaps: seq<string>, runs: seq<string>) {
    && |gaps| == |runs| + 1
    && (forall k :: 0 <= k < |runs| ==> |runs[k]| > 0 && AllDigits(runs[k]))
    && (forall k :: 0 <= k < |gaps| ==> NoDigits(gaps[k]))
    && (forall k :: 0 < k < |runs| ==> |gaps[k]| > 0)
    && Interleave(gaps, runs) == s
  }

  /** Cuts `s` into its gaps and its maximal digit runs. */
  function Split(s: string): (p: (seq<string>, seq<string>))
    ensures IsRunSplit(s, p.0, p.1)
    ensures !(|s| > 0 && IsDigit(s[0])) ==> |p.1| == 0 || |p.0[0]| > 0
    decreases |s|
  {
    var g := GapLength(s);
    if g == |s| then
      SplitNoDigits(s);
      ([s], [])
    else
      var n := RunLength(s[g..]);
      var tail := Split(s[g..][n..]);
      SplitStep(s, g, n, tail.0, tail.1);
      ([s[..g]] + tail.0, [s[g..][..n]] + tail.1)
  }

  lemma SplitNoDigits(s: string)
    requires GapLength(s) == |s|
    ensures IsRunSplit(s, [s], [])
  {
    assert s[..|s|] == s;
  }

  lemma SplitStep(s: string, g: nat, n: nat, gaps: seq<string>, runs: seq<string>)
    requires g == GapLength(s) < |s|
    requires n == RunLength(s[g..])
    requires IsRunSplit(s[g..][n..], gaps, runs)
    requires !(|s[g..][n..]| > 0 && IsDigit(s[g..][n..][0])) ==> |runs| == 0 || |gaps[0]| > 0
    ensures IsRunSplit(s, [s[..g]] + gaps, [s[g..][..n]] + runs)
    ensures |[s[..g]] + gaps| > 0
    ensures !(|s| > 0 && IsDigit(s[0])) ==> |s[..g]| > 0
  {
    var rest := s[g..];
    assert |rest[..n]| > 0 by {
      assert IsDigit(rest[0]);
    }
    assert |runs| == 0 || |gaps[0]| > 0 by {
      assert |rest[n..]| > 0 ==> rest[n..][0] == rest[n];
    }
    CutInThree(s, g, n);
    ConsSplit(s[..g], rest[..n], rest[n..], gaps, runs);
  }

  lemma CutInThree<T>(s: seq<T>, g: nat, n: nat)
    requires g + n <= |s|
    ensures s == s[..g] + s[g..][..n] + s[g..][n..]
  {
  }

  /** Prepending a gap and a run to a decomposition of `t`. */
  lemma ConsSplit(a: string, r: string, t: string, gaps: seq<string>, runs: seq<string>)
    requires NoDigits(a) && |r| > 0 && AllDigits(r)
    requires IsRunSplit(t, gaps, runs)
    requires |runs| == 0 || |gaps[0]| > 0
    ensures IsRunSplit(a + r + t, [a] + gaps, [r] + runs)
  {
    var gaps', runs' := [a] + gaps, [r] + runs;
    assert gaps'[1..] == gaps && runs'[1..] == runs;
    assert forall k :: 0 < k < |runs'| ==> gaps'[k] == gaps[k - 1];
  }

  /** The first gap and run of a decomposition, and the decomposition of
      what follows them. */
  lemma UnconsSplit(s: string, gaps: seq<string>, runs: seq<string>)
    requires IsRunSplit(s, gaps, runs) && |runs| > 0
    ensures NoDigits(gaps[0]) && |runs[0]| > 0 && AllDigits(runs[0])
    ensures s == gaps[0] + runs[0] + Interleave(gaps[1..], runs[1..])
    ensures IsRunSplit(Interleave(gaps[1..], runs[1..]), gaps[1..], runs[1..])
    ensures var t := Interleave(gaps[1..], runs[1..]); |t| == 0 || !IsDigit(t[0])
  {
    var t := Interleave(gaps[1..], runs[1..]);
    if |t| > 0 && |runs| > 1 {
      assert t == gaps[1] + (runs[1] + Interleave(gaps[2..], runs[2..]));
      assert t[0] == gaps[1][0];
    }
    assert forall k :: 0 < k < |runs| - 1 ==> gaps[1..][k] == gaps[k + 1];
  }

  /** The maximal digit runs of `s`, left to right. */
  function DigitRuns(s: string): seq<string> {
    Split(s).1
  }

  // ---------------------------------------------------------------------
  // get_number_list, get_number_list_clean, get_number

  /** `get_number_list`: one integer per maximal digit run of the text,
      left to right. Callers pass the cell's text (`str(cell)`). */
  function NumberList(s: string): (ns: seq<nat>)
    ensures ns == [] <==> NoDigits(s)
  {
    var runs := DigitRuns(s);
    assert GapLength(s) < |s| ==> !NoDigits(s);
    assert GapLength(s) == |s| ==> s[..GapLength(s)] == s;
    seq(|runs|, k requires 0 <= k < |runs| => DecimalValue(runs[k]))
  }

  /** `get_number_list_clean`: the number list padded with -1 up to six
      entries; a longer list is kept whole. */
  function NumberListClean(s: string): (l: seq<int>)
    ensures |l| == if |NumberList(s)| < 6 then 6 else |NumberList(s)|
    ensures l[..|NumberList(s)|] == NumberList(s)
    ensures forall k :: |NumberList(s)| <= k < |l| ==> l[k] == -1
  {
    var ns: seq<int> := NumberList(s);
    ns + seq(if |ns| < 6 then 6 - |ns| else 0, _ => -1)
  }

  /** `get_number`: the first number of the text, or -1 when it holds no
      digit. */
  function FirstNumber(s: string): (v: int)
    ensures v == -1 <==> NoDigits(s)
    ensures v >= -1
    ensures !NoDigits(s) ==>
              var g := GapLength(s);
              v == DecimalValue(s[g..][..RunLength(s[g..])])
  {
    var ns := NumberList(s);
    if |ns| >= 1 then ns[0] else -1
  }

  // ---------------------------------------------------------------------
  // find_area_at_rank

  /** Index of the first occurrence of `v` in `s` (Python `list.index`,
      numpy `where(...)[0][0]`), or None when absent. */
  function IndexOf(s: seq<int>, v: int): (r: Option<nat>)
    ensures r.None? <==> v !in s
    ensures r.Some? ==> r.value < |s| && s[r.value] == v && v !in s[..r.value]
    decreases |s|
  {
    if s == [] then None
    else if s[0] == v then Some(0)
    else
      assert s == [s[0]] + s[1..];
      match IndexOf(s[1..], v)
      case None => None
      case Some(j) =>
        assert s[..j + 1] == [s[0]] + s[1..][..j];
        Some(j + 1)
  }

  /** `find_area_at_rank`: the 1-based position of `rank` in `l`, or -1. */
  function AreaAtRank(l: seq<int>, rank: int): (r: int)
    ensures r == -1 <==> rank !in l
    ensures r != -1 ==> 1 <= r <= |l| && l[r - 1] == rank && rank !in l[..r - 1]
  {
    match IndexOf(l, rank)
    case Some(j) => j + 1
    case None => -1
  }

  // ---------------------------------------------------------------------
  // cat_in_s

  ghost predicate OccursAt(s: string, pat: string, i: int) {
    0 <= i && i + |pat| <= |s| && s[i..i + |pat|] == pat
  }

  /** Python's `pat in s` on strings. */
  function Contains(s: string, pat: string): (b: bool)
    ensures b <==> exists i :: OccursAt(s, pat, i)
    decreases |s|
  {
    if |pat| > |s| then false
    else if s[..|pat|] == pat then
      assert OccursAt(s, pat, 0);
      true
    else
      ContainsStep(s, pat);
      Contains(s[1..], pat)
  }

  /** A pattern that is not a prefix of `s` occurs in `s` iff it occurs in
      `s` without its first character. */
  lemma ContainsStep(s: string, pat: string)
    requires |pat| <= |s| && s[..|pat|] != pat
    ensures (exists i :: OccursAt(s, pat, i)) <==> (exists i :: OccursAt(s[1..], pat, i))
  {
    if exists i :: OccursAt(s, pat, i) {
      var i :| OccursAt(s, pat, i);
      assert i != 0;
      assert s[1..][i - 1..i - 1 + |pat|] == s[i..i + |pat|];
      assert OccursAt(s[1..], pat, i - 1);
    }
    if exists i :: OccursAt(s[1..], pat, i) {
      var i :| OccursAt(s[1..], pat, i);
      assert s[1..][i..i + |pat|] == s[i + 1..i + 1 + |pat|];
      assert OccursAt(s, pat, i + 1);
    }
  }

  /** `cat_in_s`: 1 when `cat` occurs in the cell's text, 0 when it does
      not or when the cell is missing. */
  function CatInS(cell: Option<string>, cat: string): (b: int)
    ensures b == 0 || b == 1
    ensures b == 1 <==> cell.Some? && exists i :: OccursAt(cell.value, cat, i)
  {
    match cell
    case None => 0
    case Some(s) => if Contains(s, cat) then 1 else 0
  }

  // ---------------------------------------------------------------------
  // to_numeric

  /** The number of commas in `s`. */
  function CommaCount(s: string): nat
    decreases |s|
  {
    if s == [] then 0 else (if s[0] == ',' then 1 else 0) + CommaCount(s[1..])
  }

  /** The text with every ',' removed (thousands separators). */
  function StripCommas(s: string): (t: string)
    ensures ',' !in t
    ensures |t| == |s| - CommaCount(s)
    decreases |s|
  {
    if s == [] then []
    else
      assert s == [s[0]] + s[1..];
      if s[0] == ',' then StripCommas(s[1..])
      else [s[0]] + StripCommas(s[1..])
  }

  /** `to_numeric`: a missing cell is NaN (None); text is stripped of commas
      and handed to the numeric coercion `parse`, which yields None for
      text it cannot read. */
  function ToNumeric(cell: Option<string>, parse: string -> Option<real>): (x: Option<real>)
    ensures cell.None? ==> x.None?
    ensures cell.Some? && ',' !in cell.value ==> x == parse(cell.value)
  {
    match cell
    case None => None
    case Some(s) =>
      StripCommasUnchanged(s);
      parse(StripCommas(s))
  }

  // ---------------------------------------------------------------------
  // Lemmas

  /** Any gap/run decomposition of `s` is the one `Split` computes: the
      runs are determined by `s` alone. */
  lemma {:induction false} SplitUnique(s: string, gaps: seq<string>, runs: seq<string>)
    requires IsRunSplit(s, gaps, runs)
    ensures Split(s) == (gaps, runs)
    decreases |runs|
  {
    if runs == [] {
      SplitOfGap(s);
      Singleton(gaps);
    } else {
      UnconsSplit(s, gaps, runs);
      SplitUnique(Interleave(gaps[1..], runs[1..]), gaps[1..], runs[1..]);
      SplitUniqueStep(s, gaps, runs);
    }
  }

  lemma SplitUniqueStep(s: string, gaps: seq<string>, runs: seq<string>)
    requires |gaps| == |runs| + 1 && |runs| > 0
    requires NoDigits(gaps[0]) && |runs[0]| > 0 && AllDigits(runs[0])
    requires s == gaps[0] + runs[0] + Interleave(gaps[1..], runs[1..])
    requires var t := Interleave(gaps[1..], runs[1..]); |t| == 0 || !IsDigit(t[0])
    requires Split(Interleave(gaps[1..], runs[1..])) == (gaps[1..], runs[1..])
    ensures Split(s) == (gaps, runs)
  {
    var t := Interleave(gaps[1..], runs[1..]);
    FirstRun(s, gaps[0], runs[0], t);
    HeadTail(gaps);
    HeadTail(runs);
  }

  lemma Singleton<T>(x: seq<T>)
    requires |x| == 1
    ensures x == [x[0]]
  {
  }

  lemma HeadTail<T>(x: seq<T>)
    requires |x| > 0
    ensures [x[0]] + x[1..] == x
  {
  }

  /** A digit-free text is a single gap. */
  lemma SplitOfGap(s: string)
    requires NoDigits(s)
    ensures Split(s) == ([s], [])
  {
    GapLengthOfConcat(s, "");
    assert s + "" == s;
  }

  /** Where `s` starts with a gap and a run, `Split` peels them off. */
  lemma FirstRun(s: string, gap: string, run: string, t: string)
    requires s == gap + run + t
    requires NoDigits(gap) && |run| > 0 && AllDigits(run)
    requires |t| == 0 || !IsDigit(t[0])
    ensures Split(s) == ([gap] + Split(t).0, [run] + Split(t).1)
  {
    var rest := run + t;
    assert s == gap + rest;
    GapLengthOfConcat(gap, rest);
    assert s[..|gap|] == gap;
    assert s[|gap|..] == rest;
    RunLengthOfConcat(run, t);
    assert rest[..|run|] == run;
    assert rest[|run|..] == t;
    SplitUnfold(s);
  }

  lemma SplitUnfold(s: string)
    requires GapLength(s) < |s|
    ensures var g := GapLength(s); var n := RunLength(s[g..]);
            Split(s) == ([s[..g]] + Split(s[g..][n..]).0, [s[g..][..n]] + Split(s[g..][n..]).1)
  {
  }

  lemma {:induction false} GapLengthOfConcat(a: string, b: string)
    requires NoDigits(a)
    requires |b| > 0 ==> IsDigit(b[0])
    ensures GapLength(a + b) == |a|
    decreases |a|
  {
    if a == [] {
      assert a + b == b;
    } else {
      assert (a + b)[0] == a[0] && (a + b)[1..] == a[1..] + b;
      GapLengthOfConcat(a[1..], b);
    }
  }

  lemma {:induction false} RunLengthOfConcat(a: string, b: string)
    requires AllDigits(a)
    requires |b| > 0 ==> !IsDigit(b[0])
    ensures RunLength(a + b) == |a|
    decreases |a|
  {
    if a == [] {
      assert a + b == b;
    } else {
      assert (a + b)[0] == a[0] && (a + b)[1..] == a[1..] + b;
      RunLengthOfConcat(a[1..], b);
    }
  }

  /** `get_number` reads the first run of digits that follows a digit-free
      lead, whatever comes after it. */
  lemma FirstNumberOfConcat(lead: string, run: string, rest: string)
    requires NoDigits(lead)
    requires |run| > 0 && AllDigits(run)
    requires |rest| > 0 ==> !IsDigit(rest[0])
    ensures FirstNumber(lead + run + rest) == DecimalValue(run)
  {
    var s := lead + run + rest;
    var t := run + rest;
    assert s == lead + t;
    assert GapLength(s) == |lead| by {
      assert t[0] == run[0];
      GapLengthOfConcat(lead, t);
    }
    assert s[|lead|..] == t;
    assert RunLength(t) == |run| by {
      RunLengthOfConcat(run, rest);
    }
    assert t[..|run|] == run;
    FirstNumberAt(s, |lead|, |run|);
  }

  /** The first number of a text that holds a digit is the value of the
      run that follows its digit-free lead. */
  lemma FirstNumberAt(s: string, g: nat, n: nat)
    requires g == GapLength(s) < |s|
    requires n == RunLength(s[g..])
    ensures FirstNumber(s) == DecimalValue(s[g..][..n])
  {
    assert !NoDigits(s) by {
      assert IsDigit(s[g]);
    }
  }

  /** `get_number_list` returns the values of the runs of any gap/run
      decomposition of the text, in order. */
  lemma NumberListOfSplit(s: string, gaps: seq<string>, runs: seq<string>)
    requires IsRunSplit(s, gaps, runs)
    ensures |NumberList(s)| == |runs|
    ensures forall k :: 0 <= k < |runs| ==> NumberList(s)[k] == DecimalValue(runs[k])
  {
    SplitUnique(s, gaps, runs);
  }

  /** The same, stated as an equation with the run values. */
  lemma NumberListIs(s: string, gaps: seq<string>, runs: seq<string>, values: seq<nat>)
    requires IsRunSplit(s, gaps, runs)
    requires |values| == |runs|
    requires forall k :: 0 <= k < |runs| ==> values[k] == DecimalValue(runs[k])
    ensures NumberList(s) == values
  {
    NumberListOfSplit(s, gaps, runs);
  }

  /** The -1 padding never shifts a lookup for a value other than -1. */
  lemma PaddingInvisible(s: string, rank: int)
    requires rank != -1
    ensures AreaAtRank(NumberListClean(s), rank) == AreaAtRank(NumberList(s), rank)
  {
    var ns := NumberList(s);
    var l := NumberListClean(s);
    assert l == ns + l[|ns|..];
    IndexOfPrefix(ns, l[|ns|..], rank);
  }

  lemma {:induction false} IndexOfPrefix(a: seq<int>, b: seq<int>, v: int)
    requires v !in b
    ensures IndexOf(a + b, v) == IndexOf(a, v)
    decreases |a|
  {
    if a == [] {
      assert a + b == b;
    } else if a[0] != v {
      assert (a + b)[1..] == a[1..] + b;
      IndexOfPrefix(a[1..], b, v);
    }
  }

  /** Stripping commas twice is stripping them once. */
  lemma {:induction false} StripCommasIdempotent(s: string)
    ensures StripCommas(StripCommas(s)) == StripCommas(s)
    decreases |s|
  {
    if s != [] {
      StripCommasIdempotent(s[1..]);
      if s[0] != ',' {
        assert ([s[0]] + StripCommas(s[1..]))[1..] == StripCommas(s[1..]);
      }
    }
  }

  /** Text without commas is left as it is. */
  lemma {:induction false} StripCommasNoCommas(s: string)
    requires ',' !in s
    ensures StripCommas(s) == s
    decreases |s|
  {
    if s != [] {
      assert ',' !in s[1..] by {
        assert forall k :: 0 <= k < |s| - 1 ==> s[1..][k] == s[k + 1];
      }
      StripCommasNoCommas(s[1..]);
      assert s == [s[0]] + s[1..];
    }
  }

  /** `CommaCount` counts the occurrences of ',' in the text. */
  lemma {:induction false} CommaCountIsMultiplicity(s: string)
    ensures CommaCount(s) == multiset(s)[',']
    decreases |s|
  {
    if s != [] {
      assert s == [s[0]] + s[1..];
      CommaCountIsMultiplicity(s[1..]);
    }
  }

  /** The same, for any text: stripping only changes text that holds a
      comma. */
  lemma StripCommasUnchanged(s: string)
    ensures ',' !in s ==> StripCommas(s) == s
  {
    if ',' !in s {
      StripCommasNoCommas(s);
    }
  }

  /** Stripping works piece by piece: only the commas go, and the other
      characters keep their order. */
  lemma {:induction false} StripCommasConcat(a: string, b: string)
    ensures StripCommas(a + b) == StripCommas(a) + StripCommas(b)
    decreases |a|
  {
    if a == [] {
      assert a + b == b;
    } else {
      StripCommasConcat(a[1..], b);
      StripCommasConcatStep(a, b);
    }
  }

  /** The inductive step of `StripCommasConcat`: the first character of `a`
      is dropped or kept on both sides alike. */
  lemma StripCommasConcatStep(a: string, b: string)
    requires a != []
    requires StripCommas(a[1..] + b) == StripCommas(a[1..]) + StripCommas(b)
    ensures StripCommas(a + b) == StripCommas(a) + StripCommas(b)
  {
    DropOfConcat(a, b);
    StripCommasUnfold(a);
    StripCommasUnfold(a + b);
    if a[0] != ',' {
      ConsOfConcat(a[0], StripCommas(a[1..]), StripCommas(b));
    }
  }

  /** One step of `StripCommas`. */
  lemma StripCommasUnfold(s: string)
    requires s != []
    ensures StripCommas(s) == if s[0] == ',' then StripCommas(s[1..]) else [s[0]] + StripCommas(s[1..])
  {
  }

  lemma DropOfConcat<T>(a: seq<T>, b: seq<T>)
    requires a != []
    ensures (a + b)[0] == a[0] && (a + b)[1..] == a[1..] + b
  {
  }

  lemma ConsOfConcat<T>(x: T, a: seq<T>, b: seq<T>)
    ensures [x] + (a + b) == ([x] + a) + b
  {
  }

  /** Thousands separators do not change what `to_numeric` reads. */
  lemma CommaInsensitive(s: string, parse: string -> Option<real>)
    ensures ToNumeric(Some(s), parse) == ToNumeric(Some(StripCommas(s)), parse)
  {
    StripCommasIdempotent(s);
  }
}
