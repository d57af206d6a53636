/**
 * Application ids of the form PWC<year><sequence>: the lookup of the last id
 * of the year, Python's `int()` on the slice after index 8, and the `05d`
 * formatting of the sequence number.
 */
module ApplicationIds {
  import opened Base

  // ---------------------------------------------------------------- ordering

  /**
   * The order of `order_by('-application_id')`, taken as the column's
   * binary collation: lexicographic by code point, a proper prefix first.
   */
  predicate LexLe(a: string, b: string)
    decreases |a|
  {
    a == [] || (b != [] && (a[0] < b[0] || (a[0] == b[0] && LexLe(a[1..], b[1..]))))
  }

  lemma {:induction false} LexLeReflexive(a: string)
    ensures LexLe(a, a)
    decreases |a|
  {
    if a != [] {
      LexLeReflexive(a[1..]);
    }
  }

  lemma {:induction false} LexLeAntisymmetric(a: string, b: string)
    requires LexLe(a, b) && LexLe(b, a)
    ensures a == b
    decreases |a|
  {
    if a != [] && b != [] {
      LexLeAntisymmetric(a[1..], b[1..]);
      assert a == [a[0]] + a[1..] && b == [b[0]] + b[1..];
    }
  }

  lemma {:induction false} LexLeTransitive(a: string, b: string, c: string)
    requires LexLe(a, b) && LexLe(b, c)
    ensures LexLe(a, c)
    decreases |a|
  {
    if a != [] && a[0] == b[0] && b[0] == c[0] {
      LexLeTransitive(a[1..], b[1..], c[1..]);
    }
  }

  lemma {:induction false} LexLeTotal(a: string, b: string)
    ensures LexLe(a, b) || LexLe(b, a)
    decreases |a|
  {
    if a != [] && b != [] && a[0] == b[0] {
      LexLeTotal(a[1..], b[1..]);
    }
  }

  // ---------------------------------------------------------- the last id

  predicate StartsWith(s: string, p: string)
  {
    |p| <= |s| && s[..|p|] == p
  }

  /** "PWC" followed by `str(year)`. */
  function Prefix(year: nat): (p: string)
    ensures |p| == 3 + |NatToString(year)| && p[..3] == "PWC"
  {
    "PWC" + NatToString(year)
  }

  /**
   * `last` is what `filter(application_id__startswith=prefix)
   * .order_by('-application_id').first()` yields: nothing when no id has
   * the prefix, otherwise the greatest id that has it.
   */
  ghost predicate IsLastWithPrefix(ids: set<string>, prefix: string, last: Option<string>)
  {
    match last
    case None => forall s :: s in ids ==> !StartsWith(s, prefix)
    case Some(m) =>
      m in ids && StartsWith(m, prefix) &&
      forall s :: s in ids && StartsWith(s, prefix) ==> LexLe(s, m)
  }

  /** The snapshot determines the last id: there is only one. */
  lemma LastWithPrefixIsUnique(ids: set<string>, prefix: string, x: Option<string>, y: Option<string>)
    requires IsLastWithPrefix(ids, prefix, x) && IsLastWithPrefix(ids, prefix, y)
    ensures x == y
  {
    if x.Some? && y.Some? {
      LexLeAntisymmetric(x.value, y.value);
    }
  }

  /** A reference definition of the last id with the prefix, by recursion on the set. */
  ghost function LastOf(ids: set<string>, prefix: string): (last: Option<string>)
    ensures IsLastWithPrefix(ids, prefix, last)
    decreases ids
  {
    if ids == {} then None
    else
      var s :| s in ids;
      var rest := LastOf(ids - {s}, prefix);
      if !StartsWith(s, prefix) then rest
      else if rest.None? then LexLeReflexive(s); Some(s)
      else if LexLe(rest.value, s) then
        LexLeReflexive(s);
        assert forall t :: t in ids - {s} && StartsWith(t, prefix) ==> LexLe(t, s) by {
          forall t | t in ids - {s} && StartsWith(t, prefix) ensures LexLe(t, s) {
            LexLeTransitive(t, rest.value, s);
          }
        }
        Some(s)
      else
        LexLeTotal(rest.value, s);
        rest
  }

  /** The ordered query over the snapshot of existing ids, one row at a time. */
  method LatestWithPrefix(ids: set<string>, prefix: string) returns (last: Option<string>)
    ensures IsLastWithPrefix(ids, prefix, last)
    ensures last == LastOf(ids, prefix)
  {
    last := None;
    var rest := ids;
    while rest != {}
      invariant rest <= ids
      invariant last.None? ==> forall s :: s in ids - rest ==> !StartsWith(s, prefix)
      invariant last.Some? ==> last.value in ids - rest && StartsWith(last.value, prefix)
      invariant last.Some? ==> forall s :: s in ids - rest && StartsWith(s, prefix) ==> LexLe(s, last.value)
      decreases rest
    {
      var s :| s in rest;
      if StartsWith(s, prefix) {
        if last.None? {
          LexLeReflexive(s);
          last := Some(s);
        } else if LexLe(last.value, s) {
          var m := last.value;
          forall t | t in ids - rest && StartsWith(t, prefix) ensures LexLe(t, s) {
            LexLeTransitive(t, m, s);
          }
          LexLeReflexive(s);
          last := Some(s);
        } else {
          LexLeTotal(last.value, s);
        }
      }
      rest := rest - {s};
    }
    LastWithPrefixIsUnique(ids, prefix, last, LastOf(ids, prefix));
  }

  // ------------------------------------------------------- Python's int()

  /** Whitespace that `int()` strips (the ASCII part of `str.isspace`). */
  predicate IsPySpace(c: char)
  {
    var k := c as int;
    k == 32 || 9 <= k <= 13 || 28 <= k <= 31
  }

  function StripStart(s: string): string
  {
    if s != [] && IsPySpace(s[0]) then StripStart(s[1..]) else s
  }

  function StripEnd(s: string): string
  {
    if s != [] && IsPySpace(s[|s| - 1]) then StripEnd(s[..|s| - 1]) else s
  }

  /** Digits, with single underscores allowed between two digits ("1_000"). */
  predicate IsDigitGroup(s: string)
  {
    |s| > 0 && IsDigit(s[0]) && forall i :: 0 <= i < |s| ==> GroupCharOk(s, i)
  }

  /** A digit, or an underscore that is followed by a digit. */
  predicate GroupCharOk(s: string, i: nat)
    requires i < |s|
  {
    IsDigit(s[i]) || (s[i] == '_' && i + 1 < |s| && IsDigit(s[i + 1]))
  }

  function WithoutUnderscores(s: string): (t: string)
    ensures (forall i :: 0 <= i < |s| ==> IsDigit(s[i]) || s[i] == '_') ==> AllDigits(t)
    ensures AllDigits(s) ==> t == s
  {
    if s == [] then [] else (if s[0] == '_' then [] else [s[0]]) + WithoutUnderscores(s[1..])
  }

  function GroupValue(s: string): nat
    requires IsDigitGroup(s)
  {
    assert forall i :: 0 <= i < |s| ==> IsDigit(s[i]) || s[i] == '_' by {
      forall i | 0 <= i < |s| ensures IsDigit(s[i]) || s[i] == '_' {
        assert GroupCharOk(s, i);
      }
    }
    DigitsValue(WithoutUnderscores(s))
  }

  /** `int(s)`: None where Python raises `ValueError`. */
  function PyInt(s: string): Option<int>
  {
    var t := StripEnd(StripStart(s));
    if |t| > 0 && (t[0] == '+' || t[0] == '-') then
      if IsDigitGroup(t[1..]) then
        var v: int := GroupValue(t[1..]);
        Some(if t[0] == '-' then -v else v)
      else None
    else if IsDigitGroup(t) then Some(GroupValue(t) as int)
    else None
  }

  /** A plain non-empty digit string parses to its decimal value, leading zeros and all. */
  lemma PyIntOfDigits(s: string)
    requires |s| > 0 && AllDigits(s)
    ensures PyInt(s) == Some(DigitsValue(s))
  {
    assert StripStart(s) == s;
    assert StripEnd(s) == s;
    assert IsDigitGroup(s);
  }

  // ----------------------------------------------------- formatting, ids

  function PadLeft(digits: string, width: nat): (s: string)
    ensures |s| == if |digits| < width then width else |digits|
  {
    if |digits| < width then Zeros(width - |digits|) + digits else digits
  }

  /** Python's `f'{n:05d}'`: zero-padded to width 5, the sign counting as a character. */
  function Format05d(n: int): string
  {
    if n >= 0 then PadLeft(NatToString(n), 5) else "-" + PadLeft(NatToString(-n), 4)
  }

  /** Python's `s[8:]`, empty when `s` is shorter. */
  function DropEight(s: string): string
  {
    if |s| <= 8 then [] else s[8..]
  }

  /** `next_seq`: the slice of the last id parsed as is (no increment), else 1. */
  function SequenceNumber(last: Option<string>): int
  {
    match last
    case None => 1
    case Some(m) =>
      match PyInt(DropEight(m))
      case None => 1
      case Some(v) => v
  }

  /** `f'PWC{current_year}{next_seq:05d}'` given the last id of the year. */
  function IdFromLast(year: nat, last: Option<string>): (id: string)
    ensures StartsWith(id, Prefix(year))
    ensures last.None? ==> id == Prefix(year) + "00001"
  {
    var id := Prefix(year) + Format05d(SequenceNumber(last));
    assert id[..|Prefix(year)|] == Prefix(year);
    assert last.None? ==> Format05d(1) == "00001" by {
      assert NatToString(1) == "1";
      assert Zeros(4) == "0000";
    }
    id
  }

  /** A slice that `int()` rejects falls back to sequence number 1. */
  lemma UnparsableSliceFallsBack(year: nat, m: string)
    requires PyInt(DropEight(m)).None?
    ensures IdFromLast(year, Some(m)) == IdFromLast(year, None)
  {
  }

  lemma FourDigitYear(year: nat)
    requires 1000 <= year <= 9999
    ensures |Prefix(year)| == 7
  {
    var a := year / 10;
    var b := a / 10;
    var c := b / 10;
    assert 100 <= a <= 999 && 10 <= b <= 99 && 1 <= c <= 9;
    assert |NatToString(year)| == |NatToString(b)| + 2;
  }

  /**
   * No increment: when the last id of the year was itself produced by this
   * scheme with a sequence number below 10000, the next id is that same id.
   */
  lemma {:induction false} NextIdRepeatsLast(year: nat, n: nat)
    requires 1000 <= year <= 9999 && n < 10000
    ensures IdFromLast(year, Some(Prefix(year) + Format05d(n))) == Prefix(year) + Format05d(n)
  {
    FourDigitYear(year);
    var p := Prefix(year);
    var d := NatToString(n);
    assert Pow10(4) == 10000;
    NatToStringShort(n, 4);
    var f := Format05d(n);
    assert f == Zeros(5 - |d|) + d;
    var m := p + f;
    assert DropEight(m) == f[1..];
    assert f[1..] == Zeros(4 - |d|) + d;
    LeadingZerosValue(4 - |d|, d);
    NatToStringRoundTrip(n);
    PyIntOfDigits(f[1..]);
    assert SequenceNumber(Some(m)) == n;
  }

  /**
   * Hence the generated id already exists whenever the greatest id of the
   * year is a well-formed id with a sequence number below 10000.
   */
  lemma GeneratedIdAlreadyTaken(ids: set<string>, year: nat, n: nat)
    requires 1000 <= year <= 9999 && n < 10000
    requires IsLastWithPrefix(ids, Prefix(year), Some(Prefix(year) + Format05d(n)))
    ensures IdFromLast(year, Some(Prefix(year) + Format05d(n))) in ids
  {
    NextIdRepeatsLast(year, n);
  }
}
