/** The comparison and the order of section 11 of Semantic Versioning 2.0.0. */
module VersionOrder {
  import opened VersionModel
  import opened Arithmetic

  // ---- Numbers ----

  function Digit(c: char): nat
    requires IsDigit(c)
  {
    c as int - '0' as int
  }

  function Pow10(n: nat): nat {
    if n == 0 then 1 else 10 * Pow10(n - 1)
  }

  function Value(s: string): nat
    requires forall i :: 0 <= i < |s| ==> IsDigit(s[i])
  {
    if s == [] then 0 else Digit(s[0]) * Pow10(|s| - 1) + Value(s[1..])
  }

  lemma {:induction false} ValueBound(s: string)
    requires forall i :: 0 <= i < |s| ==> IsDigit(s[i])
    ensures Value(s) < Pow10(|s|)
  {
    if s != [] {
      ValueBound(s[1..]);
      assert Digit(s[0]) * Pow10(|s| - 1) <= 9 * Pow10(|s| - 1);
    }
  }

  lemma ValueFloor(s: string)
    requires IsNumber(s) && |s| > 1
    ensures Value(s) >= Pow10(|s| - 1)
  {
    assert Digit(s[0]) >= 1;
    assert Digit(s[0]) * Pow10(|s| - 1) >= Pow10(|s| - 1);
  }

  lemma {:induction false} PowMonotone(m: nat, n: nat)
    requires m <= n
    ensures Pow10(m) <= Pow10(n)
    decreases n - m
  {
    if m < n { PowMonotone(m + 1, n); }
  }

  lemma Shorter(a: string, b: string)
    requires IsNumber(a) && IsNumber(b) && |a| < |b|
    ensures Value(a) < Value(b)
  {
    ValueBound(a);
    ValueFloor(b);
    PowMonotone(|a|, |b| - 1);
  }

  predicate Signs(c: int, less: bool, greater: bool) {
    (c == -1 || c == 0 || c == 1) && (c == -1 <==> less) && (c == 1 <==> greater)
  }

  lemma {:induction false} TextIsValue(a: string, b: string)
    requires |a| == |b| && (forall i :: 0 <= i < |a| ==> IsDigit(a[i])) && forall i :: 0 <= i < |b| ==> IsDigit(b[i])
    ensures Signs(CompareText(a, b), Value(a) < Value(b), Value(a) > Value(b)) && (CompareText(a, b) == 0 <==> a == b)
  {
    if a != [] {
      TextIsValue(a[1..], b[1..]);
      ValueBound(a[1..]);
      ValueBound(b[1..]);
      var p := Pow10(|a| - 1);
      if a[0] < b[0] { LeadDecides(Digit(a[0]), Digit(b[0]), p, Value(a[1..])); }
      if b[0] < a[0] { LeadDecides(Digit(b[0]), Digit(a[0]), p, Value(b[1..])); }
      assert a == [a[0]] + a[1..] && b == [b[0]] + b[1..];
    }
  }

  lemma LeadDecides(d: nat, e: nat, p: nat, rest: nat)
    requires d < e && rest < p
    ensures d * p + rest < e * p
  {
    Gap(d, e, p);
  }

  /** Comparing by length and then by text is comparing by value, for numbers of any length. */
  lemma NumberIsValue(a: string, b: string)
    requires IsNumber(a) && IsNumber(b)
    ensures Signs(CompareNumber(a, b), Value(a) < Value(b), Value(a) > Value(b)) && (CompareNumber(a, b) == 0 <==> a == b)
  {
    if |a| < |b| { Shorter(a, b); }
    else if |b| < |a| { Shorter(b, a); }
    else { TextIsValue(a, b); }
  }

  // ---- The order ----

  /** The texts first differ at `k`, where the first is smaller or at its end. */
  ghost predicate TextLessAt(a: string, b: string, k: nat) {
    k <= |a| && k < |b| && a[..k] == b[..k] && (k == |a| || a[k] < b[k])
  }

  ghost predicate TextLess(a: string, b: string) {
    exists k: nat :: TextLessAt(a, b, k)
  }

  /** Numbers by value, numbers before other identifiers, those by their characters. */
  ghost predicate IdLess(a: string, b: string)
    requires IsPreId(a) && IsPreId(b)
  {
    if Numeric(a) then !Numeric(b) || Value(a) < Value(b) else !Numeric(b) && TextLess(a, b)
  }

  predicate AllPreIds(a: seq<string>) {
    forall i :: 0 <= i < |a| ==> IsPreId(a[i])
  }

  ghost predicate IdsLessAt(a: seq<string>, b: seq<string>, k: nat)
    requires AllPreIds(a) && AllPreIds(b)
  {
    k <= |a| && k < |b| && a[..k] == b[..k] && (k == |a| || IdLess(a[k], b[k]))
  }

  ghost predicate IdsLess(a: seq<string>, b: seq<string>)
    requires AllPreIds(a) && AllPreIds(b)
  {
    exists k: nat :: IdsLessAt(a, b, k)
  }

  /** A pre-release comes before its release; else the first difference decides, and a longer
      list comes after its beginnings. */
  ghost predicate PreLess(a: seq<string>, b: seq<string>)
    requires AllPreIds(a) && AllPreIds(b)
  {
    a != [] && (b == [] || IdsLess(a, b))
  }

  ghost predicate Less(a: Version, b: Version)
    requires WellFormed(a) && WellFormed(b)
  {
    var x, y := Number(a), Number(b);
    x.0 < y.0 || (x.0 == y.0 && (x.1 < y.1 || (x.1 == y.1 && (x.2 < y.2 || (x.2 == y.2 && PreLess(a.pre, b.pre))))))
  }

  function Number(v: Version): (nat, nat, nat)
    requires WellFormed(v)
  {
    (Value(v.core[0]), Value(v.core[1]), Value(v.core[2]))
  }

  // ---- The comparison meets the order ----

  lemma {:induction false} TextMeets(a: string, b: string)
    ensures Signs(CompareText(a, b), TextLess(a, b), TextLess(b, a)) && (CompareText(a, b) == 0 <==> a == b)
  {
    if a == [] || b == [] {
      if b != [] { assert TextLessAt([], b, 0) && !TextLess(b, []); }
      if a != [] { assert TextLessAt([], a, 0) && !TextLess(a, []); }
    } else {
      TextMeets(a[1..], b[1..]);
      TextStep(a, b);
      TextStep(b, a);
      assert a == [a[0]] + a[1..] && b == [b[0]] + b[1..];
    }
  }

  lemma TextStep(a: string, b: string)
    requires a != [] && b != []
    ensures TextLess(a, b) <==> a[0] < b[0] || (a[0] == b[0] && TextLess(a[1..], b[1..]))
  {
    if TextLess(a, b) {
      var k: nat :| TextLessAt(a, b, k);
      if k > 0 {
        assert a[..k][0] == b[..k][0];
        assert a[1..][..k - 1] == a[..k][1..] == b[..k][1..] == b[1..][..k - 1];
        assert TextLessAt(a[1..], b[1..], k - 1);
      }
    }
    if a[0] < b[0] { assert TextLessAt(a, b, 0); }
    if a[0] == b[0] && TextLess(a[1..], b[1..]) {
      var k: nat :| TextLessAt(a[1..], b[1..], k);
      assert a[..k + 1] == [a[0]] + a[1..][..k] == b[..k + 1];
      assert TextLessAt(a, b, k + 1);
    }
  }

  lemma IdMeets(a: string, b: string)
    requires IsPreId(a) && IsPreId(b)
    ensures Signs(CompareId(a, b), IdLess(a, b), IdLess(b, a)) && (CompareId(a, b) == 0 <==> a == b)
  {
    if Numeric(a) && Numeric(b) { NumberIsValue(a, b); } else { TextMeets(a, b); }
  }

  lemma IdsStep(a: seq<string>, b: seq<string>)
    requires a != [] && b != [] && AllPreIds(a) && AllPreIds(b)
    ensures IdsLess(a, b) <==> IdLess(a[0], b[0]) || (a[0] == b[0] && IdsLess(a[1..], b[1..]))
  {
    if IdsLess(a, b) {
      var k: nat :| IdsLessAt(a, b, k);
      if k > 0 {
        assert a[..k][0] == b[..k][0];
        assert a[1..][..k - 1] == a[..k][1..] == b[..k][1..] == b[1..][..k - 1];
        assert IdsLessAt(a[1..], b[1..], k - 1);
      }
    }
    if IdLess(a[0], b[0]) { assert IdsLessAt(a, b, 0); }
    if a[0] == b[0] && IdsLess(a[1..], b[1..]) {
      var k: nat :| IdsLessAt(a[1..], b[1..], k);
      assert a[..k + 1] == [a[0]] + a[1..][..k] == b[..k + 1];
      assert IdsLessAt(a, b, k + 1);
    }
  }

  lemma {:induction false} IdsMeet(a: seq<string>, b: seq<string>)
    requires AllPreIds(a) && AllPreIds(b)
    ensures Signs(CompareIds(a, b), IdsLess(a, b), IdsLess(b, a)) && (CompareIds(a, b) == 0 <==> a == b)
  {
    if a == [] || b == [] {
      if b != [] { assert IdsLessAt([], b, 0) && !IdsLess(b, []); }
      if a != [] { assert IdsLessAt([], a, 0) && !IdsLess(a, []); }
    } else {
      IdsMeet(a[1..], b[1..]);
      IdMeets(a[0], b[0]);
      IdsStep(a, b);
      IdsStep(b, a);
      assert a == [a[0]] + a[1..] && b == [b[0]] + b[1..];
    }
  }

  lemma PreMeets(a: seq<string>, b: seq<string>)
    requires AllPreIds(a) && AllPreIds(b)
    ensures Signs(ComparePre(a, b), PreLess(a, b), PreLess(b, a)) && (ComparePre(a, b) == 0 <==> a == b)
  {
    IdsMeet(a, b);
  }

  lemma CoreUnfolds(a: Version, b: Version)
    requires WellFormed(a) && WellFormed(b)
    ensures CompareCore(a.core, b.core) ==
            if CompareNumber(a.core[0], b.core[0]) != 0 then CompareNumber(a.core[0], b.core[0])
            else if CompareNumber(a.core[1], b.core[1]) != 0 then CompareNumber(a.core[1], b.core[1])
            else CompareNumber(a.core[2], b.core[2])
  {
    assert CompareCore(a.core[1..], b.core[1..]) ==
      if CompareNumber(a.core[1], b.core[1]) != 0 then CompareNumber(a.core[1], b.core[1]) else CompareCore(a.core[1..][1..], b.core[1..][1..]);
    assert CompareCore(a.core[1..][1..], b.core[1..][1..]) == CompareNumber(a.core[2], b.core[2]) by {
      assert CompareCore(a.core[1..][1..][1..], b.core[1..][1..][1..]) == 0;
    }
  }

  /** The comparison is the precedence of the standard: -1, 1 or 0 as the first version comes
      before, after, or differs at most in its build metadata. */
  lemma ComparisonIsPrecedence(a: Version, b: Version)
    requires WellFormed(a) && WellFormed(b)
    ensures Signs(Compare(a, b), Less(a, b), Less(b, a)) && (Compare(a, b) == 0 <==> a == b)
  {
    CoreUnfolds(a, b);
    NumberIsValue(a.core[0], b.core[0]);
    NumberIsValue(a.core[1], b.core[1]);
    NumberIsValue(a.core[2], b.core[2]);
    PreMeets(a.pre, b.pre);
    assert a.core == [a.core[0], a.core[1], a.core[2]] && b.core == [b.core[0], b.core[1], b.core[2]];
  }

  // ---- A total order ----

  lemma TextTransitive(a: string, b: string, c: string, k: nat, l: nat)
    requires TextLessAt(a, b, k) && TextLessAt(b, c, l)
    ensures TextLess(a, c)
  {
    var m := if k < l then k else l;
    assert a[..m] == a[..k][..m] == b[..k][..m] == b[..l][..m] == c[..l][..m] == c[..m];
    if k < l { assert b[k] == b[..l][k] == c[..l][k] == c[k]; }
    if l < k { assert a[l] == a[..k][l] == b[..k][l] == b[l]; }
    assert TextLessAt(a, c, m);
  }

  lemma IdTransitive(a: string, b: string, c: string)
    requires IsPreId(a) && IsPreId(b) && IsPreId(c) && IdLess(a, b) && IdLess(b, c)
    ensures IdLess(a, c)
  {
    if !Numeric(a) {
      var k: nat :| TextLessAt(a, b, k);
      var l: nat :| TextLessAt(b, c, l);
      TextTransitive(a, b, c, k, l);
    }
  }

  lemma IdsTransitive(a: seq<string>, b: seq<string>, c: seq<string>, k: nat, l: nat)
    requires AllPreIds(a) && AllPreIds(b) && AllPreIds(c) && IdsLessAt(a, b, k) && IdsLessAt(b, c, l)
    ensures IdsLess(a, c)
  {
    var m := if k < l then k else l;
    assert a[..m] == a[..k][..m] == b[..k][..m] == b[..l][..m] == c[..l][..m] == c[..m];
    if k < l { assert b[k] == b[..l][k] == c[..l][k] == c[k]; }
    if l < k { assert a[l] == a[..k][l] == b[..k][l] == b[l]; }
    if k == l && k < |a| { IdTransitive(a[k], b[k], c[k]); }
    assert IdsLessAt(a, c, m);
  }

  lemma LessTransitive(a: Version, b: Version, c: Version)
    requires WellFormed(a) && WellFormed(b) && WellFormed(c) && Less(a, b) && Less(b, c)
    ensures Less(a, c)
  {
    if PreLess(a.pre, b.pre) && PreLess(b.pre, c.pre) && c.pre != [] {
      var k: nat :| IdsLessAt(a.pre, b.pre, k);
      var l: nat :| IdsLessAt(b.pre, c.pre, l);
      IdsTransitive(a.pre, b.pre, c.pre, k, l);
    }
  }

  lemma Antisymmetric(a: Version, b: Version)
    requires WellFormed(a) && WellFormed(b)
    ensures Compare(a, b) == -Compare(b, a)
  {
    ComparisonIsPrecedence(a, b);
    ComparisonIsPrecedence(b, a);
  }

  /** Versions are totally ordered. */
  lemma Transitive(a: Version, b: Version, c: Version)
    requires WellFormed(a) && WellFormed(b) && WellFormed(c) && Compare(a, b) <= 0 && Compare(b, c) <= 0
    ensures Compare(a, c) <= 0 && (Compare(a, c) == 0 <==> Compare(a, b) == 0 && Compare(b, c) == 0)
  {
    ComparisonIsPrecedence(a, b);
    ComparisonIsPrecedence(b, c);
    ComparisonIsPrecedence(a, c);
    ComparisonIsPrecedence(c, a);
    if Less(a, b) && Less(b, c) { LessTransitive(a, b, c); }
  }
}
