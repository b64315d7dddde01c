module VersionCheck {
  import opened Options
  import opened VersionModel
  import opened VersionOrder

  method IsNumeric(value: string) returns (yes: bool)
    ensures yes <==> Numeric(value)
  {
    for i := 0 to |value|
      invariant forall j :: 0 <= j < i ==> IsDigit(value[j])
    {
      if value[i] < '0' || value[i] > '9' { return false; }
    }
    yes := value != [];
  }

  /** The comparison of two texts; `ok` is false unless both are versions. */
  method CompareVersions(a: string, b: string) returns (c: int, ok: bool)
    ensures ok <==> Parse(a).Some? && Parse(b).Some?
    ensures c == if ok then Compare(Parse(a).value, Parse(b).value) else 0
  {
    var left, right := Parse(a), Parse(b);
    if left.None? || right.None? { return 0, false; }
    var x, y := left.value, right.value;
    for i := 0 to 3
      invariant CompareCore(x.core[i..], y.core[i..]) == CompareCore(x.core, y.core)
    {
      c := CompareNumber(x.core[i], y.core[i]);
      assert x.core[i..][0] == x.core[i] && x.core[i..][1..] == x.core[i + 1..];
      assert y.core[i..][0] == y.core[i] && y.core[i..][1..] == y.core[i + 1..];
      if c != 0 { return c, true; }
    }
    c := ComparePreReleases(x.pre, y.pre);
    ok := true;
  }

  method ComparePreReleases(a: seq<string>, b: seq<string>) returns (c: int)
    ensures c == ComparePre(a, b)
  {
    if a == b { return 0; }
    if a == [] { return 1; }
    if b == [] { return -1; }
    var i := 0;
    while i < |a| && i < |b|
      invariant i <= |a| && i <= |b| && a[..i] == b[..i]
      invariant CompareIds(a[i..], b[i..]) == CompareIds(a, b)
    {
      assert a[i..][0] == a[i] && a[i..][1..] == a[i + 1..];
      assert b[i..][0] == b[i] && b[i..][1..] == b[i + 1..];
      if a[i] != b[i] {
        var ln := IsNumeric(a[i]);
        var rn := IsNumeric(b[i]);
        if ln && rn { return CompareNumber(a[i], b[i]); }
        if ln { return -1; }
        if rn { return 1; }
        return CompareText(a[i], b[i]);
      }
      i := i + 1;
    }
    assert a[..|a|] == a && b[..|b|] == b;
    if |a| < |b| { return -1; }
    return 1;
  }

  const LONGEST_TAG: nat := 128

  predicate Eligible(tag: string) {
    |tag| <= LONGEST_TAG && Parse(tag).Some?
  }

  datatype Verdict = NotFound | Update | Ahead | Current | Uncertain

  /** The tag to offer, and how the running version stands to it. */
  method CheckTag(tags: seq<string>, running: string) returns (latest: string, verdict: Verdict)
    ensures verdict.NotFound? <==> forall i :: 0 <= i < |tags| ==> !Eligible(tags[i])
    ensures if verdict.NotFound? then latest == "" else latest in tags && Eligible(latest)
    ensures !verdict.NotFound? ==>
      forall i :: 0 <= i < |tags| && Eligible(tags[i]) ==> Compare(Parse(tags[i]).value, Parse(latest).value) <= 0
    ensures !verdict.NotFound? ==>
      verdict == if Parse(running).None? then Uncertain
                 else if Less(Parse(running).value, Parse(latest).value) then Update
                 else if Less(Parse(latest).value, Parse(running).value) then Ahead else Current
  {
    latest := [];
    for i := 0 to |tags|
      invariant latest == [] <==> forall j :: 0 <= j < i ==> !Eligible(tags[j])
      invariant latest != [] ==> latest in tags && Eligible(latest)
      invariant latest != [] ==> forall j :: 0 <= j < i && Eligible(tags[j]) ==> Compare(Parse(tags[j]).value, Parse(latest).value) <= 0
    {
      if |tags[i]| > 128 { continue; }
      var parsed := Parse(tags[i]);
      if parsed.None? { continue; }
      if latest == [] {
        Reflexive(parsed.value);
        latest := tags[i];
      } else {
        var comparison, ok := CompareVersions(tags[i], latest);
        if comparison > 0 {
          Outranks(tags, i, latest);
          latest := tags[i];
        }
      }
    }
    if latest == [] { return latest, NotFound; }
    verdict := Uncertain;
    var comparison, ok := CompareVersions(running, latest);
    if ok {
      ComparisonIsPrecedence(Parse(running).value, Parse(latest).value);
      verdict := if comparison < 0 then Update else if comparison > 0 then Ahead else Current;
    }
  }

  lemma Reflexive(v: Version)
    requires WellFormed(v)
    ensures Compare(v, v) == 0
  {
    ComparisonIsPrecedence(v, v);
  }

  lemma Outranks(tags: seq<string>, i: nat, latest: string)
    requires i < |tags| && Eligible(tags[i]) && Eligible(latest) && Compare(Parse(tags[i]).value, Parse(latest).value) > 0
    requires forall j :: 0 <= j < i && Eligible(tags[j]) ==> Compare(Parse(tags[j]).value, Parse(latest).value) <= 0
    ensures forall j :: 0 <= j < i + 1 && Eligible(tags[j]) ==> Compare(Parse(tags[j]).value, Parse(tags[i]).value) <= 0
  {
    var v, w := Parse(tags[i]).value, Parse(latest).value;
    Antisymmetric(w, v);
    Reflexive(v);
    forall j | 0 <= j < i && Eligible(tags[j]) ensures Compare(Parse(tags[j]).value, v) <= 0 { Transitive(Parse(tags[j]).value, w, v); }
  }
}
