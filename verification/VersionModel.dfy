/** Version numbers as release tags carry them (internal/console/version.go). */
module VersionModel {
  import opened Options
  import opened Texts

  // ---- Text ----

  predicate IsDigit(c: char) {
    '0' <= c <= '9'
  }

  predicate IsMark(c: char) {
    IsDigit(c) || 'A' <= c <= 'Z' || 'a' <= c <= 'z' || c == '-'
  }

  predicate Numeric(s: string) {
    s != [] && forall i :: 0 <= i < |s| ==> IsDigit(s[i])
  }

  predicate IsIdentifier(s: string) {
    s != [] && forall i :: 0 <= i < |s| ==> IsMark(s[i])
  }

  /** A number without a leading zero. */
  predicate IsNumber(s: string) {
    Numeric(s) && (|s| > 1 ==> s[0] != '0')
  }

  predicate IsPreId(s: string) {
    IsIdentifier(s) && (Numeric(s) ==> IsNumber(s))
  }

  // ---- The grammar ----

  /** `pre` lists the identifiers of a pre-release; build metadata has no part in a version. */
  datatype Version = Version(core: seq<string>, pre: seq<string>)

  predicate WellFormed(v: Version) {
    && |v.core| == 3 && (forall i :: 0 <= i < 3 ==> IsNumber(v.core[i]))
    && forall i :: 0 <= i < |v.pre| ==> IsPreId(v.pre[i])
  }

  predicate IsBuild(b: Option<string>) {
    b.Some? ==> forall i :: 0 <= i < |Split(b.value, '.')| ==> IsIdentifier(Split(b.value, '.')[i])
  }

  function Bare(v: Version): string {
    Join(v.core, '.') + if v.pre == [] then [] else ['-'] + Join(v.pre, '.')
  }

  function Text(v: Version, prefix: bool, build: Option<string>): string {
    (if prefix then ['v'] else []) + Bare(v) + if build.Some? then ['+'] + build.value else []
  }

  // ---- Parsing ----

  function ParseBare(s: string): Option<Version> {
    var (core, pre) := Cut(s, '-');
    var v := Version(Split(core, '.'), if pre.Some? then Split(pre.value, '.') else []);
    if WellFormed(v) then Some(v) else None
  }

  function Parse(s: string): Option<Version> {
    var body := if s != [] && s[0] == 'v' then s[1..] else s;
    var (bare, build) := Cut(body, '+');
    if IsBuild(build) then ParseBare(bare) else None
  }

  // ---- Comparison ----

  function CompareText(a: string, b: string): int {
    if a == [] then if b == [] then 0 else -1
    else if b == [] then 1
    else if a[0] < b[0] then -1
    else if a[0] > b[0] then 1
    else CompareText(a[1..], b[1..])
  }

  function CompareNumber(a: string, b: string): int {
    if |a| < |b| then -1 else if |a| > |b| then 1 else CompareText(a, b)
  }

  function CompareCore(a: seq<string>, b: seq<string>): int
    requires |a| == |b|
  {
    if a == [] then 0
    else if CompareNumber(a[0], b[0]) != 0 then CompareNumber(a[0], b[0])
    else CompareCore(a[1..], b[1..])
  }

  function CompareId(a: string, b: string): int {
    if Numeric(a) && Numeric(b) then CompareNumber(a, b)
    else if Numeric(a) then -1
    else if Numeric(b) then 1
    else CompareText(a, b)
  }

  function CompareIds(a: seq<string>, b: seq<string>): int {
    if a == [] then if b == [] then 0 else -1
    else if b == [] then 1
    else if a[0] == b[0] then CompareIds(a[1..], b[1..])
    else CompareId(a[0], b[0])
  }

  function ComparePre(a: seq<string>, b: seq<string>): int {
    if a == b then 0 else if a == [] then 1 else if b == [] then -1 else CompareIds(a, b)
  }

  function Compare(a: Version, b: Version): int
    requires |a.core| == |b.core|
  {
    if CompareCore(a.core, b.core) != 0 then CompareCore(a.core, b.core) else ComparePre(a.pre, b.pre)
  }
}
