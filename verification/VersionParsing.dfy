/** The parser and the grammar. */
module VersionParsing {
  import opened Options
  import opened Texts
  import opened VersionModel

  lemma Lacks(v: Version)
    requires WellFormed(v)
    ensures '-' !in Join(v.core, '.') && '+' !in Bare(v)
    ensures (forall i :: 0 <= i < 3 ==> '.' !in v.core[i]) && forall i :: 0 <= i < |v.pre| ==> '.' !in v.pre[i]
  {
    forall i | 0 <= i < 3 ensures '-' !in v.core[i] && '+' !in v.core[i] && '.' !in v.core[i] { assert IsNumber(v.core[i]); }
    forall i | 0 <= i < |v.pre| ensures '+' !in v.pre[i] && '.' !in v.pre[i] { assert IsPreId(v.pre[i]); }
    JoinLacks(v.core, '.', '-');
    JoinLacks(v.core, '.', '+');
    JoinLacks(v.pre, '.', '+');
  }

  lemma ParseBareOf(v: Version)
    requires WellFormed(v)
    ensures ParseBare(Bare(v)) == Some(v)
  {
    Lacks(v);
    JoinSplit(v.core, '.');
    if v.pre == [] {
      assert Bare(v) == Join(v.core, '.');
      CutMisses(Bare(v), '-');
    } else {
      JoinSplit(v.pre, '.');
      assert Bare(v) == Join(v.core, '.') + ['-'] + Join(v.pre, '.');
      CutFinds(Join(v.core, '.'), '-', Join(v.pre, '.'));
    }
  }

  lemma BareOfParse(s: string)
    requires ParseBare(s).Some?
    ensures WellFormed(ParseBare(s).value) && Bare(ParseBare(s).value) == s
  {
    CutParts(s, '-');
    var (core, pre) := Cut(s, '-');
    SplitJoin(core, '.');
    if pre.Some? { SplitJoin(pre.value, '.'); }
  }

  lemma BareStartsWithDigit(v: Version)
    requires WellFormed(v)
    ensures Bare(v) != [] && IsDigit(Bare(v)[0])
  {
  }

  lemma ParseOf(v: Version, prefix: bool, build: Option<string>)
    requires WellFormed(v) && IsBuild(build)
    ensures Parse(Text(v, prefix, build)) == Some(v)
  {
    BareStartsWithDigit(v);
    Lacks(v);
    PrefixCut(Bare(v), prefix, build);
    ParseBareOf(v);
  }

  lemma PrefixCut(bare: string, prefix: bool, build: Option<string>)
    requires bare != [] && IsDigit(bare[0]) && '+' !in bare
    ensures var s := (if prefix then ['v'] else []) + bare + if build.Some? then ['+'] + build.value else [];
            var body := if s != [] && s[0] == 'v' then s[1..] else s;
            Cut(body, '+') == (bare, build)
  {
    var tail := if build.Some? then ['+'] + build.value else [];
    var s := (if prefix then ['v'] else []) + bare + tail;
    var body := if s != [] && s[0] == 'v' then s[1..] else s;
    assert body == bare + tail;
    if build.Some? {
      assert body == bare + ['+'] + build.value;
      CutFinds(bare, '+', build.value);
    } else {
      assert body == bare;
      CutMisses(bare, '+');
    }
  }

  /** The version after an optional `v` and before optional build metadata. */
  ghost predicate WrittenAs(s: string, v: Version, prefix: bool, build: Option<string>) {
    IsBuild(build) && s == Text(v, prefix, build)
  }

  ghost predicate Written(s: string, v: Version) {
    exists prefix, build :: WrittenAs(s, v, prefix, build)
  }

  lemma Assembled(s: string, v: Version, prefix: bool, build: Option<string>, body: string)
    requires s == (if prefix then ['v'] else []) + body && IsBuild(build)
    requires body == Bare(v) + if build.Some? then ['+'] + build.value else []
    ensures Written(s, v)
  {
    assert WrittenAs(s, v, prefix, build);
  }

  lemma TextOfParse(s: string)
    requires Parse(s).Some?
    ensures WellFormed(Parse(s).value) && Written(s, Parse(s).value)
  {
    var prefix := s != [] && s[0] == 'v';
    var body := if prefix then s[1..] else s;
    var cut := Cut(body, '+');
    CutParts(body, '+');
    assert IsBuild(cut.1) && Parse(s) == ParseBare(cut.0);
    BareOfParse(cut.0);
    Assembled(s, Parse(s).value, prefix, cut.1, body);
  }

  /** A text is read as a version exactly when it is that version written out, after an
      optional `v` and before optional build metadata. */
  lemma ParsedExactlyWhenWritten(s: string, v: Version)
    ensures Parse(s) == Some(v) <==> WellFormed(v) && Written(s, v)
  {
    if Parse(s) == Some(v) { TextOfParse(s); }
    if WellFormed(v) {
      forall prefix, build | WrittenAs(s, v, prefix, build) ensures Parse(s) == Some(v) { ParseOf(v, prefix, build); }
    }
  }

  /** No text can be read as two versions. */
  lemma WrittenOnce(v: Version, w: Version, p: bool, q: bool, b: Option<string>, c: Option<string>)
    requires WellFormed(v) && WellFormed(w) && IsBuild(b) && IsBuild(c) && Text(v, p, b) == Text(w, q, c)
    ensures v == w
  {
    ParseOf(v, p, b);
    ParseOf(w, q, c);
  }
}
