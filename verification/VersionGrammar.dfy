/** The grammar of a version, character by character (sections 2, 9 and 10 of Semantic
    Versioning 2.0.0). */
module VersionGrammar {
  import opened Options
  import opened Texts
  import opened VersionModel

  const DIGITS := "0123456789"
  const CAPITALS := "ABCDEFGHIJKLMNOPQRSTUVWXYZ"
  const SMALL := "abcdefghijklmnopqrstuvwxyz"

  lemma DigitExactly(c: char)
    ensures IsDigit(c) <==> c in DIGITS
  {
    if IsDigit(c) { assert DIGITS[(c - '0') as int] == c; }
  }

  lemma CapitalExactly(c: char)
    ensures 'A' <= c <= 'Z' <==> c in CAPITALS
  {
    if 'A' <= c <= 'Z' { assert CAPITALS[(c - 'A') as int] == c; }
  }

  lemma SmallExactly(c: char)
    ensures 'a' <= c <= 'z' <==> c in SMALL
  {
    if 'a' <= c <= 'z' { assert SMALL[(c - 'a') as int] == c; }
  }

  predicate IsAllowed(c: char) {
    c in DIGITS || c in CAPITALS || c in SMALL || c == '-'
  }

  lemma MarkExactly(c: char)
    ensures IsMark(c) <==> IsAllowed(c)
  {
    DigitExactly(c);
    CapitalExactly(c);
    SmallExactly(c);
  }

  predicate AllIn(s: string, chars: string) {
    forall i :: 0 <= i < |s| ==> s[i] in chars
  }

  predicate AllAllowed(s: string) {
    forall i :: 0 <= i < |s| ==> IsAllowed(s[i])
  }

  /** Zero, or digits that do not begin with zero. */
  predicate IsPlainNumber(s: string) {
    s == "0" || (|s| > 0 && AllIn(s, DIGITS) && s[0] != '0')
  }

  lemma NumberExactly(s: string)
    ensures IsNumber(s) <==> IsPlainNumber(s)
  {
    forall i | 0 <= i < |s| ensures IsDigit(s[i]) <==> s[i] in DIGITS { DigitExactly(s[i]); }
    assert s == "0" ==> s[0] == '0' && IsDigit('0');
    assert |s| == 1 && s[0] == '0' ==> s == "0";
  }

  lemma PreIdExactly(s: string)
    ensures IsPreId(s) <==> |s| > 0 && AllAllowed(s) && (AllIn(s, DIGITS) ==> IsPlainNumber(s))
  {
    NumberExactly(s);
    forall i | 0 <= i < |s| ensures IsDigit(s[i]) <==> s[i] in DIGITS { DigitExactly(s[i]); }
    forall i | 0 <= i < |s| ensures IsMark(s[i]) <==> IsAllowed(s[i]) { MarkExactly(s[i]); }
  }

  /** Build metadata: marks and single dots between them. */
  predicate IsDotted(b: string) {
    && |b| > 0 && b[0] != '.' && b[|b| - 1] != '.'
    && (forall i :: 0 <= i < |b| ==> b[i] == '.' || IsMark(b[i]))
    && forall i :: 0 < i < |b| ==> b[i] != '.' || b[i - 1] != '.'
  }

  predicate AllIdentifiers(parts: seq<string>) {
    forall i :: 0 <= i < |parts| ==> IsIdentifier(parts[i])
  }

  /** The first part up to the first dot, and the rest after it. */
  lemma {:induction false} BuildExactly(b: string)
    ensures AllIdentifiers(Split(b, '.')) <==> IsDotted(b)
    decreases |b|
  {
    CutParts(b, '.');
    var (first, rest) := Cut(b, '.');
    match rest
    case None =>
      SplitOne(b, '.');
      assert AllIdentifiers([b]) <==> IsIdentifier(b) by { assert AllIdentifiers([b]) ==> IsIdentifier([b][0]); }
      assert forall i :: 0 <= i < |b| ==> b[i] != '.';
    case Some(tail) =>
      assert b == first + ['.'] + tail;
      SplitFirst(first, '.', tail);
      BuildExactly(tail);
      var parts := Split(tail, '.');
      assert AllIdentifiers([first] + parts) <==> IsIdentifier(first) && AllIdentifiers(parts) by {
        assert forall i :: 0 <= i < |parts| ==> ([first] + parts)[i + 1] == parts[i];
        assert ([first] + parts)[0] == first;
      }
      DottedUnfolds(b, first, tail);
  }

  lemma DottedUnfolds(b: string, first: string, tail: string)
    requires b == first + ['.'] + tail && '.' !in first
    ensures IsDotted(b) <==> IsIdentifier(first) && IsDotted(tail)
  {
    var n := |first|;
    assert b[n] == '.' && forall i :: 0 <= i < |tail| ==> b[n + 1 + i] == tail[i];
    assert forall i :: 0 <= i < n ==> b[i] == first[i] && b[i] != '.';
    if IsDotted(b) {
      assert n > 0 && |tail| > 0 && b[n + 1] == tail[0];
      forall i | 0 <= i < n ensures IsMark(first[i]) { assert b[i] == first[i]; }
      forall i | 0 <= i < |tail| ensures tail[i] == '.' || IsMark(tail[i]) { assert b[n + 1 + i] == tail[i]; }
      forall i | 0 < i < |tail| ensures tail[i] != '.' || tail[i - 1] != '.' { assert b[n + 1 + i] == tail[i] && b[n + i] == tail[i - 1]; }
    }
    if IsIdentifier(first) && IsDotted(tail) {
      forall i | 0 <= i < |b| ensures b[i] == '.' || IsMark(b[i]) {
        if i < n { assert b[i] == first[i]; } else if i > n { assert b[i] == tail[i - n - 1]; }
      }
      forall i | 0 < i < |b| ensures b[i] != '.' || b[i - 1] != '.' {
        if i > n + 1 { assert b[i] == tail[i - n - 1] && b[i - 1] == tail[i - n - 2]; }
      }
    }
  }

  /** A version has three numbers and any number of pre-release identifiers, of which none is
      empty and numbers have no leading zero; build metadata is dotted. */
  lemma GrammarExactly(v: Version, build: Option<string>)
    ensures WellFormed(v) <==>
            && |v.core| == 3 && (forall i :: 0 <= i < |v.core| ==> IsPlainNumber(v.core[i]))
            && forall i :: 0 <= i < |v.pre| ==>
                 |v.pre[i]| > 0 && AllAllowed(v.pre[i]) && (AllIn(v.pre[i], DIGITS) ==> IsPlainNumber(v.pre[i]))
    ensures IsBuild(build) <==> build == None || IsDotted(build.value)
  {
    forall i | 0 <= i < |v.core| ensures IsNumber(v.core[i]) <==> IsPlainNumber(v.core[i]) { NumberExactly(v.core[i]); }
    forall i | 0 <= i < |v.pre|
      ensures IsPreId(v.pre[i]) <==> |v.pre[i]| > 0 && AllAllowed(v.pre[i]) && (AllIn(v.pre[i], DIGITS) ==> IsPlainNumber(v.pre[i]))
    {
      PreIdExactly(v.pre[i]);
    }
    if build.Some? {
      BuildExactly(build.value);
      assert IsBuild(build) <==> AllIdentifiers(Split(build.value, '.'));
    }
  }
}
