module Redaction {
  import opened Substrings

  const NUL := '\0'
  const WORD := "memgov-expired"
  /** In brackets and in Chinese: "original text expired, can be queried again". */
  const PLACEHOLDER := "[\U{539F}\U{6587}\U{5DF2}\U{5230}\U{671F}\U{FF0C}\U{53EF}\U{56DE}\U{67E5}]"

  function Marker(): (m: string)
    ensures |m| == |WORD| + 2 && m[0] == NUL && m[|m| - 1] == NUL && m[1..|m| - 1] == WORD
  {
    [NUL] + WORD + [NUL]
  }

  ghost predicate NulFree(s: string) {
    NUL !in s
  }

  /** An original to remove. Every caller skips empty ones. */
  type Original = t: string | t != [] witness "x"

  ghost predicate NulFreeTexts(texts: seq<Original>) {
    forall t :: t in texts ==> NulFree(t)
  }

  /** The loop over the texts, before the markers are turned into the placeholder. */
  function Mark(s: string, texts: seq<Original>): string
    decreases |texts|
  {
    if texts == [] then s else Mark(ReplaceAll(s, texts[0], Marker()), texts[1..])
  }

  function Redact(s: string, texts: seq<Original>): string
  {
    ReplaceAll(Mark(s, texts), Marker(), PLACEHOLDER)
  }

  /** The order in which every caller sorts the texts. */
  ghost predicate LongestFirst(texts: seq<Original>) {
    forall i, j :: 0 <= i < j < |texts| ==> |texts[i]| >= |texts[j]|
  }

  ghost predicate CleanOf(s: string, texts: seq<Original>) {
    forall t :: t in texts ==> !Occurs(t, s)
  }

  /** A NUL-free text touches the marker only inside its word. */
  lemma MarkerTouch(u: string)
    requires u != [] && NulFree(u) && Touches(u, Marker())
    ensures Occurs(u, WORD)
  {
    var o :| AgreeAt(u, Marker(), o);
    var m := Marker();
    var first, last := if o <= 0 then -o else 0, if o + |u| >= |m| then |m| - 1 - o else 0;
    assert u[first] != NUL && u[last] != NUL;
    forall j | 0 <= j < |u| ensures u[j] == WORD[o - 1 + j] {
      assert u[j] == m[o + j] == m[1..|m| - 1][o + j - 1];
    }
    assert WORD[o - 1..o - 1 + |u|] == u;
    assert OccursAt(u, WORD, o - 1);
  }

  /** No replacement brings back a text that is not part of the marker's word. */
  lemma {:induction false} MarkKeepsClean(s: string, texts: seq<Original>, u: string)
    requires NulFreeTexts(texts) && u != [] && NulFree(u) && !Occurs(u, WORD) && !Occurs(u, s)
    ensures !Occurs(u, Mark(s, texts))
    decreases |texts|
  {
    if texts != [] {
      var next := ReplaceAll(s, texts[0], Marker());
      if Occurs(u, next) {
        ReplaceIntroducesOnlyTouching(s, texts[0], Marker(), u);
        MarkerTouch(u);
      }
      MarkKeepsClean(next, texts[1..], u);
    }
  }

  /** One replacement removes every occurrence of its own text. */
  lemma ReplacedIsGone(s: string, t: string)
    requires t != [] && NulFree(t) && !Occurs(t, WORD)
    ensures !Occurs(t, ReplaceAll(s, t, Marker()))
  {
    SplitOnOutput(s, t, Marker());
    SplitOnClean(s, t);
    if Occurs(t, ReplaceAll(s, t, Marker())) {
      OutputOccurrence(SplitOn(s, t), Marker(), t);
      MarkerTouch(t);
    }
  }

  lemma {:induction false} MarkCleans(s: string, texts: seq<Original>)
    requires NulFreeTexts(texts) && CleanOf(WORD, texts)
    ensures CleanOf(Mark(s, texts), texts)
    decreases |texts|
  {
    if texts != [] {
      var next := ReplaceAll(s, texts[0], Marker());
      ReplacedIsGone(s, texts[0]);
      MarkKeepsClean(next, texts[1..], texts[0]);
      MarkCleans(next, texts[1..]);
    }
  }

  /** Once a whole marker word is present, or will be, it is present at the end. */
  lemma {:induction false} MarkLeavesWord(s: string, texts: seq<Original>)
    requires Occurs(WORD, s) || !CleanOf(s, texts)
    ensures Occurs(WORD, Mark(s, texts))
    decreases |texts|
  {
    if texts != [] {
      var next := ReplaceAll(s, texts[0], Marker());
      if Occurs(texts[0], s) {
        ReplacePresent(s, texts[0], Marker());
        assert OccursAt(WORD, Marker(), 1);
        OccursTransitive(WORD, Marker(), next);
      } else {
        ReplaceAbsent(s, texts[0], Marker());
      }
      MarkLeavesWord(next, texts[1..]);
    }
  }

  lemma {:induction false} MarkAbsent(s: string, texts: seq<Original>)
    requires CleanOf(s, texts)
    ensures Mark(s, texts) == s
    decreases |texts|
  {
    if texts != [] {
      ReplaceAbsent(s, texts[0], Marker());
      MarkAbsent(s, texts[1..]);
    }
  }

  /** Exactly when the marking loop removes every text: it always does, unless there was
      something to remove and one of the texts is itself part of the marker's word. */
  lemma MarkCleansExactlyWhen(s: string, texts: seq<Original>)
    requires NulFreeTexts(texts)
    ensures CleanOf(Mark(s, texts), texts) <==> CleanOf(s, texts) || CleanOf(WORD, texts)
  {
    if CleanOf(WORD, texts) {
      MarkCleans(s, texts);
    } else if CleanOf(s, texts) {
      MarkAbsent(s, texts);
    } else {
      MarkLeavesWord(s, texts);
      var u :| u in texts && Occurs(u, WORD);
      OccursTransitive(u, WORD, Mark(s, texts));
    }
  }

  /** The condition fails for a text as ordinary as "e": it is back after its own removal. */
  lemma MarkCanLeaveAText()
    ensures NulFreeTexts(["e"]) && !CleanOf(Mark("e", ["e"]), ["e"])
  {
    assert OccursAt("e", WORD, 1);
    assert OccursAt("e", "e", 0);
    assert "e" in ["e"] && Occurs("e", WORD) && Occurs("e", "e");
    MarkCleansExactlyWhen("e", ["e"]);
  }

  // ---- The visible placeholder ----

  /** Each text that is not part of the marker's word is gone, whatever the other texts are. */
  lemma {:induction false} MarkRemoves(s: string, texts: seq<Original>, u: string)
    requires NulFreeTexts(texts) && u in texts && !Occurs(u, WORD)
    ensures !Occurs(u, Mark(s, texts))
    decreases |texts|
  {
    var next := ReplaceAll(s, texts[0], Marker());
    if u == texts[0] {
      ReplacedIsGone(s, u);
      MarkKeepsClean(next, texts[1..], u);
    } else {
      MarkRemoves(next, texts[1..], u);
    }
  }

  lemma TooShort(u: string, s: string)
    requires |s| < |u|
    ensures !Occurs(u, s)
  {
    forall i ensures !OccursAt(u, s, i) { }
  }

  /** A run of `n` zeros and a one cannot start inside the `n` or fewer characters before it. */
  lemma SentinelIsFound(x: string, y: string, n: nat, v: string)
    requires |x| <= n && v == seq(n, _ => '0') + "1"
    ensures NoStartWithin(v, x + v + y, |x|)
  {
    var s := x + v + y;
    forall j | 0 <= j < |x| ensures !(v <= s[j..]) {
      assert s[j..][n] == s[j + n] == '0' && v[n] == '1';
    }
  }

  lemma MarkerNotBefore(x: string, y: string)
    requires NulFree(x)
    ensures NoStartWithin(Marker(), x + Marker() + y, |x|)
  {
    var s := x + Marker() + y;
    forall j | 0 <= j < |x| ensures !(Marker() <= s[j..]) {
      assert s[j..][0] == s[j] == x[j];
    }
  }

  /** Redacting one sentinel between `x` and `y` yields the placeholder between them. */
  lemma RedactBetween(x: string, v: string, y: string, u: Original)
    requires NulFree(x) && NulFree(y) && NulFree(u) && !Occurs(u, WORD)
    requires |x| < |u| && |y| < |u| && v == seq(|u|, _ => '0') + "1"
    ensures Redact(x + v + y, [v, u]) == x + PLACEHOLDER + y
  {
    var m := Marker();
    SentinelIsFound(x, y, |u|, v);
    ReplaceAfterPrefix(x, v, y, m);
    TooShort(v, y);
    ReplaceAbsent(y, v, m);
    var marked := x + m + y;
    TooShort(u, x);
    TooShort(u, y);
    assert marked == Output(Cut(x, v, End(y)), m);
    if Occurs(u, marked) {
      OutputOccurrence(Cut(x, v, End(y)), m, u);
      MarkerTouch(u);
    }
    ReplaceAbsent(marked, u, m);
    assert [v, u][1..] == [u] && [u][1..] == [];
    assert Mark(x + v + y, [v, u]) == Mark(marked, [u]) == Mark(marked, []) == marked;
    MarkerNotBefore(x, y);
    ReplaceAfterPrefix(x, m, y, PLACEHOLDER);
    forall i ensures !OccursAt(m, y, i) {
      if 0 <= i && i + |m| <= |y| { assert y[i..i + |m|][0] == y[i]; }
    }
    ReplaceAbsent(y, m, PLACEHOLDER);
  }

  /** If `u` touches the placeholder, some text is redacted into one that shows `u`. */
  lemma TouchingTextCanReturn(u: Original) returns (s: string, texts: seq<Original>)
    requires NulFree(u) && !Occurs(u, WORD) && Touches(u, PLACEHOLDER)
    ensures NulFreeTexts(texts) && LongestFirst(texts) && u in texts && Occurs(u, Redact(s, texts))
  {
    var p := PLACEHOLDER;
    var o :| AgreeAt(u, p, o);
    var x, y := Before(u, o), After(u, p, o);
    assert NulFree(x) && NulFree(y);
    var v: string := seq(|u|, _ => '0') + "1";
    s, texts := x + v + y, [v, u];
    RedactBetween(x, v, y, u);
    TouchingIsShown(u, p, o);
  }

  // ---- What is kept ----

  /** A NUL-free text does not reach across a NUL. */
  lemma StaysBeforeNul(t: string, k: string, beyond: string)
    requires NulFree(t) && beyond != [] && beyond[0] == NUL
    ensures StaysInside(t, k, beyond)
  {
    forall j | 0 <= j < |k| && |k| - j < |t| ensures !(t <= k[j..] + beyond) {
      assert (k[j..] + beyond)[|k| - j] == NUL;
    }
  }

  lemma StaysUpToNul(t: string, k: string, beyond: string)
    requires NulFree(t) && k != [] && k[|k| - 1] == NUL
    ensures StaysInside(t, k, beyond)
  {
    forall j | 0 <= j < |k| && |k| - j < |t| ensures !(t <= k[j..] + beyond) {
      assert (k[j..] + beyond)[|k| - 1 - j] == NUL;
    }
  }

  lemma ReplaceAroundMarker(k: string, rest: string, t: string, m: string)
    requires t != [] && NulFree(t)
    ensures ReplaceAll(k + Marker() + rest, t, m) == ReplaceAll(k, t, m) + ReplaceAll(Marker(), t, m) + ReplaceAll(rest, t, m)
  {
    var w := Marker();
    StaysUpToNul(t, w, rest);
    ReplaceAcross(w, rest, ReplaceAll(rest, t, m), t, m);
    StaysBeforeNul(t, k, w + rest);
    ReplaceAcross(k, w + rest, ReplaceAll(w + rest, t, m), t, m);
    Regrouped(k, w, rest);
    Regrouped(ReplaceAll(k, t, m), ReplaceAll(w, t, m), ReplaceAll(rest, t, m));
  }

  lemma Regrouped(a: string, b: string, c: string)
    ensures a + b + c == a + (b + c)
  {
  }

  lemma ReplaceInMarker(t: string, m: string)
    requires t != [] && NulFree(t)
    ensures ReplaceAll(Marker(), t, m) == [NUL] + ReplaceAll(WORD, t, m) + [NUL]
  {
    var w := Marker();
    assert w == [NUL] + (WORD + [NUL]);
    forall j | 0 <= j < 1 ensures !(t <= w[j..]) { assert w[j..][0] == NUL; }
    ReplaceSkips([NUL], WORD + [NUL], t, m);
    StaysBeforeNul(t, WORD, [NUL]);
    assert !Occurs(t, [NUL]) by {
      forall i ensures !OccursAt(t, [NUL], i) {
        if 0 <= i && i + |t| <= 1 { assert [NUL][i..i + |t|][0] == NUL; }
      }
    }
    ReplaceAbsent([NUL], t, m);
    ReplaceAcross(WORD, [NUL], [NUL], t, m);
    assert [NUL] + (ReplaceAll(WORD, t, m) + [NUL]) == [NUL] + ReplaceAll(WORD, t, m) + [NUL];
  }

  /** A marker that stays whole splits a replacement into two independent ones. */
  lemma ReplaceAcrossMarker(k: string, rest: string, t: string)
    requires t != [] && NulFree(t) && !Occurs(t, WORD)
    ensures ReplaceAll(k + Marker() + rest, t, Marker())
         == ReplaceAll(k, t, Marker()) + Marker() + ReplaceAll(rest, t, Marker())
  {
    ReplaceAroundMarker(k, rest, t, Marker());
    ReplaceInMarker(t, Marker());
    ReplaceAbsent(WORD, t, Marker());
  }

  /** Replacing in a marked text is cutting its kept pieces again. */
  lemma {:induction false} RefineIsReplace(sc: Script, t: string, texts: set<string>, u: string)
    requires t != [] && NulFree(t) && !Occurs(t, WORD)
    ensures Input(Refine(sc, t)) == Input(sc)
    ensures Output(Refine(sc, t), Marker()) == ReplaceAll(Output(sc, Marker()), t, Marker())
    ensures GoneIn(sc, texts) && t in texts ==> GoneIn(Refine(sc, t), texts)
    ensures KeptHas(Refine(sc, t), u) ==> KeptHas(sc, u) && u != t
  {
    var front := SplitOn(sc.keep, t);
    SplitOnInput(sc.keep, t);
    SplitOnOutput(sc.keep, t, Marker());
    SplitOnClean(sc.keep, t);
    GoneInMore(front, {t}, texts);
    if KeptHas(front, u) { SplitKeepsParts(sc.keep, t, u); }
    if sc.Cut? {
      RefineIsReplace(sc.rest, t, texts, u);
      AppendScript(front, sc.gone, Refine(sc.rest, t), Marker(), texts, u);
      ReplaceAcrossMarker(sc.keep, Output(sc.rest, Marker()), t);
    }
  }

  lemma GoneInMore(sc: Script, few: set<string>, many: set<string>)
    requires GoneIn(sc, few)
    ensures few <= many ==> GoneIn(sc, many)
  {
  }

  ghost function MarkScript(sc: Script, texts: seq<Original>): Script
    decreases |texts|
  {
    if texts == [] then sc else MarkScript(Refine(sc, texts[0]), texts[1..])
  }

  lemma {:induction false} MarkScriptMeaning(sc: Script, texts: seq<Original>, all: set<string>, u: string)
    requires NulFreeTexts(texts) && CleanOf(WORD, texts) && GoneIn(sc, all) && forall t :: t in texts ==> t in all
    ensures Input(MarkScript(sc, texts)) == Input(sc)
    ensures Output(MarkScript(sc, texts), Marker()) == Mark(Output(sc, Marker()), texts)
    ensures GoneIn(MarkScript(sc, texts), all)
    ensures KeptHas(MarkScript(sc, texts), u) ==> KeptHas(sc, u) && u !in texts
    decreases |texts|
  {
    if texts != [] {
      RefineIsReplace(sc, texts[0], all, u);
      MarkScriptMeaning(Refine(sc, texts[0]), texts[1..], all, u);
    }
  }

  /** Nothing but originals is lost: the result is the input with non-overlapping pieces,
      each one of the texts, each replaced by one marker; the pieces between them stand in
      their order, unchanged, and none of them contains a text. */
  lemma MarkKeepsTheRest(s: string, texts: seq<Original>) returns (sc: Script)
    requires NulFreeTexts(texts) && CleanOf(WORD, texts)
    ensures Input(sc) == s && Output(sc, Marker()) == Mark(s, texts)
    ensures GoneIn(sc, set t | t in texts)
    ensures forall u :: u in texts ==> !KeptHas(sc, u)
  {
    sc := MarkScript(End(s), texts);
    MarkScriptMeaning(End(s), texts, (set t | t in texts), "");
    forall u | u in texts ensures !KeptHas(sc, u) {
      MarkScriptMeaning(End(s), texts, (set t | t in texts), u);
    }
  }

  // ---- Texts inside the marker's word ----

  /** Replacing `t` breaks a marker open so that `u` can be read in what is left of its word. */
  ghost predicate Exposes(t: string, u: string) {
    t != [] && NulFree(t) && Occurs(t, WORD) && KeptHas(SplitOn(WORD, t), u)
  }

  ghost predicate Exposed(u: string) {
    exists t :: Exposes(t, u)
  }

  /** By a text that may come after `u` when longer ones come first. */
  ghost predicate ExposedByShorter(u: string) {
    exists t :: Exposes(t, u) && |t| <= |u|
  }

  /** Two marked texts, one after the other. */
  ghost function Join(a: Script, b: Script): Script {
    match a
    case End(k) => b.(keep := k + b.keep)
    case Cut(k, g, r) => Cut(k, g, Join(r, b))
  }

  ghost function LastKeep(sc: Script): string {
    match sc
    case End(k) => k
    case Cut(_, _, r) => LastKeep(r)
  }

  /** A NUL or nothing stands on one side of the seam. */
  ghost predicate Seam(a: string, b: string) {
    a == [] || b == [] || a[|a| - 1] == NUL || b[0] == NUL
  }

  lemma OccursAtSeam(a: string, b: string, u: string)
    requires Seam(a, b) && u != [] && NulFree(u)
    ensures Occurs(u, a + b) <==> Occurs(u, a) || Occurs(u, b)
  {
    if Occurs(u, a + b) {
      var i :| OccursAt(u, a + b, i);
      forall p | i <= p < i + |u| ensures (a + b)[p] != NUL { assert u[p - i] == (a + b)[i..i + |u|][p - i]; }
      assert a != [] && b != [] ==> (a + b)[|a| - 1] == a[|a| - 1] && (a + b)[|a|] == b[0];
      if i + |u| <= |a| {
        assert a[i..i + |u|] == (a + b)[i..i + |u|];
        assert OccursAt(u, a, i);
      } else {
        assert b[i - |a|..i - |a| + |u|] == (a + b)[i..i + |u|];
        assert OccursAt(u, b, i - |a|);
      }
    }
    if Occurs(u, a) { OccursInPart(u, "", a, b); assert "" + a + b == a + b; }
    if Occurs(u, b) { OccursInPart(u, a, b, ""); assert a + b + "" == a + b; }
  }

  lemma {:induction false} JoinMeaning(a: Script, b: Script, u: string, m: string)
    requires Seam(LastKeep(a), b.keep) && u != [] && NulFree(u)
    ensures Output(Join(a, b), m) == Output(a, m) + Output(b, m)
    ensures KeptHas(Join(a, b), u) <==> KeptHas(a, u) || KeptHas(b, u)
  {
    if a.End? {
      OccursAtSeam(a.keep, b.keep, u);
    } else {
      JoinMeaning(a.rest, b, u, m);
    }
  }

  /** The broken marker: what is left of its word between the two NULs. */
  ghost function Broken(t: string): Script
    requires t != []
  {
    Join(End([NUL]), Join(SplitOn(WORD, t), End([NUL])))
  }

  lemma {:induction false} JoinEnds(a: Script, k: string)
    ensures LastKeep(Join(a, End(k))) == LastKeep(a) + k
    ensures Join(a, End(k)).keep == if a.End? then a.keep + k else a.keep
  {
    if a.Cut? { JoinEnds(a.rest, k); }
  }

  lemma BrokenMeaning(t: string, u: string, m: string)
    requires t != [] && NulFree(t) && u != [] && NulFree(u)
    ensures Output(Broken(t), m) == ReplaceAll(Marker(), t, m)
    ensures KeptHas(Broken(t), u) <==> KeptHas(SplitOn(WORD, t), u)
    ensures Broken(t).keep != [] && Broken(t).keep[0] == NUL
    ensures LastKeep(Broken(t)) != [] && LastKeep(Broken(t))[|LastKeep(Broken(t))| - 1] == NUL
  {
    var word := SplitOn(WORD, t);
    var tail := Join(word, End([NUL]));
    assert !Occurs(u, [NUL]) by {
      forall i ensures !OccursAt(u, [NUL], i) {
        if 0 <= i && i + |u| <= 1 { assert [NUL][i..i + |u|][0] == NUL; }
      }
    }
    JoinMeaning(word, End([NUL]), u, m);
    JoinMeaning(End([NUL]), tail, u, m);
    JoinEnds(word, [NUL]);
    SplitOnOutput(WORD, t, m);
    ReplaceInMarker(t, m);
    assert [NUL] + (Output(word, m) + [NUL]) == [NUL] + Output(word, m) + [NUL];
  }

  /** The cuts after `t` was replaced in a marked text, inside its markers too. */
  ghost function Recut(sc: Script, t: string): Script
    requires t != []
  {
    match sc
    case End(k) => SplitOn(k, t)
    case Cut(k, g, r) =>
      if Occurs(t, WORD) then Join(SplitOn(k, t), Join(Broken(t), Recut(r, t)))
      else Append(SplitOn(k, t), g, Recut(r, t))
  }

  lemma {:induction false} JoinKeep(a: Script, b: Script)
    requires a.keep != []
    ensures Join(a, b).keep != [] && Join(a, b).keep[0] == a.keep[0]
  {
  }

  lemma JoinThree(a: Script, b: Script, c: Script, u: string, m: string)
    requires u != [] && NulFree(u) && b.keep != [] && b.keep[0] == NUL
    requires LastKeep(b) != [] && LastKeep(b)[|LastKeep(b)| - 1] == NUL
    ensures Output(Join(a, Join(b, c)), m) == Output(a, m) + Output(b, m) + Output(c, m)
    ensures KeptHas(Join(a, Join(b, c)), u) <==> KeptHas(a, u) || KeptHas(b, u) || KeptHas(c, u)
  {
    JoinMeaning(b, c, u, m);
    JoinKeep(b, c);
    JoinMeaning(a, Join(b, c), u, m);
    Regrouped(Output(a, m), Output(b, m), Output(c, m));
  }

  /** A text that is in no kept piece stays so, unless the next text exposes it. */
  lemma {:induction false} RecutHides(sc: Script, t: string, u: string)
    requires t != [] && NulFree(t) && u != [] && NulFree(u) && !KeptHas(sc, u) && !Exposes(t, u)
    ensures Output(Recut(sc, t), Marker()) == ReplaceAll(Output(sc, Marker()), t, Marker())
    ensures !KeptHas(Recut(sc, t), u)
  {
    var m, front := Marker(), SplitOn(sc.keep, t);
    SplitOnOutput(sc.keep, t, m);
    if KeptHas(front, u) { SplitKeepsParts(sc.keep, t, u); }
    if sc.Cut? {
      var back := Recut(sc.rest, t);
      RecutHides(sc.rest, t, u);
      ReplaceAroundMarker(sc.keep, Output(sc.rest, m), t, m);
      if Occurs(t, WORD) {
        BrokenMeaning(t, u, m);
        JoinThree(front, Broken(t), back, u, m);
      } else {
        ReplaceAcrossMarker(sc.keep, Output(sc.rest, m), t);
        AppendScript(front, sc.gone, back, m, {}, u);
      }
    }
  }

  /** Where the word of a marker cannot be read, the placeholder takes the place of exactly the
      markers. */
  lemma {:induction false} PlaceholderFits(sc: Script, u: string)
    requires Occurs(u, WORD) && !KeptHas(sc, u)
    ensures ReplaceAll(Output(sc, Marker()), Marker(), PLACEHOLDER) == Output(sc, PLACEHOLDER)
  {
    var m, k := Marker(), sc.keep;
    if Occurs(WORD, k) { OccursTransitive(u, WORD, k); }
    if sc.End? {
      assert !Occurs(m, k) by {
        assert OccursAt(WORD, m, 1);
        if Occurs(m, k) { OccursTransitive(WORD, m, k); }
      }
      ReplaceAbsent(k, m, PLACEHOLDER);
    } else {
      var rest := Output(sc.rest, m);
      var s := k + m + rest;
      forall j | 0 <= j < |k| ensures !(m <= s[j..]) {
        if m <= s[j..] { MarkerInFront(k, rest, j); }
      }
      ReplaceAfterPrefix(k, m, rest, PLACEHOLDER);
      PlaceholderFits(sc.rest, u);
    }
  }

  lemma MarkerInFront(k: string, rest: string, j: nat)
    requires j < |k| && Marker() <= (k + Marker() + rest)[j..]
    ensures Occurs(WORD, k)
  {
    var m, s := Marker(), k + Marker() + rest;
    assert forall i :: 0 <= i < |m| ==> s[j + i] == s[j..][i] == m[i];
    assert s[|k|] == NUL && NulFree(WORD);
    forall p | j < p <= j + |WORD| ensures s[p] != NUL { assert s[p] == m[p - j] == m[1..|m| - 1][p - j - 1] == WORD[p - j - 1]; }
    assert k[j + 1..j + 1 + |WORD|] == WORD by {
      forall i | 0 <= i < |WORD| ensures k[j + 1 + i] == WORD[i] { assert m[i + 1] == m[1..|m| - 1][i]; }
    }
    assert OccursAt(WORD, k, j + 1);
  }

  ghost predicate Veiled(s: string, u: string) {
    exists sc :: Output(sc, Marker()) == s && !KeptHas(sc, u)
  }

  lemma {:induction false} MarkKeepsVeiled(s: string, texts: seq<Original>, u: string)
    requires NulFreeTexts(texts) && u != [] && NulFree(u) && Veiled(s, u)
    requires forall i :: 0 <= i < |texts| ==> !Exposes(texts[i], u)
    ensures Veiled(Mark(s, texts), u)
    decreases |texts|
  {
    if texts != [] {
      var sc :| Output(sc, Marker()) == s && !KeptHas(sc, u);
      RecutHides(sc, texts[0], u);
      MarkKeepsVeiled(ReplaceAll(s, texts[0], Marker()), texts[1..], u);
    }
  }

  lemma {:induction false} MarkVeils(s: string, texts: seq<Original>, k: nat, u: string)
    requires NulFreeTexts(texts) && k < |texts| && texts[k] == u
    requires forall i :: k < i < |texts| ==> !Exposes(texts[i], u)
    ensures Veiled(Mark(s, texts), u)
    decreases |texts|
  {
    var next := ReplaceAll(s, texts[0], Marker());
    if k == 0 {
      SplitOnOutput(s, u, Marker());
      SplitOnClean(s, u);
      assert Veiled(next, u);
      MarkKeepsVeiled(next, texts[1..], u);
    } else {
      MarkVeils(next, texts[1..], k - 1, u);
    }
  }

  /** The finished redaction shows none of a text that does not touch the placeholder, unless a
      text after it exposes it. */
  lemma RedactCleansAt(s: string, texts: seq<Original>, k: nat, u: string)
    requires NulFreeTexts(texts) && k < |texts| && texts[k] == u && !Touches(u, PLACEHOLDER)
    requires forall i :: k < i < |texts| ==> !Exposes(texts[i], u)
    ensures !Occurs(u, Redact(s, texts))
  {
    if !Occurs(u, WORD) {
      MarkRemoves(s, texts, u);
      if Occurs(u, Redact(s, texts)) { ReplaceIntroducesOnlyTouching(Mark(s, texts), Marker(), PLACEHOLDER, u); }
    } else {
      MarkVeils(s, texts, k, u);
      var sc :| Output(sc, Marker()) == Mark(s, texts) && !KeptHas(sc, u);
      PlaceholderFits(sc, u);
      if Occurs(u, Redact(s, texts)) { OutputOccurrence(sc, PLACEHOLDER, u); }
    }
  }

  lemma RedactCleans(s: string, texts: seq<Original>, u: string)
    requires NulFreeTexts(texts) && u in texts && !Touches(u, PLACEHOLDER) && forall t :: t in texts ==> !Exposes(t, u)
    ensures !Occurs(u, Redact(s, texts))
  {
    var k :| 0 <= k < |texts| && texts[k] == u;
    RedactCleansAt(s, texts, k, u);
  }

  /** A text that exposes `u` makes `u` readable in the redaction of `u` itself. */
  lemma ExposedTextReturns(u: Original, t: Original)
    requires NulFree(u) && Exposes(t, u)
    ensures Occurs(u, Redact(u, [u, t]))
  {
    var m, sc := Marker(), Broken(t);
    assert NulFree(WORD);
    ReplaceHit(u, u, m);
    assert m + ReplaceAll(u[|u|..], u, m) == m;
    assert [u, t][1..] == [t] && [t][1..] == [];
    assert Mark(u, [u, t]) == Mark(m, [t]) == ReplaceAll(m, t, m);
    BrokenMeaning(t, WORD, m);
    if KeptHas(SplitOn(WORD, t), WORD) {
      KeptTransitive(SplitOn(WORD, t), t, WORD);
      SplitOnClean(WORD, t);
    }
    assert OccursAt(WORD, WORD, 0);
    PlaceholderFits(sc, WORD);
    BrokenMeaning(t, u, m);
    KeptIsShown(sc, PLACEHOLDER, u);
  }

  /** No part of the word touches the placeholder. */
  lemma WordDoesNotTouch(u: string)
    requires u != [] && Occurs(u, WORD)
    ensures !Touches(u, PLACEHOLDER)
  {
    var i :| OccursAt(u, WORD, i);
    assert forall j :: 0 <= j < |WORD| ==> WORD[j] == '-' || 'a' <= WORD[j] <= 'z';
    assert forall j :: 0 <= j < |PLACEHOLDER| ==> PLACEHOLDER[j] == '[' || PLACEHOLDER[j] == ']' || PLACEHOLDER[j] > 'z';
    forall o | -|u| < o < |PLACEHOLDER| ensures !AgreeAt(u, PLACEHOLDER, o) {
      var j := if o < 0 then -o else 0;
      assert u[j] == WORD[i + j];
      assert 0 <= o + j < |PLACEHOLDER| && u[j] != PLACEHOLDER[o + j];
    }
  }

  /** Exactly which texts the finished redaction removes from every input and among every list
      of texts: those that cannot be read across an edge of the placeholder, and that no text
      leaves readable in a broken marker. */
  lemma RedactCleansExactlyWhen(u: Original)
    requires NulFree(u)
    ensures (forall s, texts: seq<Original> :: NulFreeTexts(texts) && u in texts ==> !Occurs(u, Redact(s, texts)))
            <==> !Touches(u, PLACEHOLDER) && !Exposed(u)
  {
    if Exposed(u) {
      var t :| Exposes(t, u);
      ExposedTextReturns(u, t);
      assert NulFreeTexts([u, t]) && u in [u, t];
    } else if Touches(u, PLACEHOLDER) {
      if Occurs(u, WORD) { WordDoesNotTouch(u); }
      var s, texts := TouchingTextCanReturn(u);
    } else {
      forall s, texts: seq<Original> | NulFreeTexts(texts) && u in texts ensures !Occurs(u, Redact(s, texts)) {
        RedactCleans(s, texts, u);
      }
    }
  }

  /** The same for the lists that the program makes, with longer texts first: now only texts
      that are not longer can expose. */
  lemma SortedRedactCleansExactlyWhen(u: Original)
    requires NulFree(u)
    ensures (forall s, texts: seq<Original> :: NulFreeTexts(texts) && LongestFirst(texts) && u in texts ==> !Occurs(u, Redact(s, texts)))
            <==> !Touches(u, PLACEHOLDER) && !ExposedByShorter(u)
  {
    if ExposedByShorter(u) {
      var t :| Exposes(t, u) && |t| <= |u|;
      ExposedTextReturns(u, t);
      assert NulFreeTexts([u, t]) && LongestFirst([u, t]) && u in [u, t];
    } else if Touches(u, PLACEHOLDER) {
      if Occurs(u, WORD) { WordDoesNotTouch(u); }
      var s, texts := TouchingTextCanReturn(u);
    } else {
      forall s, texts: seq<Original> | NulFreeTexts(texts) && LongestFirst(texts) && u in texts ensures !Occurs(u, Redact(s, texts)) {
        var k :| 0 <= k < |texts| && texts[k] == u;
        RedactCleansAt(s, texts, k, u);
      }
    }
  }

  lemma GovIsExposed() returns (u: Original, t: Original)
    ensures u == "gov" && t == "e" && NulFree(u) && Exposes(t, u)
  {
    u, t := "gov", "e";
    var a, b, c := "m", "mgov-", "xpired";
    assert OccursAt(u, b, 1);
    MiddleIsExposed(a, b, c, t, u);
  }

  /** An input that the program itself can meet: "gov" stays readable next to a placeholder. */
  lemma SortedTextCanReturn() returns (u: Original, texts: seq<Original>)
    ensures u == "gov" && texts == [u, "e"]
    ensures LongestFirst(texts) && NulFreeTexts(texts) && Occurs(u, Redact(u, texts))
  {
    var t;
    u, t := GovIsExposed();
    ExposedTextReturns(u, t);
    texts := [u, t];
  }

  lemma MiddleIsExposed(a: string, b: string, c: string, t: string, u: string)
    requires |t| == 1 && NulFree(t) && t[0] !in a && t[0] !in b && Occurs(u, b) && WORD == a + (t + (b + (t + c)))
    ensures Exposes(t, u)
  {
    SplitFirst(a, b + (t + c), t);
    SplitFirst(b, c, t);
    assert WORD[|a|..|a| + 1] == t;
    assert OccursAt(t, WORD, |a|);
  }

  /** The first cut comes where `t` first stands. */
  lemma {:induction false} SplitFirst(k: string, rest: string, t: string)
    requires |t| == 1 && t[0] !in k
    ensures SplitOn(k + (t + rest), t) == Cut(k, t, SplitOn(rest, t))
  {
    var s := k + (t + rest);
    if k == [] {
      assert s[..1] == t && s[1..] == rest;
    } else {
      assert s[..1][0] != t[0] && s[1..] == k[1..] + (t + rest);
      SplitFirst(k[1..], rest, t);
      assert [k[0]] + k[1..] == k;
    }
  }
}
