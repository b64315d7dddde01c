/** Retention redaction of stored text (internal/core/direct_retention.go): every expired
    original is replaced by a NUL-delimited marker, and the markers then become a visible
    placeholder. The substring theory lives in `Substrings`; `Redaction` states what the
    repeated replacement achieves and lifts it over the JSON walk. */
module Substrings {

  ghost predicate OccursAt(u: string, s: string, i: int) {
    0 <= i && i + |u| <= |s| && s[i..i + |u|] == u
  }

  ghost predicate Occurs(u: string, s: string) {
    exists i :: OccursAt(u, s, i)
  }

  /** `strings.ReplaceAll` for a non-empty `t`: leftmost, non-overlapping. */
  function ReplaceAll(s: string, t: string, m: string): string
    requires t != []
  {
    if |s| < |t| then s
    else if s[..|t|] == t then m + ReplaceAll(s[|t|..], t, m)
    else [s[0]] + ReplaceAll(s[1..], t, m)
  }

  /** A text cut into kept pieces with one removed piece between each two of them. */
  datatype Script = End(keep: string) | Cut(keep: string, gone: string, rest: Script)

  ghost function Input(sc: Script): string {
    match sc
    case End(k) => k
    case Cut(k, g, r) => k + g + Input(r)
  }

  ghost function Output(sc: Script, m: string): string {
    match sc
    case End(k) => k
    case Cut(k, g, r) => k + m + Output(r, m)
  }

  ghost predicate GoneIn(sc: Script, texts: set<string>) {
    match sc
    case End(_) => true
    case Cut(_, g, r) => g in texts && GoneIn(r, texts)
  }

  /** Whether some kept piece contains `u`. */
  ghost predicate KeptHas(sc: Script, u: string) {
    match sc
    case End(k) => Occurs(u, k)
    case Cut(k, _, r) => Occurs(u, k) || KeptHas(r, u)
  }

  ghost function Push(c: char, sc: Script): Script {
    sc.(keep := [c] + sc.keep)
  }

  /** The cuts that one `ReplaceAll` pass makes. */
  ghost function SplitOn(s: string, t: string): Script
    requires t != []
  {
    if |s| < |t| then End(s)
    else if s[..|t|] == t then Cut("", t, SplitOn(s[|t|..], t))
    else Push(s[0], SplitOn(s[1..], t))
  }

  ghost function Append(front: Script, gone: string, back: Script): Script {
    match front
    case End(k) => Cut(k, gone, back)
    case Cut(k, g, r) => Cut(k, g, Append(r, gone, back))
  }

  /** Cuts every kept piece again, by `t`. */
  ghost function Refine(sc: Script, t: string): Script
    requires t != []
  {
    match sc
    case End(k) => SplitOn(k, t)
    case Cut(k, g, r) => Append(SplitOn(k, t), g, Refine(r, t))
  }

  /** `u` and `p` agree wherever they overlap, for some placement that overlaps. */
  ghost predicate Touches(u: string, p: string) {
    exists o: int :: AgreeAt(u, p, o)
  }

  ghost predicate AgreeAt(u: string, p: string, o: int) {
    -|u| < o < |p| && forall j :: 0 <= j < |u| && 0 <= o + j < |p| ==> u[j] == p[o + j]
  }

  /** The parts of `u` that stick out on the left and on the right of `p`, placed at `o`. */
  ghost function Before(u: string, o: int): string {
    if -|u| <= o < 0 then u[..-o] else ""
  }

  ghost function After(u: string, p: string, o: int): string {
    if |p| - |u| < o <= |p| then u[|p| - o..] else ""
  }

  lemma TouchingIsShown(u: string, p: string, o: int)
    requires AgreeAt(u, p, o) && u != []
    ensures |Before(u, o)| < |u| && |After(u, p, o)| < |u|
    ensures Occurs(u, Before(u, o) + p + After(u, p, o))
  {
    var x, y := Before(u, o), After(u, p, o);
    var shown := x + p + y;
    var at := o + |x|;
    forall j | 0 <= j < |u| ensures shown[at + j] == u[j] { }
    assert shown[at..at + |u|] == u;
    assert OccursAt(u, shown, at);
  }

  lemma OccursInSlice(u: string, s: string, lo: int, hi: int)
    requires 0 <= lo <= hi <= |s| && Occurs(u, s[lo..hi])
    ensures Occurs(u, s)
  {
    OccursInPart(u, s[..lo], s[lo..hi], s[hi..]);
    assert s[..lo] + s[lo..hi] + s[hi..] == s;
  }

  lemma OccursInPart(u: string, a: string, s: string, b: string)
    requires Occurs(u, s)
    ensures Occurs(u, a + s + b)
  {
    var i :| OccursAt(u, s, i);
    assert (a + s + b)[|a| + i..|a| + i + |u|] == s[i..i + |u|];
    assert OccursAt(u, a + s + b, |a| + i);
  }

  lemma OccursTransitive(u: string, w: string, s: string)
    requires Occurs(u, w) && Occurs(w, s)
    ensures Occurs(u, s)
  {
    var i :| OccursAt(w, s, i);
    OccursInPart(u, s[..i], w, s[i + |w|..]);
    assert s[..i] + w + s[i + |w|..] == s;
  }

  lemma {:induction false} KeptTransitive(sc: Script, u: string, w: string)
    requires Occurs(u, w) && KeptHas(sc, w)
    ensures KeptHas(sc, u)
  {
    if Occurs(w, sc.keep) { OccursTransitive(u, w, sc.keep); } else { KeptTransitive(sc.rest, u, w); }
  }

  /** What a kept piece contains can be read in the output. */
  lemma {:induction false} KeptIsShown(sc: Script, m: string, u: string)
    requires KeptHas(sc, u)
    ensures Occurs(u, Output(sc, m))
  {
    var tail := if sc.Cut? then m + Output(sc.rest, m) else "";
    assert Output(sc, m) == "" + sc.keep + tail;
    if Occurs(u, sc.keep) {
      OccursInPart(u, "", sc.keep, tail);
    } else {
      KeptIsShown(sc.rest, m, u);
      OccursInPart(u, sc.keep + m, Output(sc.rest, m), "");
      assert sc.keep + m + Output(sc.rest, m) + "" == Output(sc, m);
    }
  }

  lemma PushScript(c: char, sc: Script, m: string, texts: set<string>)
    ensures Input(Push(c, sc)) == [c] + Input(sc)
    ensures Output(Push(c, sc), m) == [c] + Output(sc, m)
    ensures GoneIn(Push(c, sc), texts) == GoneIn(sc, texts)
  {
  }

  /** `SplitOn` accounts for what went in ... */
  lemma {:induction false} SplitOnInput(s: string, t: string)
    requires t != []
    ensures Input(SplitOn(s, t)) == s && GoneIn(SplitOn(s, t), {t})
  {
    if |s| < |t| {
    } else if s[..|t|] == t {
      SplitOnInput(s[|t|..], t);
      assert "" + t + s[|t|..] == s;
    } else {
      SplitOnInput(s[1..], t);
      PushScript(s[0], SplitOn(s[1..], t), "", {t});
    }
  }

  /** ... and for what came out. */
  lemma {:induction false} SplitOnOutput(s: string, t: string, m: string)
    requires t != []
    ensures Output(SplitOn(s, t), m) == ReplaceAll(s, t, m)
  {
    if |s| < |t| {
    } else if s[..|t|] == t {
      SplitOnOutput(s[|t|..], t, m);
      assert "" + m + ReplaceAll(s[|t|..], t, m) == m + ReplaceAll(s[|t|..], t, m);
    } else {
      SplitOnOutput(s[1..], t, m);
      PushScript(s[0], SplitOn(s[1..], t), m, {});
    }
  }

  /** The first kept piece is a prefix of the text. */
  lemma {:induction false} FirstKeepIsPrefix(s: string, t: string)
    requires t != []
    ensures SplitOn(s, t).keep <= s
  {
    if |s| >= |t| && s[..|t|] != t {
      FirstKeepIsPrefix(s[1..], t);
    }
  }

  /** One pass leaves the replaced text in none of the kept pieces. */
  lemma {:induction false} SplitOnClean(s: string, t: string)
    requires t != []
    ensures !KeptHas(SplitOn(s, t), t)
  {
    if |s| < |t| {
    } else if s[..|t|] == t {
      SplitOnClean(s[|t|..], t);
    } else {
      var tail := SplitOn(s[1..], t);
      SplitOnClean(s[1..], t);
      FirstKeepIsPrefix(s[1..], t);
      var k := [s[0]] + tail.keep;
      assert k <= s;
      forall i ensures !OccursAt(t, k, i) {
        if OccursAt(t, k, i) {
          if i != 0 {
            assert tail.keep[i - 1..i - 1 + |t|] == k[i..i + |t|];
            assert OccursAt(t, tail.keep, i - 1);
          }
        }
      }
    }
  }

  lemma {:induction false} AppendScript(front: Script, gone: string, back: Script, m: string, texts: set<string>, u: string)
    ensures Input(Append(front, gone, back)) == Input(front) + gone + Input(back)
    ensures Output(Append(front, gone, back), m) == Output(front, m) + m + Output(back, m)
    ensures GoneIn(Append(front, gone, back), texts) == (GoneIn(front, texts) && gone in texts && GoneIn(back, texts))
    ensures KeptHas(Append(front, gone, back), u) == (KeptHas(front, u) || KeptHas(back, u))
  {
    if front.Cut? {
      AppendScript(front.rest, gone, back, m, texts, u);
    }
  }

  /** A kept piece of a split is part of the text that was split. */
  lemma {:induction false} SplitKeepsParts(s: string, t: string, u: string)
    requires t != [] && KeptHas(SplitOn(s, t), u)
    ensures Occurs(u, s)
  {
    if |s| >= |t| {
      var n := if s[..|t|] == t then |t| else 1;
      var tail := SplitOn(s[n..], t);
      FirstKeepIsPrefix(s, t);
      if Occurs(u, SplitOn(s, t).keep) {
        assert s[0..|SplitOn(s, t).keep|] == SplitOn(s, t).keep;
        OccursInSlice(u, s, 0, |SplitOn(s, t).keep|);
      } else {
        SplitKeepsParts(s[n..], t, u);
        assert s[n..|s|] == s[n..];
        OccursInSlice(u, s, n, |s|);
      }
    }
  }

  /** An occurrence in the output lies in one kept piece or touches a copy of `m`. */
  lemma {:induction false} OutputOccurrence(sc: Script, m: string, u: string)
    requires Occurs(u, Output(sc, m)) && m != [] && u != []
    ensures KeptHas(sc, u) || Touches(u, m)
  {
    if sc.Cut? {
      var k, r := sc.keep, Output(sc.rest, m);
      var s := k + m + r;
      var i :| OccursAt(u, s, i);
      if i + |u| <= |k| {
        assert k[i..i + |u|] == s[i..i + |u|];
        assert OccursAt(u, k, i);
      } else if i >= |k| + |m| {
        assert r[i - |k| - |m|..i - |k| - |m| + |u|] == s[i..i + |u|];
        assert OccursAt(u, r, i - |k| - |m|);
        OutputOccurrence(sc.rest, m, u);
      } else {
        var o := i - |k|;
        forall j | 0 <= j < |u| && 0 <= o + j < |m| ensures u[j] == m[o + j] {
          assert u[j] == s[i..i + |u|][j] == s[i + j];
        }
        assert AgreeAt(u, m, o);
      }
    }
  }

  /** A replacement can introduce `u` only where `u` touches the replacement text. */
  lemma ReplaceIntroducesOnlyTouching(s: string, t: string, m: string, u: string)
    requires t != [] && m != [] && u != []
    requires Occurs(u, ReplaceAll(s, t, m))
    ensures Occurs(u, s) || Touches(u, m)
  {
    SplitOnOutput(s, t, m);
    if KeptHas(SplitOn(s, t), u) {
      SplitKeepsParts(s, t, u);
    }
    OutputOccurrence(SplitOn(s, t), m, u);
  }

  /** A text without `t` is returned unchanged. */
  lemma {:induction false} ReplaceAbsent(s: string, t: string, m: string)
    requires t != [] && !Occurs(t, s)
    ensures ReplaceAll(s, t, m) == s
  {
    if |s| >= |t| {
      if s[..|t|] == t { assert OccursAt(t, s, 0); }
      assert [s[0]] + s[1..] + "" == s;
      if Occurs(t, s[1..]) { OccursInPart(t, [s[0]], s[1..], ""); }
      ReplaceAbsent(s[1..], t, m);
    }
  }

  /** A text with `t` ends up holding a whole copy of the replacement. */
  lemma {:induction false} ReplacePresent(s: string, t: string, m: string)
    requires t != [] && Occurs(t, s)
    ensures Occurs(m, ReplaceAll(s, t, m))
  {
    var i :| OccursAt(t, s, i);
    var r := ReplaceAll(s, t, m);
    if s[..|t|] == t {
      assert r[0..|m|] == m;
      assert OccursAt(m, r, 0);
    } else {
      assert i != 0;
      assert s[1..][i - 1..i - 1 + |t|] == s[i..i + |t|];
      assert OccursAt(t, s[1..], i - 1);
      ReplacePresent(s[1..], t, m);
      OccursInPart(m, [s[0]], ReplaceAll(s[1..], t, m), "");
      assert [s[0]] + ReplaceAll(s[1..], t, m) + "" == r;
    }
  }

  /** `t` does not start in the first `n` characters of `s`. */
  ghost predicate NoStartWithin(t: string, s: string, n: nat) {
    forall j :: 0 <= j < n <= |s| ==> !(t <= s[j..])
  }

  lemma NoStartLater(t: string, s: string, n: nat, k: nat)
    requires NoStartWithin(t, s, n) && k <= n <= |s|
    ensures NoStartWithin(t, s[k..], n - k)
  {
  }

  lemma ReplaceStep(s: string, t: string, m: string)
    requires s != [] && t != [] && !(t <= s)
    ensures ReplaceAll(s, t, m) == [s[0]] + ReplaceAll(s[1..], t, m)
  {
  }

  /** A stretch in which `t` cannot start is copied as it is. */
  lemma {:induction false} ReplaceSkips(w: string, rest: string, t: string, m: string)
    requires t != [] && NoStartWithin(t, w + rest, |w|)
    ensures ReplaceAll(w + rest, t, m) == w + ReplaceAll(rest, t, m)
  {
    var s := w + rest;
    if w == [] {
      assert s == rest;
    } else {
      assert s[0..] == s && s[1..] == w[1..] + rest;
      NoStartLater(t, s, |w|, 1);
      ReplaceSkips(w[1..], rest, t, m);
      ReplaceStep(s, t, m);
    }
  }

  /** A text `v` that does not start earlier is found right after the prefix `x`. */
  lemma ReplaceAfterPrefix(x: string, v: string, y: string, m: string)
    requires v != [] && NoStartWithin(v, x + v + y, |x|)
    ensures ReplaceAll(x + v + y, v, m) == x + m + ReplaceAll(y, v, m)
  {
    assert x + v + y == x + (v + y);
    ReplaceSkips(x, v + y, v, m);
    assert (v + y)[..|v|] == v && (v + y)[|v|..] == y;
  }

  /** `t` starts nowhere in `k` from where it would reach beyond `k`. */
  ghost predicate StaysInside(t: string, k: string, beyond: string) {
    forall j :: 0 <= j < |k| && |k| - j < |t| ==> !(t <= k[j..] + beyond)
  }

  lemma StaysInsideLater(t: string, k: string, beyond: string, n: nat)
    requires StaysInside(t, k, beyond) && n <= |k|
    ensures StaysInside(t, k[n..], beyond)
  {
  }

  lemma ReplaceHit(s: string, t: string, m: string)
    requires t != [] && t <= s
    ensures ReplaceAll(s, t, m) == m + ReplaceAll(s[|t|..], t, m)
  {
  }

  lemma StartsInFront(t: string, k: string, beyond: string)
    requires k != [] && StaysInside(t, k, beyond) && t <= k + beyond
    ensures t <= k
  {
    assert k[0..] == k;
    if |t| <= |k| { assert (k + beyond)[..|t|] == k[..|t|]; }
  }

  lemma AcrossHit(k: string, beyond: string, done: string, t: string, m: string)
    requires t != [] && t <= k && ReplaceAll(k[|t|..] + beyond, t, m) == ReplaceAll(k[|t|..], t, m) + done
    ensures ReplaceAll(k + beyond, t, m) == ReplaceAll(k, t, m) + done
  {
    assert (k + beyond)[|t|..] == k[|t|..] + beyond && t <= k + beyond;
    ReplaceHit(k + beyond, t, m);
    ReplaceHit(k, t, m);
    var r := ReplaceAll(k[|t|..], t, m);
    assert m + (r + done) == (m + r) + done;
  }

  lemma AcrossMiss(k: string, beyond: string, done: string, t: string, m: string)
    requires k != [] && t != [] && !(t <= k + beyond)
    requires ReplaceAll(k[1..] + beyond, t, m) == ReplaceAll(k[1..], t, m) + done
    ensures ReplaceAll(k + beyond, t, m) == ReplaceAll(k, t, m) + done
  {
    assert (k + beyond)[1..] == k[1..] + beyond;
    ReplaceStep(k + beyond, t, m);
    ReplaceStep(k, t, m);
    var r := ReplaceAll(k[1..], t, m);
    assert [k[0]] + (r + done) == ([k[0]] + r) + done;
  }

  /** A barrier that `t` neither starts in nor reaches into splits a replacement in two. */
  lemma {:induction false} ReplaceAcross(k: string, beyond: string, done: string, t: string, m: string)
    requires t != [] && StaysInside(t, k, beyond) && ReplaceAll(beyond, t, m) == done
    ensures ReplaceAll(k + beyond, t, m) == ReplaceAll(k, t, m) + done
  {
    if k == [] {
      assert k + beyond == beyond;
    } else if t <= k {
      StaysInsideLater(t, k, beyond, |t|);
      ReplaceAcross(k[|t|..], beyond, done, t, m);
      AcrossHit(k, beyond, done, t, m);
    } else {
      StaysInsideLater(t, k, beyond, 1);
      ReplaceAcross(k[1..], beyond, done, t, m);
      if t <= k + beyond { StartsInFront(t, k, beyond); }
      AcrossMiss(k, beyond, done, t, m);
    }
  }
}
