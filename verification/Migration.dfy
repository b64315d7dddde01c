module Migration {
  import opened MigrationModel
  import opened MigrationTheorems
  import opened MigrationOutcomes

  /** One pass over a tree. */
  class Pass {
    const skill: string -> bool
    var homes: seq<string>
    var changed: bool

    constructor (skill: string -> bool)
      ensures this.skill == skill && homes == [] && !changed
    {
      this.skill := skill;
      homes, changed := [], false;
    }

    method Visit(n: Node, path: seq<string>, list: List) returns (out: Node, ok: bool)
      modifies this
      ensures ok <==> Accepts(n, path, list, skill)
      ensures ok ==> out == Prune(n, path, list, skill)
      ensures ok ==> homes == old(homes) + Homes(n, path, list, skill)
      ensures ok ==> (changed <==> old(changed) || out != n)
      decreases n, 1
    {
      out, ok := n, true;
      match n {
        case Alias(_) => ok := false;
        case Mapping(es) =>
          var kept;
          kept, ok := VisitEntries(n, es, path);
          out := Mapping(kept);
        case Sequence(items) =>
          var kept;
          kept, ok := VisitItems(n, items, path, list);
          out := Sequence(kept);
        case Scalar(_, _) =>
      }
    }

    method VisitEntry(e: Entry, path: seq<string>) returns (kept: seq<Entry>, ok: bool)
      modifies this
      ensures ok <==> EntryOk(e, path, skill)
      ensures ok ==> kept == PruneEntry(e, path, skill) && homes == old(homes) + HomesOfEntry(e, path, skill)
      ensures ok ==> (changed <==> old(changed) || kept != [e])
      decreases e, 2
    {
      kept, ok := [], true;
      if AgentField(path) && e.key == "home" {
        if !(e.value.Scalar? && e.value.isText) { return [], false; }
        homes := homes + [e.value.value];
        changed := true;
      } else if Retired(path, e.key) {
        changed := true;
      } else {
        var value;
        value, ok := Visit(e.value, path + [e.key], ListAt(path, e.key));
        kept := [Entry(e.key, value)];
      }
    }

    method VisitEntries(ghost n: Node, es: seq<Entry>, path: seq<string>) returns (out: seq<Entry>, ok: bool)
      requires n == Mapping(es)
      modifies this
      ensures ok <==> Accepts(n, path, Plain, skill)
      ensures ok ==> out == PruneEntries(es, path, skill)
      ensures ok ==> homes == old(homes) + HomesOfEntries(es, path, skill)
      ensures ok ==> (changed <==> old(changed) || out != es)
      decreases n, 0
    {
      out := [];
      var seen := {};
      for i := 0 to |es|
        invariant seen == KeysTo(es, i) && DistinctTo(es, i)
        invariant forall j :: 0 <= j < i ==> EntryOk(es[j], path, skill)
        invariant PruneEntries(es, path, skill) == out + PruneEntries(es[i..], path, skill)
        invariant old(homes) + HomesOfEntries(es, path, skill) == homes + HomesOfEntries(es[i..], path, skill)
        invariant |out| <= i && (changed <==> old(changed) || out != es[..i])
      {
        EntriesStep(es, i, path, skill);
        KeysStep(es, i);
        ghost var before := homes;
        if es[i].key in seen { return out, false; }
        seen := seen + {es[i].key};
        var kept, good := VisitEntry(es[i], path);
        if !good { return out, false; }
        Pieces(out, kept, es[..i], es[i]);
        Regroup(out, kept, PruneEntries(es[i + 1..], path, skill));
        Regroup(before, HomesOfEntry(es[i], path, skill), HomesOfEntries(es[i + 1..], path, skill));
        out := out + kept;
      }
      assert es[..|es|] == es && es[|es|..] == [];
      ok := true;
    }

    method VisitItem(n: Node, path: seq<string>, list: List) returns (kept: seq<Node>, ok: bool)
      modifies this
      ensures ok <==> ItemOk(n, path, list, skill)
      ensures ok ==> kept == PruneItem(n, path, list, skill) && homes == old(homes) + HomesOfItem(n, path, list, skill)
      ensures ok ==> (changed <==> old(changed) || kept != [n])
      decreases n, 2
    {
      kept, ok := [], true;
      if (list == Capabilities && TextOf(n) == "memory_read") || (list == SkillPaths && skill(TextOf(n))) {
        changed := true;
      } else {
        var item;
        item, ok := Visit(n, path, Plain);
        kept := [item];
      }
    }

    method VisitItems(ghost n: Node, items: seq<Node>, path: seq<string>, list: List) returns (out: seq<Node>, ok: bool)
      requires n == Sequence(items)
      modifies this
      ensures ok <==> Accepts(n, path, list, skill)
      ensures ok ==> out == PruneItems(items, path, list, skill)
      ensures ok ==> homes == old(homes) + HomesOfItems(items, path, list, skill)
      ensures ok ==> (changed <==> old(changed) || out != items)
      decreases n, 0
    {
      out := [];
      for i := 0 to |items|
        invariant forall j :: 0 <= j < i ==> ItemOk(items[j], path, list, skill)
        invariant PruneItems(items, path, list, skill) == out + PruneItems(items[i..], path, list, skill)
        invariant old(homes) + HomesOfItems(items, path, list, skill) == homes + HomesOfItems(items[i..], path, list, skill)
        invariant |out| <= i && (changed <==> old(changed) || out != items[..i])
      {
        ItemsStep(items, i, path, list, skill);
        ghost var before := homes;
        var kept, good := VisitItem(items[i], path, list);
        if !good { return out, false; }
        Pieces(out, kept, items[..i], items[i]);
        Regroup(out, kept, PruneItems(items[i + 1..], path, list, skill));
        Regroup(before, HomesOfItem(items[i], path, list, skill), HomesOfItems(items[i + 1..], path, list, skill));
        out := out + kept;
      }
      assert items[..|items|] == items && items[|items|..] == [];
      ok := true;
    }
  }

  function KeysTo(es: seq<Entry>, i: nat): set<string>
    requires i <= |es|
  {
    set j | 0 <= j < i :: es[j].key
  }

  predicate DistinctTo(es: seq<Entry>, i: nat)
    requires i <= |es|
  {
    forall j, k :: 0 <= j < k < i ==> es[j].key != es[k].key
  }

  lemma KeysStep(es: seq<Entry>, i: nat)
    requires i < |es|
    ensures KeysTo(es, i + 1) == KeysTo(es, i) + {es[i].key}
    ensures DistinctTo(es, i + 1) <==> DistinctTo(es, i) && es[i].key !in KeysTo(es, i)
    ensures Distinct(es) ==> DistinctTo(es, i + 1)
  {
  }

  lemma Regroup<T>(a: seq<T>, b: seq<T>, c: seq<T>)
    ensures a + (b + c) == (a + b) + c
  {
  }

  /** A list grows unlike its source as soon as one piece does. */
  lemma Pieces<T>(out: seq<T>, kept: seq<T>, source: seq<T>, x: T)
    requires |out| <= |source| && |kept| <= 1
    ensures out + kept == source + [x] <==> out == source && kept == [x]
  {
    if out + kept == source + [x] {
      assert |out| == |source| && |kept| == 1;
      assert out == (out + kept)[..|out|] == (source + [x])[..|source|] == source;
      assert kept[0] == (out + kept)[|out|] == x;
    }
  }

  /** Each agent home of the document is listed once, in its place. */
  ghost predicate ListsHomes(n: Node, homes: seq<string>) {
    exists at :: Lists(at, n, [], homes)
  }

  /** The conversion of a whole document; `homes` are the agent homes to archive. */
  method Convert(n: Node, skill: string -> bool) returns (out: Node, homes: seq<string>, changed: bool, ok: bool)
    ensures ok <==> Accepts(n, [], Plain, skill)
    ensures ok <==> !HasBad(n, skill)
    ensures ok ==> out == Prune(n, [], Plain, skill) && homes == Homes(n, [], Plain, skill) && ListsHomes(n, homes)
    ensures ok ==> (changed <==> !Clean(n, [], Plain, skill))
  {
    var pass := new Pass(skill);
    out, ok := pass.Visit(n, [], Plain);
    homes, changed := pass.homes, pass.changed;
    UnchangedExactlyWhenClean(n, [], Plain, skill);
    RefusedExactlyWhenBad(n, skill);
    if ok { var at := EveryHomeReported(n, skill); }
  }
}
