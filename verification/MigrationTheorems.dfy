module MigrationTheorems {
  import opened MigrationModel
  import opened Texts

  // ---- Exactly the retired settings go ----

  lemma EntriesStep(es: seq<Entry>, i: nat, path: seq<string>, skill: string -> bool)
    requires i < |es|
    ensures PruneEntries(es[i..], path, skill) == PruneEntry(es[i], path, skill) + PruneEntries(es[i + 1..], path, skill)
    ensures HomesOfEntries(es[i..], path, skill) == HomesOfEntry(es[i], path, skill) + HomesOfEntries(es[i + 1..], path, skill)
    ensures es[..i + 1] == es[..i] + [es[i]]
  {
  }

  lemma ItemsStep(items: seq<Node>, i: nat, path: seq<string>, list: List, skill: string -> bool)
    requires i < |items|
    ensures PruneItems(items[i..], path, list, skill) == PruneItem(items[i], path, list, skill) + PruneItems(items[i + 1..], path, list, skill)
    ensures HomesOfItems(items[i..], path, list, skill) == HomesOfItem(items[i], path, list, skill) + HomesOfItems(items[i + 1..], path, list, skill)
    ensures items[..i + 1] == items[..i] + [items[i]]
  {
  }

  ghost predicate Increasing(at: seq<nat>, low: nat, high: nat) {
    (forall i :: 0 <= i < |at| ==> low <= at[i] < high) && forall i, j :: 0 <= i < j < |at| ==> at[i] < at[j]
  }

  /** The positions from `from` on that are marked to stay. */
  function Where(stays: seq<bool>, from: nat): seq<nat>
    requires from <= |stays|
    decreases |stays| - from
  {
    if from == |stays| then [] else (if stays[from] then [from] else []) + Where(stays, from + 1)
  }

  lemma {:induction false} WhereFits(stays: seq<bool>, from: nat)
    requires from <= |stays|
    ensures Increasing(Where(stays, from), from, |stays|)
    ensures forall j :: from <= j < |stays| ==> (j in Where(stays, from) <==> stays[j])
    decreases |stays| - from
  {
    if from < |stays| {
      WhereFits(stays, from + 1);
      forall j | from <= j < |stays| ensures j in Where(stays, from) <==> stays[j] {
        assert j in Where(stays, from) <==> j in Where(stays, from + 1) || (j == from && stays[from]);
      }
    }
  }

  function EntriesThatStay(es: seq<Entry>, path: seq<string>): seq<bool> {
    seq(|es|, i requires 0 <= i < |es| => !Retired(path, es[i].key))
  }

  lemma {:induction false} EntriesAt(es: seq<Entry>, from: nat, path: seq<string>, skill: string -> bool)
    requires from <= |es|
    ensures var at, out := Where(EntriesThatStay(es, path), from), PruneEntries(es[from..], path, skill);
            |out| == |at| && forall i :: 0 <= i < |at| ==> at[i] < |es| && [out[i]] == PruneEntry(es[at[i]], path, skill)
    decreases |es| - from
  {
    if from < |es| {
      EntriesAt(es, from + 1, path, skill);
      EntriesStep(es, from, path, skill);
    }
  }

  /** The entries that stay are exactly those that are not retired, in their order, each with
      what stays of its value. */
  lemma EntriesKeptInOrder(es: seq<Entry>, path: seq<string>, skill: string -> bool) returns (at: seq<nat>)
    ensures var out := PruneEntries(es, path, skill);
            && Increasing(at, 0, |es|) && |out| == |at|
            && (forall i :: 0 <= i < |at| ==> [out[i]] == PruneEntry(es[at[i]], path, skill))
            && (forall j :: 0 <= j < |es| ==> (j in at <==> !Retired(path, es[j].key)))
  {
    at := Where(EntriesThatStay(es, path), 0);
    WhereFits(EntriesThatStay(es, path), 0);
    EntriesAt(es, 0, path, skill);
    assert es[0..] == es;
  }

  function ItemsThatStay(items: seq<Node>, list: List, skill: string -> bool): seq<bool> {
    seq(|items|, i requires 0 <= i < |items| => !Dropped(items[i], list, skill))
  }

  lemma {:induction false} ItemsAt(items: seq<Node>, from: nat, path: seq<string>, list: List, skill: string -> bool)
    requires from <= |items|
    ensures var at, out := Where(ItemsThatStay(items, list, skill), from), PruneItems(items[from..], path, list, skill);
            |out| == |at| && forall i :: 0 <= i < |at| ==> at[i] < |items| && [out[i]] == PruneItem(items[at[i]], path, list, skill)
    decreases |items| - from
  {
    if from < |items| {
      ItemsAt(items, from + 1, path, list, skill);
      ItemsStep(items, from, path, list, skill);
    }
  }

  /** The same for the items of a list. */
  lemma ItemsKeptInOrder(items: seq<Node>, path: seq<string>, list: List, skill: string -> bool) returns (at: seq<nat>)
    ensures var out := PruneItems(items, path, list, skill);
            && Increasing(at, 0, |items|) && |out| == |at|
            && (forall i :: 0 <= i < |at| ==> [out[i]] == PruneItem(items[at[i]], path, list, skill))
            && (forall j :: 0 <= j < |items| ==> (j in at <==> !Dropped(items[j], list, skill)))
  {
    at := Where(ItemsThatStay(items, list, skill), 0);
    WhereFits(ItemsThatStay(items, list, skill), 0);
    ItemsAt(items, 0, path, list, skill);
    assert items[0..] == items;
  }

  // ---- The second pass ----

  lemma {:induction false} PruneCleans(n: Node, path: seq<string>, list: List, skill: string -> bool)
    ensures Clean(Prune(n, path, list, skill), path, list, skill)
    ensures Accepts(n, path, list, skill) ==> Accepts(Prune(n, path, list, skill), path, list, skill)
    ensures TextOf(Prune(n, path, list, skill)) == TextOf(n)
    decreases n
  {
    match n
    case Mapping(es) =>
      var at := EntriesKeptInOrder(es, path, skill);
      var out := PruneEntries(es, path, skill);
      forall i | 0 <= i < |out|
        ensures !Retired(path, out[i].key) && Clean(out[i].value, path + [out[i].key], ListAt(path, out[i].key), skill)
        ensures Accepts(n, path, list, skill) ==> EntryOk(out[i], path, skill) {
        assert at[i] in at && [out[i]] == PruneEntry(es[at[i]], path, skill);
        assert out[i].key == es[at[i]].key;
        PruneCleans(es[at[i]].value, path + [es[at[i]].key], ListAt(path, es[at[i]].key), skill);
        assert Accepts(n, path, list, skill) ==> EntryOk(es[at[i]], path, skill);
      }
      if Accepts(n, path, list, skill) {
        forall i, j | 0 <= i < j < |out| ensures out[i].key != out[j].key {
          assert [out[i]] == PruneEntry(es[at[i]], path, skill) && [out[j]] == PruneEntry(es[at[j]], path, skill);
          assert out[i].key == es[at[i]].key && out[j].key == es[at[j]].key && at[i] < at[j];
        }
      }
    case Sequence(items) =>
      var at := ItemsKeptInOrder(items, path, list, skill);
      var out := PruneItems(items, path, list, skill);
      forall i | 0 <= i < |out|
        ensures !Dropped(out[i], list, skill) && Clean(out[i], path, Plain, skill)
        ensures Accepts(n, path, list, skill) ==> ItemOk(out[i], path, list, skill) {
        assert at[i] in at && [out[i]] == PruneItem(items[at[i]], path, list, skill);
        PruneCleans(items[at[i]], path, Plain, skill);
        assert Accepts(n, path, list, skill) ==> ItemOk(items[at[i]], path, list, skill);
      }
    case _ =>
  }

  lemma {:induction false} CleanStays(n: Node, path: seq<string>, list: List, skill: string -> bool)
    requires Clean(n, path, list, skill)
    ensures Prune(n, path, list, skill) == n && Homes(n, path, list, skill) == []
    decreases n, 1, 0
  {
    match n
    case Mapping(es) => CleanEntriesStay(n, es, 0, path, list, skill); assert es[0..] == es;
    case Sequence(items) => CleanItemsStay(n, items, 0, path, list, skill); assert items[0..] == items;
    case _ =>
  }

  lemma {:induction false} CleanEntriesStay(n: Node, es: seq<Entry>, from: nat, path: seq<string>, list: List, skill: string -> bool)
    requires n == Mapping(es) && Clean(n, path, list, skill) && from <= |es|
    ensures PruneEntries(es[from..], path, skill) == es[from..] && HomesOfEntries(es[from..], path, skill) == []
    decreases n, 0, |es| - from
  {
    if from < |es| {
      assert es[from..][0] == es[from] && es[from..][1..] == es[from + 1..];
      CleanStays(es[from].value, path + [es[from].key], ListAt(path, es[from].key), skill);
      CleanEntriesStay(n, es, from + 1, path, list, skill);
    }
  }

  lemma {:induction false} CleanItemsStay(n: Node, items: seq<Node>, from: nat, path: seq<string>, list: List, skill: string -> bool)
    requires n == Sequence(items) && Clean(n, path, list, skill) && from <= |items|
    ensures PruneItems(items[from..], path, list, skill) == items[from..] && HomesOfItems(items[from..], path, list, skill) == []
    decreases n, 0, |items| - from
  {
    if from < |items| {
      assert items[from..][0] == items[from] && items[from..][1..] == items[from + 1..];
      CleanStays(items[from], path, Plain, skill);
      CleanItemsStay(n, items, from + 1, path, list, skill);
    }
  }

  /** The migration leaves a tree alone exactly when nothing in it is retired. */
  lemma UnchangedExactlyWhenClean(n: Node, path: seq<string>, list: List, skill: string -> bool)
    ensures Prune(n, path, list, skill) == n <==> Clean(n, path, list, skill)
  {
    PruneCleans(n, path, list, skill);
    if Clean(n, path, list, skill) { CleanStays(n, path, list, skill); }
  }

  /** A second pass accepts what the first one made, changes nothing and finds no home. */
  lemma SecondPassIsQuiet(n: Node, skill: string -> bool)
    requires Accepts(n, [], Plain, skill)
    ensures var t := Prune(n, [], Plain, skill);
            Accepts(t, [], Plain, skill) && Prune(t, [], Plain, skill) == t && Homes(t, [], Plain, skill) == []
  {
    PruneCleans(n, [], Plain, skill);
    CleanStays(Prune(n, [], Plain, skill), [], Plain, skill);
  }

  // ---- Other sections ----

  predicate Elsewhere(path: seq<string>) {
    path != [] && '/' !in path[0]
    && path[0] != "agents" && path[0] != "channels" && path[0] != "applications" && path[0] != "runtime_setup"
  }

  lemma FirstPart(path: seq<string>, first: string, rest: string)
    requires path != [] && '/' !in path[0] && '/' !in first && Join(path, '/') == first + ['/'] + rest
    ensures path[0] == first
  {
    assert |path| > 1 by { assert Join(path, '/')[|first|] == '/'; }
    CutFinds(first, '/', rest);
    CutFinds(path[0], '/', Join(path[1..], '/'));
  }

  lemma NotUnder(path: seq<string>, first: string, rest: string, text: string)
    requires path != [] && '/' !in path[0] && '/' !in first && path[0] != first && text == first + ['/'] + rest
    ensures Join(path, '/') != text
  {
    if Join(path, '/') == text { FirstPart(path, first, rest); }
  }

  lemma NotAlone(path: seq<string>, text: string)
    requires path != [] && '/' !in path[0] && '/' !in text && path[0] != text
    ensures Join(path, '/') != text
  {
  }

  lemma ElsewhereKeepsAll(path: seq<string>, key: string)
    requires Elsewhere(path)
    ensures !Retired(path, key) && ListAt(path, key) == Plain
  {
    NotUnder(path, "channels", "route", "channels/route");
    NotUnder(path, "applications", "group_mention", "applications/group_mention");
    NotUnder(path, "applications", "proactive", "applications/proactive");
    NotAlone(path, "runtime_setup");
  }

  /** Whatever stands under another top-level key is kept as it is. */
  lemma {:induction false} OtherSectionsUntouched(n: Node, path: seq<string>, skill: string -> bool)
    requires Elsewhere(path)
    ensures Clean(n, path, Plain, skill) && Prune(n, path, Plain, skill) == n
    decreases n
  {
    match n {
      case Mapping(es) =>
        forall i | 0 <= i < |es| ensures !Retired(path, es[i].key) && Clean(es[i].value, path + [es[i].key], ListAt(path, es[i].key), skill) {
          ElsewhereKeepsAll(path, es[i].key);
          OtherSectionsUntouched(es[i].value, path + [es[i].key], skill);
        }
      case Sequence(items) =>
        forall i | 0 <= i < |items| ensures !Dropped(items[i], Plain, skill) && Clean(items[i], path, Plain, skill) {
          OtherSectionsUntouched(items[i], path, skill);
        }
      case _ =>
    }
    CleanStays(n, path, Plain, skill);
  }
}
