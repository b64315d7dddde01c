/** The history of one path: its newest revisions, kept while the archive is read
    (internal/agentworkspace/workspace.go). */
module WorkspaceHistory {
  import opened WorkspaceModel

  /** One `.json` record and the time at which it was written. */
  datatype Item = Item(name: nat, rev: Revision, at: int)

  const MAX_HISTORY: nat := 100

  function Of(entries: seq<Item>, p: Path): seq<Item> {
    if entries == [] then []
    else Of(entries[..|entries| - 1], p) + if Last(entries).rev.path == p then [Last(entries)] else []
  }

  ghost predicate NewestFirst(items: seq<Item>) {
    forall i, j :: 0 <= i < j < |items| ==> items[i].at >= items[j].at
  }

  /** `rest` is what was left out, and none of it is newer than anything kept. */
  ghost predicate Newest(items: seq<Item>, rest: multiset<Item>, all: seq<Item>) {
    && NewestFirst(items) && multiset(items) + rest == multiset(all)
    && |items| == (if |all| < MAX_HISTORY then |all| else MAX_HISTORY)
    && forall x, i :: x in rest && 0 <= i < |items| ==> x.at <= items[i].at
  }

  ghost predicate AreNewest(items: seq<Item>, all: seq<Item>) {
    exists rest :: Newest(items, rest, all)
  }

  /** The sort after one item was appended to sorted ones. */
  function SortIn(items: seq<Item>, x: Item): seq<Item> {
    if items == [] || items[0].at < x.at then [x] + items else [items[0]] + SortIn(items[1..], x)
  }

  lemma {:induction false} SortKeepsItems(items: seq<Item>, x: Item)
    ensures multiset(SortIn(items, x)) == multiset(items) + multiset{x} && |SortIn(items, x)| == |items| + 1
  {
    if items != [] {
      assert items == [items[0]] + items[1..];
      SortKeepsItems(items[1..], x);
    }
  }

  ghost predicate NoneAbove(items: seq<Item>, at: int) {
    forall i :: 0 <= i < |items| ==> items[i].at <= at
  }

  lemma {:induction false} SortedIn(items: seq<Item>, x: Item, top: int)
    requires NewestFirst(items) && NoneAbove(items, top) && x.at <= top
    ensures NewestFirst(SortIn(items, x)) && NoneAbove(SortIn(items, x), top)
  {
    if items != [] && items[0].at >= x.at {
      assert NoneAbove(items[1..], items[0].at);
      SortedIn(items[1..], x, items[0].at);
    }
  }

  lemma CutKeepsNewest(items: seq<Item>, rest: multiset<Item>, all: seq<Item>, x: Item, sorted: seq<Item>)
    requires Newest(items, rest, all) && |items| == MAX_HISTORY
    requires NewestFirst(sorted) && |sorted| == MAX_HISTORY + 1 && multiset(sorted) == multiset(items) + multiset{x}
    ensures Newest(sorted[..MAX_HISTORY], rest + multiset{sorted[MAX_HISTORY]}, all + [x])
  {
    var kept, last := sorted[..MAX_HISTORY], sorted[MAX_HISTORY];
    assert sorted == kept + [last];
    assert multiset(kept) + multiset{last} == multiset(items) + multiset{x};
    Move(multiset(kept), multiset{last}, multiset(items), multiset{x}, rest);
    assert multiset(all + [x]) == multiset(all) + multiset{x};
    forall y, i | y in rest + multiset{last} && 0 <= i < |kept| ensures y.at <= kept[i].at {
      assert last.at <= kept[i].at;
      if y in rest { Below(items, rest, y, x, kept, last, i); }
    }
  }

  lemma Move(a: multiset<Item>, b: multiset<Item>, c: multiset<Item>, d: multiset<Item>, r: multiset<Item>)
    requires a + b == c + d
    ensures a + (r + b) == (c + r) + d
  {
    forall z ensures (a + (r + b))[z] == ((c + r) + d)[z] { assert (a + b)[z] == (c + d)[z]; }
  }

  lemma Below(items: seq<Item>, rest: multiset<Item>, y: Item, x: Item, kept: seq<Item>, last: Item, i: nat)
    requires y in rest && (forall z, j :: z in rest && 0 <= j < |items| ==> z.at <= items[j].at)
    requires multiset(kept) + multiset{last} == multiset(items) + multiset{x} && i < |kept| && last.at <= kept[i].at
    ensures y.at <= kept[i].at
  {
    if kept[i] in items {
      var j :| 0 <= j < |items| && items[j] == kept[i];
    } else {
      assert kept[i] in multiset(kept) && kept[i] in multiset(items) + multiset{x};
      assert kept[i] == x && multiset(kept)[x] >= 1;
      assert last in items by {
        assert multiset(items)[x] == 0;
        assert last in multiset(items) + multiset{x};
        assert last == x ==> (multiset(kept) + multiset{last})[x] >= 2;
      }
      var j :| 0 <= j < |items| && items[j] == last;
    }
  }

  lemma OneMore(items: seq<Item>, rest: multiset<Item>, all: seq<Item>, x: Item)
    requires Newest(items, rest, all)
    ensures var sorted := SortIn(items, x);
            if |sorted| > MAX_HISTORY then Newest(sorted[..MAX_HISTORY], rest + multiset{sorted[MAX_HISTORY]}, all + [x])
            else Newest(sorted, rest, all + [x])
  {
    var sorted := SortIn(items, x);
    SortKeepsItems(items, x);
    SortedIn(items, x, if items != [] && items[0].at > x.at then items[0].at else x.at);
    if |sorted| > MAX_HISTORY {
      CutKeepsNewest(items, rest, all, x, sorted);
    } else {
      NothingLeftOut(items, rest, all);
      assert multiset(all + [x]) == multiset(all) + multiset{x};
    }
  }

  /** Whatever the order of the directory: the newest revisions of the path, newest first. */
  method History(entries: seq<Item>, p: Path) returns (items: seq<Item>)
    ensures AreNewest(items, Of(entries, p))
  {
    items := [];
    ghost var rest := multiset{};
    for k := 0 to |entries|
      invariant Newest(items, rest, Of(entries[..k], p))
    {
      assert entries[..k + 1][..k] == entries[..k];
      if entries[k].rev.path != p { continue; }
      OneMore(items, rest, Of(entries[..k], p), entries[k]);
      items := SortIn(items, entries[k]);
      if |items| > MAX_HISTORY {
        rest := rest + multiset{items[MAX_HISTORY]};
        items := items[..MAX_HISTORY];
      }
    }
    assert entries[..|entries|] == entries;
    assert Newest(items, rest, Of(entries, p));
  }

  lemma NothingLeftOut(items: seq<Item>, rest: multiset<Item>, all: seq<Item>)
    requires Newest(items, rest, all) && |items| < MAX_HISTORY
    ensures rest == multiset{}
  {
    assert |multiset(items)| + |rest| == |multiset(all)|;
  }
}
