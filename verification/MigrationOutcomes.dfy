/** Which settings are retired, which trees are refused, and which homes are reported, read off
    the tree by addresses: an address says which entry or item to go to at each level. Only the
    keys on the way count for the path of a setting; the items of a list do not. */
module MigrationOutcomes {
  import opened MigrationModel
  import opened Texts

  // ---- What is retired ----

  predicate NoSlash(path: seq<string>) {
    forall i :: 0 <= i < |path| ==> '/' !in path[i]
  }

  lemma JoinsTwo(path: seq<string>, a: string, b: string)
    requires NoSlash(path) && '/' !in a && '/' !in b
    ensures Join(path, '/') == a + ['/'] + b <==> path == [a, b]
  {
    assert Join([a, b], '/') == a + ['/'] + Join([b], '/');
    if Join(path, '/') == a + ['/'] + b {
      assert path != [] by { assert Join(path, '/') != []; }
      JoinSplit(path, '/');
      SplitFirst(a, '/', b);
      SplitOne(b, '/');
    }
  }

  lemma JoinsOne(path: seq<string>, a: string)
    requires NoSlash(path) && '/' !in a && a != []
    ensures Join(path, '/') == a <==> path == [a]
  {
    if Join(path, '/') == a {
      assert path != [];
      JoinSplit(path, '/');
      SplitOne(a, '/');
    }
  }

  predicate IsAgent(path: seq<string>) {
    |path| == 2 && path[0] == "agents"
  }

  predicate IsGroup(path: seq<string>) {
    || path == ["applications", "group_mention"]
    || (|path| == 4 && path[0] == "applications" && path[1] == "bots" && path[3] == "group_mention")
  }

  lemma GroupExactly(path: seq<string>)
    requires NoSlash(path)
    ensures GroupField(path) <==> IsGroup(path)
  {
    JoinsTwo(path, "applications", "group_mention");
  }

  lemma RouteExactly(path: seq<string>)
    requires NoSlash(path)
    ensures Join(path, '/') == "channels/route" <==> path == ["channels", "route"]
  {
    JoinsTwo(path, "channels", "route");
  }

  lemma SchedulingExactly(path: seq<string>)
    requires NoSlash(path)
    ensures SchedulingField(path) <==> path == ["runtime_setup"] || path == ["applications", "proactive"]
  {
    JoinsTwo(path, "applications", "proactive");
    JoinsOne(path, "runtime_setup");
  }

  /** The retired settings, for keys without a slash. */
  lemma RetiredExactly(path: seq<string>, key: string)
    requires NoSlash(path)
    ensures Retired(path, key) <==>
            || (IsAgent(path) && key in {"memory_scope", "home"})
            || (path == ["channels", "route"] && key == "memory_policy")
            || (IsGroup(path) && key in {"shared_memory_workspaces", "excluded_memory_categories"})
            || ((path == ["runtime_setup"] || path == ["applications", "proactive"]) && key == "review_timeout_seconds")
  {
    GroupExactly(path);
    RouteExactly(path);
    SchedulingExactly(path);
  }

  /** The retired items: one capability of an agent, and the paths of the retired skill. */
  lemma DroppedExactly(item: Node, path: seq<string>, key: string, skill: string -> bool)
    ensures Dropped(item, ListAt(path, key), skill) <==>
            || (IsAgent(path) && key == "capabilities" && TextOf(item) == "memory_read")
            || (|path| == 3 && path[0] == "agents" && path[2] == "skills" && key == "paths" && skill(TextOf(item)))
  {
  }

  // ---- What is refused ----

  /** Here the migration cannot go on: at an alias, a repeated key, or a home that is no text. */
  ghost predicate IsBad(n: Node, path: seq<string>) {
    match n
    case Scalar(_, _) => false
    case Alias(_) => true
    case Sequence(_) => false
    case Mapping(es) =>
      || (exists i, j :: 0 <= i < j < |es| && es[i].key == es[j].key)
      || (exists i :: 0 <= i < |es| && IsAgent(path) && es[i].key == "home" && !(es[i].value.Scalar? && es[i].value.isText))
  }

  /** There is something bad at this address, and nothing retired on the way to it. */
  ghost predicate BadAt(n: Node, path: seq<string>, list: List, skill: string -> bool, address: seq<nat>)
    decreases |address|
  {
    if address == [] then IsBad(n, path)
    else
      match n
      case Mapping(es) =>
        address[0] < |es| && !Retired(path, es[address[0]].key) &&
        var e := es[address[0]];
        BadAt(e.value, path + [e.key], ListAt(path, e.key), skill, address[1..])
      case Sequence(items) =>
        address[0] < |items| && !Dropped(items[address[0]], list, skill) && BadAt(items[address[0]], path, Plain, skill, address[1..])
      case _ => false
  }

  lemma {:induction false} AcceptedHasNoBad(n: Node, path: seq<string>, list: List, skill: string -> bool, address: seq<nat>)
    requires Accepts(n, path, list, skill)
    ensures !BadAt(n, path, list, skill, address)
    decreases |address|
  {
    match n
    case Mapping(es) =>
      if address == [] {
        forall i | 0 <= i < |es| ensures IsAgent(path) && es[i].key == "home" ==> es[i].value.Scalar? && es[i].value.isText {
          assert EntryOk(es[i], path, skill);
        }
      } else if address[0] < |es| && !Retired(path, es[address[0]].key) {
        var e := es[address[0]];
        assert EntryOk(e, path, skill);
        AcceptedHasNoBad(e.value, path + [e.key], ListAt(path, e.key), skill, address[1..]);
      }
    case Sequence(items) =>
      if address != [] && address[0] < |items| && !Dropped(items[address[0]], list, skill) {
        assert ItemOk(items[address[0]], path, list, skill);
        AcceptedHasNoBad(items[address[0]], path, Plain, skill, address[1..]);
      }
    case _ =>
  }

  lemma {:induction false} RefusedHasBad(n: Node, path: seq<string>, list: List, skill: string -> bool) returns (address: seq<nat>)
    requires !Accepts(n, path, list, skill)
    ensures BadAt(n, path, list, skill, address)
    decreases n
  {
    address := [];
    match n
    case Mapping(es) =>
      if !IsBad(n, path) {
        var i: nat :| i < |es| && !EntryOk(es[i], path, skill);
        var rest := RefusedHasBad(es[i].value, path + [es[i].key], ListAt(path, es[i].key), skill);
        address := [i] + rest;
        assert address[1..] == rest;
      }
    case Sequence(items) =>
      var i: nat :| i < |items| && !ItemOk(items[i], path, list, skill);
      var rest := RefusedHasBad(items[i], path, Plain, skill);
      address := [i] + rest;
      assert address[1..] == rest;
    case _ =>
  }

  ghost predicate HasBad(n: Node, skill: string -> bool) {
    exists address :: BadAt(n, [], Plain, skill, address)
  }

  /** A document is refused exactly if something bad is found that is not retired itself. */
  lemma RefusedExactlyWhenBad(n: Node, skill: string -> bool)
    ensures !Accepts(n, [], Plain, skill) <==> HasBad(n, skill)
  {
    if !Accepts(n, [], Plain, skill) {
      var address := RefusedHasBad(n, [], Plain, skill);
    } else if HasBad(n, skill) {
      var address :| BadAt(n, [], Plain, skill, address);
      AcceptedHasNoBad(n, [], Plain, skill, address);
    }
  }

  // ---- Which homes are reported ----

  /** At this address stands an entry `home`, directly under a key of the agents, with this text. */
  ghost predicate HomeAt(n: Node, path: seq<string>, address: seq<nat>, text: string)
    decreases |address|
  {
    address != [] &&
    match n
    case Mapping(es) =>
      address[0] < |es| &&
      var e := es[address[0]];
      if |address| == 1 then IsAgent(path) && e.key == "home" && e.value.Scalar? && e.value.value == text
      else HomeAt(e.value, path + [e.key], address[1..], text)
    case Sequence(items) => address[0] < |items| && HomeAt(items[address[0]], path, address[1..], text)
    case _ => false
  }

  /** The first address comes first in the document. */
  predicate Before(a: seq<nat>, b: seq<nat>)
    decreases |a|
  {
    a != [] && b != [] && (a[0] < b[0] || (a[0] == b[0] && Before(a[1..], b[1..])))
  }

  /** No agent's settings can be found from here. */
  predicate IsBeyond(path: seq<string>) {
    |path| > 2 || (path != [] && path[0] != "agents")
  }

  lemma {:induction false} NoHomeBeyond(n: Node, path: seq<string>, address: seq<nat>, text: string)
    requires IsBeyond(path)
    ensures !HomeAt(n, path, address, text)
    decreases |address|
  {
    if |address| > 1 {
      match n
      case Mapping(es) =>
        if address[0] < |es| { NoHomeBeyond(es[address[0]].value, path + [es[address[0]].key], address[1..], text); }
      case Sequence(items) => if address[0] < |items| { NoHomeBeyond(items[address[0]], path, address[1..], text); }
      case _ =>
    } else if |address| == 1 && n.Sequence? && address[0] < |n.items| {
      assert address[1..] == [];
    }
  }

  lemma {:induction false} JoinStarts(path: seq<string>)
    requires path != []
    ensures path[0] <= Join(path, '/')
  {
  }

  lemma RetiredIsBeyond(path: seq<string>, key: string)
    requires Retired(path, key)
    ensures IsBeyond(path + [key])
  {
    if path == [] { assert Join(path, '/') == ""; }
    else if path[0] == "agents" {
      JoinStarts(path);
      assert "agents" <= Join(path, '/');
      assert "channels/route"[0] == 'c' && "applications/group_mention"[1] == 'p' && "runtime_setup"[0] == 'r' && "applications/proactive"[1] == 'p';
    }
  }

  /** The addresses of the homes, one for each that is reported, in its place. */
  ghost predicate Lists(at: seq<seq<nat>>, n: Node, path: seq<string>, homes: seq<string>) {
    && |at| == |homes|
    && (forall i :: 0 <= i < |at| ==> HomeAt(n, path, at[i], homes[i]))
    && (forall i, j :: 0 <= i < j < |at| ==> Before(at[i], at[j]))
    && forall address, text :: HomeAt(n, path, address, text) ==> address in at
  }

  /** The same for what starts at the entries or items from `low` to `high`. */
  ghost predicate Covers(at: seq<seq<nat>>, n: Node, path: seq<string>, homes: seq<string>, low: nat, high: nat) {
    && |at| == |homes|
    && (forall i :: 0 <= i < |at| ==> at[i] != [] && low <= at[i][0] < high && HomeAt(n, path, at[i], homes[i]))
    && (forall i, j :: 0 <= i < j < |at| ==> Before(at[i], at[j]))
    && forall address, text :: HomeAt(n, path, address, text) && low <= address[0] < high ==> address in at
  }

  lemma CoversOn(a: seq<seq<nat>>, b: seq<seq<nat>>, n: Node, path: seq<string>, homes: seq<string>, more: seq<string>, low: nat, mid: nat, high: nat)
    requires low <= mid <= high && Covers(a, n, path, homes, low, mid) && Covers(b, n, path, more, mid, high)
    ensures Covers(a + b, n, path, homes + more, low, high)
  {
    forall i, j | 0 <= i < j < |a + b| ensures Before((a + b)[i], (a + b)[j]) {
      if i < |a| <= j { assert (a + b)[i] == a[i] && (a + b)[j] == b[j - |a|]; }
      else if j < |a| { assert Before(a[i], a[j]); }
      else { assert Before(b[i - |a|], b[j - |a|]); }
    }
  }

  function Below(k: nat, at: seq<seq<nat>>): seq<seq<nat>> {
    seq(|at|, i requires 0 <= i < |at| => [k] + at[i])
  }

  /** The homes of one entry or item are found below it. */
  lemma CoversBelow(at: seq<seq<nat>>, n: Node, path: seq<string>, homes: seq<string>, k: nat, child: Node, down: seq<string>)
    requires Lists(at, child, down, homes)
    requires forall address, text :: address != [] && address[0] == k ==>
               (HomeAt(n, path, address, text) <==> HomeAt(child, down, address[1..], text))
    ensures Covers(Below(k, at), n, path, homes, k, k + 1)
  {
    var all := Below(k, at);
    forall i | 0 <= i < |all| ensures all[i][0] == k && HomeAt(n, path, all[i], homes[i]) {
      assert all[i][1..] == at[i] && HomeAt(child, down, at[i], homes[i]);
    }
    forall i, j | 0 <= i < j < |all| ensures Before(all[i], all[j]) {
      assert all[i][1..] == at[i] && all[j][1..] == at[j] && Before(at[i], at[j]);
    }
    forall address, text | HomeAt(n, path, address, text) && k <= address[0] < k + 1 ensures address in all {
      assert HomeAt(child, down, address[1..], text);
      var i :| 0 <= i < |at| && at[i] == address[1..];
      assert all[i] == address;
    }
  }

  lemma {:induction false} HomesFound(n: Node, path: seq<string>, list: List, skill: string -> bool) returns (at: seq<seq<nat>>)
    requires Accepts(n, path, list, skill) && (list.Plain? || IsBeyond(path))
    ensures Lists(at, n, path, Homes(n, path, list, skill))
    decreases n, 1, 0
  {
    at := [];
    match n
    case Mapping(es) =>
      at := EntryHomesFound(n, es, 0, path, list, skill);
      assert es[0..] == es;
    case Sequence(items) =>
      at := ItemHomesFound(n, items, 0, path, list, skill);
      assert items[0..] == items;
    case _ =>
  }

  lemma {:induction false} EntryHomesFound(n: Node, es: seq<Entry>, from: nat, path: seq<string>, list: List, skill: string -> bool)
    returns (at: seq<seq<nat>>)
    requires n == Mapping(es) && from <= |es| && Accepts(n, path, list, skill)
    ensures Covers(at, n, path, HomesOfEntries(es[from..], path, skill), from, |es|)
    decreases n, 0, |es| - from
  {
    at := [];
    if from < |es| {
      var first := OneEntryFound(n, es, from, path, list, skill);
      var rest := EntryHomesFound(n, es, from + 1, path, list, skill);
      assert es[from..][0] == es[from] && es[from..][1..] == es[from + 1..];
      CoversOn(first, rest, n, path, HomesOfEntry(es[from], path, skill), HomesOfEntries(es[from + 1..], path, skill), from, from + 1, |es|);
      at := first + rest;
    }
  }

  lemma {:induction false} OneEntryFound(n: Node, es: seq<Entry>, k: nat, path: seq<string>, list: List, skill: string -> bool)
    returns (at: seq<seq<nat>>)
    requires n == Mapping(es) && k < |es| && Accepts(n, path, list, skill)
    ensures Covers(at, n, path, HomesOfEntry(es[k], path, skill), k, k + 1)
    decreases n, 0, 0
  {
    var e := es[k];
    assert EntryOk(e, path, skill);
    if IsHome(path, e.key) {
      at := [[k]];
      forall address, text | HomeAt(n, path, address, text) && address[0] == k ensures address == [k] {
        assert |address| > 1 ==> !HomeAt(e.value, path + [e.key], address[1..], text);
      }
    } else if Retired(path, e.key) {
      at := [];
      RetiredIsBeyond(path, e.key);
      forall address, text | address != [] && address[0] == k ensures !HomeAt(n, path, address, text) {
        NoHomeBeyond(e.value, path + [e.key], address[1..], text);
      }
    } else {
      var inner := HomesFound(e.value, path + [e.key], ListAt(path, e.key), skill);
      forall address, text | address != [] && address[0] == k
        ensures HomeAt(n, path, address, text) <==> HomeAt(e.value, path + [e.key], address[1..], text) { }
      CoversBelow(inner, n, path, HomesOfEntry(e, path, skill), k, e.value, path + [e.key]);
      at := Below(k, inner);
    }
  }

  lemma {:induction false} ItemHomesFound(n: Node, items: seq<Node>, from: nat, path: seq<string>, list: List, skill: string -> bool)
    returns (at: seq<seq<nat>>)
    requires n == Sequence(items) && from <= |items| && Accepts(n, path, list, skill) && (list.Plain? || IsBeyond(path))
    ensures Covers(at, n, path, HomesOfItems(items[from..], path, list, skill), from, |items|)
    decreases n, 0, |items| - from
  {
    at := [];
    if from < |items| {
      var item := items[from];
      assert ItemOk(item, path, list, skill);
      var first := [];
      if Dropped(item, list, skill) {
        forall address, text | address != [] && address[0] == from ensures !HomeAt(n, path, address, text) {
          NoHomeBeyond(item, path, address[1..], text);
        }
      } else {
        var inner := HomesFound(item, path, Plain, skill);
        CoversBelow(inner, n, path, HomesOfItem(item, path, list, skill), from, item, path);
        first := Below(from, inner);
      }
      var rest := ItemHomesFound(n, items, from + 1, path, list, skill);
      assert items[from..][0] == item && items[from..][1..] == items[from + 1..];
      CoversOn(first, rest, n, path, HomesOfItem(item, path, list, skill), HomesOfItems(items[from + 1..], path, list, skill), from, from + 1, |items|);
      at := first + rest;
    }
  }

  /** The reported homes are those of the agents, each once, in the order of the document, and
      no others. */
  lemma EveryHomeReported(n: Node, skill: string -> bool) returns (at: seq<seq<nat>>)
    requires Accepts(n, [], Plain, skill)
    ensures Lists(at, n, [], Homes(n, [], Plain, skill))
  {
    at := HomesFound(n, [], Plain, skill);
  }
}
