/** The migration of a configuration tree that takes the retired knowledge settings out
    (internal/cli/config_workspace_migration.go). */
module MigrationModel {
  import opened Texts

  /** `isText` says that the scalar is tagged as a string. */
  datatype Node =
    | Scalar(isText: bool, value: string)
    | Alias(name: string)
    | Mapping(entries: seq<Entry>)
    | Sequence(items: seq<Node>)

  datatype Entry = Entry(key: string, value: Node)

  /** Which items of a list are retired. */
  datatype List = Plain | Capabilities | SkillPaths

  predicate AgentField(path: seq<string>) {
    |path| == 2 && path[0] == "agents"
  }

  predicate GroupField(path: seq<string>) {
    Join(path, '/') == "applications/group_mention"
    || (|path| == 4 && path[0] == "applications" && path[1] == "bots" && path[3] == "group_mention")
  }

  predicate SchedulingField(path: seq<string>) {
    Join(path, '/') == "runtime_setup" || Join(path, '/') == "applications/proactive"
  }

  predicate Retired(path: seq<string>, key: string) {
    || (AgentField(path) && (key == "memory_scope" || key == "home"))
    || (Join(path, '/') == "channels/route" && key == "memory_policy")
    || (GroupField(path) && (key == "shared_memory_workspaces" || key == "excluded_memory_categories"))
    || (SchedulingField(path) && key == "review_timeout_seconds")
  }

  predicate IsHome(path: seq<string>, key: string) {
    AgentField(path) && key == "home"
  }

  function ListAt(path: seq<string>, key: string): List {
    if AgentField(path) && key == "capabilities" then Capabilities
    else if |path| == 3 && path[0] == "agents" && path[2] == "skills" && key == "paths" then SkillPaths
    else Plain
  }

  /** A node's own text; collections have none. */
  function TextOf(n: Node): string {
    match n
    case Scalar(_, value) => value
    case Alias(name) => name
    case _ => ""
  }

  /** `skill` tells the paths whose last component is the retired skill. */
  predicate Dropped(n: Node, list: List, skill: string -> bool) {
    (list.Capabilities? && TextOf(n) == "memory_read") || (list.SkillPaths? && skill(TextOf(n)))
  }

  // ---- What the migration accepts, keeps and reports ----

  predicate Distinct(entries: seq<Entry>) {
    forall i, j :: 0 <= i < j < |entries| ==> entries[i].key != entries[j].key
  }

  predicate HomeOk(path: seq<string>, e: Entry) {
    IsHome(path, e.key) ==> e.value.Scalar? && e.value.isText
  }

  predicate Accepts(n: Node, path: seq<string>, list: List, skill: string -> bool)
    decreases n, 0
  {
    match n
    case Scalar(_, _) => true
    case Alias(_) => false
    case Mapping(es) =>
      Distinct(es) && forall i :: 0 <= i < |es| ==> EntryOk(es[i], path, skill)
    case Sequence(items) =>
      forall i :: 0 <= i < |items| ==> ItemOk(items[i], path, list, skill)
  }

  predicate EntryOk(e: Entry, path: seq<string>, skill: string -> bool) {
    HomeOk(path, e) && (Retired(path, e.key) || Accepts(e.value, path + [e.key], ListAt(path, e.key), skill))
  }

  predicate ItemOk(n: Node, path: seq<string>, list: List, skill: string -> bool)
    decreases n, 1
  {
    Dropped(n, list, skill) || Accepts(n, path, Plain, skill)
  }

  function Prune(n: Node, path: seq<string>, list: List, skill: string -> bool): Node
    decreases n, 0
  {
    match n
    case Mapping(es) => Mapping(PruneEntries(es, path, skill))
    case Sequence(items) => Sequence(PruneItems(items, path, list, skill))
    case _ => n
  }

  function PruneEntries(es: seq<Entry>, path: seq<string>, skill: string -> bool): seq<Entry> {
    if es == [] then [] else PruneEntry(es[0], path, skill) + PruneEntries(es[1..], path, skill)
  }

  function PruneEntry(e: Entry, path: seq<string>, skill: string -> bool): seq<Entry> {
    if Retired(path, e.key) then [] else [Entry(e.key, Prune(e.value, path + [e.key], ListAt(path, e.key), skill))]
  }

  function PruneItems(items: seq<Node>, path: seq<string>, list: List, skill: string -> bool): seq<Node> {
    if items == [] then [] else PruneItem(items[0], path, list, skill) + PruneItems(items[1..], path, list, skill)
  }

  function PruneItem(n: Node, path: seq<string>, list: List, skill: string -> bool): seq<Node>
    decreases n, 1
  {
    if Dropped(n, list, skill) then [] else [Prune(n, path, Plain, skill)]
  }

  /** The paths of the old agent homes, in the order of the document. */
  function Homes(n: Node, path: seq<string>, list: List, skill: string -> bool): seq<string>
    decreases n, 0
  {
    match n
    case Mapping(es) => HomesOfEntries(es, path, skill)
    case Sequence(items) => HomesOfItems(items, path, list, skill)
    case _ => []
  }

  function HomesOfEntries(es: seq<Entry>, path: seq<string>, skill: string -> bool): seq<string> {
    if es == [] then [] else HomesOfEntry(es[0], path, skill) + HomesOfEntries(es[1..], path, skill)
  }

  function HomesOfEntry(e: Entry, path: seq<string>, skill: string -> bool): seq<string> {
    if IsHome(path, e.key) then [TextOf(e.value)]
    else if Retired(path, e.key) then []
    else Homes(e.value, path + [e.key], ListAt(path, e.key), skill)
  }

  function HomesOfItems(items: seq<Node>, path: seq<string>, list: List, skill: string -> bool): seq<string> {
    if items == [] then [] else HomesOfItem(items[0], path, list, skill) + HomesOfItems(items[1..], path, list, skill)
  }

  function HomesOfItem(n: Node, path: seq<string>, list: List, skill: string -> bool): seq<string>
    decreases n, 1
  {
    if Dropped(n, list, skill) then [] else Homes(n, path, Plain, skill)
  }

  /** Nothing of the tree is retired. */
  predicate Clean(n: Node, path: seq<string>, list: List, skill: string -> bool) {
    match n
    case Mapping(es) =>
      forall i :: 0 <= i < |es| ==> !Retired(path, es[i].key) && Clean(es[i].value, path + [es[i].key], ListAt(path, es[i].key), skill)
    case Sequence(items) =>
      forall i :: 0 <= i < |items| ==> !Dropped(items[i], list, skill) && Clean(items[i], path, Plain, skill)
    case _ => true
  }
}
