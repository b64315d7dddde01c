/** Versioned files with an archive, written so that a crash loses no published revision
    (internal/agentworkspace/workspace.go).

    A writer is a script of file operations: a process that dies performs only a first part of
    it. What the disk holds is kept apart from what a power failure leaves: a file remembers
    its versions since it was created and up to which of them its directory was synchronised;
    the archive directory remembers the states it went through since its last
    synchronisation, any of which may be what survives. */
module WorkspaceModel {
  import opened Options

  datatype Path = Path(dir: string, name: string)

  /** `previous` is the digest of the bytes that the write replaced, if there were any. */
  datatype Revision = Revision(path: Path, digest: nat, previous: Option<nat>)

  /** The `.pending` record, or the `.json` record once `final`. */
  datatype Record = Record(rev: Revision, final: bool)

  datatype Archive = Archive(blobs: map<nat, string>, records: map<nat, Record>)

  /** `writer` is the write that published the version; none for the index file of a new workspace. */
  datatype Version = Version(content: Option<string>, writer: Option<nat>)

  /** `versions[..synced + 1]` is on disk; a later version may be lost with the power. */
  datatype File = File(versions: seq<Version>, synced: nat)

  datatype Staged = Staged(path: Path, content: string)

  /** `hash` is the digest function; the archive is the last of `archives`, and a power failure
      leaves any of them. */
  datatype State = State(hash: string -> nat, files: map<Path, File>, staged: map<nat, Staged>, archives: seq<Archive>)

  ghost predicate Initial(s: State) {
    s.files == map[] && s.staged == map[] && s.archives == [Archive(map[], map[])]
  }

  // ---- Reading ----

  function FileAt(s: State, p: Path): File {
    if p in s.files then s.files[p] else File([Version(None, None)], 0)
  }

  function Last<T>(xs: seq<T>): T
    requires |xs| > 0
  {
    xs[|xs| - 1]
  }

  function Content(s: State, p: Path): Option<string> {
    if |FileAt(s, p).versions| == 0 then None else Last(FileAt(s, p).versions).content
  }

  function Digest(s: State, content: Option<string>): Option<nat> {
    match content
    case None => None
    case Some(text) => Some(s.hash(text))
  }

  function Current(s: State): Archive {
    if |s.archives| == 0 then Archive(map[], map[]) else Last(s.archives)
  }

  // ---- File operations ----

  datatype FileOp =
    | LinkBlob(digest: nat, bytes: string)
    | LinkPending(name: nat, rev: Revision)
    | SyncArchive
    | Finalise(name: nat)
    | Stage(name: nat, path: Path, content: string)
    | SyncDir(dir: string)
    | Publish(name: nat, path: Path)
    | Create(path: Path, content: string)

  function Archived(s: State, a: Archive): State {
    s.(archives := s.archives + [a])
  }

  function Appended(s: State, p: Path, v: Version): State {
    s.(files := s.files[p := FileAt(s, p).(versions := FileAt(s, p).versions + [v])])
  }

  function Flushed(f: File): File {
    if |f.versions| == 0 then f else f.(synced := |f.versions| - 1)
  }

  /** A link to a name that exists fails and changes nothing. */
  function Exec(s: State, op: FileOp): State {
    var a := Current(s);
    match op
    case LinkBlob(d, bytes) => if d in a.blobs then s else Archived(s, a.(blobs := a.blobs[d := bytes]))
    case LinkPending(n, rev) => if n in a.records then s else Archived(s, a.(records := a.records[n := Record(rev, false)]))
    case SyncArchive => s.(archives := [a])
    case Finalise(n) => if n !in a.records then s else Archived(s, a.(records := a.records[n := a.records[n].(final := true)]))
    case Stage(n, p, content) => s.(staged := s.staged[n := Staged(p, content)])
    case SyncDir(dir) => s.(files := map p | p in s.files :: if p.dir == dir then Flushed(s.files[p]) else s.files[p])
    case Publish(n, p) =>
      if n !in s.staged then s else Appended(s, p, Version(Some(s.staged[n].content), Some(n))).(staged := s.staged - {n})
    case Create(p, content) => if Content(s, p).Some? then s else Appended(s, p, Version(Some(content), None))
  }

  function ExecAll(s: State, ops: seq<FileOp>): State
    decreases |ops|
  {
    if ops == [] then s else ExecAll(Exec(s, ops[0]), ops[1..])
  }

  // ---- Recovery ----

  datatype Scan = Scan(finalised: seq<FileOp>, ok: bool)

  /** A pending record whose bytes are the live content of its path. */
  predicate Matches(s: State, n: nat) {
    n in Current(s).records && !Current(s).records[n].final
    && Content(s, Current(s).records[n].rev.path).Some?
    && Digest(s, Content(s, Current(s).records[n].rev.path)) == Some(Current(s).records[n].rev.digest)
  }

  predicate HasBlob(s: State, d: nat) {
    d in Current(s).blobs && s.hash(Current(s).blobs[d]) == d
  }

  /** recoverPending over the directory entries; a missing or damaged blob stops it. */
  function ScanPending(s: State, entries: seq<nat>): Scan
    decreases |entries|
  {
    if entries == [] then Scan([], true)
    else if !Matches(s, entries[0]) then ScanPending(s, entries[1..])
    else if !HasBlob(s, Current(s).records[entries[0]].rev.digest) then Scan([], false)
    else
      var rest := ScanPending(Exec(s, Finalise(entries[0])), entries[1..]);
      Scan([Finalise(entries[0])] + rest.finalised, rest.ok)
  }

  function RecoverScript(s: State, entries: seq<nat>): seq<FileOp> {
    var scan := ScanPending(s, entries);
    scan.finalised + if scan.ok && scan.finalised != [] then [SyncArchive] else []
  }

  // ---- Writing ----

  datatype Request = Request(path: Path, content: string, expected: Option<nat>, name: nat)

  function BlobScript(s: State, content: Option<string>): seq<FileOp> {
    match content
    case None => []
    case Some(text) => if s.hash(text) in Current(s).blobs then [] else [LinkBlob(s.hash(text), text), SyncArchive]
  }

  predicate BlobOk(s: State, content: Option<string>) {
    match content
    case None => true
    case Some(text) => s.hash(text) in Current(s).blobs ==> HasBlob(s, s.hash(text))
  }

  function RevisionOf(s: State, r: Request): Revision {
    Revision(r.path, s.hash(r.content), Digest(s, Content(s, r.path)))
  }

  function PublishScript(s: State, r: Request): seq<FileOp> {
    [LinkPending(r.name, RevisionOf(s, r)), SyncArchive, SyncArchive]
    + [Stage(r.name, r.path, r.content), SyncDir(r.path.dir)]
    + [Publish(r.name, r.path), SyncDir(r.path.dir), Finalise(r.name), SyncArchive]
  }

  predicate Conflicts(s: State, r: Request) {
    Digest(s, Content(s, r.path)) != r.expected
  }

  predicate Unchanged(s: State, r: Request) {
    Digest(s, Content(s, r.path)) == Some(s.hash(r.content))
  }

  /** Once the old bytes are archived: archive the new ones and publish them. */
  function NewScript(s: State, r: Request): seq<FileOp> {
    if !BlobOk(s, Some(r.content)) then []
    else BlobScript(s, Some(r.content)) + (if r.name in Current(s).records then [] else PublishScript(s, r))
  }

  /** What WriteChecked does once recovery is complete; a refused write does nothing. */
  function WriteScript(s: State, r: Request): seq<FileOp> {
    var was := Content(s, r.path);
    if Conflicts(s, r) || Unchanged(s, r) || !BlobOk(s, was) then [] else BlobScript(s, was) + NewScript(s, r)
  }

  function Script(s: State, entries: seq<nat>, r: Request): seq<FileOp> {
    RecoverScript(s, entries)
    + (if ScanPending(s, entries).ok then WriteScript(ExecAll(s, RecoverScript(s, entries)), r) else [])
  }

  function EnsureScript(p: Path, content: string): seq<FileOp> {
    [Create(p, content), SyncDir(p.dir)]
  }

  // ---- Runs ----

  function Done(ops: seq<FileOp>, steps: nat): seq<FileOp> {
    if steps < |ops| then ops[..steps] else ops
  }

  predicate Lists(s: State, entries: seq<nat>) {
    forall n :: n in Current(s).records ==> n in entries
  }

  function CutFile(f: File, cuts: map<Path, nat>, p: Path): File {
    if p in cuts && f.synced <= cuts[p] < |f.versions| then File(f.versions[..cuts[p] + 1], cuts[p]) else Flushed(f)
  }

  /** What a power failure leaves: `archive` says which state of the archive directory, `cuts`
      which version of each file, `left` which staged files. */
  function PowerLoss(s: State, archive: nat, cuts: map<Path, nat>, left: set<nat>): State {
    if archive >= |s.archives| then s
    else State(s.hash, map p | p in s.files :: CutFile(s.files[p], cuts, p),
               map n | n in s.staged && n in left :: s.staged[n], [s.archives[archive]])
  }

  /** `steps` file operations are performed before the process dies, if it dies;
      `entries` is the listing of the archive directory. */
  datatype Event =
    | Write(request: Request, entries: seq<nat>, steps: nat)
    | Recovery(entries: seq<nat>, steps: nat)
    | Ensure(path: Path, content: string, steps: nat)
    | Blackout(archive: nat, cuts: map<Path, nat>, left: set<nat>)

  function Step(s: State, e: Event): State {
    match e
    case Write(r, entries, steps) => if Lists(s, entries) then ExecAll(s, Done(Script(s, entries, r), steps)) else s
    case Recovery(entries, steps) => if Lists(s, entries) then ExecAll(s, Done(RecoverScript(s, entries), steps)) else s
    case Ensure(p, content, steps) => ExecAll(s, Done(EnsureScript(p, content), steps))
    case Blackout(archive, cuts, left) => PowerLoss(s, archive, cuts, left)
  }

  function Run(s: State, events: seq<Event>): State
    decreases |events|
  {
    if events == [] then s else Run(Step(s, events[0]), events[1..])
  }
}
