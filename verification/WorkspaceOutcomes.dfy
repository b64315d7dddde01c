/** What each file operation does, what a power failure may leave, and where a damaged archive
    stops the program. */
module WorkspaceOutcomes {
  import opened Options
  import opened WorkspaceModel
  import opened WorkspaceTheorems

  ghost predicate ArchiveBecomes(s: State, t: State, a: Archive) {
    t == State(s.hash, s.files, s.staged, s.archives + [a])
  }

  /** A link puts its file in place exactly if the name is free; a record is final exactly if it
      was there; each such change is one more state that a power failure may leave, until the
      directory is synchronised. */
  lemma ArchiveOutcome(s: State, d: nat, bytes: string, n: nat, rev: Revision)
    requires |s.archives| > 0
    ensures var a := s.archives[|s.archives| - 1];
            && (if d in a.blobs then Exec(s, LinkBlob(d, bytes)) == s
                else ArchiveBecomes(s, Exec(s, LinkBlob(d, bytes)), Archive(a.blobs[d := bytes], a.records)))
            && (if n in a.records then Exec(s, LinkPending(n, rev)) == s
                else ArchiveBecomes(s, Exec(s, LinkPending(n, rev)), Archive(a.blobs, a.records[n := Record(rev, false)])))
            && (if n !in a.records then Exec(s, Finalise(n)) == s
                else ArchiveBecomes(s, Exec(s, Finalise(n)), Archive(a.blobs, a.records[n := Record(a.records[n].rev, true)])))
            && Exec(s, SyncArchive) == State(s.hash, s.files, s.staged, [a])
  {
  }

  ghost predicate OtherFilesSame(s: State, t: State, p: Path) {
    forall q :: q != p ==> (q in t.files <==> q in s.files) && (q in s.files ==> t.files[q] == s.files[q])
  }

  /** One more version of the file, not yet synchronised. */
  ghost predicate Gains(s: State, t: State, p: Path, v: Version) {
    && t.hash == s.hash && t.archives == s.archives && OtherFilesSame(s, t, p) && p in t.files
    && t.files[p] == if p in s.files then File(s.files[p].versions + [v], s.files[p].synced) else File([Version(None, None), v], 0)
  }

  /** A rename makes exactly the staged bytes live, under the name of their write; a file is
      created only where none is. */
  lemma FileOutcome(s: State, n: nat, p: Path, content: string)
    requires FilesFit(s)
    ensures var t := Exec(s, Stage(n, p, content)); t == State(s.hash, s.files, s.staged[n := Staged(p, content)], s.archives)
    ensures var t := Exec(s, Publish(n, p));
            if n !in s.staged then t == s
            else Gains(s, t, p, Version(Some(s.staged[n].content), Some(n))) && t.staged == s.staged - {n}
    ensures var t := Exec(s, Create(p, content));
            if p in s.files && s.files[p].versions[|s.files[p].versions| - 1].content.Some? then t == s
            else Gains(s, t, p, Version(Some(content), None)) && t.staged == s.staged
  {
    if p in s.files { assert FileFits(s, p, s.files[p]); }
  }

  /** Synchronising a directory puts the last version of each of its files on disk, and of no
      other file. */
  lemma SyncOutcome(s: State, dir: string)
    requires FilesFit(s)
    ensures var t := Exec(s, SyncDir(dir));
            && t.hash == s.hash && t.staged == s.staged && t.archives == s.archives && t.files.Keys == s.files.Keys
            && forall p :: p in s.files ==>
                 t.files[p] == if p.dir == dir then File(s.files[p].versions, |s.files[p].versions| - 1) else s.files[p]
  {
    forall p | p in s.files ensures |s.files[p].versions| > 0 { assert FileFits(s, p, s.files[p]); }
  }

  /** A power failure leaves any one state that the archive went through since it was
      synchronised, and of each file any version from the synchronised one on; what it leaves is
      on disk. Staged files may be gone. */
  lemma PowerLossOutcome(s: State, archive: nat, cuts: map<Path, nat>, left: set<nat>)
    requires FilesFit(s) && archive < |s.archives|
    ensures var t := PowerLoss(s, archive, cuts, left);
            && t.hash == s.hash && t.archives == [s.archives[archive]] && t.files.Keys == s.files.Keys
            && (forall n :: n in t.staged <==> n in s.staged && n in left) && (forall n :: n in t.staged ==> t.staged[n] == s.staged[n])
            && forall p :: p in s.files ==>
                 var f := s.files[p];
                 var last: nat := if p in cuts && f.synced <= cuts[p] < |f.versions| then cuts[p] else |f.versions| - 1;
                 t.files[p] == File(f.versions[..last + 1], last)
  {
    forall p | p in s.files ensures |s.files[p].versions| > 0 && s.files[p].versions[..|s.files[p].versions|] == s.files[p].versions {
      assert FileFits(s, p, s.files[p]);
    }
  }

  function LastContent(f: File): Option<string> {
    if f.versions == [] then None else f.versions[|f.versions| - 1].content
  }

  /** A new workspace file is there and on disk afterwards, and an old one keeps its content. */
  lemma EnsureOutcome(s: State, p: Path, content: string)
    requires Inv(s)
    ensures var t, was := Step(s, Ensure(p, content, 2)), LastContent(FileAt(s, p));
            && p in t.files && t.files[p].synced == |t.files[p].versions| - 1
            && LastContent(t.files[p]) == if was == None then Some(content) else was
  {
    FileAtFits(s, p);
    var m := Exec(s, Create(p, content));
    ExecTwo(s, Create(p, content), SyncDir(p.dir));
    assert EnsureScript(p, content)[..2] == EnsureScript(p, content);
    FileOutcome(s, 0, p, content);
    CreateKeeps(s, p, content);
    SyncOutcome(m, p.dir);
  }

  // ---- A damaged archive ----

  /** The archive does not hold bytes with this digest. */
  predicate IsMissing(s: State, d: nat) {
    d !in Current(s).blobs || s.hash(Current(s).blobs[d]) != d
  }

  /** A pending record that the live bytes of its path match. */
  predicate IsUnfinished(s: State, n: nat) {
    && n in Current(s).records && !Current(s).records[n].final
    && var live := LastContent(FileAt(s, Current(s).records[n].rev.path));
    && live.Some? && s.hash(live.value) == Current(s).records[n].rev.digest
  }

  predicate IsDamaged(s: State, n: nat) {
    IsUnfinished(s, n) && IsMissing(s, Current(s).records[n].rev.digest)
  }

  lemma FinaliseFrame(s: State, n: nat, k: nat)
    requires IsUnfinished(s, n)
    ensures var t := Exec(s, Finalise(n));
            t.files == s.files && IsUnfinished(t, k) == (IsUnfinished(s, k) && k != n) && IsDamaged(t, k) == (IsDamaged(s, k) && k != n)
  {
  }

  /** Recovery stops exactly if some listed record that it would make final has no intact bytes,
      and makes only records final that the live bytes match and that are intact. */
  lemma {:induction false} RecoveryStopsExactlyWhenDamaged(s: State, entries: seq<nat>)
    ensures var scan := ScanPending(s, entries);
            && (!scan.ok <==> exists i :: 0 <= i < |entries| && IsDamaged(s, entries[i]))
            && forall op :: op in scan.finalised ==> op.Finalise? && IsUnfinished(s, op.name) && !IsDamaged(s, op.name)
    decreases |entries|
  {
    if entries != [] {
      var n := entries[0];
      assert Matches(s, n) <==> IsUnfinished(s, n);
      var t := if Matches(s, n) then Exec(s, Finalise(n)) else s;
      RecoveryStopsExactlyWhenDamaged(t, entries[1..]);
      if Matches(s, n) { forall k { FinaliseFrame(s, n, k); } }
      forall i | 0 < i < |entries| ensures entries[i] == entries[1..][i - 1] { }
    }
  }

  /** What recovery makes final stays so through a power failure: every archive state that may
      survive has it. */
  lemma RecoveryIsOnDisk(s: State, entries: seq<nat>, n: nat, k: nat)
    requires Inv(s) && Lists(s, entries) && IsUnfinished(s, n) && k < |ExecAll(s, RecoverScript(s, entries)).archives|
    ensures IsFinal(ExecAll(s, RecoverScript(s, entries)).archives[k], n)
  {
    assert Matches(s, n);
    ScanFinds(s, entries);
    var ops := ScanPending(s, entries).finalised;
    FinaliseAll(s, ops);
    assert Finalise(n) in ops;
    ExecConcat(s, ops, [SyncArchive]);
    var m := ExecAll(s, ops);
    assert ExecAll(m, [SyncArchive]) == Exec(m, SyncArchive);
  }

  /** Nothing is written while a record cannot be recovered, or while the archive holds other
      bytes under the digest of the old or of the new content. */
  lemma DamageBlocksWrites(s: State, entries: seq<nat>, r: Request)
    ensures var m := ExecAll(s, RecoverScript(s, entries));
            (exists i :: 0 <= i < |entries| && IsDamaged(s, entries[i]))
            || Wrong(m, LastContent(FileAt(m, r.path))) || Wrong(m, Some(r.content)) ==>
            ExecAll(s, Script(s, entries, r)).files == s.files
  {
    var head := RecoverScript(s, entries);
    var m := ExecAll(s, head);
    RecoveryStopsExactlyWhenDamaged(s, entries);
    RecoverTouchesNoFile(s, head, |head|);
    assert Done(head, |head|) == head;
    if ScanPending(s, entries).ok {
      ExecConcat(s, head, WriteScript(m, r));
      if Wrong(m, Some(r.content)) { NoPublication(m, r); }
    } else {
      assert Script(s, entries, r) == head + [] == head;
    }
  }

  predicate Wrong(s: State, content: Option<string>) {
    content.Some? && s.hash(content.value) in Current(s).blobs && IsMissing(s, s.hash(content.value))
  }

  lemma NoPublication(s: State, r: Request)
    requires Wrong(s, Some(r.content))
    ensures ExecAll(s, WriteScript(s, r)).files == s.files
  {
    var was := Content(s, r.path);
    var ops := BlobScript(s, was);
    assert NewScript(s, r) == [] && ops + [] == ops;
    if ops != [] { ExecTwo(s, LinkBlob(s.hash(was.value), was.value), SyncArchive); }
  }
}
