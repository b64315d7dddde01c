module WorkspaceTheorems {
  import opened Options
  import opened WorkspaceModel

  // ---- The invariant ----

  ghost predicate HasBytes(s: State, a: Archive, digest: nat) {
    digest in a.blobs && s.hash(a.blobs[digest]) == digest
  }

  /** The bytes that a record names, new and replaced, are archived. */
  ghost predicate Backed(s: State, a: Archive, rev: Revision) {
    HasBytes(s, a, rev.digest) && (rev.previous.Some? ==> HasBytes(s, a, rev.previous.value))
  }

  ghost predicate ArchiveFits(s: State, a: Archive) {
    && (forall d :: d in a.blobs ==> HasBytes(s, a, d))
    && (forall n :: n in a.records ==> Backed(s, a, a.records[n].rev))
  }

  ghost predicate Grows(a: Archive, b: Archive) {
    && (forall d :: d in a.blobs ==> d in b.blobs)
    && (forall n :: n in a.records ==> n in b.records && b.records[n].rev == a.records[n].rev && (a.records[n].final ==> b.records[n].final))
  }

  ghost predicate ArchivesFit(s: State) {
    && |s.archives| > 0
    && (forall i :: 0 <= i < |s.archives| ==> ArchiveFits(s, s.archives[i]))
    && (forall i, j :: 0 <= i < j < |s.archives| ==> Grows(s.archives[i], s.archives[j]))
  }

  /** The record that the publication of version `i` leaves behind. */
  ghost predicate Recorded(s: State, a: Archive, p: Path, vs: seq<Version>, i: nat)
    requires 0 < i < |vs| && vs[i].writer.Some?
  {
    vs[i].writer.value in a.records
    && a.records[vs[i].writer.value].rev == Revision(p, s.hash(TextOf(vs[i])), Digest(s, vs[i - 1].content))
  }

  ghost function TextOf(v: Version): string {
    if v.content.Some? then v.content.value else ""
  }

  ghost predicate IsFinal(a: Archive, n: nat) {
    n in a.records && a.records[n].final
  }

  ghost predicate VersionFits(s: State, p: Path, vs: seq<Version>, i: nat)
    requires 0 < i < |vs|
  {
    && vs[i].content.Some?
    && (vs[i].writer.None? ==> vs[i - 1].content.None?)
    && (vs[i].writer.Some? && |s.archives| > 0 ==>
          && Recorded(s, s.archives[0], p, vs, i)
          && Digest(s, vs[i].content) != Digest(s, vs[i - 1].content)
          && (i < |vs| - 1 ==> IsFinal(s.archives[0], vs[i].writer.value)))
  }

  ghost predicate FileFits(s: State, p: Path, f: File) {
    && |f.versions| > 0 && f.synced < |f.versions| <= f.synced + 2
    && f.versions[0] == Version(None, None)
    && forall i :: 0 < i < |f.versions| ==> VersionFits(s, p, f.versions, i)
  }

  ghost predicate FilesFit(s: State) {
    forall p :: p in s.files ==> FileFits(s, p, s.files[p])
  }

  ghost predicate PublishedAt(s: State, p: Path, i: nat, n: nat) {
    p in s.files && i < |s.files[p].versions| && s.files[p].versions[i].writer == Some(n)
  }

  ghost predicate NamesDiffer(s: State) {
    forall p, i, q, j, n :: PublishedAt(s, p, i, n) && PublishedAt(s, q, j, n) ==> p == q && i == j
  }

  ghost predicate Inv(s: State) {
    ArchivesFit(s) && FilesFit(s) && NamesDiffer(s)
  }

  // ---- One file operation ----

  /** Every publication has its final record. */
  ghost predicate Settled(s: State, a: Archive) {
    forall p, i, n :: PublishedAt(s, p, i, n) ==> IsFinal(a, n)
  }

  ghost predicate Allowed(s: State, op: FileOp) {
    match op
    case LinkBlob(d, bytes) => s.hash(bytes) == d
    case LinkPending(n, rev) => Backed(s, Current(s), rev) && n !in Current(s).records
    case Publish(n, p) =>
      && n in s.staged && |s.archives| == 1 && Settled(s, s.archives[0])
      && n in s.archives[0].records
      && s.archives[0].records[n] == Record(Revision(p, s.hash(s.staged[n].content), Digest(s, Content(s, p))), false)
      && Some(s.hash(s.staged[n].content)) != Digest(s, Content(s, p))
      && FileAt(s, p).synced == |FileAt(s, p).versions| - 1
    case _ => true
  }

  ghost predicate TouchesArchive(op: FileOp) {
    op.LinkBlob? || op.LinkPending? || op.Finalise?
  }

  lemma AppendArchive(s: State, a: Archive)
    requires Inv(s) && ArchiveFits(s, a) && Grows(Current(s), a)
    ensures Inv(Archived(s, a))
  {
    var t := Archived(s, a);
    assert t.archives[0] == s.archives[0];
    forall i, j | 0 <= i < j < |t.archives| ensures Grows(t.archives[i], t.archives[j]) {
      if j < |s.archives| {
        assert Grows(s.archives[i], s.archives[j]);
      } else if i < |s.archives| - 1 {
        assert Grows(s.archives[i], s.archives[|s.archives| - 1]);
      }
    }
    forall i | 0 <= i < |t.archives| ensures ArchiveFits(t, t.archives[i]) {
      if i < |s.archives| { assert ArchiveFits(s, s.archives[i]); } else { assert ArchiveFits(s, a); }
      SameHash(s, t, t.archives[i]);
    }
    SameVersions(s, t);
  }

  lemma SameHash(s: State, t: State, a: Archive)
    requires s.hash == t.hash && ArchiveFits(s, a)
    ensures ArchiveFits(t, a)
  {
  }

  /** Files are judged by the oldest state of the archive alone. */
  lemma SameVersions(s: State, t: State)
    requires FilesFit(s) && NamesDiffer(s) && t.hash == s.hash && t.files == s.files
    requires |s.archives| > 0 && |t.archives| > 0 && Grows(s.archives[0], t.archives[0])
    ensures FilesFit(t) && NamesDiffer(t)
  {
    forall p | p in t.files ensures FileFits(t, p, t.files[p]) {
      assert FileFits(s, p, s.files[p]);
      forall i | 0 < i < |t.files[p].versions| ensures VersionFits(t, p, t.files[p].versions, i) {
        assert VersionFits(s, p, s.files[p].versions, i);
      }
    }
    forall p, i, q, j, n | PublishedAt(t, p, i, n) && PublishedAt(t, q, j, n) ensures p == q && i == j {
      assert PublishedAt(s, p, i, n) && PublishedAt(s, q, j, n);
    }
  }

  lemma ArchiveOpKeeps(s: State, op: FileOp)
    requires Inv(s) && TouchesArchive(op) && Allowed(s, op)
    ensures Inv(Exec(s, op))
  {
    var a := Current(s);
    assert ArchiveFits(s, a) && Grows(a, a);
    match op
    case LinkBlob(d, bytes) =>
      if d !in a.blobs {
        var b := a.(blobs := a.blobs[d := bytes]);
        forall n | n in b.records ensures Backed(s, b, b.records[n].rev) { assert Backed(s, a, a.records[n].rev); }
        forall e | e in b.blobs ensures HasBytes(s, b, e) { assert e != d ==> HasBytes(s, a, e); }
        AppendArchive(s, b);
      }
    case LinkPending(n, rev) =>
      var b := a.(records := a.records[n := Record(rev, false)]);
      forall m | m in b.records ensures Backed(s, b, b.records[m].rev) { assert m != n ==> Backed(s, a, a.records[m].rev); }
      forall e | e in b.blobs ensures HasBytes(s, b, e) { assert HasBytes(s, a, e); }
      AppendArchive(s, b);
    case Finalise(n) =>
      if n in a.records {
        var b := a.(records := a.records[n := a.records[n].(final := true)]);
        forall m | m in b.records ensures Backed(s, b, b.records[m].rev) { assert Backed(s, a, a.records[m].rev); }
        forall e | e in b.blobs ensures HasBytes(s, b, e) { assert HasBytes(s, a, e); }
        AppendArchive(s, b);
      }
  }

  /** What survives of the archive, and what a synchronisation settles on. */
  lemma OneArchiveKeeps(s: State, i: nat)
    requires Inv(s) && i < |s.archives|
    ensures Inv(s.(archives := [s.archives[i]]))
  {
    var t := s.(archives := [s.archives[i]]);
    assert ArchiveFits(s, s.archives[i]);
    SameHash(s, t, t.archives[0]);
    assert Grows(s.archives[0], s.archives[i]);
    SameVersions(s, t);
  }

  lemma SyncDirKeeps(s: State, dir: string)
    requires Inv(s)
    ensures Inv(Exec(s, SyncDir(dir)))
  {
    var t := Exec(s, SyncDir(dir));
    forall i | 0 <= i < |t.archives| ensures ArchiveFits(t, t.archives[i]) { SameHash(s, t, s.archives[i]); }
    forall p | p in t.files ensures FileFits(t, p, t.files[p]) {
      assert FileFits(s, p, s.files[p]);
      forall i | 0 < i < |t.files[p].versions| ensures VersionFits(t, p, t.files[p].versions, i) {
        assert VersionFits(s, p, s.files[p].versions, i);
      }
    }
    forall p, i, q, j, n | PublishedAt(t, p, i, n) && PublishedAt(t, q, j, n) ensures p == q && i == j {
      assert PublishedAt(s, p, i, n) && PublishedAt(s, q, j, n);
    }
  }

  lemma StageKeeps(s: State, n: nat, p: Path, content: string)
    requires Inv(s)
    ensures Inv(Exec(s, Stage(n, p, content)))
  {
    var t := Exec(s, Stage(n, p, content));
    forall i | 0 <= i < |t.archives| ensures ArchiveFits(t, t.archives[i]) { SameHash(s, t, s.archives[i]); }
    SameVersions(s, t);
  }

  lemma FileAtFits(s: State, p: Path)
    requires FilesFit(s)
    ensures FileFits(s, p, FileAt(s, p))
  {
  }

  /** A new last version, when the one before it has its final record. */
  lemma AppendedFits(s: State, p: Path, v: Version)
    requires Inv(s) && FileAt(s, p).synced == |FileAt(s, p).versions| - 1
    requires forall i, n :: PublishedAt(s, p, i, n) ==> IsFinal(s.archives[0], n)
    requires VersionFits(s, p, FileAt(s, p).versions + [v], |FileAt(s, p).versions|)
    requires v.writer.Some? ==> forall q, i :: !PublishedAt(s, q, i, v.writer.value)
    ensures Inv(Appended(s, p, v))
  {
    var t := Appended(s, p, v);
    FileAtFits(s, p);
    var prior, vs := FileAt(s, p).versions, FileAt(s, p).versions + [v];
    forall i | 0 <= i < |t.archives| ensures ArchiveFits(t, t.archives[i]) { SameHash(s, t, s.archives[i]); }
    forall q | q in t.files ensures FileFits(t, q, t.files[q]) {
      FileAtFits(s, q);
      forall i | 0 < i < |t.files[q].versions| ensures VersionFits(t, q, t.files[q].versions, i) {
        if q != p {
          assert VersionFits(s, q, s.files[q].versions, i);
        } else if i < |prior| {
          assert VersionFits(s, p, prior, i);
          assert prior[i].writer.Some? ==> PublishedAt(s, p, i, prior[i].writer.value);
          assert vs[i] == prior[i] && vs[i - 1] == prior[i - 1];
        } else {
          assert VersionFits(s, p, vs, i);
        }
      }
    }
    forall q, i, r, j, n | PublishedAt(t, q, i, n) && PublishedAt(t, r, j, n) ensures q == r && i == j {
      assert (q == p && i == |prior|) || PublishedAt(s, q, i, n);
      assert (r == p && j == |prior|) || PublishedAt(s, r, j, n);
    }
  }

  lemma PublishKeeps(s: State, n: nat, p: Path)
    requires Inv(s) && Allowed(s, Publish(n, p))
    ensures Inv(Exec(s, Publish(n, p)))
  {
    var v := Version(Some(s.staged[n].content), Some(n));
    FileAtFits(s, p);
    var vs := FileAt(s, p).versions + [v];
    assert vs[|vs| - 2] == Last(FileAt(s, p).versions);
    forall q, i ensures !PublishedAt(s, q, i, n) {
      assert PublishedAt(s, q, i, n) ==> IsFinal(s.archives[0], n);
    }
    AppendedFits(s, p, v);
    var t := Appended(s, p, v);
    var u := t.(staged := s.staged - {n});
    forall i | 0 <= i < |u.archives| ensures ArchiveFits(u, u.archives[i]) { SameHash(t, u, t.archives[i]); }
    SameVersions(t, u);
    assert u == Exec(s, Publish(n, p));
  }

  lemma CreateKeeps(s: State, p: Path, content: string)
    requires Inv(s)
    ensures Inv(Exec(s, Create(p, content)))
  {
    FileAtFits(s, p);
    var f := FileAt(s, p);
    if Content(s, p).None? {
      assert |f.versions| > 1 ==> VersionFits(s, p, f.versions, |f.versions| - 1);
      var v := Version(Some(content), None);
      forall i, n ensures !PublishedAt(s, p, i, n) { }
      AppendedFits(s, p, v);
    }
  }

  lemma ExecKeeps(s: State, op: FileOp)
    requires Inv(s) && Allowed(s, op)
    ensures Inv(Exec(s, op))
  {
    match op
    case SyncArchive => OneArchiveKeeps(s, |s.archives| - 1);
    case Stage(n, p, content) => StageKeeps(s, n, p, content);
    case SyncDir(dir) => SyncDirKeeps(s, dir);
    case Publish(n, p) => PublishKeeps(s, n, p);
    case Create(p, content) => CreateKeeps(s, p, content);
    case _ => ArchiveOpKeeps(s, op);
  }

  // ---- Scripts ----

  /** Each operation of the script is allowed in the state that it meets. */
  ghost predicate Safe(s: State, ops: seq<FileOp>)
    decreases |ops|
  {
    ops == [] || (Allowed(s, ops[0]) && Safe(Exec(s, ops[0]), ops[1..]))
  }

  /** A safe script may be cut off anywhere. */
  lemma {:induction false} SafeKeeps(s: State, ops: seq<FileOp>, steps: nat)
    requires Inv(s) && Safe(s, ops)
    ensures Inv(ExecAll(s, Done(ops, steps)))
    decreases |ops|
  {
    if ops != [] && steps > 0 {
      ExecKeeps(s, ops[0]);
      SafeKeeps(Exec(s, ops[0]), ops[1..], steps - 1);
      assert Done(ops, steps)[0] == ops[0] && Done(ops, steps)[1..] == Done(ops[1..], steps - 1);
    }
  }

  lemma {:induction false} ExecConcat(s: State, a: seq<FileOp>, b: seq<FileOp>)
    ensures ExecAll(s, a + b) == ExecAll(ExecAll(s, a), b)
    decreases |a|
  {
    if a == [] {
      assert a + b == b;
    } else {
      assert (a + b)[0] == a[0] && (a + b)[1..] == a[1..] + b;
      ExecConcat(Exec(s, a[0]), a[1..], b);
    }
  }

  lemma {:induction false} SafeConcat(s: State, a: seq<FileOp>, b: seq<FileOp>)
    requires Safe(s, a) && Safe(ExecAll(s, a), b)
    ensures Safe(s, a + b)
    decreases |a|
  {
    if a == [] {
      assert a + b == b;
    } else {
      assert (a + b)[0] == a[0] && (a + b)[1..] == a[1..] + b;
      SafeConcat(Exec(s, a[0]), a[1..], b);
    }
  }

  // ---- Recovery ----

  ghost predicate AllFinalise(ops: seq<FileOp>) {
    forall i :: 0 <= i < |ops| ==> ops[i].Finalise?
  }

  /** Intact archives never stop the scan, and it picks every entry that matches. */
  lemma {:induction false} ScanFinds(s: State, entries: seq<nat>)
    requires Inv(s)
    ensures var scan := ScanPending(s, entries);
            && scan.ok && AllFinalise(scan.finalised)
            && (forall n :: n in entries && Matches(s, n) ==> Finalise(n) in scan.finalised)
            && (forall n :: Finalise(n) in scan.finalised ==> Matches(s, n))
    decreases |entries|
  {
    if entries != [] {
      var first := entries[0];
      if Matches(s, first) {
        var t := Exec(s, Finalise(first));
        ExecKeeps(s, Finalise(first));
        ScanFinds(t, entries[1..]);
        assert ArchiveFits(s, Current(s)) && Backed(s, Current(s), Current(s).records[first].rev);
        forall n | n in entries && Matches(s, n) ensures Finalise(n) in ScanPending(s, entries).finalised {
          assert n != first ==> Matches(t, n) && n in entries[1..];
        }
        forall n | Finalise(n) in ScanPending(s, entries).finalised ensures Matches(s, n) {
          assert n == first || Matches(t, n);
        }
      } else {
        ScanFinds(s, entries[1..]);
      }
    }
  }

  lemma {:induction false} FinaliseAll(s: State, ops: seq<FileOp>)
    requires Inv(s) && AllFinalise(ops)
    ensures var t := ExecAll(s, ops);
            && Safe(s, ops) && Inv(t) && t.files == s.files && t.staged == s.staged && t.hash == s.hash
            && Current(t).blobs == Current(s).blobs && Grows(Current(s), Current(t))
            && (forall n :: n in Current(t).records ==> n in Current(s).records)
            && (forall n :: n in Current(s).records && Finalise(n) in ops ==> IsFinal(Current(t), n))
            && (forall n :: IsFinal(Current(t), n) ==> IsFinal(Current(s), n) || Finalise(n) in ops)
    decreases |ops|
  {
    if ops != [] {
      var t := Exec(s, ops[0]);
      ExecKeeps(s, ops[0]);
      assert Grows(Current(s), Current(t));
      FinaliseAll(t, ops[1..]);
      assert forall n :: Finalise(n) in ops ==> ops[0] == Finalise(n) || Finalise(n) in ops[1..];
    }
  }

  /** A publication whose record is not final is the last of its path, and so the live one. */
  lemma UnsettledMatches(s: State, p: Path, i: nat, n: nat)
    requires Inv(s) && PublishedAt(s, p, i, n)
    ensures n in Current(s).records && (IsFinal(Current(s), n) || Matches(s, n))
  {
    FileAtFits(s, p);
    var vs := s.files[p].versions;
    assert i > 0 && VersionFits(s, p, vs, i);
    assert Grows(s.archives[0], Current(s)) || s.archives[0] == Current(s);
  }

  lemma RecoverySettles(s: State, entries: seq<nat>)
    requires Inv(s) && Lists(s, entries)
    ensures var t := ExecAll(s, RecoverScript(s, entries));
            && ScanPending(s, entries).ok && Safe(s, RecoverScript(s, entries)) && Inv(t) && Settled(t, Current(t))
            && t.files == s.files && t.hash == s.hash && Current(t).blobs == Current(s).blobs
            && (forall n :: n in Current(t).records ==> n in Current(s).records)
  {
    ScanFinds(s, entries);
    var ops := ScanPending(s, entries).finalised;
    FinaliseAll(s, ops);
    var m := ExecAll(s, ops);
    forall p, i, n | PublishedAt(m, p, i, n) ensures IsFinal(Current(m), n) {
      assert PublishedAt(s, p, i, n);
      UnsettledMatches(s, p, i, n);
    }
    if ops != [] {
      assert Safe(m, [SyncArchive]);
      SafeConcat(s, ops, [SyncArchive]);
      ExecConcat(s, ops, [SyncArchive]);
      ExecKeeps(m, SyncArchive);
      var t := Exec(m, SyncArchive);
      assert ExecAll(m, [SyncArchive]) == t;
      forall p, i, n | PublishedAt(t, p, i, n) ensures IsFinal(Current(t), n) { assert PublishedAt(m, p, i, n); }
    } else {
      assert RecoverScript(s, entries) == [];
    }
  }

  // ---- Writing ----

  /** What the preparation of a write changes: the archive gains blobs. */
  ghost predicate MoreBlobs(s: State, t: State) {
    && Inv(t) && t.files == s.files && t.hash == s.hash && t.staged == s.staged
    && Current(t).records == Current(s).records && forall d :: d in Current(s).blobs ==> d in Current(t).blobs
  }

  lemma BlobsSaved(s: State, content: Option<string>)
    requires Inv(s)
    ensures BlobOk(s, content) && Safe(s, BlobScript(s, content)) && MoreBlobs(s, ExecAll(s, BlobScript(s, content)))
    ensures content.Some? ==> s.hash(content.value) in Current(ExecAll(s, BlobScript(s, content))).blobs
  {
    assert ArchiveFits(s, Current(s));
    if content.Some? && s.hash(content.value) !in Current(s).blobs {
      var link := LinkBlob(s.hash(content.value), content.value);
      var t := Exec(s, link);
      ExecKeeps(s, link);
      ExecKeeps(t, SyncArchive);
      assert BlobScript(s, content)[1..] == [SyncArchive];
      assert ExecAll(t, [SyncArchive]) == Exec(t, SyncArchive);
      assert Safe(t, [SyncArchive]);
    }
  }

  predicate Free(op: FileOp) {
    op.SyncArchive? || op.Stage? || op.SyncDir? || op.Finalise? || op.Create?
  }

  lemma {:induction false} FreeSafe(s: State, ops: seq<FileOp>)
    requires forall i :: 0 <= i < |ops| ==> Free(ops[i])
    ensures Safe(s, ops)
    decreases |ops|
  {
    if ops != [] { FreeSafe(Exec(s, ops[0]), ops[1..]); }
  }

  lemma ExecTwo(s: State, a: FileOp, b: FileOp)
    ensures ExecAll(s, [a, b]) == Exec(Exec(s, a), b)
  {
    assert [a, b][1..] == [b] && ExecAll(Exec(s, a), [b]) == Exec(Exec(s, a), b);
  }

  lemma ExecThree(s: State, a: FileOp, b: FileOp, c: FileOp)
    ensures ExecAll(s, [a, b, c]) == Exec(Exec(Exec(s, a), b), c)
  {
    ExecTwo(Exec(s, a), b, c);
    assert [a, b, c][1..] == [b, c];
  }

  lemma ExecFour(s: State, a: FileOp, b: FileOp, c: FileOp, d: FileOp)
    ensures ExecAll(s, [a, b, c, d]) == Exec(Exec(Exec(Exec(s, a), b), c), d)
  {
    ExecThree(Exec(s, a), b, c, d);
    assert [a, b, c, d][1..] == [b, c, d];
  }

  lemma RecordSafe(s: State, n: nat, rev: Revision)
    requires Inv(s) && n !in Current(s).records && Backed(s, Current(s), rev)
    ensures var ops := [LinkPending(n, rev), SyncArchive, SyncArchive];
            Safe(s, ops) && Inv(ExecAll(s, ops))
            && ExecAll(s, ops) == s.(archives := [Current(s).(records := Current(s).records[n := Record(rev, false)])])
  {
    var ops := [LinkPending(n, rev), SyncArchive, SyncArchive];
    FreeSafe(Exec(s, ops[0]), ops[1..]);
    ExecThree(s, ops[0], SyncArchive, SyncArchive);
    SafeKeeps(s, ops, 3);
  }

  lemma StageSafe(s: State, n: nat, p: Path, content: string)
    requires Inv(s)
    ensures var ops := [Stage(n, p, content), SyncDir(p.dir)];
            Safe(s, ops) && Inv(ExecAll(s, ops)) && ExecAll(s, ops) == Exec(Exec(s, ops[0]), ops[1])
  {
    var ops := [Stage(n, p, content), SyncDir(p.dir)];
    FreeSafe(s, ops);
    ExecTwo(s, ops[0], ops[1]);
    SafeKeeps(s, ops, 2);
  }

  lemma CommitSafe(s: State, n: nat, p: Path)
    requires Inv(s) && Allowed(s, Publish(n, p))
    ensures var ops := [Publish(n, p), SyncDir(p.dir), Finalise(n), SyncArchive];
            Safe(s, ops) && ExecAll(s, ops) == Exec(Exec(Exec(Exec(s, ops[0]), ops[1]), ops[2]), ops[3])
  {
    var ops := [Publish(n, p), SyncDir(p.dir), Finalise(n), SyncArchive];
    FreeSafe(Exec(s, ops[0]), ops[1..]);
    ExecFour(s, ops[0], ops[1], ops[2], ops[3]);
  }

  lemma CommitFiles(s: State, n: nat, p: Path)
    requires n in s.staged
    ensures var t := Exec(Exec(Exec(Exec(s, Publish(n, p)), SyncDir(p.dir)), Finalise(n)), SyncArchive);
            && OthersKept(s, t, p)
            && FileAt(t, p) == Flushed(FileAt(s, p).(versions := FileAt(s, p).versions + [Version(Some(s.staged[n].content), Some(n))]))
  {
  }

  lemma CommitArchive(s: State, n: nat, p: Path)
    requires n in s.staged && |s.archives| == 1 && n in s.archives[0].records
    ensures var t := Exec(Exec(Exec(Exec(s, Publish(n, p)), SyncDir(p.dir)), Finalise(n)), SyncArchive);
            |t.archives| == 1 && IsFinal(t.archives[0], n) && t.archives[0].records[n].rev == s.archives[0].records[n].rev
  {
  }

  /** From the pending record to the final one. */
  lemma PublishSafe(s: State, r: Request)
    requires Inv(s) && Settled(s, Current(s)) && !Unchanged(s, r) && r.name !in Current(s).records
    requires Backed(s, Current(s), RevisionOf(s, r))
    ensures Safe(s, PublishScript(s, r)) && Published(s, ExecAll(s, PublishScript(s, r)), r)
  {
    var a := [LinkPending(r.name, RevisionOf(s, r)), SyncArchive, SyncArchive];
    var b := [Stage(r.name, r.path, r.content), SyncDir(r.path.dir)];
    var c := [Publish(r.name, r.path), SyncDir(r.path.dir), Finalise(r.name), SyncArchive];
    RecordSafe(s, r.name, RevisionOf(s, r));
    var t := ExecAll(s, a);
    StageSafe(t, r.name, r.path, r.content);
    var u := ExecAll(t, b);
    ReadyToPublish(s, u, r);
    CommitSafe(u, r.name, r.path);
    CommitFiles(u, r.name, r.path);
    CommitArchive(u, r.name, r.path);
    SafeConcat(s, a, b);
    ExecConcat(s, a, b);
    SafeConcat(s, a + b, c);
    ExecConcat(s, a + b, c);
    SyncKeepsVersions(s, u, r.path.dir);
  }

  lemma SyncKeepsVersions(s: State, u: State, dir: string)
    requires u.files == Exec(s, SyncDir(dir)).files
    ensures forall q :: FileAt(u, q).versions == FileAt(s, q).versions
  {
  }

  lemma ReadyToPublish(s: State, t: State, r: Request)
    requires Inv(s) && Inv(t) && Settled(s, Current(s)) && !Unchanged(s, r) && r.name !in Current(s).records
    requires t.hash == s.hash && t.archives == [Current(s).(records := Current(s).records[r.name := Record(RevisionOf(s, r), false)])]
    requires t.files == Exec(s, SyncDir(r.path.dir)).files && r.name in t.staged && t.staged[r.name] == Staged(r.path, r.content)
    ensures Allowed(t, Publish(r.name, r.path))
  {
    FileAtFits(s, r.path);
    assert FileAt(t, r.path).versions == FileAt(s, r.path).versions;
    forall p, i, n | PublishedAt(t, p, i, n) ensures IsFinal(t.archives[0], n) { assert PublishedAt(s, p, i, n); }
  }

  ghost predicate OthersKept(s: State, t: State, p: Path) {
    forall q :: q != p ==> FileAt(t, q).versions == FileAt(s, q).versions
  }

  /** The write is live on disk, its record is final on disk, and no other file has changed. */
  ghost predicate Published(s: State, t: State, r: Request) {
    && OthersKept(s, t, r.path)
    && FileAt(t, r.path) == Flushed(FileAt(s, r.path).(versions := FileAt(s, r.path).versions + [Version(Some(r.content), Some(r.name))]))
    && |t.archives| == 1 && IsFinal(t.archives[0], r.name) && t.archives[0].records[r.name].rev == RevisionOf(s, r)
  }

  /** Both byte strings are archived before anything else happens. */
  lemma BothSaved(s: State, r: Request)
    requires Inv(s) && !Unchanged(s, r)
    ensures var ops := BlobScript(s, Content(s, r.path)) + BlobScript(s, Some(r.content));
            Safe(s, ops) && MoreBlobs(s, ExecAll(s, ops)) && Backed(s, Current(ExecAll(s, ops)), RevisionOf(s, r))
            && BlobOk(s, Content(s, r.path)) && BlobOk(s, Some(r.content))
  {
    var a, b := BlobScript(s, Content(s, r.path)), BlobScript(s, Some(r.content));
    BlobsSaved(s, Content(s, r.path));
    var t := ExecAll(s, a);
    BlobsSaved(t, Some(r.content));
    BlobsSaved(s, Some(r.content));
    OtherBlob(s, t, r);
    assert b == BlobScript(t, Some(r.content));
    SafeConcat(s, a, b);
    ExecConcat(s, a, b);
    assert ArchiveFits(ExecAll(t, b), Current(ExecAll(t, b)));
  }

  lemma WriteSafe(s: State, r: Request)
    requires Inv(s) && Settled(s, Current(s))
    ensures Safe(s, WriteScript(s, r))
    ensures if Conflicts(s, r) || Unchanged(s, r) then WriteScript(s, r) == []
            else if r.name in Current(s).records then ExecAll(s, WriteScript(s, r)).files == s.files
            else Published(s, ExecAll(s, WriteScript(s, r)), r)
  {
    if !Conflicts(s, r) && !Unchanged(s, r) {
      BothSaved(s, r);
      WriteParts(s, r);
      var ops := BlobScript(s, Content(s, r.path)) + BlobScript(s, Some(r.content));
      if r.name !in Current(s).records {
        PublishAfterBlobs(s, ExecAll(s, ops), r);
        SafeConcat(s, ops, PublishScript(s, r));
        ExecConcat(s, ops, PublishScript(s, r));
      }
    }
  }

  lemma WriteParts(s: State, r: Request)
    requires !Conflicts(s, r) && !Unchanged(s, r) && BlobOk(s, Content(s, r.path)) && BlobOk(s, Some(r.content))
    ensures var ops := BlobScript(s, Content(s, r.path)) + BlobScript(s, Some(r.content));
            WriteScript(s, r) == if r.name in Current(s).records then ops else ops + PublishScript(s, r)
  {
    var a, b := BlobScript(s, Content(s, r.path)), BlobScript(s, Some(r.content));
    assert a + (b + []) == a + b && a + (b + PublishScript(s, r)) == (a + b) + PublishScript(s, r);
  }

  lemma PublishAfterBlobs(s: State, u: State, r: Request)
    requires MoreBlobs(s, u) && Settled(s, Current(s)) && !Unchanged(s, r) && r.name !in Current(s).records
    requires Backed(s, Current(u), RevisionOf(s, r))
    ensures Safe(u, PublishScript(s, r)) && Published(s, ExecAll(u, PublishScript(s, r)), r)
  {
    assert RevisionOf(u, r) == RevisionOf(s, r) && PublishScript(u, r) == PublishScript(s, r);
    forall p, i, n | PublishedAt(u, p, i, n) ensures IsFinal(Current(u), n) { assert PublishedAt(s, p, i, n); }
    assert Backed(u, Current(u), RevisionOf(u, r));
    PublishSafe(u, r);
    assert FileAt(u, r.path) == FileAt(s, r.path);
  }

  /** Archiving the old bytes does not archive the new ones. */
  lemma OtherBlob(s: State, t: State, r: Request)
    requires !Unchanged(s, r) && t == ExecAll(s, BlobScript(s, Content(s, r.path)))
    ensures t.hash == s.hash && (s.hash(r.content) in Current(t).blobs <==> s.hash(r.content) in Current(s).blobs)
  {
    var was := Content(s, r.path);
    if BlobScript(s, was) != [] { ExecTwo(s, LinkBlob(s.hash(was.value), was.value), SyncArchive); }
  }

  // ---- Every run ----

  lemma PowerLossKeeps(s: State, archive: nat, cuts: map<Path, nat>, left: set<nat>)
    requires Inv(s)
    ensures Inv(PowerLoss(s, archive, cuts, left))
  {
    if archive < |s.archives| {
      OneArchiveKeeps(s, archive);
      var m, t := s.(archives := [s.archives[archive]]), PowerLoss(s, archive, cuts, left);
      SameHash(m, t, t.archives[0]);
      forall p | p in t.files ensures FileFits(t, p, t.files[p]) {
        assert FileFits(m, p, m.files[p]);
        forall i | 0 < i < |t.files[p].versions| ensures VersionFits(t, p, t.files[p].versions, i) {
          assert VersionFits(m, p, m.files[p].versions, i);
          assert t.files[p].versions[i - 1] == m.files[p].versions[i - 1];
        }
      }
      forall p, i, q, j, n | PublishedAt(t, p, i, n) && PublishedAt(t, q, j, n) ensures p == q && i == j {
        assert PublishedAt(m, p, i, n) && PublishedAt(m, q, j, n);
      }
    }
  }

  lemma ScriptSafe(s: State, entries: seq<nat>, r: Request)
    requires Inv(s) && Lists(s, entries)
    ensures var t := ExecAll(s, RecoverScript(s, entries));
            && Safe(s, Script(s, entries, r)) && Inv(t) && Settled(t, Current(t)) && t.files == s.files && t.hash == s.hash
            && ExecAll(s, Script(s, entries, r)) == ExecAll(t, WriteScript(t, r))
            && (forall n :: n in Current(t).records ==> n in Current(s).records)
  {
    RecoverySettles(s, entries);
    var a, t := RecoverScript(s, entries), ExecAll(s, RecoverScript(s, entries));
    WriteSafe(t, r);
    SafeConcat(s, a, WriteScript(t, r));
    ExecConcat(s, a, WriteScript(t, r));
  }

  lemma StepKeeps(s: State, e: Event)
    requires Inv(s)
    ensures Inv(Step(s, e))
  {
    match e
    case Write(r, entries, steps) =>
      if Lists(s, entries) { ScriptSafe(s, entries, r); SafeKeeps(s, Script(s, entries, r), steps); }
    case Recovery(entries, steps) =>
      if Lists(s, entries) { RecoverySettles(s, entries); SafeKeeps(s, RecoverScript(s, entries), steps); }
    case Ensure(p, content, steps) => FreeSafe(s, EnsureScript(p, content)); SafeKeeps(s, EnsureScript(p, content), steps);
    case Blackout(archive, cuts, left) => PowerLossKeeps(s, archive, cuts, left);
  }

  lemma {:induction false} RunKeeps(s: State, events: seq<Event>)
    requires Inv(s)
    ensures Inv(Run(s, events))
    decreases |events|
  {
    if events != [] {
      StepKeeps(s, events[0]);
      RunKeeps(Step(s, events[0]), events[1..]);
    }
  }

  /** Whatever writes, crashes after any file operation, recoveries and power failures came
      before: every publication on every path has its record, which names the digest of the
      publication and that of the version right before it. The record is final, or the
      publication is the live one and the next recovery makes its record final. */
  lemma NoPublicationLost(s: State, events: seq<Event>, p: Path, i: nat, n: nat)
    requires Initial(s) && PublishedAt(Run(s, events), p, i, n)
    ensures var t := Run(s, events); var vs := t.files[p].versions;
            && i > 0 && vs[i].content.Some? && n in Current(t).records
            && Current(t).records[n].rev == Revision(p, t.hash(vs[i].content.value), Digest(t, vs[i - 1].content))
            && Digest(t, vs[i].content) != Digest(t, vs[i - 1].content)
            && (IsFinal(Current(t), n) || (i == |vs| - 1 && Matches(t, n)))
  {
    RunKeeps(s, events);
    var t := Run(s, events);
    var vs := t.files[p].versions;
    FileAtFits(t, p);
    assert VersionFits(t, p, vs, i);
    assert Grows(t.archives[0], Current(t)) || t.archives[0] == Current(t);
    UnsettledMatches(t, p, i, n);
  }

  /** ... and no two publications share a record. */
  lemma RecordsNotShared(s: State, events: seq<Event>, p: Path, i: nat, q: Path, j: nat, n: nat)
    requires Initial(s) && PublishedAt(Run(s, events), p, i, n) && PublishedAt(Run(s, events), q, j, n)
    ensures p == q && i == j
  {
    RunKeeps(s, events);
  }

  /** A recovery that runs to its end leaves no publication without its final record. */
  lemma RecoveryFinalisesAll(s: State, events: seq<Event>, entries: seq<nat>, steps: nat, p: Path, i: nat, n: nat)
    requires Initial(s) && Lists(Run(s, events), entries) && steps >= |RecoverScript(Run(s, events), entries)|
    requires PublishedAt(Step(Run(s, events), Recovery(entries, steps)), p, i, n)
    ensures IsFinal(Current(Step(Run(s, events), Recovery(entries, steps))), n)
  {
    RunKeeps(s, events);
    RecoverySettles(Run(s, events), entries);
  }

  /** Recovery looks only at digests: a record becomes final exactly when the live bytes of its
      path are the ones it names, whether its own write published them or a later one did. */
  lemma RecoveryFinalisesExactly(s: State, entries: seq<nat>, n: nat)
    requires Inv(s) && Lists(s, entries)
    ensures IsFinal(Current(ExecAll(s, RecoverScript(s, entries))), n) <==> IsFinal(Current(s), n) || Matches(s, n)
  {
    ScanFinds(s, entries);
    var ops := ScanPending(s, entries).finalised;
    FinaliseAll(s, ops);
    var m := ExecAll(s, ops);
    if ops != [] {
      ExecConcat(s, ops, [SyncArchive]);
      assert ExecAll(m, [SyncArchive]) == Exec(m, SyncArchive);
    } else {
      assert RecoverScript(s, entries) == [];
    }
    assert IsFinal(Current(s), n) ==> IsFinal(Current(m), n);
  }

  /** In whatever state a crash or a power failure leaves the archive: the bytes of every
      record, new and replaced, are there and match their digests. */
  lemma RecordsBacked(s: State, events: seq<Event>, i: nat, n: nat)
    requires Initial(s) && i < |Run(s, events).archives| && n in Run(s, events).archives[i].records
    ensures Backed(Run(s, events), Run(s, events).archives[i], Run(s, events).archives[i].records[n].rev)
  {
    RunKeeps(s, events);
    assert ArchiveFits(Run(s, events), Run(s, events).archives[i]);
  }

  /** Compare and swap: a write that runs to its end publishes exactly when it expected the
      live digest, changes it, and has a name of its own; otherwise no file changes. */
  lemma WritesExactlyWhen(s: State, r: Request, entries: seq<nat>, steps: nat)
    requires Inv(s) && Lists(s, entries) && steps >= |Script(s, entries, r)|
    ensures var t := Step(s, Write(r, entries, steps));
            if Conflicts(s, r) || Unchanged(s, r) then t.files == s.files
            else r.name in Current(s).records || Published(s, t, r)
  {
    ScriptSafe(s, entries, r);
    var m := ExecAll(s, RecoverScript(s, entries));
    WriteSafe(m, r);
    assert Step(s, Write(r, entries, steps)) == ExecAll(m, WriteScript(m, r));
    assert Conflicts(s, r) == Conflicts(m, r) && Unchanged(s, r) == Unchanged(m, r);
  }

  /** A stale write changes no file, wherever it is cut off. */
  lemma StaleWriteChangesNothing(s: State, r: Request, entries: seq<nat>, steps: nat)
    requires Inv(s) && Lists(s, entries) && Conflicts(s, r)
    ensures Step(s, Write(r, entries, steps)).files == s.files
  {
    ScriptSafe(s, entries, r);
    var m := ExecAll(s, RecoverScript(s, entries));
    assert WriteScript(m, r) == [] && Script(s, entries, r) == RecoverScript(s, entries);
    ScanFinds(s, entries);
    RecoverTouchesNoFile(s, RecoverScript(s, entries), steps);
  }

  lemma {:induction false} RecoverTouchesNoFile(s: State, ops: seq<FileOp>, steps: nat)
    requires forall i :: 0 <= i < |ops| ==> ops[i].Finalise? || ops[i].SyncArchive?
    ensures ExecAll(s, Done(ops, steps)).files == s.files
    decreases |ops|
  {
    if ops != [] && steps > 0 {
      RecoverTouchesNoFile(Exec(s, ops[0]), ops[1..], steps - 1);
      assert Done(ops, steps)[0] == ops[0] && Done(ops, steps)[1..] == Done(ops[1..], steps - 1);
    }
  }

  // ---- What is on disk stays ----

  ghost predicate FileStays(f: File, g: File) {
    && f.synced <= g.synced && f.synced < |f.versions| && g.synced < |g.versions|
    && forall i :: 0 <= i <= f.synced ==> g.versions[i] == f.versions[i]
  }

  ghost predicate Stays(s: State, t: State) {
    && |s.archives| > 0 && |t.archives| > 0 && t.hash == s.hash && Grows(s.archives[0], t.archives[0])
    && forall p :: FileStays(FileAt(s, p), FileAt(t, p))
  }

  lemma StaysOn(s: State, t: State, u: State)
    requires Stays(s, t) && Stays(t, u)
    ensures Stays(s, u)
  {
  }

  lemma ExecStays(s: State, op: FileOp)
    requires Inv(s)
    ensures Stays(s, Exec(s, op))
  {
    var t := Exec(s, op);
    assert Grows(s.archives[0], t.archives[0]) && t.hash == s.hash;
    ExecFilesStay(s, op);
  }

  lemma ExecFilesStay(s: State, op: FileOp)
    requires FilesFit(s)
    ensures forall p :: FileStays(FileAt(s, p), FileAt(Exec(s, op), p))
  {
  }

  lemma {:induction false} ExecAllStays(s: State, ops: seq<FileOp>, steps: nat)
    requires Inv(s) && Safe(s, ops)
    ensures Stays(s, ExecAll(s, Done(ops, steps)))
    decreases |ops|
  {
    if ops == [] || steps == 0 {
      assert Done(ops, steps) == [];
      forall p ensures FileStays(FileAt(s, p), FileAt(s, p)) { FileAtFits(s, p); }
    } else {
      ExecStays(s, ops[0]);
      ExecKeeps(s, ops[0]);
      ExecAllStays(Exec(s, ops[0]), ops[1..], steps - 1);
      assert Done(ops, steps)[0] == ops[0] && Done(ops, steps)[1..] == Done(ops[1..], steps - 1);
      StaysOn(s, Exec(s, ops[0]), ExecAll(s, Done(ops, steps)));
    }
  }

  /** A power failure takes at most the last version of a path, and none that is on disk. */
  lemma PowerLossTakesOne(s: State, archive: nat, cuts: map<Path, nat>, left: set<nat>)
    requires Inv(s)
    ensures var t := PowerLoss(s, archive, cuts, left);
            Stays(s, t) && forall p :: |FileAt(s, p).versions| - 1 <= |FileAt(t, p).versions| <= |FileAt(s, p).versions|
  {
  }

  lemma StepStays(s: State, e: Event)
    requires Inv(s)
    ensures Stays(s, Step(s, e))
  {
    match e
    case Write(r, entries, steps) =>
      if Lists(s, entries) { ScriptSafe(s, entries, r); ExecAllStays(s, Script(s, entries, r), steps); } else { ExecAllStays(s, [], 0); }
    case Recovery(entries, steps) =>
      if Lists(s, entries) { RecoverySettles(s, entries); ExecAllStays(s, RecoverScript(s, entries), steps); } else { ExecAllStays(s, [], 0); }
    case Ensure(p, content, steps) => FreeSafe(s, EnsureScript(p, content)); ExecAllStays(s, EnsureScript(p, content), steps);
    case Blackout(archive, cuts, left) => PowerLossTakesOne(s, archive, cuts, left);
  }

  lemma {:induction false} RunStays(s: State, events: seq<Event>)
    requires Inv(s)
    ensures Stays(s, Run(s, events))
    decreases |events|
  {
    if events == [] {
      ExecAllStays(s, [], 0);
    } else {
      StepStays(s, events[0]);
      StepKeeps(s, events[0]);
      RunStays(Step(s, events[0]), events[1..]);
      StaysOn(s, Step(s, events[0]), Run(s, events));
    }
  }

  /** Once a write has returned, its version and its final record outlast every later crash
      and power failure, at any point of any later operation. */
  lemma AcknowledgedWriteSurvives(s: State, r: Request, entries: seq<nat>, steps: nat, later: seq<Event>, k: nat)
    requires Inv(s) && Lists(s, entries) && steps >= |Script(s, entries, r)|
    requires !Conflicts(s, r) && !Unchanged(s, r) && r.name !in Current(s).records
    requires k < |Run(Step(s, Write(r, entries, steps)), later).archives|
    ensures var u, i := Run(Step(s, Write(r, entries, steps)), later), |FileAt(s, r.path).versions|;
            && i < |FileAt(u, r.path).versions|
            && FileAt(u, r.path).versions[i] == Version(Some(r.content), Some(r.name))
            && IsFinal(u.archives[k], r.name)
  {
    var t := Step(s, Write(r, entries, steps));
    WritesExactlyWhen(s, r, entries, steps);
    StepKeeps(s, Write(r, entries, steps));
    RunStays(t, later);
    RunKeeps(t, later);
    var u, i := Run(t, later), |FileAt(s, r.path).versions|;
    var f, g := FileAt(t, r.path), FileAt(u, r.path);
    assert FileStays(f, g) && f.synced == i;
    assert Grows(u.archives[0], u.archives[k]) || k == 0;
  }

  // ---- A final record without a publication ----

  /** A write that dies right after its pending record. */
  lemma DiesAfterPending(s: State, p: Path, text: string)
    requires Initial(s)
    ensures Step(s, Write(Request(p, text, None, 1), [], 4)) ==
            s.(archives := [Archive(map[s.hash(text) := text], map[1 := Record(Revision(p, s.hash(text), None), false)])])
  {
    var r, h := Request(p, text, None, 1), s.hash(text);
    var a, b := LinkBlob(h, text), LinkPending(1, Revision(p, h, None));
    var script := Script(s, [], r);
    assert RecoverScript(s, []) == [];
    assert script == BlobScript(s, Some(text)) + PublishScript(s, r);
    assert Done(script, 4) == [a, SyncArchive, b, SyncArchive];
    ExecFour(s, a, SyncArchive, b, SyncArchive);
  }

  /** Another write of the same bytes is completed; it publishes under its own name only. */
  lemma SecondPublishes(s: State, p: Path, text: string) returns (second: Event)
    requires Inv(s) && s.files == map[] && s.archives == [Archive(map[s.hash(text) := text], map[1 := Record(Revision(p, s.hash(text), None), false)])]
    ensures var t := Step(s, second);
            Inv(t) && (Matches(t, 1) || IsFinal(Current(t), 1)) && forall q, i :: !PublishedAt(t, q, i, 1)
  {
    var r := Request(p, text, None, 2);
    second := Write(r, [1], |Script(s, [1], r)|);
    var t := Step(s, second);
    WritesExactlyWhen(s, r, [1], |Script(s, [1], r)|);
    StepKeeps(s, second);
    StepStays(s, second);
    assert Published(s, t, r);
    assert Current(s).records[1].rev == Revision(p, s.hash(text), None);
    assert 1 in Current(t).records && Current(t).records[1].rev == Revision(p, s.hash(text), None);
    assert Content(t, p) == Some(text);
    forall q, i ensures !PublishedAt(t, q, i, 1) {
      assert FileAt(s, q).versions == [Version(None, None)];
      assert q != p ==> FileAt(t, q).versions == FileAt(s, q).versions;
    }
  }

  lemma {:induction false} ListOf(xs: set<nat>) returns (list: seq<nat>)
    ensures forall n :: n in xs ==> n in list
    decreases |xs|
  {
    list := [];
    if xs != {} {
      var x :| x in xs;
      var rest := ListOf(xs - {x});
      list := [x] + rest;
      assert forall n :: n in xs ==> n == x || n in xs - {x};
    }
  }

  /** After that, recovery makes the record of the first write final too, though nothing was
      ever published under its name. */
  lemma OrphanBecomesFinal(s: State, p: Path, text: string) returns (events: seq<Event>)
    requires Initial(s)
    ensures IsFinal(Current(Run(s, events)), 1)
    ensures forall q, i :: !PublishedAt(Run(s, events), q, i, 1)
  {
    var first := Write(Request(p, text, None, 1), [], 4);
    DiesAfterPending(s, p, text);
    StepKeeps(s, first);
    var second := SecondPublishes(Step(s, first), p, text);
    var t := Step(Step(s, first), second);
    var entries := ListOf(Current(t).records.Keys);
    assert Lists(t, entries);
    RecoveryFinalisesExactly(t, entries, 1);
    RecoverySettles(t, entries);
    var third := Recovery(entries, |RecoverScript(t, entries)|);
    events := [first, second, third];
    RunThree(s, first, second, third);
    var u := Step(t, third);
    assert u.files == t.files;
    forall q, i ensures !PublishedAt(u, q, i, 1) { assert !PublishedAt(t, q, i, 1); }
  }

  lemma RunThree(s: State, a: Event, b: Event, c: Event)
    ensures Run(s, [a, b, c]) == Step(Step(Step(s, a), b), c)
  {
    assert [a, b, c][1..] == [b, c] && [b, c][1..] == [c] && [c][1..] == [];
    assert Run(Step(s, a), [b, c]) == Run(Step(Step(s, a), b), [c]);
  }
}
