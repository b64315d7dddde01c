module WorkspaceStore {
  import opened Options
  import opened WorkspaceModel
  import opened WorkspaceTheorems

  datatype Outcome = Died | Refused | Conflict | Same | Wrote

  lemma FinaliseNext(s: State, t: State, script: seq<FileOp>, k: nat, n: nat)
    requires k < |script| && script[k] == Finalise(n) && t == ExecAll(s, script[..k])
    ensures ExecAll(s, script[..k + 1]) == Exec(t, Finalise(n))
  {
    assert script[..k + 1] == script[..k] + [Finalise(n)];
    ExecConcat(s, script[..k], [Finalise(n)]);
    assert ExecAll(t, [Finalise(n)]) == Exec(t, Finalise(n));
  }

  lemma BlobAdded(t: State, content: Option<string>)
    ensures var u := ExecAll(t, BlobScript(t, content));
            && u.files == t.files && u.hash == t.hash && Current(u).records == Current(t).records
            && (forall d :: Some(d) != Digest(t, content) ==> (d in Current(u).blobs <==> d in Current(t).blobs))
            && (forall d :: Some(d) != Digest(t, content) && d in Current(t).blobs ==> Current(u).blobs[d] == Current(t).blobs[d])
  {
    if BlobScript(t, content) != [] { ExecTwo(t, LinkBlob(t.hash(content.value), content.value), SyncArchive); }
  }

  lemma AfterBlob(s: State, script: seq<FileOp>, k: nat, t: State, u: State, a: seq<FileOp>)
    requires k + |a| <= |script| && script[k..k + |a|] == a
    requires t == ExecAll(s, script[..k]) && u == ExecAll(s, script[..k + |a|])
    ensures u == ExecAll(t, a)
  {
    ExecConcat(s, script[..k], a);
    assert script[..k + |a|] == script[..k] + a;
  }

  lemma NewBlobDone(s: State, script: seq<FileOp>, k: nat, t: State, u: State, r: Request)
    requires var a := BlobScript(t, Some(r.content)); k + |a| <= |script| && script[k..k + |a|] == a
    requires t == ExecAll(s, script[..k]) && u == ExecAll(s, script[..k + |BlobScript(t, Some(r.content))|])
    ensures u.files == t.files && u.hash == t.hash && Current(u).records == Current(t).records && PublishScript(u, r) == PublishScript(t, r)
  {
    AfterBlob(s, script, k, t, u, BlobScript(t, Some(r.content)));
    BlobAdded(t, Some(r.content));
  }

  lemma OldBlobKeepsRecords(s: State, script: seq<FileOp>, k: nat, t: State, u: State, r: Request)
    requires var a := BlobScript(t, Content(t, r.path)); k + |a| <= |script| && script[k..k + |a|] == a
    requires t == ExecAll(s, script[..k]) && u == ExecAll(s, script[..k + |BlobScript(t, Content(t, r.path))|])
    requires !Unchanged(t, r)
    ensures Current(u).records == Current(t).records && (BlobOk(u, Some(r.content)) <==> BlobOk(t, Some(r.content)))
  {
    AfterBlob(s, script, k, t, u, BlobScript(t, Content(t, r.path)));
    BlobAdded(t, Content(t, r.path));
  }

  lemma OldBlobDone(s: State, script: seq<FileOp>, k: nat, t: State, u: State, r: Request)
    requires var a := BlobScript(t, Content(t, r.path)); k + |a| <= |script| && script[k..k + |a|] == a
    requires t == ExecAll(s, script[..k]) && u == ExecAll(s, script[..k + |BlobScript(t, Content(t, r.path))|])
    requires !Unchanged(t, r)
    ensures u.files == t.files && u.hash == t.hash && NewScript(u, r) == NewScript(t, r)
  {
    AfterBlob(s, script, k, t, u, BlobScript(t, Content(t, r.path)));
    BlobAdded(t, Content(t, r.path));
  }

  /** What is left of a script after its next part. */
  lemma Advance(script: seq<FileOp>, k: nat, part: seq<FileOp>, rest: seq<FileOp>)
    requires k <= |script| && script[k..] == part + rest
    ensures k + |part| <= |script| && script[k..k + |part|] == part && script[k + |part|..] == rest
  {
    assert script[k + |part|..] == script[k..][|part|..];
    assert script[k..k + |part|] == script[k..][..|part|];
  }

  lemma ScanNext(t: State, entries: seq<nat>, i: nat)
    requires i < |entries|
    ensures var n, rest := entries[i], entries[i + 1..];
            ScanPending(t, entries[i..]) ==
              if !Matches(t, n) then ScanPending(t, rest)
              else if !HasBlob(t, Current(t).records[n].rev.digest) then Scan([], false)
              else Scan([Finalise(n)] + ScanPending(Exec(t, Finalise(n)), rest).finalised, ScanPending(Exec(t, Finalise(n)), rest).ok)
  {
    assert entries[i..][0] == entries[i] && entries[i..][1..] == entries[i + 1..];
  }

  lemma RecoverParts(s: State, entries: seq<nat>, script: seq<FileOp>)
    requires RecoverScript(s, entries) <= script
    ensures var scan := ScanPending(s, entries);
            && |scan.finalised| <= |script| && script[..|scan.finalised|] == scan.finalised
            && |RecoverScript(s, entries)| == |scan.finalised| + (if scan.ok && scan.finalised != [] then 1 else 0)
            && (scan.ok && scan.finalised != [] ==> |scan.finalised| < |script| && script[|scan.finalised|] == SyncArchive)
  {
  }

  lemma ScriptParts(s: State, entries: seq<nat>, r: Request)
    ensures var head, script := RecoverScript(s, entries), Script(s, entries, r);
            && head <= script && script[..|head|] == head
            && script[|head|..] == if ScanPending(s, entries).ok then WriteScript(ExecAll(s, head), r) else []
  {
  }

  /** Intact archives refuse nothing, and the write is published exactly if the request expected
      the live digest, changes it and has a name of its own. */
  lemma PublishedExactlyWhen(s: State, entries: seq<nat>, r: Request)
    requires Inv(s) && Lists(s, entries)
    ensures var m, t := ExecAll(s, RecoverScript(s, entries)), ExecAll(s, Script(s, entries, r));
            && ScanPending(s, entries).ok && m.files == s.files && m.hash == s.hash
            && (!Unchanged(m, r) ==> BlobOk(m, Content(m, r.path)) && BlobOk(m, Some(r.content)))
            && (r.name in Current(m).records ==> r.name in Current(s).records)
            && (Published(s, t, r) <==> !Conflicts(s, r) && !Unchanged(s, r) && r.name !in Current(m).records)
  {
    RecoverySettles(s, entries);
    ScriptSafe(s, entries, r);
    var m := ExecAll(s, RecoverScript(s, entries));
    WriteSafe(m, r);
    if !Unchanged(m, r) { BothSaved(m, r); }
    var t := ExecAll(m, WriteScript(m, r));
    assert FileAt(m, r.path) == FileAt(s, r.path) && RevisionOf(m, r) == RevisionOf(s, r);
    if t.files == s.files { assert |FileAt(t, r.path).versions| == |FileAt(s, r.path).versions|; }
  }

  /** What the answer says of the state after recovery `m`. */
  ghost predicate Answers(out: Outcome, m: State, r: Request) {
    && (out.Conflict? <==> Conflicts(m, r)) && (out.Same? <==> !Conflicts(m, r) && Unchanged(m, r))
    && (out.Refused? ==> !BlobOk(m, Content(m, r.path)) || !BlobOk(m, Some(r.content)) || r.name in Current(m).records)
    && (out.Wrote? ==> r.name !in Current(m).records)
  }

  lemma AnswersFromStart(s: State, entries: seq<nat>, r: Request, out: Outcome)
    requires Inv(s) && Lists(s, entries) && !out.Died? && Answers(out, ExecAll(s, RecoverScript(s, entries)), r)
    ensures (out.Conflict? <==> Conflicts(s, r)) && (out.Same? <==> !Conflicts(s, r) && Unchanged(s, r))
    ensures out.Wrote? <==> Published(s, ExecAll(s, Script(s, entries, r)), r)
    ensures out.Refused? ==> r.name in Current(s).records
  {
    PublishedExactlyWhen(s, entries, r);
    var m := ExecAll(s, RecoverScript(s, entries));
    assert Conflicts(s, r) == Conflicts(m, r) && Unchanged(s, r) == Unchanged(m, r);
  }

  /** A process that lived for `lives` operations did the script, or that much of it. */
  lemma ScriptDone(s: State, script: seq<FileOp>, k: nat, left: nat)
    requires k == |script| || (k < |script| && left == 0)
    ensures ExecAll(s, script[..k]) == ExecAll(s, Done(script, k + left)) && (k + left < |script| <==> k < |script|)
  {
    assert script[..|script|] == script;
  }

  /** A workspace directory and its archive directory. `budget` is how many more file
      operations the process lives to perform. */
  class Store {
    const hash: string -> nat
    var files: map<Path, File>
    var staged: map<nat, Staged>
    var archives: seq<Archive>
    var budget: nat

    ghost function Tables(): State
      reads this
    {
      State(hash, files, staged, archives)
    }

    constructor (hash: string -> nat)
      ensures Tables() == State(hash, map[], map[], [Archive(map[], map[])])
    {
      this.hash := hash;
      files, staged, archives, budget := map[], map[], [Archive(map[], map[])], 0;
    }

    /** One file operation, or none if the process is dead. */
    method Perform(op: FileOp) returns (ok: bool)
      modifies this
      ensures ok <==> old(budget) > 0
      ensures ok ==> Tables() == Exec(old(Tables()), op) && budget == old(budget) - 1
      ensures !ok ==> Tables() == old(Tables()) && budget == old(budget)
    {
      if budget == 0 { return false; }
      budget := budget - 1;
      var a := if |archives| == 0 then Archive(map[], map[]) else archives[|archives| - 1];
      match op {
        case LinkBlob(d, bytes) =>
          if d !in a.blobs { archives := archives + [a.(blobs := a.blobs[d := bytes])]; }
        case LinkPending(n, rev) =>
          if n !in a.records { archives := archives + [a.(records := a.records[n := Record(rev, false)])]; }
        case SyncArchive =>
          archives := [a];
        case Finalise(n) =>
          if n in a.records { archives := archives + [a.(records := a.records[n := a.records[n].(final := true)])]; }
        case Stage(n, p, content) =>
          staged := staged[n := Staged(p, content)];
        case SyncDir(dir) =>
          files := map p | p in files :: if p.dir == dir then Flushed(files[p]) else files[p];
        case Publish(n, p) =>
          if n in staged {
            AddVersion(p, Version(Some(staged[n].content), Some(n)));
            staged := staged - {n};
          }
        case Create(p, content) =>
          if p !in files || |files[p].versions| == 0 || files[p].versions[|files[p].versions| - 1].content.None? {
            AddVersion(p, Version(Some(content), None));
          }
      }
      return true;
    }

    method AddVersion(p: Path, v: Version)
      modifies this`files
      ensures files == old(files)[p := FileAt(old(Tables()), p).(versions := FileAt(old(Tables()), p).versions + [v])]
    {
      var f := if p in files then files[p] else File([Version(None, None)], 0);
      files := files[p := f.(versions := f.versions + [v])];
    }

    /** The first `k` operations of the script have been performed since the state `s`. */
    ghost predicate On(s: State, script: seq<FileOp>, k: nat)
      reads this
    {
      k <= |script| && Tables() == ExecAll(s, script[..k])
    }

    method Next(op: FileOp, ghost s: State, ghost script: seq<FileOp>, ghost k: nat) returns (ok: bool)
      requires On(s, script, k) && k < |script| && script[k] == op
      modifies this
      ensures ok <==> old(budget) > 0
      ensures ok ==> On(s, script, k + 1) && budget == old(budget) - 1
      ensures !ok ==> On(s, script, k) && budget == 0
    {
      ok := Perform(op);
      assert script[..k + 1] == script[..k] + [op];
      ExecConcat(s, script[..k], [op]);
      assert ExecAll(ExecAll(s, script[..k]), [op]) == Exec(ExecAll(s, script[..k]), op);
    }

    method MatchesLive(n: nat) returns (yes: bool)
      ensures yes <==> Matches(Tables(), n)
    {
      if |archives| == 0 || n !in archives[|archives| - 1].records { return false; }
      var record := archives[|archives| - 1].records[n];
      if record.final || record.rev.path !in files || |files[record.rev.path].versions| == 0 { return false; }
      var live := files[record.rev.path].versions[|files[record.rev.path].versions| - 1].content;
      if live.None? { return false; }
      return hash(live.value) == record.rev.digest;
    }

    method Intact(d: nat) returns (yes: bool)
      ensures yes <==> HasBlob(Tables(), d)
    {
      if |archives| == 0 { return false; }
      var a := archives[|archives| - 1];
      yes := d in a.blobs && hash(a.blobs[d]) == d;
    }

    /** One matching record becomes final, if its blob is there. */
    method FinaliseEntry(n: nat, ghost s: State, ghost script: seq<FileOp>, ghost k: nat) returns (ok: bool, error: bool)
      requires On(s, script, k) && Matches(Tables(), n)
      requires HasBlob(Tables(), Current(Tables()).records[n].rev.digest) ==> k < |script| && script[k] == Finalise(n)
      modifies this
      ensures error <==> !HasBlob(old(Tables()), Current(old(Tables())).records[n].rev.digest)
      ensures if error then ok && Tables() == old(Tables()) && budget == old(budget) && On(s, script, k)
              else if ok then Tables() == Exec(old(Tables()), Finalise(n)) && On(s, script, k + 1) && budget == old(budget) - 1
              else On(s, script, k) && budget == 0 && old(budget) == 0
    {
      var intact := Intact(archives[|archives| - 1].records[n].rev.digest);
      if !intact { return true, true; }
      ghost var t := Tables();
      ok := Next(Finalise(n), s, script, k);
      error := false;
      if ok { FinaliseNext(s, t, script, k, n); }
    }

    /** recoverPending. `error` tells that a blob was missing or damaged; `k` counts what was done. */
    method RecoverPending(entries: seq<nat>, ghost script: seq<FileOp>) returns (ok: bool, error: bool, ghost k: nat)
      requires RecoverScript(Tables(), entries) <= script
      modifies this
      ensures On(old(Tables()), script, k) && k + budget == old(budget)
      ensures ok ==> k == |RecoverScript(old(Tables()), entries)| && (error <==> !ScanPending(old(Tables()), entries).ok)
      ensures !ok ==> budget == 0 && k < |RecoverScript(old(Tables()), entries)|
    {
      ghost var s, scan := Tables(), ScanPending(Tables(), entries);
      RecoverParts(s, entries, script);
      var changed := false;
      k, error := 0, false;
      for i := 0 to |entries|
        invariant On(s, script, k) && k + budget == old(budget) && k <= |scan.finalised|
        invariant ScanPending(Tables(), entries[i..]) == Scan(scan.finalised[k..], scan.ok)
        invariant (changed <==> k > 0) && !error
      {
        ScanNext(Tables(), entries, i);
        var live := MatchesLive(entries[i]);
        if live {
          assert scan.finalised[k..] != [] ==> script[k] == script[..|scan.finalised|][k] == scan.finalised[k..][0];
          ok, error := FinaliseEntry(entries[i], s, script, k);
          if !ok || error { return ok, error, k; }
          assert scan.finalised[k..][1..] == scan.finalised[k + 1..];
          k := k + 1;
          changed := true;
        }
      }
      assert entries[|entries|..] == [] && scan.finalised[k..] == [];
      ok := true;
      if changed {
        ok := Next(SyncArchive, s, script, k);
        if ok { k := k + 1; }
      }
    }

    method Live(p: Path) returns (content: Option<string>)
      ensures content == Content(Tables(), p)
    {
      if p !in files || |files[p].versions| == 0 { return None; }
      return files[p].versions[|files[p].versions| - 1].content;
    }

    method HashOf(content: Option<string>) returns (d: Option<nat>)
      ensures d == Digest(Tables(), content)
    {
      return if content.None? then None else Some(hash(content.value));
    }

    /** saveBlob: the bytes under their digest, unless the archive has them already. */
    method SaveBlob(content: Option<string>, ghost s: State, ghost script: seq<FileOp>, ghost k: nat)
      returns (ok: bool, error: bool, ghost now: nat)
      requires On(s, script, k) && k + |BlobScript(Tables(), content)| <= |script|
      requires script[k..k + |BlobScript(Tables(), content)|] == BlobScript(Tables(), content)
      modifies this
      ensures On(s, script, now) && now + budget == k + old(budget)
      ensures ok ==> now == k + |BlobScript(old(Tables()), content)|
      ensures !ok ==> budget == 0 && now < k + |BlobScript(old(Tables()), content)|
      ensures error <==> !BlobOk(old(Tables()), content)
    {
      now, ok, error := k, true, false;
      if content.None? { return; }
      var text := content.value;
      var d := hash(text);
      if |archives| > 0 && d in archives[|archives| - 1].blobs {
        error := hash(archives[|archives| - 1].blobs[d]) != d;
        return;
      }
      assert script[k..k + 2] == [LinkBlob(d, text), SyncArchive];
      assert script[k] == script[k..k + 2][0] && script[k + 1] == script[k..k + 2][1];
      ok := Next(LinkBlob(d, text), s, script, k);
      if !ok { return; }
      now := k + 1;
      ok := Next(SyncArchive, s, script, k + 1);
      if ok { now := k + 2; }
    }

    /** The pending record and the staged file, both synchronised. */
    method PreparePublication(r: Request, rev: Revision, ghost s: State, ghost script: seq<FileOp>, ghost k: nat)
      returns (ok: bool, ghost now: nat)
      requires On(s, script, k)
      requires k + 5 <= |script| && script[k] == LinkPending(r.name, rev) && script[k + 1] == script[k + 2] == SyncArchive
      requires script[k + 3] == Stage(r.name, r.path, r.content) && script[k + 4] == SyncDir(r.path.dir)
      modifies this
      ensures On(s, script, now) && now + budget == k + old(budget)
      ensures if ok then now == k + 5 else budget == 0 && now < k + 5
    {
      now := k;
      ok := Next(LinkPending(r.name, rev), s, script, now);
      if !ok { return; }
      now := k + 1;
      ok := Next(SyncArchive, s, script, now);
      if !ok { return; }
      now := k + 2;
      ok := Next(SyncArchive, s, script, now);
      if !ok { return; }
      now := k + 3;
      ok := Next(Stage(r.name, r.path, r.content), s, script, now);
      if !ok { return; }
      now := k + 4;
      ok := Next(SyncDir(r.path.dir), s, script, now);
      if ok { now := k + 5; }
    }

    /** The rename that makes the version live, and then the final record. */
    method Commit(r: Request, ghost s: State, ghost script: seq<FileOp>, ghost k: nat) returns (ok: bool, ghost now: nat)
      requires On(s, script, k)
      requires k + 4 == |script| && script[k] == Publish(r.name, r.path) && script[k + 1] == SyncDir(r.path.dir)
      requires script[k + 2] == Finalise(r.name) && script[k + 3] == SyncArchive
      modifies this
      ensures On(s, script, now) && now + budget == k + old(budget)
      ensures if ok then now == |script| else budget == 0 && now < |script|
    {
      now := k;
      ok := Next(Publish(r.name, r.path), s, script, now);
      if !ok { return; }
      now := k + 1;
      ok := Next(SyncDir(r.path.dir), s, script, now);
      if !ok { return; }
      now := k + 2;
      ok := Next(Finalise(r.name), s, script, now);
      if !ok { return; }
      now := k + 3;
      ok := Next(SyncArchive, s, script, now);
      if ok { now := k + 4; }
    }

    method PublishFile(r: Request, previous: Option<nat>, ghost s: State, ghost script: seq<FileOp>, ghost k: nat)
      returns (ok: bool, ghost now: nat)
      requires On(s, script, k) && previous == Digest(Tables(), Content(Tables(), r.path))
      requires script[k..] == PublishScript(Tables(), r)
      modifies this
      ensures On(s, script, now) && now + budget == k + old(budget)
      ensures if ok then now == |script| else budget == 0 && now < |script|
    {
      assert |script| == k + 9 && forall i :: 0 <= i < 9 ==> script[k + i] == script[k..][i];
      assert script[k] == script[k + 0] && script[k + 1] == script[k + 2] == SyncArchive;
      ok, now := PreparePublication(r, Revision(r.path, hash(r.content), previous), s, script, k);
      if !ok { return; }
      ok, now := Commit(r, s, script, k + 5);
    }

    /** The new bytes are archived and published. */
    method WriteNew(r: Request, previous: Option<nat>, ghost s: State, ghost script: seq<FileOp>, ghost k: nat)
      returns (out: Outcome, ghost now: nat)
      requires On(s, script, k) && script[k..] == NewScript(Tables(), r) && previous == Digest(Tables(), Content(Tables(), r.path))
      modifies this
      ensures On(s, script, now) && now + budget == k + old(budget)
      ensures if out.Died? then budget == 0 && now < |script| else now == |script|
      ensures out.Died? || out.Refused? || out.Wrote?
      ensures out.Refused? ==> !BlobOk(old(Tables()), Some(r.content)) || r.name in Current(old(Tables())).records
      ensures out.Wrote? ==> BlobOk(old(Tables()), Some(r.content)) && r.name !in Current(old(Tables())).records
    {
      ghost var t := Tables();
      ghost var b := BlobScript(t, Some(r.content));
      ghost var c := if r.name in Current(t).records then [] else PublishScript(t, r);
      if BlobOk(t, Some(r.content)) { Advance(script, k, b, c); }
      var ok, error;
      ok, error, now := SaveBlob(Some(r.content), s, script, k);
      if !ok { return Died, now; }
      if error { return Refused, now; }
      NewBlobDone(s, script, k, t, Tables(), r);
      if |archives| > 0 && r.name in archives[|archives| - 1].records { return Refused, now; }
      ok, now := PublishFile(r, previous, s, script, now);
      out := if ok then Wrote else Died;
    }

    /** What follows recovery: the comparison and the archiving of the old bytes. */
    method WriteRecovered(r: Request, ghost s: State, ghost script: seq<FileOp>, ghost k: nat) returns (out: Outcome, ghost now: nat)
      requires On(s, script, k) && script[k..] == WriteScript(Tables(), r)
      modifies this
      ensures Answers(out, old(Tables()), r)
      ensures On(s, script, now) && now + budget == k + old(budget)
      ensures if out.Died? then budget == 0 && now < |script| else now == |script|
    {
      ghost var t := Tables();
      now := k;
      var live := Live(r.path);
      var liveDigest := HashOf(live);
      if liveDigest != r.expected { return Conflict, now; }
      if liveDigest == Some(hash(r.content)) { return Same, now; }
      ghost var a := BlobScript(t, live);
      if BlobOk(t, live) { Advance(script, k, a, NewScript(t, r)); }
      var ok, error;
      ok, error, now := SaveBlob(live, s, script, now);
      if !ok { return Died, now; }
      if error { return Refused, now; }
      OldBlobDone(s, script, k, t, Tables(), r);
      OldBlobKeepsRecords(s, script, k, t, Tables(), r);
      out, now := WriteNew(r, liveDigest, s, script, now);
    }

    /** WriteChecked, for a request that passed the checks on its path, text and permission. A
        process that lives to answer says what it found and did. */
    method WriteChecked(r: Request, entries: seq<nat>) returns (out: Outcome)
      modifies this
      ensures Tables() == ExecAll(old(Tables()), Done(Script(old(Tables()), entries, r), old(budget)))
      ensures out.Died? <==> old(budget) < |Script(old(Tables()), entries, r)|
      ensures !out.Died? && Inv(old(Tables())) && Lists(old(Tables()), entries) ==>
                var was := Digest(old(Tables()), Content(old(Tables()), r.path));
                && (out.Conflict? <==> was != r.expected)
                && (out.Same? <==> was == r.expected && was == Some(hash(r.content)))
                && (out.Wrote? <==> Published(old(Tables()), Tables(), r))
                && (out.Refused? ==> r.name in Current(old(Tables())).records)
    {
      ghost var s, script := Tables(), Script(Tables(), entries, r);
      ghost var k;
      out, k := RecoverAndWrite(r, entries, script);
      ScriptDone(s, script, k, budget);
      assert script[..|script|] == script;
      if !out.Died? && Inv(s) && Lists(s, entries) {
        RecoverySettles(s, entries);
        AnswersFromStart(s, entries, r, out);
      }
    }

    method RecoverAndWrite(r: Request, entries: seq<nat>, ghost script: seq<FileOp>) returns (out: Outcome, ghost k: nat)
      requires script == Script(Tables(), entries, r)
      modifies this
      ensures On(old(Tables()), script, k) && k + budget == old(budget)
      ensures if out.Died? then budget == 0 && k < |script| else k == |script|
      ensures !out.Died? && ScanPending(old(Tables()), entries).ok ==>
                Answers(out, ExecAll(old(Tables()), RecoverScript(old(Tables()), entries)), r)
    {
      ghost var s := Tables();
      ScriptParts(s, entries, r);
      var ok, error;
      ok, error, k := RecoverPending(entries, script);
      if !ok { return Died, k; }
      if error { return Refused, k; }
      out, k := WriteRecovered(r, s, script, k);
    }
  }
}
