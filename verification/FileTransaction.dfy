/** All-or-nothing replacement of several files, as used by hook installation.
    Every single write, read and removal may fail. */
module FileTransaction {
  import opened Prelude

  type Path = string

  datatype File = File(payload: seq<U8>, mode: nat)

  type Files = map<Path, File>

  datatype Mutation = Mutation(path: Path, payload: seq<U8>, mode: nat)

  /** What a path held before the transaction. */
  datatype Saved = Saved(path: Path, before: Option<File>)

  datatype Outcome =
    | Committed
    | DuplicatePath
    | SnapshotFailed
    | RolledBack
    | RollbackIncomplete

  const OWNER_READ: nat := 4 * 64
  const OWNER_WRITE: nat := 2 * 64

  function Content(m: Mutation): File {
    File(m.payload, if m.mode == 0 then 0x180 else m.mode)
  }

  function Lookup(files: Files, p: Path): Option<File> {
    if p in files then Some(files[p]) else None
  }

  lemma SameLookups(a: Files, b: Files)
    requires forall p: Path :: Lookup(a, p) == Lookup(b, p)
    ensures a == b
  {
    assert forall p: Path :: p in a <==> Lookup(a, p).Some?;
    assert forall p: Path :: p in b <==> Lookup(b, p).Some?;
    assert forall p: Path :: p in a ==> a[p] == Lookup(a, p).value == Lookup(b, p).value == b[p];
  }

  class FileSystem {
    var files: Files
    // Lexical path cleaning: two spellings of one file share their clean form.
    const clean: Path -> Path
    // No operation fails.
    const reliable: bool

    constructor (files: Files, clean: Path -> Path, reliable: bool)
      ensures this.files == files && this.clean == clean && this.reliable == reliable
    {
      this.reliable := reliable;
      this.files := files;
      this.clean := clean;
    }

    /** Stage, then rename: the file is replaced as a whole or not at all. */
    method AtomicWrite(p: Path, f: File) returns (ok: bool)
      modifies this
      ensures files == if ok then old(files)[clean(p) := f] else old(files)
      ensures reliable ==> ok
    {
      ok :| reliable ==> ok;
      if ok {
        files := files[clean(p) := f];
      }
    }

    /** Removal; a file that does not exist counts as removed. */
    method Remove(p: Path) returns (ok: bool)
      modifies this
      ensures files == if ok then old(files) - {clean(p)} else old(files)
      ensures clean(p) !in old(files) || reliable ==> ok
    {
      if clean(p) !in files { return true; }
      ok :| reliable ==> ok;
      if ok {
        files := files - {clean(p)};
      }
    }

    method SnapshotFile(p: Path) returns (ok: bool, saved: Saved)
      ensures ok ==> saved == Saved(p, Lookup(files, clean(p)))
      ensures reliable ==> ok
    {
      ok :| reliable ==> ok;
      saved := Saved(p, Lookup(files, clean(p)));
    }

    /** Restores the newest change first. Every path whose restoration does not
        fail holds what it held before; no other path changes. */
    method Rollback(saved: seq<Saved>) returns (failed: set<Path>)
      modifies this
      ensures forall p :: p in failed ==> exists i :: 0 <= i < |saved| && clean(saved[i].path) == p
      ensures forall p: Path :: (forall i :: 0 <= i < |saved| ==> clean(saved[i].path) != p) ==>
                Lookup(files, p) == Lookup(old(files), p)
      ensures (forall i, j :: 0 <= i < j < |saved| ==> clean(saved[i].path) != clean(saved[j].path)) ==>
                forall i :: 0 <= i < |saved| && clean(saved[i].path) !in failed ==>
                  Lookup(files, clean(saved[i].path)) == saved[i].before
    {
      failed := {};
      var i := |saved|;
      while i > 0
        invariant 0 <= i <= |saved|
        invariant forall p :: p in failed ==> exists k :: i <= k < |saved| && clean(saved[k].path) == p
        invariant forall p: Path :: (forall k :: i <= k < |saved| ==> clean(saved[k].path) != p) ==>
                    Lookup(files, p) == Lookup(old(files), p)
        invariant (forall k, j :: 0 <= k < j < |saved| ==> clean(saved[k].path) != clean(saved[j].path)) ==>
                    forall k :: i <= k < |saved| && clean(saved[k].path) !in failed ==>
                      Lookup(files, clean(saved[k].path)) == saved[k].before
      {
        i := i - 1;
        var s := saved[i];
        var ok: bool;
        if s.before.Some? {
          ok := AtomicWrite(s.path, s.before.value);
        } else {
          ok := Remove(s.path);
        }
        if !ok { failed := failed + {clean(s.path)}; }
      }
    }

    /** Writes all files, or none: after a failed write every path is back to what
        it held before, except those whose restoration failed as well. */
    method Apply(mutations: seq<Mutation>) returns (outcome: Outcome, failed: set<Path>)
      modifies this
      ensures outcome == DuplicatePath ==> !Distinct(mutations)
      ensures reliable ==> outcome == if Distinct(mutations) then Committed else DuplicatePath
      ensures outcome != DuplicatePath && outcome != SnapshotFailed ==> Distinct(mutations)
      ensures outcome == Committed ==>
                forall i :: 0 <= i < |mutations| ==> Holds(mutations[i])
      ensures outcome == DuplicatePath || outcome == SnapshotFailed || outcome == RolledBack ==> files == old(files)
      ensures outcome == RollbackIncomplete ==>
                failed != {} && forall p: Path :: p !in failed ==> Lookup(files, p) == Lookup(old(files), p)
      ensures forall p: Path :: !Touches(mutations, p) ==> Lookup(files, p) == Lookup(old(files), p)
    {
      hide Holds;
      var snapshots, saved := SnapshotAll(mutations);
      if snapshots != Committed { return snapshots, {}; }
      var written := WriteAll(mutations);
      if written == |mutations| { return Committed, {}; }
      failed := Rollback(saved[..written + 1]);
      RollbackRestores(old(files), files, mutations, written, saved, failed);
      outcome := if failed == {} then RolledBack else RollbackIncomplete;
    }

    /** Rejects two spellings of one file, and saves what every path holds. */
    method SnapshotAll(mutations: seq<Mutation>) returns (outcome: Outcome, saved: seq<Saved>)
      ensures outcome == Committed || outcome == DuplicatePath || outcome == SnapshotFailed
      ensures outcome == DuplicatePath ==> !Distinct(mutations)
      ensures reliable ==> outcome != SnapshotFailed
      ensures outcome == Committed ==> Distinct(mutations) && Saves(saved, mutations, files)
    {
      var seen: set<Path> := {};
      saved := [];
      for i := 0 to |mutations|
        invariant Saves(saved, mutations[..i], files)
        invariant forall p :: p in seen <==> Touches(mutations[..i], p)
        invariant Distinct(mutations[..i])
      {
        var cleanPath := clean(mutations[i].path);
        if cleanPath in seen {
          return DuplicatePath, [];
        }
        seen := seen + {cleanPath};
        var ok, s := SnapshotFile(mutations[i].path);
        if !ok { return SnapshotFailed, []; }
        saved := saved + [s];
        assert mutations[..i + 1] == mutations[..i] + [mutations[i]];
        TouchesOneMore(mutations[..i], mutations[i]);
      }
      assert mutations[..|mutations|] == mutations;
      return Committed, saved;
    }

    /** Writes up to the first failure and returns its index, or their number. */
    method WriteAll(mutations: seq<Mutation>) returns (written: nat)
      requires Distinct(mutations)
      modifies this
      ensures written <= |mutations| && (reliable ==> written == |mutations|)
      ensures forall k :: 0 <= k < written ==> Holds(mutations[k])
      ensures forall p: Path :: !Touches(mutations[..written], p) ==> Lookup(files, p) == Lookup(old(files), p)
    {
      written := 0;
      while written < |mutations|
        invariant written <= |mutations|
        invariant forall k :: 0 <= k < written ==> Holds(mutations[k])
        invariant forall p: Path :: !Touches(mutations[..written], p) ==> Lookup(files, p) == Lookup(old(files), p)
      {
        var m := mutations[written];
        var ok := AtomicWrite(m.path, Content(m));
        if !ok { return; }
        assert mutations[..written + 1] == mutations[..written] + [m];
        TouchesOneMore(mutations[..written], m);
        written := written + 1;
      }
    }

    lemma TouchesOneMore(mutations: seq<Mutation>, m: Mutation)
      ensures forall p :: Touches(mutations + [m], p) <==> Touches(mutations, p) || p == clean(m.path)
    {
      forall p
        ensures Touches(mutations + [m], p) <==> Touches(mutations, p) || p == clean(m.path)
      {
        var more := mutations + [m];
        if Touches(mutations, p) {
          var i :| 0 <= i < |mutations| && clean(mutations[i].path) == p;
          assert clean(more[i].path) == p;
        }
        assert more[|mutations|] == m;
      }
    }

    /** saved lists, for each mutation, what its path holds. */
    ghost predicate Saves(saved: seq<Saved>, mutations: seq<Mutation>, held: Files) {
      |saved| == |mutations| &&
      forall i :: 0 <= i < |mutations| ==>
        saved[i] == Saved(mutations[i].path, Lookup(held, clean(mutations[i].path)))
    }

    /** After the rollback every path holds what it held before, except the failed ones. */
    lemma RollbackRestores(
        before: Files, after: Files, mutations: seq<Mutation>, written: nat, saved: seq<Saved>, failed: set<Path>)
      requires written < |mutations| && Distinct(mutations) && Saves(saved, mutations, before)
      requires forall p :: p in failed ==> exists i :: 0 <= i <= written && clean(saved[i].path) == p
      requires forall p: Path :: !Touches(mutations, p) ==> Lookup(after, p) == Lookup(before, p)
      requires forall i :: 0 <= i <= written && clean(saved[i].path) !in failed ==>
                 Lookup(after, clean(saved[i].path)) == saved[i].before
      requires forall i :: written < i < |mutations| ==>
                 Lookup(after, clean(mutations[i].path)) == Lookup(before, clean(mutations[i].path))
      ensures forall p: Path :: p !in failed ==> Lookup(after, p) == Lookup(before, p)
      ensures failed == {} ==> after == before
    {
      forall p: Path | p !in failed
        ensures Lookup(after, p) == Lookup(before, p)
      {
        if Touches(mutations, p) {
          var i :| 0 <= i < |mutations| && clean(mutations[i].path) == p;
          assert saved[i].path == mutations[i].path;
        }
      }
      if failed == {} {
        SameLookups(after, before);
      }
    }

    /** The mutation's file holds its payload, with its permissions or, where it
        leaves them open, for its owner alone to read and write. */
    ghost predicate Holds(m: Mutation)
      reads this
    {
      clean(m.path) in files && files[clean(m.path)].payload == m.payload &&
      files[clean(m.path)].mode == if m.mode == 0 then OWNER_READ + OWNER_WRITE else m.mode
    }

    /** No two mutations name the same file. */
    ghost predicate Distinct(mutations: seq<Mutation>) {
      forall i, j :: 0 <= i < j < |mutations| ==> clean(mutations[i].path) != clean(mutations[j].path)
    }

    ghost predicate Touches(mutations: seq<Mutation>, p: Path) {
      exists i :: 0 <= i < |mutations| && clean(mutations[i].path) == p
    }
  }
}
