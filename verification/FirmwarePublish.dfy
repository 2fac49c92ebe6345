/** Publication of firmware images into one directory. Publishers run one at a
    time under a lock; any file operation may fail, and the publisher may stop
    for good before or after each of them. Readers run in between. */
module FirmwarePublish {
  import opened Prelude
  import opened Versions

  type Bytes = seq<U8>

  const BOARD := "e32r28t"
  const MAX_IMAGE_SIZE: nat := 0x1e0000
  const CHUNK: nat := 0x8000

  datatype Manifest = Manifest(
    schemaVersion: int, board: string, version: string, publishedAt: Option<int>, size: nat, sha256: string)

  datatype Name = ManifestFile | ImageFile(board: string, version: string) | TempFile(id: nat)

  /** The JSON codec is abstract: a manifest file holds the manifest itself. */
  datatype Blob = Image(bytes: Bytes) | Encoded(manifest: Manifest)

  type Files = map<Name, Blob>

  datatype Error =
    | NotFound | InvalidManifest | InvalidVersion | VersionNotNewer | ImageTooLarge | HashMismatch
    | AlreadyExists | InvalidOptions | SourceChanged | IOFailure | Cancelled

  datatype Result<+T> = Ok(value: T) | Err(error: Error)

  /** One administrator request; `statSize` and `content` are what the source
      file reports and what reading it then delivers. */
  datatype Options = Options(
    directory: string, board: string, version: string, publishedAt: int,
    regular: bool, statSize: nat, content: Bytes)

  predicate HexDigest(s: string) {
    |s| == 64 && forall i :: 0 <= i < |s| ==> '0' <= s[i] <= '9' || 'a' <= s[i] <= 'f'
  }

  predicate Validate(m: Manifest) {
    m.schemaVersion == 1 && m.board == BOARD && Parse(m.version).Some? && m.publishedAt.Some? &&
    0 < m.size <= MAX_IMAGE_SIZE && HexDigest(m.sha256)
  }

  function ImageOf(m: Manifest): Name {
    ImageFile(m.board, m.version)
  }

  /** What readers can see: everything but staging files. */
  function Published(files: Files): Files {
    map n | n in files && !n.TempFile? :: files[n]
  }

  function Staged(files: Files): Files {
    map n | n in files && n.TempFile? :: files[n]
  }

  lemma TwoHalves(a: Files, b: Files)
    requires Published(a) == Published(b) && Staged(a) == Staged(b)
    ensures a == b
  {
    assert forall n :: n in a ==> n in Published(a) || n in Staged(a);
    assert forall n :: n in b ==> n in Published(b) || n in Staged(b);
    assert forall n :: n in a ==> a[n] == if n.TempFile? then Staged(a)[n] else Published(a)[n];
    assert forall n :: n in b ==> b[n] == if n.TempFile? then Staged(b)[n] else Published(b)[n];
  }

  ghost predicate SameAt(a: Files, b: Files, n: Name) {
    (n in a <==> n in b) && (n in a && n in b ==> a[n] == b[n])
  }

  lemma SameOutsideMore(a: Files, b: Files, except: set<Name>, more: set<Name>)
    requires a - except == b - except && except <= more
    ensures a - more == b - more
  {
    assert a - more == (a - except) - more;
    assert b - more == (b - except) - more;
  }

  lemma SameOutside(a: Files, b: Files, except: set<Name>, n: Name)
    requires Published(a) - except == Published(b) - except
    requires n !in except && !n.TempFile?
    ensures SameAt(a, b, n)
  {
    assert n in a <==> n in Published(a) - except;
    assert n in b <==> n in Published(b) - except;
    if n in a {
      assert a[n] == (Published(a) - except)[n] == (Published(b) - except)[n];
    }
  }

  class Directory {
    var files: Files
    // False once the current publisher has stopped; its operations then have no effect.
    var running: bool
    const hash: Bytes -> string
    // No file operation fails, and nobody interrupts or cancels.
    const reliable: bool
    // Every manifest ever committed, oldest first.
    ghost var named: seq<Manifest>
    // The source file each of them was committed for.
    ghost var contents: seq<Bytes>
    // Some removal during cleanup failed.
    ghost var littered: bool

    constructor (hash: Bytes -> string, reliable: bool)
      ensures this.hash == hash && this.reliable == reliable && Consistent() && named == [] && running && !littered
      ensures files == map[]
    {
      this.hash, this.reliable := hash, reliable;
      files, running := map[], true;
      named, contents, littered := [], [], false;
    }

    /** The image m names is present, byte for byte, and m states its size and hash. */
    ghost predicate Holds(m: Manifest, content: Bytes)
      reads this
    {
      ImageOf(m) in files && files[ImageOf(m)] == Image(content) &&
      |content| == m.size && hash(content) == m.sha256
    }

    ghost predicate Consistent()
      reads this
    {
      (if named == [] then ManifestFile !in files
       else ManifestFile in files && files[ManifestFile] == Encoded(named[|named| - 1])) &&
      |contents| == |named| &&
      (forall i :: 0 <= i < |named| ==> Validate(named[i]) && Holds(named[i], contents[i])) &&
      (forall i, j :: 0 <= i < j < |named| ==> Less(Parse(named[i].version).value, Parse(named[j].version).value))
    }

    ghost predicate Unnamed(n: Name)
      reads this
    {
      forall i :: 0 <= i < |named| ==> ImageOf(named[i]) != n
    }

    // --- File operations ------------------------------------------------------

    method Attempt() returns (reported: bool, landed: bool)
      modifies this`running
      ensures running ==> old(running)
      ensures landed ==> old(running)
      ensures running ==> (reported <==> landed)
      ensures reliable && old(running) ==> running && reported
    {
      reported, landed := *, false;
      if running {
        if reliable {
          reported, landed := true, true;
        } else if * {
          reported, landed := true, true;
        } else if * {
          reported, landed := false, false;
        } else {
          landed := *;
          running := false;
        }
      }
    }

    lemma {:induction false} FreshNumberExists(used: set<nat>) returns (bound: nat)
      ensures forall n :: n in used ==> n < bound
    {
      if used == {} {
        bound := 0;
      } else {
        var n :| n in used;
        var rest := used - {n};
        bound := FreshNumberExists(rest);
        bound := if n < bound then bound else n + 1;
        assert forall m :: m in used ==> m == n || m in rest;
      }
    }

    lemma FreshNameExists(files: Files)
      ensures exists id: nat :: TempFile(id) !in files
    {
      var used := set n | n in files && n.TempFile? :: n.id;
      var bound := FreshNumberExists(used);
      assert TempFile(bound) in files ==> bound in used;
    }

    method CreateTemp() returns (ok: bool, name: Name)
      requires Consistent()
      modifies this`files, this`running
      ensures Consistent() && Published(files) == Published(old(files))
      ensures running ==> old(running)
      ensures name.TempFile?
      ensures name !in old(files)
      ensures reliable && old(running) ==> running && ok
      ensures running && ok ==> files == old(files)[name := Image([])]
      ensures running && !ok ==> files == old(files)
    {
      hide Validate, Parse, Less;
      FreshNameExists(files);
      var id: nat :| TempFile(id) !in files;
      name := TempFile(id);
      var landed: bool;
      ok, landed := Attempt();
      if landed { files := files[name := Image([])]; }
    }

    /** A failed or interrupted write leaves any content in the staging file. */
    method WriteTemp(name: Name, blob: Blob) returns (ok: bool, ghost wrote: Blob)
      requires Consistent() && name.TempFile?
      modifies this`files, this`running
      ensures Consistent() && Published(files) == Published(old(files))
      ensures running ==> old(running)
      ensures running ==> files == old(files)[name := wrote]
      ensures running && ok ==> wrote == blob
      ensures reliable && old(running) ==> running && ok
    {
      hide Validate, Parse, Less;
      var before := running;
      var landed: bool;
      ok, landed := Attempt();
      var partial: Bytes := *;
      var content := if landed && running then blob else Image(partial);
      wrote := content;
      if before {
        files := files[name := content];
      }
    }

    method RemoveTemp(name: Name)
      requires Consistent() && name.TempFile?
      modifies this`files, this`running, this`littered
      ensures Consistent() && Published(files) == Published(old(files))
      ensures running ==> old(running)
      ensures running && !littered ==> files == old(files) - {name}
      ensures old(littered) ==> littered
      ensures reliable && old(running) ==> running && littered == old(littered)
    {
      hide Validate, Parse, Less;
      if name !in files { return; }
      var ok, landed := Attempt();
      if landed { files := files - {name}; }
      littered := littered || (running && !landed);
    }

    /** Rename of a staged image onto its final name. */
    method InstallImage(temp: Name, target: Name) returns (ok: bool)
      requires Consistent() && temp.TempFile? && target.ImageFile? && target !in Published(files)
      modifies this`files, this`running
      ensures Consistent()
      ensures Published(files) - {target} == Published(old(files)) - {target}
      ensures running ==> old(running)
      ensures running && ok ==> temp in old(files) && files == (old(files) - {temp})[target := old(files)[temp]]
      ensures running && !ok ==> files == old(files)
      ensures reliable && old(running) && temp in old(files) ==> running && ok
    {
      hide Validate, Parse, Less;
      assert Unnamed(target);
      if temp !in files { return false; }
      var landed: bool;
      ok, landed := Attempt();
      if landed { files := (files - {temp})[target := files[temp]]; }
    }

    /** Rename of a staged manifest onto the manifest: the commit point. */
    method CommitManifest(temp: Name, ghost m: Manifest, ghost content: Bytes) returns (ok: bool)
      requires Consistent() && temp.TempFile? && Validate(m)
      requires running ==> temp in files && files[temp] == Encoded(m) && Holds(m, content)
      requires NewerThanAll(Parse(m.version).value)
      modifies this`files, this`running, this`named, this`contents
      ensures Consistent()
      ensures Published(files) - {ManifestFile} == Published(old(files)) - {ManifestFile}
      ensures (named == old(named) && contents == old(contents)) ||
              (named == old(named) + [m] && contents == old(contents) + [content])
      ensures running ==> old(running)
      ensures running && ok ==> named == old(named) + [m] && files == (old(files) - {temp})[ManifestFile := Encoded(m)]
      ensures running && !ok ==> named == old(named) && files == old(files)
      ensures reliable && old(running) ==> running && ok
    {
      hide Parse, Less, HexDigest;
      var landed: bool;
      ok, landed := Attempt();
      if landed {
        files := (files - {temp})[ManifestFile := files[temp]];
        named, contents := named + [m], contents + [content];
      }
    }

    method RemoveImage(target: Name)
      requires Consistent() && target.ImageFile? && (running ==> Unnamed(target))
      modifies this`files, this`running, this`littered
      ensures Consistent()
      ensures files - {target} == old(files) - {target}
      ensures !old(running) ==> files == old(files)
      ensures running ==> old(running)
      ensures running && !littered ==> files == old(files) - {target}
      ensures old(littered) ==> littered
      ensures reliable && old(running) ==> running && littered == old(littered)
    {
      hide Validate, Parse, Less;
      if target !in files { return; }
      var ok, landed := Attempt();
      if landed { files := files - {target}; }
      littered := littered || (running && !landed);
    }

    ghost predicate NewerThanAll(v: Version)
      reads this
    {
      forall i :: 0 <= i < |named| && Parse(named[i].version).Some? ==> Less(Parse(named[i].version).value, v)
    }

    // --- Reading ----------------------------------------------------------------

    method LoadManifest(directory: string) returns (r: Result<Manifest>)
      requires Consistent()
      ensures r.Ok? ==> named != [] && r.value == named[|named| - 1] && Parse(r.value.version).Some?
      ensures r == Err(NotFound) && directory != "" ==> named == []
      ensures r.Err? ==> r.error == NotFound || r.error == IOFailure
      ensures reliable && directory != "" && named != [] ==> r.Ok?
      ensures reliable && r.Err? ==> r.error == NotFound
    {
      if directory == "" { return Err(NotFound); }
      if ManifestFile !in files { return Err(NotFound); }
      var readable: bool :| reliable ==> readable;
      if !readable { return Err(IOFailure); }
      var blob := files[ManifestFile];
      if !blob.Encoded? || !Validate(blob.manifest) { return Err(InvalidManifest); }
      return Ok(blob.manifest);
    }

    /** Reads in bounded chunks, hashing what was read. */
    method HashContent(bytes: Bytes) returns (r: Result<(string, nat)>)
      ensures r.Ok? ==> r.value == (hash(bytes), |bytes|)
      ensures reliable ==> r.Ok?
      ensures r.Err? ==> r.error == IOFailure || r.error == Cancelled
    {
      var hashed: Bytes := [];
      var total := 0;
      while total < |bytes|
        invariant total == |hashed| <= |bytes| && hashed == bytes[..total]
      {
        var cancelled: bool :| reliable ==> !cancelled;
        if cancelled { return Err(Cancelled); }
        var readable: bool :| reliable ==> readable;
        if !readable { return Err(IOFailure); }
        var count := if |bytes| - total < CHUNK then |bytes| - total else CHUNK;
        hashed := hashed + bytes[total..total + count];
        total := total + count;
      }
      assert hashed == bytes;
      return Ok((hash(hashed), total));
    }

    /** Opens and verifies the image of a manifest loaded at any earlier time:
        it yields the bytes that were published, and nothing but an I/O failure or
        a cancellation can go wrong. */
    method OpenImage(m: Manifest, ghost i: nat) returns (r: Result<Bytes>)
      requires Consistent() && i < |named| && named[i] == m
      ensures r.Ok? ==> r.value == contents[i] && |r.value| == m.size && hash(r.value) == m.sha256
      ensures r.Err? ==> r.error == IOFailure || r.error == Cancelled
      ensures reliable ==> r.Ok?
    {
      if ImageOf(m) !in files { return Err(InvalidManifest); }
      var readable: bool :| reliable ==> readable;
      if !readable { return Err(IOFailure); }
      var blob := files[ImageOf(m)];
      if !blob.Image? || |blob.bytes| != m.size { return Err(InvalidManifest); }
      var digest := HashContent(blob.bytes);
      if digest.Err? { return Err(digest.error); }
      if digest.value.1 != m.size || digest.value.0 != m.sha256 { return Err(HashMismatch); }
      return Ok(blob.bytes);
    }

    // --- Publishing -----------------------------------------------------------------

    /** Everything between the staging file's creation and its cleanup. The two
        flags tell the cleanup whether the target may still be removed. */
    method StageAndCommit(o: Options, imageTemp: Name, target: Name)
      returns (r: Result<Manifest>, imageInstalled: bool, publicationCommitted: bool)
      requires Consistent() && imageTemp.TempFile? && target == ImageFile(BOARD, o.version)
      requires o.board == BOARD && Parse(o.version).Some? && NewerThanAll(Parse(o.version).value)
      requires target !in Published(files)
      modifies this
      ensures Consistent()
      ensures Published(files) - {target, ManifestFile} == Published(old(files)) - {target, ManifestFile}
      ensures running ==> old(running)
      ensures old(littered) ==> littered
      ensures Extends(old(named), old(contents), o)
      ensures running ==> (publicationCommitted <==> named != old(named))
      ensures running && !publicationCommitted ==>
                Unnamed(target) && Published(files) - {target} == Published(old(files)) - {target}
      ensures running && !imageInstalled ==> Published(files) == Published(old(files))
      ensures running && r.Ok? ==>
                publicationCommitted && named[|named| - 1] == r.value && r.value.schemaVersion == 1
      ensures running && r.Err? ==> StagingError(r.error, o)
      ensures reliable && old(running) ==>
                running && littered == old(littered) && (r.Err? ==> IsCause(r.error))
      ensures running && !littered && !publicationCommitted ==>
                Staged(files) - {imageTemp} == Staged(old(files)) - {imageTemp}
    {
      hide Validate, Parse, Less, HexDigest;
      imageInstalled, publicationCommitted := false, false;
      assert Unnamed(target);
      ghost var wrote: Blob;
      var copied: Result<Manifest>;
      copied, wrote := CopySource(o, imageTemp);
      if copied.Err? { return copied, false, false; }
      ghost var staged := files;
      r, imageInstalled, publicationCommitted := CommitStaged(copied.value, imageTemp, target, o.content);
      assert running ==> Staged(staged) - {imageTemp} == Staged(old(files)) - {imageTemp};
    }

    /** Stages the manifest, installs the image and commits. */
    method CommitStaged(m: Manifest, imageTemp: Name, target: Name, ghost content: Bytes)
      returns (r: Result<Manifest>, imageInstalled: bool, publicationCommitted: bool)
      requires Consistent() && imageTemp.TempFile?
      requires Validate(m) && Parse(m.version).Some? && NewerThanAll(Parse(m.version).value)
      requires target == ImageOf(m) && target !in Published(files)
      requires |content| == m.size && hash(content) == m.sha256
      requires running ==> imageTemp in files && files[imageTemp] == Image(content)
      modifies this
      ensures Consistent()
      ensures Published(files) - {target, ManifestFile} == Published(old(files)) - {target, ManifestFile}
      ensures running ==> old(running)
      ensures old(littered) ==> littered
      ensures (named == old(named) && contents == old(contents)) ||
              (named == old(named) + [m] && contents == old(contents) + [content])
      ensures running ==> (publicationCommitted <==> named != old(named))
      ensures r.Err? ==> r.error == IOFailure
      ensures running && !publicationCommitted ==> Published(files) - {target} == Published(old(files)) - {target}
      ensures running && !imageInstalled ==> Published(files) == Published(old(files))
      ensures running && r.Ok? ==> publicationCommitted && r.value == m
      ensures reliable && old(running) ==> running && r.Ok? && littered == old(littered)
      ensures running && !littered && !publicationCommitted ==>
                Staged(files) - {imageTemp} == Staged(old(files)) - {imageTemp}
    {
      hide Validate, Parse, Less, HexDigest, Consistent;
      imageInstalled, publicationCommitted := false, false;
      var created, manifestTemp := CreateTemp();
      if !created { return Err(IOFailure), false, false; }
      ghost var both := files;
      r, imageInstalled, publicationCommitted := InstallAndCommit(m, imageTemp, manifestTemp, target, content);
      ghost var installed := files;
      RemoveTemp(manifestTemp);
      if running && !littered && !publicationCommitted {
        StagingRemoved(old(files), both, installed, files, imageTemp, manifestTemp);
      }
    }

    /** Copies the source file into the staging file, reads it back, and describes it. */
    method CopySource(o: Options, imageTemp: Name) returns (r: Result<Manifest>, ghost wrote: Blob)
      requires Consistent() && imageTemp.TempFile?
      requires o.board == BOARD && Parse(o.version).Some?
      modifies this`files, this`running
      ensures Consistent() && Published(files) == Published(old(files))
      ensures running ==> old(running)
      ensures running ==> files == old(files)[imageTemp := wrote]
      ensures running && r.Ok? ==> wrote == Image(o.content)
      ensures r.Ok? ==> Validate(r.value) && r.value.schemaVersion == 1 && Describes(r.value, o)
      ensures running && r.Err? ==> StagingError(r.error, o)
      ensures reliable && old(running) ==> running && (r.Err? ==> IsCause(r.error))
    {
      hide Validate, Parse, Less, HexDigest, Consistent;
      var ok: bool;
      // Copying stops one byte past the largest image.
      var copied := if |o.content| > MAX_IMAGE_SIZE + 1 then o.content[..MAX_IMAGE_SIZE + 1] else o.content;
      ok, wrote := WriteTemp(imageTemp, Image(copied));
      if !ok { return Err(IOFailure), wrote; }
      if |copied| > MAX_IMAGE_SIZE { return Err(ImageTooLarge), wrote; }
      if |copied| == 0 || |copied| != o.statSize { return Err(SourceChanged), wrote; }
      var stagedDigest := hash(copied);
      if imageTemp !in files || !files[imageTemp].Image? { return Err(IOFailure), wrote; }
      var verified := HashContent(files[imageTemp].bytes);
      if verified.Err? { return Err(verified.error), wrote; }
      if verified.value.1 != |copied| || verified.value.0 != stagedDigest { return Err(HashMismatch), wrote; }
      var m := Manifest(1, o.board, o.version, Some(o.publishedAt), |copied|, stagedDigest);
      StagedIsValid(o, m);
      if !Validate(m) { return Err(InvalidManifest), wrote; }
      return Ok(m), wrote;
    }

    /** The staging files created in between are gone again. */
    lemma StagingRemoved(
        before: Files, both: Files, installed: Files, after: Files, imageTemp: Name, manifestTemp: Name)
      requires manifestTemp !in before && both == before[manifestTemp := Image([])]
      requires Staged(installed) - {imageTemp, manifestTemp} == Staged(both) - {imageTemp, manifestTemp}
      requires after == installed - {manifestTemp}
      ensures Staged(after) - {imageTemp} == Staged(before) - {imageTemp}
    {
      assert Staged(after) - {imageTemp} == Staged(installed) - {imageTemp, manifestTemp};
      assert Staged(both) - {imageTemp, manifestTemp} == Staged(before) - {imageTemp};
    }

    /** Nothing was committed, or one manifest that describes the request's source
        file, together with that file. */
    ghost predicate Extends(before: seq<Manifest>, beforeContents: seq<Bytes>, o: Options)
      reads this
    {
      (named == before && contents == beforeContents) ||
      (|named| == |before| + 1 && named[..|before|] == before && Describes(named[|before|], o) &&
       contents == beforeContents + [o.content])
    }

    ghost predicate Describes(m: Manifest, o: Options) {
      m.board == BOARD && m.version == o.version && m.publishedAt == Some(o.publishedAt) &&
      m.size == o.statSize == |o.content| && m.sha256 == hash(o.content)
    }

    /** The error tells of the request or the directory, not of a failure. */
    static predicate IsCause(e: Error) {
      e != IOFailure && e != Cancelled
    }

    /** What may go wrong with a source file once its version is accepted. */
    ghost predicate StagingError(e: Error, o: Options) {
      e == IOFailure || e == Cancelled ||
      (e == ImageTooLarge && |o.content| > MAX_IMAGE_SIZE) ||
      (e == SourceChanged && |o.content| <= MAX_IMAGE_SIZE && (o.content == [] || |o.content| != o.statSize)) ||
      (e == InvalidManifest && !HexDigest(hash(o.content)))
    }

    lemma StagedIsValid(o: Options, m: Manifest)
      requires m == Manifest(1, BOARD, o.version, Some(o.publishedAt), |o.content|, hash(o.content))
      requires Parse(o.version).Some? && 0 < |o.content| <= MAX_IMAGE_SIZE
      ensures Validate(m) <==> HexDigest(hash(o.content))
    {
      hide Parse, HexDigest;
    }

    method InstallAndCommit(
        m: Manifest, imageTemp: Name, manifestTemp: Name, target: Name, ghost content: Bytes)
      returns (r: Result<Manifest>, imageInstalled: bool, publicationCommitted: bool)
      requires Consistent() && imageTemp.TempFile? && manifestTemp.TempFile?
      requires running ==> imageTemp != manifestTemp
      requires Validate(m) && NewerThanAll(Parse(m.version).value)
      requires target == ImageOf(m) && target !in Published(files)
      requires |content| == m.size && hash(content) == m.sha256
      requires running ==> imageTemp in files && files[imageTemp] == Image(content)
      modifies this
      ensures Consistent() && littered == old(littered)
      ensures Published(files) - {target, ManifestFile} == Published(old(files)) - {target, ManifestFile}
      ensures running ==> old(running)
      ensures (named == old(named) && contents == old(contents)) ||
              (named == old(named) + [m] && contents == old(contents) + [content])
      ensures running ==> (publicationCommitted <==> named != old(named))
      ensures r.Err? ==> r.error == IOFailure
      ensures reliable && old(running) ==> running && r.Ok?
      ensures running && !publicationCommitted ==> Published(files) - {target} == Published(old(files)) - {target}
      ensures running && !imageInstalled ==> Published(files) == Published(old(files))
      ensures running && r.Ok? ==> publicationCommitted && r.value == m
      ensures running && !publicationCommitted ==>
                Staged(files) - {imageTemp, manifestTemp} == Staged(old(files)) - {imageTemp, manifestTemp}
    {
      hide Validate, Parse, Less;
      imageInstalled, publicationCommitted := false, false;
      ghost var wrote: Blob;
      var ok: bool;
      ok, wrote := WriteTemp(manifestTemp, Encoded(m));
      if !ok { return Err(IOFailure), false, false; }
      ok := InstallImage(imageTemp, target);
      SameOutsideMore(Published(files), Published(old(files)), {target}, {target, ManifestFile});
      if !ok { return Err(IOFailure), false, false; }
      imageInstalled := true;
      var synced: bool :| reliable ==> synced;
      if !synced { return Err(IOFailure), true, false; }
      ghost var installed := files;
      ok := CommitManifest(manifestTemp, m, content);
      SameOutsideMore(Published(files), Published(installed), {ManifestFile}, {target, ManifestFile});
      if !ok { return Err(IOFailure), true, false; }
      publicationCommitted := true;
      synced :| reliable ==> synced;
      if !synced { return Err(IOFailure), true, true; }
      return Ok(m), true, true;
    }

    /** Stages, installs and commits; on failure the cleanup removes what is not
        committed, and nothing else. */
    method StageAndCleanUp(o: Options, target: Name) returns (r: Result<Manifest>)
      requires Consistent() && target == ImageFile(BOARD, o.version)
      requires o.board == BOARD && Parse(o.version).Some? && NewerThanAll(Parse(o.version).value)
      requires target !in Published(files)
      modifies this
      ensures Consistent()
      ensures Extends(old(named), old(contents), o)
      ensures Published(files) - {target, ManifestFile} == Published(old(files)) - {target, ManifestFile}
      ensures running ==> old(running)
      ensures running && r.Ok? ==>
                named != old(named) && named[|named| - 1] == r.value && r.value.schemaVersion == 1
      ensures running && r.Err? ==> StagingError(r.error, o)
      ensures reliable && old(running) ==>
                running && littered == old(littered) && (r.Err? ==> IsCause(r.error))
      ensures running && !littered && named == old(named) ==> files == old(files)
    {
      hide Validate, Parse, Less;
      var created, imageTemp := CreateTemp();
      if !created { return Err(IOFailure); }
      ghost var staged := files;
      var imageInstalled, publicationCommitted: bool;
      r, imageInstalled, publicationCommitted := StageAndCommit(o, imageTemp, target);
      ghost var installed := files;
      RemoveTemp(imageTemp);
      ghost var unstaged := files;
      if imageInstalled && !publicationCommitted {
        RemoveImage(target);
      }
      OnlyTargetChanged(unstaged, files, target);
      if running && !littered && !publicationCommitted {
        Undone(old(files), staged, installed, unstaged, files, imageTemp, target, imageInstalled);
      }
    }

    lemma OnlyTargetChanged(a: Files, b: Files, target: Name)
      requires a - {target} == b - {target}
      ensures Published(a) - {target, ManifestFile} == Published(b) - {target, ManifestFile}
    {
      assert Published(a) - {target, ManifestFile} == Published(a - {target}) - {ManifestFile};
      assert Published(b) - {target, ManifestFile} == Published(b - {target}) - {ManifestFile};
    }

    /** A failed publication whose cleanup succeeded leaves the directory as it was. */
    lemma Undone(
        before: Files, staged: Files, installed: Files, unstaged: Files, after: Files, imageTemp: Name, target: Name,
        imageInstalled: bool)
      requires imageTemp.TempFile? && imageTemp !in before && staged == before[imageTemp := Image([])]
      requires target.ImageFile? && target !in Published(before)
      requires Staged(installed) - {imageTemp} == Staged(staged) - {imageTemp}
      requires Published(installed) - {target} == Published(staged) - {target}
      requires !imageInstalled ==> Published(installed) == Published(staged)
      requires unstaged == installed - {imageTemp}
      requires after == if imageInstalled then unstaged - {target} else unstaged
      ensures after == before
    {
      assert Staged(after) == Staged(installed) - {imageTemp};
      assert Staged(staged) - {imageTemp} == Staged(before);
      assert Published(staged) == Published(before);
      assert Published(before) == Published(before) - {target};
      if imageInstalled {
        assert Published(after) == Published(installed) - {target};
      } else {
        assert Published(after) == Published(installed);
      }
      TwoHalves(after, before);
    }

    /** Everything that is checked before the first staging file is created. */
    method CheckRequest(o: Options) returns (refused: Option<Error>)
      requires Consistent()
      ensures refused == Some(InvalidOptions) ==>
                o.directory == "" || o.board != BOARD || !o.regular || o.statSize == 0
      ensures refused == Some(InvalidVersion) ==> Parse(o.version).None?
      ensures refused == Some(VersionNotNewer) ==>
                named != [] && Parse(o.version).Some? &&
                !Less(Parse(named[|named| - 1].version).value, Parse(o.version).value)
      ensures refused == Some(AlreadyExists) ==> ImageFile(BOARD, o.version) in files
      ensures refused == Some(ImageTooLarge) ==> o.statSize > MAX_IMAGE_SIZE
      ensures refused.Some? ==>
                refused.value in
                  {InvalidOptions, InvalidVersion, VersionNotNewer, AlreadyExists, ImageTooLarge, IOFailure}
      ensures refused.None? ==>
                o.directory != "" && o.board == BOARD && o.regular && 0 < o.statSize <= MAX_IMAGE_SIZE &&
                Parse(o.version).Some? && NewerThanAll(Parse(o.version).value) &&
                ImageFile(BOARD, o.version) !in files
      ensures reliable && refused.Some? ==> IsCause(refused.value)
    {
      hide Validate, Parse, Less, HexDigest;
      if o.directory == "" || o.board != BOARD { return Some(InvalidOptions); }
      var version := Parse(o.version);
      if version.None? { return Some(InvalidVersion); }
      var locked: bool :| reliable ==> locked;
      if !locked { return Some(IOFailure); }
      var current := LoadManifest(o.directory);
      if current.Ok? {
        var currentVersion := Parse(current.value.version);
        if currentVersion.None? { return Some(InvalidVersion); }
        var order := Compare(version.value, currentVersion.value);
        if order <= 0 { return Some(VersionNotNewer); }
      } else if current.error != NotFound {
        return Some(current.error);
      }
      NewestIsGreatest(version.value);
      var readable: bool :| reliable ==> readable;
      if !readable { return Some(IOFailure); }
      if !o.regular || o.statSize == 0 { return Some(InvalidOptions); }
      if o.statSize > MAX_IMAGE_SIZE { return Some(ImageTooLarge); }
      if ImageFile(o.board, o.version) in files { return Some(AlreadyExists); }
      return None;
    }

    /** One publication under the lock, from a consistent directory, up to its
        end or to any point where the publisher stops. */
    method Publish(o: Options) returns (r: Result<Manifest>)
      requires Consistent()
      modifies this
      ensures Consistent()
      ensures old(named) <= named && old(contents) <= contents && Extends(old(named), old(contents), o)
      ensures forall i :: 0 <= i < |old(named)| ==> SameAt(old(files), files, ImageOf(old(named)[i]))
      ensures running ==> old(running)
      ensures running && r.Ok? ==>
                named == old(named) + [r.value] && contents == old(contents) + [o.content] &&
                ImageFile(BOARD, o.version) in files && files[ImageFile(BOARD, o.version)] == Image(o.content) &&
                r.value == Manifest(1, BOARD, o.version, Some(o.publishedAt), |o.content|, hash(o.content)) &&
                |o.content| == o.statSize
      ensures running && ImageFile(BOARD, o.version) in old(files) ==> r.Err? && named == old(named)
      // Each refusal has its cause in the request or the directory, and nothing but
      // an I/O failure or a cancellation stops a request without one.
      ensures running && r == Err(InvalidOptions) ==>
                o.directory == "" || o.board != BOARD || !o.regular || o.statSize == 0
      ensures running && r == Err(InvalidVersion) ==> Parse(o.version).None?
      ensures running && r == Err(VersionNotNewer) ==>
                old(named) != [] && Parse(o.version).Some? &&
                !Less(Parse(old(named[|named| - 1]).version).value, Parse(o.version).value)
      ensures running && r == Err(AlreadyExists) ==> ImageFile(BOARD, o.version) in old(files)
      ensures running && r == Err(ImageTooLarge) ==> o.statSize > 1_966_080 || |o.content| > 1_966_080
      ensures running && r == Err(SourceChanged) ==> o.content == [] || |o.content| != o.statSize
      ensures running && r == Err(InvalidManifest) ==> !HexDigest(hash(o.content))
      ensures running ==> r != Err(NotFound) && r != Err(HashMismatch)
      // On a reliable disk every request ends, and only a cause refuses it.
      ensures reliable && old(running) ==>
                running && littered == old(littered) && (r.Err? ==> r.error != IOFailure && r.error != Cancelled)
      // Conversely, a success had none of these causes.
      ensures running && r.Ok? ==>
                o.directory != "" && o.board == BOARD && o.regular && 0 < o.statSize <= 1_966_080 &&
                Parse(o.version).Some? && ImageFile(BOARD, o.version) !in old(files) &&
                (old(named) != [] ==> Less(Parse(old(named[|named| - 1]).version).value, Parse(o.version).value))
      ensures running && !littered && named == old(named) ==> files == old(files)
    {
      hide Validate, Parse, Less, HexDigest;
      var refused := CheckRequest(o);
      if refused.Some? { return Err(refused.value); }
      var target := ImageFile(BOARD, o.version);
      r := StageAndCleanUp(o, target);
      forall i | 0 <= i < |old(named)|
        ensures SameAt(old(files), files, ImageOf(old(named)[i]))
      {
        assert old(Holds(named[i], contents[i]));
        SameOutside(old(files), files, {target, ManifestFile}, ImageOf(old(named)[i]));
      }
    }

    lemma NewestIsGreatest(v: Version)
      requires Consistent()
      requires named != [] ==> Less(Parse(named[|named| - 1].version).value, v)
      ensures NewerThanAll(v)
    {
      hide Parse;
    }

    // --- Readers among publishers -----------------------------------------------------

    /** A download: the manifest is loaded, any number of publications follow, each
        of which may stop anywhere, and only then the image is opened. What comes
        is the source file that was published with the manifest loaded. */
    method DownloadDuring(directory: string, version: string, attempts: seq<Options>)
      returns (r: Result<Bytes>, m: Result<Manifest>)
      requires Consistent()
      modifies this
      ensures Consistent() && old(named) <= named
      ensures m.Ok? ==> old(named) != [] && m.value == old(named[|named| - 1])
      ensures r.Ok? ==>
                m.Ok? && m.value.version == version && r.value == old(contents[|contents| - 1]) &&
                |r.value| == m.value.size && hash(r.value) == m.value.sha256
      ensures r.Err? && m.Ok? && m.value.version == version && Parse(version).Some? ==>
                r.error == IOFailure || r.error == Cancelled
      ensures reliable && directory != "" && Parse(version).Some? ==>
                old(named) != [] && old(named[|named| - 1]).version == version ==> r.Ok?
    {
      hide Validate, Less;
      m := Err(NotFound);
      if Parse(version).None? { return Err(NotFound), m; }
      m := LoadManifest(directory);
      if m.Err? { return Err(m.error), m; }
      if m.value.version != version { return Err(NotFound), m; }
      for i := 0 to |attempts|
        invariant Consistent() && old(named) <= named && old(contents) <= contents
      {
        running := true;
        var attempt := Publish(attempts[i]);
      }
      r := OpenImage(m.value, old(|named| - 1));
    }
  }
}
