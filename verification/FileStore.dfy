/**
 * The file snapshot provider, over a directory seen as a map, and the server's Snapshot on top of it.
 */
module FileStore {
  import opened Clock
  import opened Metadata
  import opened Strings
  import opened Wrappers

  /** A file with its size and modification time; `content` is the last revision in it, and `complete`
      is false until Save has renamed it. */
  datatype Entry =
    | File(size: int, mtime: int, content: int, complete: bool)
    | Directory(mtime: int, empty: bool)

  type Files = map<string, Entry>

  /** What Info answers. Crashed stands for the panic of NewMetadata on a name without '_'. */
  datatype InfoResult = Found(metadata: Metadata) | NoSnapshot | Failed | Crashed

  // ---- what Info sees ------------------------------------------------------------------------------

  predicate Panics(name: string, e: Entry) { e.File? && NewMetadata(name, -1, e.size).Panic? }

  /** The file counts as a snapshot. */
  predicate Counts(name: string, e: Entry) { e.File? && NewMetadata(name, -1, e.size).Parsed? }

  /** The revision in a file name, -1 if there is none. */
  function Label(name: string): int {
    var p := NewMetadata(name, -1, 0);
    if p.Parsed? then p.metadata.revision else -1
  }

  /** Info finds a file with the highest revision among those that count. */
  predicate IsInfo(files: Files, readable: bool, r: InfoResult) {
    match r
    case Failed => !readable
    case Crashed => readable && exists n | n in files :: Panics(n, files[n])
    case NoSnapshot => readable && forall n | n in files :: !Panics(n, files[n]) && !Counts(n, files[n])
    case Found(m) =>
      && readable && (forall n | n in files :: !Panics(n, files[n]))
      && m.name in files && Counts(m.name, files[m.name])
      && m == Metadata(m.name, Label(m.name), files[m.name].size)
      && forall n | n in files && Counts(n, files[n]) :: Label(n) <= m.revision
  }

  // ---- Purge and Save as functions -------------------------------------------------------------------

  /** Older than `ttl`, whatever its revision; a directory is removed only if it is empty. */
  predicate Expired(e: Entry, now: int, ttl: int) {
    Since(now, Some(e.mtime)) > ttl && (e.File? || e.empty)
  }

  function Purged(files: Files, clock: string -> int, ttl: int): Files {
    map n | n in files && !Expired(files[n], clock(n), ttl) :: files[n]
  }

  /** Exact in the times: only what is strictly older than `ttl` goes, and of that everything but a directory
      with something in it. */
  lemma {:induction false} ExpiredExactly(e: Entry, now: int, ttl: int)
    requires IsDuration(ttl) && MIN_DURATION < ttl < MAX_DURATION
    ensures Expired(e, now, ttl) <==> now - e.mtime > ttl && !(e.Directory? && !e.empty)
  {
    SinceExactly(now, Some(e.mtime), ttl);
  }

  /** A random suffix of ioutil.TempFile. */
  predicate IsRandom(random: string) { random != "" && '0' <= random[|random| - 1] <= '9' }

  function TempName(m: Metadata, random: string): string { Filename(m) + random }

  /** How the writing of the temporary file ends; a copy of `size` bytes reaches revision `content`. */
  datatype Copy = NotCreated | Broken | Copied(size: int, content: int)

  predicate IsDirectory(files: Files, name: string) { name in files && files[name].Directory? }

  // ---- names ---------------------------------------------------------------------------------------

  /** The size plays no part in parsing. */
  lemma {:induction false} SizeOnly(name: string, size: int)
    ensures NewMetadata(name, -1, size).Parsed? <==> NewMetadata(name, -1, 0).Parsed?
    ensures NewMetadata(name, -1, size).Parsed? ==>
              NewMetadata(name, -1, size).metadata == Metadata(name, Label(name), size)
  {
  }

  /** A file name ends in a letter, the name of a temporary file in a digit. */
  lemma {:induction false} LastChar(m: Metadata, random: string)
    requires IsRandom(random)
    ensures Filename(m) != "" && Filename(m)[|Filename(m)| - 1] == 'p'
    ensures TempName(m, random) != "" && '0' <= TempName(m, random)[|TempName(m, random)| - 1] <= '9'
  {
    assert SUFFIX[|SUFFIX| - 1] == 'p';
  }

  /** A temporary file has the label of the snapshot it is going to be. */
  lemma {:induction false} TempLabel(name: string, r: int, random: string)
    requires '_' !in name && 0 <= r <= MAX_INT64
    ensures Label(Filename(Metadata(name, r, -1))) == r
    ensures Label(TempName(Metadata(name, r, -1), random)) == r
  {
    FormatParse(r);
    FilenameField(Metadata(name, r, -1));
    TempField(name, r, random);
  }

  lemma {:induction false} TempField(name: string, r: int, random: string)
    requires '_' !in name && '_' !in FormatRevision(r)
    ensures SecondField(TempName(Metadata(name, r, -1), random)) == Some(FormatRevision(r))
  {
    var f, s := FormatRevision(r), SUFFIX;
    FilenameTail(name, r);
    assert "_" + SUFFIX == ['_'] + s;
    Append(name, f, s, random);
    FieldBetween(name, f, s + random);
  }

  lemma {:induction false} Append(a: string, f: string, s: string, t: string)
    ensures (a + ['_'] + (f + (['_'] + s))) + t == a + ['_'] + (f + ['_'] + (s + t))
  {
  }

  // ---- the provider ----------------------------------------------------------------------------------

  predicate Listed(files: Files, metadatas: seq<Metadata>, n: string)
    requires n in files
  {
    && !Panics(n, files[n])
    && (Counts(n, files[n]) ==> Metadata(n, Label(n), files[n].size) in metadatas)
  }

  predicate FromFile(files: Files, m: Metadata) {
    m.name in files && Counts(m.name, files[m.name]) && m == Metadata(m.name, Label(m.name), files[m.name].size)
  }

  predicate IsHighest(m: Metadata, metadatas: seq<Metadata>) {
    m in metadatas && forall k | 0 <= k < |metadatas| :: metadatas[k].revision <= m.revision
  }

  lemma {:induction false} HighestExists(metadatas: seq<Metadata>)
    requires metadatas != []
    ensures exists m :: IsHighest(m, metadatas)
  {
    var n := |metadatas| - 1;
    if n == 0 {
      assert IsHighest(metadatas[0], metadatas);
    } else {
      HighestExists(metadatas[..n]);
      var m :| IsHighest(m, metadatas[..n]);
      assert IsHighest(if metadatas[n].revision > m.revision then metadatas[n] else m, metadatas);
    }
  }

  class FileProvider {
    var files: Files

    constructor (files: Files)
      ensures this.files == files
    {
      this.files := files;
    }

    method Info(readable: bool) returns (r: InfoResult)
      ensures IsInfo(files, readable, r)
    {
      if !readable { return Failed; }
      var metadatas: seq<Metadata> := [];
      var rest := files.Items;
      while rest != {}
        invariant forall item | item in rest :: item.0 in files && files[item.0] == item.1
        invariant forall n | n in files && (n, files[n]) !in rest :: Listed(files, metadatas, n)
        invariant forall k | 0 <= k < |metadatas| :: FromFile(files, metadatas[k])
        decreases |rest|
      {
        var file :| file in rest;
        rest := rest - {file};
        ghost var was := metadatas;
        if file.1.File? {
          var p := NewMetadata(file.0, -1, file.1.size);
          if p.Panic? {
            assert Panics(file.0, files[file.0]);
            return Crashed;
          }
          if p.Parsed? {
            SizeOnly(file.0, file.1.size);
            metadatas := metadatas + [p.metadata];
          }
        }
        assert Listed(files, metadatas, file.0);
        forall n | n in files && (n, files[n]) !in rest ensures Listed(files, metadatas, n) {
          assert n != file.0 ==> Listed(files, was, n);
        }
      }
      r := Choose(metadatas);
    }

    /** Sorting by revision and taking the last entry: some entry with the highest revision. */
    method Choose(metadatas: seq<Metadata>) returns (r: InfoResult)
      requires forall n | n in files :: Listed(files, metadatas, n)
      requires forall k | 0 <= k < |metadatas| :: FromFile(files, metadatas[k])
      ensures IsInfo(files, true, r)
    {
      if |metadatas| == 0 { return NoSnapshot; }
      HighestExists(metadatas);
      var last :| IsHighest(last, metadatas);
      assert FromFile(files, last);
      forall n | n in files && Counts(n, files[n]) ensures Label(n) <= last.revision {
        assert Listed(files, metadatas, n);
        var k :| 0 <= k < |metadatas| && metadatas[k] == Metadata(n, Label(n), files[n].size);
      }
      r := Found(last);
    }

    /** Writes a temporary file and renames it. On any error the directory is as before. */
    method Save(m: Metadata, random: string, copy: Copy, renamed: bool, now: int) returns (written: Option<int>)
      requires IsRandom(random) && TempName(m, random) !in files
      modifies this
      ensures written.Some? <==> copy.Copied? && renamed && !IsDirectory(old(files), Filename(m))
      ensures written.Some? ==> written == Some(copy.size)
      ensures files == if written.Some? then old(files)[Filename(m) := File(copy.size, now, copy.content, true)] else old(files)
    {
      if copy.NotCreated? { return None; }
      var tmp, fpath := TempName(m, random), Filename(m);
      LastChar(m, random);
      ghost var was := files;
      files := files[tmp := File(0, now, -1, false)];
      if copy.Broken? {
        files := files - {tmp};
        assert files == was;
        return None;
      }
      files := files[tmp := File(copy.size, now, copy.content, false)];
      if !renamed || IsDirectory(files, fpath) {
        files := files - {tmp};
        assert files == was;
        return None;
      }
      files := (files - {tmp})[fpath := File(copy.size, now, copy.content, true)];
      assert files == was[fpath := File(copy.size, now, copy.content, true)];
      written := Some(copy.size);
    }

    /** Removes exactly what is older than `ttl`, the newest snapshot included. */
    method Purge(readable: bool, clock: string -> int, ttl: int) returns (ok: bool)
      modifies this
      ensures ok == readable
      ensures files == if readable then Purged(old(files), clock, ttl) else old(files)
      ensures readable && MIN_DURATION < ttl < MAX_DURATION ==>
                && (forall n | n in files :: n in old(files) && files[n] == old(files)[n])
                && forall n | n in old(files) :: n in files <==>
                     clock(n) - old(files)[n].mtime <= ttl || (old(files)[n].Directory? && !old(files)[n].empty)
    {
      if !readable { return false; }
      ghost var was := files;
      var rest := files.Items;
      while rest != {}
        invariant files.Keys <= was.Keys
        invariant forall item | item in rest :: item.0 in was && was[item.0] == item.1 && item.0 in files
        invariant forall n | n in files :: files[n] == was[n]
        invariant forall n | n in was && (n, was[n]) !in rest :: n in files <==> !Expired(was[n], clock(n), ttl)
        decreases |rest|
      {
        var file :| file in rest;
        rest := rest - {file};
        if Since(clock(file.0), Some(file.1.mtime)) > ttl {
          if file.1.File? || file.1.empty { files := files - {file.0}; }
        }
      }
      assert files == Purged(was, clock, ttl);
      if MIN_DURATION < ttl < MAX_DURATION {
        forall n | n in was { ExpiredExactly(was[n], clock(n), ttl); }
      }
      ok := true;
    }
  }

  // ---- Snapshot -----------------------------------------------------------------------------------------

  datatype Outcome = Skipped(minRev: int) | Saved(size: int) | SaveFailed | ProcessCrashed

  /** Some complete snapshot with a label of at least `r`. */
  predicate IsComplete(files: Files, n: string) { n in files && files[n].File? && files[n].complete && Counts(n, files[n]) }
  predicate Holds(files: Files, r: int) { exists n | n in files :: IsComplete(files, n) && Label(n) >= r }

  class Snapshotter {
    const name: string
    const provider: FileProvider
    var revision: int

    constructor (name: string, provider: FileProvider, revision: int)
      ensures this.name == name && this.provider == provider && this.revision == revision
    {
      this.name, this.provider, this.revision := name, provider, revision;
    }

    /** The content is read after the revision, so it reaches at least that far. */
    method Snapshot(readable: bool, random: string, copy: Copy, renamed: bool, now: int) returns (r: Outcome)
      requires 0 < revision <= MAX_INT64 && (copy.Copied? ==> copy.content >= revision)
      requires IsRandom(random) && TempName(Metadata(name, revision, -1), random) !in provider.files
      modifies provider
      ensures r.ProcessCrashed? <==> readable && exists n | n in old(provider.files) :: Panics(n, old(provider.files)[n])
      ensures r.Skipped? <==>
                && readable && (forall n | n in old(provider.files) :: !Panics(n, old(provider.files)[n]))
                && exists n | n in old(provider.files) :: Counts(n, old(provider.files)[n]) && Label(n) >= revision
      ensures r.Saved? <==> !r.ProcessCrashed? && !r.Skipped? && copy.Copied? && renamed
                            && !IsDirectory(old(provider.files), Filename(Metadata(name, revision, -1)))
      ensures r.Saved? ==> r.size == copy.size
      ensures r.Skipped? ==>
                && (exists n | n in provider.files :: Counts(n, provider.files[n]) && Label(n) == r.minRev)
                && forall n | n in provider.files && Counts(n, provider.files[n]) :: Label(n) <= r.minRev
      ensures r.Saved? ==>
                provider.files == old(provider.files)[Filename(Metadata(name, revision, -1)) := File(copy.size, now, copy.content, true)]
      ensures r.Saved? && '_' !in name ==> Holds(provider.files, revision)
      ensures !r.Saved? ==> provider.files == old(provider.files)
    {
      var minRev := 0;
      var info := provider.Info(readable);
      if info.Crashed? { return ProcessCrashed; }
      if info.Found? { minRev := info.metadata.revision; }
      if revision <= minRev {
        assert Counts(info.metadata.name, provider.files[info.metadata.name]) && Label(info.metadata.name) >= revision;
        return Skipped(minRev);
      }
      var m := NewMetadata(name, revision, -1).metadata;
      var written := provider.Save(m, random, copy, renamed, now);
      if written.None? { return SaveFailed; }
      if '_' !in name {
        TempLabel(name, revision, random);
        SizeOnly(Filename(m), copy.size);
        assert IsComplete(provider.files, Filename(m));
      }
      r := Saved(written.value);
    }
  }
}
