/** The generated accessor (example/assets/assets.go): a compiled-in table of
    gzip payloads served either from the table (embedded mode, the default) or by
    re-reading the filesystem (raw mode), switched by a flag. */
module Assets {
  import opened Errors
  import opened FileSystem
  import opened Strings
  import opened Gzip
  import opened Walker
  import opened WalkProperties

  // ---------------------------------------------------------------------------
  // Embedded mode
  // ---------------------------------------------------------------------------

  /** `decompress`: a zero-length payload is empty content, not an error, because
      the reader's `io.EOF` on an empty stream is mapped to an empty result; any
      other reader error is returned. */
  function Decompress(data: Bytes): (r: Result<Bytes>)
    ensures data == [] ==> r == Ok([])
    ensures data != [] && NewReader(data).Err? ==> r == Err(NewReader(data).error)
    ensures r.Err? ==> r.error != EOF
  {
    match NewReader(data)
    case Err(e) => if e == EOF then Ok([]) else Err(e)
    case Ok(gr) => ReadAll(gr)
  }

  /** Decompressing a gzip stream gives back what was compressed. */
  lemma DecompressCompress(c: Bytes)
    ensures Decompress(Compress(c)) == Ok(c)
  {
    CompressRoundTrip(c);
  }

  /** `GetEmbedded`: look the path up in the table and decompress its payload. */
  function GetEmbedded(table: AssetMap, path: Path): (r: Result<Bytes>)
    ensures path !in table ==> r == Err(ErrNotExist)
    ensures path in table ==> r == Decompress(table[path])
  {
    if path !in table then Err(ErrNotExist) else Decompress(table[path])
  }

  /** What `GetEmbeddedDir(dir)` may return, whatever order it visits the table in:
      success exactly when every entry whose path starts with `dir` decompresses,
      and then those entries decompressed and nothing else; otherwise the error of
      one of them. */
  ghost predicate EmbeddedDirResult(table: AssetMap, dir: Path, r: Result<AssetMap>)
  {
    (r.Ok? <==> forall k :: k in table && HasPrefix(k, dir) ==> Decompress(table[k]).Ok?) &&
    (r.Ok? ==> r.value.Keys == (set k | k in table && HasPrefix(k, dir)) &&
               forall k :: k in r.value ==> Decompress(table[k]) == Ok(r.value[k])) &&
    (r.Err? ==> exists k :: k in table && HasPrefix(k, dir) && Decompress(table[k]) == Err(r.error))
  }

  /** `GetEmbeddedDir`: range over the table in no particular order, decompressing
      every entry whose path starts with `dir`; the first failure aborts. */
  method GetEmbeddedDir(table: AssetMap, dir: Path) returns (r: Result<AssetMap>)
    ensures EmbeddedDirResult(table, dir, r)
  {
    var files: AssetMap := map[];
    var rest := table.Keys;
    while rest != {}
      invariant rest <= table.Keys
      invariant forall k :: k in table.Keys - rest && HasPrefix(k, dir) ==> Decompress(table[k]).Ok?
      invariant files.Keys == set k | k in table.Keys - rest && HasPrefix(k, dir)
      invariant forall k :: k in files ==> Decompress(table[k]) == Ok(files[k])
      decreases rest
    {
      var path :| path in rest;
      rest := rest - {path};
      if HasPrefix(path, dir) {
        var body := Decompress(table[path]);
        if body.Err? {
          return Err(body.error);
        }
        files := files[path := body.value];
      }
    }
    return Ok(files);
  }

  // ---------------------------------------------------------------------------
  // Raw mode
  // ---------------------------------------------------------------------------

  /** `GetRaw`: read the file itself. */
  function GetRaw(fs: FS, path: Path): (r: Result<Bytes>)
    ensures r == ReadFile(fs, path)
  {
    ReadFile(fs, path)
  }

  /** Raw mode stores contents as they are. */
  function Identity(b: Bytes): Bytes
  {
    b
  }

  /** What `GetRawDir(dir)` returns: the same walk as the generator's, keyed by the
      untrimmed joined path and holding the contents uncompressed. */
  function RawTree(fs: FS, dir: Path): Result<AssetMap>
  {
    Collect(fs, dir, "", Identity)
  }

  /** `GetRawDir`: breadth-first over a queue of directories, filling the map in place. */
  method GetRawDir(fs: FS, dir: Path) returns (r: Result<AssetMap>)
    ensures r == RawTree(fs, dir)
  {
    var list: AssetMap := map[];
    var dirs := [dir];
    while |dirs| > 0
      invariant Walk(fs, "", Identity, dirs, list) == RawTree(fs, dir)
      decreases SumQ(fs, dirs)
    {
      ghost var before, listBefore := dirs, list;
      var d := dirs[0];
      dirs := dirs[1..];
      var files := ReadDir(fs, d);
      if files.Err? {
        return Err(files.error);
      }
      ghost var queue0 := dirs;
      for i := 0 to |files.value|
        invariant Visit(fs, "", Identity, d, files.value[i..], dirs, list)
               == Visit(fs, "", Identity, d, files.value, queue0, listBefore)
      {
        var f := files.value[i];
        var fpath := Join(d, f.name);
        if f.mode == ModeDir {
          dirs := dirs + [fpath];
          continue;
        }
        if f.mode != ModeRegular {
          continue;
        }
        var fbody := ReadFile(fs, fpath);
        if fbody.Err? {
          return Err(fbody.error);
        }
        TrimEmptyPrefix(fpath);
        list := list[fpath := fbody.value];
      }
      assert files.value[|files.value|..] == [];
      SubdirsWeight(fs, d, files.value, queue0);
      assert SumQ(fs, before) == Weight(fs, d) + SumQ(fs, queue0);
    }
    return Ok(list);
  }

  /** Every key of a raw directory fetch is the path of a readable regular file
      below `dir`, mapped to its current contents. */
  lemma RawDirKeysAreFilePaths(fs: FS, dir: Path, k: Path)
    requires RawTree(fs, dir).Ok? && k in RawTree(fs, dir).value
    ensures dir <= k && ReadFile(fs, k) == Ok(RawTree(fs, dir).value[k])
  {
    WalkSound(fs, dir, "", Identity, [dir], map[]);
    assert FromFileUnder(fs, dir, "", Identity, k, RawTree(fs, dir).value[k]);
    var p :| dir <= p && ReadFile(fs, p).Ok? && TrimPrefix(p, "") == k &&
             RawTree(fs, dir).value[k] == Identity(ReadFile(fs, p).value);
    TrimEmptyPrefix(p);
  }

  /** Every regular file listed by a directory reachable from `dir` is in a raw
      directory fetch under its own path. */
  lemma RawDirCoversReachableFiles(fs: FS, dir: Path, names: seq<Name>)
    requires RawTree(fs, dir).Ok? && Descends(fs, dir, names)
    ensures Covered(fs, "", Follow(dir, names), RawTree(fs, dir).value)
  {
    WalkComplete(fs, "", Identity, [dir], map[], dir, names);
  }

  /** A read error anywhere the raw walk reaches aborts it: no map, only the error. */
  lemma RawDirAbortsOnReadError(fs: FS, dir: Path, names: seq<Name>)
    requires Descends(fs, dir, names) && HasReadError(fs, Follow(dir, names))
    ensures RawTree(fs, dir).Err? && RawTree(fs, dir).error.PathError?
  {
    if RawTree(fs, dir).Ok? {
      RawDirCoversReachableFiles(fs, dir, names);
      assert false;
    }
  }

  // ---------------------------------------------------------------------------
  // The mode flag
  // ---------------------------------------------------------------------------

  /** The package state of the generated file: the mode flag `_useRawAssets` and
      the compiled-in table `_rawAssets`. */
  class Accessor {
    var useRawAssets: bool
    const rawAssets: AssetMap

    /** Embedded mode is the default. */
    constructor (table: AssetMap)
      ensures !useRawAssets && rawAssets == table
    {
      useRawAssets := false;
      rawAssets := table;
    }

    /** `SetRawAssets`. */
    method SetRawAssets(b: bool)
      modifies this
      ensures useRawAssets == b
    {
      useRawAssets := b;
    }

    /** `Asset`: read the file in raw mode, look it up in the table otherwise. */
    method Asset(fs: FS, path: Path) returns (r: Result<Bytes>)
      ensures useRawAssets ==> r == ReadFile(fs, path)
      ensures !useRawAssets ==> r == GetEmbedded(rawAssets, path)
    {
      if useRawAssets {
        return GetRaw(fs, path);
      }
      return GetEmbedded(rawAssets, path);
    }

    /** `AssetDir`: walk the directory in raw mode, filter the table otherwise. */
    method AssetDir(fs: FS, dir: Path) returns (r: Result<AssetMap>)
      ensures useRawAssets ==> r == RawTree(fs, dir)
      ensures !useRawAssets ==> EmbeddedDirResult(rawAssets, dir, r)
    {
      if useRawAssets {
        r := GetRawDir(fs, dir);
        return;
      }
      r := GetEmbeddedDir(rawAssets, dir);
    }
  }
}
