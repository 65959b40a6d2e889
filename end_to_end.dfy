/** How the generator's output and the accessor fit together: what the accessor
    serves from a generated table is what the files held when it was generated,
    and with no prefix stripped the embedded and the raw mode agree as long as the
    files have not changed. */
module EndToEnd {
  import opened Errors
  import opened FileSystem
  import opened Strings
  import opened Gzip
  import opened Walker
  import opened WalkProperties
  import opened Embed
  import opened Assets

  /** The collector's zero-length shortcut and the accessor's empty-stream rule
      together make every payload decode to the original contents. */
  lemma DecompressEncode(c: Bytes)
    ensures Decompress(Encode(c)) == Ok(c)
  {
    if |c| > 0 {
      DecompressCompress(c);
    }
  }

  /** Embedded lookup of a key collected from `root` returns the contents of the
      regular file the key was trimmed from. */
  lemma EmbeddedServesFileContents(fs: FS, root: Path, strip: Path, k: Path)
    requires EmbedTree(fs, root, strip).Ok? && k in EmbedTree(fs, root, strip).value
    ensures exists p :: root <= p && ReadFile(fs, p).Ok? && TrimPrefix(p, strip) == k &&
                        GetEmbedded(EmbedTree(fs, root, strip).value, k) == ReadFile(fs, p)
  {
    EmbedKeysFromRegularFiles(fs, root, strip, k);
    var p :| root <= p && ReadFile(fs, p).Ok? && TrimPrefix(p, strip) == k &&
             EmbedTree(fs, root, strip).value[k] == Encode(ReadFile(fs, p).value);
    DecompressEncode(ReadFile(fs, p).value);
  }

  /** Every entry of a merged map is the encoding of some regular file's contents,
      stored under that file's trimmed path. */
  lemma {:induction false} MergedFromFiles(fs: FS, strip: Path, roots: seq<Path>, acc: AssetMap)
    requires AllFromFilesUnder(fs, "", strip, Encode, acc)
    ensures MergeAll(RootResults(fs, strip, roots), acc).Ok? ==>
              AllFromFilesUnder(fs, "", strip, Encode, MergeAll(RootResults(fs, strip, roots), acc).value)
  {
    if roots != [] && EmbedTree(fs, roots[0], strip).Ok? {
      var f := EmbedTree(fs, roots[0], strip).value;
      forall k | k in f ensures FromFileUnder(fs, "", strip, Encode, k, f[k]) {
        EmbedKeysFromRegularFiles(fs, roots[0], strip, k);
      }
      assert RootResults(fs, strip, roots)[1..] == RootResults(fs, strip, roots[1..]);
      MergedFromFiles(fs, strip, roots[1..], acc + f);
    }
  }

  /** A directory fetch in embedded mode on a generated table never fails, and
      every entry it returns is content whose encoding is the stored payload. */
  lemma GeneratedDirFetchSucceeds(fs: FS, strip: Path, roots: seq<Path>, dir: Path, r: Result<AssetMap>)
    requires Merged(fs, strip, roots).Ok?
    requires EmbeddedDirResult(Merged(fs, strip, roots).value, dir, r)
    ensures r.Ok?
    ensures forall k :: k in r.value ==> Encode(r.value[k]) == Merged(fs, strip, roots).value[k]
  {
    var table := Merged(fs, strip, roots).value;
    MergedFromFiles(fs, strip, roots, map[]);
    forall k | k in table ensures exists c :: table[k] == Encode(c) {
      assert FromFileUnder(fs, "", strip, Encode, k, table[k]);
    }
    forall k | k in table && HasPrefix(k, dir) ensures Decompress(table[k]).Ok? {
      var c :| table[k] == Encode(c);
      DecompressEncode(c);
    }
    forall k | k in r.value ensures Encode(r.value[k]) == table[k] {
      var c :| table[k] == Encode(c);
      DecompressEncode(c);
    }
  }

  /** Same walk, two stores: raw mode sees exactly the keys embedded mode was
      generated with, and decoding each payload gives the raw contents. */
  lemma EmbeddedMatchesRawTree(fs: FS, root: Path)
    ensures EmbedTree(fs, root, "").Ok? <==> RawTree(fs, root).Ok?
    ensures EmbedTree(fs, root, "").Err? ==> EmbedTree(fs, root, "").error == RawTree(fs, root).error
    ensures EmbedTree(fs, root, "").Ok? ==>
              EmbedTree(fs, root, "").value.Keys == RawTree(fs, root).value.Keys &&
              forall k :: k in EmbedTree(fs, root, "").value ==>
                Decompress(EmbedTree(fs, root, "").value[k]) == Ok(RawTree(fs, root).value[k])
  {
    var rel := (z: Bytes, c: Bytes) => Decompress(z) == Ok(c);
    forall c ensures rel(Encode(c), Identity(c)) {
      DecompressEncode(c);
    }
    WalkStoreIndependent(fs, "", Encode, Identity, rel, [root], map[], map[]);
  }

  /** While the files are unchanged, switching an accessor generated from `root`
      with nothing stripped to raw mode does not change what a lookup returns. */
  lemma EmbeddedLookupMatchesRaw(fs: FS, root: Path, k: Path)
    requires EmbedTree(fs, root, "").Ok? && k in EmbedTree(fs, root, "").value
    ensures GetEmbedded(EmbedTree(fs, root, "").value, k) == GetRaw(fs, k)
  {
    EmbeddedMatchesRawTree(fs, root);
    RawDirKeysAreFilePaths(fs, root, k);
  }

  /** ... and neither does a directory fetch of the root itself. */
  lemma EmbeddedDirMatchesRaw(fs: FS, root: Path, r: Result<AssetMap>)
    requires EmbedTree(fs, root, "").Ok?
    requires EmbeddedDirResult(EmbedTree(fs, root, "").value, root, r)
    ensures r == RawTree(fs, root)
  {
    var table := EmbedTree(fs, root, "").value;
    EmbeddedMatchesRawTree(fs, root);
    var raw := RawTree(fs, root).value;
    forall k | k in table ensures HasPrefix(k, root) {
      RawDirKeysAreFilePaths(fs, root, k);
    }
    assert r.Ok?;
    assert r.value.Keys == raw.Keys;
    forall k | k in r.value ensures r.value[k] == raw[k] {
      assert Decompress(table[k]) == Ok(raw[k]);
    }
    assert r.value == raw;
  }

  /** The documented mode switch: the same accessor serves a path from the table,
      then, after `SetRawAssets(true)`, from the filesystem. */
  method ModeSwitch(fs: FS, table: AssetMap, path: Path) returns (embedded: Result<Bytes>, raw: Result<Bytes>)
    ensures embedded == GetEmbedded(table, path)
    ensures raw == ReadFile(fs, path)
  {
    var a := new Accessor(table);
    embedded := a.Asset(fs, path);
    a.SetRawAssets(true);
    raw := a.Asset(fs, path);
  }
}
