/** The generator (embed.go): collecting one root into a map of gzip payloads,
    merging the maps of all roots, and handing the result to the templates that
    produce the two generated files. */
module Embed {
  import opened Errors
  import opened FileSystem
  import opened Strings
  import opened Gzip
  import opened Walker
  import opened WalkProperties

  // ---------------------------------------------------------------------------
  // embedAsset
  // ---------------------------------------------------------------------------

  /** The payload stored for a file's contents: nothing for an empty file, the
      gzip stream otherwise. */
  function Encode(c: Bytes): (z: Bytes)
    ensures |z| == 0 <==> |c| == 0
  {
    if |c| < 1 then [] else Compress(c)
  }

  /** What `embedAsset(root, strip)` returns. */
  function EmbedTree(fs: FS, root: Path, strip: Path): Result<AssetMap>
  {
    Collect(fs, root, strip, Encode)
  }

  /** `embedAsset`: breadth-first over a queue of directories, filling the map in place. */
  method EmbedAsset(fs: FS, path: Path, stripPath: Path) returns (r: Result<AssetMap>)
    ensures r == EmbedTree(fs, path, stripPath)
  {
    var list: AssetMap := map[];
    var dirs := [path];
    while |dirs| > 0
      invariant Walk(fs, stripPath, Encode, dirs, list) == EmbedTree(fs, path, stripPath)
      decreases SumQ(fs, dirs)
    {
      ghost var before, listBefore := dirs, list;
      var d := dirs[0];
      dirs := dirs[1..];
      var files := ReadDir(fs, d);
      if files.Err? {
        return Err(files.error);
      }
      ghost var queue0 := dirs;
      for i := 0 to |files.value|
        invariant Visit(fs, stripPath, Encode, d, files.value[i..], dirs, list)
               == Visit(fs, stripPath, Encode, d, files.value, queue0, listBefore)
      {
        var f := files.value[i];
        var fpath := Join(d, f.name);
        var tmpPath := TrimPrefix(fpath, stripPath);
        if f.mode == ModeDir {
          dirs := dirs + [fpath];
          continue;
        }
        if f.mode != ModeRegular {
          continue;
        }
        var fbody := ReadFile(fs, fpath);
        if fbody.Err? {
          return Err(fbody.error);
        }
        if |fbody.value| < 1 {
          list := list[tmpPath := []];
          continue;
        }
        var buf := Compress(fbody.value);
        list := list[tmpPath := buf];
      }
      assert files.value[|files.value|..] == [];
      SubdirsWeight(fs, d, files.value, queue0);
      assert SumQ(fs, before) == Weight(fs, d) + SumQ(fs, queue0);
    }
    return Ok(list);
  }

  /** Every key is the trimmed path of a readable regular file below the root, and
      its payload is that file's encoding: zero-length exactly for an empty file. */
  lemma EmbedKeysFromRegularFiles(fs: FS, root: Path, strip: Path, k: Path)
    requires EmbedTree(fs, root, strip).Ok? && k in EmbedTree(fs, root, strip).value
    ensures exists p :: root <= p && ReadFile(fs, p).Ok? && TrimPrefix(p, strip) == k &&
                        EmbedTree(fs, root, strip).value[k] == Encode(ReadFile(fs, p).value)
  {
    WalkSound(fs, root, strip, Encode, [root], map[]);
    assert FromFileUnder(fs, root, strip, Encode, k, EmbedTree(fs, root, strip).value[k]);
  }

  /** Every regular file listed by a directory reachable from the root is read
      and stored under its trimmed path. */
  lemma EmbedCoversReachableFiles(fs: FS, root: Path, strip: Path, names: seq<Name>)
    requires EmbedTree(fs, root, strip).Ok? && Descends(fs, root, names)
    ensures Covered(fs, strip, Follow(root, names), EmbedTree(fs, root, strip).value)
  {
    WalkComplete(fs, strip, Encode, [root], map[], root, names);
  }

  /** A read error anywhere the walk reaches aborts it: no map, only the error. */
  lemma EmbedAbortsOnReadError(fs: FS, root: Path, strip: Path, names: seq<Name>)
    requires Descends(fs, root, names) && HasReadError(fs, Follow(root, names))
    ensures EmbedTree(fs, root, strip).Err? && EmbedTree(fs, root, strip).error.PathError?
  {
    if EmbedTree(fs, root, strip).Ok? {
      EmbedCoversReachableFiles(fs, root, strip, names);
      assert false;
    }
  }

  // ---------------------------------------------------------------------------
  // Generate: merging the roots
  // ---------------------------------------------------------------------------

  /** What `embedAsset` returns for each root, in order. */
  function RootResults(fs: FS, strip: Path, roots: seq<Path>): (rs: seq<Result<AssetMap>>)
    ensures |rs| == |roots|
    ensures forall i :: 0 <= i < |roots| ==> rs[i] == EmbedTree(fs, roots[i], strip)
  {
    seq(|roots|, i requires 0 <= i < |roots| => EmbedTree(fs, roots[i], strip))
  }

  /** The map `Generate` accumulates from the per-root results, starting from
      `acc`: each root's map is copied over the accumulated one; the first failing
      root aborts. */
  function MergeAll(results: seq<Result<AssetMap>>, acc: AssetMap): Result<AssetMap>
  {
    if results == [] then Ok(acc)
    else match results[0]
      case Err(e) => Err(e)
      case Ok(f) => MergeAll(results[1..], acc + f)
  }

  /** The merged map of `roots`. */
  function Merged(fs: FS, strip: Path, roots: seq<Path>): Result<AssetMap>
  {
    MergeAll(RootResults(fs, strip, roots), map[])
  }

  /** The root whose result is `res` was collected without error and yields key `k`. */
  predicate Produces(res: Result<AssetMap>, k: Path)
  {
    res.Ok? && k in res.value
  }

  /** The merge succeeds exactly when every root is collected without error. */
  lemma {:induction false} MergeOkIffAllCollected(results: seq<Result<AssetMap>>, acc: AssetMap)
    ensures MergeAll(results, acc).Ok? <==> forall i :: 0 <= i < |results| ==> results[i].Ok?
  {
    if results != [] && results[0].Ok? {
      MergeOkIffAllCollected(results[1..], acc + results[0].value);
      assert forall i :: 1 <= i < |results| ==> results[i] == results[1..][i - 1];
    }
  }

  /** The error of the merge is the error of the first root that fails. */
  lemma {:induction false} MergeFailsWithFirstError(results: seq<Result<AssetMap>>, acc: AssetMap, i: nat)
    requires i < |results| && results[i].Err?
    requires forall j :: 0 <= j < i ==> results[j].Ok?
    ensures MergeAll(results, acc) == Err(results[i].error)
  {
    if i > 0 {
      assert results[0].Ok?;
      assert forall j :: 0 <= j < i - 1 ==> results[1..][j] == results[j + 1];
      MergeFailsWithFirstError(results[1..], acc + results[0].value, i - 1);
    }
  }

  /** Last write wins: a key takes the payload of the last root that produced it. */
  lemma {:induction false} MergeLastWriteWins(results: seq<Result<AssetMap>>, acc: AssetMap, i: nat, k: Path)
    requires MergeAll(results, acc).Ok?
    requires i < |results| && Produces(results[i], k)
    requires forall j :: i < j < |results| ==> !Produces(results[j], k)
    ensures k in MergeAll(results, acc).value
    ensures MergeAll(results, acc).value[k] == results[i].value[k]
  {
    var f := results[0].value;
    assert forall j :: 0 <= j < |results| - 1 ==> results[1..][j] == results[j + 1];
    if i > 0 {
      MergeLastWriteWins(results[1..], acc + f, i - 1, k);
    } else {
      MergeKeepsUnshadowed(results[1..], acc + f, k);
    }
  }

  /** A key of the accumulated map that no later root produces keeps its payload. */
  lemma {:induction false} MergeKeepsUnshadowed(results: seq<Result<AssetMap>>, acc: AssetMap, k: Path)
    requires MergeAll(results, acc).Ok?
    requires k in acc
    requires forall j :: 0 <= j < |results| ==> !Produces(results[j], k)
    ensures k in MergeAll(results, acc).value
    ensures MergeAll(results, acc).value[k] == acc[k]
  {
    if results != [] {
      var f := results[0].value;
      assert !Produces(results[0], k);
      assert forall j :: 0 <= j < |results| - 1 ==> results[1..][j] == results[j + 1];
      MergeKeepsUnshadowed(results[1..], acc + f, k);
    }
  }

  /** Every merged key was already accumulated or is produced by some root. */
  lemma {:induction false} MergeKeysFromRoots(results: seq<Result<AssetMap>>, acc: AssetMap, k: Path)
    requires MergeAll(results, acc).Ok? && k in MergeAll(results, acc).value
    ensures k in acc || exists i :: 0 <= i < |results| && Produces(results[i], k)
  {
    if results != [] {
      var f := results[0].value;
      MergeKeysFromRoots(results[1..], acc + f, k);
      if k !in acc + f {
        var i :| 0 <= i < |results[1..]| && Produces(results[1..][i], k);
        assert Produces(results[i + 1], k);
      } else if k !in acc {
        assert Produces(results[0], k);
      }
    }
  }

  // ---------------------------------------------------------------------------
  // Generate: names, template data and the two files
  // ---------------------------------------------------------------------------

  /** The options `NewGenerator` builds. */
  datatype AssetGenerator = AssetGenerator(package: string, outputPrefix: Path, stripPath: Path, publicFuncs: bool)

  /** A generated file. */
  datatype AssetFile = AssetFile(path: Path, body: Bytes)

  datatype Template = MainTemplate | TestTemplate

  /** The sample asset and the roots added to the template data for the test file. */
  datatype Sample = Sample(firstPath: Path, firstBody: Bytes, dirs: seq<Path>)

  /** The template data: package name, merged map, accessor names and, for the
      test file only, the sample. */
  datatype TemplateData = TemplateData(package: string, files: AssetMap, assetFunc: string,
                                       setRawFunc: string, sample: Option<Sample>)

  /** A Go identifier is exported when it starts with an upper-case letter. */
  predicate IsExported(name: string)
  {
    |name| > 0 && 'A' <= name[0] <= 'Z'
  }

  /** The accessor's and the mode setter's names: the same words, exported
      exactly when `publicFuncs` is set. */
  function FuncNames(publicFuncs: bool): (names: (string, string))
    ensures |names.0| > 0 && names.0[1..] == "sset"
    ensures |names.1| > 0 && names.1[1..] == "etRawAssets"
    ensures IsExported(names.0) == publicFuncs && IsExported(names.1) == publicFuncs
    ensures names.0[0] == (if publicFuncs then 'A' else 'a')
    ensures names.1[0] == (if publicFuncs then 'S' else 's')
  {
    if publicFuncs then ("Asset", "SetRawAssets") else ("asset", "setRawAssets")
  }

  /** The data the main file is rendered from. */
  function MainData(g: AssetGenerator, files: AssetMap): TemplateData
  {
    TemplateData(g.package, files, FuncNames(g.publicFuncs).0, FuncNames(g.publicFuncs).1, None)
  }

  /** `publicFuncs` only chooses the two accessor names: the rest of the data is
      the same either way. */
  lemma PublicFuncsOnlyNames(g: AssetGenerator, files: AssetMap, b: bool)
    ensures var d1, d2 := MainData(g, files), MainData(g.(publicFuncs := b), files);
            d1.package == d2.package && d1.files == d2.files && d1.sample == d2.sample &&
            (d1.assetFunc == d2.assetFunc <==> g.publicFuncs == b) &&
            (d1.setRawFunc == d2.setRawFunc <==> g.publicFuncs == b)
  {
  }

  /** `first` and `body` are what the loop over `files` that breaks at once picks:
      some key and its payload, or the empty key and no payload when `files` is empty. */
  ghost predicate IsFirstEntry(files: AssetMap, first: Path, body: Bytes)
  {
    if files == map[] then first == "" && body == [] else first in files && body == files[first]
  }

  /** What `Generate` hands back on success. */
  ghost predicate GeneratedFrom(g: AssetGenerator, files: AssetMap, paths: seq<Path>,
                                render: (Template, TemplateData) -> Result<Bytes>, out: seq<AssetFile>)
  {
    |out| == 2 &&
    out[0].path == g.outputPrefix + ".go" &&
    render(MainTemplate, MainData(g, files)) == Ok(out[0].body) &&
    out[1].path == g.outputPrefix + "_test.go" &&
    exists first, body :: IsFirstEntry(files, first, body) &&
      render(TestTemplate, MainData(g, files).(sample := Some(Sample(first, body, paths)))) == Ok(out[1].body)
  }

  /** Copies every entry of `m` into `files`, one key at a time in no fixed order;
      an entry of `m` replaces one of `files` under the same key. */
  method CopyInto(files: AssetMap, m: AssetMap) returns (r: AssetMap)
    ensures r == files + m
  {
    r := files;
    var keys := m.Keys;
    while keys != {}
      invariant keys <= m.Keys
      invariant r.Keys == files.Keys + (m.Keys - keys)
      invariant forall k :: k in r ==> r[k] == if k in m.Keys - keys then m[k] else files[k]
      decreases keys
    {
      var k :| k in keys;
      r := r[k := m[k]];
      keys := keys - {k};
    }
    assert r == files + m;
  }

  /** The merge loop of `Generate`: collect each root in order and copy its entries
      over the accumulated map; the first failing root aborts. */
  method MergeRoots(fs: FS, strip: Path, paths: seq<Path>) returns (r: Result<AssetMap>)
    ensures r == Merged(fs, strip, paths)
  {
    ghost var results := RootResults(fs, strip, paths);
    var files: AssetMap := map[];
    for i := 0 to |paths|
      invariant MergeAll(results[i..], files) == Merged(fs, strip, paths)
    {
      var f := EmbedAsset(fs, paths[i], strip);
      if f.Err? {
        return Err(f.error);
      }
      files := CopyInto(files, f.value);
      assert results[i..][1..] == results[i + 1..];
    }
    assert results[|paths|..] == [];
    return Ok(files);
  }

  /** `Generate`: reject an empty root list, merge every root's map into one (a
      later root wins on a shared key), then render the main file and the test file. */
  method Generate(g: AssetGenerator, fs: FS, paths: seq<Path>, render: (Template, TemplateData) -> Result<Bytes>)
    returns (r: Result<seq<AssetFile>>)
    ensures paths == [] ==> r == Err(ErrNoPaths)
    ensures paths != [] && Merged(fs, g.stripPath, paths).Err? ==>
              r == Err(Merged(fs, g.stripPath, paths).error)
    ensures paths != [] && Merged(fs, g.stripPath, paths).Ok? &&
            render(MainTemplate, MainData(g, Merged(fs, g.stripPath, paths).value)).Err? ==>
              r == Err(render(MainTemplate, MainData(g, Merged(fs, g.stripPath, paths).value)).error)
    ensures r.Ok? ==> paths != [] && Merged(fs, g.stripPath, paths).Ok? &&
                      GeneratedFrom(g, Merged(fs, g.stripPath, paths).value, paths, render, r.value)
    ensures r.Err? && paths != [] && Merged(fs, g.stripPath, paths).Ok? &&
            render(MainTemplate, MainData(g, Merged(fs, g.stripPath, paths).value)).Ok? ==>
              exists first, body :: IsFirstEntry(Merged(fs, g.stripPath, paths).value, first, body) &&
                render(TestTemplate, MainData(g, Merged(fs, g.stripPath, paths).value)
                                       .(sample := Some(Sample(first, body, paths)))) == Err(r.error)
  {
    if |paths| < 1 {
      return Err(ErrNoPaths);
    }

    var files :- MergeRoots(fs, g.stripPath, paths);

    var names := FuncNames(g.publicFuncs);
    var data := TemplateData(g.package, files, names.0, names.1, None);

    var mainBody := render(MainTemplate, data);
    if mainBody.Err? {
      return Err(mainBody.error);
    }
    var main := AssetFile(g.outputPrefix + ".go", mainBody.value);

    var first: Path := "";
    if files != map[] {
      first :| first in files;
    }
    var firstBody := if first in files then files[first] else [];
    data := data.(sample := Some(Sample(first, firstBody, paths)));

    var testBody := render(TestTemplate, data);
    assert IsFirstEntry(files, first, firstBody);
    if testBody.Err? {
      return Err(testBody.error);
    }
    var test := AssetFile(g.outputPrefix + "_test.go", testBody.value);
    return Ok([main, test]);
  }

  // ---------------------------------------------------------------------------
  // NewGenerator
  // ---------------------------------------------------------------------------

  /** `NewGenerator`. `packageOfDir` is what the package-name collaborator answers
      for the output's directory; it is consulted only when `pkg` is empty. */
  method NewGenerator(pkg: string, output: Path, strip: Path, publicFuncs: bool, packageOfDir: Result<string>)
    returns (r: Result<AssetGenerator>)
    ensures |pkg| < 1 && packageOfDir.Err? ==> r == Err(packageOfDir.error)
    ensures |pkg| >= 1 || packageOfDir.Ok? ==> r.Ok?
    ensures r.Ok? ==> r.value.package == (if |pkg| >= 1 then pkg else packageOfDir.value)
    ensures r.Ok? ==> r.value.outputPrefix == (if |output| >= 1 then output else "assets")
    ensures r.Ok? ==> r.value.stripPath == strip && r.value.publicFuncs == publicFuncs
  {
    var package := pkg;
    if |package| < 1 {
      if packageOfDir.Err? {
        return Err(packageOfDir.error);
      }
      package := packageOfDir.value;
    }

    var prefix := output;
    if |prefix| < 1 {
      prefix := "assets";
    }

    return Ok(AssetGenerator(package, prefix, strip, publicFuncs));
  }
}
