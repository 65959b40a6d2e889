# yaber core in Dafny

yaber embeds asset files into generated Go source. This project models its two
cooperating pieces and proves what they promise.

- **The generator (`embed.go`).**
  - `embedAsset` walks one root directory breadth-first. It keys every regular
    file by its joined path with the user's strip prefix trimmed, and stores a
    gzip payload for it, or a zero-length payload for an empty file.
  - `Generate` rejects an empty root list and merges the maps of all roots, a
    later root winning on a shared key. It then renders the main file and the
    test file, choosing the accessor names from `PublicFuncs`.
  - `NewGenerator` fills in the defaults.
- **The generated accessor (`example/assets/assets.go`).**
  - It holds a compiled-in table of payloads and a mode flag, which is off by
    default.
  - In embedded mode, `Asset` looks a path up in the table and decompresses it
    (`GetEmbedded`). `AssetDir` decompresses every entry whose path starts
    with the directory (`GetEmbeddedDir`).
  - In raw mode, set by `SetRawAssets(true)`, they read the filesystem instead
    (`GetRaw`, `GetRawDir`). `GetRawDir` repeats the generator's walk without
    trimming and without compression.

Modules, one per file:

| file | module | contents |
|---|---|---|
| `errors.dfy` | `Errors` | the error values and the `Result` type that stands for Go's `(value, error)` pairs |
| `filesystem.dfy` | `FileSystem` | a filesystem as a value: paths mapped to directories with their listings, regular files with their contents, or other nodes, plus the set of paths that cannot be opened; `ioutil.ReadDir`, `ioutil.ReadFile` and `filepath.Join` on it |
| `strings.dfy` | `Strings` | `strings.HasPrefix` and `strings.TrimPrefix` |
| `gzip.dfy` | `Gzip` | a stand-in for `compress/gzip` (see Left out) |
| `walker.dfy` | `Walker` | the breadth-first walk shared by `embedAsset` and `GetRawDir`, as functions, generic in the strip prefix and in what is stored for a file's contents |
| `walk_properties.dfy` | `WalkProperties` | what the walk guarantees: soundness, completeness, abort on error, independence from what is stored |
| `embed.dfy` | `Embed` | `embedAsset`, the merge, `Generate`, `NewGenerator` |
| `assets.dfy` | `Assets` | the accessor: `decompress`, `GetEmbedded`, `GetEmbeddedDir`, `GetRaw`, `GetRawDir`, and the class `Accessor` holding the mode flag |
| `end_to_end.dfy` | `EndToEnd` | how generator and accessor fit: the accessor serves what the files held, and the two modes agree |
| `scenarios.dfy` | `Scenarios` | the repository's two tests: the collection test on an explicit filesystem, the generator test for any filesystem and renderer, with the package-name answer supplied |

The loops of the source are methods with loop invariants.
- `EmbedAsset`, `GetRawDir`, `MergeRoots`, `CopyInto` and `GetEmbeddedDir`
  are proved against specification functions: `Walk`/`Collect`, `Merged`,
  map union, and the `EmbeddedDirResult` predicate.
- The properties are lemmas about those functions.
- The mode flag is a field of the class `Accessor`, which `SetRawAssets`
  updates in place.

## Model

| member | source | states |
|---|---|---|
| FileSystem.ReadDir | embed.go:137-140 | a listing succeeds exactly for an existing, openable directory, and is then its stored listing; otherwise a path error |
| FileSystem.ReadFile | embed.go:154-157 | a read succeeds exactly for an existing, openable regular file, and is then its contents; otherwise a path error |
| FileSystem.Join | embed.go:143 | the joined path strictly extends the directory path, by the name or by "/" and the name |
| Strings.HasPrefix | example/assets/assets.go:87 | a path passes the directory filter exactly when the directory is a sequence prefix of it |
| Strings.TrimPrefix | embed.go:144 | with the prefix present, prefix + result is the path; without it the path is unchanged |
| Strings.TrimEmptyPrefix | embed.go:144 | an empty strip prefix leaves every path unchanged |
| Strings.TrimPrefixInjective | embed.go:144 | two paths that both carry the prefix never share a trimmed key |
| Gzip.Compress | embed.go:163-175 | the written stream is the gzip header followed by as many bytes as the contents |
| Gzip.NewReader | example/assets/assets.go:99-105 | an empty stream gives EOF; the header is accepted exactly when the stream starts with the gzip magic |
| Gzip.ReadAll | example/assets/assets.go:107 | after an accepted header, reading never fails and yields what followed the header |
| Gzip.CompressRoundTrip | embed.go:163-175 | a written stream has a valid header and reads back to exactly what was written |
| Walker.Subdirs | embed.go:146-149 | every queued sub-directory lies below the listed directory, and every directory entry is queued |
| Walker.Visit | embed.go:142-176 | a visit of one listing fails only with a path error; on success the queue is extended by exactly the listing's sub-directories, in order, and no key is lost |
| Walker.Walk | embed.go:134-141 | the walk terminates (queue measure) and fails only with a filesystem path error |
| WalkProperties.VisitStoresRegularFiles | embed.go:150-161 | a successful visit has read every regular entry of the listing and stored it under its trimmed joined path |
| WalkProperties.VisitSound | embed.go:142-176 | every key a visit adds comes from a readable regular file below the root, holding what is stored for its contents |
| WalkProperties.WalkSound | embed.go:130-179 | every key of a successful walk is the trimmed path of a readable regular file below the root, mapped to the stored form of its contents; directories and other entries never become keys |
| WalkProperties.WalkKeysGrow | embed.go:159-175 | the walk only adds keys |
| WalkProperties.WalkComplete | embed.go:134-177 | every regular file listed by a directory reachable through listed sub-directories is read and stored under its trimmed path |
| WalkProperties.VisitStoreIndependent | example/assets/assets.go:54-70 | two visits that differ only in what they store fail alike and queue alike, with related payloads |
| WalkProperties.WalkStoreIndependent | example/assets/assets.go:42-73 | two walks that differ only in what they store fail with the same error or succeed with the same keys and related payloads |
| Embed.Encode | embed.go:158-175 | the stored payload is zero-length exactly when the file is empty |
| Embed.EmbedAsset | embed.go:130-179 | the in-place queue and map loop returns exactly the collected tree `EmbedTree` (walk with the strip prefix and `Encode`) |
| Embed.EmbedKeysFromRegularFiles | embed.go:146-161 | every key is the trimmed path of a readable regular file below the root, and its payload is that file's encoding |
| Embed.EmbedCoversReachableFiles | embed.go:142-176 | every regular file reachable from the root is stored under its trimmed path |
| Embed.EmbedAbortsOnReadError | embed.go:137-157 | an unreadable directory, or an unreadable regular file, anywhere the walk reaches makes `embedAsset` return a path error and no map |
| Embed.RootResults | embed.go:72-73 | one collection result per root, in root order |
| Embed.MergeOkIffAllCollected | embed.go:72-80 | the merge succeeds exactly when every root is collected without error |
| Embed.MergeFailsWithFirstError | embed.go:73-76 | the merge fails with the error of the first failing root |
| Embed.MergeLastWriteWins | embed.go:77-79 | a merged key holds the payload of the last root that produced it |
| Embed.MergeKeepsUnshadowed | embed.go:71-80 | a key that no later root produces keeps its earlier payload |
| Embed.MergeKeysFromRoots | embed.go:71-80 | every merged key comes from some root |
| Embed.CopyInto | embed.go:77-79 | the key-by-key copy loop yields the union of the two maps, the copied map winning on a shared key |
| Embed.MergeRoots | embed.go:71-80 | the merge loop returns exactly `Merged`, the fold of the per-root results |
| Embed.FuncNames | embed.go:88-94 | the names are exactly "Asset" and "SetRawAssets" when `PublicFuncs` is set, and "asset" and "setRawAssets" otherwise, so they are exported exactly when it is set |
| Embed.PublicFuncsOnlyNames | embed.go:82-94 | `PublicFuncs` changes only the two names in the template data |
| Embed.Generate | embed.go:66-126 | no roots gives `ErrNoPaths`; a failing root or a failing main render gives that error; success gives exactly two files, `OutputPrefix+".go"` with the main rendering of the merged map and `OutputPrefix+"_test.go"` with the test rendering of some first entry; a test-render failure gives its error |
| Embed.NewGenerator | embed.go:41-62 | an empty package name takes the package of the output's directory, or fails with its error; an empty output becomes "assets"; strip and public flag are copied |
| Assets.Decompress | example/assets/assets.go:97-108 | a zero-length payload is empty content; any other reader error on a non-empty payload is returned as it is; the reader's EOF is never returned as an error |
| Assets.DecompressCompress | example/assets/assets.go:97-108 | decompressing a compressed stream gives back its contents |
| Assets.GetEmbedded | example/assets/assets.go:75-81 | a missing key gives `ErrNotExist`; a present one gives its payload decompressed |
| Assets.GetEmbeddedDir | example/assets/assets.go:83-95 | in any iteration order: success exactly when every entry under the prefix decompresses, with exactly those keys and their decompressed contents; otherwise the error of one of them |
| Assets.GetRaw | example/assets/assets.go:38-40 | a raw lookup is a read of the file itself |
| Assets.GetRawDir | example/assets/assets.go:42-73 | the in-place queue and map loop returns exactly `RawTree`, the generator's walk with nothing stripped and contents stored as they are |
| Assets.RawDirKeysAreFilePaths | example/assets/assets.go:54-69 | every raw key is the untrimmed path of a readable regular file below the directory, mapped to its current contents |
| Assets.RawDirCoversReachableFiles | example/assets/assets.go:46-71 | every regular file reachable from the directory is in the raw fetch |
| Assets.RawDirAbortsOnReadError | example/assets/assets.go:49-68 | a read error anywhere the raw walk reaches aborts it with a path error and no map |
| Assets.Accessor.constructor | example/assets/assets.go:18 | the accessor starts in embedded mode |
| Assets.Accessor.SetRawAssets | example/assets/assets.go:20-22 | the flag becomes the given value |
| Assets.Accessor.Asset | example/assets/assets.go:24-29 | raw mode reads the file, embedded mode looks it up in the table |
| Assets.Accessor.AssetDir | example/assets/assets.go:31-36 | raw mode walks the directory, embedded mode filters and decompresses the table |
| EndToEnd.DecompressEncode | embed.go:158-175 | every stored payload, the empty one included, decompresses to the file's original contents |
| EndToEnd.EmbeddedServesFileContents | example/assets/assets.go:75-81 | an embedded lookup of a collected key returns the contents of the file it was collected from |
| EndToEnd.MergedFromFiles | embed.go:71-80 | every entry of the merged table is the encoding of some regular file's contents under its trimmed path |
| EndToEnd.GeneratedDirFetchSucceeds | example/assets/assets.go:83-95 | on a generated table an embedded directory fetch never fails, and re-encoding each result gives the stored payload |
| EndToEnd.EmbeddedMatchesRawTree | example/assets/assets.go:42-73 | with nothing stripped, the generator and the raw walk fail together with the same error, or produce the same keys with payloads decoding to the raw contents |
| EndToEnd.EmbeddedLookupMatchesRaw | example/assets/assets.go:24-29 | with nothing stripped and unchanged files, switching to raw mode does not change a lookup |
| EndToEnd.EmbeddedDirMatchesRaw | example/assets/assets.go:31-36 | with nothing stripped and unchanged files, switching to raw mode does not change a fetch of the root directory |
| EndToEnd.ModeSwitch | example/assets/assets.go:18-29 | one accessor serves a path from the table, then from the filesystem after `SetRawAssets(true)` |
| Scenarios.EmbedTemplatesExample | embed_test.go:16-41 | collecting the example templates with prefix "example/" gives three keys under "templates/", a zero-length payload for the empty file, and a payload that decompresses to "This file is just a test.\n" |
| Scenarios.GenerateAssetsExample | embed_test.go:43-57 | with no package name and the output "./example/assets/assets", the generator takes the package-name answer for the output's directory (supplied as "assets") and keeps the prefix; the run succeeds whenever "./example" can be collected and rendering succeeds, and a successful run returns two files, the first one "./example/assets/assets.go" |

## Left out

- DEFLATE coding. The gzip library is a stand-in: a stream is the two magic bytes followed by the data. The header errors (EOF, truncated header, bad magic) and the round trip are modelled, but compression ratio and the exact bytes are not.
- Writer errors in `embedAsset` (embed.go:167-173). Writing into an in-memory buffer does not fail, so these paths are not modelled. The `gw.Close()` branch at embed.go:171-172 would return the stale `e`, which is nil, i.e. a nil map with no error. That branch is unreachable here and no input can exhibit it.
- FileSystem.Join: no lexical cleaning of "./" or "..". The test's root "./example/templates" is therefore stated as "example/templates", the path `filepath.Join` yields for its entries.
- FileSystem.ReadDir: the listing is returned in stored order. Go sorts it by name, so a model filesystem is expected to store listings sorted.
- FileSystem.ReadFile: symlinks are not followed. A symlink is an "other" node, as `ReadDir` reports it, and the walk skips such an entry. Go's `ioutil.ReadFile` follows a symlink, and it also reads a device node. So `GetRaw` on a symlinked file or a device returns its bytes in Go, while the model returns a path error.
- FileSystem.ReadDir: symlinks are not followed here either. Go's `ioutil.ReadDir` lists a root that is a symlink to a directory, so `embedAsset` and `GetRawDir` walk it. The model refuses such a root with a path error.
- Template rendering (`runTemplate`, `tmplMain`, `tmplTest`) is a parameter of `Generate`. `VERSION` and `executedCommand` are not part of the template data.
- `getPackageName` is not part of this model. Its answer for the output's directory is a parameter of `NewGenerator`.
- Embed.Generate: which key is "first" is left open, like Go's map iteration. The model proves only that the sample is some entry of the merged map, or the empty key with no body when the map is empty.
- Embed.MergeRoots: the merge loop of `Generate` is a method of its own, called by `Generate`.
- Assets.GetEmbeddedDir: the error returned is that of some failing matching entry, since iteration order is unspecified.
- Assets.Accessor: the flag is single-threaded state. Concurrent lookups racing with `SetRawAssets` are not modelled.
- The literal payloads of `_rawAssets` (example/assets/assets.go:110-117) are not modelled. The table is a constructor argument of `Accessor`.
- The test helpers `assert` and `failOnError` in `embed_test.go` are not part of this model.
