/** The breadth-first directory walk shared by the generator's `embedAsset`
    (embed.go) and the generated accessor's `GetRawDir` (example/assets/assets.go).
    Both pop a directory off the front of a queue, list it, append its
    sub-directories to the queue, skip non-regular entries and store every regular
    file under its (possibly trimmed) path. They differ only in the prefix they trim
    and in what they store for a file's contents, so the walk here takes both as
    parameters. */
module Walker {
  import opened Errors
  import opened FileSystem
  import opened Strings

  type AssetMap = map<Path, Bytes>

  // ---------------------------------------------------------------------------
  // Termination: every queued directory is charged the number of directories
  // below it. Joining a name makes a path strictly longer, so the directories
  // reachable from a path are bounded by the finitely many longer paths.
  // ---------------------------------------------------------------------------

  ghost function Longer(fs: FS, p: Path): set<Path>
  {
    set q | q in fs.nodes && |q| >= |p|
  }

  lemma LongerShrinks(fs: FS, d: Path, name: Name)
    requires d in fs.nodes
    ensures Longer(fs, Join(d, name)) < Longer(fs, d)
  {
    assert d in Longer(fs, d) && d !in Longer(fs, Join(d, name));
  }

  /** One for the directory itself plus the weight of every sub-directory its
      listing names. */
  ghost function Weight(fs: FS, p: Path): nat
    decreases Longer(fs, p), 1
  {
    if p in fs.nodes && fs.nodes[p].Dir? then 1 + ChildWeight(fs, p, fs.nodes[p].entries) else 1
  }

  ghost function ChildWeight(fs: FS, d: Path, es: seq<DirEntry>): nat
    requires d in fs.nodes
    decreases Longer(fs, d), 0, |es|
  {
    if es == [] then 0
    else
      var here :=
        if es[0].mode == ModeDir then
          LongerShrinks(fs, d, es[0].name);
          Weight(fs, Join(d, es[0].name))
        else 0;
      here + ChildWeight(fs, d, es[1..])
  }

  /** The weight of a whole queue. */
  ghost function SumQ(fs: FS, q: seq<Path>): nat
  {
    if q == [] then 0 else Weight(fs, q[0]) + SumQ(fs, q[1..])
  }

  lemma {:induction false} SumQAppend(fs: FS, q: seq<Path>, p: Path)
    ensures SumQ(fs, q + [p]) == SumQ(fs, q) + Weight(fs, p)
  {
    if q != [] {
      assert (q + [p])[1..] == q[1..] + [p];
      SumQAppend(fs, q[1..], p);
    }
  }

  // ---------------------------------------------------------------------------
  // The walk.
  // ---------------------------------------------------------------------------

  /** The paths of the sub-directories a listing of `d` names, in listing order. */
  function Subdirs(d: Path, es: seq<DirEntry>): (r: seq<Path>)
    ensures forall p :: p in r ==> d <= p
    ensures forall x :: x in es && x.mode == ModeDir ==> Join(d, x.name) in r
  {
    if es == [] then []
    else (if es[0].mode == ModeDir then [Join(d, es[0].name)] else []) + Subdirs(d, es[1..])
  }

  lemma {:induction false} SubdirsWeight(fs: FS, d: Path, es: seq<DirEntry>, queue: seq<Path>)
    requires d in fs.nodes
    ensures SumQ(fs, queue + Subdirs(d, es)) == SumQ(fs, queue) + ChildWeight(fs, d, es)
  {
    if es != [] {
      var p := Join(d, es[0].name);
      if es[0].mode == ModeDir {
        assert queue + Subdirs(d, es) == (queue + [p]) + Subdirs(d, es[1..]);
        SubdirsWeight(fs, d, es[1..], queue + [p]);
        SumQAppend(fs, queue, p);
      } else {
        assert queue + Subdirs(d, es) == queue + Subdirs(d, es[1..]);
        SubdirsWeight(fs, d, es[1..], queue);
      }
    } else {
      assert queue + Subdirs(d, es) == queue;
    }
  }

  /** The inner loop over one directory listing `es` of `d`: sub-directories are
      appended to the queue, entries that are neither directories nor regular files
      are skipped, and every regular file is read and stored under its path with
      `strip` trimmed. A failed read aborts. */
  function Visit(fs: FS, strip: Path, store: Bytes -> Bytes, d: Path, es: seq<DirEntry>,
                 queue: seq<Path>, acc: AssetMap): (r: Result<(seq<Path>, AssetMap)>)
    ensures r.Err? ==> r.error.PathError?
    ensures r.Ok? ==> r.value.0 == queue + Subdirs(d, es)
    ensures r.Ok? ==> acc.Keys <= r.value.1.Keys
  {
    if es == [] then Ok((queue, acc))
    else
      var p := Join(d, es[0].name);
      var key := TrimPrefix(p, strip);
      if es[0].mode == ModeDir then Visit(fs, strip, store, d, es[1..], queue + [p], acc)
      else if es[0].mode != ModeRegular then Visit(fs, strip, store, d, es[1..], queue, acc)
      else match ReadFile(fs, p)
        case Err(e) => Err(e)
        case Ok(body) => Visit(fs, strip, store, d, es[1..], queue, acc[key := store(body)])
  }

  /** The outer loop: while the queue is non-empty, pop its head, list it and visit
      the listing. A failed listing aborts. */
  function Walk(fs: FS, strip: Path, store: Bytes -> Bytes, queue: seq<Path>, acc: AssetMap): (r: Result<AssetMap>)
    ensures r.Err? ==> r.error.PathError?
    decreases SumQ(fs, queue)
  {
    if queue == [] then Ok(acc)
    else match ReadDir(fs, queue[0])
      case Err(e) => Err(e)
      case Ok(entries) =>
        match Visit(fs, strip, store, queue[0], entries, queue[1..], acc)
        case Err(e) => Err(e)
        case Ok(next) =>
          SubdirsWeight(fs, queue[0], entries, queue[1..]);
          Walk(fs, strip, store, next.0, next.1)
  }

  /** Everything stored by a walk that starts from `root` alone. */
  function Collect(fs: FS, root: Path, strip: Path, store: Bytes -> Bytes): Result<AssetMap>
  {
    Walk(fs, strip, store, [root], map[])
  }
}
