/** What the breadth-first walk guarantees, whatever it stores: every key comes
    from a readable regular file below the root, every regular file reachable from
    the root through listed directories is stored, any unreadable directory or file
    on the way aborts the walk, and two walks that differ only in what they store
    agree on everything else. */
module WalkProperties {
  import opened Errors
  import opened FileSystem
  import opened Strings
  import opened Walker

  // ---------------------------------------------------------------------------
  // Soundness: keys come from regular files.
  // ---------------------------------------------------------------------------

  /** `k` is the trimmed path of a readable regular file at or below `root` and `v`
      is what is stored for its contents. */
  ghost predicate FromFileUnder(fs: FS, root: Path, strip: Path, store: Bytes -> Bytes, k: Path, v: Bytes)
  {
    exists p :: root <= p && ReadFile(fs, p).Ok? && TrimPrefix(p, strip) == k && v == store(ReadFile(fs, p).value)
  }

  ghost predicate AllFromFilesUnder(fs: FS, root: Path, strip: Path, store: Bytes -> Bytes, m: AssetMap)
  {
    forall k :: k in m ==> FromFileUnder(fs, root, strip, store, k, m[k])
  }

  lemma {:induction false} VisitSound(fs: FS, root: Path, strip: Path, store: Bytes -> Bytes, d: Path,
                                      es: seq<DirEntry>, queue: seq<Path>, acc: AssetMap)
    requires root <= d
    requires AllFromFilesUnder(fs, root, strip, store, acc)
    ensures Visit(fs, strip, store, d, es, queue, acc).Ok? ==>
              AllFromFilesUnder(fs, root, strip, store, Visit(fs, strip, store, d, es, queue, acc).value.1)
  {
    if es != [] {
      var p := Join(d, es[0].name);
      if es[0].mode == ModeDir {
        VisitSound(fs, root, strip, store, d, es[1..], queue + [p], acc);
      } else if es[0].mode != ModeRegular {
        VisitSound(fs, root, strip, store, d, es[1..], queue, acc);
      } else if ReadFile(fs, p).Ok? {
        var key := TrimPrefix(p, strip);
        var acc' := acc[key := store(ReadFile(fs, p).value)];
        assert FromFileUnder(fs, root, strip, store, key, acc'[key]) by {
          assert root <= p;
        }
        assert AllFromFilesUnder(fs, root, strip, store, acc');
        VisitSound(fs, root, strip, store, d, es[1..], queue, acc');
      }
    }
  }

  lemma {:induction false} WalkSound(fs: FS, root: Path, strip: Path, store: Bytes -> Bytes,
                                     queue: seq<Path>, acc: AssetMap)
    requires forall q :: q in queue ==> root <= q
    requires AllFromFilesUnder(fs, root, strip, store, acc)
    ensures Walk(fs, strip, store, queue, acc).Ok? ==>
              AllFromFilesUnder(fs, root, strip, store, Walk(fs, strip, store, queue, acc).value)
    decreases SumQ(fs, queue)
  {
    if queue != [] && ReadDir(fs, queue[0]).Ok? {
      var entries := ReadDir(fs, queue[0]).value;
      var v := Visit(fs, strip, store, queue[0], entries, queue[1..], acc);
      if v.Ok? {
        assert queue[0] in queue;
        VisitSound(fs, root, strip, store, queue[0], entries, queue[1..], acc);
        SubdirsWeight(fs, queue[0], entries, queue[1..]);
        assert forall q :: q in v.value.0 ==> root <= q by {
          forall q | q in v.value.0 ensures root <= q {
            if q !in queue[1..] {
              assert q in Subdirs(queue[0], entries);
              assert queue[0] <= q;
            } else {
              assert q in queue;
            }
          }
        }
        WalkSound(fs, root, strip, store, v.value.0, v.value.1);
      }
    }
  }

  // ---------------------------------------------------------------------------
  // Completeness: every reachable regular file is stored.
  // ---------------------------------------------------------------------------

  /** `names` leads from `d` through directories that can be listed, each step an
      entry its parent lists as a directory. */
  ghost predicate Descends(fs: FS, d: Path, names: seq<Name>)
    decreases |names|
  {
    names == [] ||
    (ReadDir(fs, d).Ok? && DirEntry(names[0], ModeDir) in ReadDir(fs, d).value &&
     Descends(fs, Join(d, names[0]), names[1..]))
  }

  function Follow(d: Path, names: seq<Name>): Path
    decreases |names|
  {
    if names == [] then d else Follow(Join(d, names[0]), names[1..])
  }

  /** `d` can be listed, and every regular file it lists can be read and is stored
      in `m` under its trimmed path. */
  ghost predicate Covered(fs: FS, strip: Path, d: Path, m: AssetMap)
  {
    ReadDir(fs, d).Ok? &&
    forall x :: x in ReadDir(fs, d).value && x.mode == ModeRegular ==>
      ReadFile(fs, Join(d, x.name)).Ok? && TrimPrefix(Join(d, x.name), strip) in m
  }

  /** A visit that succeeds has read every regular file of its listing and stored it. */
  lemma {:induction false} VisitStoresRegularFiles(fs: FS, strip: Path, store: Bytes -> Bytes, d: Path,
                                                   es: seq<DirEntry>, queue: seq<Path>, acc: AssetMap)
    requires Visit(fs, strip, store, d, es, queue, acc).Ok?
    ensures forall x :: x in es && x.mode == ModeRegular ==>
              ReadFile(fs, Join(d, x.name)).Ok? &&
              TrimPrefix(Join(d, x.name), strip) in Visit(fs, strip, store, d, es, queue, acc).value.1
  {
    if es != [] {
      var p := Join(d, es[0].name);
      var r := Visit(fs, strip, store, d, es, queue, acc);
      if es[0].mode == ModeDir {
        VisitStoresRegularFiles(fs, strip, store, d, es[1..], queue + [p], acc);
      } else if es[0].mode != ModeRegular {
        VisitStoresRegularFiles(fs, strip, store, d, es[1..], queue, acc);
      } else {
        var acc' := acc[TrimPrefix(p, strip) := store(ReadFile(fs, p).value)];
        VisitStoresRegularFiles(fs, strip, store, d, es[1..], queue, acc');
        assert r == Visit(fs, strip, store, d, es[1..], queue, acc');
      }
      assert forall x :: x in es ==> x == es[0] || x in es[1..];
    }
  }

  lemma {:induction false} WalkKeysGrow(fs: FS, strip: Path, store: Bytes -> Bytes, queue: seq<Path>, acc: AssetMap)
    ensures Walk(fs, strip, store, queue, acc).Ok? ==> acc.Keys <= Walk(fs, strip, store, queue, acc).value.Keys
    decreases SumQ(fs, queue)
  {
    if queue != [] && ReadDir(fs, queue[0]).Ok? {
      var entries := ReadDir(fs, queue[0]).value;
      var v := Visit(fs, strip, store, queue[0], entries, queue[1..], acc);
      if v.Ok? {
        SubdirsWeight(fs, queue[0], entries, queue[1..]);
        WalkKeysGrow(fs, strip, store, v.value.0, v.value.1);
      }
    }
  }

  /** A directory that cannot be listed, or that lists a regular file that cannot be read. */
  ghost predicate HasReadError(fs: FS, d: Path)
  {
    ReadDir(fs, d).Err? ||
    exists x :: x in ReadDir(fs, d).value && x.mode == ModeRegular && ReadFile(fs, Join(d, x.name)).Err?
  }

  lemma {:induction false} WalkComplete(fs: FS, strip: Path, store: Bytes -> Bytes, queue: seq<Path>,
                                        acc: AssetMap, d: Path, names: seq<Name>)
    requires Walk(fs, strip, store, queue, acc).Ok?
    requires d in queue && Descends(fs, d, names)
    ensures Covered(fs, strip, Follow(d, names), Walk(fs, strip, store, queue, acc).value)
    decreases SumQ(fs, queue), |names|
  {
    var entries := ReadDir(fs, queue[0]).value;
    var v := Visit(fs, strip, store, queue[0], entries, queue[1..], acc);
    SubdirsWeight(fs, queue[0], entries, queue[1..]);
    var m := Walk(fs, strip, store, v.value.0, v.value.1).value;
    assert Walk(fs, strip, store, queue, acc).value == m;
    if d == queue[0] {
      if names == [] {
        VisitStoresRegularFiles(fs, strip, store, queue[0], entries, queue[1..], acc);
        WalkKeysGrow(fs, strip, store, v.value.0, v.value.1);
      } else {
        var child := Join(d, names[0]);
        assert child in v.value.0;
        WalkComplete(fs, strip, store, v.value.0, v.value.1, child, names[1..]);
      }
    } else {
      assert d in v.value.0;
      WalkComplete(fs, strip, store, v.value.0, v.value.1, d, names);
    }
  }

  // ---------------------------------------------------------------------------
  // What is stored does not change which files are visited.
  // ---------------------------------------------------------------------------

  /** `m1` and `m2` have the same keys and related values. */
  ghost predicate RelatedMaps(rel: (Bytes, Bytes) -> bool, m1: AssetMap, m2: AssetMap)
  {
    m1.Keys == m2.Keys && forall k :: k in m1 ==> rel(m1[k], m2[k])
  }

  lemma {:induction false} VisitStoreIndependent(fs: FS, strip: Path, s1: Bytes -> Bytes, s2: Bytes -> Bytes,
                                                 rel: (Bytes, Bytes) -> bool, d: Path, es: seq<DirEntry>,
                                                 queue: seq<Path>, a1: AssetMap, a2: AssetMap)
    requires forall c :: rel(s1(c), s2(c))
    requires RelatedMaps(rel, a1, a2)
    ensures var v1, v2 := Visit(fs, strip, s1, d, es, queue, a1), Visit(fs, strip, s2, d, es, queue, a2);
            (v1.Err? <==> v2.Err?) && (v1.Err? ==> v1.error == v2.error) &&
            (v1.Ok? ==> v1.value.0 == v2.value.0 && RelatedMaps(rel, v1.value.1, v2.value.1))
  {
    if es != [] {
      var p := Join(d, es[0].name);
      if es[0].mode == ModeDir {
        VisitStoreIndependent(fs, strip, s1, s2, rel, d, es[1..], queue + [p], a1, a2);
      } else if es[0].mode != ModeRegular {
        VisitStoreIndependent(fs, strip, s1, s2, rel, d, es[1..], queue, a1, a2);
      } else if ReadFile(fs, p).Ok? {
        var key, body := TrimPrefix(p, strip), ReadFile(fs, p).value;
        var b1, b2 := a1[key := s1(body)], a2[key := s2(body)];
        assert rel(s1(body), s2(body));
        assert RelatedMaps(rel, b1, b2);
        VisitStoreIndependent(fs, strip, s1, s2, rel, d, es[1..], queue, b1, b2);
      }
    }
  }

  lemma {:induction false} WalkStoreIndependent(fs: FS, strip: Path, s1: Bytes -> Bytes, s2: Bytes -> Bytes,
                                                rel: (Bytes, Bytes) -> bool, queue: seq<Path>,
                                                a1: AssetMap, a2: AssetMap)
    requires forall c :: rel(s1(c), s2(c))
    requires RelatedMaps(rel, a1, a2)
    ensures var w1, w2 := Walk(fs, strip, s1, queue, a1), Walk(fs, strip, s2, queue, a2);
            (w1.Err? <==> w2.Err?) && (w1.Err? ==> w1.error == w2.error) &&
            (w1.Ok? ==> RelatedMaps(rel, w1.value, w2.value))
    decreases SumQ(fs, queue)
  {
    if queue != [] && ReadDir(fs, queue[0]).Ok? {
      var entries := ReadDir(fs, queue[0]).value;
      VisitStoreIndependent(fs, strip, s1, s2, rel, queue[0], entries, queue[1..], a1, a2);
      var v1 := Visit(fs, strip, s1, queue[0], entries, queue[1..], a1);
      var v2 := Visit(fs, strip, s2, queue[0], entries, queue[1..], a2);
      if v1.Ok? {
        SubdirsWeight(fs, queue[0], entries, queue[1..]);
        WalkStoreIndependent(fs, strip, s1, s2, rel, v1.value.0, v1.value.1, v2.value.1);
      }
    }
  }
}
