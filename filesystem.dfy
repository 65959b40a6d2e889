/** An abstract filesystem: the state `ioutil.ReadDir`, `ioutil.ReadFile` and
    `filepath.Join` observe. */
module FileSystem {
  import opened Errors

  newtype byte = x: int | 0 <= x < 256

  type Bytes = seq<byte>

  type Path = string

  /** A directory entry name: non-empty and without a separator. */
  type Name = s: string | s != [] && '/' !in s witness "a"

  /** The mode a directory listing reports for an entry. */
  datatype Mode = ModeDir | ModeRegular | ModeOther

  datatype DirEntry = DirEntry(name: Name, mode: Mode)

  /** What is stored at a path: a directory with its listing (in listing order),
      a regular file with its contents, or anything else (symlink, device, socket). */
  datatype Node = Dir(entries: seq<DirEntry>) | Regular(content: Bytes) | Special

  /** The filesystem at one instant, and the paths the process may not open. */
  datatype FS = FS(nodes: map<Path, Node>, unreadable: set<Path>)

  /** `ioutil.ReadDir`: the listing of a readable directory, or an error. */
  function ReadDir(fs: FS, d: Path): (r: Result<seq<DirEntry>>)
    ensures r.Ok? <==> d in fs.nodes && d !in fs.unreadable && fs.nodes[d].Dir?
    ensures r.Ok? ==> r.value == fs.nodes[d].entries
  {
    if d !in fs.nodes then Err(PathError("open", d, NotExist))
    else if d in fs.unreadable then Err(PathError("open", d, Permission))
    else match fs.nodes[d]
      case Dir(entries) => Ok(entries)
      case _ => Err(PathError("readdirent", d, NotDirectory))
  }

  /** `ioutil.ReadFile`: the whole contents of a readable regular file, or an error. */
  function ReadFile(fs: FS, p: Path): (r: Result<Bytes>)
    ensures r.Ok? <==> p in fs.nodes && p !in fs.unreadable && fs.nodes[p].Regular?
    ensures r.Ok? ==> r.value == fs.nodes[p].content
  {
    if p !in fs.nodes then Err(PathError("open", p, NotExist))
    else if p in fs.unreadable then Err(PathError("open", p, Permission))
    else match fs.nodes[p]
      case Regular(content) => Ok(content)
      case Dir(_) => Err(PathError("read", p, IsDirectory))
      case Special => Err(PathError("read", p, NotRegular))
  }

  /** `filepath.Join(d, name)` for a single entry name, without lexical cleaning. */
  function Join(d: Path, name: Name): (p: Path)
    ensures |p| > |d| && d <= p
    ensures p[|d|..] == name || p[|d|..] == "/" + name
  {
    if d == [] then name
    else if d[|d| - 1] == '/' then d + name
    else d + "/" + name
  }
}
