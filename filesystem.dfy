/** An abstract filesystem: each directory path maps to the names of its
    entries (files and subdirectories), and each file path to its mode bits.
    Paths are the strings the Python code builds with `dir + "/" + name`. */
module FileSystem {
  import opened Common

  datatype FileSystem = FileSystem(entries: map<string, seq<string>>, modes: map<string, bv32>)

  /** `dir + "/" + name`, the only way the commands build paths. */
  function Join(dir: string, name: string): string
  {
    dir + "/" + name
  }

  /** `Join` is plain concatenation: distinct names give distinct paths, no
      name is normalised away (not even "" or "."), and a name holding `/` is
      the same string as the nested path. */
  lemma JoinFacts(dir: string, name: string, a: string, b: string)
    ensures Join(dir, name) == Join(dir, a) <==> name == a
    ensures Join(dir, "") != dir && Join(dir, ".") != dir
    ensures Join(Join(dir, a), b) == Join(dir, a + "/" + b)
  {
    assert Join(dir, name)[|dir| + 1..] == name;
    assert Join(dir, a)[|dir| + 1..] == a;
  }

  /** stat.S_IEXEC, the owner-execute bit (0o100). */
  const ExecBit: bv32 := 0x40

  /** `mode | stat.S_IEXEC`. */
  function WithExecBit(mode: bv32): bv32
  {
    mode | ExecBit
  }

  /** OR-ing in the execute bit sets it, keeps every other bit, and is idempotent. */
  lemma WithExecBitFacts(mode: bv32)
    ensures WithExecBit(mode) & ExecBit != 0
    ensures WithExecBit(mode) & !ExecBit == mode & !ExecBit
    ensures WithExecBit(WithExecBit(mode)) == WithExecBit(mode)
    ensures mode & ExecBit != 0 ==> WithExecBit(mode) == mode
  {
  }

  /** Whether the file at `path` exists and has its owner-execute bit set. */
  predicate IsExecutable(modes: map<string, bv32>, path: string)
  {
    path in modes && modes[path] & ExecBit != 0
  }

  /** `os.chmod(path, os.stat(path).st_mode | stat.S_IEXEC)`; os.stat raises
      FileNotFoundError when there is no such file. */
  function MakeExecutable(modes: map<string, bv32>, path: string): (r: Result<map<string, bv32>>)
    ensures r.Ok? <==> path in modes
    ensures r.Ok? ==> r.value.Keys == modes.Keys && r.value[path] == WithExecBit(modes[path])
    ensures r.Ok? ==> forall q :: q in modes && q != path ==> r.value[q] == modes[q]
    ensures r.Err? ==> r.failure == OsError(path)
  {
    if path in modes then Ok(modes[path := WithExecBit(modes[path])]) else Err(OsError(path))
  }

  /** `os.makedirs(dir + "/" + name)` where an "already exists" error is
      swallowed: the directory is created and listed in `dir` unless an
      entry of that path is already there. */
  function MakeDirectory(fs: FileSystem, dir: string, name: string): (r: FileSystem)
    ensures Join(dir, name) in fs.entries || Join(dir, name) in fs.modes ==> r == fs
    ensures Join(dir, name) !in fs.modes ==> Join(dir, name) in r.entries
    ensures r.modes == fs.modes
    ensures forall k :: k in fs.entries ==> k in r.entries
    ensures forall k :: k in fs.entries && k != dir ==> r.entries[k] == fs.entries[k]
    ensures Join(dir, name) !in fs.entries && Join(dir, name) !in fs.modes ==>
      && r.entries.Keys == fs.entries.Keys + {Join(dir, name)}
      && r.entries[Join(dir, name)] == []
      && (dir in fs.entries ==> r.entries[dir] == fs.entries[dir] + [name])
  {
    var path := Join(dir, name);
    if path in fs.entries || path in fs.modes then fs
    else
      assert |path| > |dir|;
      var listed := if dir in fs.entries then fs.entries[dir := fs.entries[dir] + [name]] else fs.entries;
      FileSystem(listed[path := []], fs.modes)
  }

  /** Path `k` lies in the subtree rooted at `p`. */
  predicate Under(k: string, p: string)
  {
    k == p || p + "/" <= k
  }

  /** `shutil.rmtree(dir + "/" + name)`: the subtree disappears, with its files,
      and `name` is no longer listed in `dir`. */
  function RemoveTree(fs: FileSystem, dir: string, name: string): (r: FileSystem)
    ensures forall k :: k in r.entries <==> k in fs.entries && !Under(k, Join(dir, name))
    ensures forall k :: k in r.modes <==> k in fs.modes && !Under(k, Join(dir, name))
    ensures forall k :: k in r.modes ==> r.modes[k] == fs.modes[k]
    ensures forall k :: k in r.entries && k != dir ==> r.entries[k] == fs.entries[k]
    ensures dir in r.entries ==> r.entries[dir] == Filter(n => n != name, fs.entries[dir])
  {
    var p := Join(dir, name);
    var kept := map k | k in fs.entries && !Under(k, p) :: fs.entries[k];
    var modes := map k | k in fs.modes && !Under(k, p) :: fs.modes[k];
    FileSystem(if dir in kept then kept[dir := Filter(n => n != name, kept[dir])] else kept, modes)
  }

  /** The process state the commands work on: its working directory and
      the filesystem. */
  class Host {
    var cwd: string
    var fs: FileSystem

    constructor (cwd: string, fs: FileSystem)
      ensures this.cwd == cwd && this.fs == fs
    {
      this.cwd := cwd;
      this.fs := fs;
    }
  }
}
