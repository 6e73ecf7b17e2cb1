/** The part of the operating system that setup_cursor.py touches: a tree
    of directories and files, and the calls it makes on it (`Path.mkdir`
    with `exist_ok=True`, `open(..., 'w')`, reading a JSON file,
    `os.unlink`, `shutil.rmtree`). A call that raises leaves the tree as it
    was. File contents are kept as parsed documents or as raw text; the
    text format of JSON is not modelled. */
module FileTree {
  import opened Json

  /** An absolute path, as its list of components. `[]` is the root. */
  type Path = seq<string>

  /** A file holding a JSON document (as `json.load` would parse it), or
      any other text. */
  datatype Content = JsonDoc(doc: Value) | Text(text: string)

  datatype Fs = Fs(dirs: set<Path>, files: map<Path, Content>)

  /** The outcome of a call that may raise: whether it raised, and the tree
      afterwards. */
  datatype Attempt = Attempt(raised: bool, fs: Fs)

  /** `os.path.exists` / `Path.exists`. */
  predicate Exists(fs: Fs, p: Path)
  {
    p in fs.dirs || p in fs.files
  }

  function Parent(p: Path): Path
    requires p != []
  {
    p[..|p| - 1]
  }

  /** `p` is `d` or lies somewhere below it. */
  predicate IsUnder(p: Path, d: Path)
  {
    d <= p
  }

  /** A tree: the root is a directory, no path is both a file and a
      directory, and the parent of every entry is a directory. */
  ghost predicate WellFormed(fs: Fs)
  {
    && [] in fs.dirs
    && (forall p | p in fs.dirs :: p !in fs.files)
    && (forall p | p in fs.dirs && p != [] :: Parent(p) in fs.dirs)
    && (forall p | p in fs.files :: p != [] && Parent(p) in fs.dirs)
  }

  /** In a tree, nothing exists below a path that does not exist. */
  lemma {:induction false} NothingUnderMissing(fs: Fs, d: Path, p: Path)
    requires WellFormed(fs)
    requires !Exists(fs, d)
    requires IsUnder(p, d)
    ensures !Exists(fs, p)
    decreases |p|
  {
    if Exists(fs, p) {
      assert p != d;
      assert p != [];
      assert Parent(p) in fs.dirs;
      assert IsUnder(Parent(p), d) by {
        assert |d| < |p|;
        assert Parent(p)[..|d|] == p[..|d|];
      }
      NothingUnderMissing(fs, d, Parent(p));
    }
  }

  /** `Path.mkdir(exist_ok=True)`: nothing happens when the directory is
      there; it raises when a file stands there or the parent is missing. */
  function MakeDir(fs: Fs, p: Path): (a: Attempt)
  {
    if p in fs.dirs then Attempt(false, fs)
    else if p in fs.files || p == [] || Parent(p) !in fs.dirs then Attempt(true, fs)
    else Attempt(false, fs.(dirs := fs.dirs + {p}))
  }

  /** `open(p, 'w')` followed by a write: raises when `p` is a directory or
      its parent is missing. */
  function WriteFile(fs: Fs, p: Path, c: Content): (a: Attempt)
  {
    if p in fs.dirs || p == [] || Parent(p) !in fs.dirs then Attempt(true, fs)
    else Attempt(false, fs.(files := fs.files[p := c]))
  }

  /** `json.load(open(p))`: None when it raises (missing file, a directory,
      or text that is not JSON). */
  function ReadJson(fs: Fs, p: Path): Option<Value>
  {
    if p in fs.files && fs.files[p].JsonDoc? then Some(fs.files[p].doc) else None
  }

  /** `os.unlink`: removes a file, raises on a directory or a missing path. */
  function Unlink(fs: Fs, p: Path): (a: Attempt)
  {
    if p in fs.dirs || p !in fs.files then Attempt(true, fs) else Attempt(false, fs.(files := fs.files - {p}))
  }

  /** `shutil.rmtree`: removes a directory and everything below it, raises
      on a file or a missing path. */
  function RemoveTree(fs: Fs, d: Path): (a: Attempt)
  {
    if d in fs.dirs then
      Attempt(false, Fs(set p | p in fs.dirs && !IsUnder(p, d),
                        map p | p in fs.files && !IsUnder(p, d) :: fs.files[p]))
    else Attempt(true, fs)
  }

  /** The machine the setup script runs on, whose file tree the script
      changes in place. */
  class Workstation {
    var dirs: set<Path>
    var files: map<Path, Content>

    function State(): Fs
      reads this
    {
      Fs(dirs, files)
    }

    constructor (initial: Fs)
      ensures State() == initial
    {
      dirs := initial.dirs;
      files := initial.files;
    }

    method MakeDirectory(p: Path) returns (raised: bool)
      modifies this
      ensures Attempt(raised, State()) == MakeDir(old(State()), p)
    {
      if p in dirs {
        raised := false;
      } else if p in files || p == [] || Parent(p) !in dirs {
        raised := true;
      } else {
        dirs := dirs + {p};
        raised := false;
      }
    }

    method Write(p: Path, c: Content) returns (raised: bool)
      modifies this
      ensures Attempt(raised, State()) == WriteFile(old(State()), p, c)
    {
      raised := p in dirs || p == [] || Parent(p) !in dirs;
      if !raised {
        files := files[p := c];
      }
    }

    method RemoveFile(p: Path) returns (raised: bool)
      modifies this
      ensures Attempt(raised, State()) == Unlink(old(State()), p)
    {
      raised := p in dirs || p !in files;
      if !raised {
        files := files - {p};
      }
    }

    method RemoveDirectoryTree(d: Path) returns (raised: bool)
      modifies this
      ensures Attempt(raised, State()) == RemoveTree(old(State()), d)
    {
      raised := d !in dirs;
      if !raised {
        dirs := set p | p in dirs && !IsUnder(p, d);
        files := map p | p in files && !IsUnder(p, d) :: files[p];
      }
    }
  }
}
