/**
 * The filesystem side of the bridge (iec61850_fs.py): path contents, directory
 * listing and file attributes answered from the namespace snapshot.
 *
 * Paths resolve in three ways: not found, a branch (shown as a directory) or
 * a leaf (shown as a regular file); resolving through a leaf makes
 * `dict_find`'s assertion fail, and that failure is an outcome of its own
 * here. The current time is a parameter of `Getattr`.
 */
module Iec61850Fs {
  import opened NamespaceTree
  import PosixPath

  /** `stat.S_IFMT`, `stat.S_IFDIR` and `stat.S_IFREG` (0o170000, 0o040000,
      0o100000). */
  const S_IFMT: bv32 := 0xF000
  const S_IFDIR: bv32 := 0x4000
  const S_IFREG: bv32 := 0x8000

  /** The permission bits: 0o777, 0o755 for directories, 0o666 for files. */
  const PERMISSIONS: bv32 := 0x1FF
  const DIR_PERMISSIONS: bv32 := 0x1ED
  const FILE_PERMISSIONS: bv32 := 0x1B6

  /** The size every record starts with, kept for directories and files. */
  const DEFAULT_SIZE: int := 4096

  /** `errno.ENOENT` on Linux. */
  const ENOENT: int := 2

  predicate IsDirMode(mode: bv32)
  {
    mode & S_IFMT == S_IFDIR
  }

  predicate IsRegMode(mode: bv32)
  {
    mode & S_IFMT == S_IFREG
  }

  /** The stat record `getattr` fills in; a new one holds the defaults of
      `MyStat.__init__`: a directory with mode 0o755, two links, size 4096,
      and zero for the rest. */
  class MyStat {
    var mode: bv32
    var ino: int
    var dev: int
    var nlink: int
    var uid: int
    var gid: int
    var size: int
    var atime: int
    var mtime: int
    var ctime: int

    constructor ()
      ensures mode == S_IFDIR | DIR_PERMISSIONS && nlink == 2 && size == DEFAULT_SIZE
      ensures ino == 0 && dev == 0 && uid == 0 && gid == 0
      ensures atime == 0 && mtime == 0 && ctime == 0
    {
      mode := S_IFDIR | DIR_PERMISSIONS;
      ino := 0;
      dev := 0;
      nlink := 2;
      uid := 0;
      gid := 0;
      size := DEFAULT_SIZE;
      atime := 0;
      mtime := 0;
      ctime := 0;
    }
  }

  /** What `readdir` produces: the entries, or the failed assertion that the
      path names a dict. */
  datatype Listing = Entries(names: seq<string>) | ListingAssertionError

  /** What `getattr` produces: a stat record, a negated error number, or the
      failed assertion of `dict_find`. */
  datatype Attributes = Attrs(st: MyStat) | NegErrno(code: int) | AttrAssertionError

  class Iec61850FS {
    /** The snapshot `self.tree`; no member changes it. */
    const tree: Node

    constructor (tree: Node)
      ensures this.tree == tree
    {
      this.tree := tree;
    }

    /** `_path_contents`: the snapshot entry the normalised path names. The
        mount root, written "/" or "//", names the whole snapshot. */
    function PathContents(path: string): (r: FindResult)
      ensures path == "/" || path == "//" ==> r == Found(tree)
    {
      PosixPath.RootHasNoSegments();
      DictFind(tree, PosixPath.Segments(path))
    }

    /** An absolute path written from names is looked up name by name. */
    lemma PathContentsOfNames(names: seq<string>)
      requires forall i :: 0 <= i < |names| ==> PosixPath.IsName(names[i])
      ensures PathContents("/" + PosixPath.Join(names)) == DictFind(tree, names)
    {
      PosixPath.SegmentsOfJoinedNames(names);
    }

    /** On a snapshot with no empty branches below its root, a path resolves
        as the reference walk says. */
    lemma PathContentsIsResolve(path: string)
      requires NoEmptySubBranch(tree)
      ensures PathContents(path) == Resolve(tree, PosixPath.Segments(path))
    {
      DictFindIsResolve(tree, PosixPath.Segments(path));
    }

    /** `readdir`: ".", "..", then the keys of the dict the path names, in
        the dict's order. Any other outcome of the lookup fails the
        assertion that the contents are a dict. */
    method Readdir(path: string) returns (r: Listing)
      ensures r.Entries? <==> PathContents(path).Found? && PathContents(path).node.Branch?
      ensures r.Entries? ==>
        var children := PathContents(path).node.children;
        && |r.names| == 2 + |children|
        && r.names[0] == "." && r.names[1] == ".."
        && forall k :: 0 <= k < |children| ==> r.names[k + 2] == children[k].0
    {
      var contents := PathContents(path);
      if !(contents.Found? && contents.node.Branch?) {
        return ListingAssertionError;
      }
      var children := contents.node.children;
      var entries := [".", ".."];
      var i := 0;
      while i < |children|
        invariant 0 <= i <= |children|
        invariant |entries| == 2 + i
        invariant entries[0] == "." && entries[1] == ".."
        invariant forall k :: 0 <= k < i ==> entries[k + 2] == children[k].0
      {
        entries := entries + [children[i].0];
        i := i + 1;
      }
      return Entries(entries);
    }

    /** `getattr`: a path that is not found gives -ENOENT; a dict gives the
        default record with the link count set to the number of children; a
        leaf gives a regular file with mode 0o666, one link and all three
        timestamps at `now`, the integer time of the call. */
    method Getattr(path: string, now: int) returns (r: Attributes)
      ensures r == NegErrno(-ENOENT) <==> PathContents(path) == NotFound
      ensures r == AttrAssertionError <==> PathContents(path) == AssertionFailed
      ensures r.Attrs? <==> PathContents(path).Found?
      ensures r.Attrs? ==> fresh(r.st)
      ensures r.Attrs? ==> r.st.size == DEFAULT_SIZE
      ensures r.Attrs? ==> r.st.ino == 0 && r.st.dev == 0 && r.st.uid == 0 && r.st.gid == 0
      ensures r.Attrs? ==> (IsDirMode(r.st.mode) <==> PathContents(path).node.Branch?)
      ensures r.Attrs? && PathContents(path).node.Branch? ==>
        && r.st.mode == S_IFDIR | DIR_PERMISSIONS
        && r.st.nlink == |PathContents(path).node.children|
        && r.st.atime == 0 && r.st.mtime == 0 && r.st.ctime == 0
      ensures r.Attrs? && PathContents(path).node.Leaf? ==>
        && r.st.mode == S_IFREG | FILE_PERMISSIONS
        && IsRegMode(r.st.mode) && r.st.mode & PERMISSIONS == FILE_PERMISSIONS
        && r.st.nlink == 1
        && r.st.atime == now && r.st.mtime == now && r.st.ctime == now
    {
      var st := new MyStat();
      var contents := PathContents(path);
      if contents.NotFound? {
        return NegErrno(-ENOENT);
      }
      if contents.AssertionFailed? {
        return AttrAssertionError;
      }
      if contents.node.Branch? {
        st.nlink := |contents.node.children|;
        return Attrs(st);
      }
      st.atime := now;
      st.mtime := st.atime;
      st.ctime := st.atime;
      st.nlink := 1;
      st.mode := S_IFREG | FILE_PERMISSIONS;
      return Attrs(st);
    }
  }

  /** The attribute `mag` with the leaves `f` and `t`. */
  function Mag(): Node
  {
    Branch([("f", Leaf), ("t", Leaf)])
  }

  /** A device `simpleIOGenericIO` with node `GGIO1`, object `AnIn1` and
      attribute `mag`, plus a logical device `LD0` with no nodes. */
  function ScenarioTree(): Node
  {
    Branch([
      ("simpleIOGenericIO", Branch([("GGIO1", Branch([("AnIn1", Branch([("mag", Mag())]))]))])),
      ("LD0", Branch([]))])
  }

  /** The segments of `/simpleIOGenericIO/GGIO1/AnIn1/mag`. */
  function MagPath(): seq<string>
  {
    ["simpleIOGenericIO", "GGIO1", "AnIn1", "mag"]
  }

  lemma MagResolves()
    ensures DictFind(ScenarioTree(), MagPath()) == Found(Mag())
  {
  }

  method ScenarioListing()
  {
    var fs := new Iec61850FS(ScenarioTree());
    fs.PathContentsOfNames(MagPath());
    MagResolves();
    var listing := fs.Readdir("/" + PosixPath.Join(MagPath()));
    assert listing.Entries? && |listing.names| == 4;
    assert Mag().children[0].0 == "f" && Mag().children[1].0 == "t";
    assert listing.names == [".", "..", "f", "t"];
  }

  method ScenarioLeaf(now: int)
  {
    var fs := new Iec61850FS(ScenarioTree());
    fs.PathContentsOfNames(MagPath() + ["f"]);
    MagResolves();
    DictFindAppend(ScenarioTree(), MagPath(), ["f"]);
    var attrs := fs.Getattr("/" + PosixPath.Join(MagPath() + ["f"]), now);
    assert attrs.Attrs? && attrs.st.nlink == 1 && attrs.st.mtime == now;
  }

  /** Walking through the leaf `f` fails the assertion in `dict_find`. */
  method ScenarioThroughLeaf(now: int)
  {
    var fs := new Iec61850FS(ScenarioTree());
    fs.PathContentsOfNames(MagPath() + ["f", "x"]);
    MagResolves();
    DictFindAppend(ScenarioTree(), MagPath(), ["f", "x"]);
    var attrs := fs.Getattr("/" + PosixPath.Join(MagPath() + ["f", "x"]), now);
    assert attrs == AttrAssertionError;
  }

  /** The empty device `LD0` is what any path below it finds. */
  method ScenarioEmptyDevice(now: int)
  {
    var fs := new Iec61850FS(ScenarioTree());
    fs.PathContentsOfNames(["LD0", "GGIO1"]);
    var attrs := fs.Getattr("/" + PosixPath.Join(["LD0", "GGIO1"]), now);
    assert attrs.Attrs? && attrs.st.nlink == 0;
  }

  /** The root reports one link per logical device. */
  method ScenarioRoot(now: int)
  {
    var fs := new Iec61850FS(ScenarioTree());
    var attrs := fs.Getattr("/", now);
    assert attrs.Attrs? && attrs.st.nlink == 2;
  }
}
