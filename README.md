# iec61850-fuse: path resolution, attributes and connection bookkeeping

This project models two pieces of iec61850-fuse, a FUSE filesystem that shows
the data model of an IEC 61850 device (logical devices, logical nodes, data
objects, data attributes) as directories and files.

- The filesystem bridge answers `readdir` and `getattr` from a snapshot of the
  device namespace. The snapshot is a tree: a branch maps names to subtrees
  and a leaf is a terminal marker (`NamespaceTree.Node`). A FUSE path is
  normalised as POSIX `os.path.normpath` does, split on `/` and stripped of
  empty pieces (`PosixPath.Segments`). The segments are then looked up with
  `dict_find` (`NamespaceTree.DictFind`). A lookup has three outcomes: not
  found, a node, or the failed `isinstance(d, dict)` assertion when the path
  runs through a leaf. `Iec61850Fs.Iec61850FS.Readdir` lists `.`, `..` and the
  child names. `Iec61850Fs.Iec61850FS.Getattr` builds a `MyStat` record and
  fills in its fields one by one: one way for a directory, another for a file.
- `MMSServer` keeps one mutable field, `con`, beside the `host` and `port`
  it is given. `con` is the handle of the native protocol
  library (`Iec61850Wrapper.MmsServer`). `connect` and `disconnect` change
  it. `connected()` only checks that a handle is held. `_assert_connected`
  guards the device-list walk. The library is replaced by parameters: the
  handle `IedConnection_create` returns, the code `IedConnection_connect`
  returns, and the device names found after the head of the linked list. A
  ghost trace, `calls`, records the library calls and the yielded devices in
  order.

Modules: `Options` (Option), `NamespaceTree`, `PosixPath`, `Iec61850Fs`,
`Decimal` (the decimal text in the connect error message) and
`Iec61850Wrapper`.

The model follows the code as written; in particular:

- `readdir` on a path that is not found, or on a leaf, fails the assertion
  `isinstance(contents, dict) or isinstance(contents, list)`. It does not
  return ENOENT.
- `getattr` gives every record the default size 4096, directories included.
  It fetches no value to size a file.
- `connected()` is local bookkeeping: a handle is held. It does not ask the
  remote peer.
- A failed `connect` destroys the handle but leaves it in `con`.
- The leaf marker is taken to be truthy, as an Ellipsis-like sentinel is. So
  only an empty dict stops `dict_find`'s `child_tree and ...` early.

## Model

| member | source | states |
|---|---|---|
| `NamespaceTree.Get` | iec61850_fs.py:27 | `d.get(child)`: no result exactly when no entry has the key; a result is the value of an entry with that key |
| `NamespaceTree.DictFind` | iec61850_fs.py:20-29 | `dict_find`; its behaviour is stated by `DictFindIsResolve`, `DictFindFindsPrefix`, `WalkThroughLeafFails`, `NotFoundIsFinal`, `DictFindAppend` and `EmptyChildShortCircuits` |
| `NamespaceTree.EmptyPathIsWholeTree` | iec61850_fs.py:22 | an empty path resolves to the whole tree |
| `NamespaceTree.MissingKeyIsNotFound` | iec61850_fs.py:26-29 | a first segment that is no key of the current dict gives not found (`None`) |
| `NamespaceTree.WalkThroughLeafFails` | iec61850_fs.py:22-23 | segments left over after reaching a leaf fail the `isinstance(d, dict)` assertion; they do not give `None` |
| `NamespaceTree.NotFoundIsFinal` | iec61850_fs.py:27-29 | a path that is not found stays not found whatever segments follow it |
| `NamespaceTree.DictFindAppend` | iec61850_fs.py:26-29 | after a prefix that reached a node other than an empty dict, the rest of the path is looked up from that node |
| `NamespaceTree.EmptyChildShortCircuits` | iec61850_fs.py:27-29 | an empty dict found for the first segment is returned even when segments remain, where a strict walk reports them as not found |
| `NamespaceTree.DictFindIsResolve` | iec61850_fs.py:20-29 | on a snapshot with no empty branch below the root, `dict_find` equals the strict segment-by-segment walk |
| `NamespaceTree.DictFindFindsPrefix` | iec61850_fs.py:20-29 | whatever `dict_find` finds, the strict walk finds at a prefix of the path: the whole path, or a prefix ending at an empty dict |
| `PosixPath.Normpath` | iec61850_fs.py:59 | POSIX `normpath`; what it keeps is stated by `NormCompsNames` and `SegmentsAreNormComps` |
| `PosixPath.Segments` | iec61850_fs.py:59-61 | the segments `_path_contents` looks up; stated by `SegmentsAreNormComps`, `SegmentsAreNonEmpty`, `AbsoluteSegmentsAreNames`, `RootHasNoSegments` and `SegmentsOfJoinedNames` |
| `PosixPath.Split` | iec61850_fs.py:61 | `split(sep)` gives at least one piece and no piece holds a slash |
| `PosixPath.NonEmpty` | iec61850_fs.py:61 | `filter(None, ...)` keeps no empty string |
| `PosixPath.SplitJoin` | iec61850_fs.py:59-61 | splitting on `/` undoes joining with `/` when no part holds a slash |
| `PosixPath.NonEmptyKeeps` | iec61850_fs.py:61 | the filter keeps a list without empty strings unchanged and empties a list of empty strings |
| `PosixPath.NormCompsNames` | iec61850_fs.py:59 | the normalising loop keeps only non-empty, slash-free components other than "."; started at the root it keeps no ".." either |
| `PosixPath.SegmentsAreNormComps` | iec61850_fs.py:59-61 | the segments are the components `normpath` keeps, or ["."] for a relative path that normalises to nothing |
| `PosixPath.SegmentsAreNonEmpty` | iec61850_fs.py:59-61 | no segment is empty or holds a slash, and "." appears only as the lone segment of an empty relative result |
| `PosixPath.AbsoluteSegmentsAreNames` | iec61850_fs.py:59-61 | every segment of an absolute path is a name: not empty, no slash, neither "." nor ".." |
| `PosixPath.RootHasNoSegments` | iec61850_fs.py:59-61 | "/" and "//" normalise to no segments |
| `PosixPath.SegmentsOfJoinedNames` | iec61850_fs.py:59-61 | an absolute path written from names normalises back to exactly those names |
| `Iec61850Fs.MyStat.constructor` | iec61850_fs.py:32-43 | a new record is a directory with mode S_IFDIR, permissions 0o755, 2 links, size 4096, zero ino/dev/uid/gid and zero timestamps |
| `Iec61850Fs.Iec61850FS.constructor` | iec61850_fs.py:47-53 | the filesystem answers from the snapshot it is given, which no member changes |
| `Iec61850Fs.Iec61850FS.PathContents` | iec61850_fs.py:55-66 | the mount root, "/" or "//", resolves to the whole snapshot |
| `Iec61850Fs.Iec61850FS.PathContentsOfNames` | iec61850_fs.py:55-66 | an absolute path written from names is looked up name by name in the snapshot |
| `Iec61850Fs.Iec61850FS.PathContentsIsResolve` | iec61850_fs.py:55-66 | on a snapshot with no empty branch below the root, path contents are the strict walk of the segments |
| `Iec61850Fs.Iec61850FS.Readdir` | iec61850_fs.py:68-76 | entries exactly when the path names a dict: ".", "..", then the dict's keys in order, 2 + child count entries; otherwise the assertion fails |
| `Iec61850Fs.Iec61850FS.Getattr` | iec61850_fs.py:78-101 | not found gives -ENOENT; a failed lookup assertion propagates; a dict gives mode S_IFDIR with 0o755, nlink = child count, size 4096, zero ids and timestamps; a leaf gives mode S_IFREG with 0o666, nlink 1, size 4096, atime = mtime = ctime = the call's integer time |
| `Decimal.ParseDecimalString` | iec61850_wrapper.py:22 | the decimal text of an error code reads back as that code |
| `Decimal.DecimalStringInjective` | iec61850_wrapper.py:22 | two codes have the same decimal text exactly when they are equal |
| `Iec61850Wrapper.IedErrorMessage` | iec61850_wrapper.py:22 | the text `IED error {error}`; that it carries the code is stated by `IedErrorMessageCarriesCode` |
| `Iec61850Wrapper.IedErrorMessageCarriesCode` | iec61850_wrapper.py:22 | two error codes give the same `IED error {error}` message exactly when they are equal |
| `Iec61850Wrapper.MmsServer.constructor` | iec61850_wrapper.py:11-14 | a new server stores host and port (defaults "localhost" and 102), holds no handle and is not connected |
| `Iec61850Wrapper.MmsServer.Connected` | iec61850_wrapper.py:28-29 | `connected()`: a handle is held; the contracts of the constructor, `Connect`, `Disconnect` and `AssertConnected` state its value after each of them |
| `Iec61850Wrapper.MmsServer.Connect` | iec61850_wrapper.py:16-22 | `con` becomes the new handle and stays so on failure, so `connected()` holds either way; an OK code returns normally; any other code destroys the handle and raises `ConnectionError` carrying the code; the library sees create, connect(handle, host, port), and destroy only on failure |
| `Iec61850Wrapper.MmsServer.Disconnect` | iec61850_wrapper.py:24-29 | the held handle is closed without a check, `con` becomes None and `connected()` is false |
| `Iec61850Wrapper.MmsServer.AssertConnected` | iec61850_wrapper.py:28-32 | raises `ConnectionError('')` exactly when no handle is held; changes nothing |
| `Iec61850Wrapper.MmsServer.LogicalDeviceIterator` | iec61850_wrapper.py:34-47 | when not connected, raises before any library call; otherwise fetches the list with the held handle, yields the devices after the head in order, then destroys the list |

## Left out

- FUSE dispatch, `fuse.Direntry` and the `fuse.Stat` base class are framework
  plumbing. The stat record is a plain class and the directory entries are
  strings.
- `output()` writes debug text to `/dev/pts/4`. It does not change any result.
- `Iec61850FS.__init__` connects the server and calls `self.server.tree()`. No
  `tree()` exists in `MMSServer`, so the snapshot is a parameter of the
  constructor.
- `readdir` ignores its `offset` argument, and so does the model. The model
  also collects the whole listing that the generator would yield one entry
  at a time.
- A `getattr` leaf takes `int(time())`. The clock is the parameter `now`,
  already truncated to whole seconds.
- The commented-out `read` is not live code.
- Getattr: returns -ENOENT for a path that is not found. The code as written
  raises NameError there, because `errno` is not imported.
- Python dict keys are unique. A branch here is a sequence of entries and a
  lookup takes the first entry with the key. Key uniqueness is not imposed,
  so a listing of a branch with a repeated key would show the key twice.
- All native `iec61850.*` calls (create, connect, destroy, close,
  `getLogicalDeviceList`, `LinkedList_*`, `toCharP`) are a foreign library.
  They appear only as parameters and as events in the ghost trace `calls`.
- `LinkedList_getNext` is assumed to move one position along the device
  list and to give nothing after the last node (`NextNode`); nothing about it
  is proved, since it is foreign code.
- LogicalDeviceIterator: the error that `getLogicalDeviceList` returns is
  printed and then ignored. The model leaves out the print, and it assumes
  the library always returns a list. It yields each node's device name
  rather than the node object.
- LogicalDeviceIterator: runs the generator to its end. A consumer that stops
  early never reaches `LinkedList_destroy`, and the model does not show that.
- Disconnect: closing when no handle is held passes `None` to the library.
  The model records that call and does not say what the library does with it.
- The entry script `iec61850_fuse.py` only parses arguments and mounts, so it
  is not part of this model.
