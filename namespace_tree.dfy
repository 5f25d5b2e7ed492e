/**
 * The snapshot of the device namespace that the filesystem bridge answers
 * from, and the recursive lookup `dict_find` that resolves a list of path
 * segments against it (iec61850_fs.py:20-29).
 *
 * In the source a branch is a Python dict from names to subtrees and a leaf
 * is a non-dict, truthy sentinel. A dict keeps its keys in insertion order and
 * holds each key once; here a branch is the ordered sequence of its entries
 * and a lookup returns the first entry with the key.
 */
module NamespaceTree {
  import opened Options

  datatype Node = Branch(children: seq<(string, Node)>) | Leaf

  /** The outcome of `dict_find`: `None`, a subtree, or the failed
      `isinstance(d, dict)` assertion. */
  datatype FindResult = NotFound | Found(node: Node) | AssertionFailed

  /** `d.get(key)` on a branch's entries. */
  function Get(children: seq<(string, Node)>, key: string): (r: Option<Node>)
    ensures r.None? <==> forall i :: 0 <= i < |children| ==> children[i].0 != key
    ensures r.Some? ==> exists i :: 0 <= i < |children| && children[i] == (key, r.value)
  {
    if children == [] then None
    else if children[0].0 == key then Some(children[0].1)
    else
      var r := Get(children[1..], key);
      assert forall i :: 1 <= i < |children| ==> children[i] == children[1..][i - 1];
      r
  }

  /** `dict_find(d, path)`: an empty path gives the tree itself; otherwise the
      tree must be a dict (the assertion), a missing key gives `None`, and the
      found child is searched for the rest of the path unless it is falsy. The
      leaf sentinel is truthy, so only an empty dict is falsy and is returned
      as it is, whatever is left of the path (`child_tree and ...`). */
  function DictFind(d: Node, path: seq<string>): (r: FindResult)
    decreases |path|
  {
    if path == [] then Found(d)
    else
      match d
      case Leaf => AssertionFailed
      case Branch(children) =>
        match Get(children, path[0])
        case None => NotFound
        case Some(child) =>
          if child == Branch([]) then Found(child) else DictFind(child, path[1..])
  }

  /** The reference resolution: walk the tree one segment at a time; a
      missing name is not found, and names left over at a leaf mean the path
      runs through a file, reported as the assertion `dict_find` makes. */
  function Resolve(d: Node, path: seq<string>): (r: FindResult)
    decreases |path|
  {
    if path == [] then Found(d)
    else if d.Leaf? then AssertionFailed
    else if Get(d.children, path[0]).None? then NotFound
    else Resolve(Get(d.children, path[0]).value, path[1..])
  }

  /** No branch below the root is empty. This is a hypothesis about the
      snapshot, not something `dict_find` checks: under it, `dict_find` and the
      reference walk agree (`DictFindIsResolve`). */
  predicate NoEmptySubBranch(d: Node)
  {
    match d
    case Leaf => true
    case Branch(children) =>
      forall i :: 0 <= i < |children| ==>
        children[i].1 != Branch([]) && NoEmptySubBranch(children[i].1)
  }

  //--------------------------------------------------------------------------
  // What `dict_find` promises
  //--------------------------------------------------------------------------

  /** An empty path resolves to the whole tree. */
  lemma EmptyPathIsWholeTree(d: Node)
    ensures DictFind(d, []) == Found(d)
  {
  }

  /** A first segment that is no key of the current dict is not found. */
  lemma MissingKeyIsNotFound(children: seq<(string, Node)>, path: seq<string>)
    requires path != []
    requires forall i :: 0 <= i < |children| ==> children[i].0 != path[0]
    ensures DictFind(Branch(children), path) == NotFound
  {
  }

  /** Segments left over at a node that `dict_find` resolved to a leaf make
      the assertion fail rather than give `None`. */
  lemma {:induction false} WalkThroughLeafFails(d: Node, path: seq<string>, rest: seq<string>)
    requires DictFind(d, path) == Found(Leaf)
    requires rest != []
    ensures DictFind(d, path + rest) == AssertionFailed
    decreases |path|
  {
    if path == [] {
      assert path + rest == rest;
    } else {
      var child := Get(d.children, path[0]).value;
      assert (path + rest)[0] == path[0];
      assert (path + rest)[1..] == path[1..] + rest;
      WalkThroughLeafFails(child, path[1..], rest);
    }
  }

  /** Once a prefix of the path has led to a node other than an empty dict,
      the rest of the path is looked up from that node. */
  lemma {:induction false} DictFindAppend(d: Node, path: seq<string>, rest: seq<string>)
    requires DictFind(d, path).Found? && DictFind(d, path).node != Branch([])
    ensures DictFind(d, path + rest) == DictFind(DictFind(d, path).node, rest)
    decreases |path|
  {
    if path == [] {
      assert path + rest == rest;
    } else {
      var child := Get(d.children, path[0]).value;
      assert (path + rest)[0] == path[0];
      assert (path + rest)[1..] == path[1..] + rest;
      DictFindAppend(child, path[1..], rest);
    }
  }

  /** A path that is not found stays not found whatever is appended to it. */
  lemma {:induction false} NotFoundIsFinal(d: Node, path: seq<string>, rest: seq<string>)
    requires DictFind(d, path) == NotFound
    ensures DictFind(d, path + rest) == NotFound
    decreases |path|
  {
    assert path != [];
    assert (path + rest)[0] == path[0];
    assert (path + rest)[1..] == path[1..] + rest;
    match d
    case Branch(children) =>
      match Get(children, path[0])
      case None =>
      case Some(child) =>
        NotFoundIsFinal(child, path[1..], rest);
  }

  /** The short circuit: an empty dict found for the first segment is the
      result even when segments remain, where the reference resolution
      reports those segments as not found. */
  lemma EmptyChildShortCircuits(children: seq<(string, Node)>, key: string, rest: seq<string>)
    requires Get(children, key) == Some(Branch([]))
    ensures DictFind(Branch(children), [key] + rest) == Found(Branch([]))
    ensures Resolve(Branch(children), [key] + rest) == if rest == [] then Found(Branch([])) else NotFound
  {
    assert ([key] + rest)[1..] == rest;
    if rest != [] {
      assert Get([], rest[0]) == None;
    }
  }

  /** On a snapshot without empty branches below its root, `dict_find` is the
      reference resolution. */
  lemma {:induction false} DictFindIsResolve(d: Node, path: seq<string>)
    requires NoEmptySubBranch(d)
    ensures DictFind(d, path) == Resolve(d, path)
    decreases |path|
  {
    if path != [] && d.Branch? && Get(d.children, path[0]).Some? {
      var child := Get(d.children, path[0]).value;
      var i :| 0 <= i < |d.children| && d.children[i] == (path[0], child);
      DictFindIsResolve(child, path[1..]);
    }
  }

  /** Whatever `dict_find` finds is what the reference resolution finds at a
      prefix of the path: the whole path, or a prefix ending at an empty
      dict. */
  lemma {:induction false} DictFindFindsPrefix(d: Node, path: seq<string>)
    requires DictFind(d, path).Found?
    ensures exists k :: 0 <= k <= |path| && Resolve(d, path[..k]) == DictFind(d, path)
                        && (k == |path| || DictFind(d, path) == Found(Branch([])))
    decreases |path|
  {
    if path == [] {
      assert Resolve(d, path[..0]) == Found(d);
    } else {
      var child := Get(d.children, path[0]).value;
      if child == Branch([]) {
        assert path[..1] == [path[0]];
        assert Resolve(d, path[..1]) == Resolve(child, []);
      } else {
        DictFindFindsPrefix(child, path[1..]);
        var k :| 0 <= k <= |path[1..]| && Resolve(child, path[1..][..k]) == DictFind(child, path[1..])
                 && (k == |path[1..]| || DictFind(child, path[1..]) == Found(Branch([])));
        assert path[..k + 1][0] == path[0];
        assert path[..k + 1][1..] == path[1..][..k];
      }
    }
  }
}
