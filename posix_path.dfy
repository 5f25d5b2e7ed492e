/**
 * How `Iec61850FS._path_contents` turns a filesystem path into segments
 * (iec61850_fs.py:59-61): POSIX `os.path.normpath`, then `split(sep)` with
 * `sep == "/"`, then `filter(None, ...)`, which drops the empty strings.
 *
 * `Normpath` follows POSIX `normpath`: one leading slash, or exactly two, is
 * kept (three or more become one); empty and "." components are dropped; ".."
 * removes the previous component, except that it is kept at the start of a
 * relative path or after another kept "..", and is dropped at the root; an
 * empty result is ".".
 */
module PosixPath {

  /** `s.split("/")`: the pieces between the slashes, empty ones included. */
  function Split(s: string): (parts: seq<string>)
    ensures |parts| >= 1
    ensures forall i :: 0 <= i < |parts| ==> '/' !in parts[i]
    decreases |s|
  {
    if s == [] then [""]
    else if s[0] == '/' then [""] + Split(s[1..])
    else
      var rest := Split(s[1..]);
      [[s[0]] + rest[0]] + rest[1..]
  }

  /** `"/".join(parts)`. */
  function Join(parts: seq<string>): string
  {
    if parts == [] then ""
    else if |parts| == 1 then parts[0]
    else parts[0] + "/" + Join(parts[1..])
  }

  /** `[*filter(None, parts)]`: the non-empty pieces, in order. */
  function NonEmpty(parts: seq<string>): (r: seq<string>)
    ensures forall i :: 0 <= i < |r| ==> r[i] != ""
  {
    if parts == [] then []
    else if parts[0] == "" then NonEmpty(parts[1..])
    else [parts[0]] + NonEmpty(parts[1..])
  }

  /** The number of leading slashes `normpath` keeps. */
  function InitialSlashes(path: string): (n: nat)
    ensures n <= 2
  {
    if |path| >= 1 && path[0] == '/' then
      (if |path| >= 2 && path[1] == '/' && !(|path| >= 3 && path[2] == '/') then 2 else 1)
    else 0
  }

  function Slashes(n: nat): (s: string)
  {
    if n == 0 then "" else "/" + Slashes(n - 1)
  }

  /** One turn of the `for comp in comps` loop of `normpath`, with `acc` the
      components kept so far. */
  function Step(comp: string, rooted: bool, acc: seq<string>): seq<string>
  {
    if comp == "" || comp == "." then acc
    else if comp != ".." || (!rooted && acc == []) || (acc != [] && acc[|acc| - 1] == "..") then acc + [comp]
    else if acc != [] then acc[..|acc| - 1]
    else acc
  }

  /** The whole loop of `normpath`. */
  function NormComps(comps: seq<string>, rooted: bool, acc: seq<string>): seq<string>
    decreases |comps|
  {
    if comps == [] then acc else NormComps(comps[1..], rooted, Step(comps[0], rooted, acc))
  }

  function Normpath(path: string): string
  {
    if path == "" then "."
    else
      var initial := InitialSlashes(path);
      var s := Slashes(initial) + Join(NormComps(Split(path), initial > 0, []));
      if s == "" then "." else s
  }

  /** The segments `_path_contents` looks up in the snapshot. */
  function Segments(path: string): seq<string>
  {
    NonEmpty(Split(Normpath(path)))
  }

  //--------------------------------------------------------------------------
  // Splitting, joining and filtering
  //--------------------------------------------------------------------------

  /** A name as a segment of a normalised absolute path: not empty, no slash,
      and neither "." nor "..". */
  predicate IsName(s: string)
  {
    s != "" && '/' !in s && s != "." && s != ".."
  }

  lemma {:induction false} SplitConcat(a: string, b: string)
    requires '/' !in a
    ensures Split(a + b) == [a + Split(b)[0]] + Split(b)[1..]
    decreases |a|
  {
    if a != [] {
      assert (a + b)[0] == a[0];
      assert (a + b)[1..] == a[1..] + b;
      SplitConcat(a[1..], b);
      assert [a[0]] + (a[1..] + Split(b)[0]) == a + Split(b)[0];
    } else {
      assert a + b == b;
      assert a + Split(b)[0] == Split(b)[0];
    }
  }

  /** Splitting undoes joining, for at least one part and no slash inside a
      part. */
  lemma {:induction false} SplitJoin(parts: seq<string>)
    requires |parts| >= 1
    requires forall i :: 0 <= i < |parts| ==> '/' !in parts[i]
    ensures Split(Join(parts)) == parts
    decreases |parts|
  {
    if |parts| == 1 {
      SplitConcat(parts[0], "");
      assert parts[0] + "" == parts[0];
      assert [parts[0]] == parts;
    } else {
      var tail := Join(parts[1..]);
      assert Join(parts) == parts[0] + ("/" + tail);
      SplitConcat(parts[0], "/" + tail);
      assert ("/" + tail)[1..] == tail;
      SplitJoin(parts[1..]);
      assert Split("/" + tail) == [""] + parts[1..];
      assert parts[0] + "" == parts[0];
      assert parts == [parts[0]] + parts[1..];
    }
  }

  lemma {:induction false} SplitSlashes(n: nat, s: string)
    ensures Split(Slashes(n) + s) == Empties(n) + Split(s)
    decreases n
  {
    if n > 0 {
      assert Slashes(n) + s == "/" + (Slashes(n - 1) + s);
      assert ("/" + (Slashes(n - 1) + s))[1..] == Slashes(n - 1) + s;
      SplitSlashes(n - 1, s);
      assert Empties(n) + Split(s) == [""] + (Empties(n - 1) + Split(s));
    } else {
      assert Slashes(n) + s == s;
    }
  }

  function Empties(n: nat): (r: seq<string>)
    ensures |r| == n && forall i :: 0 <= i < n ==> r[i] == ""
  {
    if n == 0 then [] else [""] + Empties(n - 1)
  }

  lemma {:induction false} NonEmptyConcat(a: seq<string>, b: seq<string>)
    ensures NonEmpty(a + b) == NonEmpty(a) + NonEmpty(b)
    decreases |a|
  {
    if a != [] {
      assert (a + b)[0] == a[0];
      assert (a + b)[1..] == a[1..] + b;
      NonEmptyConcat(a[1..], b);
    } else {
      assert a + b == b;
    }
  }

  /** Filtering keeps a sequence without empty strings as it is, and removes
      everything from a sequence of empty strings. */
  lemma {:induction false} NonEmptyKeeps(parts: seq<string>)
    ensures (forall i :: 0 <= i < |parts| ==> parts[i] != "") ==> NonEmpty(parts) == parts
    ensures (forall i :: 0 <= i < |parts| ==> parts[i] == "") ==> NonEmpty(parts) == []
    decreases |parts|
  {
    if parts != [] {
      NonEmptyKeeps(parts[1..]);
    }
  }

  //--------------------------------------------------------------------------
  // What normalisation produces
  //--------------------------------------------------------------------------

  /** A component `normpath` may keep: not empty, no slash, not ".". */
  predicate Kept(s: string)
  {
    s != "" && '/' !in s && s != "."
  }

  /** The loop of `normpath` keeps only non-empty, slash-free components
      other than "."; starting from a rooted path it never keeps "..". */
  lemma {:induction false} NormCompsNames(comps: seq<string>, rooted: bool, acc: seq<string>)
    requires forall i :: 0 <= i < |comps| ==> '/' !in comps[i]
    requires forall i :: 0 <= i < |acc| ==> Kept(acc[i])
    requires rooted ==> forall i :: 0 <= i < |acc| ==> IsName(acc[i])
    ensures forall i :: 0 <= i < |NormComps(comps, rooted, acc)| ==> Kept(NormComps(comps, rooted, acc)[i])
    ensures rooted ==> forall i :: 0 <= i < |NormComps(comps, rooted, acc)| ==> IsName(NormComps(comps, rooted, acc)[i])
    decreases |comps|
  {
    if comps != [] {
      var comp := comps[0];
      var acc' := Step(comp, rooted, acc);
      assert '/' !in comp;
      forall i | 0 <= i < |acc'|
        ensures Kept(acc'[i])
        ensures rooted ==> IsName(acc'[i])
      {
        if i < |acc| && acc'[i] == acc[i] {
        } else {
          assert acc' == acc + [comp] && i == |acc|;
        }
      }
      NormCompsNames(comps[1..], rooted, acc');
    }
  }

  /** The segments are the components `normpath` keeps, or "." for a
      relative path that normalises to nothing (and for the empty path). */
  lemma SegmentsAreNormComps(path: string)
    ensures var comps := NormComps(Split(path), InitialSlashes(path) > 0, []);
      Segments(path) == if path != "" && (InitialSlashes(path) > 0 || comps != []) then comps else ["."]
  {
    assert Split(".") == ["."] by {
      assert "."[0] == '.' && "."[1..] == "";
      assert Split("") == [""] && [""][1..] == [];
      assert ['.'] + "" == ".";
    }
    assert NonEmpty(["."]) == ["."] + NonEmpty([]);
    if path != "" {
      var initial := InitialSlashes(path);
      var comps := NormComps(Split(path), initial > 0, []);
      NormCompsNames(Split(path), initial > 0, []);
      assert forall i :: 0 <= i < |comps| ==> Kept(comps[i]);
      var s := Slashes(initial) + Join(comps);
      assert Normpath(path) == if s == "" then "." else s;
      if comps == [] {
        assert s == Slashes(initial);
        if initial != 0 {
          assert s == Slashes(initial) + "";
          SplitSlashes(initial, "");
          assert s != "";
          NonEmptyConcat(Empties(initial), [""]);
          NonEmptyKeeps(Empties(initial));
          NonEmptyKeeps([""]);
        }
      } else {
        assert Join(comps) != "" by {
          assert comps[0] != "";
          JoinStartsWith(comps);
        }
        SplitSlashes(initial, Join(comps));
        SplitJoin(comps);
        NonEmptyConcat(Empties(initial), comps);
        NonEmptyKeeps(Empties(initial));
        NonEmptyKeeps(comps);
      }
    }
  }

  lemma {:induction false} JoinStartsWith(parts: seq<string>)
    requires parts != [] && parts[0] != ""
    ensures |Join(parts)| >= |parts[0]| && Join(parts)[..|parts[0]|] == parts[0]
  {
    if |parts| > 1 {
      assert Join(parts) == parts[0] + ("/" + Join(parts[1..]));
    }
  }

  /** No segment is empty, none holds a slash, and none is "."
      except the lone "." of a relative path that normalises to nothing. */
  lemma SegmentsAreNonEmpty(path: string)
    ensures forall i :: 0 <= i < |Segments(path)| ==> Segments(path)[i] != "" && '/' !in Segments(path)[i]
    ensures forall i :: 0 <= i < |Segments(path)| ==> Segments(path)[i] == "." ==> Segments(path) == ["."]
  {
    SegmentsAreNormComps(path);
    NormCompsNames(Split(path), InitialSlashes(path) > 0, []);
  }

  /** The segments of an absolute path are names: "." and ".." are resolved
      away, the ".." of the root being dropped. */
  lemma AbsoluteSegmentsAreNames(path: string)
    requires |path| >= 1 && path[0] == '/'
    ensures forall i :: 0 <= i < |Segments(path)| ==> IsName(Segments(path)[i])
  {
    SegmentsAreNormComps(path);
    NormCompsNames(Split(path), true, []);
  }

  /** The mount root, written "/" or "//", has no segments. */
  lemma RootHasNoSegments()
    ensures Segments("/") == []
    ensures Segments("//") == []
  {
    SegmentsAreNormComps("/");
    SegmentsAreNormComps("//");
    assert Split("/") == [""] + Split("");
    assert Split("//") == [""] + Split("/");
  }

  lemma {:induction false} NormCompsOfNames(names: seq<string>, acc: seq<string>)
    requires forall i :: 0 <= i < |names| ==> IsName(names[i])
    ensures NormComps(names, true, acc) == acc + names
    decreases |names|
  {
    if names == [] {
      assert acc + names == acc;
    } else {
      NormCompsOfNames(names[1..], acc + [names[0]]);
      assert acc + [names[0]] + names[1..] == acc + names;
    }
  }

  /** Writing names out as an absolute path and normalising it gives the
      names back: the segments are exactly what the path names. */
  lemma SegmentsOfJoinedNames(names: seq<string>)
    requires forall i :: 0 <= i < |names| ==> IsName(names[i])
    ensures Segments("/" + Join(names)) == names
  {
    var path := "/" + Join(names);
    if names == [] {
      assert path == "/";
      RootHasNoSegments();
    } else {
      JoinStartsWith(names);
      assert path[1] == Join(names)[0] == names[0][0];
      assert path[1] != '/';
      assert InitialSlashes(path) == 1;
      assert path == Slashes(1) + Join(names);
      SplitSlashes(1, Join(names));
      SplitJoin(names);
      assert Split(path) == [""] + names;
      NormCompsOfNames(names, []);
      assert NormComps(Split(path), true, []) == NormComps(names, true, []);
      SegmentsAreNormComps(path);
    }
  }
}
