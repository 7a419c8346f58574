/** `getAllFolderPaths`, which the upload, create-folder and copy dialogs
    (frontend-next/src/app/resume/components) each define identically but
    for the root entry's label: a recursive `traverse` pushes one
    `{value, label}` entry per folder node onto a shared `paths` array,
    in pre-order, after the root entry. */
module FolderPaths {
  import opened Strings
  import opened FolderTree

  /** One entry of the destination drop-down. */
  datatype PathOption = PathOption(value: string, display: string)

  /** The root entry's value. */
  const RootValue: string := "root"

  /** `path ? `${path}/${folderName}` : folderName`. */
  function FullPath(path: string, name: string): string
  {
    if path != "" then path + "/" + name else name
  }

  /** The paths `traverse(subs, path)` pushes, in order: each node's own
      path, then those of its subfolders, then its later siblings'. */
  function PathsUnder(subs: seq<Entry>, path: string): seq<string>
    decreases subs
  {
    if subs == [] then []
    else
      var full := FullPath(path, subs[0].name);
      [full] + PathsUnder(subs[0].node.subs, full) + PathsUnder(subs[1..], path)
  }

  /** The folder nodes in a mapping and below it. */
  function NodeCount(subs: seq<Entry>): nat
    decreases subs
  {
    if subs == [] then 0 else 1 + NodeCount(subs[0].node.subs) + NodeCount(subs[1..])
  }

  /** Entries whose value and label are both the path. */
  function Options(ps: seq<string>): (os: seq<PathOption>)
    ensures |os| == |ps|
    ensures forall i :: 0 <= i < |ps| ==> os[i] == PathOption(ps[i], ps[i])
  {
    seq(|ps|, i requires 0 <= i < |ps| => PathOption(ps[i], ps[i]))
  }

  /** The whole drop-down for a given root label. */
  function AllFolderPaths(folders: seq<Entry>, rootLabel: string): seq<PathOption>
  {
    [PathOption(RootValue, rootLabel)] + Options(PathsUnder(folders, ""))
  }

  /** The array that `traverse` pushes onto. */
  class PathList {
    var paths: seq<PathOption>

    constructor (first: PathOption)
      ensures paths == [first]
    {
      paths := [first];
    }

    /** `traverse(folders, path)`. */
    method Traverse(folders: seq<Entry>, path: string)
      modifies this
      ensures paths == old(paths) + Options(PathsUnder(folders, path))
      decreases folders
    {
      for i := 0 to |folders|
        invariant paths == old(paths) + Options(PathsUnder(folders[..i], path))
      {
        var name := folders[i].name;
        var folder := folders[i].node;
        var fullPath := FullPath(path, name);
        paths := paths + [PathOption(fullPath, fullPath)];
        if folder.subs != [] {
          Traverse(folder.subs, fullPath);
        }
        TraverseStep(old(paths), folders, i, path);
      }
      assert folders[..|folders|] == folders;
    }
  }

  /** `getAllFolderPaths(folderStructure)`, with `parentPath` left at "". */
  method GetAllFolderPaths(folders: seq<Entry>, rootLabel: string) returns (paths: seq<PathOption>)
    ensures paths == AllFolderPaths(folders, rootLabel)
    ensures paths[0] == PathOption(RootValue, rootLabel)
    ensures |paths| == 1 + NodeCount(folders)
  {
    var list := new PathList(PathOption(RootValue, rootLabel));
    list.Traverse(folders, "");
    paths := list.paths;
    PathsCount(folders, "");
  }

  /** One turn of the loop in `traverse` pushes the next folder's subtree. */
  lemma TraverseStep(base: seq<PathOption>, folders: seq<Entry>, i: nat, path: string)
    requires i < |folders|
    ensures var full := FullPath(path, folders[i].name);
      base + Options(PathsUnder(folders[..i], path)) + [PathOption(full, full)]
        + Options(PathsUnder(folders[i].node.subs, full))
      == base + Options(PathsUnder(folders[..i + 1], path))
  {
    var full := FullPath(path, folders[i].name);
    var before := PathsUnder(folders[..i], path);
    var inner := PathsUnder(folders[i].node.subs, full);
    PathsUnderStep(folders, i, path);
    OptionsAppend(before, [full] + inner);
    OptionsAppend([full], inner);
    assert Options([full]) == [PathOption(full, full)];
  }

  lemma OptionsAppend(a: seq<string>, b: seq<string>)
    ensures Options(a + b) == Options(a) + Options(b)
  {
    assert forall i :: 0 <= i < |a + b| ==> Options(a + b)[i] == (Options(a) + Options(b))[i];
  }

  lemma {:induction false} PathsUnderAppend(a: seq<Entry>, b: seq<Entry>, path: string)
    ensures PathsUnder(a + b, path) == PathsUnder(a, path) + PathsUnder(b, path)
    decreases |a|
  {
    if a == [] {
      assert a + b == b;
    } else {
      assert (a + b)[0] == a[0];
      assert (a + b)[1..] == a[1..] + b;
      PathsUnderAppend(a[1..], b, path);
    }
  }

  lemma PathsUnderStep(folders: seq<Entry>, i: nat, path: string)
    requires i < |folders|
    ensures var full := FullPath(path, folders[i].name);
      PathsUnder(folders[..i + 1], path)
      == PathsUnder(folders[..i], path) + ([full] + PathsUnder(folders[i].node.subs, full))
  {
    assert folders[..i + 1] == folders[..i] + [folders[i]];
    PathsUnderAppend(folders[..i], [folders[i]], path);
    assert [folders[i]][1..] == [];
  }

  /** Every folder node contributes exactly one path. */
  lemma {:induction false} PathsCount(subs: seq<Entry>, path: string)
    ensures |PathsUnder(subs, path)| == NodeCount(subs)
    decreases subs
  {
    if subs != [] {
      PathsCount(subs[0].node.subs, FullPath(path, subs[0].name));
      PathsCount(subs[1..], path);
    }
  }

  /** Pre-order: the `k`-th folder's entry comes after the subtrees of the
      folders before it and is immediately followed by the entries of its
      own subfolders, whose paths extend its own. */
  lemma PreOrder(subs: seq<Entry>, path: string, k: nat)
    requires k < |subs|
    ensures var at := NodeCount(subs[..k]);
      var full := FullPath(path, subs[k].name);
      var inner := PathsUnder(subs[k].node.subs, full);
      var all := PathsUnder(subs, path);
      && at + 1 + |inner| <= |all|
      && all[at] == full
      && all[at + 1..at + 1 + |inner|] == inner
  {
    var rest := [subs[k]] + subs[k + 1..];
    assert subs == subs[..k] + rest;
    PathsUnderAppend(subs[..k], rest, path);
    PathsCount(subs[..k], path);
    PathsUnderCons(subs[k], subs[k + 1..], path);
    var full := FullPath(path, subs[k].name);
    SliceOfConcat(PathsUnder(subs, path), NodeCount(subs[..k]), PathsUnder(subs[..k], path), full,
                  PathsUnder(subs[k].node.subs, full), PathsUnder(subs[k + 1..], path));
  }

  lemma PathsUnderCons(e: Entry, tail: seq<Entry>, path: string)
    ensures var full := FullPath(path, e.name);
      PathsUnder([e] + tail, path) == [full] + PathsUnder(e.node.subs, full) + PathsUnder(tail, path)
  {
    assert ([e] + tail)[0] == e && ([e] + tail)[1..] == tail;
  }

  lemma SliceOfConcat<T>(all: seq<T>, at: nat, before: seq<T>, x: T, inner: seq<T>, after: seq<T>)
    requires all == before + ([x] + inner + after) && at == |before|
    ensures all[at] == x
    ensures at + 1 + |inner| <= |all| && all[at + 1..at + 1 + |inner|] == inner
  {
    assert all[at + 1..at + 1 + |inner|] == inner;
  }

  /** Below a non-empty path, every pushed path starts with that path and a
      '/'. */
  lemma {:induction false} PathsExtendParent(subs: seq<Entry>, path: string)
    requires path != ""
    ensures forall i :: 0 <= i < |PathsUnder(subs, path)| ==> IsPrefix(path + "/", PathsUnder(subs, path)[i])
    decreases subs
  {
    if subs != [] {
      var full := FullPath(path, subs[0].name);
      assert full == (path + "/") + subs[0].name;
      assert IsPrefix(path + "/", full);
      PathsExtendParent(subs[0].node.subs, full);
      PathsExtendParent(subs[1..], path);
      var inner := PathsUnder(subs[0].node.subs, full);
      forall i | 0 <= i < |inner| ensures IsPrefix(path + "/", inner[i]) {
        assert IsPrefix(full + "/", inner[i]);
        assert inner[i][..|path + "/"|] == (full + "/")[..|path + "/"|];
      }
      var all := PathsUnder(subs, path);
      var later := PathsUnder(subs[1..], path);
      assert all == [full] + inner + later;
      forall i | 0 <= i < |all| ensures IsPrefix(path + "/", all[i]) {
        if i == 0 {
        } else if i <= |inner| {
          assert all[i] == inner[i - 1];
        } else {
          assert all[i] == later[i - 1 - |inner|];
        }
      }
    }
  }

  /** `selectedFolderPath === "root" ? "" : selectedFolderPath`: what the
      upload, create and copy handlers pass on. */
  function SelectedPath(value: string): (r: string)
    ensures value == RootValue ==> r == ""
    ensures value != RootValue ==> r == value
  {
    if value == RootValue then "" else value
  }

  /** Choosing an entry passes its path on, except that the root entry and a
      top-level folder named "root" both pass "". */
  lemma SelectionPassesPath(folders: seq<Entry>, rootLabel: string, i: nat)
    requires i < |AllFolderPaths(folders, rootLabel)|
    ensures var o := AllFolderPaths(folders, rootLabel)[i];
      && (i == 0 ==> SelectedPath(o.value) == "")
      && (i > 0 ==> o.value == PathsUnder(folders, "")[i - 1])
      && (i > 0 && o.value != RootValue ==> SelectedPath(o.value) == o.value)
  {
  }

  /** The collision: a top-level folder called "root" cannot be chosen as a
      destination, because its entry passes "" like the root entry. */
  lemma FolderNamedRootMeansRoot(f: Folder, rest: seq<Entry>, rootLabel: string)
    ensures var paths := AllFolderPaths([Entry(RootValue, f)] + rest, rootLabel);
      |paths| >= 2 && paths[1].value == RootValue && SelectedPath(paths[1].value) == ""
  {
    var subs := [Entry(RootValue, f)] + rest;
    assert subs[0].name == RootValue;
    assert PathsUnder(subs, "")[0] == RootValue;
  }
}
