/** The nested folder structure that the resume listing returns and the
    frontend walks: each node is `{'files': [...], 'folders': {...}}`, and the
    top level is the `folders` mapping itself. A mapping from names to nodes
    is kept as a sequence of name/node pairs in insertion order, which is the
    order in which Python dictionaries and `Object.entries` present them. */
module FolderTree {
  import opened Wrappers

  /** One listed resume: `id`, `filename`, `url`, `created_at`, `updated_at`
      (the timestamps already rendered, `None` when the column is empty). */
  datatype FileEntry = FileEntry(
    id: int, filename: string, url: string,
    createdAt: Option<string>, updatedAt: Option<string>)

  datatype Folder = Folder(files: seq<FileEntry>, subs: seq<Entry>)
  datatype Entry = Entry(name: string, node: Folder)

  /** The node `{'files': [], 'folders': {}}` that a missing name gets. */
  const EmptyFolder: Folder := Folder([], [])

  /** Position of `name` among the entries, or -1 (`name in mapping`). */
  function IndexOfName(subs: seq<Entry>, name: string): (i: int)
    ensures -1 <= i < |subs|
    ensures i >= 0 ==> subs[i].name == name
    ensures forall k :: 0 <= k < |subs| && (i < 0 || k < i) ==> subs[k].name != name
  {
    if subs == [] then -1
    else if subs[0].name == name then 0
    else
      var j := IndexOfName(subs[1..], name);
      if j < 0 then -1 else j + 1
  }

  /** Names are keys: at every level no name occurs twice. */
  predicate Keyed(subs: seq<Entry>)
    decreases subs
  {
    subs == []
    || (IndexOfName(subs[1..], subs[0].name) < 0
        && Keyed(subs[0].node.subs) && Keyed(subs[1..]))
  }

  /** The node reached by walking the names of `path` from the top level. */
  function Lookup(subs: seq<Entry>, path: seq<string>): Option<Folder>
    requires path != []
    decreases |path|
  {
    var i := IndexOfName(subs, path[0]);
    if i < 0 then None
    else if |path| == 1 then Some(subs[i].node)
    else Lookup(subs[i].node.subs, path[1..])
  }

  /** The files listed in a node and all its descendants, node before
      children, children in order. */
  function NodeFiles(f: Folder): seq<FileEntry>
    decreases f
  {
    f.files + AllFiles(f.subs)
  }

  function AllFiles(subs: seq<Entry>): seq<FileEntry>
    decreases subs
  {
    if subs == [] then [] else NodeFiles(subs[0].node) + AllFiles(subs[1..])
  }

  /** `ensure_folder_path`: every name of `path` is created, empty, where it
      is missing, walking down from the top level. */
  function EnsurePath(subs: seq<Entry>, path: seq<string>): seq<Entry>
    decreases |path|
  {
    if path == [] then subs
    else
      var i := IndexOfName(subs, path[0]);
      if i < 0 then subs + [Entry(path[0], Folder([], EnsurePath([], path[1..])))]
      else
        var node := subs[i].node;
        subs[i := Entry(path[0], node.(subs := EnsurePath(node.subs, path[1..])))]
  }

  /** `add_file_to_folder` for a non-empty path: missing names are created on
      the way, and the file is appended to the files of the last one. */
  function AddFile(subs: seq<Entry>, path: seq<string>, file: FileEntry): seq<Entry>
    requires path != []
    decreases |path|, 1
  {
    var i := IndexOfName(subs, path[0]);
    var node := if i < 0 then EmptyFolder else subs[i].node;
    var e := Entry(path[0], GrowNode(node, path, file));
    if i < 0 then subs + [e] else subs[i := e]
  }

  /** The node named `path[0]` after the file is added below it. */
  function GrowNode(node: Folder, path: seq<string>, file: FileEntry): Folder
    requires path != []
    decreases |path|, 0
  {
    if |path| == 1 then node.(files := node.files + [file])
    else node.(subs := AddFile(node.subs, path[1..], file))
  }

  /** The files of the node at `path`, or none when there is no such node. */
  function FilesAt(subs: seq<Entry>, path: seq<string>): seq<FileEntry>
    requires path != []
  {
    match Lookup(subs, path)
    case Some(f) => f.files
    case None => []
  }

  // Facts about the flattening.

  lemma {:induction false} AllFilesAppend(a: seq<Entry>, b: seq<Entry>)
    ensures AllFiles(a + b) == AllFiles(a) + AllFiles(b)
    decreases |a|
  {
    if a == [] {
      assert a + b == b;
    } else {
      assert (a + b)[0] == a[0];
      assert (a + b)[1..] == a[1..] + b;
      AllFilesAppend(a[1..], b);
    }
  }

  lemma AllFilesUpdate(subs: seq<Entry>, i: nat, e: Entry)
    requires i < |subs|
    ensures AllFiles(subs[i := e]) == AllFiles(subs[..i]) + NodeFiles(e.node) + AllFiles(subs[i + 1..])
  {
    assert subs[i := e] == subs[..i] + ([e] + subs[i + 1..]);
    AllFilesAppend(subs[..i], [e] + subs[i + 1..]);
    AllFilesAppend([e], subs[i + 1..]);
  }

  // Facts about names after an update.

  lemma IndexOfNameAppend(subs: seq<Entry>, e: Entry, name: string)
    ensures IndexOfName(subs + [e], name)
            == if IndexOfName(subs, name) >= 0 then IndexOfName(subs, name)
               else if e.name == name then |subs| else -1
  {
    var s := subs + [e];
    var i := IndexOfName(subs, name);
    var j := IndexOfName(s, name);
    if i >= 0 {
      assert s[i] == subs[i];
    } else if e.name == name {
      assert s[|subs|] == e;
    } else {
      assert forall k :: 0 <= k < |s| ==> s[k].name != name by {
        forall k | 0 <= k < |s| ensures s[k].name != name {
          if k < |subs| { assert s[k] == subs[k]; }
        }
      }
    }
  }

  lemma IndexOfNameSameName(subs: seq<Entry>, i: nat, e: Entry, name: string)
    requires i < |subs| && e.name == subs[i].name
    ensures IndexOfName(subs[i := e], name) == IndexOfName(subs, name)
  {
    var s := subs[i := e];
    var a := IndexOfName(subs, name);
    var b := IndexOfName(s, name);
    assert forall k :: 0 <= k < |s| ==> s[k].name == subs[k].name;
    if a >= 0 && b >= 0 {
      assert a <= b && b <= a;
    }
  }

  lemma {:induction false} KeyedUpdate(subs: seq<Entry>, i: nat, e: Entry)
    requires i < |subs| && e.name == subs[i].name
    requires Keyed(subs) && Keyed(e.node.subs)
    ensures Keyed(subs[i := e])
    decreases i
  {
    var s := subs[i := e];
    if i == 0 {
      assert s[1..] == subs[1..];
    } else {
      assert s[1..] == subs[1..][i - 1 := e];
      KeyedUpdate(subs[1..], i - 1, e);
      IndexOfNameSameName(subs[1..], i - 1, e, subs[0].name);
    }
  }

  lemma {:induction false} KeyedAppend(subs: seq<Entry>, e: Entry)
    requires Keyed(subs) && Keyed(e.node.subs) && IndexOfName(subs, e.name) < 0
    ensures Keyed(subs + [e])
    decreases |subs|
  {
    var s := subs + [e];
    if subs == [] {
      assert s == [e];
      assert s[1..] == [];
    } else {
      assert s[1..] == subs[1..] + [e];
      assert IndexOfName(subs[1..], e.name) < 0;
      KeyedAppend(subs[1..], e);
      IndexOfNameAppend(subs[1..], e, subs[0].name);
    }
  }

  // ensure_folder_path.

  /** Creating folders never loses, adds or reorders a file. */
  lemma {:induction false} EnsurePathKeepsFiles(subs: seq<Entry>, path: seq<string>)
    ensures AllFiles(EnsurePath(subs, path)) == AllFiles(subs)
    decreases |path|
  {
    if path != [] {
      var i := IndexOfName(subs, path[0]);
      if i < 0 {
        var e := Entry(path[0], Folder([], EnsurePath([], path[1..])));
        EnsurePathKeepsFiles([], path[1..]);
        AllFilesAppend(subs, [e]);
      } else {
        var node := subs[i].node;
        var e := Entry(path[0], node.(subs := EnsurePath(node.subs, path[1..])));
        EnsurePathKeepsFiles(node.subs, path[1..]);
        AllFilesUpdate(subs, i, e);
        AllFilesUpdate(subs, i, subs[i]);
        assert subs[i := subs[i]] == subs;
      }
    }
  }

  /** After `ensure_folder_path` the whole path exists. */
  lemma {:induction false} EnsurePathReaches(subs: seq<Entry>, path: seq<string>)
    requires path != []
    ensures Lookup(EnsurePath(subs, path), path).Some?
    decreases |path|
  {
    var i := IndexOfName(subs, path[0]);
    var r := EnsurePath(subs, path);
    if i < 0 {
      var e := Entry(path[0], Folder([], EnsurePath([], path[1..])));
      IndexOfNameAppend(subs, e, path[0]);
      if |path| > 1 {
        EnsurePathReaches([], path[1..]);
      }
    } else {
      var node := subs[i].node;
      var e := Entry(path[0], node.(subs := EnsurePath(node.subs, path[1..])));
      IndexOfNameSameName(subs, i, e, path[0]);
      if |path| > 1 {
        EnsurePathReaches(node.subs, path[1..]);
      }
    }
  }

  /** A path that already exists is left exactly as it is: existing nodes
      are never replaced. */
  lemma {:induction false} EnsureExistingPath(subs: seq<Entry>, path: seq<string>)
    requires path != [] && Lookup(subs, path).Some?
    ensures EnsurePath(subs, path) == subs
    decreases |path|
  {
    var i := IndexOfName(subs, path[0]);
    var node := subs[i].node;
    if |path| > 1 {
      EnsureExistingPath(node.subs, path[1..]);
    }
    assert node.(subs := node.subs) == node;
    assert subs[i := Entry(path[0], node)] == subs;
  }

  /** `ensure_folder_path` is idempotent. */
  lemma EnsurePathIdempotent(subs: seq<Entry>, path: seq<string>)
    ensures EnsurePath(EnsurePath(subs, path), path) == EnsurePath(subs, path)
  {
    if path != [] {
      EnsurePathReaches(subs, path);
      EnsureExistingPath(EnsurePath(subs, path), path);
    }
  }

  /** Creating folders keeps every existing node, with its files. */
  lemma {:induction false} EnsurePathKeepsNodes(subs: seq<Entry>, path: seq<string>, q: seq<string>)
    requires q != [] && Lookup(subs, q).Some?
    ensures Lookup(EnsurePath(subs, path), q).Some?
    ensures FilesAt(EnsurePath(subs, path), q) == FilesAt(subs, q)
    decreases |path|
  {
    if path != [] {
      var i := IndexOfName(subs, path[0]);
      var iq := IndexOfName(subs, q[0]);
      if i < 0 {
        var e := Entry(path[0], Folder([], EnsurePath([], path[1..])));
        IndexOfNameAppend(subs, e, q[0]);
        assert (subs + [e])[iq] == subs[iq];
      } else {
        var node := subs[i].node;
        var e := Entry(path[0], node.(subs := EnsurePath(node.subs, path[1..])));
        IndexOfNameSameName(subs, i, e, q[0]);
        if iq == i && |q| > 1 {
          EnsurePathKeepsNodes(node.subs, path[1..], q[1..]);
        }
      }
    }
  }

  /** Creating folders keeps the names keys. */
  lemma {:induction false} EnsurePathKeyed(subs: seq<Entry>, path: seq<string>)
    requires Keyed(subs)
    ensures Keyed(EnsurePath(subs, path))
    decreases |path|
  {
    if path != [] {
      var i := IndexOfName(subs, path[0]);
      if i < 0 {
        var e := Entry(path[0], Folder([], EnsurePath([], path[1..])));
        EnsurePathKeyed([], path[1..]);
        KeyedAppend(subs, e);
      } else {
        var node := subs[i].node;
        var e := Entry(path[0], node.(subs := EnsurePath(node.subs, path[1..])));
        KeyedAt(subs, i);
        EnsurePathKeyed(node.subs, path[1..]);
        KeyedUpdate(subs, i, e);
      }
    }
  }

  lemma {:induction false} KeyedAt(subs: seq<Entry>, i: nat)
    requires i < |subs| && Keyed(subs)
    ensures Keyed(subs[i].node.subs)
    decreases i
  {
    if i > 0 {
      KeyedAt(subs[1..], i - 1);
    }
  }

  // add_file_to_folder.

  /** `s` with `f` inserted at position `k`. */
  function InsertAt(s: seq<FileEntry>, k: nat, f: FileEntry): seq<FileEntry>
    requires k <= |s|
  {
    s[..k] + [f] + s[k..]
  }

  /** Adding a file inserts exactly that one file into the flattening and
      keeps every other file, in order. */
  lemma {:induction false} AddFileInserts(subs: seq<Entry>, path: seq<string>, file: FileEntry) returns (k: nat)
    requires path != []
    ensures k <= |AllFiles(subs)|
    ensures AllFiles(AddFile(subs, path, file)) == InsertAt(AllFiles(subs), k, file)
    decreases |path|, 1
  {
    var i := IndexOfName(subs, path[0]);
    var node := if i < 0 then EmptyFolder else subs[i].node;
    var k0 := GrowNodeInserts(node, path, file);
    var e := Entry(path[0], GrowNode(node, path, file));
    if i < 0 {
      k := AppendInserts(subs, e, k0, file);
    } else {
      k := UpdateInserts(subs, i, e, k0, file);
    }
  }

  lemma {:induction false} GrowNodeInserts(node: Folder, path: seq<string>, file: FileEntry) returns (k0: nat)
    requires path != []
    ensures k0 <= |NodeFiles(node)|
    ensures NodeFiles(GrowNode(node, path, file)) == InsertAt(NodeFiles(node), k0, file)
    decreases |path|, 0
  {
    if |path| == 1 {
      k0 := |node.files|;
      InsertAtConcat(node.files, [], AllFiles(node.subs), 0, file);
    } else {
      var k1 := AddFileInserts(node.subs, path[1..], file);
      k0 := |node.files| + k1;
      InsertAtConcat(node.files, AllFiles(node.subs), [], k1, file);
    }
  }

  lemma AppendInserts(subs: seq<Entry>, e: Entry, k0: nat, file: FileEntry) returns (k: nat)
    requires k0 <= |NodeFiles(EmptyFolder)|
    requires NodeFiles(e.node) == InsertAt(NodeFiles(EmptyFolder), k0, file)
    ensures k <= |AllFiles(subs)|
    ensures AllFiles(subs + [e]) == InsertAt(AllFiles(subs), k, file)
  {
    AllFilesAppend(subs, [e]);
    assert AllFiles([e]) == NodeFiles(e.node) + AllFiles([]);
    k := |AllFiles(subs)|;
  }

  lemma UpdateInserts(subs: seq<Entry>, i: nat, e: Entry, k0: nat, file: FileEntry) returns (k: nat)
    requires i < |subs| && k0 <= |NodeFiles(subs[i].node)|
    requires NodeFiles(e.node) == InsertAt(NodeFiles(subs[i].node), k0, file)
    ensures k <= |AllFiles(subs)|
    ensures AllFiles(subs[i := e]) == InsertAt(AllFiles(subs), k, file)
  {
    AllFilesUpdate(subs, i, e);
    AllFilesUpdate(subs, i, subs[i]);
    assert subs[i := subs[i]] == subs;
    k := |AllFiles(subs[..i])| + k0;
    InsertAtConcat(AllFiles(subs[..i]), NodeFiles(subs[i].node), AllFiles(subs[i + 1..]), k0, file);
  }

  lemma InsertAtConcat(p: seq<FileEntry>, a: seq<FileEntry>, q: seq<FileEntry>, k: nat, f: FileEntry)
    requires k <= |a|
    ensures p + InsertAt(a, k, f) + q == InsertAt(p + a + q, |p| + k, f)
  {
    var s := p + a + q;
    assert s[..|p| + k] == p + a[..k];
    assert s[|p| + k..] == a[k..] + q;
  }

  /** Counted with multiplicity, adding a file adds that file. */
  lemma AddFileAddsOne(subs: seq<Entry>, path: seq<string>, file: FileEntry)
    requires path != []
    ensures multiset(AllFiles(AddFile(subs, path, file))) == multiset(AllFiles(subs)) + multiset{file}
  {
    var k := AddFileInserts(subs, path, file);
    var s := AllFiles(subs);
    assert s == s[..k] + s[k..];
  }

  /** The file lands at the end of the files of the node at `path`. */
  lemma {:induction false} AddFilePlaces(subs: seq<Entry>, path: seq<string>, file: FileEntry)
    requires path != []
    ensures Lookup(AddFile(subs, path, file), path).Some?
    ensures FilesAt(AddFile(subs, path, file), path) == FilesAt(subs, path) + [file]
    decreases |path|
  {
    var i := IndexOfName(subs, path[0]);
    var node := if i < 0 then EmptyFolder else subs[i].node;
    var node' := GrowNode(node, path, file);
    var e := Entry(path[0], node');
    if i < 0 {
      IndexOfNameAppend(subs, e, path[0]);
      if |path| > 1 {
        AddFilePlaces([], path[1..], file);
        LookupEmpty(path[1..]);
      }
    } else {
      IndexOfNameSameName(subs, i, e, path[0]);
      if |path| > 1 {
        AddFilePlaces(node.subs, path[1..], file);
      }
    }
  }

  lemma LookupEmpty(path: seq<string>)
    requires path != []
    ensures Lookup([], path) == None
  {
  }

  /** Adding a file keeps every existing node, and its files unless it is the
      target node. */
  lemma {:induction false} AddFileKeepsNodes(subs: seq<Entry>, path: seq<string>, file: FileEntry, q: seq<string>)
    requires path != [] && q != [] && q != path && Lookup(subs, q).Some?
    ensures Lookup(AddFile(subs, path, file), q).Some?
    ensures FilesAt(AddFile(subs, path, file), q) == FilesAt(subs, q)
    decreases |path|
  {
    var i := IndexOfName(subs, path[0]);
    var iq := IndexOfName(subs, q[0]);
    var node := if i < 0 then EmptyFolder else subs[i].node;
    var node' := GrowNode(node, path, file);
    var e := Entry(path[0], node');
    if i < 0 {
      IndexOfNameAppend(subs, e, q[0]);
      assert (subs + [e])[iq] == subs[iq];
    } else {
      IndexOfNameSameName(subs, i, e, q[0]);
      if iq == i && |q| > 1 && |path| > 1 {
        assert q == [q[0]] + q[1..];
        assert path == [path[0]] + path[1..];
        AddFileKeepsNodes(node.subs, path[1..], file, q[1..]);
      }
    }
  }

  /** Adding a file keeps every existing node and every file already
      listed at any node. */
  lemma AddFileKeepsListed(subs: seq<Entry>, path: seq<string>, file: FileEntry, q: seq<string>, g: FileEntry)
    requires path != [] && q != []
    ensures Lookup(subs, q).Some? ==> Lookup(AddFile(subs, path, file), q).Some?
    ensures g in FilesAt(subs, q) ==> g in FilesAt(AddFile(subs, path, file), q)
  {
    if Lookup(subs, q).Some? {
      if q == path {
        AddFilePlaces(subs, path, file);
      } else {
        AddFileKeepsNodes(subs, path, file, q);
      }
    }
  }

  /** Adding a file keeps the names keys. */
  lemma {:induction false} AddFileKeyed(subs: seq<Entry>, path: seq<string>, file: FileEntry)
    requires path != [] && Keyed(subs)
    ensures Keyed(AddFile(subs, path, file))
    decreases |path|
  {
    var i := IndexOfName(subs, path[0]);
    var node := if i < 0 then EmptyFolder else subs[i].node;
    var node' := GrowNode(node, path, file);
    if i >= 0 {
      KeyedAt(subs, i);
    }
    if |path| > 1 {
      AddFileKeyed(node.subs, path[1..], file);
    }
    if i < 0 {
      KeyedAppend(subs, Entry(path[0], node'));
    } else {
      KeyedUpdate(subs, i, Entry(path[0], node'));
    }
  }
}
