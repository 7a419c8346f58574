/** frontend-next/src/app/resume/components/FolderRow.tsx: the recursive
    file count shown beside a folder, its label, and the rename and delete
    menu entries. */
module FolderRowView {
  import opened Wrappers
  import opened Strings
  import opened FolderTree

  /** The files of a folder and of all its descendants. */
  function Total(f: Folder): nat
    decreases f
  {
    |f.files| + TotalAll(f.subs)
  }

  function TotalAll(subs: seq<Entry>): nat
    decreases subs
  {
    if subs == [] then 0 else Total(subs[0].node) + TotalAll(subs[1..])
  }

  /** `countAllFiles`: the folder's own files, then one recursive call per
      subfolder, added up in a loop. */
  method CountAllFiles(f: Folder) returns (count: nat)
    ensures count == Total(f)
    ensures count == |NodeFiles(f)|
    ensures f.subs == [] ==> count == |f.files|
    decreases f
  {
    count := |f.files|;
    for i := 0 to |f.subs|
      invariant count == |f.files| + TotalAll(f.subs[..i])
    {
      var sub := CountAllFiles(f.subs[i].node);
      TotalAllStep(f.subs, i);
      count := count + sub;
    }
    assert f.subs[..|f.subs|] == f.subs;
    TotalCountsListed(f);
  }

  lemma TotalAllStep(subs: seq<Entry>, i: nat)
    requires i < |subs|
    ensures TotalAll(subs[..i + 1]) == TotalAll(subs[..i]) + Total(subs[i].node)
  {
    TotalAllAppend(subs[..i], [subs[i]]);
    assert subs[..i] + [subs[i]] == subs[..i + 1];
    assert [subs[i]][1..] == [];
  }

  lemma {:induction false} TotalAllAppend(a: seq<Entry>, b: seq<Entry>)
    ensures TotalAll(a + b) == TotalAll(a) + TotalAll(b)
    decreases |a|
  {
    if a == [] {
      assert a + b == b;
    } else {
      TotalAllAppend(a[1..], b);
      assert (a + b)[1..] == a[1..] + b;
    }
  }

  /** The count is the number of files the listing holds in the folder's
      subtree, so deleting the folder reports exactly the files it removes. */
  lemma {:induction false} TotalCountsListed(f: Folder)
    ensures Total(f) == |NodeFiles(f)|
    decreases f
  {
    TotalAllCountsListed(f.subs);
  }

  lemma {:induction false} TotalAllCountsListed(subs: seq<Entry>)
    ensures TotalAll(subs) == |AllFiles(subs)|
    decreases subs
  {
    if subs != [] {
      TotalCountsListed(subs[0].node);
      TotalAllCountsListed(subs[1..]);
    }
  }

  /** The total is at least the folder's own files and at least every
      subfolder's total. */
  lemma TotalBounds(f: Folder)
    ensures Total(f) >= |f.files|
    ensures forall k :: 0 <= k < |f.subs| ==> Total(f) >= Total(f.subs[k].node)
  {
    forall k | 0 <= k < |f.subs| ensures Total(f) >= Total(f.subs[k].node) {
      TotalAllAtLeast(f.subs, k);
    }
  }

  lemma {:induction false} TotalAllAtLeast(subs: seq<Entry>, k: nat)
    requires k < |subs|
    ensures TotalAll(subs) >= Total(subs[k].node)
    decreases k
  {
    if k > 0 {
      TotalAllAtLeast(subs[1..], k - 1);
    }
  }

  /** The word after the count. */
  function Label(n: nat): string
  {
    if n == 1 then "file" else "files"
  }

  /** `({totalFileCount} file|files)`. */
  function CountText(f: Folder): string
  {
    "(" + NatToString(Total(f)) + " " + Label(Total(f)) + ")"
  }

  /** The label is singular exactly when the subtree holds one file. */
  lemma SingularIffOneFile(f: Folder)
    ensures CountText(f) == "(" + NatToString(|NodeFiles(f)|) + " file)" <==> |NodeFiles(f)| == 1
  {
    TotalCountsListed(f);
    var digits := NatToString(Total(f));
    if Total(f) != 1 {
      var s := "(" + digits + " " + "files" + ")";
      var t := "(" + digits + " file)";
      assert s[|s| - 2] == 's' && t[|t| - 2] == 'e';
    }
  }

  /** What a menu entry does: call the parent's callback, or only log. */
  datatype MenuAction =
    | RenameFolderCall(key: string, currentName: string)
    | DeleteFolderCall(key: string, folderName: string, fileCount: nat)
    | LogOnly(message: string)

  /** A prop that JavaScript treats as true: defined and non-empty. */
  predicate KeyGiven(folderKey: Option<string>)
  {
    folderKey.Some? && folderKey.value != ""
  }

  /** The "Rename" entry. `hasCallback` says whether `onRenameFolder` was passed. */
  function RenameClick(hasCallback: bool, folderKey: Option<string>, folderName: string): (a: MenuAction)
    ensures a.RenameFolderCall? <==> hasCallback && KeyGiven(folderKey)
    ensures a.RenameFolderCall? ==> a == RenameFolderCall(folderKey.value, folderName)
    ensures !a.RenameFolderCall? ==> a.LogOnly?
  {
    if hasCallback && KeyGiven(folderKey) then RenameFolderCall(folderKey.value, folderName)
    else LogOnly("Rename folder: " + folderName)
  }

  /** The "Delete" entry, which passes on the recursive count. */
  function DeleteClick(hasCallback: bool, folderKey: Option<string>, folderName: string, f: Folder): (a: MenuAction)
  {
    if hasCallback && KeyGiven(folderKey) then DeleteFolderCall(folderKey.value, folderName, Total(f))
    else LogOnly("Delete folder: " + folderName)
  }

  /** Delete calls back only with a folder key, and then with the number of
      files in the whole subtree. */
  lemma DeleteReportsSubtree(hasCallback: bool, folderKey: Option<string>, folderName: string, f: Folder)
    ensures var a := DeleteClick(hasCallback, folderKey, folderName, f);
      && (a.DeleteFolderCall? <==> hasCallback && KeyGiven(folderKey))
      && (a.DeleteFolderCall? ==> a.key == folderKey.value && a.fileCount == |NodeFiles(f)|)
      && (!a.DeleteFolderCall? ==> a.LogOnly?)
  {
    TotalCountsListed(f);
  }
}
