/** frontend-next/src/app/resume/components/RenameFolderDialog.tsx: the text
    offered for editing and the checks of `handleRename`. */
module RenameFolderDialog {
  import opened Wrappers
  import opened Strings
  import CreateFolder
  import CreateFolderDialog

  const EmptyMessage: string := "Folder name cannot be empty"

  /** `handleRename`: the trimmed name passed to `onRename`, or the message
      shown. */
  function CheckRename(typed: string): (r: Result<string, string>)
    ensures r.Ok? <==> CreateFolderDialog.JsNameMatches(Trim(typed))
    ensures r.Ok? ==> r.value == Trim(typed) && CreateFolder.PyNameMatches(r.value)
    ensures r.Err? ==> (r.error == EmptyMessage <==> Trim(typed) == "")
    ensures r.Err? && Trim(typed) != "" ==> r.error == CreateFolderDialog.BadNameMessage
  {
    var name := Trim(typed);
    if name == "" then Err(EmptyMessage)
    else if !CreateFolderDialog.JsNameMatches(name) then Err(CreateFolderDialog.BadNameMessage)
    else
      CreateFolderDialog.JsNameImpliesServerName(name);
      Ok(name)
  }

  /** On opening, the field holds the current name; confirming it unchanged
      renames a valid folder to its own name. */
  lemma UnchangedNameAccepted(currentName: string)
    requires CreateFolderDialog.JsNameMatches(currentName)
    ensures CheckRename(currentName) == Ok(currentName)
  {
    assert CreateFolder.FolderNameChar(currentName[0]);
    assert CreateFolder.FolderNameChar(currentName[|currentName| - 1]);
    TrimKeepsUnspaced(currentName);
  }
}
