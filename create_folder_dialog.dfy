/** frontend-next/src/app/resume/components/CreateFolderDialog.tsx: the
    name field, the parent selection and `handleCreate`. The parent list is
    `FolderPaths.GetAllFolderPaths` with the label "Root (Top Level)". */
module CreateFolderDialog {
  import opened Wrappers
  import opened Strings
  import opened FolderPaths
  import CreateFolder

  const RootLabel: string := "Root (Top Level)"

  const EmptyNameMessage: string := "Folder name is required"
  const BadNameMessage: string := "Folder name can only contain letters, numbers, hyphens, and underscores"

  /** `/^[a-zA-Z0-9_-]+$/.test(s)`: without the `m` flag, JavaScript's `$`
      matches only at the very end. */
  predicate JsNameMatches(s: string)
  {
    s != "" && CreateFolder.AllFolderNameChars(s)
  }

  /** Every name the dialog accepts also passes the server's check, which
      admits one trailing newline besides. */
  lemma JsNameImpliesServerName(s: string)
    requires JsNameMatches(s)
    ensures CreateFolder.PyNameMatches(s)
  {
    assert CreateFolder.FolderNameChar(s[|s| - 1]);
  }

  /** The checks of `handleCreate` on the typed name: the trimmed name, or
      the message shown. */
  function CheckName(typed: string): (r: Result<string, string>)
    ensures r.Ok? <==> JsNameMatches(Trim(typed))
    ensures r.Ok? ==> r.value == Trim(typed) && CreateFolder.PyNameMatches(r.value)
    ensures r.Err? ==> (r.error == EmptyNameMessage <==> Trim(typed) == "")
    ensures r.Err? && Trim(typed) != "" ==> r.error == BadNameMessage
  {
    var name := Trim(typed);
    if name == "" then Err(EmptyNameMessage)
    else if !JsNameMatches(name) then Err(BadNameMessage)
    else
      JsNameImpliesServerName(name);
      Ok(name)
  }

  /** What `handleCreate` asks of the parent: `onCreateFolder(name, parentPath)`. */
  datatype CreateCall = CreateCall(folderName: string, parentPath: string)

  class CreateFolderDialog {
    var folderName: string
    var selectedParentPath: string
    var error: Option<string>

    constructor ()
      ensures folderName == "" && selectedParentPath == RootValue && error.None?
    {
      folderName := "";
      selectedParentPath := RootValue;
      error := None;
    }

    /** The effect that runs when `open` turns false. */
    method Close()
      modifies this
      ensures folderName == "" && selectedParentPath == RootValue && error.None?
    {
      folderName := "";
      selectedParentPath := RootValue;
      error := None;
    }

    /** The name input's `onChange`: the text replaces the name and clears
        the message. */
    method Type(text: string)
      modifies this
      ensures folderName == text && error.None?
      ensures selectedParentPath == old(selectedParentPath)
    {
      folderName := text;
      error := None;
    }

    method SelectParent(value: string)
      modifies this
      ensures selectedParentPath == value
      ensures folderName == old(folderName) && error == old(error)
    {
      selectedParentPath := value;
    }

    /** `handleCreate`. `succeeded` says whether the awaited callback
      resolved; a failure keeps the state (the catch is empty). */
    method Create(succeeded: bool) returns (call: Option<CreateCall>, closeRequested: bool)
      modifies this
      ensures call.Some? <==> CheckName(old(folderName)).Ok?
      ensures CheckName(old(folderName)).Err? ==>
                error == Some(CheckName(old(folderName)).error) && !closeRequested
                && folderName == old(folderName) && selectedParentPath == old(selectedParentPath)
      ensures CheckName(old(folderName)).Ok? ==>
                call == Some(CreateCall(CheckName(old(folderName)).value, SelectedPath(old(selectedParentPath))))
                && error.None? && closeRequested == succeeded
      ensures call.Some? && succeeded ==> folderName == "" && selectedParentPath == RootValue
      ensures call.Some? && !succeeded ==>
                folderName == old(folderName) && selectedParentPath == old(selectedParentPath)
    {
      var name := Trim(folderName);
      if name == "" {
        error := Some(EmptyNameMessage);
        return None, false;
      }
      if !JsNameMatches(name) {
        error := Some(BadNameMessage);
        return None, false;
      }
      error := None;
      var parentPath := if selectedParentPath == RootValue then "" else selectedParentPath;
      call := Some(CreateCall(name, parentPath));
      closeRequested := false;
      if succeeded {
        folderName := "";
        selectedParentPath := RootValue;
        closeRequested := true;
      }
    }
  }
}
