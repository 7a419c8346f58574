/** frontend-next/src/app/resume/components/CopyFileDialog.tsx: the
    destination selection and `handleCopy`. The destination list is
    `FolderPaths.GetAllFolderPaths` with the label "Root (resumes/)"; its
    paths are the display names of the tree, not folder keys. */
module CopyDialog {
  import opened Wrappers
  import opened FolderPaths

  const RootLabel: string := "Root (resumes/)"

  class CopyFileDialog {
    var selectedFolderPath: string
    var error: Option<string>

    constructor ()
      ensures selectedFolderPath == RootValue && error.None?
    {
      selectedFolderPath := RootValue;
      error := None;
    }

    /** The effect that runs when `open` turns false. */
    method Close()
      modifies this
      ensures selectedFolderPath == RootValue && error.None?
    {
      selectedFolderPath := RootValue;
      error := None;
    }

    method SelectFolder(value: string)
      modifies this
      ensures selectedFolderPath == value && error == old(error)
    {
      selectedFolderPath := value;
    }

    /** `handleCopy`: `onCopy` always gets the selected path, "" for the
      root entry; on success the selection goes back to the root and the
      dialog asks to close. */
    method Copy(succeeded: bool) returns (folderPath: string, closeRequested: bool)
      modifies this
      ensures folderPath == SelectedPath(old(selectedFolderPath))
      ensures error.None? && closeRequested == succeeded
      ensures selectedFolderPath == if succeeded then RootValue else old(selectedFolderPath)
    {
      error := None;
      folderPath := if selectedFolderPath == RootValue then "" else selectedFolderPath;
      closeRequested := false;
      if succeeded {
        selectedFolderPath := RootValue;
        closeRequested := true;
      }
    }
  }

  /** Copying into a listed folder passes that folder's full display path. */
  lemma CopyTargetIsListedPath(folders: seq<FolderTree.Entry>, i: nat)
    requires 0 < i < |AllFolderPaths(folders, RootLabel)|
    requires AllFolderPaths(folders, RootLabel)[i].value != RootValue
    ensures SelectedPath(AllFolderPaths(folders, RootLabel)[i].value) == PathsUnder(folders, "")[i - 1]
  {
    SelectionPassesPath(folders, RootLabel, i);
  }
}
