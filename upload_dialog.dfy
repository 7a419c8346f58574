/** frontend-next/src/app/resume/components/UploadFileDialog.tsx: the
    dialog's state (destination, chosen file, error message) and its
    handlers. The destination list is `FolderPaths.GetAllFolderPaths` with
    the label "Root (resumes/)". */
module UploadDialog {
  import opened Wrappers
  import opened Strings
  import opened FolderPaths
  import UploadResume

  const RootLabel: string := "Root (resumes/)"

  /** The `File` the browser hands over: name, MIME type and size in bytes. */
  datatype ChosenFile = ChosenFile(name: string, mimeType: string, size: nat)

  const AllowedTypes: seq<string> := [
    "application/pdf", "application/msword",
    "application/vnd.openxmlformats-officedocument.wordprocessingml.document"]

  const AllowedExtensions: seq<string> := [".pdf", ".doc", ".docx"]

  const MaxSize: nat := 10 * 1024 * 1024

  const TypeMessage: string := "Invalid file type. Please upload a PDF, DOC, or DOCX file."
  const SizeMessage: string := "File size too large. Maximum size is 10MB."
  const NoFileMessage: string := "Please select a file to upload"

  /** `file.name.substring(file.name.lastIndexOf('.')).toLowerCase()`: from
      the last '.', or the whole name when there is none. */
  function BrowserExtension(name: string): string
  {
    Lower(SubstringFrom(name, LastIndexOf(name, '.')))
  }

  /** The message `handleFileSelect` leaves: a type error only when both the
      MIME type and the extension are outside the allowed sets, then a size
      error above 10 MiB. */
  function SelectionError(f: ChosenFile): (e: Option<string>)
    ensures e == Some(TypeMessage) <==> f.mimeType !in AllowedTypes && BrowserExtension(f.name) !in AllowedExtensions
    ensures e == Some(SizeMessage) <==>
              (f.mimeType in AllowedTypes || BrowserExtension(f.name) in AllowedExtensions) && f.size > MaxSize
    ensures e.None? <==>
              (f.mimeType in AllowedTypes || BrowserExtension(f.name) in AllowedExtensions) && f.size <= MaxSize
  {
    if f.mimeType !in AllowedTypes && BrowserExtension(f.name) !in AllowedExtensions then Some(TypeMessage)
    else if f.size > MaxSize then Some(SizeMessage)
    else None
  }

  /** Every file name the server accepts by extension passes the dialog's
      type check, whatever its MIME type, and the two size bounds agree. */
  lemma ServerAcceptedPassesDialog(f: ChosenFile)
    requires Lower(UploadResume.Extension(f.name)) in UploadResume.AllowedExtensions
    requires 0 < f.size <= UploadResume.MaxFileSize
    ensures SelectionError(f).None?
  {
    var dot := LastIndexOf(f.name, '.');
    assert UploadResume.Extension(f.name) != "";
    assert SubstringFrom(f.name, dot) == UploadResume.Extension(f.name);
  }

  /** A file with an allowed MIME type passes the type check whatever its
      name: the dialog admits more than the server. */
  lemma MimeTypeSuffices(f: ChosenFile)
    requires f.mimeType in AllowedTypes && f.size <= MaxSize
    ensures SelectionError(f).None?
  {
  }

  /** What `handleUpload` asks of the parent: `onUpload(file, folderPath)`. */
  datatype UploadCall = UploadCall(file: ChosenFile, folderPath: string)

  class UploadFileDialog {
    var selectedFolderPath: string
    var selectedFile: Option<ChosenFile>
    var error: Option<string>

    constructor ()
      ensures selectedFolderPath == RootValue && selectedFile.None? && error.None?
    {
      selectedFolderPath := RootValue;
      selectedFile := None;
      error := None;
    }

    /** The effect that runs when `open` turns false. */
    method Close()
      modifies this
      ensures selectedFolderPath == RootValue && selectedFile.None? && error.None?
    {
      selectedFolderPath := RootValue;
      selectedFile := None;
      error := None;
    }

    /** Choosing an entry of the destination list. */
    method SelectFolder(value: string)
      modifies this
      ensures selectedFolderPath == value
      ensures selectedFile == old(selectedFile) && error == old(error)
    {
      selectedFolderPath := value;
    }

    /** `handleFileSelect`: nothing happens without a file; otherwise the
      file is kept before it is checked, and the check only sets the
      message. */
    method FileSelect(file: Option<ChosenFile>)
      modifies this
      ensures file.None? ==> selectedFile == old(selectedFile) && error == old(error)
      ensures file.Some? ==> selectedFile == file && error == SelectionError(file.value)
      ensures selectedFolderPath == old(selectedFolderPath)
    {
      if file.None? {
        return;
      }
      selectedFile := file;
      error := None;
      var f := file.value;
      if f.mimeType !in AllowedTypes && BrowserExtension(f.name) !in AllowedExtensions {
        error := Some(TypeMessage);
        return;
      }
      if f.size > MaxSize {
        error := Some(SizeMessage);
        return;
      }
    }

    /** `handleUpload`. `succeeded` says whether the awaited `onUpload`
      resolved; on success the selection is cleared and the dialog asks to
      close, on failure the state is kept. A file rejected by
      `handleFileSelect` is still uploaded: only a missing file stops it. */
    method Upload(succeeded: bool) returns (call: Option<UploadCall>, closeRequested: bool)
      modifies this
      ensures old(selectedFile).None? ==>
                call.None? && !closeRequested && error == Some(NoFileMessage)
                && selectedFile == old(selectedFile) && selectedFolderPath == old(selectedFolderPath)
      ensures old(selectedFile).Some? ==>
                call == Some(UploadCall(old(selectedFile).value, SelectedPath(old(selectedFolderPath))))
                && error.None? && closeRequested == succeeded
      ensures old(selectedFile).Some? && succeeded ==> selectedFile.None? && selectedFolderPath == RootValue
      ensures old(selectedFile).Some? && !succeeded ==>
                selectedFile == old(selectedFile) && selectedFolderPath == old(selectedFolderPath)
    {
      if selectedFile.None? {
        error := Some(NoFileMessage);
        return None, false;
      }
      error := None;
      var folderPath := if selectedFolderPath == RootValue then "" else selectedFolderPath;
      call := Some(UploadCall(selectedFile.value, folderPath));
      closeRequested := false;
      if succeeded {
        selectedFile := None;
        selectedFolderPath := RootValue;
        closeRequested := true;
      }
    }
  }
}
