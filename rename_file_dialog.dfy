/** frontend-next/src/app/resume/components/RenameFileDialog.tsx: the text
    offered for editing, the new-name preview and the name `handleRename`
    submits. */
module RenameFileDialog {
  import opened Wrappers
  import opened Strings

  const EmptyMessage: string := "Filename cannot be empty"

  /** `currentFilename.substring(0, currentFilename.lastIndexOf('.')) ||
      currentFilename`: the part before the last '.', or the whole name when
      that part is empty (no '.', or a '.' in front). */
  function NameWithoutExt(current: string): (r: string)
    ensures LastIndexOf(current, '.') > 0 ==> r == current[..LastIndexOf(current, '.')]
    ensures LastIndexOf(current, '.') <= 0 ==> r == current
  {
    var before := SubstringTo(current, LastIndexOf(current, '.'));
    if before != "" then before else current
  }

  /** `currentFilename.substring(currentFilename.lastIndexOf('.')) || ''`:
      with no '.', `lastIndexOf` is -1 and `substring(-1)` is the whole name. */
  function SubmittedExtension(current: string): string
  {
    SubstringFrom(current, LastIndexOf(current, '.'))
  }

  /** The extension the preview line shows, and the one the dialog promises
      to keep: from the last '.', or nothing when the name has no '.'. */
  function Extension(current: string): (ext: string)
    ensures ext == "" <==> '.' !in current
    ensures ext != "" ==> ext[0] == '.' && '.' !in ext[1..]
    ensures |ext| <= |current| && ext == current[|current| - |ext|..]
  {
    if '.' in current then SubstringFrom(current, LastIndexOf(current, '.')) else ""
  }

  /** `New filename: {newFilename.trim() + extension}`. */
  function Preview(current: string, typed: string): string
  {
    Trim(typed) + Extension(current)
  }

  /** `handleRename` as written: the trimmed input followed by the
      submitted extension. */
  function RenameAsWritten(current: string, typed: string): (r: Result<string, string>)
    ensures r.Err? <==> Trim(typed) == ""
    ensures r.Err? ==> r.error == EmptyMessage
  {
    if Trim(typed) == "" then Err(EmptyMessage) else Ok(Trim(typed) + SubmittedExtension(current))
  }

  /** `handleRename` with the extension the preview shows. */
  function Rename(current: string, typed: string): (r: Result<string, string>)
    ensures r.Err? <==> Trim(typed) == ""
    ensures r.Err? ==> r.error == EmptyMessage
  {
    if Trim(typed) == "" then Err(EmptyMessage) else Ok(Trim(typed) + Extension(current))
  }

  /** A renamed file keeps the old extension after the trimmed input and is
      what the preview announced. */
  lemma RenameKeepsExtension(current: string, typed: string)
    requires Trim(typed) != ""
    ensures var r := Rename(current, typed).value;
      && r == Preview(current, typed)
      && IsPrefix(Trim(typed), r)
      && r[|Trim(typed)|..] == Extension(current)
  {
    var r := Rename(current, typed).value;
    assert r == Trim(typed) + Extension(current);
    assert r[..|Trim(typed)|] == Trim(typed);
  }

  /** Where the name has a '.', the submitted name is the corrected one. */
  lemma AsWrittenWithDot(current: string, typed: string)
    requires '.' in current
    ensures RenameAsWritten(current, typed) == Rename(current, typed)
  {
  }

  /** Without a '.', the submitted name gets the whole old name appended,
      although the preview shows none: "resume" renamed to "cv" is submitted
      as "cvresume". */
  lemma AsWrittenAppendsWholeName(current: string, typed: string)
    requires '.' !in current && Trim(typed) != ""
    ensures RenameAsWritten(current, typed) == Ok(Trim(typed) + current)
    ensures Preview(current, typed) == Trim(typed)
  {
    LastIndexOfAbsent(current, '.');
  }

  lemma AsWrittenExample()
    ensures RenameAsWritten("resume", "cv") == Ok("cvresume")
  {
    ExampleInputs();
    AsWrittenAppendsWholeName("resume", "cv");
    assert "cv" + "resume" == "cvresume";
  }

  lemma CorrectedExample()
    ensures Rename("resume", "cv") == Ok("cv")
    ensures Preview("resume", "cv") == "cv"
  {
    ExampleInputs();
    AsWrittenAppendsWholeName("resume", "cv");
  }

  lemma ExampleInputs()
    ensures '.' !in "resume" && Trim("cv") == "cv"
  {
    NoDotInExample();
    TrimKeepsUnspaced("cv");
  }

  lemma NoDotInExample()
    ensures '.' !in "resume"
  {
  }

  /** Submitting the offered text unchanged gives the file its own name
      back, when the name has a '.' after its first character and the text
      before it has no surrounding white space... */
  lemma RoundTrip(current: string)
    requires LastIndexOf(current, '.') > 0
    requires Trim(NameWithoutExt(current)) == NameWithoutExt(current)
    ensures Rename(current, NameWithoutExt(current)) == Ok(current)
    ensures RenameAsWritten(current, NameWithoutExt(current)) == Ok(current)
  {
    var d := LastIndexOf(current, '.');
    ExtensionsAt(current, d);
    SplitAt(current, d);
    RenameWith(current, NameWithoutExt(current), current[..d], current[d..]);
  }

  lemma SplitAt(s: string, d: int)
    requires 0 <= d <= |s|
    ensures s[..d] + s[d..] == s
  {
  }

  lemma RenameWith(current: string, typed: string, name: string, ext: string)
    requires Trim(typed) == name && name != ""
    requires Extension(current) == ext && SubmittedExtension(current) == ext
    ensures Rename(current, typed) == Ok(name + ext)
    ensures RenameAsWritten(current, typed) == Ok(name + ext)
  {
  }

  lemma ExtensionsAt(current: string, d: int)
    requires d == LastIndexOf(current, '.') && d > 0
    ensures NameWithoutExt(current) == current[..d]
    ensures Extension(current) == current[d..] && SubmittedExtension(current) == current[d..]
  {
    assert current[d] == '.';
  }

  /** ...and, once corrected, also for a name without any '.'. */
  lemma RoundTripWithoutDot(current: string)
    requires '.' !in current && current != ""
    requires Trim(current) == current
    ensures Rename(current, NameWithoutExt(current)) == Ok(current)
  {
    LastIndexOfAbsent(current, '.');
    assert NameWithoutExt(current) == current;
    assert Extension(current) == "";
    assert current + "" == current;
  }
}
