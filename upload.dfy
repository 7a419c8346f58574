/** The rows and objects the file store reads and writes, shared by the
    upload, folder-creation and listing views of
    backend/api/file_storage_views.py. */
module StoreTables {
  import opened Wrappers
  import opened Strings

  /** What the view's queries can see: `users` (id to username), the profile
      that `SELECT id FROM profiles WHERE user_id = ... LIMIT 1` returns for a
      user, and the `(profile_id, folder_key)` pairs of the `folders` table. */
  datatype Tables = Tables(
    users: map<int, string>,
    profileOf: map<int, int>,
    folderKeys: set<(int, string)>)

  /** An object written to the bucket. */
  datatype StoredObject = StoredObject(bucket: string, name: string, contentType: string)

  /** Whether a request's `user_id` is missing (falsy), not an integer, or
      names a user id. */
  function UserIdOf(userId: string): (r: Result<int, bool>)
    ensures r.Ok? <==> userId != "" && ParsePyInt(userId).Some?
    ensures r.Ok? ==> ParsePyInt(userId) == Some(r.value)
    ensures r.Err? ==> (r.error <==> userId == "")
  {
    if userId == "" then Err(true)
    else match ParsePyInt(userId)
      case Some(n) => Ok(n)
      case None => Err(false)
  }
}

/** `upload_resume`: the validation ladder, the object name and the two
    writes (the object to the bucket, then the row to `resumes`). */
module UploadResume {
  import opened Wrappers
  import opened Strings
  import opened StoreTables
  import MinioUtils

  const MaxFileSize: nat := 10 * 1024 * 1024

  const AllowedExtensions: seq<string> := [".pdf", ".doc", ".docx"]

  const ContentTypes: map<string, string> := map[
    ".pdf" := "application/pdf",
    ".doc" := "application/msword",
    ".docx" := "application/vnd.openxmlformats-officedocument.wordprocessingml.document"]

  const OctetStream: string := "application/octet-stream"

  /** The part of `request.FILES['file']` the view looks at. */
  datatype UploadedFile = UploadedFile(name: string, size: nat)

  /** `user_id` ("" when absent or falsy), the file (if any) and
      `folder_path` (default ""). */
  datatype UploadRequest = UploadRequest(userId: string, file: Option<UploadedFile>, folderPath: string)

  datatype UploadError =
    | MissingUserId | InvalidUserId | NoFile | EmptyFile | FileTooLarge | InvalidFileType
    | UnknownUser | NoProfile | UnknownFolder

  /** The row `INSERT INTO resumes` writes. */
  datatype ResumeRecord = ResumeRecord(id: int, profileId: int, url: string, filename: string)

  /** A rejection writes nothing; a storage failure writes nothing; a failed
      insert leaves the object stored without a row. */
  datatype UploadResult =
    | Rejected(error: UploadError)
    | StorageFailed(attempted: StoredObject)
    | RecordFailed(stored: StoredObject)
    | Uploaded(stored: StoredObject, record: ResumeRecord)

  function Status(r: UploadResult): int
  {
    match r
    case Rejected(e) =>
      if e in {UnknownUser, NoProfile, UnknownFolder} then 404 else 400
    case StorageFailed(_) => 500
    case RecordFailed(_) => 500
    case Uploaded(_, _) => 201
  }

  /** Whether some character strictly between `lo` and `hi` is not a dot. */
  predicate HasNonDot(s: string, lo: int, hi: int)
    requires 0 <= lo && hi <= |s|
  {
    exists k | lo <= k < hi :: s[k] != '.'
  }

  /** `os.path.splitext(name)[1]` (POSIX): from the last dot on, provided the
      dot comes after the last '/' and is not part of the leading dots of
      the final component; otherwise empty. */
  function Extension(name: string): (ext: string)
    ensures ext == "" || (ext[0] == '.' && NoneOf(ext, {'/'}) && NoneOf(ext[1..], {'.'}))
    ensures |ext| <= |name| && ext == name[|name| - |ext|..]
  {
    var dot := LastIndexOf(name, '.');
    var sep := LastIndexOf(name, '/');
    if dot > sep && HasNonDot(name, sep + 1, dot) then name[dot..] else ""
  }

  /** `file.name.replace(' ', '_')`. */
  function SafeName(name: string): (r: string)
    ensures |r| == |name| && NoneOf(r, {' '})
    ensures forall i :: 0 <= i < |name| && name[i] != ' ' ==> r[i] == name[i]
  {
    if name == [] then []
    else [if name[0] == ' ' then '_' else name[0]] + SafeName(name[1..])
  }

  /** `username/resumes/[folder_path/]timestamp_filename`. */
  function ObjectName(username: string, folderPath: string, timestamp: string, safeName: string): string
  {
    if folderPath != "" then username + "/resumes/" + folderPath + "/" + timestamp + "_" + safeName
    else username + "/resumes/" + timestamp + "_" + safeName
  }

  /** `content_type_map.get(ext, 'application/octet-stream')`. */
  function ContentType(ext: string): string
  {
    if ext in ContentTypes then ContentTypes[ext] else OctetStream
  }

  /** Whether `file.name`'s lower-cased extension is one of the three. */
  predicate AllowedName(name: string)
  {
    Lower(Extension(name)) in AllowedExtensions
  }

  /** The checks that need no table, in the view's order: each error is
      reported exactly when every earlier check passed and its own failed. */
  function Validate(req: UploadRequest): (r: Result<(int, UploadedFile), UploadError>)
    ensures r == Err(MissingUserId) <==> req.userId == ""
    ensures r == Err(InvalidUserId) <==> req.userId != "" && ParsePyInt(req.userId).None?
    ensures r == Err(NoFile) <==> UserIdOf(req.userId).Ok? && req.file.None?
    ensures r == Err(EmptyFile) <==> UserIdOf(req.userId).Ok? && req.file.Some? && req.file.value.size == 0
    ensures r == Err(FileTooLarge) <==> UserIdOf(req.userId).Ok? && req.file.Some? && req.file.value.size > MaxFileSize
    ensures r == Err(InvalidFileType) <==>
      && UserIdOf(req.userId).Ok? && req.file.Some? && 0 < req.file.value.size <= MaxFileSize
      && !AllowedName(req.file.value.name)
    ensures r.Ok? <==>
      && UserIdOf(req.userId).Ok? && req.file.Some? && 0 < req.file.value.size <= MaxFileSize
      && AllowedName(req.file.value.name)
    ensures r.Ok? ==> r.value == (UserIdOf(req.userId).value, req.file.value)
  {
    match UserIdOf(req.userId)
    case Err(missing) => Err(if missing then MissingUserId else InvalidUserId)
    case Ok(uid) =>
      if req.file.None? then Err(NoFile)
      else
        var f := req.file.value;
        if f.size == 0 then Err(EmptyFile)
        else if f.size > MaxFileSize then Err(FileTooLarge)
        else if !AllowedName(f.name) then Err(InvalidFileType)
        else Ok((uid, f))
  }

  /** `folder_path` with surrounding '/' stripped (left as is when empty). */
  function FolderPathOf(req: UploadRequest): string
  {
    if req.folderPath != "" then StripChar(req.folderPath, '/') else req.folderPath
  }

  /** Whether the request passes every check before the writes: the
      table-free checks, the user and profile lookups and, for a non-empty
      folder path, the folder lookup. */
  predicate Located(req: UploadRequest, db: Tables)
  {
    && Validate(req).Ok?
    && Validate(req).value.0 in db.users
    && Validate(req).value.0 in db.profileOf
    && (FolderPathOf(req) == "" || (db.profileOf[Validate(req).value.0], FolderPathOf(req)) in db.folderKeys)
  }

  /** `upload_resume`. The clock reading is `timestamp` (already formatted
      as `%Y%m%d_%H%M%S`), `storageOk` says whether the bucket accepted the
      object and `insertedId` the id the insert returned, if it succeeded.
      Each outcome happens exactly when every earlier step passed and its
      own step failed. */
  function Upload(req: UploadRequest, db: Tables, bucket: string, publicBase: Option<string>,
                  timestamp: string, storageOk: bool, insertedId: Option<int>): (r: UploadResult)
    ensures !r.Rejected? ==>
              req.file.Some? && 0 < req.file.value.size <= MaxFileSize
              && AllowedName(req.file.value.name)
    ensures Validate(req).Err? ==> r == Rejected(Validate(req).error)
    ensures r.Rejected? && r.error !in {UnknownUser, NoProfile, UnknownFolder} ==>
              Validate(req) == Err(r.error)
    ensures r == Rejected(UnknownUser) <==>
              Validate(req).Ok? && Validate(req).value.0 !in db.users
    ensures r == Rejected(NoProfile) <==>
              && Validate(req).Ok? && Validate(req).value.0 in db.users
              && Validate(req).value.0 !in db.profileOf
    ensures r == Rejected(UnknownFolder) <==>
              && Validate(req).Ok? && Validate(req).value.0 in db.users
              && Validate(req).value.0 in db.profileOf
              && FolderPathOf(req) != ""
              && (db.profileOf[Validate(req).value.0], FolderPathOf(req)) !in db.folderKeys
    ensures !r.Rejected? <==> Located(req, db)
    ensures r.StorageFailed? <==> Located(req, db) && !storageOk
    ensures r.RecordFailed? <==> Located(req, db) && storageOk && insertedId.None?
    ensures r.Uploaded? <==> Located(req, db) && storageOk && insertedId.Some?
    ensures r.Uploaded? ==> insertedId == Some(r.record.id)
    ensures Status(r) == 201 <==> r.Uploaded?
  {
    match Validate(req)
    case Err(e) => Rejected(e)
    case Ok((uid, file)) =>
      if uid !in db.users then Rejected(UnknownUser)
      else if uid !in db.profileOf then Rejected(NoProfile)
      else
        var username := db.users[uid];
        var profileId := db.profileOf[uid];
        var folderPath := FolderPathOf(req);
        if folderPath != "" && (profileId, folderPath) !in db.folderKeys then Rejected(UnknownFolder)
        else
          var safeName := SafeName(file.name);
          var objectName := ObjectName(username, folderPath, timestamp, safeName);
          var obj := StoredObject(bucket, objectName, ContentType(Lower(Extension(file.name))));
          if !storageOk then StorageFailed(obj)
          else
            var url := MinioUtils.PublicUrl(publicBase, bucket, objectName);
            match insertedId
            case None => RecordFailed(obj)
            case Some(id) => Uploaded(obj, ResumeRecord(id, profileId, url, safeName))
  }

  // Properties.

  /** Every rejection by a check that needs no table is decided before any
      query or write: the tables, the clock and the storage outcomes do not
      change it. */
  lemma ValidationBeforeLookup(req: UploadRequest, db: Tables, db': Tables, bucket: string, bucket': string,
                               base: Option<string>, base': Option<string>, ts: string, ts': string,
                               ok: bool, ok': bool, id: Option<int>, id': Option<int>)
    requires Validate(req).Err?
    ensures Upload(req, db, bucket, base, ts, ok, id) == Upload(req, db', bucket', base', ts', ok', id')
    ensures Upload(req, db, bucket, base, ts, ok, id) == Rejected(Validate(req).error)
  {
  }

  /** The size bound is inclusive: exactly 10 MiB passes, one byte more is
      refused, and an empty file is refused. */
  lemma SizeBoundary(userId: string, name: string)
    requires UserIdOf(userId).Ok? && AllowedName(name)
    ensures Validate(UploadRequest(userId, Some(UploadedFile(name, MaxFileSize)), "")).Ok?
    ensures Validate(UploadRequest(userId, Some(UploadedFile(name, MaxFileSize + 1)), "")) == Err(FileTooLarge)
    ensures Validate(UploadRequest(userId, Some(UploadedFile(name, 0)), "")) == Err(EmptyFile)
  {
  }

  /** An accepted upload stores the object under
      `username/resumes/[folder/]timestamp_name` with the content type of its
      extension (never the fallback), into a folder the profile has, and
      records the object's public URL and the space-free file name. */
  lemma UploadedObject(req: UploadRequest, db: Tables, bucket: string, base: Option<string>,
                       ts: string, ok: bool, id: Option<int>)
    requires Upload(req, db, bucket, base, ts, ok, id).Uploaded?
    ensures var r := Upload(req, db, bucket, base, ts, ok, id);
      var uid := Validate(req).value.0;
      var file := req.file.value;
      var folderPath := StripChar(req.folderPath, '/');
      && uid in db.users && uid in db.profileOf
      && (folderPath != "" ==> (db.profileOf[uid], folderPath) in db.folderKeys)
      && r.stored == StoredObject(bucket, ObjectName(db.users[uid], folderPath, ts, SafeName(file.name)),
                                  ContentType(Lower(Extension(file.name))))
      && r.stored.contentType != OctetStream
      && r.record == ResumeRecord(id.value, db.profileOf[uid],
                                  MinioUtils.PublicUrl(base, bucket, r.stored.name), SafeName(file.name))
      && NoneOf(r.record.filename, {' '})
  {
    var file := req.file.value;
    KnownContentType(Lower(Extension(file.name)));
    if req.folderPath == "" {
      assert StripChar(req.folderPath, '/') == "";
    }
  }

  /** Every accepted extension has its own content type. */
  lemma KnownContentType(ext: string)
    requires ext in AllowedExtensions
    ensures ContentType(ext) != OctetStream
  {
  }

  /** `splitext` of a name whose final component has a non-dot character
      before its last dot yields the text from that dot. */
  lemma ExtensionOf(stem: string, ext: string)
    requires NoneOf(ext, {'.', '/'})
    requires stem != "" && stem[|stem| - 1] != '.' && stem[|stem| - 1] != '/'
    ensures Extension(stem + "." + ext) == "." + ext
  {
    var name := stem + "." + ext;
    var dot := LastIndexOf(name, '.');
    assert name[|stem|] == '.';
    assert dot == |stem| by {
      forall k | |stem| < k < |name| ensures name[k] != '.' && name[k] != '/' {
        assert name[k] == ext[k - |stem| - 1];
      }
    }
    var sep := LastIndexOf(name, '/');
    assert name[|stem| - 1] == stem[|stem| - 1];
    assert sep < |stem| - 1;
    assert HasNonDot(name, sep + 1, dot);
  }

  /** A name made only of a leading dot and an extension, such as ".pdf",
      has no extension, so it is refused. */
  lemma DotFileHasNoExtension(ext: string)
    requires NoneOf(ext, {'.', '/'})
    ensures Extension("." + ext) == ""
  {
    var name := "." + ext;
    assert name[0] == '.';
    forall k | 1 <= k < |name| ensures name[k] != '.' && name[k] != '/' {
      assert name[k] == ext[k - 1];
    }
    assert LastIndexOf(name, '.') == 0;
  }

  /** Upper-case extensions are accepted: the extension is lower-cased
      before the check. */
  lemma UpperCaseAccepted(userId: string)
    requires UserIdOf(userId).Ok?
    ensures Validate(UploadRequest(userId, Some(UploadedFile("cv.PDF", 1)), "")).Ok?
  {
    UpperPdfAllowed();
  }

  lemma UpperPdfAllowed()
    ensures AllowedName("cv.PDF")
  {
    ExtensionOf("cv", "PDF");
    assert "cv" + "." + "PDF" == "cv.PDF";
    assert Extension("cv.PDF") == ".PDF";
    assert LowerChar('P') == 'p' && LowerChar('D') == 'd' && LowerChar('F') == 'f';
    assert Lower(".PDF") == ".pdf";
    assert ".pdf" in AllowedExtensions;
  }
}
