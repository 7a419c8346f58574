/** `create_folder` in backend/api/file_storage_views.py: validation, the
    folder key and placeholder object, the duplicate checks and the two
    writes. */
module CreateFolder {
  import opened Wrappers
  import opened Strings
  import opened StoreTables

  /** `user_id`, `folder_name` ("" when absent or falsy) and `parent_folder`
      (default ""). */
  datatype CreateFolderRequest = CreateFolderRequest(userId: string, folderName: string, parentFolder: string)

  datatype FolderError =
    | MissingUserId | MissingFolderName | InvalidUserId | InvalidFolderName
    | UnknownUser | NoProfile | FolderExists

  /** The row `INSERT INTO folders` writes. */
  datatype FolderRecord = FolderRecord(id: int, profileId: int, name: string, key: string)

  /** A rejection writes nothing; a failed placeholder upload writes nothing;
      a created folder always has its placeholder, and has its row only when
      the insert succeeded (`folder_id` is then its id, otherwise None). */
  datatype CreateFolderResult =
    | FolderRejected(error: FolderError)
    | PlaceholderFailed(attempted: StoredObject)
    | FolderCreated(placeholder: StoredObject, folderPath: string, folderKey: string,
                    folderId: Option<int>, record: Option<FolderRecord>)

  function Status(r: CreateFolderResult): int
  {
    match r
    case FolderRejected(e) =>
      if e in {UnknownUser, NoProfile} then 404 else if e == FolderExists then 409 else 400
    case PlaceholderFailed(_) => 500
    case FolderCreated(_, _, _, _, _) => 201
  }

  predicate FolderNameChar(c: char)
  {
    ('a' <= c <= 'z') || ('A' <= c <= 'Z') || ('0' <= c <= '9') || c == '_' || c == '-'
  }

  predicate AllFolderNameChars(s: string)
  {
    forall i :: 0 <= i < |s| ==> FolderNameChar(s[i])
  }

  /** `re.match(r'^[a-zA-Z0-9_-]+$', s)`: Python's `$` also matches just
      before a final newline, so one trailing "\n" is admitted. */
  predicate PyNameMatches(s: string)
  {
    var w := if s != "" && s[|s| - 1] == '\n' then s[..|s| - 1] else s;
    w != "" && AllFolderNameChars(w)
  }

  /** `folder_key`: `parent/name`, or `name` at the top level. */
  function FolderKey(parent: string, name: string): string
  {
    if parent != "" then parent + "/" + name else name
  }

  /** `folder_path`, the object `.keep` placeholder and the listing prefix,
      built as the view builds them, one branch per case. */
  function FolderPath(username: string, parent: string, name: string): string
  {
    var base := username + "/resumes";
    if parent != "" then base + "/" + parent + "/" + name else base + "/" + name
  }

  function PlaceholderName(username: string, parent: string, name: string): string
  {
    var base := username + "/resumes";
    if parent != "" then base + "/" + parent + "/" + name + "/.keep" else base + "/" + name + "/.keep"
  }

  function ListingPrefix(username: string, parent: string, name: string): string
  {
    var base := username + "/resumes";
    if parent != "" then base + "/" + parent + "/" + name + "/" else base + "/" + name + "/"
  }

  /** The checks that need no table, in the view's order: each error is
      reported exactly when every earlier check passed and its own failed. */
  function Validate(req: CreateFolderRequest): (r: Result<int, FolderError>)
    ensures r == Err(MissingUserId) <==> req.userId == ""
    ensures r == Err(MissingFolderName) <==> req.userId != "" && req.folderName == ""
    ensures r == Err(InvalidUserId) <==>
      req.userId != "" && req.folderName != "" && ParsePyInt(req.userId).None?
    ensures r == Err(InvalidFolderName) <==>
      req.userId != "" && req.folderName != "" && ParsePyInt(req.userId).Some? && !PyNameMatches(req.folderName)
    ensures r.Ok? <==>
      req.userId != "" && req.folderName != "" && ParsePyInt(req.userId).Some? && PyNameMatches(req.folderName)
    ensures r.Ok? ==> UserIdOf(req.userId) == Ok(r.value) && ParsePyInt(req.userId) == Some(r.value)
  {
    if req.userId == "" then Err(MissingUserId)
    else if req.folderName == "" then Err(MissingFolderName)
    else match UserIdOf(req.userId)
      case Err(_) => Err(InvalidUserId)
      case Ok(uid) => if !PyNameMatches(req.folderName) then Err(InvalidFolderName) else Ok(uid)
  }

  /** Whether the request passes the table-free checks and both lookups,
      and its key is new to the profile's `folders` rows. */
  predicate Fresh(req: CreateFolderRequest, db: Tables)
  {
    && Validate(req).Ok?
    && Validate(req).value in db.users
    && Validate(req).value in db.profileOf
    && (db.profileOf[Validate(req).value], FolderKey(req.parentFolder, req.folderName)) !in db.folderKeys
  }

  /** `create_folder`. `listing` is the best-effort bucket listing under the
      folder's prefix: `Some(found)` when it answered, `None` when it raised
      (the view then carries on). `storageOk` is the placeholder upload's
      outcome and `insertedId` the insert's. Each outcome happens exactly
      when every earlier step passed and its own step failed; the insert's
      failure does not change the outcome. */
  function Create(req: CreateFolderRequest, db: Tables, bucket: string, listing: Option<bool>,
                  storageOk: bool, insertedId: Option<int>): (r: CreateFolderResult)
    ensures r.FolderCreated? ==>
              PyNameMatches(req.folderName) && storageOk && listing != Some(true)
              && r.folderId == insertedId && (r.record.Some? <==> insertedId.Some?)
    ensures r.PlaceholderFailed? ==> !storageOk
    ensures Validate(req).Err? ==> r == FolderRejected(Validate(req).error)
    ensures r == FolderRejected(UnknownUser) <==>
              Validate(req).Ok? && Validate(req).value !in db.users
    ensures r == FolderRejected(NoProfile) <==>
              && Validate(req).Ok? && Validate(req).value in db.users
              && Validate(req).value !in db.profileOf
    ensures r == FolderRejected(FolderExists) <==>
              && Validate(req).Ok? && Validate(req).value in db.users
              && Validate(req).value in db.profileOf
              && ((db.profileOf[Validate(req).value], FolderKey(req.parentFolder, req.folderName)) in db.folderKeys
                  || listing == Some(true))
    ensures r.PlaceholderFailed? <==> Fresh(req, db) && listing != Some(true) && !storageOk
    ensures r.FolderCreated? <==> Fresh(req, db) && listing != Some(true) && storageOk
    ensures Status(r) == 201 <==> r.FolderCreated?
  {
    match Validate(req)
    case Err(e) => FolderRejected(e)
    case Ok(uid) =>
      if uid !in db.users then FolderRejected(UnknownUser)
      else
        var username := db.users[uid];
        var key := FolderKey(req.parentFolder, req.folderName);
        var placeholder := StoredObject(bucket, PlaceholderName(username, req.parentFolder, req.folderName), "text/plain");
        if uid !in db.profileOf then FolderRejected(NoProfile)
        else
          var profileId := db.profileOf[uid];
          if (profileId, key) in db.folderKeys then FolderRejected(FolderExists)
          else if listing == Some(true) then FolderRejected(FolderExists)
          else if !storageOk then PlaceholderFailed(placeholder)
          else
            var record := match insertedId
              case Some(id) => Some(FolderRecord(id, profileId, req.folderName, key))
              case None => None;
            FolderCreated(placeholder, FolderPath(username, req.parentFolder, req.folderName), key, insertedId, record)
  }

  // Properties.

  /** A folder key that is already taken by the profile is refused with 409
      and nothing is written, whatever the listing and the storage do. */
  lemma ExistingKeyConflicts(req: CreateFolderRequest, db: Tables, bucket: string, listing: Option<bool>,
                             ok: bool, id: Option<int>)
    requires Validate(req).Ok?
    requires Validate(req).value in db.users && Validate(req).value in db.profileOf
    requires (db.profileOf[Validate(req).value], FolderKey(req.parentFolder, req.folderName)) in db.folderKeys
    ensures Create(req, db, bucket, listing, ok, id) == FolderRejected(FolderExists)
    ensures Status(Create(req, db, bucket, listing, ok, id)) == 409
  {
  }

  /** A created folder is recorded under its key for the requesting profile,
      its placeholder is `folder_path/.keep`, and a failed insert still
      reports success, with no id. */
  lemma CreatedFolder(req: CreateFolderRequest, db: Tables, bucket: string, listing: Option<bool>,
                      ok: bool, id: Option<int>)
    requires Create(req, db, bucket, listing, ok, id).FolderCreated?
    ensures var r := Create(req, db, bucket, listing, ok, id);
      var uid := Validate(req).value;
      && uid in db.users && uid in db.profileOf
      && (db.profileOf[uid], r.folderKey) !in db.folderKeys
      && r.folderKey == FolderKey(req.parentFolder, req.folderName)
      && r.placeholder.name == r.folderPath + "/.keep"
      && (id.Some? ==> r.record == Some(FolderRecord(id.value, db.profileOf[uid], req.folderName, r.folderKey)))
      && Status(r) == 201
  {
    var uid := Validate(req).value;
    PathsAgree(db.users[uid], req.parentFolder, req.folderName);
  }

  /** The folder path is `username/resumes/<key>`, the placeholder sits
      directly inside it and the listing prefix is the path with a '/'. */
  lemma PathsAgree(username: string, parent: string, name: string)
    ensures FolderPath(username, parent, name) == username + "/resumes/" + FolderKey(parent, name)
    ensures PlaceholderName(username, parent, name) == FolderPath(username, parent, name) + "/.keep"
    ensures ListingPrefix(username, parent, name) == FolderPath(username, parent, name) + "/"
    ensures IsPrefix(ListingPrefix(username, parent, name), PlaceholderName(username, parent, name))
  {
    var p := FolderPath(username, parent, name);
    assert PlaceholderName(username, parent, name) == (p + "/") + ".keep";
  }

  /** An accepted name holds no '/', so the key's last '/'-segment is the
      name and the segments before it are the parent's. */
  lemma KeySegments(parent: string, name: string)
    requires PyNameMatches(name)
    ensures parent != "" ==> Split(FolderKey(parent, name), '/') == Split(parent, '/') + [name]
    ensures parent == "" ==> Split(FolderKey(parent, name), '/') == [name]
  {
    NameHasNoSlash(name);
    JoinSplit([name], '/');
    assert Join([name], ['/']) == name;
    if parent != "" {
      var ps := Split(parent, '/');
      SplitJoin(parent, '/');
      SplitAppend(ps, name);
    }
  }

  lemma NameHasNoSlash(name: string)
    requires PyNameMatches(name)
    ensures '/' !in name
  {
    var w := if name != "" && name[|name| - 1] == '\n' then name[..|name| - 1] else name;
    forall i | 0 <= i < |name| ensures name[i] != '/' {
      if i < |w| {
        assert name[i] == w[i];
        assert FolderNameChar(w[i]);
      }
    }
  }

  /** Splitting `join(parts) + "/" + name` adds `name` after the parts. */
  lemma SplitAppend(parts: seq<string>, name: string)
    requires parts != [] && '/' !in name
    requires forall i :: 0 <= i < |parts| ==> '/' !in parts[i]
    ensures Split(Join(parts, ['/']) + "/" + name, '/') == parts + [name]
  {
    var all := parts + [name];
    forall i | 0 <= i < |all| ensures '/' !in all[i] {
      if i < |parts| { assert all[i] == parts[i]; }
    }
    JoinSplit(all, '/');
    JoinSnoc(parts, name, ['/']);
  }

  /** Python's `$` lets a name with one trailing newline through; the name
      without it passes as well. */
  lemma TrailingNewlineAdmitted(w: string)
    requires w != "" && AllFolderNameChars(w)
    ensures PyNameMatches(w) && PyNameMatches(w + "\n")
    ensures !PyNameMatches(w + "\n\n")
  {
    var s := w + "\n";
    assert s[..|s| - 1] == w;
    var t := w + "\n\n";
    assert t[..|t| - 1] == s;
    assert !FolderNameChar(s[|s| - 1]);
  }
}
