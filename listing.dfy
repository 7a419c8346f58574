/** `get_resumes` in backend/api/file_storage_views.py: the folder rows are
    sorted by depth and turned into the nested folder tree, then every resume
    row is placed into the tree or into the root list according to the path
    of its stored URL. */
module ResumeListing {
  import opened Wrappers
  import opened Strings
  import opened Urls
  import opened FolderTree
  import opened StoreTables
  import MinioUtils
  import UploadResume
  import CreateFolder

  /** A `folders` row: `id`, `folder_name`, `folder_key` ("" also stands for
      a NULL key: the view treats both alike). */
  datatype FolderRow = FolderRow(id: int, name: string, key: string)

  /** A `resumes` row: `filename` is "" also for NULL; the timestamps are
      already rendered by `isoformat()`. */
  datatype ResumeRow = ResumeRow(id: int, url: string, filename: string,
                                 createdAt: Option<string>, updatedAt: Option<string>)

  datatype Listing = Listing(resumes: seq<FileEntry>, folders: seq<Entry>)

  /** 400 for a non-integer id, 404 for an unknown user, 200 with the
      listing, or 500 when building it raised. */
  datatype ListResult = InvalidUserId | UnknownUser | Listed(listing: Listing) | ServerError

  // Sorting the folder rows.

  /** `(folder_key or '').count('/')`. */
  function Depth(row: FolderRow): nat
  {
    Count(row.key, '/')
  }

  function Count(s: string, c: char): nat
  {
    if s == [] then 0 else (if s[0] == c then 1 else 0) + Count(s[1..], c)
  }

  /** `sorted(rows, key=Depth)`: Python's sort is stable, so rows of equal
      depth keep their query order. Written as insertion of each row after
      every row of no greater depth. */
  function SortByDepth(rows: seq<FolderRow>): seq<FolderRow>
  {
    if rows == [] then [] else InsertByDepth(SortByDepth(rows[..|rows| - 1]), rows[|rows| - 1])
  }

  function InsertByDepth(s: seq<FolderRow>, r: FolderRow): (t: seq<FolderRow>)
    ensures multiset(t) == multiset(s) + multiset{r}
  {
    if s == [] || Depth(s[|s| - 1]) <= Depth(r) then s + [r]
    else
      assert s == s[..|s| - 1] + [s[|s| - 1]];
      InsertByDepth(s[..|s| - 1], r) + [s[|s| - 1]]
  }

  predicate SortedByDepth(s: seq<FolderRow>)
  {
    forall i, j :: 0 <= i < j < |s| ==> Depth(s[i]) <= Depth(s[j])
  }

  /** The rows of depth `d`, in order. */
  function AtDepth(s: seq<FolderRow>, d: nat): seq<FolderRow>
  {
    if s == [] then [] else AtDepth(s[..|s| - 1], d) + (if Depth(s[|s| - 1]) == d then [s[|s| - 1]] else [])
  }

  lemma {:induction false} InsertKeepsSorted(s: seq<FolderRow>, r: FolderRow)
    requires SortedByDepth(s)
    ensures SortedByDepth(InsertByDepth(s, r))
    decreases |s|
  {
    if s != [] && Depth(s[|s| - 1]) > Depth(r) {
      var init := s[..|s| - 1];
      var last := s[|s| - 1];
      InsertKeepsSorted(init, r);
      assert forall k :: 0 <= k < |init| ==> Depth(init[k]) <= Depth(last) by {
        forall k | 0 <= k < |init| ensures Depth(init[k]) <= Depth(last) {
          assert init[k] == s[k];
        }
      }
      InsertBounded(init, r, Depth(last));
      var t := InsertByDepth(init, r);
      assert InsertByDepth(s, r) == t + [last];
      forall i, j | 0 <= i < j < |t| + 1 ensures Depth((t + [last])[i]) <= Depth((t + [last])[j]) {
        if j < |t| {
          assert (t + [last])[i] == t[i] && (t + [last])[j] == t[j];
        }
      }
    }
  }

  /** Inserting a row keeps a bound on the depths. */
  lemma {:induction false} InsertBounded(s: seq<FolderRow>, r: FolderRow, b: nat)
    requires forall k :: 0 <= k < |s| ==> Depth(s[k]) <= b
    requires Depth(r) <= b
    ensures forall k :: 0 <= k < |InsertByDepth(s, r)| ==> Depth(InsertByDepth(s, r)[k]) <= b
    decreases |s|
  {
    if s != [] && Depth(s[|s| - 1]) > Depth(r) {
      InsertBounded(s[..|s| - 1], r, b);
    }
  }

  lemma {:induction false} AtDepthAppend(a: seq<FolderRow>, b: seq<FolderRow>, d: nat)
    ensures AtDepth(a + b, d) == AtDepth(a, d) + AtDepth(b, d)
    decreases |b|
  {
    if b == [] {
      assert a + b == a;
    } else {
      var b' := b[..|b| - 1];
      assert (a + b)[..|a + b| - 1] == a + b';
      AtDepthAppend(a, b', d);
    }
  }

  lemma {:induction false} InsertKeepsDepthOrder(s: seq<FolderRow>, r: FolderRow, d: nat)
    ensures AtDepth(InsertByDepth(s, r), d) == AtDepth(s, d) + AtDepth([r], d)
    decreases |s|
  {
    if s == [] || Depth(s[|s| - 1]) <= Depth(r) {
      AtDepthAppend(s, [r], d);
    } else {
      var init := s[..|s| - 1];
      var last := s[|s| - 1];
      InsertKeepsDepthOrder(init, r, d);
      AtDepthAppend(InsertByDepth(init, r), [last], d);
      AtDepthSnoc(s, d);
      AtDepthSwap(r, last, d);
      ConcatAssoc(AtDepth(init, d), AtDepth([r], d), AtDepth([last], d));
      ConcatAssoc(AtDepth(init, d), AtDepth([last], d), AtDepth([r], d));
    }
  }

  lemma AtDepthSwap(r: FolderRow, r': FolderRow, d: nat)
    requires Depth(r) != Depth(r')
    ensures AtDepth([r], d) + AtDepth([r'], d) == AtDepth([r'], d) + AtDepth([r], d)
  {
    AtDepthOne(r, d);
    AtDepthOne(r', d);
  }

  lemma AtDepthOne(r: FolderRow, d: nat)
    ensures AtDepth([r], d) == if Depth(r) == d then [r] else []
  {
    assert [r][..0] == [];
  }

  /** The sort orders the rows by depth... */
  lemma {:induction false} SortIsSorted(rows: seq<FolderRow>)
    ensures SortedByDepth(SortByDepth(rows))
    decreases |rows|
  {
    if rows != [] {
      SortIsSorted(rows[..|rows| - 1]);
      InsertKeepsSorted(SortByDepth(rows[..|rows| - 1]), rows[|rows| - 1]);
    }
  }

  /** ...keeps every row exactly as often as it occurs... */
  lemma {:induction false} SortPermutes(rows: seq<FolderRow>)
    ensures multiset(SortByDepth(rows)) == multiset(rows)
    decreases |rows|
  {
    if rows != [] {
      SortPermutes(rows[..|rows| - 1]);
      assert rows == rows[..|rows| - 1] + [rows[|rows| - 1]];
    }
  }

  /** ...and is stable: the rows of each depth stay in query order. */
  lemma {:induction false} SortIsStable(rows: seq<FolderRow>, d: nat)
    ensures AtDepth(SortByDepth(rows), d) == AtDepth(rows, d)
    decreases |rows|
  {
    if rows != [] {
      var init := rows[..|rows| - 1];
      var last := rows[|rows| - 1];
      SortIsStable(init, d);
      InsertKeepsDepthOrder(SortByDepth(init), last, d);
      AtDepthSnoc(rows, d);
    }
  }

  lemma AtDepthSnoc(s: seq<FolderRow>, d: nat)
    requires s != []
    ensures AtDepth(s, d) == AtDepth(s[..|s| - 1], d) + AtDepth([s[|s| - 1]], d)
  {
    AtDepthOne(s[|s| - 1], d);
  }

  // Building the tree from the folder rows.

  /** Where a folder row's node goes: the segments of its key before the
      last, then its own name (parents are keyed by key segments, the node
      itself by `folder_name`). */
  function FolderPlace(row: FolderRow): (p: seq<string>)
    ensures p != [] && p[|p| - 1] == row.name
  {
    var parts := Split(row.key, '/');
    parts[..|parts| - 1] + [row.name]
  }

  /** One iteration of the folder loop: rows with an empty key are skipped;
      otherwise the parents are ensured and then the named node. */
  function PlaceFolder(folders: seq<Entry>, row: FolderRow): seq<Entry>
  {
    if row.key == "" then folders else EnsurePath(folders, FolderPlace(row))
  }

  function BuildFolders(folders: seq<Entry>, rows: seq<FolderRow>): seq<Entry>
  {
    if rows == [] then folders
    else PlaceFolder(BuildFolders(folders, rows[..|rows| - 1]), rows[|rows| - 1])
  }

  // Placing the resume rows.

  /** Where a resume goes by the segments of its URL path: a folder path
      (empty for the root list) and the name to show when the row has no
      `filename`; `None` as that name when computing it raises `IndexError`
      (a path of exactly bucket, username and "resumes"). */
  datatype Placement = Placement(folder: seq<string>, fallback: Option<string>)

  function Classify(parts: seq<string>): (p: Placement)
    ensures p.fallback.None? <==> |parts| == 3 && parts[2] == "resumes"
    ensures p.folder != [] ==> |parts| >= 4
  {
    if |parts| > 2 then
      var rest := parts[2..];
      var rest' := if rest[0] == "resumes" then rest[1..] else rest;
      if |rest'| > 1 then Placement(rest'[..|rest'| - 1], Some(rest'[|rest'| - 1]))
      else Placement([], if rest' != [] then Some(rest'[0]) else None)
    else if |parts| == 2 then Placement([], Some(parts[1]))
    else Placement([], Some("unknown"))
  }

  /** A resume row once its URL is read: its id, its `file_data` (`None`
      when building it raises) and the folder path it goes to. */
  datatype Placed = Placed(id: int, file: Option<FileEntry>, folder: seq<string>)

  function Prepare(row: ResumeRow): (p: Placed)
    ensures p.id == row.id
    ensures p.file.Some? ==> p.file.value.id == row.id && p.file.value.url == row.url
    ensures p.file.Some? && row.filename != "" ==> p.file.value.filename == row.filename
    ensures p.file.None? <==> row.filename == "" && Classify(PathSegments(row.url)).fallback.None?
    ensures p.folder == Classify(PathSegments(row.url)).folder
  {
    var place := Classify(PathSegments(row.url));
    var name := if row.filename != "" then Some(row.filename) else place.fallback;
    var file := match name
      case Some(n) => Some(FileEntry(row.id, n, row.url, row.createdAt, row.updatedAt))
      case None => None;
    Placed(row.id, file, place.folder)
  }

  /** `f` applied to every element, in order. */
  function Mapped<A, B>(f: A -> B, xs: seq<A>): (ys: seq<B>)
    ensures |ys| == |xs|
  {
    if xs == [] then [] else Mapped(f, xs[..|xs| - 1]) + [f(xs[|xs| - 1])]
  }

  lemma {:induction false} MappedAt<A, B>(f: A -> B, xs: seq<A>, k: nat)
    requires k < |xs|
    ensures Mapped(f, xs)[k] == f(xs[k])
    decreases |xs|
  {
    if k < |xs| - 1 {
      MappedAt(f, xs[..|xs| - 1], k);
    }
  }

  lemma {:induction false} MappedPrefix<A, B>(f: A -> B, xs: seq<A>, j: nat)
    requires j <= |xs|
    ensures Mapped(f, xs[..j]) == Mapped(f, xs)[..j]
    decreases |xs|
  {
    if j < |xs| {
      assert xs[..j] == xs[..|xs| - 1][..j];
      MappedPrefix(f, xs[..|xs| - 1], j);
    } else {
      assert xs[..j] == xs;
    }
  }

  function PrepareAll(rows: seq<ResumeRow>): (ps: seq<Placed>)
    ensures |ps| == |rows|
  {
    Mapped(Prepare, rows)
  }

  lemma PrepareAllAt(rows: seq<ResumeRow>, k: nat)
    requires k < |rows|
    ensures PrepareAll(rows)[k] == Prepare(rows[k])
  {
    MappedAt(Prepare, rows, k);
  }

  /** One iteration of the resume loop. */
  function PlaceFile(l: Listing, p: Placed): Option<Listing>
  {
    match p.file
    case None => None
    case Some(f) =>
      if p.folder != [] then Some(Listing(l.resumes, AddFile(l.folders, p.folder, f)))
      else Some(Listing(l.resumes + [f], l.folders))
  }

  function PlaceFiles(start: Listing, ps: seq<Placed>): Option<Listing>
  {
    if ps == [] then Some(start)
    else match PlaceFiles(start, ps[..|ps| - 1])
      case None => None
      case Some(l) => PlaceFile(l, ps[|ps| - 1])
  }

  /** The listing of a profile's rows, `None` when building it raises. */
  function ListingOf(folderRows: seq<FolderRow>, resumeRows: seq<ResumeRow>): Option<Listing>
  {
    PlaceFiles(Listing([], BuildFolders([], SortByDepth(folderRows))), PrepareAll(resumeRows))
  }

  /** The whole response, for the rows the two queries return for the
      user's profile (in their `ORDER BY` order): 400 for a missing or
      unparseable id, 404 for an unknown user, empty results for a user
      without a profile, and otherwise the profile's listing, or a server
      error when building it raises. */
  function ListResumes(userId: string, db: Tables, folderRows: seq<FolderRow>, resumeRows: seq<ResumeRow>): (r: ListResult)
    ensures r == InvalidUserId <==> UserIdOf(userId).Err?
    ensures r == UnknownUser <==> UserIdOf(userId).Ok? && UserIdOf(userId).value !in db.users
    ensures r == ServerError <==>
      && UserIdOf(userId).Ok? && UserIdOf(userId).value in db.users
      && UserIdOf(userId).value in db.profileOf && ListingOf(folderRows, resumeRows).None?
    ensures r.Listed? <==>
      && UserIdOf(userId).Ok? && UserIdOf(userId).value in db.users
      && (UserIdOf(userId).value !in db.profileOf || ListingOf(folderRows, resumeRows).Some?)
    ensures r.Listed? && UserIdOf(userId).value !in db.profileOf ==> r.listing == Listing([], [])
    ensures r.Listed? && UserIdOf(userId).value in db.profileOf ==> Some(r.listing) == ListingOf(folderRows, resumeRows)
  {
    match UserIdOf(userId)
    case Err(_) => InvalidUserId
    case Ok(uid) =>
      if uid !in db.users then UnknownUser
      else if uid !in db.profileOf then Listed(Listing([], []))
      else match ListingOf(folderRows, resumeRows)
        case None => ServerError
        case Some(l) => Listed(l)
  }

  /** `get_resumes`, step by step as the view does it. */
  method GetResumes(userId: string, db: Tables, folderRows: seq<FolderRow>, resumeRows: seq<ResumeRow>)
    returns (r: ListResult)
    ensures r == ListResumes(userId, db, folderRows, resumeRows)
  {
    var parsed := UserIdOf(userId);
    if parsed.Err? {
      return InvalidUserId;
    }
    var uid := parsed.value;
    if uid !in db.users {
      return UnknownUser;
    }
    if uid !in db.profileOf {
      return Listed(Listing([], []));
    }
    var folders := BuildTree(SortByDepth(folderRows));
    var listing := PlaceRows(folders, resumeRows);
    r := if listing.Some? then Listed(listing.value) else ServerError;
  }

  /** The folder loop of `get_resumes`, over the rows already sorted. */
  method BuildTree(sorted: seq<FolderRow>) returns (folders: seq<Entry>)
    ensures folders == BuildFolders([], sorted)
  {
    folders := [];
    var i := 0;
    while i < |sorted|
      invariant 0 <= i <= |sorted|
      invariant folders == BuildFolders([], sorted[..i])
    {
      var row := sorted[i];
      if row.key != "" {
        var parts := Split(row.key, '/');
        folders := EnsurePath(folders, parts[..|parts| - 1] + [row.name]);
      }
      assert sorted[..i + 1][..i] == sorted[..i];
      i := i + 1;
    }
    assert sorted[..i] == sorted;
  }

  /** The resume loop of `get_resumes`: `None` when it raises. */
  method PlaceRows(folders0: seq<Entry>, rows: seq<ResumeRow>) returns (listing: Option<Listing>)
    ensures listing == PlaceFiles(Listing([], folders0), PrepareAll(rows))
  {
    var start := Listing([], folders0);
    ghost var ps := PrepareAll(rows);
    var resumes: seq<FileEntry> := [];
    var folders := folders0;
    var j := 0;
    while j < |rows|
      invariant 0 <= j <= |rows|
      invariant PlaceFiles(start, ps[..j]) == Some(Listing(resumes, folders))
    {
      var p := PlaceRow(rows[j]);
      PrepareAllAt(rows, j);
      PlaceFilesStep(start, ps, j);
      if p.file.None? {
        PlaceFilesFailed(start, ps, j + 1);
        return None;
      }
      if p.folder != [] {
        folders := AddFile(folders, p.folder, p.file.value);
      } else {
        resumes := resumes + [p.file.value];
      }
      j := j + 1;
    }
    assert ps[..j] == ps;
    listing := Some(Listing(resumes, folders));
  }

  /** The body of the resume loop: the path's parts, the folder they name
      and the file entry, as the view computes them. */
  method PlaceRow(row: ResumeRow) returns (p: Placed)
    ensures p == Prepare(row)
  {
    var parts := PathSegments(row.url);
    var place := Classify(parts);
    var name := if row.filename != "" then Some(row.filename) else place.fallback;
    if name.None? {
      return Placed(row.id, None, place.folder);
    }
    p := Placed(row.id, Some(FileEntry(row.id, name.value, row.url, row.createdAt, row.updatedAt)), place.folder);
  }

  lemma PlaceFilesStep(start: Listing, ps: seq<Placed>, j: nat)
    requires j < |ps|
    ensures PlaceFiles(start, ps[..j + 1]) ==
            match PlaceFiles(start, ps[..j]) case None => None case Some(l) => PlaceFile(l, ps[j])
  {
    assert ps[..j + 1][..j] == ps[..j];
  }

  lemma {:induction false} PlaceFilesFailed(start: Listing, ps: seq<Placed>, j: nat)
    requires j <= |ps| && PlaceFiles(start, ps[..j]) == None
    ensures PlaceFiles(start, ps) == None
    decreases |ps| - j
  {
    if j < |ps| {
      assert ps[..j + 1][..j] == ps[..j];
      PlaceFilesFailed(start, ps, j + 1);
    } else {
      assert ps[..j] == ps;
    }
  }

  // Properties of the listing.

  function Ids(fs: seq<FileEntry>): seq<int>
  {
    seq(|fs|, i requires 0 <= i < |fs| => fs[i].id)
  }

  function PlacedIds(ps: seq<Placed>): seq<int>
  {
    if ps == [] then [] else PlacedIds(ps[..|ps| - 1]) + [ps[|ps| - 1].id]
  }

  function RowIds(rows: seq<ResumeRow>): seq<int>
  {
    if rows == [] then [] else RowIds(rows[..|rows| - 1]) + [rows[|rows| - 1].id]
  }

  lemma {:induction false} RowIdsPrepared(rows: seq<ResumeRow>)
    ensures PlacedIds(PrepareAll(rows)) == RowIds(rows)
    decreases |rows|
  {
    if rows != [] {
      var init := rows[..|rows| - 1];
      RowIdsPrepared(init);
      MappedPrefix(Prepare, rows, |rows| - 1);
      PrepareAllAt(rows, |rows| - 1);
    }
  }

  lemma IdsAppend(a: seq<FileEntry>, b: seq<FileEntry>)
    ensures Ids(a + b) == Ids(a) + Ids(b)
  {
    forall i | 0 <= i < |a + b| ensures Ids(a + b)[i] == (Ids(a) + Ids(b))[i] {
      if i >= |a| {
        assert (a + b)[i] == b[i - |a|];
      }
    }
  }

  /** The files of a listing: the root list, then the tree's. */
  function AllListed(l: Listing): seq<FileEntry>
  {
    l.resumes + AllFiles(l.folders)
  }

  /** Building the tree from the folder rows lists no file. */
  lemma {:induction false} BuildFoldersHasNoFiles(rows: seq<FolderRow>)
    ensures AllFiles(BuildFolders([], rows)) == []
    decreases |rows|
  {
    if rows != [] {
      BuildFoldersHasNoFiles(rows[..|rows| - 1]);
      var row := rows[|rows| - 1];
      if row.key != "" {
        EnsurePathKeepsFiles(BuildFolders([], rows[..|rows| - 1]), FolderPlace(row));
      }
    }
  }

  /** Placing one row adds exactly its id. */
  lemma AddsId(l: Listing, p: Placed)
    requires PlaceFile(l, p).Some?
    ensures multiset(Ids(AllListed(PlaceFile(l, p).value))) == multiset(Ids(AllListed(l))) + multiset{p.file.value.id}
  {
    if p.folder != [] {
      AddsIdInFolder(l, p.folder, p.file.value);
    } else {
      AddsIdAtRoot(l, p.file.value);
    }
  }

  lemma AddsIdInFolder(l: Listing, folder: seq<string>, f: FileEntry)
    requires folder != []
    ensures multiset(Ids(AllListed(Listing(l.resumes, AddFile(l.folders, folder, f)))))
            == multiset(Ids(AllListed(l))) + multiset{f.id}
  {
    var a := AllFiles(l.folders);
    var k := AddFileInserts(l.folders, folder, f);
    IdsConcat(l.resumes, a);
    IdsConcat(l.resumes, InsertAt(a, k, f));
    IdsInsert(a, k, f);
  }

  lemma AddsIdAtRoot(l: Listing, f: FileEntry)
    ensures multiset(Ids(AllListed(Listing(l.resumes + [f], l.folders))))
            == multiset(Ids(AllListed(l))) + multiset{f.id}
  {
    var a := AllFiles(l.folders);
    IdsConcat(l.resumes, a);
    IdsConcat(l.resumes + [f], a);
    IdsConcat(l.resumes, [f]);
    IdsOne(f);
  }

  lemma IdsConcat(a: seq<FileEntry>, b: seq<FileEntry>)
    ensures multiset(Ids(a + b)) == multiset(Ids(a)) + multiset(Ids(b))
  {
    IdsAppend(a, b);
  }

  lemma IdsInsert(a: seq<FileEntry>, k: nat, f: FileEntry)
    requires k <= |a|
    ensures multiset(Ids(InsertAt(a, k, f))) == multiset(Ids(a)) + multiset{f.id}
  {
    IdsSplit(a, k);
    IdsAppend(a[..k] + [f], a[k..]);
    IdsAppend(a[..k], [f]);
    IdsOne(f);
    MultisetInsert(Ids(a[..k]), Ids(a[k..]), f.id);
  }

  lemma IdsSplit(a: seq<FileEntry>, k: nat)
    requires k <= |a|
    ensures Ids(a) == Ids(a[..k]) + Ids(a[k..])
  {
    assert a[..k] + a[k..] == a;
    IdsAppend(a[..k], a[k..]);
  }

  lemma IdsOne(f: FileEntry)
    ensures Ids([f]) == [f.id]
  {
    assert [f][..0] == [];
  }

  lemma MultisetInsert(a: seq<int>, b: seq<int>, x: int)
    ensures multiset(a + [x] + b) == multiset(a + b) + multiset{x}
  {
  }

  /** A placed row's file entry, when it has one, carries the row's id. */
  predicate Consistent(ps: seq<Placed>)
  {
    ps != [] ==> Consistent(ps[..|ps| - 1])
                 && (ps[|ps| - 1].file.Some? ==> ps[|ps| - 1].file.value.id == ps[|ps| - 1].id)
  }

  /** Every placed row adds its own id, so the ids listed are those of
      the start plus those of the rows. */
  lemma {:induction false} PlaceFilesIds(start: Listing, ps: seq<Placed>)
    requires PlaceFiles(start, ps).Some? && Consistent(ps)
    ensures multiset(Ids(AllListed(PlaceFiles(start, ps).value)))
            == multiset(Ids(AllListed(start))) + multiset(PlacedIds(ps))
    decreases |ps|
  {
    if ps != [] {
      var init := ps[..|ps| - 1];
      PlaceFilesIds(start, init);
      AddsId(PlaceFiles(start, init).value, ps[|ps| - 1]);
    }
  }

  lemma {:induction false} PreparedConsistent(rows: seq<ResumeRow>)
    ensures Consistent(PrepareAll(rows))
    decreases |rows|
  {
    if rows != [] {
      var init := rows[..|rows| - 1];
      PreparedConsistent(init);
      MappedPrefix(Prepare, rows, |rows| - 1);
      PrepareAllAt(rows, |rows| - 1);
    }
  }

  /** Every resume row appears exactly once in the response: in the root
      list or in the files of exactly one node. */
  lemma EachResumeOnce(folderRows: seq<FolderRow>, resumeRows: seq<ResumeRow>)
    requires ListingOf(folderRows, resumeRows).Some?
    ensures var l := ListingOf(folderRows, resumeRows).value;
      multiset(Ids(l.resumes + AllFiles(l.folders))) == multiset(RowIds(resumeRows))
  {
    var start := Listing([], BuildFolders([], SortByDepth(folderRows)));
    BuildFoldersHasNoFiles(SortByDepth(folderRows));
    assert AllListed(start) == [];
    PreparedConsistent(resumeRows);
    PlaceFilesIds(start, PrepareAll(resumeRows));
    RowIdsPrepared(resumeRows);
  }

  /** Building the listing raises exactly when some row cannot be given a
      file entry. */
  lemma {:induction false} PlaceFilesFailsIff(start: Listing, ps: seq<Placed>)
    ensures PlaceFiles(start, ps).None? <==> exists k :: 0 <= k < |ps| && ps[k].file.None?
    decreases |ps|
  {
    if ps != [] {
      var init := ps[..|ps| - 1];
      PlaceFilesFailsIff(start, init);
      if exists k :: 0 <= k < |init| && init[k].file.None? {
        var k :| 0 <= k < |init| && init[k].file.None?;
        assert ps[k] == init[k];
      }
      if exists k :: 0 <= k < |ps| && ps[k].file.None? {
        var k :| 0 <= k < |ps| && ps[k].file.None?;
        if k < |init| {
          assert init[k] == ps[k];
        }
      }
    }
  }

  /** The response is a server error exactly when some resume row has no
      `filename` and a URL path of exactly bucket, username and "resumes". */
  lemma ListingFailsIff(folderRows: seq<FolderRow>, resumeRows: seq<ResumeRow>)
    ensures ListingOf(folderRows, resumeRows).None? <==>
            exists k :: 0 <= k < |resumeRows| && resumeRows[k].filename == ""
                        && |PathSegments(resumeRows[k].url)| == 3
                        && PathSegments(resumeRows[k].url)[2] == "resumes"
  {
    var ps := PrepareAll(resumeRows);
    PlaceFilesFailsIff(Listing([], BuildFolders([], SortByDepth(folderRows))), ps);
    forall k | 0 <= k < |resumeRows|
      ensures ps[k].file.None? <==>
              (resumeRows[k].filename == "" && |PathSegments(resumeRows[k].url)| == 3
               && PathSegments(resumeRows[k].url)[2] == "resumes")
    {
      PrepareAllAt(resumeRows, k);
    }
  }

  /** Every folder row with a non-empty key has its node once the folder
      rows are processed. */
  lemma {:induction false} BuildFoldersReaches(start: seq<Entry>, rows: seq<FolderRow>, k: nat)
    requires k < |rows| && rows[k].key != ""
    ensures Lookup(BuildFolders(start, rows), FolderPlace(rows[k])).Some?
    decreases |rows|
  {
    var init := rows[..|rows| - 1];
    var last := rows[|rows| - 1];
    if k == |rows| - 1 {
      EnsurePathReaches(BuildFolders(start, init), FolderPlace(last));
    } else {
      assert init[k] == rows[k];
      BuildFoldersReaches(start, init, k);
      if last.key != "" {
        EnsurePathKeepsNodes(BuildFolders(start, init), FolderPlace(last), FolderPlace(rows[k]));
      }
    }
  }

  /** Placing files keeps every node and every file already placed. */
  lemma {:induction false} PlaceFilesKeeps(start: Listing, ps: seq<Placed>, q: seq<string>, g: FileEntry)
    requires q != [] && PlaceFiles(start, ps).Some?
    ensures Lookup(start.folders, q).Some? ==> Lookup(PlaceFiles(start, ps).value.folders, q).Some?
    ensures g in FilesAt(start.folders, q) ==> g in FilesAt(PlaceFiles(start, ps).value.folders, q)
    ensures g in start.resumes ==> g in PlaceFiles(start, ps).value.resumes
    decreases |ps|
  {
    if ps != [] {
      var init := ps[..|ps| - 1];
      var p := ps[|ps| - 1];
      PlaceFilesKeeps(start, init, q, g);
      var l := PlaceFiles(start, init).value;
      if p.folder != [] {
        AddFileKeepsListed(l.folders, p.folder, p.file.value, q, g);
      }
    }
  }

  /** Every folder row with a non-empty key has its node in the response,
      at its parents' key segments followed by its name. */
  lemma FolderRowsListed(folderRows: seq<FolderRow>, resumeRows: seq<ResumeRow>, row: FolderRow)
    requires ListingOf(folderRows, resumeRows).Some?
    requires row in folderRows && row.key != ""
    ensures Lookup(ListingOf(folderRows, resumeRows).value.folders, FolderPlace(row)).Some?
  {
    var sorted := SortByDepth(folderRows);
    SortPermutes(folderRows);
    assert row in multiset(sorted);
    var k :| 0 <= k < |sorted| && sorted[k] == row;
    BuildFoldersReaches([], sorted, k);
    var start := Listing([], BuildFolders([], sorted));
    PlaceFilesKeeps(start, PrepareAll(resumeRows), FolderPlace(row), FileEntry(0, "", "", None, None));
  }

  lemma {:induction false} PlaceFilesPlaces(start: Listing, ps: seq<Placed>, k: nat)
    requires k < |ps| && PlaceFiles(start, ps).Some?
    ensures ps[k].file.Some?
    ensures var l := PlaceFiles(start, ps).value;
      if ps[k].folder != [] then ps[k].file.value in FilesAt(l.folders, ps[k].folder)
      else ps[k].file.value in l.resumes
    decreases |ps|
  {
    var init := ps[..|ps| - 1];
    var p := ps[|ps| - 1];
    var folder := ps[k].folder;
    if k == |ps| - 1 {
      var l := PlaceFiles(start, init).value;
      if folder != [] {
        AddFilePlaces(l.folders, folder, p.file.value);
      }
    } else {
      assert init[k] == ps[k];
      PlaceFilesPlaces(start, init, k);
      var l := PlaceFiles(start, init).value;
      PlaceFilesKeeps(l, [p], if folder != [] then folder else ["unused"], ps[k].file.value);
      assert [p][..0] == [];
    }
  }

  /** A resume whose URL classifies into folder path `p` is listed in the
      files of the node at `p`; one classified to the root is in the root
      list. */
  lemma ResumesPlaced(folderRows: seq<FolderRow>, resumeRows: seq<ResumeRow>, k: nat)
    requires k < |resumeRows| && ListingOf(folderRows, resumeRows).Some?
    ensures Prepare(resumeRows[k]).file.Some?
    ensures var p := Classify(PathSegments(resumeRows[k].url)).folder;
      var f := Prepare(resumeRows[k]).file.value;
      var l := ListingOf(folderRows, resumeRows).value;
      if p != [] then f in FilesAt(l.folders, p) else f in l.resumes
  {
    PrepareAllAt(resumeRows, k);
    PlaceFilesPlaces(Listing([], BuildFolders([], SortByDepth(folderRows))), PrepareAll(resumeRows), k);
  }

  /** The tree of the response is a nested dictionary: no name occurs twice
      among the children of any node. */
  lemma {:induction false} BuildFoldersKeyed(start: seq<Entry>, rows: seq<FolderRow>)
    requires Keyed(start)
    ensures Keyed(BuildFolders(start, rows))
    decreases |rows|
  {
    if rows != [] {
      BuildFoldersKeyed(start, rows[..|rows| - 1]);
      var row := rows[|rows| - 1];
      if row.key != "" {
        EnsurePathKeyed(BuildFolders(start, rows[..|rows| - 1]), FolderPlace(row));
      }
    }
  }

  lemma {:induction false} PlaceFilesKeyed(start: Listing, ps: seq<Placed>)
    requires Keyed(start.folders) && PlaceFiles(start, ps).Some?
    ensures Keyed(PlaceFiles(start, ps).value.folders)
    decreases |ps|
  {
    if ps != [] {
      var init := ps[..|ps| - 1];
      var p := ps[|ps| - 1];
      PlaceFilesKeyed(start, init);
      if p.folder != [] {
        AddFileKeyed(PlaceFiles(start, init).value.folders, p.folder, p.file.value);
      }
    }
  }

  lemma ListingKeyed(folderRows: seq<FolderRow>, resumeRows: seq<ResumeRow>)
    requires ListingOf(folderRows, resumeRows).Some?
    ensures Keyed(ListingOf(folderRows, resumeRows).value.folders)
  {
    BuildFoldersKeyed([], SortByDepth(folderRows));
    PlaceFilesKeyed(Listing([], BuildFolders([], SortByDepth(folderRows))), PrepareAll(resumeRows));
  }

  // How uploads and created folders meet the listing.

  /** An object stored by `upload_resume` under the folder path made of the
      clean segments `segs` (none for the root) is listed in the node at
      `segs`, under the name `timestamp_safename`, when its row has no
      `filename`. */
  lemma UploadedUrlClassified(scheme: string, host: string, bucket: string, username: string,
                              segs: seq<string>, timestamp: string, safeName: string)
    requires scheme == "http" || scheme == "https"
    requires CleanHost(host)
    requires CleanSegment(bucket) && CleanSegment(username) && CleanSegment(timestamp + "_" + safeName)
    requires AllClean(segs)
    ensures var url := MinioUtils.PublicUrl(Some(scheme + "://" + host), bucket,
                         UploadResume.ObjectName(username, Join(segs, "/"), timestamp, safeName));
      Classify(PathSegments(url)) == Placement(segs, Some(timestamp + "_" + safeName))
  {
    var file := timestamp + "_" + safeName;
    var all := [bucket, username, "resumes"] + segs + [file];
    var obj := UploadResume.ObjectName(username, Join(segs, "/"), timestamp, safeName);
    UploadedJoin(bucket, username, segs, timestamp, safeName);
    AllCleanUploaded(bucket, username, segs, file);
    PublicUrlShape(scheme + "://" + host, bucket, obj, Join(all, "/"));
    PathSegmentsOfHttp(scheme, host, all);
    ClassifyUploaded(bucket, username, segs, file);
  }

  lemma PublicUrlShape(base: string, bucket: string, obj: string, joined: string)
    requires joined == bucket + "/" + obj
    ensures MinioUtils.PublicUrl(Some(base), bucket, obj) == base + "/" + joined
  {
  }

  lemma ClassifyUploaded(bucket: string, username: string, segs: seq<string>, file: string)
    ensures Classify([bucket, username, "resumes"] + segs + [file]) == Placement(segs, Some(file))
  {
    var parts := [bucket, username, "resumes"] + segs + [file];
    assert parts[2..][1..] == segs + [file];
    assert (segs + [file])[..|segs|] == segs;
  }

  lemma UploadedJoin(bucket: string, username: string, segs: seq<string>, timestamp: string, safeName: string)
    requires AllClean(segs)
    ensures Join([bucket, username, "resumes"] + segs + [timestamp + "_" + safeName], "/")
            == bucket + "/" + UploadResume.ObjectName(username, Join(segs, "/"), timestamp, safeName)
  {
    var file := timestamp + "_" + safeName;
    var tail := segs + [file];
    assert [bucket, username, "resumes"] + segs + [file] == [bucket, username, "resumes"] + tail;
    JoinThree(bucket, username, tail);
    if segs == [] {
      assert tail == [file];
      assert Join(tail, "/") == file && Join(segs, "/") == "";
      ObjectNameAtRoot(bucket, username, timestamp, safeName);
    } else {
      JoinSnoc(segs, file, "/");
      assert Join(segs, "/") != "" by {
        AllCleanAt(segs);
        JoinHead(segs, "/");
      }
      ObjectNameInFolder(bucket, username, Join(segs, "/"), timestamp, safeName);
    }
  }

  lemma JoinThree(bucket: string, username: string, tail: seq<string>)
    requires tail != []
    ensures Join([bucket, username, "resumes"] + tail, "/")
            == bucket + "/" + (username + "/" + ("resumes" + "/" + Join(tail, "/")))
  {
    assert [bucket, username, "resumes"] + tail == [bucket] + ([username] + (["resumes"] + tail));
    JoinCons(bucket, [username] + (["resumes"] + tail), "/");
    JoinCons(username, ["resumes"] + tail, "/");
    JoinCons("resumes", tail, "/");
  }

  lemma ObjectNameAtRoot(bucket: string, username: string, timestamp: string, safeName: string)
    ensures bucket + "/" + (username + "/" + ("resumes" + "/" + (timestamp + "_" + safeName)))
            == bucket + "/" + UploadResume.ObjectName(username, "", timestamp, safeName)
  {
  }

  lemma ObjectNameInFolder(bucket: string, username: string, fp: string, timestamp: string, safeName: string)
    requires fp != ""
    ensures bucket + "/" + (username + "/" + ("resumes" + "/" + (fp + "/" + (timestamp + "_" + safeName))))
            == bucket + "/" + UploadResume.ObjectName(username, fp, timestamp, safeName)
  {
  }

  /** A join starts with its first part. */
  lemma JoinHead(parts: seq<string>, sep: string)
    requires parts != []
    ensures |Join(parts, sep)| >= |parts[0]|
  {
  }

  lemma {:induction false} AllCleanSnoc(segs: seq<string>, last: string)
    requires AllClean(segs) && CleanSegment(last)
    ensures AllClean(segs + [last])
    decreases |segs|
  {
    if segs == [] {
      assert [last][1..] == [];
    } else {
      AllCleanSnoc(segs[1..], last);
      assert (segs + [last])[1..] == segs[1..] + [last];
    }
  }

  lemma AllCleanUploaded(bucket: string, username: string, segs: seq<string>, file: string)
    requires CleanSegment(bucket) && CleanSegment(username) && CleanSegment(file) && AllClean(segs)
    ensures AllClean([bucket, username, "resumes"] + segs + [file])
  {
    var tail := segs + [file];
    AllCleanSnoc(segs, file);
    assert CleanSegment("resumes");
    var all := [bucket, username, "resumes"] + tail;
    assert all == [bucket, username, "resumes"] + segs + [file];
    assert all[1..] == [username, "resumes"] + tail;
    assert all[1..][1..] == ["resumes"] + tail;
    assert all[1..][1..][1..] == tail;
  }

  /** The node a folder row goes to is the '/'-split of its key: for a
      folder made by `create_folder` under `parent`, the parent's segments
      followed by the folder's name. */
  lemma CreatedFolderPlace(id: int, parent: string, name: string)
    requires CreateFolder.PyNameMatches(name)
    ensures var key := CreateFolder.FolderKey(parent, name);
      FolderPlace(FolderRow(id, name, key)) == Split(key, '/')
  {
    var key := CreateFolder.FolderKey(parent, name);
    CreateFolder.KeySegments(parent, name);
    var parts := Split(key, '/');
    if parent != "" {
      assert parts[..|parts| - 1] == Split(parent, '/');
    }
  }

  /** A resume uploaded into a folder made by `create_folder` is listed in
      that folder's node, when every segment of the key is clean. */
  lemma UploadIntoCreatedFolder(scheme: string, host: string, bucket: string, username: string,
                                id: int, parent: string, name: string, timestamp: string, safeName: string)
    requires scheme == "http" || scheme == "https"
    requires CleanHost(host)
    requires CleanSegment(bucket) && CleanSegment(username) && CleanSegment(timestamp + "_" + safeName)
    requires CreateFolder.PyNameMatches(name)
    requires AllClean(Split(CreateFolder.FolderKey(parent, name), '/'))
    ensures var key := CreateFolder.FolderKey(parent, name);
      var url := MinioUtils.PublicUrl(Some(scheme + "://" + host), bucket,
                   UploadResume.ObjectName(username, key, timestamp, safeName));
      Classify(PathSegments(url)).folder == FolderPlace(FolderRow(id, name, key))
  {
    var key := CreateFolder.FolderKey(parent, name);
    var segs := Split(key, '/');
    SplitJoin(key, '/');
    assert Join(segs, "/") == key;
    UploadedUrlClassified(scheme, host, bucket, username, segs, timestamp, safeName);
    CreatedFolderPlace(id, parent, name);
  }
}
