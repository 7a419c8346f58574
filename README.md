# Resume generator: a Dafny model of its file store, generation pipeline and editor helpers

The resume generator is a Django backend with a Next.js frontend. Users keep resumes in a virtual
folder tree stored in an object bucket, and have resumes written section by section by a language
model. The answers stream back to the browser as Server-Sent Events. Demo users get a token that allows
five generations. In the browser, a rich-text editor holds the resume with its own formatting
extensions, a converter turns the editor's HTML into PDF elements, and a small store keeps the
signed-in user.

This project models the core of that system in Dafny and proves what it promises:

- **File store** (`upload.dfy`, `create_folder.dfy`, `listing.dfy`, `folder_tree.dfy`, `urls.dfy`, `minio.dfy`):
  - upload validation and the object name;
  - folder-name validation and the folder key;
  - the listing that turns flat folder and resume rows into a nested tree. It is a method with the
    view's loops, proved against a function, and every resume is listed exactly once;
  - the path that Python's `urlparse` extracts from a stored URL (section 3.3 of RFC 3986);
  - the object-store endpoint and SSL settings.
- **Generation** (`sections.dfy`, `stream.dfy`, `tokens.dfy`):
  - a profile broken into summary, experience and project sections;
  - the event stream (2N+2 events for N sections, framed as in section 9.2 of the WHATWG HTML Living
    Standard);
  - the demo rate limiter;
  - the demo-token table as a class whose methods sweep, look up, create, increment and count rows.
- **Frontend components** (`folder_row.dfy`, `folder_paths.dfy`, `upload_dialog.dfy`,
  `create_folder_dialog.dfy`, `copy_dialog.dfy`, `rename_file_dialog.dfy`,
  `rename_folder_dialog.dfy`, `user_store.dfy`):
  - the recursive file count;
  - the folder drop-down, built by a recursive traversal that pushes onto a shared list;
  - the dialogs' state and handlers as classes;
  - the rename checks;
  - the user store.
- **Editor extensions and PDF converter** (`editor_doc.dfy`, `horizontal_rule.dfy`,
  `paragraph_spacing.dfy`, `line_height.dfy`, `font_size.dfy`, `font_family.dfy`, `inline_style.dfy`,
  `pdf_style.dfy`, `pdf_generator.dfy`):
  - how each attribute is rendered to HTML and parsed back, with round-trip lemmas;
  - the commands as methods on a transaction object, including the nearest-rule search;
  - the PDF converter's inline-style reader, JavaScript's `parseInt`, text trimming, the
    first-element rule and the top-level loop.

`strings.dfy` and `wrappers.dfy` hold the Python and JavaScript string operations the code relies on,
and `Option`/`Result`.

Three facts about the code shape the model:

- Uploads check the requested path directly against the profile's folder keys. There is no
  name-to-key resolver.
- No query filters deleted rows.
- In the listing, files are placed by the segments of their URL. A folder's own node is named by its
  `folder_name`, while the intermediate nodes are named by key segments.

## Model

| member | source | states |
|---|---|---|
| Strings.ParsePyIntDigits | backend/api/file_storage_views.py:31 | `int()` reads a plain run of decimal digits as its value |
| Strings.ParsePyIntGrouped | backend/api/file_storage_views.py:31 | `int()` reads digits around one underscore as the digits alone ("1_000" is 1000) |
| Strings.ParsePyIntDoubleUnderscore | backend/api/file_storage_views.py:31 | `int()` refuses two underscores in a row |
| StoreTables.UserIdOf | backend/api/file_storage_views.py:21-36 | accepted exactly when `user_id` is non-empty and `int()` reads it, giving the value read; a missing (empty) `user_id` and one that is not an integer are told apart |
| UploadResume.Extension | backend/api/file_storage_views.py:64 | `splitext` gives "" or a suffix of the name starting with its only dot, holding no '/' |
| UploadResume.SafeName | backend/api/file_storage_views.py:130 | same length, no space left, every other character kept |
| UploadResume.Validate | backend/api/file_storage_views.py:21-70 | each of the six errors (missing `user_id`, not an integer, no file, empty file, over 10 MiB, extension not .pdf/.doc/.docx after lower-casing) is reported exactly when the earlier checks pass and its own fails; accepted exactly when all six pass, with the parsed id and the file |
| UploadResume.Upload | backend/api/file_storage_views.py:72-185 | each outcome exactly when every earlier step passed and its own failed: the validator's error (400), unknown user, missing profile, a non-empty stripped `folder_path` that is no folder key of the profile (404 each), the storage write failing (500), the insert failing (500), and otherwise 201 with the insert's id |
| UploadResume.ValidationBeforeLookup | backend/api/file_storage_views.py:19-70 | a table-free refusal happens before any query or write: tables, clock and storage outcomes do not change it |
| UploadResume.SizeBoundary | backend/api/file_storage_views.py:47-60 | exactly 10 MiB is accepted, one byte more is `FileTooLarge`, zero bytes is `EmptyFile` |
| UploadResume.UploadedObject | backend/api/file_storage_views.py:100-177 | an accepted upload stores `username/resumes/[folder/]timestamp_name` in an existing folder of the profile, with its extension's content type (never octet-stream), and records the public URL and the space-free name |
| UploadResume.KnownContentType | backend/api/file_storage_views.py:139-144 | each accepted extension has its own content type |
| UploadResume.ExtensionOf | backend/api/file_storage_views.py:64 | `stem.ext` has extension `.ext` |
| UploadResume.DotFileHasNoExtension | backend/api/file_storage_views.py:64-70 | a name like ".pdf" has no extension, so it is refused |
| UploadResume.UpperCaseAccepted | backend/api/file_storage_views.py:63-66 | "cv.PDF" passes validation: the extension is lower-cased first |
| CreateFolder.Validate | backend/api/file_storage_views.py:383-413 | each of the four errors (missing `user_id`, missing `folder_name`, `user_id` not an integer, name not matching `^[a-zA-Z0-9_-]+$` with Python's `$`) is reported exactly when the earlier checks pass and its own fails; accepted exactly when all four pass, with the parsed id |
| CreateFolder.Create | backend/api/file_storage_views.py:415-527 | each outcome exactly when every earlier step passed and its own failed: the validator's error (400), unknown user, missing profile (404 each), a recorded key or a listing hit (409), the placeholder write failing (500), and otherwise 201 whether or not the insert succeeded; `folder_id` is the insert's id, None after a failed insert |
| CreateFolder.ExistingKeyConflicts | backend/api/file_storage_views.py:454-468 | a key the profile already has gives 409 whatever the bucket does |
| CreateFolder.CreatedFolder | backend/api/file_storage_views.py:428-527 | a created folder was not yet recorded, its key is `parent/name` or `name`, its placeholder is `folder_path/.keep`, its row names the profile, and the status is 201 |
| CreateFolder.PathsAgree | backend/api/file_storage_views.py:428-437 | folder path is `username/resumes/<key>`; placeholder and listing prefix sit directly under it |
| CreateFolder.KeySegments | backend/api/file_storage_views.py:430-437 | splitting the key on '/' gives the parent's segments followed by the name |
| CreateFolder.TrailingNewlineAdmitted | backend/api/file_storage_views.py:409 | Python's `$` admits one trailing newline after a valid name, not two |
| ResumeListing.InsertByDepth | backend/api/file_storage_views.py:273 | inserting a row into the sorted prefix adds exactly that row |
| ResumeListing.SortIsSorted | backend/api/file_storage_views.py:273 | the folder rows come out ordered by the number of '/' in their key |
| ResumeListing.SortPermutes | backend/api/file_storage_views.py:273 | the sort is a permutation of the rows |
| ResumeListing.SortIsStable | backend/api/file_storage_views.py:273 | rows of equal depth keep their query order (Python's sort is stable) |
| ResumeListing.FolderPlace | backend/api/file_storage_views.py:281-296 | a folder row's node is reached by its key's parent segments and is named by `folder_name` |
| ResumeListing.Classify | backend/api/file_storage_views.py:335-362 | the only URL path with no fallback file name is exactly bucket/username/resumes; a folder placement needs at least four segments |
| ResumeListing.Prepare | backend/api/file_storage_views.py:319-362 | a row's entry keeps its id and URL, prefers the stored `filename`, and is missing exactly for the path that makes the view raise |
| ResumeListing.ListResumes | backend/api/file_storage_views.py:199-373 | 400 exactly for an id `int()` refuses, 404 exactly for an unknown user, empty results for a user without a profile, a server error exactly when the profile's listing raises, and otherwise that listing |
| ResumeListing.GetResumes | backend/api/file_storage_views.py:194-373 | the view's steps (id check, user, profile, sort, folder loop, resume loop) compute ListResumes, so each outcome above holds for the view |
| ResumeListing.BuildTree | backend/api/file_storage_views.py:275-296 | the folder loop builds the tree the fold over the sorted rows describes |
| ResumeListing.PlaceRows | backend/api/file_storage_views.py:319-362 | the resume loop places the rows in order, stopping at the first that raises |
| ResumeListing.PlaceRow | backend/api/file_storage_views.py:320-362 | the loop body computes the row's path parts, folder and file entry |
| ResumeListing.PlaceFilesIds | backend/api/file_storage_views.py:298-362 | placing the rows adds exactly their ids to the listed files |
| ResumeListing.EachResumeOnce | backend/api/file_storage_views.py:298-367 | every resume row is listed exactly once, in the root list or in one node |
| ResumeListing.PlaceFilesFailsIff | backend/api/file_storage_views.py:339-354 | the resume loop raises exactly when some row has no file entry |
| ResumeListing.ListingFailsIff | backend/api/file_storage_views.py:339-373 | the response is a server error exactly when some row has no `filename` and its URL path is exactly bucket/username/resumes |
| ResumeListing.BuildFoldersHasNoFiles | backend/api/file_storage_views.py:275-296 | the folder loop lists no file |
| ResumeListing.BuildFoldersReaches | backend/api/file_storage_views.py:275-296 | every folder row with a key has its node after the folder loop |
| ResumeListing.PlaceFilesKeeps | backend/api/file_storage_views.py:298-316 | placing files never removes a node or a file |
| ResumeListing.FolderRowsListed | backend/api/file_storage_views.py:275-367 | every folder row with a key has its node in the response |
| ResumeListing.PlaceFilesPlaces | backend/api/file_storage_views.py:335-362 | each placed row's file is in the node its path names, or in the root list |
| ResumeListing.ResumesPlaced | backend/api/file_storage_views.py:319-367 | a resume is listed in the node its URL names, or at the root |
| ResumeListing.ListingKeyed | backend/api/file_storage_views.py:262-316 | no node of the response has two children with the same name |
| ResumeListing.UploadedUrlClassified | backend/api/file_storage_views.py:324-350 | the public URL of an uploaded object is listed under its folder segments with name `timestamp_safename` |
| ResumeListing.ClassifyUploaded | backend/api/file_storage_views.py:335-350 | `bucket/username/resumes/segs/file` is placed at `segs` with name `file` |
| ResumeListing.CreatedFolderPlace | backend/api/file_storage_views.py:281-296 | a folder made by `create_folder` sits at the '/'-split of its key |
| ResumeListing.UploadIntoCreatedFolder | backend/api/file_storage_views.py:128-136 | a resume uploaded into a created folder is listed in that folder's node (clean segments) |
| FolderTree.IndexOfName | backend/api/file_storage_views.py:266 | `name in mapping`: the first entry with that name, or -1 when none has it |
| FolderTree.EnsurePathKeepsFiles | backend/api/file_storage_views.py:262-269 | `ensure_folder_path` never loses, adds or reorders a file |
| FolderTree.EnsurePathReaches | backend/api/file_storage_views.py:262-269 | afterwards the whole path exists |
| FolderTree.EnsureExistingPath | backend/api/file_storage_views.py:266-267 | an existing path is left exactly as it is |
| FolderTree.EnsurePathIdempotent | backend/api/file_storage_views.py:262-269 | ensuring a path twice is ensuring it once |
| FolderTree.EnsurePathKeepsNodes | backend/api/file_storage_views.py:262-269 | every existing node survives with its files |
| FolderTree.EnsurePathKeyed | backend/api/file_storage_views.py:266-267 | names stay keys (a dictionary never holds a name twice) |
| FolderTree.AddFileInserts | backend/api/file_storage_views.py:298-316 | `add_file_to_folder` inserts exactly that one file into the flattened listing, keeping the others in order |
| FolderTree.AddFileAddsOne | backend/api/file_storage_views.py:298-316 | counted with multiplicity, exactly the file is added |
| FolderTree.AddFilePlaces | backend/api/file_storage_views.py:306-316 | the file lands at the end of the files of the node at the path, which now exists |
| FolderTree.AddFileKeepsNodes | backend/api/file_storage_views.py:306-316 | other nodes keep their files |
| FolderTree.AddFileKeepsListed | backend/api/file_storage_views.py:306-316 | no node and no file already listed is lost |
| FolderTree.AddFileKeyed | backend/api/file_storage_views.py:307-310 | names stay keys |
| MinioUtils.UseSslIgnoresCase | backend/api/minio_utils.py:14-15 | the SSL flag does not depend on letter case |
| MinioUtils.LowerIdempotent | backend/api/minio_utils.py:14 | lower-casing twice is lower-casing once |
| MinioUtils.UseSslDefaultOff | backend/api/minio_utils.py:14-15 | an unset variable means no SSL |
| MinioUtils.UseSslExamples | backend/api/minio_utils.py:14-15 | "TRUE" and "Yes" switch SSL on, "0" does not |
| MinioUtils.ParseEndpoint | backend/api/minio_utils.py:18-31 | an unset or empty endpoint gives no host and port; a parsed host is non-empty and holds no ':' |
| MinioUtils.HostAndPort | backend/api/minio_utils.py:24-29 | the host is the first part, or "localhost" when it is empty; a non-empty second part gives the port `int()` reads, and the call fails exactly when `int()` refuses it; otherwise the port is 443 with SSL and 9000 without |
| MinioUtils.StripSchemeMarkers | backend/api/minio_utils.py:23 | removing the scheme markers from `scheme + rest` leaves `rest` when `rest` holds neither marker |
| MinioUtils.ParseEndpointWithPort | backend/api/minio_utils.py:18-31 | `host:port`, behind an optional http or https scheme, parses to that host and port |
| MinioUtils.ParseEndpointWithoutPort | backend/api/minio_utils.py:18-31 | a bare `host`, behind an optional http or https scheme, gets port 443 with SSL, 9000 without |
| MinioUtils.HostAndPortDigits | backend/api/minio_utils.py:24-29 | a host and a rendered port number read back as that endpoint |
| MinioUtils.PublicUrlNamesObject | backend/api/minio_utils.py:131-133 | the URL is `<base>/<bucket>/` followed by the object name, so the name reads back and, for one base and bucket, distinct objects get distinct URLs |
| ResumeSections.SummarySection | backend/api/helpers.py:292-325 | the summary section is kind "summary" titled "Professional Summary" |
| ResumeSections.ExperienceSections | backend/api/helpers.py:328-367 | one section per experience |
| ResumeSections.ProjectSections | backend/api/helpers.py:370-415 | one section per project |
| ResumeSections.PrepareResumeSections | backend/api/helpers.py:283-417 | the two loops build exactly the section list, whatever `prompt` is |
| ResumeSections.SectionCount | backend/api/helpers.py:283-417 | 1 + number of experiences + number of projects sections |
| ResumeSections.SummaryFirst | backend/api/helpers.py:292-325 | the first section is the summary; its data holds bio and introduction as read ("" when absent, `None` when null) and its prompt shows them, `None` as "None" |
| ResumeSections.ExperienceAt | backend/api/helpers.py:331-367 | section 1+k is experience k, titled `Work Experience k+1`, indexed k, its data naming the company as read; the prompt shows company, role and description, `None` as "None" |
| ResumeSections.ProjectAt | backend/api/helpers.py:373-415 | section 1+E+k is project k, titled `Project k+1`, its data naming the project as read; the prompt shows name and description, `None` as "None" |
| ResumeSections.NullShownAsNone | backend/api/helpers.py:332-352 | a NULL company is `None` in the data and "None" in the prompt, a NULL role or description "None"; only an absent key gives "" |
| ResumeSections.SectionOrder | backend/api/helpers.py:283-417 | kinds come in the order summary, experiences, projects, and each position's kind is determined |
| ResumeSections.JobInEveryPrompt | backend/api/helpers.py:304-414 | every prompt contains the job description verbatim |
| ResumeStream.RateLimit | backend/api/resume_views.py:25-69 | (False, 0) with no write for an empty token, a failed verification, a missing or empty `ip` claim or no live row; with a live row holding c, allowed exactly when c < 5, reporting c+1, else reporting c; a refusal writes nothing |
| ResumeStream.CheckDemoRateLimit | backend/api/resume_views.py:25-69 | the method against the token table returns the decision and leaves the rows the decision describes |
| ResumeStream.RateLimitAt | backend/api/resume_views.py:41-69 | with a live row holding c: refused reporting c when c is at least 5, else allowed reporting c+1 and storing it |
| ResumeStream.RunsUpToLimit | backend/api/resume_views.py:57-69 | from count c, exactly 5-c calls are allowed, reporting c+1 … 5, then one is refused reporting 5 |
| ResumeStream.FiveThenRefused | backend/api/resume_views.py:57-69 | a fresh token answers (true,1) … (true,5) and then (false,5) |
| ResumeStream.RunsPrefix | backend/api/resume_views.py:25-69 | fewer calls answer with a prefix of the answers of more calls |
| ResumeStream.AllowedCountInRange | backend/api/resume_views.py:57-69 | an allowed count lies in 1..5 and is what the row now holds |
| ResumeStream.AllowedWrites | backend/api/resume_views.py:60-67 | an allowed call always changes the stored count |
| ResumeStream.SectionEvents | backend/api/resume_views.py:126-177 | two events per section |
| ResumeStream.DetailAt | backend/api/resume_views.py:151-156 | the `section` event of experience k carries its company as read (JSON `null` for a NULL column) and index k; that of project k its name the same way |
| ResumeStream.GenerateResumeStream | backend/api/resume_views.py:72-182 | the generator's steps produce exactly the events and token rows of the stream function |
| ResumeStream.GenerateSections | backend/api/resume_views.py:119-179 | the section loop produces the generation's events |
| ResumeStream.GenerationShape | backend/api/resume_views.py:119-179 | 2N+2 events for N sections: `progress` 0 first, `complete` with the accumulated keys last |
| ResumeStream.SectionEventsAt | backend/api/resume_views.py:126-177 | section i yields its `progress`, then `section` on success or `section_error` on failure, and the loop goes on |
| ResumeStream.ChecksEndWithOneError | backend/api/resume_views.py:85-117 | every failed check ends the stream with exactly one `error` event; otherwise the stream is the generation |
| ResumeStream.GatePassesIff | backend/api/resume_views.py:85-117 | the checks pass exactly when the fields are present, a demo user is allowed, `user_id` is an integer, the service is configured and the user has data |
| ResumeStream.GateWritesOnlyForDemo | backend/api/resume_views.py:89-98 | only an allowed demo request changes the token rows |
| ResumeStream.DemoCounterSpentOnBadUserId | backend/api/resume_views.py:89-104 | a demo request refused for its `user_id` has already spent a generation |
| ResumeStream.KeysDistinct | backend/api/resume_views.py:158-170 | the accumulated keys `summary`, `experience_<k>`, `project_<k>` of one profile are pairwise distinct |
| ResumeStream.NatToStringInjective | backend/api/resume_views.py:159 | distinct indexes render differently |
| ResumeStream.AccumulatedAreSuccesses | backend/api/resume_views.py:158-170 | with distinct keys, the dictionary's keys are those of the successful sections, in order |
| ResumeStream.CompleteListsSuccesses | backend/api/resume_views.py:179 | `complete.sections` lists the keys of the successful sections, in order |
| ResumeStream.UnframeFramed | backend/api/resume_views.py:86-182 | newline-free payloads framed as `data: …` plus a blank line read back one for one |
| ResumeStream.UnframeStep | backend/api/resume_views.py:122 | reading one frame gives its payload and leaves the rest |
| TokenManagement.Swept | backend/api/token_management_views.py:35-38 | the sweep never grows the table |
| TokenManagement.FirstMatch | backend/api/token_management_views.py:170-178 | `fetchone()` of the token-and-IP lookup: the first live matching row, and no match means no row matches |
| TokenManagement.LatestFor | backend/api/token_management_views.py:40-49 | the found row is a live row of the IP |
| TokenManagement.Bumped | backend/api/token_management_views.py:190-194 | the update keeps the number of rows |
| TokenManagement.Recounted | backend/api/resume_views.py:62-67 | the rate limiter's update keeps the number of rows |
| TokenManagement.TokenTable.constructor | backend/api/token_management_views.py:22-280 | an empty, valid table |
| TokenManagement.TokenTable.Sweep | backend/api/token_management_views.py:35-38 | rows become the swept rows; the count is the number of expired rows |
| TokenManagement.TokenTable.GetTokenByIp | backend/api/token_management_views.py:22-62 | 400 without an IP and no change; otherwise the sweep, then 200 with the newest live row of the IP or 404 |
| TokenManagement.TokenTable.CreateOrGetToken | backend/api/token_management_views.py:70-140 | 400 exactly for a missing token or IP, an unverifiable token or an IP mismatch, with no change; 200 returns the newest live row after the sweep; 201 appends a row with count 0 expiring an hour from now |
| TokenManagement.TokenTable.IncrementGenerationCount | backend/api/token_management_views.py:148-199 | 400 exactly for a missing or unverifiable token; 200 exactly when a live row matches the token and the claimed IP, and it then adds one to the first such row, with no ceiling; otherwise 404 or 400 and nothing changes |
| TokenManagement.TokenTable.CheckGenerationLimit | backend/api/token_management_views.py:207-251 | read-only; 200 exactly when a live row matches, reporting its count; `limit_reached` exactly when that count is at least 5; the status is 400, 404 or 200 |
| TokenManagement.TokenTable.CleanupExpiredTokens | backend/api/token_management_views.py:259-274 | the sweep, reporting how many rows went |
| TokenManagement.SweptKeeps | backend/api/token_management_views.py:264-267 | a row survives the sweep exactly when it was there and has not expired |
| TokenManagement.SweptSize | backend/api/token_management_views.py:264-269 | kept plus deleted is the old number of rows |
| TokenManagement.ExpiringNowIsKeptButNotFound | backend/api/token_management_views.py:35-47 | a row expiring exactly now is neither swept (`<`) nor found (`>`) |
| TokenManagement.LatestIsNewest | backend/api/token_management_views.py:40-49 | a row is found exactly when the IP has a live row, and it is the newest |
| TokenManagement.BumpedChangesOne | backend/api/token_management_views.py:190-194 | only the row with that id changes, by one |
| TokenManagement.RecountedFoundAgain | backend/api/resume_views.py:41-67 | after the rate limiter's update the same row is found again, holding the new count |
| TokenManagement.SweptValid | backend/api/token_management_views.py:35-38 | the sweep keeps ids distinct and counts non-negative |
| TokenManagement.BumpedValid | backend/api/token_management_views.py:190-194 | the increment keeps ids distinct and counts non-negative |
| FolderRowView.CountAllFiles | frontend-next/src/app/resume/components/FolderRow.tsx:41-47 | the loop of recursive calls returns the number of files in the folder's whole subtree |
| FolderRowView.TotalCountsListed | frontend-next/src/app/resume/components/FolderRow.tsx:41-47 | the count is the number of files the subtree lists |
| FolderRowView.TotalBounds | frontend-next/src/app/resume/components/FolderRow.tsx:41-47 | the count is at least the folder's own files and at least every subfolder's count |
| FolderRowView.SingularIffOneFile | frontend-next/src/app/resume/components/FolderRow.tsx:80 | the label reads "file" exactly when the subtree holds one file |
| FolderRowView.RenameClick | frontend-next/src/app/resume/components/FolderRow.tsx:90-96 | the rename callback fires exactly when it is given and the folder has a key, with that key and name; otherwise only a log |
| FolderRowView.DeleteReportsSubtree | frontend-next/src/app/resume/components/FolderRow.tsx:103-109 | the delete callback fires exactly when it is given and the folder has a key, reporting the whole subtree's file count |
| FolderPaths.PathList.constructor | frontend-next/src/app/resume/components/UploadFileDialog.tsx:62 | the list starts with the root entry alone |
| FolderPaths.PathList.Traverse | frontend-next/src/app/resume/components/UploadFileDialog.tsx:64-73 | `traverse` appends the pre-order paths of the mapping, in entry order |
| FolderPaths.GetAllFolderPaths | frontend-next/src/app/resume/components/UploadFileDialog.tsx:58-77 | the root entry first, then one entry per folder node |
| FolderPaths.TraverseStep | frontend-next/src/app/resume/components/UploadFileDialog.tsx:65-71 | one turn of the `forEach` pushes the next folder's subtree |
| FolderPaths.PathsCount | frontend-next/src/app/resume/components/UploadFileDialog.tsx:64-73 | every folder node contributes exactly one path |
| FolderPaths.PreOrder | frontend-next/src/app/resume/components/UploadFileDialog.tsx:64-73 | a folder's path comes right before the paths of its subfolders |
| FolderPaths.PathsExtendParent | frontend-next/src/app/resume/components/UploadFileDialog.tsx:66 | below a non-empty path every path starts with that path and '/' |
| FolderPaths.SelectionPassesPath | frontend-next/src/app/resume/components/UploadFileDialog.tsx:58-115 | the root entry passes ""; entry i>0 passes the (i-1)-th folder path unless that path is "root" |
| FolderPaths.FolderNamedRootMeansRoot | frontend-next/src/app/resume/components/UploadFileDialog.tsx:115 | a top-level folder named "root" is listed but passes "", like the root entry |
| UploadDialog.SelectionError | frontend-next/src/app/resume/components/UploadFileDialog.tsx:81-104 | a type error exactly when both MIME type and extension are outside the allowed sets; a size error exactly when the type passes and the size exceeds 10 MiB; no message otherwise |
| UploadDialog.ServerAcceptedPassesDialog | frontend-next/src/app/resume/components/UploadFileDialog.tsx:89-103 | every file the server accepts passes the dialog's checks |
| UploadDialog.MimeTypeSuffices | frontend-next/src/app/resume/components/UploadFileDialog.tsx:93 | an allowed MIME type passes whatever the name |
| UploadDialog.UploadFileDialog.constructor | frontend-next/src/app/resume/components/UploadFileDialog.tsx:41-43 | "root", no file, no message |
| UploadDialog.UploadFileDialog.Close | frontend-next/src/app/resume/components/UploadFileDialog.tsx:46-55 | closing resets the destination, the file and the message |
| UploadDialog.UploadFileDialog.SelectFolder | frontend-next/src/app/resume/components/UploadFileDialog.tsx:163 | only the destination changes |
| UploadDialog.UploadFileDialog.FileSelect | frontend-next/src/app/resume/components/UploadFileDialog.tsx:81-104 | no file changes nothing; a file is kept and the message is the selection check's |
| UploadDialog.UploadFileDialog.Upload | frontend-next/src/app/resume/components/UploadFileDialog.tsx:106-129 | no file: the message and no call; otherwise the call gets the file and the selected path, and success resets and closes while failure keeps the state |
| CreateFolderDialog.JsNameImpliesServerName | frontend-next/src/app/resume/components/CreateFolderDialog.tsx:86-87 | every name the dialog accepts passes the server's check |
| CreateFolderDialog.CheckName | frontend-next/src/app/resume/components/CreateFolderDialog.tsx:79-90 | accepted exactly when the trimmed name matches the pattern, passing the trimmed name; the empty-name message exactly for a blank name, the bad-name message for any other refusal |
| CreateFolderDialog.CreateFolderDialog.constructor | frontend-next/src/app/resume/components/CreateFolderDialog.tsx:43-45 | empty name, "root", no message |
| CreateFolderDialog.CreateFolderDialog.Close | frontend-next/src/app/resume/components/CreateFolderDialog.tsx:47-53 | closing resets the three fields |
| CreateFolderDialog.CreateFolderDialog.Type | frontend-next/src/app/resume/components/CreateFolderDialog.tsx:135-138 | typing replaces the name and clears the message; the parent is kept |
| CreateFolderDialog.CreateFolderDialog.SelectParent | frontend-next/src/app/resume/components/CreateFolderDialog.tsx:117 | only the parent changes |
| CreateFolderDialog.CreateFolderDialog.Create | frontend-next/src/app/resume/components/CreateFolderDialog.tsx:79-103 | the callback fires exactly for an accepted name, with the trimmed name and the selected parent; success resets and closes, failure keeps the state |
| CopyDialog.CopyFileDialog.constructor | frontend-next/src/app/resume/components/CopyFileDialog.tsx:43-44 | "root" and no message |
| CopyDialog.CopyFileDialog.Close | frontend-next/src/app/resume/components/CopyFileDialog.tsx:46-51 | closing resets both fields |
| CopyDialog.CopyFileDialog.SelectFolder | frontend-next/src/app/resume/components/CopyFileDialog.tsx:109 | only the destination changes |
| CopyDialog.CopyFileDialog.Copy | frontend-next/src/app/resume/components/CopyFileDialog.tsx:77-91 | `onCopy` gets the selected path ("" for root); success resets and closes, failure keeps the selection |
| CopyDialog.CopyTargetIsListedPath | frontend-next/src/app/resume/components/CopyFileDialog.tsx:54-91 | copying into a listed folder passes that folder's full path |
| RenameFolderDialog.CheckRename | frontend-next/src/app/resume/components/RenameFolderDialog.tsx:40-50 | accepted exactly when the trimmed name matches the pattern; the empty-name message exactly for a blank name, the bad-name message for any other refusal |
| RenameFolderDialog.UnchangedNameAccepted | frontend-next/src/app/resume/components/RenameFolderDialog.tsx:33-55 | confirming the offered name of a valid folder renames it to itself |
| RenameFileDialog.NameWithoutExt | frontend-next/src/app/resume/components/RenameFileDialog.tsx:36 | the text before the last '.', or the whole name when that text is empty |
| RenameFileDialog.Extension | frontend-next/src/app/resume/components/RenameFileDialog.tsx:96 | "" exactly when there is no '.'; otherwise the suffix from the last '.' |
| RenameFileDialog.RenameAsWritten | frontend-next/src/app/resume/components/RenameFileDialog.tsx:42-50 | refused exactly for a blank input, with the empty-name message |
| RenameFileDialog.Rename | frontend-next/src/app/resume/components/RenameFileDialog.tsx:42-50 | refused exactly for a blank input, with the empty-name message |
| RenameFileDialog.RenameKeepsExtension | frontend-next/src/app/resume/components/RenameFileDialog.tsx:49-96 | the corrected name is the trimmed input followed by the old extension, as the preview shows |
| RenameFileDialog.AsWrittenWithDot | frontend-next/src/app/resume/components/RenameFileDialog.tsx:49-50 | with a '.' in the name the code as written and the corrected code agree |
| RenameFileDialog.AsWrittenAppendsWholeName | frontend-next/src/app/resume/components/RenameFileDialog.tsx:49-50 | without a '.', the code as written appends the whole old name, unlike its preview |
| RenameFileDialog.AsWrittenExample | frontend-next/src/app/resume/components/RenameFileDialog.tsx:49-50 | "resume" renamed to "cv" is submitted as "cvresume" |
| RenameFileDialog.CorrectedExample | frontend-next/src/app/resume/components/RenameFileDialog.tsx:96 | corrected, it is submitted as "cv", as previewed |
| RenameFileDialog.RoundTrip | frontend-next/src/app/resume/components/RenameFileDialog.tsx:36-50 | submitting the offered text unchanged gives back the old name (a '.' after the first character, no surrounding space) |
| RenameFileDialog.RoundTripWithoutDot | frontend-next/src/app/resume/components/RenameFileDialog.tsx:36-50 | the corrected code also round-trips a name without '.' |
| UserStore.Store.constructor | frontend-next/src/store/userStore.ts:29-32 | nobody signed in, no demo session, flag consistent |
| UserStore.Store.SetUser | frontend-next/src/store/userStore.ts:33 | user set, flag = user present, demo fields unchanged |
| UserStore.Store.SetDemoData | frontend-next/src/store/userStore.ts:34 | only the demo count and token change; the flag stays consistent exactly when it was |
| UserStore.Store.ClearUser | frontend-next/src/store/userStore.ts:35 | all four fields back to their initial values |
| EditorDoc.NodeAt | frontend-next/src/lib/horizontalRule.ts:248 | the index of a node starting at the position, the first one; none when no node starts there |
| EditorDoc.NodeAtOwnPosition | frontend-next/src/lib/horizontalRule.ts:248 | in a well-formed document the node found at a node's own position is that node |
| EditorDoc.Transaction.constructor | frontend-next/src/lib/horizontalRule.ts:158 | a transaction over the document and selection, nothing selected anew and nothing dispatched |
| EditorDoc.Transaction.SetNodeMarkup | frontend-next/src/lib/horizontalRule.ts:251-254 | only the node at that index takes the new attributes; selection and dispatch unchanged |
| EditorDoc.Transaction.SetNodeSelection | frontend-next/src/lib/horizontalRule.ts:171 | only the new selection changes, to the position |
| EditorDoc.Transaction.Dispatch | frontend-next/src/lib/horizontalRule.ts:172 | only the dispatched flag changes, to true |
| InlineStyle.StyleOfSingle | frontend-next/src/lib/lineHeight.ts:13-16 | an element styled with one plain declaration gives its property that value; an element without a style gives nothing |
| InlineStyle.ReadDeclaration | frontend-next/src/utils/pdfGenerator.tsx:109 | a `prop: value` declaration splits and trims back into that property and value |
| InlineStyle.LookupEmpty | frontend-next/src/utils/pdfGenerator.tsx:103-110 | an empty style gives no property a value |
| InlineStyle.LookupSingle | frontend-next/src/utils/pdfGenerator.tsx:108-110 | one plain declaration gives its property that value and no other property anything |
| HorizontalRule.AssembleHolds | frontend-next/src/lib/horizontalRule.ts:54-65 | the `<hr>` always carries the style, colour, thickness and width; a spacing attribute exactly when a renderer or the value supplies one |
| HorizontalRule.AttributesHtmlSpacing | frontend-next/src/lib/horizontalRule.ts:109-132 | the attribute renderers emit a spacing attribute exactly when it is set |
| HorizontalRule.RenderDefaults | frontend-next/src/lib/horizontalRule.ts:33-65 | colour, thickness and width are always rendered, defaults filling in; the spacings only when set; the style's margins are the spacings or 1.5rem |
| HorizontalRule.RoundTrip | frontend-next/src/lib/horizontalRule.ts:33-132 | parsing the rendered `<hr>` gives the attributes back with their defaults |
| HorizontalRule.InsertedRuleRoundTrips | frontend-next/src/lib/horizontalRule.ts:140-155 | a rule inserted by `setHorizontalRule` survives rendering and parsing unchanged |
| HorizontalRule.StyleDeclarations | frontend-next/src/lib/horizontalRule.ts:45-52 | the style splits on ';' into its six declarations, in order |
| HorizontalRule.SplitSpacedJoin | frontend-next/src/lib/horizontalRule.ts:52 | splitting on ';' what was joined with "; " gives the parts back, each after the first behind a space |
| HorizontalRule.SetHorizontalRule | frontend-next/src/lib/horizontalRule.ts:140-155 | one `insertContent` of a rule whose attributes are the options with defaults, and which round-trips |
| HorizontalRule.NearestUnique | frontend-next/src/lib/horizontalRule.ts:188-199 | at most one rule is the nearest, ties going to the earliest, so the search's answer is determined |
| HorizontalRule.NearestRule | frontend-next/src/lib/horizontalRule.ts:188-199 | -1 exactly when the document has no rule, otherwise the position of the nearest rule |
| HorizontalRule.SelectHorizontalRule | frontend-next/src/lib/horizontalRule.ts:156-208 | a selected rule answers true; a rule beside the cursor is selected; otherwise true exactly when `dispatch` is given and a rule exists, the nearest then selected |
| HorizontalRule.UpdateHorizontalRule | frontend-next/src/lib/horizontalRule.ts:209-262 | true exactly when the chosen position holds a rule; with `dispatch` only that node changes, the options overriding its attributes |
| HorizontalRule.TargetFound | frontend-next/src/lib/horizontalRule.ts:247-249 | a rule at the chosen position is the target |
| HorizontalRule.TargetMissing | frontend-next/src/lib/horizontalRule.ts:247-249 | without a rule at the chosen position there is no target |
| ParagraphSpacing.RoundTrip | frontend-next/src/lib/paragraphSpacing.ts:30-77 | each of the three attributes parses back as set, an empty string as `null` |
| ParagraphSpacing.RoundTripStable | frontend-next/src/lib/paragraphSpacing.ts:30-77 | a second render and parse changes nothing |
| ParagraphSpacing.Margins | frontend-next/src/lib/paragraphSpacing.ts:33-77 | at most one renderer declares a bottom margin, `spacingAfter` winning over `spacing`; the top margin exactly when `spacingBefore` is set |
| ParagraphSpacing.BottomMarginReads | frontend-next/src/lib/paragraphSpacing.ts:40-74 | the declared bottom margin reads back as the plain value that set it |
| ParagraphSpacing.SetSpacingAttribute | frontend-next/src/lib/paragraphSpacing.ts:85-110 | in a paragraph: true, and with `dispatch` only that paragraph's attribute changes; elsewhere an `updateAttributes` of paragraphs and no change |
| ParagraphSpacing.SetParagraphSpacing | frontend-next/src/lib/paragraphSpacing.ts:85-110 | the same for `spacing`, an empty string stored as `null` |
| ParagraphSpacing.SetParagraphSpacingBefore | frontend-next/src/lib/paragraphSpacing.ts:111-136 | the same for `spacingBefore`, the value stored as given |
| ParagraphSpacing.SetParagraphSpacingAfter | frontend-next/src/lib/paragraphSpacing.ts:137-162 | the same for `spacingAfter`, the value stored as given |
| ParagraphSpacing.SetOne | frontend-next/src/lib/paragraphSpacing.ts:95-98 | setting one attribute leaves the other two as they were |
| ParagraphSpacing.SetBeforeRenders | frontend-next/src/lib/paragraphSpacing.ts:47-58 | after setting a top spacing the paragraph renders that top margin and keeps its bottom margin |
| LineHeight.RoundTrip | frontend-next/src/lib/lineHeight.ts:13-24 | a plain line height comes back as set, an unset one as `null` |
| LineHeight.Store | frontend-next/src/lib/lineHeight.ts:33-73 | in a paragraph or heading only that node's attribute changes and the answer is true, with no `dispatch` check; elsewhere both node types go to `updateAttributes` |
| LineHeight.SetLineHeight | frontend-next/src/lib/lineHeight.ts:33-53 | the string is stored as given, even when empty |
| LineHeight.UnsetLineHeight | frontend-next/src/lib/lineHeight.ts:54-73 | `null` is stored |
| LineHeight.SetThenUnset | frontend-next/src/lib/lineHeight.ts:17-73 | after set then unset nothing is rendered; a plain set value renders and reads back |
| FontSize.Pixels | frontend-next/src/lib/fontSize.ts:24-32 | a size with or without "px" renders the same `font-size: Npx` |
| FontSize.ParsePixels | frontend-next/src/lib/fontSize.ts:19-23 | `font-size: Npx` parses as the bare number |
| FontSize.RoundTrip | frontend-next/src/lib/fontSize.ts:19-32 | a pixel size survives rendering and parsing as its bare number |
| FontSize.Unset | frontend-next/src/lib/fontSize.ts:19-27 | an unset size renders nothing; nothing parses as unset |
| FontFamily.Parse | frontend-next/src/lib/fontFamily.ts:19-24 | a parsed family holds no quote |
| FontFamily.RoundTrip | frontend-next/src/lib/fontFamily.ts:19-32 | a family without quotes comes back as set; an unset one as `null` |
| FontFamily.QuotedName | frontend-next/src/lib/fontFamily.ts:23 | a quoted family reads as the bare name |
| FontFamily.QuotesOnly | frontend-next/src/lib/fontFamily.ts:21-23 | a family made only of quotes passes the emptiness check and reads as "" rather than unset |
| PdfStyle.DigitPrefix | frontend-next/src/utils/pdfGenerator.tsx:112 | the longest run of digits at the front |
| PdfStyle.ParseIntDecimal | frontend-next/src/utils/pdfGenerator.tsx:112 | `parseInt("12px")` is 12: digits followed by anything but a digit or 'x' read as their value |
| PdfStyle.ParseIntNegative | frontend-next/src/utils/pdfGenerator.tsx:112 | a leading minus negates |
| PdfStyle.ParseIntNotANumber | frontend-next/src/utils/pdfGenerator.tsx:112 | a value starting with neither space, sign nor digit is `NaN` |
| PdfStyle.LastDeclarationWins | frontend-next/src/utils/pdfGenerator.tsx:107-128 | each kept property takes its last non-empty declaration's value, whatever the order of other properties |
| PdfStyle.StyleSnoc | frontend-next/src/utils/pdfGenerator.tsx:108-126 | one more declaration goes through the chain exactly when its property and value are non-empty |
| PdfStyle.ParseInlineStyle | frontend-next/src/utils/pdfGenerator.tsx:103-128 | the loop builds the style the declarations define |
| PdfStyle.ApplyDeclarations | frontend-next/src/utils/pdfGenerator.tsx:108-127 | the `forEach` applies the declarations in order |
| PdfStyle.EmptyStyleOfEmpty | frontend-next/src/utils/pdfGenerator.tsx:103-107 | no attribute gives the empty style |
| PdfStyle.Ignored | frontend-next/src/utils/pdfGenerator.tsx:110-125 | declarations of other properties, or with an empty side, change nothing |
| PdfStyle.LaterWins | frontend-next/src/utils/pdfGenerator.tsx:108-126 | a later declaration of a property overrides an earlier one |
| PdfStyle.Single | frontend-next/src/utils/pdfGenerator.tsx:103-128 | one plain declaration gives the style of that one assignment |
| PdfGenerator.ProcessNode | frontend-next/src/utils/pdfGenerator.tsx:77-227 | the children are processed one by one, then the element built, as the conversion defines |
| PdfGenerator.ParseHtmlToPdf | frontend-next/src/utils/pdfGenerator.tsx:229-239 | the top-level loop gives the top-level conversion |
| PdfGenerator.TextTrimmed | frontend-next/src/utils/pdfGenerator.tsx:78-84 | a text node gives a `<Text>` exactly when it holds a non-space character, with its text trimmed |
| PdfGenerator.UnknownTag | frontend-next/src/utils/pdfGenerator.tsx:216-225 | an unnamed tag gives a styled wrapping `<View>` exactly when it has a child to show |
| PdfGenerator.UnknownElement | frontend-next/src/utils/pdfGenerator.tsx:91-225 | the same for a whole element node, its children converted |
| PdfGenerator.FirstTagRule | frontend-next/src/utils/pdfGenerator.tsx:132-184 | only h1-h3, p, ul and ol built as first element lose their top margin; being first changes nothing else |
| PdfGenerator.FirstElementRule | frontend-next/src/utils/pdfGenerator.tsx:77-227 | the same for any node; text and other nodes are never marked |
| PdfGenerator.ConvertAllCons | frontend-next/src/utils/pdfGenerator.tsx:95-100 | the children convert one after another, nulls left out |
| PdfGenerator.TopLevelAfterFirst | frontend-next/src/utils/pdfGenerator.tsx:229-237 | after the first element the top level converts like an element's children |
| PdfGenerator.TopLevelFirstOnly | frontend-next/src/utils/pdfGenerator.tsx:229-237 | every element is kept in order; only the first can carry the first-element style |
| Urls.UrlPathOfHttp | backend/api/file_storage_views.py:324 | `urlparse` of an http(s) URL with a plain host returns its path exactly |
| Urls.PathSegmentsOfHttp | backend/api/file_storage_views.py:324-325 | the non-empty '/'-separated parts of such a URL's path are its segments |

## Left out

- **Database and services.**
  - The SQL that loads a user's profile document and the raw cursor plumbing: the profile and the
    rows are inputs.
  - The call to the generation service: an oracle that answers each section with content or with an
    error text.
  - JWT decoding: a verification function given as a parameter, returning optional claims.
- **Object-store I/O.**
  - The MinIO client, bucket creation, uploads and downloads: their outcomes are parameters.
  - The prefix listing in `create_folder`: its result is a parameter.
- **Clocks and concurrency.**
  - Clocks are parameters (`now`).
  - Calls are sequential; the read-then-update race on the demo counter is not modelled.
- **Response details.**
  - Floating-point megabyte figures in messages and labels.
  - Streaming-response headers.
  - HTTP status bodies beyond their status and the fields the contracts name.
- **Frontend plumbing.**
  - The Next.js API route proxies and the page components.
  - The dialogs' JSX and their busy flags (`uploading`, `creating`, `copying`, `renaming`), which only
    disable buttons.
  - The persistence middleware of the user store (local storage).
- **Editor library.**
  - The HTML parser: HTML arrives as a tree of text and element nodes.
  - The browser's style object: `element.style.<property>` is read with the same declaration reader
    as the PDF converter. The browser's normalisation of values is not modelled.
  - The document is the sequence of its descendants with their positions and attributes, and the
    selection gives the cursor's neighbours.
  - `setNodeMarkup`, `setSelection` and `dispatch` are modelled by their effect on the transaction.
  - `chain()` calls (`insertContent`, `updateAttributes`, `setMark`, `removeEmptyTextStyle`) are
    recorded as the list of calls, not executed.
- **PDF output.**
  - react-pdf rendering.
  - The style-sheet values, named and not valued.
  - React keys and the `wrap`/`break` props beyond their presence.
- FontSize.SetFontSize, FontSize.UnsetFontSize, FontFamily.SetFontFamily, FontFamily.UnsetFontFamily:
  modelled only as the list of chained library calls. They carry no contract, since the calls' effect
  belongs to the editor library.
- FontSize.RoundTrip: stated for sizes made of digits, with or without "px". A stored value holding
  "px" twice does not come back as written.
- LineHeight.RoundTrip, FontFamily.RoundTrip, ParagraphSpacing.BottomMarginReads,
  InlineStyle.LookupSingle: stated for values that hold no ';' or ':' and do not start or end with
  white space, which the declaration reader keeps as written.
- PdfStyle.ParseInt: integers only. Minus zero reads as 0, and floating-point rounding of very long
  digit runs is not modelled.
- Strings.Lower: ASCII letters only.
- FolderTree: `Object.entries` lists integer-like keys first in JavaScript. The model keeps insertion
  order everywhere.
- StoreTables.UserIdOf: a `user_id` that arrives as a JSON number rather than a string is not
  modelled, and neither are the non-ASCII digits that `int()` also reads (see Strings.ParsePyInt).
- Strings.ParsePyInt: reads ASCII digits only. Python's `int()` also accepts the other Unicode decimal
  digits (Arabic-Indic, Devanagari, full-width and so on) and refuses them here. Underscores between
  digits and all of Python's white space are modelled.
- ResumeSections.SummarySection: a `userProfile` key holding `null` would make `.get` raise. The query
  always writes one profile row for an existing user, so the model reads a missing profile only as an
  absent key.
- Server errors: the tables and queries never fail in the model, so the `except Exception` paths are
  not represented. These are the 500 "Internal server error" responses of the token views and the
  stream's final "Internal server error" event.
- TokenManagement.FirstMatch: the token-and-IP lookup has no `ORDER BY`, so `fetchone()` may return any
  matching row. The model picks the first in table order; the contracts of its callers hold for that
  choice.
- ResumeListing.Prepare: the `IndexError` that the listing raises for a URL path of exactly
  bucket/username/resumes with no stored file name is modelled as a server-error outcome, not as an
  exception.
- The management command that sweeps expired tokens is the same sweep as
  `TokenManagement.TokenTable.CleanupExpiredTokens` and is not modelled separately.

## Findings

| source | as written | input that shows it | evidently intended | confidence | as-written member | corrected member |
|---|---|---|---|---|---|---|
| frontend-next/src/app/resume/components/RenameFileDialog.tsx:49 | the submitted name appends `substring(lastIndexOf('.'))`, which for a name without '.' is `substring(-1)`, the whole old name | renaming "resume" to "cv" submits "cvresume" while the preview shows "cv" | append the extension the preview shows, nothing when there is no '.' | high, not executed | RenameFileDialog.AsWrittenExample | RenameFileDialog.CorrectedExample |
