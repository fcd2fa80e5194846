# Taskmaster file service, scanner and access control in Dafny

Taskmaster stores user files in an object store. Its backend does four things:

- validates each upload;
- scans it for malware;
- records it in a database with versions, shares, tags and categories;
- guards every route with token authentication and a role-to-permission table.

Its frontend includes a 3D model viewer with distance, area and annotation tools.

This project models the core of that system and proves what the code promises:

- `common.dfy` (`Common`): the JavaScript string operations the code relies on, and the `Option` and `Result` wrappers. The string operations are lower-casing, `startsWith`/`endsWith`/`includes`, `lastIndexOf`, `slice`, `split`, `trim` and number printing.
- `storage_config.dfy` (`StorageConfig`): the constant storage configuration. It holds the allow-list, the maximum size, the URL lifetime, encryption and the ACL.
- `upload_middleware.dfy` (`UploadMiddleware`): the multer file filter and its size limit.
- `file_scanner.dfy` (`FileScanner`): the high-risk extension heuristic and the type-validation verdict. It also covers the ClamAV exit-code verdict with threat-name extraction, and the control flow of `scanFile`, including its temp file. It also states how the code as written misses its ClamAV fallback (see Findings).
- `permissions.dfy` (`Permissions`): the permission names, the role table and the three permission checks.
- `auth_service.dfy` (`AuthService`): the password policy. The class `AuthService.AuthService` holds the user table; its methods register, log in, run the two-factor set-up / verify / disable cycle and change roles.
- `auth_middleware.dfy` (`AuthMiddleware`): bearer-token authentication, which writes `req.user`. It also holds the role guard and the three permission guards, each answering 401/403 or passing the request on.
- `storage_service.dfy` (`StorageService`): the file service as a class. It has five parts:
  - the file table, with a unique key index;
  - the objects in the bucket;
  - the share table;
  - the version table;
  - pure functions for key generation, validation, the record built from a scan, and metadata.

  Every operation is a method whose `ensures` states the whole new state. The class invariant holds three things:
  - the key index is one-to-one with the rows;
  - only clean files are active;
  - every stored object is private and KMS-encrypted.

  The two batch loops are proved against pure run functions. Lemmas about those functions show that every id ends up in exactly one output list, in input order.
- `file_controller.dfy` (`FileController`): each HTTP handler as a function from its inputs and the outcome of the service call it makes. The result is the list of calls made and the one response sent. The functions state the input guards, the status codes and the preview dispatch. The module also states how the caller's id is read from the token's claims (see Findings).
- `three_d_viewer.dfy` (`ThreeDViewer`): the discrete state of the viewer as a class. It covers:
  - the format dispatch and the local-storage cache in `handleFileChange`;
  - the distance-point cycle;
  - the area-point list with its `finishArea` guard;
  - annotations, which are kept trimmed and non-blank;
  - the mode toggles;
  - the fetch of the default model whenever no model is shown.

The clock, md5, database-generated ids, the scan verdict, bcrypt, JWT signing and verification, TOTP, JSON parsing, file reading, local-storage writes and model parsing are not computed here. Each is a parameter of the operation that uses it: a value or an uninterpreted function.

## Model

| member | source | states |
|---|---|---|
| StorageConfig.ServerSideEncryption | backend/src/config/storage.ts:20-24 | writes request aws:kms exactly when encryption is enabled, and no encryption otherwise |
| StorageConfig.UploadsArePrivateAndKmsEncrypted | backend/src/config/storage.ts:20-24 | the configured ACL is "private" and the encryption requested is aws:kms |
| StorageConfig.MaxFileSizeIs100MiB | backend/src/config/storage.ts:25 | the maximum upload size is 100·1024·1024 = 104857600 bytes |
| StorageConfig.AllowedFileTypesAreEight | backend/src/config/storage.ts:26-35 | the allow-list holds exactly eight distinct MIME types |
| StorageConfig.AllowListExamples | backend/src/config/storage.ts:26-35 | glTF and octet-stream are allowed; executables and HTML are not |
| StorageConfig.IsAllowedFileType | backend/src/config/storage.ts:26-35 | an allowed type is an application, image, video or 3D-model MIME type |
| StorageConfig.UrlsExpireAfterOneHour | backend/src/config/storage.ts:36 | signed URLs live 3600 seconds |
| UploadMiddleware.FileFilter | backend/src/middlewares/upload.middleware.ts:16-20 | a file is accepted iff its MIME type is on the allow-list; accepted files get no error, refused ones the error "File type not allowed" |
| UploadMiddleware.SizeLimitMatchesService | backend/src/middlewares/upload.middleware.ts:12 | the multer size limit equals the service's maximum file size |
| UploadMiddleware.AcceptedPassesServiceValidation | backend/src/middlewares/upload.middleware.ts:12-20 | a file the filter and the size limit let through also passes the service's type and size checks |
| FileScanner.ExtensionShape | backend/src/utils/fileScanner.ts:24-27 | every listed high-risk extension is a '.' followed by at least two characters, none of them a '.' |
| FileScanner.NoDotNeverHighRisk | backend/src/utils/fileScanner.ts:76-79 | a name without a '.' is never high-risk |
| FileScanner.Extension | backend/src/utils/fileScanner.ts:77 | the cut-off extension is a suffix of the lower-cased name; with a '.' in the name it runs from the last '.', so it holds no other '.'; without one it is the last character, or empty for an empty name |
| FileScanner.ListedExtensionIffSuffix | backend/src/utils/fileScanner.ts:76-79 | the cut-off extension is on the list iff the lower-cased name ends with a listed extension |
| FileScanner.IsHighRiskFile | backend/src/utils/fileScanner.ts:76-79 | a name is high-risk iff its lower-cased form ends with one of the 13 listed extensions |
| FileScanner.CaseInsensitive | backend/src/utils/fileScanner.ts:76-79 | a name and its lower-case form get the same high-risk answer |
| FileScanner.HighRiskExamples | backend/src/utils/fileScanner.ts:76-79 | "setup.EXE" is high-risk; "report.pdf" and the dot-less "exe" are not |
| FileScanner.ValidateFileType | backend/src/utils/fileScanner.ts:81-93 | the verdict is clean iff the name is not high-risk; a threat is reported iff it is; there is never an error; the file type is the looked-up MIME type or application/octet-stream |
| FileScanner.RunEnd | backend/src/utils/fileScanner.ts:53-56 | returns the end of the run of non-line-terminators starting at p, which is where `.` stops matching |
| FileScanner.LastFoundIn | backend/src/utils/fileScanner.ts:53-56 | returns the rightmost " FOUND" position in a range, or proves there is none |
| FileScanner.MatchEnd | backend/src/utils/fileScanner.ts:53-56 | returns the greedy end of a match of `: (.+) FOUND` starting at i, or proves no match starts there |
| FileScanner.FirstMatch | backend/src/utils/fileScanner.ts:53-56 | returns the leftmost match start at or after i with its greedy end, or proves there is none |
| FileScanner.ExtractThreat | backend/src/utils/fileScanner.ts:53-56 | the threat is absent iff the output has no match; otherwise it is the group of the leftmost match with the greedy (longest) group |
| FileScanner.ThreatIsLeftmostGreedyGroup | backend/src/utils/fileScanner.ts:53-56 | conversely, the group of the leftmost, longest match is what is extracted |
| FileScanner.ThreatName | backend/src/utils/fileScanner.ts:53-56 | with no match in the output the name is "Unknown threat"; otherwise it is the group of a match or that default text |
| FileScanner.ClamAVVerdict | backend/src/utils/fileScanner.ts:43-71 | exit 0 is clean with "ClamAV scan passed"; exit 1 is a threat named by the output with the trimmed output as signature; any other exit is an error (stderr or "ClamAV scan failed") with "Scan error"; a clean verdict never carries a threat or an error |
| FileScanner.ScanWithClamAV | backend/src/utils/fileScanner.ts:29-74 | the loops accumulate all stdout and stderr chunks, and the verdict is that of the concatenated output under the exit code |
| FileScanner.ScanFileResult | backend/src/utils/fileScanner.ts:95-163 | a failed temp write gives an unclean "Scan error" result with the error's message; a high-risk name gives the type-validation result; a ClamAV call that could not start, whether `spawn` threw or reported an error event, fails open as clean "Basic validation (ClamAV unavailable)", as the comment at line 136 intends; otherwise the ClamAV verdict is returned with only its scan duration replaced by the elapsed time |
| FileScanner.HighRiskSkipsClamAV | backend/src/utils/fileScanner.ts:119-124 | for a high-risk name the result does not depend on ClamAV and is never clean |
| FileScanner.TempFiles.constructor | backend/src/utils/fileScanner.ts:99 | no temp file exists yet |
| FileScanner.Detect | backend/src/utils/fileScanner.ts:101-154 | the verdict of the `try` block and its `catch` is `ScanFileResult` for the same write, name, lookup and ClamAV outcome |
| FileScanner.ScanFile | backend/src/utils/fileScanner.ts:95-163 | returns `ScanFileResult` for the given I/O outcomes; the temp file is created and is gone afterwards on every path unless the unlink itself fails |
| FileScanner.ScanFileAsWritten | backend/src/utils/fileScanner.ts:29-74 | as written, the scan never resolves exactly when the temp write succeeded, the heuristic passed and clamscan could not be started; otherwise it resolves to `ScanFileResult` |
| FileScanner.UnstartableClamscanEscapesFallback | backend/src/utils/fileScanner.ts:135-145 | for a name that passes the heuristic and a clamscan that cannot be started, the scan as written never resolves, while the intended result is the basic-validation fallback |
| Permissions.RolePermissions | backend/src/config/permissions.ts:34-53 | each role's list holds only declared permissions, none of them twice, and ADMIN's holds every declared permission |
| Permissions.HasPermission | backend/src/config/permissions.ts:56-58 | a role holds only declared permissions, and ADMIN holds exactly the declared ones |
| Permissions.HasAllPermissions | backend/src/config/permissions.ts:61-63 | true iff the role holds every permission in the list |
| Permissions.HasAnyPermission | backend/src/config/permissions.ts:66-68 | true iff the role holds some permission in the list |
| Permissions.PermissionsAreDistinct | backend/src/config/permissions.ts:4-31 | there are 17 permission names, all distinct |
| Permissions.AdminHoldsEverything | backend/src/config/permissions.ts:35 | ADMIN holds every declared permission |
| Permissions.OnlyDeclaredPermissionsGranted | backend/src/config/permissions.ts:34-58 | no role is granted a string outside the declared permissions |
| Permissions.RolesAreNested | backend/src/config/permissions.ts:34-53 | USER's permissions are AGENT's, and AGENT's are ADMIN's |
| Permissions.AgentRestrictions | backend/src/config/permissions.ts:36-46 | AGENT lacks DELETE_FILE and every user-management permission except READ_USER |
| Permissions.UserRestrictions | backend/src/config/permissions.ts:47-52 | USER lacks UPLOAD_FILE, SHARE_FILE and DELETE_FILE |
| Permissions.EmptyRequest | backend/src/config/permissions.ts:61-68 | every role has all of no permissions and none of them |
| Permissions.AllImpliesAny | backend/src/config/permissions.ts:61-68 | for a non-empty list, holding all implies holding some |
| Permissions.OnlyTheSetMatters | backend/src/config/permissions.ts:61-68 | both list checks ignore order and duplicates: lists with the same elements get the same answers |
| AuthService.HasCharInRange | backend/src/services/auth.service.ts:228-233 | true iff some character of the password lies in the range |
| AuthService.HasSpecialChar | backend/src/services/auth.service.ts:234-236 | true iff some character is one of the listed specials |
| AuthService.PasswordViolation | backend/src/services/auth.service.ts:224-237 | no violation iff length ≥ 10 and there is an upper-case letter, a digit and a special; a short password is reported as such first, then a missing upper-case letter |
| AuthService.LaterRulesReportedInOrder | backend/src/services/auth.service.ts:231-236 | once length and upper case pass, a missing digit is reported, then a missing special |
| AuthService.AcceptedPasswordExample | backend/src/services/auth.service.ts:224-237 | "Abcdefgh1!" is accepted |
| AuthService.RejectedPasswordExamples | backend/src/services/auth.service.ts:224-237 | "Abc1!" is too short and "abcdefgh1!" lacks an upper-case letter |
| AuthService.GenerateToken | backend/src/services/auth.service.ts:207-222 | fails with "JWT_SECRET not configured" iff the secret is unset or empty; otherwise it signs the user's id, email and role with the secret |
| AuthService.NewUser | backend/src/services/auth.service.ts:30-38 | the new user has the given id, email and hash; the name is firstName if non-empty, else the email; the role defaults to USER; the user is active, with 2FA off and no secret or last login |
| AuthService.FindUnique | backend/src/services/auth.service.ts:19-21 | a position is found iff some user has the value in that unique column, and the user there has it |
| AuthService.Respond | backend/src/services/auth.service.ts:40-46 | the response succeeds iff the token was generated, and carries the user and that token |
| AuthService.AppendKeepsWellFormed | backend/src/services/auth.service.ts:19-38 | adding a user with a fresh id and email keeps ids and emails unique, and every enabled 2FA has a secret |
| AuthService.AuthService.constructor | backend/src/services/auth.service.ts:7-12 | no users, with the configured JWT secret |
| AuthService.AuthService.Register | backend/src/services/auth.service.ts:14-47 | the password is checked before the e-mail lookup; a violation or a duplicate e-mail fails and stores nothing; otherwise exactly the new user is appended, and only then the token is generated, so a missing secret fails with the user already stored |
| AuthService.AuthService.Login | backend/src/services/auth.service.ts:49-87 | a missing user, an inactive user and a wrong password all fail with "Invalid credentials" and change nothing; with 2FA on it returns an empty token with requiresTwoFactor and does not touch lastLoginAt; otherwise it returns a token and records the login time, and a missing secret changes nothing |
| AuthService.AuthService.Setup2FA | backend/src/services/auth.service.ts:89-113 | fails for an unknown user or one with 2FA on; otherwise it stores only the secret and leaves 2FA off |
| AuthService.AuthService.Verify2FA | backend/src/services/auth.service.ts:115-150 | no secret or a wrong TOTP token fails with no state change; otherwise 2FA is switched on, and then the login time is recorded unless token generation fails |
| AuthService.AuthService.Disable2FA | backend/src/services/auth.service.ts:152-172 | fails unless the user exists with 2FA on; then 2FA is off and the secret erased, and nothing else changes |
| AuthService.AuthService.UpdateUserRole | backend/src/services/auth.service.ts:192-205 | fails for an unknown user; otherwise only that user's role changes |
| AuthMiddleware.Request.constructor | backend/src/middlewares/auth.middleware.ts:27-33 | a request with its header and no user yet |
| AuthMiddleware.TokenFromHeader | backend/src/middlewares/auth.middleware.ts:33 | a token exists iff the header has a second space-separated field, and it is that field |
| AuthMiddleware.BearerTokenExtracted | backend/src/middlewares/auth.middleware.ts:33 | "Bearer t" yields exactly t when t has no space |
| AuthMiddleware.NoSpaceNoToken | backend/src/middlewares/auth.middleware.ts:33-37 | a header without a space carries no token |
| AuthMiddleware.Authenticate | backend/src/middlewares/auth.middleware.ts:27-44 | the request passes iff a non-empty token verifies, and then `req.user` is the decoded claims; otherwise the answer is 401 "Authentication failed" and `req.user` is untouched |
| Common.SplitJoin | backend/src/middlewares/auth.middleware.ts:33 | joining the fields `split` gives with the separator gives the header back |
| AuthMiddleware.Authorize | backend/src/middlewares/auth.middleware.ts:46-59 | 401 iff there is no user, 403 iff the user's role is not listed, next iff it is |
| AuthMiddleware.PermissionGuard | backend/src/middlewares/auth.middleware.ts:62-105 | 401 without a user, 403 when the role is not granted, next iff it is |
| AuthMiddleware.RequirePermission | backend/src/middlewares/auth.middleware.ts:62-75 | next iff a user is present and the role has the permission; otherwise 401 or 403 as above |
| AuthMiddleware.RequireAllPermissions | backend/src/middlewares/auth.middleware.ts:77-90 | next iff the user's role has every listed permission; otherwise 401 or 403 |
| AuthMiddleware.RequireAnyPermission | backend/src/middlewares/auth.middleware.ts:92-105 | next iff the user's role has some listed permission; otherwise 401 or 403 |
| AuthMiddleware.GuardsRespondOnceOrPass | backend/src/middlewares/auth.middleware.ts:46-105 | every guard either passes or sends one response, with status 401 or 403 |
| AuthMiddleware.SingletonGuardsAgree | backend/src/middlewares/auth.middleware.ts:62-105 | with one permission, the all- and any-guards decide as the single guard |
| AuthMiddleware.EmptyPermissionListGuards | backend/src/middlewares/auth.middleware.ts:77-105 | an empty list lets every authenticated user through the all-guard and none through the any-guard |
| AuthMiddleware.AdminPassesDeclaredPermissions | backend/src/middlewares/auth.middleware.ts:77-90 | ADMIN passes the all-guard for any list of declared permissions |
| AuthMiddleware.UserRefusedFileWrites | backend/src/middlewares/auth.middleware.ts:62-75 | a USER is refused upload, delete and share with 403 |
| StorageService.MaxFileSizeText | backend/src/services/storage.service.ts:65 | the maximum size prints as "104857600" in the rejection message |
| Common.NatToStringValue | backend/src/services/storage.service.ts:65 | the decimal text of a number denotes that number and has no leading zero |
| StorageService.UploadRejection | backend/src/services/storage.service.ts:57-67 | an upload is rejected iff the type is not allowed or the size exceeds the maximum; the type check comes first; the messages are those of the source |
| StorageService.SizeBoundaryAccepted | backend/src/services/storage.service.ts:63-67 | a size equal to the maximum is accepted and one byte more is not |
| StorageService.GenerateFileKey | backend/src/services/storage.service.ts:69-73 | the key has the shape `userId/hash-fileName`: the owner's id, a '/', some hash, a '-' and the file name |
| StorageService.KeysDifferByDigest | backend/src/services/storage.service.ts:69-73 | for one owner and name, two keys are equal iff the md5 digests of name, timestamp and owner are |
| StorageService.KeysOfDistinctOwnersDiffer | backend/src/services/storage.service.ts:69-73 | owners whose ids contain no '/' never get the same key |
| StorageService.PutParams | backend/src/services/storage.service.ts:86-101 | every stored object is private and KMS-encrypted, with the given content type and metadata |
| StorageService.ScanTags | backend/src/services/storage.service.ts:114-118 | the upload's tags are exactly fileType, scanSignature and scanDuration: the scan's non-empty file type, else the MIME type; its non-empty signature, else "Unknown"; its duration in decimal, else "0" |
| StorageService.NewFileRecord | backend/src/services/storage.service.ts:107-128 | the inserted row is ACTIVE and CLEAN iff the scan was clean, QUARANTINED and INFECTED otherwise, and carries the upload's key, name, size, type, owner, tags and verdict |
| StorageService.ScanFailureReason | backend/src/services/storage.service.ts:131-142 | an unclean upload fails with the threat, else the scan error, else "Unknown threat detected" |
| StorageService.ShareInfoOf | backend/src/services/storage.service.ts:520-527 | a listed share keeps its id, and with its file id gives back the share row |
| StorageService.VersionMetadataOf | backend/src/services/storage.service.ts:509-519 | a listed version, with its file id, gives back the version row, the uploader under `uploadedBy` |
| StorageService.VersionsOf | backend/src/services/storage.service.ts:494-529 | the metadata versions are exactly the file's version rows |
| StorageService.SharesOf | backend/src/services/storage.service.ts:494-529 | the metadata's shares are exactly the file's shares: each one appears and nothing else does |
| StorageService.MapFileToMetadata | backend/src/services/storage.service.ts:494-529 | the metadata is the row under its id with the owner as uploadedBy and its currentVersion carried, losing only category and updatedAt |
| StorageService.RemoveKeepsIndexConsistent | backend/src/services/storage.service.ts:461-476 | removing a row together with its key keeps the key index one-to-one |
| StorageService.UpdateKeepsTableInvariants | backend/src/services/storage.service.ts:349-378 | a row change that keeps the key and the statuses keeps every table invariant |
| StorageService.UpdateKeepsIndexConsistent | backend/src/services/storage.service.ts:147-195 | a row change that keeps the key keeps the index consistent |
| StorageService.InsertKeepsTableInvariants | backend/src/services/storage.service.ts:107-128 | inserting a row under a fresh id and key, active only if clean, keeps every table invariant |
| StorageService.ListWhereOwnerOnly | backend/src/services/storage.service.ts:197-204 | without a user id every row qualifies; with one, exactly the rows that user owns |
| StorageService.SearchWhereFilters | backend/src/services/storage.service.ts:391-413 | a hit is in the candidate set (owned, or shared with the caller under sharedWithMe) and meets each mime type and status filter given; with no filters the hits are exactly the candidates |
| StorageService.SearchStaysInCandidates | backend/src/services/storage.service.ts:391-404 | a search hit is owned by the caller, or, with sharedWithMe, is the file of a share granted to the caller |
| StorageService.ExpiryIgnoredBySearch | backend/src/services/storage.service.ts:393 | changing a share's expiry does not change what is shared: expired shares still count |
| StorageService.InsertPosition | backend/src/services/storage.service.ts:197-204 | the insert position lies after every file updated at the same time or later and before the first older one |
| StorageService.InsertAt | backend/src/services/storage.service.ts:197-204 | inserting one id shifts the tail by one and adds exactly that id |
| StorageService.InsertKeepsNewestFirst | backend/src/services/storage.service.ts:197-204 | inserting at that position keeps the list newest first and, for a new id, free of duplicates |
| StorageService.FindStep | backend/src/services/storage.service.ts:380-418 | visiting one more row keeps "the chosen ids are the selected visited rows, each once, newest first" |
| StorageService.FindDone | backend/src/services/storage.service.ts:380-418 | once every row is visited the list holds exactly the selected rows, each once, newest first |
| StorageService.MetadataList | backend/src/services/storage.service.ts:201-203 | the listed metadata are the rows' metadata in the same order |
| StorageService.InterleaveCounts | backend/src/services/storage.service.ts:461-492 | two lists that interleave into the input together hold exactly the input's elements |
| StorageService.BatchDeleteRun | backend/src/services/storage.service.ts:461-476 | the two lists together are as long as the input |
| StorageService.BatchDeleteStep | backend/src/services/storage.service.ts:464-474 | one more id is one more loop iteration |
| StorageService.BatchDeleteOutcome | backend/src/services/storage.service.ts:461-476 | the deleted ids are exactly the input ids that exist and are the caller's, each once; the rows left are the others, unchanged |
| StorageService.BatchDeleteInterleaves | backend/src/services/storage.service.ts:461-476 | every input id is in exactly one of deleted and failed, each list in input order |
| StorageService.BatchDeletePartition | backend/src/services/storage.service.ts:461-476 | deleted and failed interleave into the input and together hold it as a multiset |
| StorageService.KeysOfAppend | backend/src/services/storage.service.ts:467-469 | deleting one more row removes exactly its key |
| StorageService.KeysOfMembers | backend/src/services/storage.service.ts:464-474 | a key is removed iff it is the key of a listed id that has a row |
| StorageService.RemoveDeletedKey | backend/src/services/storage.service.ts:467-469 | removing one more deleted row's key keeps "the original less the deleted rows' keys" |
| StorageService.DeleteEachStep | backend/src/services/storage.service.ts:464-474 | one iteration advances the run, the key index and the bucket together, for an owned and for any other id |
| StorageService.DeleteEach | backend/src/services/storage.service.ts:464-474 | the loop leaves the run's rows and lists, with exactly the deleted rows' keys gone from the index and the bucket |
| StorageService.BatchDeleteKeepsRow | backend/src/services/storage.service.ts:461-476 | a row the batch leaves is an original row, unchanged |
| StorageService.BatchDeleteKeepsTableInvariants | backend/src/services/storage.service.ts:461-476 | after the batch the key index stays one-to-one, only clean files are active and every stored object stays private and KMS-encrypted |
| StorageService.BatchTagRun | backend/src/services/storage.service.ts:478-492 | the two lists together are as long as the input, and no row is added or removed |
| StorageService.BatchTagListsOutcome | backend/src/services/storage.service.ts:478-492 | an updated id is one of the caller's existing files among the input; a failed id is an input id that is not |
| StorageService.BatchTagRowsOutcome | backend/src/services/storage.service.ts:478-492 | exactly the caller's listed files get the new tags; every other row is as it was |
| StorageService.BatchTagStep | backend/src/services/storage.service.ts:481-490 | one more id is one more loop iteration |
| StorageService.TagEach | backend/src/services/storage.service.ts:481-490 | the loop leaves the run's rows and lists |
| StorageService.BatchTagKeepsTableInvariants | backend/src/services/storage.service.ts:481-490 | retagging keeps the key index one-to-one and only clean files active |
| StorageService.BatchTagInterleaves | backend/src/services/storage.service.ts:478-492 | every input id is in exactly one of updated and failed, each list in input order |
| StorageService.BatchTagPartition | backend/src/services/storage.service.ts:478-492 | updated and failed interleave into the input and together hold it as a multiset |
| StorageService.StorageService.constructor | backend/src/services/storage.service.ts:56 | empty tables and bucket, with the invariants holding |
| StorageService.StorageService.FullMetadata | backend/src/services/storage.service.ts:420-426 | the file's metadata with all its versions and shares |
| StorageService.StorageService.PutObject | backend/src/services/storage.service.ts:100-101 | the object is stored under its key, replacing any earlier one; the tables are unchanged and the invariants hold |
| StorageService.StorageService.DeleteObject | backend/src/services/storage.service.ts:130-137 | the object under the key is gone and nothing else changes |
| StorageService.StorageService.CreateFile | backend/src/services/storage.service.ts:106-128 | a key already in the table fails with the unique-constraint violation and changes nothing; otherwise the row and its key are added |
| StorageService.StorageService.Commit | backend/src/services/storage.service.ts:461-492 | the batch's table, index and bucket are written back and the invariants hold |
| StorageService.StorageService.UploadFile | backend/src/services/storage.service.ts:75-145 | a rejected upload changes nothing; otherwise the object is put first, and a repeated key fails at the row insert with the object overwritten; otherwise the row is inserted whatever the verdict, a clean file keeps its object and returns its metadata, and an unclean one has its object removed and fails with the scan reason |
| StorageService.StorageService.GetFileUrl | backend/src/services/storage.service.ts:147-179 | an unknown key, a DELETED file or an INFECTED one fails with its message and changes nothing; otherwise lastAccessed is set and a link with the configured expiry issued |
| StorageService.StorageService.DeleteFile | backend/src/services/storage.service.ts:181-195 | with no owner check, the row is marked DELETED and its object removed, so a second delete leaves it DELETED; an unknown key fails before the bucket is touched |
| StorageService.StorageService.FindMany | backend/src/services/storage.service.ts:380-418 | returns exactly the rows the where clause selects, each once, newest first, mapped without versions or shares |
| StorageService.StorageService.ListFiles | backend/src/services/storage.service.ts:197-204 | the owner's files, or all files without a user id, each once, newest first |
| StorageService.StorageService.SearchFiles | backend/src/services/storage.service.ts:380-418 | exactly the candidate files (own, or shared with the caller by any share) matching every present filter, each once, newest first |
| StorageService.StorageService.GetFileById | backend/src/services/storage.service.ts:420-426 | a result exists iff the id exists, and it is the full metadata |
| StorageService.StorageService.CreateNewVersion | backend/src/services/storage.service.ts:206-252 | an unknown file fails; otherwise an object is stored at key + "_v" + time, even for an unclean scan, and a version numbered 1 with the parent's size and the scan's status is appended; the parent row is unchanged |
| StorageService.StorageService.ShareFile | backend/src/services/storage.service.ts:254-292 | only the owner may share, else it fails with nothing changed; the share defaults to VIEW |
| StorageService.StorageService.UpdateFileShare | backend/src/services/storage.service.ts:294-328 | only the owner of the shared file may update, else it fails with nothing changed; only the fields given change |
| StorageService.StorageService.RemoveFileShare | backend/src/services/storage.service.ts:330-347 | only the owner of the shared file may revoke, else it fails with nothing changed; exactly that share is removed |
| StorageService.StorageService.UpdateFileTags | backend/src/services/storage.service.ts:349-378 | only the owner may retag, else it fails with nothing changed; the whole tag map is replaced and updatedAt set |
| StorageService.StorageService.UpdateFileCategory | backend/src/services/storage.service.ts:446-459 | only the owner may set the category, else it fails with nothing changed; only the category changes |
| StorageService.StorageService.BatchDeleteFiles | backend/src/services/storage.service.ts:461-476 | the rows and lists are the batch-delete run's; exactly the deleted rows' keys leave the bucket and the index |
| StorageService.StorageService.BatchUpdateTags | backend/src/services/storage.service.ts:478-492 | the rows and lists are the batch-tag run's; everything else is unchanged |
| FileController.Answer | backend/src/controllers/file.controller.ts:25-33 | one service call; a returned call gives the success status without the error body, a thrown one 500 with the handler's message |
| FileController.ExpiryOf | backend/src/controllers/file.controller.ts:78 | an expiry is passed iff the body's value is truthy |
| FileController.ExpiryUpdate | backend/src/controllers/file.controller.ts:101 | the handler never clears an expiry; it leaves it alone iff the value is falsy |
| FileController.StatusOf | backend/src/controllers/file.controller.ts:165 | a status filter parses iff it is the name of a file status, and then to that status |
| FileController.SearchQueryOf | backend/src/controllers/file.controller.ts:158-166 | the query can be built iff present tags parse and a present status names a status; sharedWithMe holds iff the text is exactly "true"; tags and status filters are present iff given |
| FileController.UploadFile | backend/src/controllers/file.controller.ts:14-34 | 400 "No file provided" with no call iff there is no file; otherwise one upload call, 201 or 500 "Failed to upload file" |
| FileController.CreateVersion | backend/src/controllers/file.controller.ts:40-59 | 400 "No file provided" iff there is no file; otherwise one version call, 201 or 500 |
| FileController.ShareFile | backend/src/controllers/file.controller.ts:65-86 | 400 "User ID is required" iff the body names no user; otherwise one share call with the expiry if given, 201 or 500 |
| FileController.UpdateShare | backend/src/controllers/file.controller.ts:92-110 | no guard; one update call, 200 or 500 |
| FileController.RemoveShare | backend/src/controllers/file.controller.ts:116-124 | one call; 204 with no body, or 500 |
| FileController.UpdateTags | backend/src/controllers/file.controller.ts:130-149 | 400 "Tags must be an object" iff the tags are falsy or not an object; otherwise one call, 200 or 500 |
| FileController.SearchFiles | backend/src/controllers/file.controller.ts:155-172 | a query that cannot be built gives 500 without a search; otherwise one search with that query, 200 or 500 |
| FileController.GetFileUrl | backend/src/controllers/file.controller.ts:178-186 | one call; 200 or 500 "Failed to get file URL" |
| FileController.DeleteFile | backend/src/controllers/file.controller.ts:192-200 | one call; 204 with no body, or 500 |
| FileController.ListFiles | backend/src/controllers/file.controller.ts:206-214 | one list call without a user filter; 200 or 500 |
| FileController.GetFilePreview | backend/src/controllers/file.controller.ts:220-240 | a missing file gives 404; an image/ type reads the object and answers a PNG (or 500 if that throws); application/pdf gives 501 and every other type 415; a PNG is sent iff the file is an image and the thumbnail succeeded |
| FileController.UpdateCategory | backend/src/controllers/file.controller.ts:246-258 | 400 iff the category is not a non-empty string; otherwise one call, 200 or 500 |
| FileController.BatchDelete | backend/src/controllers/file.controller.ts:264-276 | 400 iff fileIds is not a non-empty array; otherwise one batch call, 200 or 500 |
| FileController.BatchTag | backend/src/controllers/file.controller.ts:282-297 | the ids guard comes before the tags guard, each a 400 iff it fails; otherwise one batch call, 200 or 500 |
| FileController.CreatedStatuses | backend/src/controllers/file.controller.ts:14-84 | a returned upload, new version or share answers 201 |
| FileController.SuccessStatuses | backend/src/controllers/file.controller.ts:92-147 | a returned share update or tag update answers 200 with the result and a revoked share 204 with no body |
| FileController.DeleteListStatuses | backend/src/controllers/file.controller.ts:192-212 | a returned delete answers 204 with no body and a returned listing 200 with the list |
| FileController.TagsGuardCases | backend/src/controllers/file.controller.ts:134-136 | objects and arrays pass the tags guard; null, undefined, strings and numbers do not |
| FileController.CallerIdAsWritten | backend/src/controllers/file.controller.ts:26 | the id read is the `id` field of the user object, and undefined when it has none |
| FileController.CallerId | backend/src/controllers/file.controller.ts:26 | the id read is the `userId` field of the user object, and undefined when it has none |
| FileController.CallerIdAsWrittenUndefined | backend/src/controllers/file.controller.ts:26 | the claims of an issued token have no `id`, so `req.user.id` is undefined |
| FileController.CallerIdIsSigner | backend/src/services/auth.service.ts:213-218 | the `userId` claim is the id of the user the token was issued to |
| FileController.TagsParsedOnlyWhenPresent | backend/src/controllers/file.controller.ts:162 | absent or empty tags text is never parsed |
| FileController.SharedWithMeNeedsExactTrue | backend/src/controllers/file.controller.ts:164 | any sharedWithMe other than exactly "true" searches the caller's own files |
| FileController.PreviewByType | backend/src/controllers/file.controller.ts:224-235 | a PDF gets 501, a PNG image a thumbnail, plain text 415 |
| ThreeDViewer.ExtensionsExclusive | frontend/src/components/ThreeDViewer/ThreeDViewer.tsx:292-377 | no name ends with two of the four extensions |
| ThreeDViewer.FormatIffExtension | frontend/src/components/ThreeDViewer/ThreeDViewer.tsx:264-381 | `FormatOf`, which has no contract of its own, selects a format iff the lower-cased name ends with that format's extension |
| ThreeDViewer.FormatIgnoresCase | frontend/src/components/ThreeDViewer/ThreeDViewer.tsx:264 | a name and its lower case select the same format |
| ThreeDViewer.LoadFromFile | frontend/src/components/ThreeDViewer/ThreeDViewer.tsx:295-381 | the file name is kept; a format is chosen iff the name has one of the four extensions, and the file is then read as text for .obj/.gltf and as an array buffer for .glb/.fbx; a shown model comes with no error and loading cleared |
| ThreeDViewer.Load | frontend/src/components/ThreeDViewer/ThreeDViewer.tsx:253-382 | no file only stops loading; a loaded model means no error and loading off |
| ThreeDViewer.UnsupportedFormatRejected | frontend/src/components/ThreeDViewer/ThreeDViewer.tsx:377-381 | any other name gets the supported-formats error with loading off and the cache untouched |
| ThreeDViewer.BinaryFormatsBypassCache | frontend/src/components/ThreeDViewer/ThreeDViewer.tsx:337-376 | .glb and .fbx never touch the cache, are read as array buffers, and load iff the read and the parse succeed |
| ThreeDViewer.LoadFromFileCache | frontend/src/components/ThreeDViewer/ThreeDViewer.tsx:295-376 | reading the file itself leaves the cache alone, or, when storing succeeds, holds the .obj/.gltf text just read under the file's own key when it is shorter than 5 MiB |
| ThreeDViewer.FullStorageStallsLoad | frontend/src/components/ThreeDViewer/ThreeDViewer.tsx:295-325 | when caching the just-read text throws, no model is shown, no error is reported, loading stays on and the cache is unchanged |
| ThreeDViewer.CacheWrites | frontend/src/components/ThreeDViewer/ThreeDViewer.tsx:266-319 | only the file's own key can change; it is set only to just-read .obj/.gltf text shorter than 5 MiB that was stored without a quota error, and can otherwise only be removed |
| ThreeDViewer.CachedObjUsed | frontend/src/components/ThreeDViewer/ThreeDViewer.tsx:276-281 | a non-empty cached .obj text that parses is used without reading the file |
| ThreeDViewer.CachedObjThatThrowsIsDropped | frontend/src/components/ThreeDViewer/ThreeDViewer.tsx:276-298 | a cached text that throws is removed before the file is read as text |
| ThreeDViewer.DistanceClick | frontend/src/components/ThreeDViewer/ThreeDViewer.tsx:594-610 | the list never exceeds two points and ends with the click; it holds two points iff it held one before, and then the first is kept |
| ThreeDViewer.MeasurementCycle | frontend/src/components/ThreeDViewer/ThreeDViewer.tsx:594-610 | two clicks from empty measure a pair and a third starts over; from a pair, two clicks give the new pair |
| ThreeDViewer.Midpoint | frontend/src/components/ThreeDViewer/ThreeDViewer.tsx:598-603 | the label lies halfway between the two points on every axis |
| ThreeDViewer.TidyIsTrimmed | frontend/src/components/ThreeDViewer/ThreeDViewer.tsx:614-616 | trimming a non-blank text gives a text trimming leaves alone |
| ThreeDViewer.WithoutIndex | frontend/src/components/ThreeDViewer/ThreeDViewer.tsx:441-443 | exactly the element at idx goes and the rest keep their order; an index out of range changes nothing |
| ThreeDViewer.WithTextAt | frontend/src/components/ThreeDViewer/ThreeDViewer.tsx:446-448 | only the text at idx changes, and its position stays |
| ThreeDViewer.AppendKeepsTidy | frontend/src/components/ThreeDViewer/ThreeDViewer.tsx:614-617 | adding a trimmed non-blank annotation keeps every text trimmed and non-blank |
| ThreeDViewer.DeleteKeepsTidy | frontend/src/components/ThreeDViewer/ThreeDViewer.tsx:441-443 | deleting keeps every text trimmed and non-blank |
| ThreeDViewer.EditKeepsTidy | frontend/src/components/ThreeDViewer/ThreeDViewer.tsx:444-449 | editing to a trimmed non-blank text keeps every text trimmed and non-blank |
| ThreeDViewer.Viewer.constructor | frontend/src/components/ThreeDViewer/ThreeDViewer.tsx:196-216 | no model, every mode off, nothing placed, and one fetch of the default model under way |
| ThreeDViewer.Viewer.HandleFileChange | frontend/src/components/ThreeDViewer/ThreeDViewer.tsx:253-382 | the loading state and cache become those `Load` describes; measurements and annotations stay; a viewer that showed a model and is left without one at once starts a default-model fetch |
| ThreeDViewer.Viewer.DefaultModelArrives | frontend/src/components/ThreeDViewer/ThreeDViewer.tsx:484-497 | a settled default fetch shows a model, keeping any error, or reports "Failed to load default OBJ model."; one fewer fetch is pending |
| ThreeDViewer.Viewer.ClickDistance | frontend/src/components/ThreeDViewer/ThreeDViewer.tsx:594-610 | the points cycle; the distance is set on the second point and cleared on the third; the label stays the midpoint |
| ThreeDViewer.Viewer.ClickArea | frontend/src/components/ThreeDViewer/ThreeDViewer.tsx:611-612 | the point is appended |
| ThreeDViewer.Viewer.ClickAnnotation | frontend/src/components/ThreeDViewer/ThreeDViewer.tsx:613-617 | a present, non-blank answer is added trimmed; otherwise nothing changes |
| ThreeDViewer.Viewer.PointerDown | frontend/src/components/ThreeDViewer/ThreeDViewer.tsx:128-146 | with a model and a hit, the first active mode of distance, area and annotation takes the point; nothing else changes |
| ThreeDViewer.Viewer.FinishArea | frontend/src/components/ThreeDViewer/ThreeDViewer.tsx:403-433 | fewer than three points change nothing; otherwise the area and its label are set |
| ThreeDViewer.Viewer.ResetArea | frontend/src/components/ThreeDViewer/ThreeDViewer.tsx:435-439 | no area points, value or label |
| ThreeDViewer.Viewer.ToggleMeasurement | frontend/src/components/ThreeDViewer/ThreeDViewer.tsx:534-539 | the mode flips and the points, distance and label are cleared |
| ThreeDViewer.Viewer.ToggleArea | frontend/src/components/ThreeDViewer/ThreeDViewer.tsx:547-550 | the mode flips and the area is reset |
| ThreeDViewer.Viewer.ToggleAnnotation | frontend/src/components/ThreeDViewer/ThreeDViewer.tsx:568 | only the mode flips |
| ThreeDViewer.Viewer.DeleteAnnotation | frontend/src/components/ThreeDViewer/ThreeDViewer.tsx:441-443 | the annotations become the old ones without index idx |
| ThreeDViewer.Viewer.EditAnnotation | frontend/src/components/ThreeDViewer/ThreeDViewer.tsx:444-449 | a usable answer replaces the text at idx, trimmed; otherwise nothing changes |

## Left out

- The object store client is not modelled. This covers PutObject, DeleteObject, `getSignedUrl`, and reading the object stream in `getFileBuffer`. The bucket is a map from keys to the put parameters kept with each object, and a signed URL is its key plus its lifetime. `getFileBuffer` is not modelled because it only streams bytes.
- Database queries are not executed. The tables are fields, and the messages of a missing row or a duplicate key are fixed texts standing for the database's errors. The JSON path filter on tags is the parameter `tagMatch`.
- The database schema is not part of this model. Only explicit writes are modelled: no automatic `updatedAt` and no cascade.
- StorageService.BatchDeleteRun: assumes that deleting a file's row succeeds and leaves its shares and versions in their tables. If a foreign key without cascade refused the delete, the object would already be gone and the id would be reported failed; that outcome is not modelled.
- AuthService.NewUser: `isActive` true, two-factor login off, no secret and no last login are assumed schema defaults, because the service does not write them. StorageService.NewFileRecord likewise assumes no `currentVersion`.
- md5, the clock, database-generated ids and the scan verdict are parameters.
- StorageService.StorageService.FindMany: its loop stands for the database's ordered query. Rows updated at the same instant come back in no fixed order.
- Search and list do not filter out DELETED or QUARANTINED files, because the source does not either.
- bcrypt, JWT signing and verification, TOTP checking and QR-code generation are uninterpreted parameters. Roles inside verified tokens are taken to be valid roles.
- The authentication rate limiter is not modelled, because it is a library's internals.
- `listUsers` is not modelled: it is a read-only projection of the user table.
- FileController: every handler takes the caller's id as read from the `userId` claim (FileController.CallerId). The source reads `req.user.id`, which is undefined (see Findings). What the service then does with an undefined id is not modelled: owner checks would always fail, a search without sharedWithMe would not filter by owner, and an upload would fail at the row insert after its object was stored.
- FileController.SearchParams: each query parameter is absent or one string. Repeated parameters (`?name=a&name=b`) and bracket syntax, which Express parses into arrays and objects, are not modelled.
- ThreeDViewer.Viewer.DefaultModelArrives: the viewer records only whether a model is shown, not which. When a default fetch and a file load race, which model ends up on screen is not modelled. GLTF parsing is taken to finish after the handler's first render.
- Route wiring is not part of this model. This includes which middleware guards which route, and the auth controller's exception mapping.
- The OpenAI service and controller are not part of this model.
- `spawn('clamscan')`, temp-file writes and the MIME lookup are inputs to the scanner: the exit code and output chunks, how a failed start was reported, the write outcome, and the looked-up type.
- FileScanner.ScanFileAsWritten: an uncaught exception is only marked. What the process does next depends on its uncaught-exception handling: Node's default ends it. The temp file of such a scan is never unlinked.
- Lower-casing folds ASCII A–Z only, and a JavaScript string's length is its number of characters. Non-ASCII case mapping and UTF-16 surrogates are not modelled.
- Thumbnail generation with sharp is the outcome parameter `thumbnail` of `GetFilePreview`.
- FileController: JSON parsing of the tags query is the parameter `parse`. Body values are passed through as JSON values, without Prisma's validation of them.
- FileController.SearchQueryOf: an unknown status is rejected while the query is built. The source rejects it in the database query; both end in the same 500 response.
- The viewer's rendering, raycasting, camera framing, FPS monitor, progress reporting and the export of measurements are not modelled: they are presentation and timing.
- Floating-point geometry is not modelled. The distance to a clicked point, the shoelace area and the centroid come in as parameters, because they are floating-point computations.
- File reading, caching and model parsing are the outcome parameters `read`, `store`, `parse` and `parseCached` of `Load`. The default model's fetch and parse is the outcome `ok` of `DefaultModelArrives`. The non-string result branch of FileReader is not modelled. Local storage is the `cache` field.
- The saving and restoring of annotations in local storage is not modelled, because it is I/O. Annotations restored from storage need not be trimmed, so the viewer's invariant covers only annotations made in the viewer.
- ThreeDViewer.Viewer.EditAnnotation: requires an existing index. The source shows the current text in the prompt and throws on a missing index before changing anything.
- Concurrency is not modelled: each request or event handler runs as one sequential step.

## Findings

| source | as written | input that shows it | evidently intended | confidence | as-written member | corrected member |
|---|---|---|---|---|---|---|
| backend/src/controllers/file.controller.ts:26 | every handler passes `req.user.id` as the caller's id, but the claims `authenticate` stores are those `generateToken` signs (backend/src/services/auth.service.ts:213-218), which name the id `userId` | any token issued by login or registration: its claims are userId, email, role, iat and exp, so `req.user.id` is undefined | read the caller's id from `req.user.userId` | high; not executed | FileController.CallerIdAsWrittenUndefined | FileController.CallerIdIsSigner |
| backend/src/utils/fileScanner.ts:29-43 | `scanWithClamAV` listens for 'data' and 'close' but not for 'error', so a clamscan that cannot be started (missing, not executable) raises an 'error' event with no listener: an uncaught exception, not a rejected promise, so the fallback at lines 135-145 is never reached | a host without clamscan and a name that passes the heuristic, such as "report.pdf" | reject the promise on the child's 'error' event so that the scan falls back to basic validation | high; not executed | FileScanner.UnstartableClamscanEscapesFallback | FileScanner.ScanFileResult |
