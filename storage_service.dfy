/**
 * The file service: upload with validation and scanning, signed download links, deletion,
 * versions, sharing, tags and categories, search, and the two batch operations. The database
 * and the object store are the fields of one object; the clock, the md5 digest, the scan verdict
 * and the ids the database generates are parameters of the operations.
 */
module StorageService {

  import opened Common
  import opened StorageConfig
  import FileScanner

  datatype FileStatus = ACTIVE | QUARANTINED | DELETED
  datatype ScanStatus = PENDING | CLEAN | INFECTED
  datatype SharePermission = VIEW | EDIT

  /** A row of the file table, without its id (the id is the key of the map holding it). */
  datatype FileRecord = FileRecord(
    key: string,
    name: string,
    size: int,
    mimeType: string,
    userId: string,
    uploadedAt: int,
    lastAccessed: Option<int>,
    tags: map<string, string>,
    status: FileStatus,
    scanStatus: ScanStatus,
    scanResult: FileScanner.ScanResult,
    category: Option<string>,
    updatedAt: int,
    currentVersion: Option<int>)

  /** A row of the share table. */
  datatype ShareRecord = ShareRecord(
    fileId: string,
    userId: string,
    sharedById: string,
    permission: SharePermission,
    sharedAt: int,
    expiresAt: Option<int>)

  /** A row of the version table. */
  datatype VersionRecord = VersionRecord(
    id: string,
    fileId: string,
    key: string,
    size: int,
    userId: string,
    uploadedAt: int,
    versionNumber: int,
    changeDescription: Option<string>,
    scanStatus: ScanStatus,
    scanResult: FileScanner.ScanResult)

  /** The parameters of a PutObject request that stay with the stored object. */
  datatype StoredObject = StoredObject(
    contentType: string,
    serverSideEncryption: Option<string>,
    acl: string,
    metadata: map<string, string>)

  datatype ShareInfo = ShareInfo(
    id: string,
    userId: string,
    sharedById: string,
    permission: SharePermission,
    sharedAt: int,
    expiresAt: Option<int>)

  datatype VersionMetadata = VersionMetadata(
    id: string,
    key: string,
    size: int,
    uploadedBy: string,
    uploadedAt: int,
    versionNumber: int,
    changeDescription: Option<string>,
    scanStatus: ScanStatus,
    scanResult: FileScanner.ScanResult)

  datatype FileMetadata = FileMetadata(
    id: string,
    key: string,
    name: string,
    size: int,
    mimeType: string,
    uploadedBy: string,
    uploadedAt: int,
    lastAccessed: Option<int>,
    tags: map<string, string>,
    status: FileStatus,
    scanStatus: ScanStatus,
    scanResult: FileScanner.ScanResult,
    currentVersion: Option<int>,
    versions: seq<VersionMetadata>,
    sharedWith: set<ShareInfo>)

  /** A presigned GET link for a key, valid for `expiresIn` seconds. */
  datatype SignedUrl = SignedUrl(key: string, expiresIn: int)

  /** The partial update `updateFileShare` applies: a missing field is left alone, `Some(None)` clears the expiry. */
  datatype ShareUpdate = ShareUpdate(permission: Option<SharePermission>, expiresAt: Option<Option<int>>)

  /** The filters `searchFiles` accepts; a missing or empty filter is not applied. */
  datatype SearchQuery = SearchQuery(
    name: Option<string>,
    mimeType: Option<string>,
    tags: Option<map<string, string>>,
    status: Option<FileStatus>,
    sharedWithMe: bool)

  /** The message the database gives when an insert repeats an existing storage key. */
  const UniqueKeyViolation := "Unique constraint failed on the fields: (`key`)"

  /** The message the database gives when an update names a row that does not exist. */
  const RecordToUpdateNotFound := "Record to update not found."

  // ---------------------------------------------------------------------------
  // Validation and keys

  /** The maximum size as the rejection message prints it. */
  lemma MaxFileSizeText()
    ensures NatToString(MaxFileSize) == "104857600"
  {
    var s1 := NatToString(1);
    assert s1 == ['1'];
    var s2 := NatToString(10);
    assert s2 == s1 + ['0'];
    var s3 := NatToString(104);
    assert s3 == s2 + ['4'];
    var s4 := NatToString(1048);
    assert s4 == s3 + ['8'];
    var s5 := NatToString(10485);
    assert s5 == s4 + ['5'];
    var s6 := NatToString(104857);
    assert s6 == s5 + ['7'];
    var s7 := NatToString(1048576);
    assert s7 == s6 + ['6'];
    var s8 := NatToString(10485760);
    assert s8 == s7 + ['0'];
    var s9 := NatToString(104857600);
    assert s9 == s8 + ['0'];
    assert s9 == ['1', '0', '4', '8', '5', '7', '6', '0', '0'];
  }

  /**
   * `validateFileType` then `validateFileSize`: the message of the first check that fails. A size
   * equal to the maximum is accepted.
   */
  function UploadRejection(mimeType: string, size: int): (r: Option<string>)
    ensures r.None? <==> IsAllowedFileType(mimeType) && size <= MaxFileSize
    ensures !IsAllowedFileType(mimeType) ==> r == Some("File type " + mimeType + " is not allowed")
    ensures IsAllowedFileType(mimeType) && size > MaxFileSize ==>
      r == Some("File size exceeds maximum allowed size of " + "104857600" + " bytes")
  {
    if !IsAllowedFileType(mimeType) then Some("File type " + mimeType + " is not allowed")
    else if size > MaxFileSize then
      MaxFileSizeText();
      Some("File size exceeds maximum allowed size of " + NatToString(MaxFileSize) + " bytes")
    else None
  }

  lemma SizeBoundaryAccepted(mimeType: string)
    requires IsAllowedFileType(mimeType)
    ensures UploadRejection(mimeType, MaxFileSize) == None
    ensures UploadRejection(mimeType, MaxFileSize + 1).Some?
  {
  }

  /** `generateFileKey`: the owner's id, a '/', the md5 of name, timestamp and owner, a '-', and the name. */
  function GenerateFileKey(originalName: string, userId: string, now: int, md5: string -> string): (key: string)
    ensures StartsWith(key, userId + "/")
    ensures EndsWith(key, "-" + originalName)
    ensures exists hash :: key == KeyOf(userId, hash, originalName)
  {
    var hash := md5(originalName + IntToString(now) + userId);
    var key := KeyOf(userId, hash, originalName);
    assert key[..|userId + "/"|] == userId + "/";
    assert key[|key| - |"-" + originalName|..] == "-" + originalName;
    key
  }

  /** The `userId/hash-fileName` shape of an object key. */
  function KeyOf(userId: string, hash: string, originalName: string): string {
    userId + "/" + hash + "-" + originalName
  }

  /**
   * The hash is the only part of a key that time changes: for one owner and name, two keys are
   * equal exactly when the digests of name, timestamp and owner are.
   */
  lemma {:induction false} KeysDifferByDigest(originalName: string, userId: string, t1: int, t2: int, md5: string -> string)
    ensures GenerateFileKey(originalName, userId, t1, md5) == GenerateFileKey(originalName, userId, t2, md5)
        <==> md5(originalName + IntToString(t1) + userId) == md5(originalName + IntToString(t2) + userId)
  {
    var h1 := md5(originalName + IntToString(t1) + userId);
    var h2 := md5(originalName + IntToString(t2) + userId);
    var k1 := GenerateFileKey(originalName, userId, t1, md5);
    var k2 := GenerateFileKey(originalName, userId, t2, md5);
    if k1 == k2 {
      var lo := |userId| + 1;
      assert |h1| == |h2|;
      assert k1[lo..lo + |h1|] == h1;
      assert k2[lo..lo + |h2|] == h2;
    }
  }

  /** Keys are namespaced by owner: owners whose ids hold no '/' never share a key. */
  lemma {:induction false} KeysOfDistinctOwnersDiffer(n1: string, u1: string, t1: int, n2: string, u2: string, t2: int, md5: string -> string)
    requires '/' !in u1 && '/' !in u2 && u1 != u2
    ensures GenerateFileKey(n1, u1, t1, md5) != GenerateFileKey(n2, u2, t2, md5)
  {
    var k1 := GenerateFileKey(n1, u1, t1, md5);
    var k2 := GenerateFileKey(n2, u2, t2, md5);
    assert k1[..|u1|] == u1 && k1[|u1|] == '/';
    assert k2[..|u2|] == u2 && k2[|u2|] == '/';
  }

  /** The PutObject parameters of an upload or a version: private and KMS-encrypted. */
  function PutParams(contentType: string, metadata: map<string, string>): (o: StoredObject)
    ensures o.serverSideEncryption == Some("aws:kms") && o.acl == "private"
    ensures o.contentType == contentType && o.metadata == metadata
  {
    StoredObject(contentType, ServerSideEncryption(), Acl, metadata)
  }

  // ---------------------------------------------------------------------------
  // Records built from a scan verdict

  /** The tags an upload records: the scan's file type, signature and duration, with fallbacks. */
  function ScanTags(scan: FileScanner.ScanResult, mimeType: string): (t: map<string, string>)
    ensures t.Keys == {"fileType", "scanSignature", "scanDuration"}
    ensures scan.details.None? ==> t["fileType"] == mimeType && t["scanSignature"] == "Unknown" && t["scanDuration"] == "0"
    ensures scan.details.Some? && Truthy(scan.details.value.fileType) ==> t["fileType"] == scan.details.value.fileType.value
    ensures scan.details.Some? && !Truthy(scan.details.value.fileType) ==> t["fileType"] == mimeType
    ensures scan.details.Some? && Truthy(scan.details.value.signature) ==> t["scanSignature"] == scan.details.value.signature.value
    ensures scan.details.Some? && !Truthy(scan.details.value.signature) ==> t["scanSignature"] == "Unknown"
    ensures scan.details.Some? && scan.details.value.scanDuration.Some? ==>
      t["scanDuration"] == IntToString(scan.details.value.scanDuration.value)
    ensures scan.details.Some? && scan.details.value.scanDuration.None? ==> t["scanDuration"] == "0"
  {
    var fileType := if scan.details.Some? then scan.details.value.fileType else None;
    var signature := if scan.details.Some? then scan.details.value.signature else None;
    var duration := if scan.details.Some? && scan.details.value.scanDuration.Some?
      then Some(IntToString(scan.details.value.scanDuration.value)) else None;
    map["fileType" := OrElse(fileType, mimeType),
        "scanSignature" := OrElse(signature, "Unknown"),
        "scanDuration" := OrElse(duration, "0")]
  }

  function ScanStatusOf(scan: FileScanner.ScanResult): ScanStatus {
    if scan.isClean then CLEAN else INFECTED
  }

  /** The row `uploadFile` inserts: active and clean exactly when the scan was clean. */
  function NewFileRecord(key: string, name: string, size: int, mimeType: string, userId: string, now: int, scan: FileScanner.ScanResult): (f: FileRecord)
    ensures f.status == ACTIVE <==> scan.isClean
    ensures f.status == QUARANTINED <==> !scan.isClean
    ensures f.scanStatus == CLEAN <==> scan.isClean
    ensures f.scanStatus == INFECTED <==> !scan.isClean
    ensures f.key == key && f.name == name && f.size == size && f.mimeType == mimeType && f.userId == userId
    ensures f.tags == ScanTags(scan, mimeType) && f.scanResult == scan
    ensures f.lastAccessed == None && f.category == None && f.currentVersion == None
  {
    FileRecord(key, name, size, mimeType, userId, now, None, ScanTags(scan, mimeType),
               if scan.isClean then ACTIVE else QUARANTINED, ScanStatusOf(scan), scan, None, now, None)
  }

  /** Why an unclean upload fails: the threat, else the scan error, else a generic text. */
  function ScanFailureReason(scan: FileScanner.ScanResult): (m: string)
    ensures Truthy(scan.threat) ==> m == scan.threat.value
    ensures !Truthy(scan.threat) && Truthy(scan.error) ==> m == scan.error.value
    ensures !Truthy(scan.threat) && !Truthy(scan.error) ==> m == "Unknown threat detected"
  {
    OrElse(scan.threat, OrElse(scan.error, "Unknown threat detected"))
  }

  function ScanFailureMessage(scan: FileScanner.ScanResult): string {
    "File scan failed: " + ScanFailureReason(scan)
  }

  // ---------------------------------------------------------------------------
  // Metadata

  /** The share row under a share id, given back with its file id. */
  function ShareRecordOf(info: ShareInfo, fileId: string): ShareRecord {
    ShareRecord(fileId, info.userId, info.sharedById, info.permission, info.sharedAt, info.expiresAt)
  }

  /** A share as metadata lists it: its id and every column but the file id, which is the parent's. */
  function ShareInfoOf(id: string, s: ShareRecord): (i: ShareInfo)
    ensures i.id == id && ShareRecordOf(i, s.fileId) == s
  {
    ShareInfo(id, s.userId, s.sharedById, s.permission, s.sharedAt, s.expiresAt)
  }

  /** The version row given back from its metadata and its file id. */
  function VersionRecordOf(m: VersionMetadata, fileId: string): VersionRecord {
    VersionRecord(m.id, fileId, m.key, m.size, m.uploadedBy, m.uploadedAt, m.versionNumber, m.changeDescription, m.scanStatus, m.scanResult)
  }

  /** A version as metadata lists it: every column but the file id, the uploader as `uploadedBy`. */
  function VersionMetadataOf(v: VersionRecord): (m: VersionMetadata)
    ensures VersionRecordOf(m, v.fileId) == v
  {
    VersionMetadata(v.id, v.key, v.size, v.userId, v.uploadedAt, v.versionNumber, v.changeDescription, v.scanStatus, v.scanResult)
  }

  /** The versions of a file, in the order they were created. */
  function VersionsOf(versions: seq<VersionRecord>, fileId: string): (r: seq<VersionMetadata>)
    ensures |r| <= |versions|
    ensures forall v :: v in versions && v.fileId == fileId ==> VersionMetadataOf(v) in r
    ensures forall m :: m in r ==> exists v :: v in versions && v.fileId == fileId && m == VersionMetadataOf(v)
  {
    if versions == [] then []
    else
      var last := versions[|versions| - 1];
      var prefix := versions[..|versions| - 1];
      assert versions == prefix + [last];
      VersionsOf(prefix, fileId) + (if last.fileId == fileId then [VersionMetadataOf(last)] else [])
  }

  /** The shares of a file. */
  function SharesOf(shares: map<string, ShareRecord>, fileId: string): (r: set<ShareInfo>)
    ensures forall sid :: sid in shares && shares[sid].fileId == fileId ==> ShareInfoOf(sid, shares[sid]) in r
    ensures forall i :: i in r ==> exists sid :: sid in shares && shares[sid].fileId == fileId && i == ShareInfoOf(sid, shares[sid])
  {
    set sid | sid in shares && shares[sid].fileId == fileId :: ShareInfoOf(sid, shares[sid])
  }

  /** The row a metadata record describes, given the two fields metadata does not carry. */
  function RecordOf(m: FileMetadata, category: Option<string>, updatedAt: int): FileRecord {
    FileRecord(m.key, m.name, m.size, m.mimeType, m.uploadedBy, m.uploadedAt, m.lastAccessed, m.tags,
               m.status, m.scanStatus, m.scanResult, category, updatedAt, m.currentVersion)
  }

  /** `mapFileToMetadata`: the row under its id, with the owner as uploadedBy and currentVersion carried; only category and updatedAt are dropped. */
  function MapFileToMetadata(id: string, f: FileRecord, versions: seq<VersionMetadata>, sharedWith: set<ShareInfo>): (m: FileMetadata)
    ensures m.id == id && m.uploadedBy == f.userId
    ensures RecordOf(m, f.category, f.updatedAt) == f
    ensures m.versions == versions && m.sharedWith == sharedWith
  {
    FileMetadata(id, f.key, f.name, f.size, f.mimeType, f.userId, f.uploadedAt, f.lastAccessed, f.tags,
                 f.status, f.scanStatus, f.scanResult, f.currentVersion, versions, sharedWith)
  }

  // ---------------------------------------------------------------------------
  // Invariants of the stored state

  /** The key index and the file table describe the same one-to-one relation. */
  predicate IndexConsistent(files: map<string, FileRecord>, keyIndex: map<string, string>) {
    && (forall id :: id in files ==> files[id].key in keyIndex && keyIndex[files[id].key] == id)
    && (forall k :: k in keyIndex ==> keyIndex[k] in files && files[keyIndex[k]].key == k)
  }

  /** Only a clean file can be active. */
  predicate ActiveFilesClean(files: map<string, FileRecord>) {
    forall id :: id in files && files[id].status == ACTIVE ==> files[id].scanStatus == CLEAN
  }

  /** Removing a row together with its key keeps the index consistent. */
  lemma RemoveKeepsIndexConsistent(files: map<string, FileRecord>, keyIndex: map<string, string>, id: string)
    requires IndexConsistent(files, keyIndex) && id in files
    ensures IndexConsistent(files - {id}, keyIndex - {files[id].key})
  {
  }

  /** Changing a row without touching its key or its statuses keeps every invariant of the table. */
  lemma UpdateKeepsTableInvariants(files: map<string, FileRecord>, keyIndex: map<string, string>, id: string, f: FileRecord)
    requires IndexConsistent(files, keyIndex) && ActiveFilesClean(files) && id in files
    requires f.key == files[id].key && f.status == files[id].status && f.scanStatus == files[id].scanStatus
    ensures IndexConsistent(files[id := f], keyIndex) && ActiveFilesClean(files[id := f])
  {
  }

  /** Changing a row in place without touching its key keeps the index consistent. */
  lemma UpdateKeepsIndexConsistent(files: map<string, FileRecord>, keyIndex: map<string, string>, id: string, f: FileRecord)
    requires IndexConsistent(files, keyIndex) && id in files && f.key == files[id].key
    ensures IndexConsistent(files[id := f], keyIndex)
  {
  }

  /** Inserting a row under a fresh id and a fresh key, active only if clean, keeps every invariant of the table. */
  lemma InsertKeepsTableInvariants(files: map<string, FileRecord>, keyIndex: map<string, string>, id: string, f: FileRecord)
    requires IndexConsistent(files, keyIndex) && ActiveFilesClean(files)
    requires id !in files && f.key !in keyIndex
    requires f.status == ACTIVE ==> f.scanStatus == CLEAN
    ensures IndexConsistent(files[id := f], keyIndex[f.key := id]) && ActiveFilesClean(files[id := f])
  {
  }

  /** Every stored object was written private and KMS-encrypted. */
  predicate BlobsProtected(blobs: map<string, StoredObject>) {
    forall k :: k in blobs ==> blobs[k].serverSideEncryption == Some("aws:kms") && blobs[k].acl == "private"
  }

  // ---------------------------------------------------------------------------
  // Search and listing

  /** The where clause of `listFiles`: the owner's files when a user id is given, otherwise all files. */
  function ListWhere(userId: Option<string>, f: FileRecord): (b: bool)
  {
    Truthy(userId) ==> f.userId == userId.value
  }

  /** The files shared with a user, by any share, expired or not. */
  function SharedFileIds(shares: map<string, ShareRecord>, userId: string): set<string> {
    set sid | sid in shares && shares[sid].userId == userId :: shares[sid].fileId
  }

  /**
   * The where clause of `searchFiles`: the candidate set (shared with the caller, or owned by the
   * caller), narrowed by each filter that is present. `tagMatch` stands for the database's JSON
   * path filter on the tags column.
   */
  function SearchWhere(userId: string, query: SearchQuery, sharedIds: set<string>,
                       tagMatch: (map<string, string>, map<string, string>) -> bool, id: string, f: FileRecord): (b: bool)
  {
    && (if query.sharedWithMe then id in sharedIds else f.userId == userId)
    && (Truthy(query.name) ==> Contains(ToLower(f.name), ToLower(query.name.value)))
    && (Truthy(query.mimeType) ==> f.mimeType == query.mimeType.value)
    && (query.tags.Some? ==> tagMatch(f.tags, query.tags.value))
    && (query.status.Some? ==> f.status == query.status.value)
  }

  /** Without a user id every row qualifies; with one, exactly the rows that user owns. */
  lemma ListWhereOwnerOnly(userId: Option<string>, f: FileRecord)
    ensures !Truthy(userId) ==> ListWhere(userId, f)
    ensures Truthy(userId) ==> (ListWhere(userId, f) <==> f.userId == userId.value)
  {
  }

  /**
   * A hit is a candidate (owned, or shared with the caller under `sharedWithMe`) that meets the
   * mime type and status filters present; with no filter, every candidate is a hit.
   */
  lemma SearchWhereFilters(userId: string, query: SearchQuery, sharedIds: set<string>,
                           tagMatch: (map<string, string>, map<string, string>) -> bool, id: string, f: FileRecord)
    ensures SearchWhere(userId, query, sharedIds, tagMatch, id, f) && !query.sharedWithMe ==> f.userId == userId
    ensures SearchWhere(userId, query, sharedIds, tagMatch, id, f) && query.sharedWithMe ==> id in sharedIds
    ensures SearchWhere(userId, query, sharedIds, tagMatch, id, f) && Truthy(query.mimeType) ==> f.mimeType == query.mimeType.value
    ensures SearchWhere(userId, query, sharedIds, tagMatch, id, f) && query.status.Some? ==> f.status == query.status.value
    ensures !Truthy(query.name) && !Truthy(query.mimeType) && query.tags.None? && query.status.None? ==>
      (SearchWhere(userId, query, sharedIds, tagMatch, id, f) <==> if query.sharedWithMe then id in sharedIds else f.userId == userId)
  {
  }

  /** Search never leaves the candidate set. */
  lemma SearchStaysInCandidates(userId: string, query: SearchQuery, shares: map<string, ShareRecord>,
                                tagMatch: (map<string, string>, map<string, string>) -> bool, id: string, f: FileRecord)
    requires SearchWhere(userId, query, SharedFileIds(shares, userId), tagMatch, id, f)
    ensures !query.sharedWithMe ==> f.userId == userId
    ensures query.sharedWithMe ==> exists sid :: sid in shares && shares[sid].userId == userId && shares[sid].fileId == id
  {
  }

  /** A share's expiry plays no part in what is searched. */
  lemma ExpiryIgnoredBySearch(shares: map<string, ShareRecord>, sid: string, expiresAt: Option<int>, userId: string)
    requires sid in shares
    ensures SharedFileIds(shares[sid := shares[sid].(expiresAt := expiresAt)], userId) == SharedFileIds(shares, userId)
  {
    var shares' := shares[sid := shares[sid].(expiresAt := expiresAt)];
    forall fid | fid in SharedFileIds(shares, userId) ensures fid in SharedFileIds(shares', userId) {
      var s :| s in shares && shares[s].userId == userId && shares[s].fileId == fid;
      assert s in shares' && shares'[s].userId == userId && shares'[s].fileId == fid;
    }
    forall fid | fid in SharedFileIds(shares', userId) ensures fid in SharedFileIds(shares, userId) {
      var s :| s in shares' && shares'[s].userId == userId && shares'[s].fileId == fid;
      assert s in shares && shares[s].userId == userId && shares[s].fileId == fid;
    }
  }

  predicate AllIn(files: map<string, FileRecord>, ids: seq<string>) {
    forall k :: 0 <= k < |ids| ==> ids[k] in files
  }

  predicate Distinct(ids: seq<string>) {
    forall a, b :: 0 <= a < b < |ids| ==> ids[a] != ids[b]
  }

  /** `orderBy: { updatedAt: 'desc' }`. */
  predicate NewestFirst(files: map<string, FileRecord>, ids: seq<string>)
    requires AllIn(files, ids)
  {
    forall a, b :: 0 <= a < b < |ids| ==> files[ids[a]].updatedAt >= files[ids[b]].updatedAt
  }

  /** Where a file goes in a newest-first list: after every file updated at the same time or later. */
  function InsertPosition(files: map<string, FileRecord>, ids: seq<string>, id: string): (p: nat)
    requires id in files && AllIn(files, ids)
    ensures p <= |ids|
    ensures forall k :: 0 <= k < p ==> files[ids[k]].updatedAt >= files[id].updatedAt
    ensures p < |ids| ==> files[ids[p]].updatedAt < files[id].updatedAt
  {
    if ids == [] || files[ids[0]].updatedAt < files[id].updatedAt then 0
    else 1 + InsertPosition(files, ids[1..], id)
  }

  /** Inserting one id at position p: where each old element moves, and what the list then holds. */
  lemma InsertAt(ids: seq<string>, id: string, p: nat)
    requires p <= |ids|
    ensures var ids' := ids[..p] + [id] + ids[p..];
      && |ids'| == |ids| + 1
      && (forall k :: 0 <= k < p ==> ids'[k] == ids[k])
      && ids'[p] == id
      && (forall k :: p < k < |ids'| ==> ids'[k] == ids[k - 1])
      && (forall x :: x in ids' <==> x in ids || x == id)
  {
    var ids' := ids[..p] + [id] + ids[p..];
    assert forall x :: x in ids' <==> x in ids || x == id by {
      assert ids == ids[..p] + ids[p..];
    }
  }

  /** Inserting at the insert position keeps a newest-first list newest first, and a new id keeps it duplicate-free. */
  lemma {:induction false} InsertKeepsNewestFirst(files: map<string, FileRecord>, ids: seq<string>, id: string)
    requires id in files && AllIn(files, ids) && NewestFirst(files, ids)
    ensures var p := InsertPosition(files, ids, id);
      var ids' := ids[..p] + [id] + ids[p..];
      && AllIn(files, ids') && NewestFirst(files, ids')
      && (forall x :: x in ids' <==> x in ids || x == id)
      && (Distinct(ids) && id !in ids ==> Distinct(ids'))
  {
    var p := InsertPosition(files, ids, id);
    var ids' := ids[..p] + [id] + ids[p..];
    InsertAt(ids, id, p);
    var t := files[id].updatedAt;
    forall a, b | 0 <= a < b < |ids'| ensures files[ids'[a]].updatedAt >= files[ids'[b]].updatedAt {
      if b < p {
        assert ids'[a] == ids[a] && ids'[b] == ids[b];
      } else if b == p {
        assert ids'[a] == ids[a];
      } else if a > p {
        assert ids'[a] == ids[a - 1] && ids'[b] == ids[b - 1];
      } else if a == p {
        assert ids'[b] == ids[b - 1];
        assert files[ids[b - 1]].updatedAt <= files[ids[p]].updatedAt < t;
      } else {
        assert ids'[a] == ids[a] && ids'[b] == ids[b - 1];
      }
    }
    if Distinct(ids) && id !in ids {
      forall a, b | 0 <= a < b < |ids'| ensures ids'[a] != ids'[b] {
        if b < p {
          assert ids'[a] == ids[a] && ids'[b] == ids[b];
        } else if b == p {
          assert ids'[a] == ids[a];
        } else if a > p {
          assert ids'[a] == ids[a - 1] && ids'[b] == ids[b - 1];
        } else if a == p {
          assert ids'[b] == ids[b - 1];
        } else {
          assert ids'[a] == ids[a] && ids'[b] == ids[b - 1];
        }
      }
    }
  }

  /**
   * What holds while `findMany` goes through the table: the ids chosen so far are the selected
   * rows among those already visited, each once, newest first.
   */
  ghost predicate FindProgress(files: map<string, FileRecord>, where: (string, FileRecord) -> bool,
                               ids: seq<string>, remaining: set<string>)
  {
    && remaining <= files.Keys
    && AllIn(files, ids) && NewestFirst(files, ids) && Distinct(ids)
    && (forall x :: x in ids ==> x in files && x !in remaining && where(x, files[x]))
    && (forall x :: x in files && x !in remaining && where(x, files[x]) ==> x in ids)
  }

  /** Visiting one more row keeps the progress of `findMany`: a selected row goes in at its insert position. */
  lemma FindStep(files: map<string, FileRecord>, where: (string, FileRecord) -> bool,
                 ids: seq<string>, remaining: set<string>, id: string, ids': seq<string>)
    requires FindProgress(files, where, ids, remaining) && id in remaining
    requires where(id, files[id]) ==>
      ids' == ids[..InsertPosition(files, ids, id)] + [id] + ids[InsertPosition(files, ids, id)..]
    requires !where(id, files[id]) ==> ids' == ids
    ensures FindProgress(files, where, ids', remaining - {id})
  {
    if where(id, files[id]) {
      InsertKeepsNewestFirst(files, ids, id);
    }
  }

  /** When every row has been visited, the metadata list is exactly the selected rows, each once, newest first. */
  lemma FindDone(files: map<string, FileRecord>, where: (string, FileRecord) -> bool, ids: seq<string>)
    requires FindProgress(files, where, ids, {})
    ensures var r := MetadataList(files, ids);
      && (forall k :: 0 <= k < |r| ==>
            r[k].id in files && where(r[k].id, files[r[k].id]) && r[k] == MapFileToMetadata(r[k].id, files[r[k].id], [], {}))
      && (forall id :: id in files && where(id, files[id]) ==> exists k :: 0 <= k < |r| && r[k].id == id)
      && (forall a, b :: 0 <= a < b < |r| ==> r[a].id != r[b].id)
      && (forall a, b :: 0 <= a < b < |r| ==> files[r[a].id].updatedAt >= files[r[b].id].updatedAt)
  {
    var r := MetadataList(files, ids);
    forall k | 0 <= k < |r|
      ensures r[k].id in files && where(r[k].id, files[r[k].id]) && r[k] == MapFileToMetadata(r[k].id, files[r[k].id], [], {})
    {
      assert r[k].id == ids[k] && ids[k] in ids;
    }
    forall id | id in files && where(id, files[id]) ensures exists k :: 0 <= k < |r| && r[k].id == id {
      var k :| 0 <= k < |ids| && ids[k] == id;
      assert r[k].id == id;
    }
  }

  /** The metadata of the listed rows, in the same order, without versions or shares. */
  function MetadataList(files: map<string, FileRecord>, ids: seq<string>): (r: seq<FileMetadata>)
    requires AllIn(files, ids)
    ensures |r| == |ids|
    ensures forall k :: 0 <= k < |ids| ==> r[k] == MapFileToMetadata(ids[k], files[ids[k]], [], {})
    ensures forall k :: 0 <= k < |ids| ==> r[k].id == ids[k]
  {
    if ids == [] then [] else [MapFileToMetadata(ids[0], files[ids[0]], [], {})] + MetadataList(files, ids[1..])
  }

  // ---------------------------------------------------------------------------
  // Batch operations

  /** Each element of xs goes to exactly one of ys and zs, and both keep the order of xs. */
  predicate Interleave(xs: seq<string>, ys: seq<string>, zs: seq<string>)
    decreases |xs|
  {
    if xs == [] then ys == [] && zs == []
    else
      var x := xs[|xs| - 1];
      || (ys != [] && ys[|ys| - 1] == x && Interleave(xs[..|xs| - 1], ys[..|ys| - 1], zs))
      || (zs != [] && zs[|zs| - 1] == x && Interleave(xs[..|xs| - 1], ys, zs[..|zs| - 1]))
  }

  lemma {:induction false} InterleaveCounts(xs: seq<string>, ys: seq<string>, zs: seq<string>)
    requires Interleave(xs, ys, zs)
    ensures multiset(ys) + multiset(zs) == multiset(xs)
    decreases |xs|
  {
    if xs != [] {
      var x := xs[|xs| - 1];
      assert xs == xs[..|xs| - 1] + [x];
      if ys != [] && ys[|ys| - 1] == x && Interleave(xs[..|xs| - 1], ys[..|ys| - 1], zs) {
        InterleaveCounts(xs[..|xs| - 1], ys[..|ys| - 1], zs);
        assert ys == ys[..|ys| - 1] + [x];
      } else {
        InterleaveCounts(xs[..|xs| - 1], ys, zs[..|zs| - 1]);
        assert zs == zs[..|zs| - 1] + [x];
      }
    }
  }

  /** What `batchDeleteFiles` has done after the given ids: the remaining rows and the two lists. */
  datatype BatchDelete = BatchDelete(files: map<string, FileRecord>, deleted: seq<string>, failed: seq<string>)

  /** `batchDeleteFiles` on the file table: an id is deleted if its row still exists and is the caller's, else it fails. */
  function BatchDeleteRun(files: map<string, FileRecord>, ids: seq<string>, userId: string): (r: BatchDelete)
    ensures |r.deleted| + |r.failed| == |ids|
    decreases |ids|
  {
    if ids == [] then BatchDelete(files, [], [])
    else
      var prev := BatchDeleteRun(files, ids[..|ids| - 1], userId);
      var id := ids[|ids| - 1];
      if id in prev.files && prev.files[id].userId == userId then
        BatchDelete(prev.files - {id}, prev.deleted + [id], prev.failed)
      else
        BatchDelete(prev.files, prev.deleted, prev.failed + [id])
  }

  /** One more id: the run over ids + [id] is the run over ids followed by one step. */
  lemma BatchDeleteStep(files: map<string, FileRecord>, ids: seq<string>, id: string, userId: string)
    ensures var prev := BatchDeleteRun(files, ids, userId);
      BatchDeleteRun(files, ids + [id], userId) ==
        if id in prev.files && prev.files[id].userId == userId
        then BatchDelete(prev.files - {id}, prev.deleted + [id], prev.failed)
        else BatchDelete(prev.files, prev.deleted, prev.failed + [id])
  {
    assert (ids + [id])[..|ids|] == ids;
  }

  /** Owned ids are deleted (each once), all others fail; the rows left are exactly the untouched ones. */
  lemma {:induction false} BatchDeleteOutcome(files: map<string, FileRecord>, ids: seq<string>, userId: string)
    ensures var r := BatchDeleteRun(files, ids, userId);
      && (forall id :: id in r.deleted <==> id in ids && id in files && files[id].userId == userId)
      && Distinct(r.deleted)
      && (forall id :: id in r.files <==> id in files && !(id in ids && files[id].userId == userId))
      && (forall id :: id in r.files ==> r.files[id] == files[id])
    decreases |ids|
  {
    if ids != [] {
      var prefix := ids[..|ids| - 1];
      var id := ids[|ids| - 1];
      BatchDeleteOutcome(files, prefix, userId);
      assert forall x :: x in ids <==> x in prefix || x == id by {
        assert ids == prefix + [id];
      }
    }
  }

  /** Every id of the input is reported once: deleted and failed together are the input. */
  lemma {:induction false} BatchDeleteInterleaves(files: map<string, FileRecord>, ids: seq<string>, userId: string)
    ensures var r := BatchDeleteRun(files, ids, userId);
      Interleave(ids, r.deleted, r.failed)
    decreases |ids|
  {
    if ids != [] {
      var prefix := ids[..|ids| - 1];
      var id := ids[|ids| - 1];
      BatchDeleteInterleaves(files, prefix, userId);
      var prev := BatchDeleteRun(files, prefix, userId);
      assert (prev.deleted + [id])[..|prev.deleted|] == prev.deleted;
      assert (prev.failed + [id])[..|prev.failed|] == prev.failed;
    }
  }

  /** The deleted and failed ids together are the input, as a multiset. */
  lemma BatchDeletePartition(files: map<string, FileRecord>, ids: seq<string>, userId: string)
    ensures var r := BatchDeleteRun(files, ids, userId);
      Interleave(ids, r.deleted, r.failed) && multiset(r.deleted) + multiset(r.failed) == multiset(ids)
  {
    var r := BatchDeleteRun(files, ids, userId);
    BatchDeleteInterleaves(files, ids, userId);
    InterleaveCounts(ids, r.deleted, r.failed);
  }

  /** The storage keys of the deleted rows. */
  function KeysOf(files: map<string, FileRecord>, ids: seq<string>): set<string>
    decreases |ids|
  {
    if ids == [] then {}
    else
      var id := ids[|ids| - 1];
      KeysOf(files, ids[..|ids| - 1]) + if id in files then {files[id].key} else {}
  }

  /** Deleting one more row adds exactly its key to the keys removed so far. */
  lemma KeysOfAppend(files: map<string, FileRecord>, ids: seq<string>, id: string)
    requires id in files
    ensures KeysOf(files, ids + [id]) == KeysOf(files, ids) + {files[id].key}
  {
    assert (ids + [id])[..|ids|] == ids;
  }

  /** The keys are exactly those of the listed ids that have a row. */
  lemma {:induction false} KeysOfMembers(files: map<string, FileRecord>, ids: seq<string>, k: string)
    ensures k in KeysOf(files, ids) <==> exists id :: id in ids && id in files && files[id].key == k
    decreases |ids|
  {
    if ids != [] {
      var prefix := ids[..|ids| - 1];
      var last := ids[|ids| - 1];
      KeysOfMembers(files, prefix, k);
      assert forall x :: x in ids <==> x in prefix || x == last by {
        assert ids == prefix + [last];
      }
    }
  }

  /** Removing one more deleted row's key from what is left of a map keeps it "the original less the deleted rows' keys". */
  lemma RemoveDeletedKey<V>(files: map<string, FileRecord>, original: map<string, V>, deleted: seq<string>,
                            left: map<string, V>, id: string)
    requires id in files
    requires left == original - KeysOf(files, deleted)
    ensures left - {files[id].key} == original - KeysOf(files, deleted + [id])
  {
    KeysOfAppend(files, deleted, id);
  }

  /** One iteration of the `batchDeleteFiles` loop: the run, the index and the bucket advance together. */
  lemma DeleteEachStep(files: map<string, FileRecord>, keyIndex: map<string, string>, blobs: map<string, StoredObject>,
                       userId: string, ids: seq<string>, id: string,
                       rows: map<string, FileRecord>, index: map<string, string>, objects: map<string, StoredObject>,
                       deleted: seq<string>, failed: seq<string>)
    requires BatchDeleteRun(files, ids, userId) == BatchDelete(rows, deleted, failed)
    requires objects == blobs - KeysOf(files, deleted) && index == keyIndex - KeysOf(files, deleted)
    ensures id in rows && rows[id].userId == userId ==>
      && BatchDeleteRun(files, ids + [id], userId) == BatchDelete(rows - {id}, deleted + [id], failed)
      && objects - {rows[id].key} == blobs - KeysOf(files, deleted + [id])
      && index - {rows[id].key} == keyIndex - KeysOf(files, deleted + [id])
    ensures !(id in rows && rows[id].userId == userId) ==>
      BatchDeleteRun(files, ids + [id], userId) == BatchDelete(rows, deleted, failed + [id])
  {
    BatchDeleteStep(files, ids, id, userId);
    if id in rows && rows[id].userId == userId {
      BatchDeleteKeepsRow(files, ids, userId, id);
      RemoveDeletedKey(files, keyIndex, deleted, index, id);
      RemoveDeletedKey(files, blobs, deleted, objects, id);
    }
  }

  /**
   * The loop of `batchDeleteFiles`, over copies of the file table, the key index and the bucket:
   * the rows left and the lists are the run's, and exactly the deleted rows' keys are gone.
   */
  method DeleteEach(files: map<string, FileRecord>, keyIndex: map<string, string>, blobs: map<string, StoredObject>,
                    fileIds: seq<string>, userId: string)
    returns (rows: map<string, FileRecord>, index: map<string, string>, objects: map<string, StoredObject>,
             deleted: seq<string>, failed: seq<string>)
    ensures BatchDeleteRun(files, fileIds, userId) == BatchDelete(rows, deleted, failed)
    ensures objects == blobs - KeysOf(files, deleted)
    ensures index == keyIndex - KeysOf(files, deleted)
  {
    rows, index, objects := files, keyIndex, blobs;
    deleted, failed := [], [];
    var i := 0;
    while i < |fileIds|
      invariant 0 <= i <= |fileIds|
      invariant BatchDeleteRun(files, fileIds[..i], userId) == BatchDelete(rows, deleted, failed)
      invariant objects == blobs - KeysOf(files, deleted)
      invariant index == keyIndex - KeysOf(files, deleted)
    {
      var id := fileIds[i];
      PrefixExtends(fileIds, i);
      DeleteEachStep(files, keyIndex, blobs, userId, fileIds[..i], id, rows, index, objects, deleted, failed);
      if id in rows && rows[id].userId == userId {
        var key := rows[id].key;
        rows, index, objects := rows - {id}, index - {key}, objects - {key};
        deleted := deleted + [id];
      } else {
        failed := failed + [id];
      }
      i := i + 1;
    }
    assert fileIds[..i] == fileIds;
  }

  /** A row the run leaves is an original row, unchanged. */
  lemma {:induction false} BatchDeleteKeepsRow(files: map<string, FileRecord>, ids: seq<string>, userId: string, x: string)
    ensures var r := BatchDeleteRun(files, ids, userId);
      x in r.files ==> x in files && r.files[x] == files[x]
    decreases |ids|
  {
    if ids != [] {
      BatchDeleteKeepsRow(files, ids[..|ids| - 1], userId, x);
    }
  }

  /**
   * Deleting the run's rows and exactly their keys from the index and the bucket keeps the key
   * index, the clean-before-active rule and the protection of the stored objects.
   */
  lemma {:induction false} BatchDeleteKeepsTableInvariants(files: map<string, FileRecord>, keyIndex: map<string, string>,
                                                           blobs: map<string, StoredObject>, ids: seq<string>, userId: string)
    requires IndexConsistent(files, keyIndex) && ActiveFilesClean(files) && BlobsProtected(blobs)
    ensures var r := BatchDeleteRun(files, ids, userId);
      var gone := KeysOf(files, r.deleted);
      IndexConsistent(r.files, keyIndex - gone) && ActiveFilesClean(r.files) && BlobsProtected(blobs - gone)
    decreases |ids|
  {
    if ids != [] {
      var prefix := ids[..|ids| - 1];
      var id := ids[|ids| - 1];
      BatchDeleteKeepsTableInvariants(files, keyIndex, blobs, prefix, userId);
      var prev := BatchDeleteRun(files, prefix, userId);
      var gone := KeysOf(files, prev.deleted);
      if id in prev.files && prev.files[id].userId == userId {
        BatchDeleteKeepsRow(files, prefix, userId, id);
        KeysOfAppend(files, prev.deleted, id);
        RemoveKeepsIndexConsistent(prev.files, keyIndex - gone, id);
        assert keyIndex - gone - {files[id].key} == keyIndex - (gone + {files[id].key});
      }
    }
  }


  /** What `batchUpdateTags` has done after the given ids. */
  datatype BatchTag = BatchTag(files: map<string, FileRecord>, updated: seq<string>, failed: seq<string>)

  /** `batchUpdateTags` on the file table: owned ids get the new tags, all others fail. */
  function BatchTagRun(files: map<string, FileRecord>, ids: seq<string>, userId: string, tags: map<string, string>): (r: BatchTag)
    ensures |r.updated| + |r.failed| == |ids|
    ensures forall id :: id in r.files <==> id in files
    ensures forall id :: id in r.files ==> r.files[id].userId == files[id].userId
    decreases |ids|
  {
    if ids == [] then BatchTag(files, [], [])
    else
      var prev := BatchTagRun(files, ids[..|ids| - 1], userId, tags);
      var id := ids[|ids| - 1];
      if id in prev.files && prev.files[id].userId == userId then
        BatchTag(prev.files[id := prev.files[id].(tags := tags)], prev.updated + [id], prev.failed)
      else
        BatchTag(prev.files, prev.updated, prev.failed + [id])
  }

  /** An updated id is one of the caller's existing files among the input; a failed id is an input id that is not. */
  lemma {:induction false} BatchTagListsOutcome(files: map<string, FileRecord>, ids: seq<string>, userId: string,
                                                tags: map<string, string>, x: string)
    ensures var r := BatchTagRun(files, ids, userId, tags);
      && (x in r.updated ==> x in ids && x in files && files[x].userId == userId)
      && (x in r.failed ==> x in ids && !(x in files && files[x].userId == userId))
    decreases |ids|
  {
    if ids != [] {
      var prefix := ids[..|ids| - 1];
      var id := ids[|ids| - 1];
      assert x in ids <==> x in prefix || x == id by {
        assert ids == prefix + [id];
      }
      BatchTagListsOutcome(files, prefix, userId, tags, x);
    }
  }

  /** A listed file of the caller gets the new tags; every other row is as it was. */
  lemma {:induction false} BatchTagRowsOutcome(files: map<string, FileRecord>, ids: seq<string>, userId: string,
                                               tags: map<string, string>, x: string)
    requires x in files
    ensures var r := BatchTagRun(files, ids, userId, tags);
      x in r.files && r.files[x] == if x in ids && files[x].userId == userId then files[x].(tags := tags) else files[x]
    decreases |ids|
  {
    if ids != [] {
      var prefix := ids[..|ids| - 1];
      var id := ids[|ids| - 1];
      assert x in ids <==> x in prefix || x == id by {
        assert ids == prefix + [id];
      }
      BatchTagRowsOutcome(files, prefix, userId, tags, x);
      var prev := BatchTagRun(files, prefix, userId, tags);
      var r := BatchTagRun(files, ids, userId, tags);
      if id in prev.files && prev.files[id].userId == userId {
        assert r.files == prev.files[id := prev.files[id].(tags := tags)];
      } else {
        assert r.files == prev.files;
      }
    }
  }

  /** One more id: the run over ids + [id] is the run over ids followed by one step. */
  lemma BatchTagStep(files: map<string, FileRecord>, ids: seq<string>, id: string, userId: string, tags: map<string, string>)
    ensures var prev := BatchTagRun(files, ids, userId, tags);
      BatchTagRun(files, ids + [id], userId, tags) ==
        if id in prev.files && prev.files[id].userId == userId
        then BatchTag(prev.files[id := prev.files[id].(tags := tags)], prev.updated + [id], prev.failed)
        else BatchTag(prev.files, prev.updated, prev.failed + [id])
  {
    assert (ids + [id])[..|ids|] == ids;
  }

  /** The loop of `batchUpdateTags`, over a copy of the file table: the rows and the lists are the run's. */
  method TagEach(files: map<string, FileRecord>, fileIds: seq<string>, userId: string, tags: map<string, string>)
    returns (rows: map<string, FileRecord>, updated: seq<string>, failed: seq<string>)
    ensures BatchTagRun(files, fileIds, userId, tags) == BatchTag(rows, updated, failed)
  {
    rows, updated, failed := files, [], [];
    var i := 0;
    while i < |fileIds|
      invariant 0 <= i <= |fileIds|
      invariant BatchTagRun(files, fileIds[..i], userId, tags) == BatchTag(rows, updated, failed)
    {
      var id := fileIds[i];
      PrefixExtends(fileIds, i);
      BatchTagStep(files, fileIds[..i], id, userId, tags);
      if id in rows && rows[id].userId == userId {
        rows, updated := rows[id := rows[id].(tags := tags)], updated + [id];
      } else {
        failed := failed + [id];
      }
      i := i + 1;
    }
    assert fileIds[..i] == fileIds;
  }

  /** Retagging rows keeps the key index and the clean-before-active rule of the file table. */
  lemma {:induction false} BatchTagKeepsTableInvariants(files: map<string, FileRecord>, keyIndex: map<string, string>,
                                                        ids: seq<string>, userId: string, tags: map<string, string>)
    requires IndexConsistent(files, keyIndex) && ActiveFilesClean(files)
    ensures var r := BatchTagRun(files, ids, userId, tags);
      IndexConsistent(r.files, keyIndex) && ActiveFilesClean(r.files)
    decreases |ids|
  {
    if ids != [] {
      var prefix := ids[..|ids| - 1];
      var id := ids[|ids| - 1];
      BatchTagKeepsTableInvariants(files, keyIndex, prefix, userId, tags);
      var prev := BatchTagRun(files, prefix, userId, tags);
      if id in prev.files && prev.files[id].userId == userId {
        UpdateKeepsTableInvariants(prev.files, keyIndex, id, prev.files[id].(tags := tags));
      }
    }
  }

  /** Every input id lands in exactly one of the two lists, each kept in input order. */
  lemma {:induction false} BatchTagInterleaves(files: map<string, FileRecord>, ids: seq<string>, userId: string, tags: map<string, string>)
    ensures var r := BatchTagRun(files, ids, userId, tags);
      Interleave(ids, r.updated, r.failed)
    decreases |ids|
  {
    if ids != [] {
      var prefix := ids[..|ids| - 1];
      var id := ids[|ids| - 1];
      BatchTagInterleaves(files, prefix, userId, tags);
      var prev := BatchTagRun(files, prefix, userId, tags);
      assert (prev.updated + [id])[..|prev.updated|] == prev.updated;
      assert (prev.failed + [id])[..|prev.failed|] == prev.failed;
    }
  }

  /** The updated and failed ids together are the input, as a multiset. */
  lemma BatchTagPartition(files: map<string, FileRecord>, ids: seq<string>, userId: string, tags: map<string, string>)
    ensures var r := BatchTagRun(files, ids, userId, tags);
      Interleave(ids, r.updated, r.failed) && multiset(r.updated) + multiset(r.failed) == multiset(ids)
  {
    var r := BatchTagRun(files, ids, userId, tags);
    BatchTagInterleaves(files, ids, userId, tags);
    InterleaveCounts(ids, r.updated, r.failed);
  }

  // ---------------------------------------------------------------------------
  // The service

  class StorageService {
    /** The file table, by id. */
    var files: map<string, FileRecord>
    /** The unique storage-key column of the file table. */
    var keyIndex: map<string, string>
    /** The objects in the bucket, by key. */
    var blobs: map<string, StoredObject>
    /** The share table, by id. */
    var shares: map<string, ShareRecord>
    /** The version table, in insertion order. */
    var versions: seq<VersionRecord>

    predicate Valid()
      reads this
    {
      IndexConsistent(files, keyIndex) && ActiveFilesClean(files) && BlobsProtected(blobs)
    }

    constructor ()
      ensures Valid()
      ensures files == map[] && keyIndex == map[] && blobs == map[] && shares == map[] && versions == []
    {
      files := map[];
      keyIndex := map[];
      blobs := map[];
      shares := map[];
      versions := [];
    }

    /** `PutObjectCommand`: store an object under a key, replacing any object already there. */
    method PutObject(key: string, obj: StoredObject)
      requires Valid()
      requires obj.serverSideEncryption == Some("aws:kms") && obj.acl == "private"
      modifies this
      ensures Valid()
      ensures blobs == old(blobs)[key := obj]
      ensures files == old(files) && keyIndex == old(keyIndex) && shares == old(shares) && versions == old(versions)
    {
      blobs := blobs[key := obj];
    }

    /** `DeleteObjectCommand`: remove the object under a key, if there is one. */
    method DeleteObject(key: string)
      requires Valid()
      modifies this
      ensures Valid()
      ensures blobs == old(blobs) - {key}
      ensures files == old(files) && keyIndex == old(keyIndex) && shares == old(shares) && versions == old(versions)
    {
      blobs := blobs - {key};
    }

    /** `prisma.file.create`: insert a row under a fresh id; a key already in the table violates its unique constraint. */
    method CreateFile(id: string, row: FileRecord) returns (r: Result<()>)
      requires Valid()
      requires id !in files
      requires row.status == ACTIVE ==> row.scanStatus == CLEAN
      modifies this
      ensures Valid()
      ensures blobs == old(blobs) && shares == old(shares) && versions == old(versions)
      ensures row.key in old(keyIndex) ==> r == Err(UniqueKeyViolation) && files == old(files) && keyIndex == old(keyIndex)
      ensures row.key !in old(keyIndex) ==>
        r == Ok(()) && files == old(files)[id := row] && keyIndex == old(keyIndex)[row.key := id]
    {
      if row.key in keyIndex {
        return Err(UniqueKeyViolation);
      }
      InsertKeepsTableInvariants(files, keyIndex, id, row);
      files, keyIndex := files[id := row], keyIndex[row.key := id];
      r := Ok(());
    }

    /** Write back the file table, its key index and the bucket, as a batch left them. */
    method Commit(rows: map<string, FileRecord>, index: map<string, string>, objects: map<string, StoredObject>)
      requires IndexConsistent(rows, index) && ActiveFilesClean(rows) && BlobsProtected(objects)
      modifies this
      ensures Valid()
      ensures files == rows && keyIndex == index && blobs == objects
      ensures shares == old(shares) && versions == old(versions)
    {
      files, keyIndex, blobs := rows, index, objects;
    }

    /** The metadata with a file's versions and shares, as read with `include`. */
    function FullMetadata(id: string): (m: FileMetadata)
      requires id in files
      reads this
      ensures m.id == id && RecordOf(m, files[id].category, files[id].updatedAt) == files[id]
      ensures m.versions == VersionsOf(versions, id) && m.sharedWith == SharesOf(shares, id)
    {
      MapFileToMetadata(id, files[id], VersionsOf(versions, id), SharesOf(shares, id))
    }

    /**
     * `uploadFile`: validate type then size, store the object, record the scanned row, and for an
     * unclean scan remove the object again and fail. The row is inserted whatever the verdict.
     */
    method UploadFile(fileName: string, mimeType: string, size: int, userId: string, now: int,
                      md5: string -> string, scan: FileScanner.ScanResult, newId: string)
      returns (r: Result<FileMetadata>)
      requires Valid()
      requires newId !in files
      modifies this
      ensures Valid()
      ensures shares == old(shares) && versions == old(versions)
      ensures UploadRejection(mimeType, size).Some? ==>
        && r == Err(UploadRejection(mimeType, size).value)
        && files == old(files) && keyIndex == old(keyIndex) && blobs == old(blobs)
      ensures UploadRejection(mimeType, size).None? ==>
        var key := GenerateFileKey(fileName, userId, now, md5);
        var obj := PutParams(mimeType, map["uploadedBy" := userId, "originalName" := fileName]);
        var row := NewFileRecord(key, fileName, size, mimeType, userId, now, scan);
        if key in old(keyIndex) then
          && r == Err(UniqueKeyViolation)
          && files == old(files) && keyIndex == old(keyIndex) && blobs == old(blobs)[key := obj]
        else
          && files == old(files)[newId := row]
          && keyIndex == old(keyIndex)[key := newId]
          && (scan.isClean ==> blobs == old(blobs)[key := obj] && r == Ok(MapFileToMetadata(newId, row, [], {})))
          && (!scan.isClean ==> blobs == old(blobs) - {key} && r == Err(ScanFailureMessage(scan)))
    {
      var rejection := UploadRejection(mimeType, size);
      if rejection.Some? {
        return Err(rejection.value);
      }
      var key := GenerateFileKey(fileName, userId, now, md5);
      PutObject(key, PutParams(mimeType, map["uploadedBy" := userId, "originalName" := fileName]));
      var row := NewFileRecord(key, fileName, size, mimeType, userId, now, scan);
      var created := CreateFile(newId, row);
      if created.Err? {
        return Err(created.error);
      }
      if !scan.isClean {
        DeleteObject(key);
        return Err(ScanFailureMessage(scan));
      }
      r := Ok(MapFileToMetadata(newId, row, [], {}));
    }

    /**
     * `getFileUrl`: refused, changing nothing, for an unknown key, a deleted file or an infected
     * one; otherwise the access time is recorded and a link with the configured expiry issued.
     */
    method GetFileUrl(key: string, now: int) returns (r: Result<SignedUrl>)
      requires Valid()
      modifies this
      ensures Valid()
      ensures keyIndex == old(keyIndex) && blobs == old(blobs) && shares == old(shares) && versions == old(versions)
      ensures key !in keyIndex ==> r == Err("File not found") && files == old(files)
      ensures key in keyIndex && old(files)[keyIndex[key]].status == DELETED ==>
        r == Err("File has been deleted") && files == old(files)
      ensures key in keyIndex && old(files)[keyIndex[key]].status != DELETED && old(files)[keyIndex[key]].scanStatus == INFECTED ==>
        r == Err("File is infected and cannot be downloaded") && files == old(files)
      ensures r.Ok? <==> key in keyIndex && old(files)[keyIndex[key]].status != DELETED && old(files)[keyIndex[key]].scanStatus != INFECTED
      ensures r.Ok? ==>
        && r.value == SignedUrl(key, UrlExpirationTime)
        && files == old(files)[keyIndex[key] := old(files)[keyIndex[key]].(lastAccessed := Some(now))]
    {
      if key !in keyIndex {
        return Err("File not found");
      }
      var id := keyIndex[key];
      var file := files[id];
      if file.status == DELETED {
        return Err("File has been deleted");
      }
      if file.scanStatus == INFECTED {
        return Err("File is infected and cannot be downloaded");
      }
      files := files[id := file.(lastAccessed := Some(now))];
      r := Ok(SignedUrl(key, UrlExpirationTime));
    }

    /**
     * `deleteFile`: mark the row DELETED, then remove the object. There is no ownership check. An
     * unknown key fails in the row update, before the object store is touched.
     */
    method DeleteFile(key: string) returns (r: Result<()>)
      requires Valid()
      modifies this
      ensures Valid()
      ensures keyIndex == old(keyIndex) && shares == old(shares) && versions == old(versions)
      ensures key !in keyIndex ==> r == Err(RecordToUpdateNotFound) && files == old(files) && blobs == old(blobs)
      ensures key in keyIndex ==>
        && r == Ok(())
        && files == old(files)[keyIndex[key] := old(files)[keyIndex[key]].(status := DELETED)]
        && blobs == old(blobs) - {key}
    {
      if key !in keyIndex {
        return Err(RecordToUpdateNotFound);
      }
      var id := keyIndex[key];
      files := files[id := files[id].(status := DELETED)];
      blobs := blobs - {key};
      r := Ok(());
    }

    /**
     * `prisma.file.findMany` with a where clause and `orderBy: { updatedAt: 'desc' }`, each row
     * mapped without versions or shares. Rows updated at the same instant come in no fixed order.
     */
    method FindMany(where: (string, FileRecord) -> bool) returns (r: seq<FileMetadata>)
      ensures forall k :: 0 <= k < |r| ==>
        r[k].id in files && where(r[k].id, files[r[k].id]) && r[k] == MapFileToMetadata(r[k].id, files[r[k].id], [], {})
      ensures forall id :: id in files && where(id, files[id]) ==> exists k :: 0 <= k < |r| && r[k].id == id
      ensures forall a, b :: 0 <= a < b < |r| ==> r[a].id != r[b].id
      ensures forall a, b :: 0 <= a < b < |r| ==> files[r[a].id].updatedAt >= files[r[b].id].updatedAt
    {
      var fs := files;
      var ids: seq<string> := [];
      var remaining := fs.Keys;
      while remaining != {}
        invariant FindProgress(fs, where, ids, remaining)
        decreases remaining
      {
        var id :| id in remaining;
        var ids' := ids;
        if where(id, fs[id]) {
          var p := InsertPosition(fs, ids, id);
          ids' := ids[..p] + [id] + ids[p..];
        }
        FindStep(fs, where, ids, remaining, id, ids');
        ids, remaining := ids', remaining - {id};
      }
      r := MetadataList(fs, ids);
      FindDone(fs, where, ids);
    }

    /** `listFiles(userId?)`: the owner's files, or every file when no user id is given, newest first. */
    method ListFiles(userId: Option<string>) returns (r: seq<FileMetadata>)
      ensures forall k :: 0 <= k < |r| ==>
        r[k].id in files && ListWhere(userId, files[r[k].id]) && r[k] == MapFileToMetadata(r[k].id, files[r[k].id], [], {})
      ensures forall id :: id in files && ListWhere(userId, files[id]) ==> exists k :: 0 <= k < |r| && r[k].id == id
      ensures forall a, b :: 0 <= a < b < |r| ==> r[a].id != r[b].id
      ensures forall a, b :: 0 <= a < b < |r| ==> files[r[a].id].updatedAt >= files[r[b].id].updatedAt
    {
      r := FindMany((id, f) => ListWhere(userId, f));
    }

    /**
     * `searchFiles`: the files shared with the caller (through any share, whatever its expiry) or
     * owned by the caller, narrowed by the filters present, newest first.
     */
    method SearchFiles(userId: string, query: SearchQuery, tagMatch: (map<string, string>, map<string, string>) -> bool)
      returns (r: seq<FileMetadata>)
      ensures forall k :: 0 <= k < |r| ==>
        && r[k].id in files
        && SearchWhere(userId, query, SharedFileIds(shares, userId), tagMatch, r[k].id, files[r[k].id])
        && r[k] == MapFileToMetadata(r[k].id, files[r[k].id], [], {})
      ensures forall id :: id in files && SearchWhere(userId, query, SharedFileIds(shares, userId), tagMatch, id, files[id]) ==>
        exists k :: 0 <= k < |r| && r[k].id == id
      ensures forall a, b :: 0 <= a < b < |r| ==> r[a].id != r[b].id
      ensures forall a, b :: 0 <= a < b < |r| ==> files[r[a].id].updatedAt >= files[r[b].id].updatedAt
    {
      var sharedIds := SharedFileIds(shares, userId);
      r := FindMany((id, f) => SearchWhere(userId, query, sharedIds, tagMatch, id, f));
    }

    /** `getFileById`: the file with its versions and shares, or nothing. */
    function GetFileById(id: string): (r: Option<FileMetadata>)
      reads this
      ensures r.Some? <==> id in files
      ensures r.Some? ==> r.value == FullMetadata(id)
    {
      if id in files then Some(FullMetadata(id)) else None
    }

    /**
     * `createNewVersion`: store the new content under the file's key with a `_v` timestamp suffix
     * and record a version numbered 1 with the parent's size and this scan's status. The object is
     * kept even when the scan is unclean, and the parent row is not changed.
     */
    method CreateNewVersion(fileId: string, userId: string, changeDescription: Option<string>, now: int,
                            scan: FileScanner.ScanResult, newVersionId: string)
      returns (r: Result<FileMetadata>)
      requires Valid()
      modifies this
      ensures Valid()
      ensures files == old(files) && keyIndex == old(keyIndex) && shares == old(shares)
      ensures fileId !in files ==> r == Err("File not found") && blobs == old(blobs) && versions == old(versions)
      ensures fileId in files ==>
        var existing := files[fileId];
        var versionKey := existing.key + "_v" + IntToString(now);
        && blobs == old(blobs)[versionKey := PutParams(existing.mimeType, map[])]
        && versions == old(versions) + [VersionRecord(newVersionId, fileId, versionKey, existing.size, userId, now, 1,
                                                     changeDescription, ScanStatusOf(scan), scan)]
        && r == Ok(FullMetadata(fileId))
    {
      if fileId !in files {
        return Err("File not found");
      }
      var existing := files[fileId];
      var versionKey := existing.key + "_v" + IntToString(now);
      blobs := blobs[versionKey := PutParams(existing.mimeType, map[])];
      var status := if scan.isClean then CLEAN else INFECTED;
      versions := versions + [VersionRecord(newVersionId, fileId, versionKey, existing.size, userId, now, 1,
                                            changeDescription, status, scan)];
      r := Ok(FullMetadata(fileId));
    }

    /** `shareFile`: only the owner may share; the permission defaults to VIEW. */
    method ShareFile(fileId: string, sharedByUserId: string, sharedWithUserId: string, permission: Option<SharePermission>,
                     expiresAt: Option<int>, now: int, newShareId: string)
      returns (r: Result<ShareInfo>)
      requires Valid()
      requires newShareId !in shares
      modifies this
      ensures Valid()
      ensures files == old(files) && keyIndex == old(keyIndex) && blobs == old(blobs) && versions == old(versions)
      ensures fileId !in files ==> r == Err("File not found") && shares == old(shares)
      ensures fileId in files && files[fileId].userId != sharedByUserId ==>
        r == Err("Only file owner can share the file") && shares == old(shares)
      ensures fileId in files && files[fileId].userId == sharedByUserId ==>
        var share := ShareRecord(fileId, sharedWithUserId, sharedByUserId,
                                 if permission.Some? then permission.value else VIEW, now, expiresAt);
        shares == old(shares)[newShareId := share] && r == Ok(ShareInfoOf(newShareId, share))
    {
      if fileId !in files {
        return Err("File not found");
      }
      if files[fileId].userId != sharedByUserId {
        return Err("Only file owner can share the file");
      }
      var share := ShareRecord(fileId, sharedWithUserId, sharedByUserId,
                               if permission.Some? then permission.value else VIEW, now, expiresAt);
      shares := shares[newShareId := share];
      r := Ok(ShareInfoOf(newShareId, share));
    }

    /** `updateFileShare`: only the owner of the shared file may change the permission or the expiry. */
    method UpdateFileShare(shareId: string, userId: string, updates: ShareUpdate) returns (r: Result<ShareInfo>)
      requires Valid()
      modifies this
      ensures Valid()
      ensures files == old(files) && keyIndex == old(keyIndex) && blobs == old(blobs) && versions == old(versions)
      ensures shareId !in old(shares) ==> r == Err("Share not found") && shares == old(shares)
      ensures shareId in old(shares) && !(old(shares)[shareId].fileId in files && files[old(shares)[shareId].fileId].userId == userId) ==>
        r == Err("Only file owner can update share settings") && shares == old(shares)
      ensures shareId in old(shares) && old(shares)[shareId].fileId in files && files[old(shares)[shareId].fileId].userId == userId ==>
        var s := old(shares)[shareId];
        var s' := s.(permission := if updates.permission.Some? then updates.permission.value else s.permission,
                     expiresAt := if updates.expiresAt.Some? then updates.expiresAt.value else s.expiresAt);
        shares == old(shares)[shareId := s'] && r == Ok(ShareInfoOf(shareId, s'))
    {
      if shareId !in shares {
        return Err("Share not found");
      }
      var s := shares[shareId];
      if s.fileId !in files || files[s.fileId].userId != userId {
        return Err("Only file owner can update share settings");
      }
      if updates.permission.Some? {
        s := s.(permission := updates.permission.value);
      }
      if updates.expiresAt.Some? {
        s := s.(expiresAt := updates.expiresAt.value);
      }
      shares := shares[shareId := s];
      r := Ok(ShareInfoOf(shareId, s));
    }

    /** `removeFileShare`: only the owner of the shared file may revoke it. */
    method RemoveFileShare(shareId: string, userId: string) returns (r: Result<()>)
      requires Valid()
      modifies this
      ensures Valid()
      ensures files == old(files) && keyIndex == old(keyIndex) && blobs == old(blobs) && versions == old(versions)
      ensures shareId !in old(shares) ==> r == Err("Share not found") && shares == old(shares)
      ensures shareId in old(shares) && !(old(shares)[shareId].fileId in files && files[old(shares)[shareId].fileId].userId == userId) ==>
        r == Err("Only file owner can remove share") && shares == old(shares)
      ensures shareId in old(shares) && old(shares)[shareId].fileId in files && files[old(shares)[shareId].fileId].userId == userId ==>
        r == Ok(()) && shares == old(shares) - {shareId}
    {
      if shareId !in shares {
        return Err("Share not found");
      }
      var s := shares[shareId];
      if s.fileId !in files || files[s.fileId].userId != userId {
        return Err("Only file owner can remove share");
      }
      shares := shares - {shareId};
      r := Ok(());
    }

    /** `updateFileTags`: only the owner may change tags; the whole map is replaced and updatedAt set. */
    method UpdateFileTags(fileId: string, userId: string, tags: map<string, string>, now: int) returns (r: Result<FileMetadata>)
      requires Valid()
      modifies this
      ensures Valid()
      ensures keyIndex == old(keyIndex) && blobs == old(blobs) && shares == old(shares) && versions == old(versions)
      ensures fileId !in old(files) ==> r == Err("File not found") && files == old(files)
      ensures fileId in old(files) && old(files)[fileId].userId != userId ==>
        r == Err("Only file owner can update tags") && files == old(files)
      ensures fileId in old(files) && old(files)[fileId].userId == userId ==>
        && files == old(files)[fileId := old(files)[fileId].(tags := tags, updatedAt := now)]
        && r == Ok(FullMetadata(fileId))
    {
      if fileId !in files {
        return Err("File not found");
      }
      if files[fileId].userId != userId {
        return Err("Only file owner can update tags");
      }
      files := files[fileId := files[fileId].(tags := tags, updatedAt := now)];
      r := Ok(FullMetadata(fileId));
    }

    /** `updateFileCategory`: only the owner may set the category. */
    method UpdateFileCategory(id: string, userId: string, category: string) returns (r: Result<FileMetadata>)
      requires Valid()
      modifies this
      ensures Valid()
      ensures keyIndex == old(keyIndex) && blobs == old(blobs) && shares == old(shares) && versions == old(versions)
      ensures id !in old(files) ==> r == Err("File not found") && files == old(files)
      ensures id in old(files) && old(files)[id].userId != userId ==> r == Err("Permission denied") && files == old(files)
      ensures id in old(files) && old(files)[id].userId == userId ==>
        files == old(files)[id := old(files)[id].(category := Some(category))] && r == Ok(FullMetadata(id))
    {
      if id !in files {
        return Err("File not found");
      }
      if files[id].userId != userId {
        return Err("Permission denied");
      }
      files := files[id := files[id].(category := Some(category))];
      r := Ok(FullMetadata(id));
    }

    /**
     * `batchDeleteFiles`: for each id in turn, a row that exists and belongs to the caller has its
     * object and then its row removed outright; every other id is reported as failed.
     */
    method BatchDeleteFiles(fileIds: seq<string>, userId: string) returns (deleted: seq<string>, failed: seq<string>)
      requires Valid()
      modifies this
      ensures Valid()
      ensures shares == old(shares) && versions == old(versions)
      ensures BatchDeleteRun(old(files), fileIds, userId) == BatchDelete(files, deleted, failed)
      ensures blobs == old(blobs) - KeysOf(old(files), deleted)
      ensures keyIndex == old(keyIndex) - KeysOf(old(files), deleted)
    {
      var rows, index, objects;
      rows, index, objects, deleted, failed := DeleteEach(files, keyIndex, blobs, fileIds, userId);
      BatchDeleteKeepsTableInvariants(files, keyIndex, blobs, fileIds, userId);
      Commit(rows, index, objects);
    }

    /** `batchUpdateTags`: for each id in turn, a row that belongs to the caller gets the new tags; every other id fails. */
    method BatchUpdateTags(fileIds: seq<string>, userId: string, tags: map<string, string>) returns (updated: seq<string>, failed: seq<string>)
      requires Valid()
      modifies this
      ensures Valid()
      ensures keyIndex == old(keyIndex) && blobs == old(blobs) && shares == old(shares) && versions == old(versions)
      ensures BatchTagRun(old(files), fileIds, userId, tags) == BatchTag(files, updated, failed)
    {
      var rows;
      rows, updated, failed := TagEach(files, fileIds, userId, tags);
      BatchTagKeepsTableInvariants(files, keyIndex, fileIds, userId, tags);
      Commit(rows, keyIndex, blobs);
    }
  }
}
