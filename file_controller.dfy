/**
 * The HTTP handlers of the file routes: each checks its inputs, makes its calls into the file
 * service, and answers with one response. A handler's input guards answer 400 before any call;
 * a call that throws is answered 500 with the handler's own fixed message. The service calls'
 * outcomes are parameters: the handlers only decide which calls to make and how to answer.
 */
module FileController {

  import opened Common
  import Permissions
  import AuthService
  import StorageService

  /** A value of a request body, as JavaScript sees it. Numbers are integers here. */
  datatype JsValue =
    | Undefined
    | Null
    | Bool(b: bool)
    | Num(n: int)
    | Str(s: string)
    | Arr(items: seq<JsValue>)
    | Obj(fields: map<string, JsValue>)
  {
    /** JavaScript truthiness: `undefined`, `null`, `false`, `0` and `''` are falsy. */
    predicate Truthy() {
      match this
      case Undefined => false
      case Null => false
      case Bool(b) => b
      case Num(n) => n != 0
      case Str(s) => s != ""
      case Arr(_) => true
      case Obj(_) => true
    }

    /** `typeof`: `null` and arrays are both "object". */
    function TypeOf(): string {
      match this
      case Undefined => "undefined"
      case Bool(_) => "boolean"
      case Num(_) => "number"
      case Str(_) => "string"
      case Null => "object"
      case Arr(_) => "object"
      case Obj(_) => "object"
    }
  }

  /** `req.file` as the upload middleware hands it over. */
  datatype UploadedFile = UploadedFile(originalName: string, mimeType: string, size: int)

  /** The query string of `GET /search`; each parameter is absent or one string. */
  datatype SearchParams = SearchParams(
    name: Option<string>,
    mimeType: Option<string>,
    tags: Option<string>,
    status: Option<string>,
    sharedWithMe: Option<string>)

  /** A call into the file service, with the arguments the handler passes. */
  datatype ServiceCall =
    | Upload(fileName: string, mimeType: string, size: int, userId: string)
    | NewVersion(fileId: string, userId: string, changeDescription: JsValue)
    | Share(fileId: string, sharedBy: string, sharedWith: JsValue, permission: JsValue, expiresAt: Option<int>)
    | ChangeShare(shareId: string, userId: string, permission: JsValue, expiry: Option<Option<int>>)
    | Unshare(shareId: string, userId: string)
    | Retag(fileId: string, userId: string, tags: JsValue)
    | Search(userId: string, query: StorageService.SearchQuery)
    | Url(key: string)
    | Delete(key: string)
    | List
    | ById(id: string)
    | Buffer(key: string)
    | Recategorize(fileId: string, userId: string, category: string)
    | DeleteMany(fileIds: seq<JsValue>, userId: string)
    | RetagMany(fileIds: seq<JsValue>, userId: string, tags: JsValue)

  /** Whether a service call returned or threw. */
  datatype Outcome = Returned | Threw

  /** What `getFileById` gave the preview handler. */
  datatype Lookup = Found(file: StorageService.FileMetadata) | Missing | LookupThrew

  /** A response body: an `{ error }` object, the service's result as JSON, a PNG image, or nothing. */
  datatype Body = ErrorMessage(message: string) | Payload | Png | NoBody

  datatype Response = Response(status: int, body: Body)

  /** The calls a handler made, in order, and the one response it sent. */
  datatype Handled = Handled(calls: seq<ServiceCall>, response: Response)

  /** An input guard's answer: 400 with the message, before any call. */
  function BadRequest(message: string): Handled {
    Handled([], Response(400, ErrorMessage(message)))
  }

  /**
   * The tail every handler shares: make the call, answer `success` with the result when it
   * returns, and 500 with the handler's message when it throws.
   */
  function Answer(call: ServiceCall, outcome: Outcome, success: int, failure: string): (h: Handled)
    requires success in {200, 201, 204}
    ensures h.calls == [call]
    ensures outcome.Returned? ==> h.response.status == success && h.response.body != ErrorMessage(failure)
    ensures outcome.Threw? ==> h.response == Response(500, ErrorMessage(failure))
  {
    if outcome.Threw? then Handled([call], Response(500, ErrorMessage(failure)))
    else if success == 204 then Handled([call], Response(204, NoBody))
    else Handled([call], Response(success, Payload))
  }

  /** `expiresAt ? new Date(expiresAt) : undefined`; `toDate` stands for the Date constructor. */
  function ExpiryOf(expiresAt: JsValue, toDate: JsValue -> int): (r: Option<int>)
    ensures r.Some? <==> expiresAt.Truthy()
  {
    if expiresAt.Truthy() then Some(toDate(expiresAt)) else None
  }

  /**
   * The expiry part of the update `updateShare` sends: a missing value leaves the expiry alone
   * and a present one sets it, so the handler can never clear an expiry.
   */
  function ExpiryUpdate(expiresAt: JsValue, toDate: JsValue -> int): (r: Option<Option<int>>)
    ensures r != Some(None)
    ensures r.None? <==> !expiresAt.Truthy()
  {
    match ExpiryOf(expiresAt, toDate)
    case None => None
    case Some(d) => Some(Some(d))
  }

  /** The tags guard of `updateTags` and `batchTag`: a truthy value whose `typeof` is "object". */
  predicate TagsAccepted(tags: JsValue) {
    tags.Truthy() && tags.TypeOf() == "object"
  }

  /** The guard of `batchDelete` and `batchTag`: `Array.isArray(fileIds)` and not empty. */
  predicate IdsAccepted(fileIds: JsValue) {
    fileIds.Arr? && |fileIds.items| != 0
  }

  /** How the database spells a file status. */
  function StatusName(st: StorageService.FileStatus): string {
    match st
    case ACTIVE => "ACTIVE"
    case QUARANTINED => "QUARANTINED"
    case DELETED => "DELETED"
  }

  /** The parse of a status filter: the name of a file status. */
  function StatusOf(s: string): (r: Option<StorageService.FileStatus>)
    ensures r.Some? ==> StatusName(r.value) == s
    ensures r.None? ==> forall st :: StatusName(st) != s
  {
    if s == "ACTIVE" then Some(StorageService.ACTIVE)
    else if s == "QUARANTINED" then Some(StorageService.QUARANTINED)
    else if s == "DELETED" then Some(StorageService.DELETED)
    else None
  }

  /**
   * The query `searchFiles` builds: name and mime type as given; tags parsed as JSON (`parse`,
   * which fails on malformed text) only when the parameter is non-empty; the status filter only
   * when non-empty, and it must name a status; `sharedWithMe` only for the exact text "true".
   */
  function SearchQueryOf(p: SearchParams, parse: string -> Option<map<string, string>>): (r: Result<StorageService.SearchQuery>)
    ensures r.Ok? <==>
      (Truthy(p.tags) ==> parse(p.tags.value).Some?) && (Truthy(p.status) ==> StatusOf(p.status.value).Some?)
    ensures r.Ok? ==> r.value.name == p.name && r.value.mimeType == p.mimeType
    ensures r.Ok? ==> (r.value.sharedWithMe <==> p.sharedWithMe == Some("true"))
    ensures r.Ok? ==> (r.value.tags.Some? <==> Truthy(p.tags))
    ensures r.Ok? ==> (r.value.status.Some? <==> Truthy(p.status))
  {
    var tags := if Truthy(p.tags) then parse(p.tags.value) else None;
    var status := if Truthy(p.status) then StatusOf(p.status.value) else None;
    if Truthy(p.tags) && tags.None? then Err("Unexpected token in JSON")
    else if Truthy(p.status) && status.None? then Err("Invalid value for argument `status`")
    else Ok(StorageService.SearchQuery(p.name, p.mimeType, tags, status, p.sharedWithMe == Some("true")))
  }

  // ---------------------------------------------------------------------------
  // The caller's id

  /** A role as the token's JSON holds it. */
  function RoleName(r: Permissions.Role): string {
    match r
    case ADMIN => "ADMIN"
    case AGENT => "AGENT"
    case USER => "USER"
  }

  /** `req.user` after `authenticate`: the signed claims, with the issue and expiry times the signer adds. */
  function ClaimsObject(p: AuthService.JwtPayload, issuedAt: int, expiresAt: int): JsValue {
    Obj(map["userId" := Str(p.userId), "email" := Str(p.email), "role" := Str(RoleName(p.role)),
            "iat" := Num(issuedAt), "exp" := Num(expiresAt)])
  }

  /** `value[name]`: an object's field, and undefined for a missing field or a value that is no object. */
  function Field(v: JsValue, name: string): JsValue {
    if v.Obj? && name in v.fields then v.fields[name] else Undefined
  }

  /** The caller's id as every handler reads it: `req.user.id`. */
  function CallerIdAsWritten(user: JsValue): (r: JsValue)
    ensures user.Obj? && "id" in user.fields ==> r == user.fields["id"]
    ensures !(user.Obj? && "id" in user.fields) ==> r == Undefined
  {
    Field(user, "id")
  }

  /** The claims of every issued token have no `id`, so the handlers pass an undefined caller id. */
  lemma CallerIdAsWrittenUndefined(p: AuthService.JwtPayload, issuedAt: int, expiresAt: int)
    ensures CallerIdAsWritten(ClaimsObject(p, issuedAt, expiresAt)) == Undefined
  {
    var fields := ClaimsObject(p, issuedAt, expiresAt).fields;
    assert fields.Keys == {"userId", "email", "role", "iat", "exp"};
    assert "id" !in fields;
  }

  /**
   * The caller's id as the token carries it: `req.user.userId`. The handlers below take this
   * id as their `userId`.
   */
  function CallerId(user: JsValue): (r: JsValue)
    ensures user.Obj? && "userId" in user.fields ==> r == user.fields["userId"]
    ensures !(user.Obj? && "userId" in user.fields) ==> r == Undefined
  {
    Field(user, "userId")
  }

  /** Read from the claims, the caller's id is the id of the user the token was issued to. */
  lemma CallerIdIsSigner(p: AuthService.JwtPayload, issuedAt: int, expiresAt: int)
    ensures CallerId(ClaimsObject(p, issuedAt, expiresAt)) == Str(p.userId)
  {
  }

  /** `uploadFile`: 400 without a file, otherwise the upload; 201 on success. */
  function UploadFile(file: Option<UploadedFile>, userId: string, outcome: Outcome): (h: Handled)
    ensures file.None? <==> h == BadRequest("No file provided")
    ensures file.Some? ==>
      && h.calls == [Upload(file.value.originalName, file.value.mimeType, file.value.size, userId)]
      && h.response.status == (if outcome.Returned? then 201 else 500)
    ensures file.Some? && outcome.Threw? ==> h.response.body == ErrorMessage("Failed to upload file")
  {
    if file.None? then BadRequest("No file provided")
    else Answer(Upload(file.value.originalName, file.value.mimeType, file.value.size, userId), outcome, 201, "Failed to upload file")
  }

  /** `createVersion`: 400 without a file, otherwise a new version of the file; 201 on success. */
  function CreateVersion(fileId: string, file: Option<UploadedFile>, userId: string, changeDescription: JsValue, outcome: Outcome): (h: Handled)
    ensures file.None? <==> h == BadRequest("No file provided")
    ensures file.Some? ==>
      && h.calls == [NewVersion(fileId, userId, changeDescription)]
      && h.response.status == (if outcome.Returned? then 201 else 500)
    ensures file.Some? && outcome.Threw? ==> h.response.body == ErrorMessage("Failed to create file version")
  {
    if file.None? then BadRequest("No file provided")
    else Answer(NewVersion(fileId, userId, changeDescription), outcome, 201, "Failed to create file version")
  }

  /** `shareFile`: 400 unless the body names a user, otherwise the share; 201 on success. */
  function ShareFile(fileId: string, userId: string, sharedWith: JsValue, permission: JsValue, expiresAt: JsValue,
                     toDate: JsValue -> int, outcome: Outcome): (h: Handled)
    ensures !sharedWith.Truthy() <==> h == BadRequest("User ID is required")
    ensures sharedWith.Truthy() ==>
      && h.calls == [Share(fileId, userId, sharedWith, permission, ExpiryOf(expiresAt, toDate))]
      && h.response.status == (if outcome.Returned? then 201 else 500)
    ensures sharedWith.Truthy() && outcome.Threw? ==> h.response.body == ErrorMessage("Failed to share file")
  {
    if !sharedWith.Truthy() then BadRequest("User ID is required")
    else Answer(Share(fileId, userId, sharedWith, permission, ExpiryOf(expiresAt, toDate)), outcome, 201, "Failed to share file")
  }

  /** `updateShare`: no guard; the permission and a present expiry are passed on; 200 on success. */
  function UpdateShare(shareId: string, userId: string, permission: JsValue, expiresAt: JsValue,
                       toDate: JsValue -> int, outcome: Outcome): (h: Handled)
    ensures h.calls == [ChangeShare(shareId, userId, permission, ExpiryUpdate(expiresAt, toDate))]
    ensures h.response.status == (if outcome.Returned? then 200 else 500)
    ensures outcome.Threw? ==> h.response.body == ErrorMessage("Failed to update share settings")
  {
    Answer(ChangeShare(shareId, userId, permission, ExpiryUpdate(expiresAt, toDate)), outcome, 200, "Failed to update share settings")
  }

  /** `removeShare`: 204 with no body on success. */
  function RemoveShare(shareId: string, userId: string, outcome: Outcome): (h: Handled)
    ensures h.calls == [Unshare(shareId, userId)]
    ensures outcome.Returned? ==> h.response == Response(204, NoBody)
    ensures outcome.Threw? ==> h.response == Response(500, ErrorMessage("Failed to remove share"))
  {
    Answer(Unshare(shareId, userId), outcome, 204, "Failed to remove share")
  }

  /** `updateTags`: 400 unless the tags are an object (arrays pass), otherwise the update; 200 on success. */
  function UpdateTags(fileId: string, userId: string, tags: JsValue, outcome: Outcome): (h: Handled)
    ensures !TagsAccepted(tags) <==> h == BadRequest("Tags must be an object")
    ensures TagsAccepted(tags) ==>
      && h.calls == [Retag(fileId, userId, tags)]
      && h.response.status == (if outcome.Returned? then 200 else 500)
    ensures TagsAccepted(tags) && outcome.Threw? ==> h.response.body == ErrorMessage("Failed to update tags")
  {
    if !TagsAccepted(tags) then BadRequest("Tags must be an object")
    else Answer(Retag(fileId, userId, tags), outcome, 200, "Failed to update tags")
  }

  /**
   * `searchFiles`: build the query and search; a query that cannot be built (malformed tags JSON,
   * an unknown status) ends in the same 500 as a failing search.
   */
  function SearchFiles(userId: string, p: SearchParams, parse: string -> Option<map<string, string>>, outcome: Outcome): (h: Handled)
    ensures SearchQueryOf(p, parse).Err? ==> h == Handled([], Response(500, ErrorMessage("Failed to search files")))
    ensures SearchQueryOf(p, parse).Ok? ==>
      && h.calls == [Search(userId, SearchQueryOf(p, parse).value)]
      && h.response.status == (if outcome.Returned? then 200 else 500)
    ensures h.response.status == 500 ==> h.response.body == ErrorMessage("Failed to search files")
  {
    match SearchQueryOf(p, parse)
    case Err(_) => Handled([], Response(500, ErrorMessage("Failed to search files")))
    case Ok(q) => Answer(Search(userId, q), outcome, 200, "Failed to search files")
  }

  /** `getFileUrl`: 200 with the link on success. */
  function GetFileUrl(key: string, outcome: Outcome): (h: Handled)
    ensures h.calls == [Url(key)]
    ensures h.response.status == (if outcome.Returned? then 200 else 500)
    ensures outcome.Threw? ==> h.response.body == ErrorMessage("Failed to get file URL")
  {
    Answer(Url(key), outcome, 200, "Failed to get file URL")
  }

  /** `deleteFile`: 204 with no body on success. */
  function DeleteFile(key: string, outcome: Outcome): (h: Handled)
    ensures h.calls == [Delete(key)]
    ensures outcome.Returned? ==> h.response == Response(204, NoBody)
    ensures outcome.Threw? ==> h.response == Response(500, ErrorMessage("Failed to delete file"))
  {
    Answer(Delete(key), outcome, 204, "Failed to delete file")
  }

  /** `listFiles`: lists without a user filter; 200 on success. */
  function ListFiles(outcome: Outcome): (h: Handled)
    ensures h.calls == [List]
    ensures h.response.status == (if outcome.Returned? then 200 else 500)
    ensures outcome.Threw? ==> h.response.body == ErrorMessage("Failed to list files")
  {
    Answer(List, outcome, 200, "Failed to list files")
  }

  /**
   * `getFilePreview`: look the file up; 404 when it is missing; an image gets a PNG thumbnail
   * of its content (`thumbnail` is reading the object and resizing it); a PDF gets 501 and
   * every other type 415. Any throw ends in 500.
   */
  function GetFilePreview(id: string, lookup: Lookup, thumbnail: Outcome): (h: Handled)
    ensures |h.calls| >= 1 && h.calls[0] == ById(id)
    ensures lookup.LookupThrew? ==> h == Handled([ById(id)], Response(500, ErrorMessage("Failed to generate preview")))
    ensures lookup.Missing? ==> h == Handled([ById(id)], Response(404, ErrorMessage("File not found")))
    ensures lookup.Found? && StartsWith(lookup.file.mimeType, "image/") ==>
      && h.calls == [ById(id), Buffer(lookup.file.key)]
      && h.response == (if thumbnail.Returned? then Response(200, Png) else Response(500, ErrorMessage("Failed to generate preview")))
    ensures lookup.Found? && !StartsWith(lookup.file.mimeType, "image/") ==>
      && h.calls == [ById(id)]
      && h.response.status == (if lookup.file.mimeType == "application/pdf" then 501 else 415)
    ensures h.response.body == Png <==> lookup.Found? && StartsWith(lookup.file.mimeType, "image/") && thumbnail.Returned?
  {
    match lookup
    case LookupThrew => Handled([ById(id)], Response(500, ErrorMessage("Failed to generate preview")))
    case Missing => Handled([ById(id)], Response(404, ErrorMessage("File not found")))
    case Found(file) =>
      if StartsWith(file.mimeType, "image/") then
        if thumbnail.Returned? then Handled([ById(id), Buffer(file.key)], Response(200, Png))
        else Handled([ById(id), Buffer(file.key)], Response(500, ErrorMessage("Failed to generate preview")))
      else if file.mimeType == "application/pdf" then
        Handled([ById(id)], Response(501, ErrorMessage("PDF preview not implemented yet")))
      else
        Handled([ById(id)], Response(415, ErrorMessage("Preview not supported for this file type")))
  }

  /** `updateCategory`: 400 unless the category is a non-empty string; 200 on success. */
  function UpdateCategory(fileId: string, userId: string, category: JsValue, outcome: Outcome): (h: Handled)
    ensures !(category.Str? && category.s != "") <==> h == BadRequest("Category must be a string")
    ensures category.Str? && category.s != "" ==>
      && h.calls == [Recategorize(fileId, userId, category.s)]
      && h.response.status == (if outcome.Returned? then 200 else 500)
    ensures category.Str? && category.s != "" && outcome.Threw? ==> h.response.body == ErrorMessage("Failed to update category")
  {
    if !category.Truthy() || category.TypeOf() != "string" then BadRequest("Category must be a string")
    else Answer(Recategorize(fileId, userId, category.s), outcome, 200, "Failed to update category")
  }

  /** `batchDelete`: 400 unless the ids are a non-empty array; 200 with the split on success. */
  function BatchDelete(fileIds: JsValue, userId: string, outcome: Outcome): (h: Handled)
    ensures !IdsAccepted(fileIds) <==> h == BadRequest("fileIds must be a non-empty array")
    ensures IdsAccepted(fileIds) ==>
      && h.calls == [DeleteMany(fileIds.items, userId)]
      && h.response.status == (if outcome.Returned? then 200 else 500)
    ensures IdsAccepted(fileIds) && outcome.Threw? ==> h.response.body == ErrorMessage("Failed to batch delete files")
  {
    if !IdsAccepted(fileIds) then BadRequest("fileIds must be a non-empty array")
    else Answer(DeleteMany(fileIds.items, userId), outcome, 200, "Failed to batch delete files")
  }

  /** `batchTag`: the ids are checked before the tags; 200 with the split on success. */
  function BatchTag(fileIds: JsValue, tags: JsValue, userId: string, outcome: Outcome): (h: Handled)
    ensures !IdsAccepted(fileIds) <==> h == BadRequest("fileIds must be a non-empty array")
    ensures IdsAccepted(fileIds) && !TagsAccepted(tags) <==> h == BadRequest("tags must be an object")
    ensures IdsAccepted(fileIds) && TagsAccepted(tags) ==>
      && h.calls == [RetagMany(fileIds.items, userId, tags)]
      && h.response.status == (if outcome.Returned? then 200 else 500)
    ensures IdsAccepted(fileIds) && TagsAccepted(tags) && outcome.Threw? ==>
      h.response.body == ErrorMessage("Failed to batch update tags")
  {
    if !IdsAccepted(fileIds) then BadRequest("fileIds must be a non-empty array")
    else if !TagsAccepted(tags) then BadRequest("tags must be an object")
    else Answer(RetagMany(fileIds.items, userId, tags), outcome, 200, "Failed to batch update tags")
  }

  // ---------------------------------------------------------------------------
  // Properties across handlers

  /** An upload, a new version or a share that passes the guards and whose call returns answers 201 Created. */
  lemma CreatedStatuses(file: UploadedFile, id: string, userId: string, v: JsValue, w: JsValue, toDate: JsValue -> int)
    ensures UploadFile(Some(file), userId, Returned).response.status == 201
    ensures CreateVersion(id, Some(file), userId, v, Returned).response.status == 201
    ensures v.Truthy() ==> ShareFile(id, userId, v, w, w, toDate, Returned).response.status == 201
  {
  }

  /** The share and tag handlers, when their call returns, answer 200 with the result or 204 with no body, never an error. */
  lemma SuccessStatuses(id: string, userId: string, v: JsValue, w: JsValue, toDate: JsValue -> int)
    ensures UpdateShare(id, userId, v, w, toDate, Returned).response == Response(200, Payload)
    ensures RemoveShare(id, userId, Returned).response == Response(204, NoBody)
    ensures TagsAccepted(v) ==> UpdateTags(id, userId, v, Returned).response == Response(200, Payload)
  {
  }

  /** Deleting and listing, when their call returns, answer 204 with no body and 200 with the list. */
  lemma DeleteListStatuses(id: string)
    ensures DeleteFile(id, Returned).response == Response(204, NoBody)
    ensures ListFiles(Returned).response == Response(200, Payload)
  {
  }

  /** The tags guard: objects and arrays pass; `null`, strings and other scalars are refused. */
  lemma TagsGuardCases(fields: map<string, JsValue>, items: seq<JsValue>, s: string, n: int)
    ensures TagsAccepted(Obj(fields)) && TagsAccepted(Arr(items))
    ensures !TagsAccepted(Null) && !TagsAccepted(Undefined) && !TagsAccepted(Str(s)) && !TagsAccepted(Num(n))
  {
  }

  /** Tags text that is absent or empty is never parsed: the query is the same whatever the parser. */
  lemma TagsParsedOnlyWhenPresent(p: SearchParams, parse1: string -> Option<map<string, string>>, parse2: string -> Option<map<string, string>>)
    requires !Truthy(p.tags)
    ensures SearchQueryOf(p, parse1) == SearchQueryOf(p, parse2)
  {
  }

  /** Any value of `sharedWithMe` other than the exact text "true", including "True" and "1", searches the caller's own files. */
  lemma SharedWithMeNeedsExactTrue(p: SearchParams, parse: string -> Option<map<string, string>>)
    requires p.sharedWithMe != Some("true")
    requires SearchQueryOf(p, parse).Ok?
    ensures !SearchQueryOf(p, parse).value.sharedWithMe
  {
  }

  /** The preview of a stored file as the service reports it: it depends only on its mime type. */
  lemma PreviewByType(id: string, file: StorageService.FileMetadata)
    ensures file.mimeType == "application/pdf" ==>
      GetFilePreview(id, Found(file), Returned).response == Response(501, ErrorMessage("PDF preview not implemented yet"))
    ensures file.mimeType == "image/png" ==> GetFilePreview(id, Found(file), Returned).response == Response(200, Png)
    ensures file.mimeType == "text/plain" ==>
      GetFilePreview(id, Found(file), Returned).response == Response(415, ErrorMessage("Preview not supported for this file type"))
  {
    if file.mimeType == "application/pdf" {
      assert file.mimeType[0] != "image/"[0];
    }
    if file.mimeType == "text/plain" {
      assert file.mimeType[0] != "image/"[0];
    }
  }
}
