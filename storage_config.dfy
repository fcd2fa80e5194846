/** The constant storage configuration shared by the upload filter and the storage service. */
module StorageConfig {

  import opened Common

  /** Whether uploads ask the blob store for server-side encryption. */
  const EncryptionEnabled: bool := true

  /** The canned access-control list every stored object gets. */
  const Acl: string := "private"

  /** The largest accepted upload, in bytes (100 MiB). */
  const MaxFileSize: int := 100 * 1024 * 1024

  /** The MIME types an upload may declare, in the configured order. */
  const AllowedFileTypes: seq<string> := [
    "application/pdf",
    "image/jpeg",
    "image/png",
    "image/gif",
    "video/mp4",
    "model/gltf-binary",
    "model/gltf+json",
    "application/octet-stream"
  ]

  /** Lifetime of a signed download URL, in seconds. */
  const UrlExpirationTime: int := 3600

  /** `allowedFileTypes.includes(mimeType)`: only document, image, video and 3D-model types pass. */
  function IsAllowedFileType(mimeType: string): (b: bool)
    ensures b ==> || StartsWith(mimeType, "application/") || StartsWith(mimeType, "image/")
                  || StartsWith(mimeType, "video/") || StartsWith(mimeType, "model/")
  {
    mimeType in AllowedFileTypes
  }

  /** The server-side encryption an object write requests: aws:kms when encryption is enabled. */
  function ServerSideEncryption(): (r: Option<string>)
    ensures EncryptionEnabled <==> r == Some("aws:kms")
    ensures !EncryptionEnabled <==> r == None
  {
    if EncryptionEnabled then Some("aws:kms") else None
  }

  lemma MaxFileSizeIs100MiB()
    ensures MaxFileSize == 104857600
  {
  }

  /** A signed download link lives for one hour. */
  lemma UrlsExpireAfterOneHour()
    ensures UrlExpirationTime == 60 * 60
  {
  }

  /** The allow-list holds exactly eight distinct MIME types. */
  lemma AllowedFileTypesAreEight()
    ensures |AllowedFileTypes| == 8
    ensures forall i, j :: 0 <= i < j < |AllowedFileTypes| ==> AllowedFileTypes[i] != AllowedFileTypes[j]
  {
  }

  /** Uploads are private and encrypted with KMS. */
  lemma UploadsArePrivateAndKmsEncrypted()
    ensures Acl == "private"
    ensures ServerSideEncryption() == Some("aws:kms")
  {
  }

  /** Script and executable types are not on the allow-list; 3D model types are. */
  lemma AllowListExamples()
    ensures IsAllowedFileType("model/gltf-binary") && IsAllowedFileType("application/octet-stream")
    ensures !IsAllowedFileType("application/x-msdownload") && !IsAllowedFileType("text/html")
  {
  }
}
