/** The multipart upload middleware: a size limit and a MIME-type filter run before any handler. */
module UploadMiddleware {

  import opened Common
  import StorageConfig

  /** The per-file size limit handed to the multipart parser (100 MiB). */
  const FileSizeLimit: int := 100 * 1024 * 1024

  /** The two arguments the filter passes to its callback: an error (or null) and whether to accept. */
  datatype FilterCallback = FilterCallback(error: Option<string>, acceptFile: bool)

  /** `fileFilter`: reject a declared MIME type outside the storage allow-list. */
  function FileFilter(mimetype: string): (r: FilterCallback)
    ensures r.acceptFile <==> StorageConfig.IsAllowedFileType(mimetype)
    ensures r.acceptFile ==> r.error == None
    ensures !r.acceptFile ==> r.error == Some("File type not allowed")
  {
    if !StorageConfig.IsAllowedFileType(mimetype) then FilterCallback(Some("File type not allowed"), false)
    else FilterCallback(None, true)
  }

  /** The parser's size limit is the storage service's maximum. */
  lemma SizeLimitMatchesService()
    ensures FileSizeLimit == StorageConfig.MaxFileSize
  {
  }

  /** Whatever the filter accepts also passes the storage service's type and size checks. */
  lemma AcceptedPassesServiceValidation(mimetype: string, size: int)
    requires FileFilter(mimetype).acceptFile
    requires size <= FileSizeLimit
    ensures StorageConfig.IsAllowedFileType(mimetype)
    ensures size <= StorageConfig.MaxFileSize
  {
  }
}
