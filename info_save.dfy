/** Uploads of user files (src/chat/info_save.py): the file's extension from its MIME
    type, the name of the stored object, and the kind of URL handed back to the agent.
    The storage calls themselves are not modelled; the generated file id is a
    parameter. */
module InfoSave {
  import opened Strings

  /** The MIME types with a known extension. */
  const Extensions: map<string, string> := map[
    "image/jpeg" := ".jpg",
    "image/png" := ".png",
    "image/gif" := ".gif",
    "image/webp" := ".webp",
    "audio/mpeg" := ".mp3",
    "audio/wav" := ".wav",
    "audio/ogg" := ".ogg",
    "video/mp4" := ".mp4",
    "video/webm" := ".webm",
    "video/quicktime" := ".mov",
    "application/pdf" := ".pdf",
    "text/plain" := ".txt",
    "application/json" := ".json",
    "application/xml" := ".xml"
  ]

  const DefaultExtension := ".bin"

  const UploadPrefix := "uploads/"

  /** `get_file_extension`: the listed extension, or ".bin" for any other type; the
      result always starts with a dot. */
  function GetFileExtension(mimeType: string): (ext: string)
    ensures |ext| > 1 && ext[0] == '.'
    ensures mimeType in Extensions ==> ext == Extensions[mimeType]
    ensures ext == DefaultExtension <==> mimeType !in Extensions
  {
    ExtensionsWellFormed();
    if mimeType in Extensions then Extensions[mimeType] else DefaultExtension
  }

  /** Every listed extension starts with a dot and none is the default one. */
  lemma ExtensionsWellFormed()
    ensures forall m :: m in Extensions ==> |Extensions[m]| > 1 && Extensions[m][0] == '.'
    ensures forall m :: m in Extensions ==> Extensions[m] != DefaultExtension
  {
  }

  /** The listed type of a listed extension. */
  function ListedType(ext: string): string {
    match ext
    case ".jpg" => "image/jpeg"
    case ".png" => "image/png"
    case ".gif" => "image/gif"
    case ".webp" => "image/webp"
    case ".mp3" => "audio/mpeg"
    case ".wav" => "audio/wav"
    case ".ogg" => "audio/ogg"
    case ".mp4" => "video/mp4"
    case ".webm" => "video/webm"
    case ".mov" => "video/quicktime"
    case ".pdf" => "application/pdf"
    case ".txt" => "text/plain"
    case ".json" => "application/json"
    case ".xml" => "application/xml"
    case _ => ""
  }

  /** No two listed types share an extension: the extension gives the type back. */
  lemma ExtensionsDistinct()
    ensures forall m :: m in Extensions ==> ListedType(Extensions[m]) == m
    ensures forall m1, m2 :: m1 in Extensions && m2 in Extensions && m1 != m2 ==> Extensions[m1] != Extensions[m2]
  {
  }

  /** The extension names the type: two types with the same extension are the same
      listed type, or both unlisted. */
  lemma ExtensionIdentifiesType(m1: string, m2: string)
    requires GetFileExtension(m1) == GetFileExtension(m2)
    ensures m1 == m2 || (m1 !in Extensions && m2 !in Extensions)
  {
    ExtensionsDistinct();
  }

  /** The URL kinds the agent accepts. */
  datatype StoredUrl =
    | ImageUrl(url: string, mediaType: string)
    | AudioUrl(url: string, mediaType: string)
    | VideoUrl(url: string, mediaType: string)
    | DocumentUrl(url: string, mediaType: string)

  /** `create_typed_url`: the kind follows the type's top-level prefix, checked as image,
      audio, video, and anything else is a document; the URL and type are kept. */
  function CreateTypedUrl(url: string, mimeType: string): (r: StoredUrl)
    ensures r.url == url && r.mediaType == mimeType
    ensures r.ImageUrl? <==> StartsWith(mimeType, "image/")
    ensures r.AudioUrl? <==> StartsWith(mimeType, "audio/")
    ensures r.VideoUrl? <==> StartsWith(mimeType, "video/")
    ensures r.DocumentUrl? <==>
              !StartsWith(mimeType, "image/") && !StartsWith(mimeType, "audio/") && !StartsWith(mimeType, "video/")
  {
    if StartsWith(mimeType, "image/") then ImageUrl(url, mimeType)
    else if StartsWith(mimeType, "audio/") then AudioUrl(url, mimeType)
    else if StartsWith(mimeType, "video/") then VideoUrl(url, mimeType)
    else DocumentUrl(url, mimeType)
  }

  /** The listed types get the URL kind their extension suggests: image types an image
      URL, audio an audio URL, video a video URL, the rest a document URL. */
  lemma ListedTypesKinds(url: string)
    ensures CreateTypedUrl(url, "image/png").ImageUrl?
    ensures CreateTypedUrl(url, "audio/ogg").AudioUrl?
    ensures CreateTypedUrl(url, "video/quicktime").VideoUrl?
    ensures CreateTypedUrl(url, "application/pdf").DocumentUrl?
    ensures CreateTypedUrl(url, "text/plain").DocumentUrl?
  {
    assert "image/png"[..6] == "image/";
    assert "audio/ogg"[..6] == "audio/";
    assert "video/quicktime"[..6] == "video/";
    assert "application/pdf"[..6] == "applic";
    assert "text/plain"[..6] == "text/p";
  }

  /** The object name of an upload in `upload`. */
  function BlobName(fileId: string, mimeType: string): (name: string)
    ensures StartsWith(name, UploadPrefix)
    ensures |name| == |UploadPrefix| + |fileId| + |GetFileExtension(mimeType)|
  {
    UploadPrefix + fileId + GetFileExtension(mimeType)
  }

  /** File ids of one length (the generated ids are uuids) give distinct names to
      distinct uploads, and the name gives back both the id and the extension. */
  lemma BlobNameInjective(f1: string, m1: string, f2: string, m2: string)
    requires |f1| == |f2|
    requires BlobName(f1, m1) == BlobName(f2, m2)
    ensures f1 == f2 && GetFileExtension(m1) == GetFileExtension(m2)
  {
    var n := BlobName(f1, m1);
    var p := |UploadPrefix|;
    assert f1 == n[p..p + |f1|];
    assert f2 == BlobName(f2, m2)[p..p + |f2|];
    assert GetFileExtension(m1) == n[p + |f1|..];
    assert GetFileExtension(m2) == BlobName(f2, m2)[p + |f2|..];
  }
}
