/** The records shared by the delivery pipeline (src/model.rs) and the checks on incoming metadata. */
module Model {
  import opened Wrappers

  const MANIFEST_SCHEMA_VERSION: nat := 1

  type Path = seq<string>

  /** MIME types: the eighteen that the store accepts, and any other string. */
  datatype MediaType =
    | Png | Jpeg | Gif | Webp | Avif // image/png, image/jpeg, image/gif, image/webp, image/avif
    | Text // text/plain
    | Pdf | Zip | Gzip | SevenZip | Rar | Binary // application/pdf ... application/octet-stream
    | Mp3 | Wav | Flac | Ogg // audio/mpeg, audio/wav, audio/flac, application/ogg
    | Mp4 | Webm // video/mp4, video/webm
    | Other(name: string)

  datatype Delivery = Delivery(
    schemaVersion: nat,
    id: string,
    originalName: string,
    payload: string,
    size: nat,
    sha256: string,
    mediaType: MediaType,
    createdAt: Option<nat>)

  datatype DeliveryStatus = AckPending | Acknowledged

  /** What a sync is doing with a file. */
  datatype SyncPhase = Downloading | Verifying | Confirming | Retrying | ApplyingWallpaper

  datatype ConnectionState = Connected | DisconnectPending | Disconnected | ExitPending | ExitLocalCleaned | Exited

  datatype WallpaperStatus = Pending | NotApplicable | NotConfigured | Running | Applied | Failed | Uncertain

  /** What is wrong with an item that a source finds. */
  datatype Complaint = NotReadable | MetadataRefused | AckConflict | AckUnreadable | DuplicateId

  /** Error messages, reduced to what went wrong. */
  datatype Problem =
    | InvalidMetadata | StagingFailed | PayloadUnavailable | PayloadMismatch | CommitFailed
    | FileDamaged | QuarantineFailed | CleanupFailed
    | AckFailed | IdCollision | SaveFailed | NotListed
    | CommandInterrupted | CommandFailed
    | FolderRetired | StateUnreadable | ScanFailed | ListingIssue(complaint: Complaint)

  datatype DeliveryRecord = DeliveryRecord(
    id: string,
    originalName: string,
    mediaType: MediaType,
    sha256: string,
    size: nat,
    storedPath: Path,
    deliveryStatus: DeliveryStatus,
    wallpaperStatus: WallpaperStatus,
    wallpaperAttempts: nat,
    deliveryError: Option<Problem>,
    wallpaperError: Option<Problem>,
    sourceCreatedAt: Option<nat>,
    receivedAt: nat,
    acknowledgedAt: Option<nat>,
    importedAt: Option<nat>)

  function ExtensionForMediaType(mediaType: MediaType): Option<string> {
    match mediaType
    case Png => Some("png")
    case Jpeg => Some("jpg")
    case Gif => Some("gif")
    case Webp => Some("webp")
    case Avif => Some("avif")
    case Text => Some("txt")
    case Pdf => Some("pdf")
    case Zip => Some("zip")
    case Gzip => Some("gz")
    case SevenZip => Some("7z")
    case Rar => Some("rar")
    case Binary => Some("bin")
    case Mp3 => Some("mp3")
    case Wav => Some("wav")
    case Flac => Some("flac")
    case Ogg => Some("ogg")
    case Mp4 => Some("mp4")
    case Webm => Some("webm")
    case Other(_) => None
  }

  predicate IsImageMediaType(mediaType: MediaType) {
    mediaType in {Png, Jpeg, Gif, Webp, Avif}
  }

  /** Bytes that a character takes in UTF-8; the length limits below count bytes. */
  function Utf8Width(c: char): nat {
    if c < '\U{80}' then 1
    else if c < '\U{800}' then 2
    else if c < '\U{10000}' then 3
    else 4
  }

  function ByteLength(s: string): nat {
    if s == "" then 0 else Utf8Width(s[0]) + ByteLength(s[1..])
  }

  predicate IsControlChar(c: char) {
    c <= '\U{1F}' || '\U{7F}' <= c <= '\U{9F}'
  }

  predicate ValidSingleComponent(value: string) {
    && value != ""
    && ByteLength(value) <= 255
    && (forall c <- value :: !IsControlChar(c) && c != '/')
    && value != "." && value != ".."
  }

  predicate ValidDeliveryId(id: string) {
    && id != ""
    && |id| <= 128
    && forall c <- id :: 'a' <= c <= 'z' || 'A' <= c <= 'Z' || '0' <= c <= '9' || c == '-' || c == '_'
  }

  predicate ValidSha256(sha256: string) {
    |sha256| == 64 && forall c <- sha256 :: '0' <= c <= '9' || 'a' <= c <= 'f'
  }

  predicate ValidMetadata(d: Delivery, maxFileSize: nat) {
    && d.schemaVersion == MANIFEST_SCHEMA_VERSION
    && ValidDeliveryId(d.id)
    && (d.payload == "" || ValidSingleComponent(d.payload))
    && ValidSingleComponent(d.originalName)
    && 0 < d.size <= maxFileSize
    && ValidSha256(d.sha256)
    && ExtensionForMediaType(d.mediaType).Some?
  }

  /**
   A description that may be accepted: a plain id, a name that is one harmless path
   component, a size within the limit, a lower-case digest, and a type that has an extension.
   */
  predicate WellDescribed(d: Delivery, maxFileSize: nat) {
    && d.schemaVersion == 1
    && 1 <= |d.id| <= 128
    && (forall c | c in d.id :: 'a' <= c <= 'z' || 'A' <= c <= 'Z' || '0' <= c <= '9' || c == '-' || c == '_')
    && (d.payload != "" ==> HarmlessName(d.payload)) && HarmlessName(d.originalName)
    && 1 <= d.size <= maxFileSize
    && |d.sha256| == 64 && (forall c | c in d.sha256 :: '0' <= c <= '9' || 'a' <= c <= 'f')
    && !d.mediaType.Other?
  }

  predicate HarmlessName(name: string) {
    && name !in {"", ".", ".."} && ByteLength(name) <= 255
    && forall c | c in name :: c > '\U{1F}' && !('\U{7F}' <= c <= '\U{9F}') && c != '/'
  }

  lemma ValidMeansWellDescribed(d: Delivery, maxFileSize: nat)
    ensures ValidMetadata(d, maxFileSize) <==> WellDescribed(d, maxFileSize)
  {
    hide ByteLength;
  }

  function ContentPath(library: Path, sha256: string, mediaType: MediaType): Option<Path> {
    if ValidSha256(sha256) && ExtensionForMediaType(mediaType).Some? then
      Some(ObjectPath(library, sha256, ExtensionForMediaType(mediaType).value))
    else None
  }

  function ObjectPath(library: Path, sha256: string, extension: string): Path
    requires |sha256| >= 2
  {
    library + [sha256[..2], sha256 + "." + extension]
  }

  /** Reading an extension back. */
  function MediaTypeForExtension(extension: string): Option<MediaType> {
    match extension
    case "png" => Some(Png)
    case "jpg" => Some(Jpeg)
    case "gif" => Some(Gif)
    case "webp" => Some(Webp)
    case "avif" => Some(Avif)
    case "txt" => Some(Text)
    case "pdf" => Some(Pdf)
    case "zip" => Some(Zip)
    case "gz" => Some(Gzip)
    case "7z" => Some(SevenZip)
    case "rar" => Some(Rar)
    case "bin" => Some(Binary)
    case "mp3" => Some(Mp3)
    case "wav" => Some(Wav)
    case "flac" => Some(Flac)
    case "ogg" => Some(Ogg)
    case "mp4" => Some(Mp4)
    case "webm" => Some(Webm)
    case _ => None
  }

  lemma ExtensionRoundTrip(mediaType: MediaType)
    requires ExtensionForMediaType(mediaType).Some?
    ensures MediaTypeForExtension(ExtensionForMediaType(mediaType).value) == Some(mediaType)
  {
  }

  /** A content path names one digest and one media type. */
  lemma ContentPathInjective(library: Path, sha1: string, media1: MediaType, sha2: string, media2: MediaType)
    requires ContentPath(library, sha1, media1).Some?
    requires ContentPath(library, sha1, media1) == ContentPath(library, sha2, media2)
    ensures sha1 == sha2 && media1 == media2
  {
    var p1, p2 := ContentPath(library, sha1, media1).value, ContentPath(library, sha2, media2).value;
    var e1, e2 := ExtensionForMediaType(media1).value, ExtensionForMediaType(media2).value;
    assert p1[|library| + 1] == sha1 + "." + e1;
    assert p2[|library| + 1] == sha2 + "." + e2;
    assert sha1 == (sha1 + "." + e1)[..64] == (sha2 + "." + e2)[..64] == sha2;
    assert e1 == (sha1 + "." + e1)[65..] == (sha2 + "." + e2)[65..] == e2;
    ExtensionRoundTrip(media1);
    ExtensionRoundTrip(media2);
  }
}
