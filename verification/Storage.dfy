/** Streaming inspection of file contents (src/storage.rs). */
module Storage {
  import opened Wrappers
  import opened Utf8
  import opened Model

  const COPY_BUFFER_SIZE: nat := 65536
  const HEADER_SIZE: nat := 512
  const U64_MAX: nat := 0xFFFF_FFFF_FFFF_FFFF

  datatype FileInspection = FileInspection(size: nat, sha256: string, mediaType: MediaType, extension: string)

  // ------------------------------------------------------- media type detection

  predicate At1(h: Bytes, i: nat, b: Byte) {
    i < |h| && h[i] == b
  }

  predicate At2(h: Bytes, i: nat, b0: Byte, b1: Byte) {
    i + 1 < |h| && h[i] == b0 && h[i + 1] == b1
  }

  predicate At4(h: Bytes, i: nat, b0: Byte, b1: Byte, b2: Byte, b3: Byte) {
    i + 3 < |h| && h[i] == b0 && h[i + 1] == b1 && h[i + 2] == b2 && h[i + 3] == b3
  }

  function DetectMediaType(h: Bytes, isPlainText: bool): (MediaType, string) {
    if At4(h, 0, 0x89, 0x50, 0x4E, 0x47) && At4(h, 4, 0x0D, 0x0A, 0x1A, 0x0A) then (Png, "png")
    else if At2(h, 0, 0xFF, 0xD8) && At1(h, 2, 0xFF) then (Jpeg, "jpg")
    else if At4(h, 0, 0x47, 0x49, 0x46, 0x38) && (At2(h, 4, 0x37, 0x61) || At2(h, 4, 0x39, 0x61)) then (Gif, "gif")
    else if At4(h, 0, 0x52, 0x49, 0x46, 0x46) && At4(h, 8, 0x57, 0x45, 0x42, 0x50) then (Webp, "webp")
    else if At4(h, 4, 0x66, 0x74, 0x79, 0x70)
         && (At4(h, 8, 0x61, 0x76, 0x69, 0x66) || At4(h, 8, 0x61, 0x76, 0x69, 0x73)) then (Avif, "avif")
    else if At4(h, 0, 0x25, 0x50, 0x44, 0x46) && At1(h, 4, 0x2D) then (Pdf, "pdf")
    else if At2(h, 0, 0x50, 0x4B)
         && (At2(h, 2, 0x03, 0x04) || At2(h, 2, 0x05, 0x06) || At2(h, 2, 0x07, 0x08)) then (Zip, "zip")
    else if At2(h, 0, 0x1F, 0x8B) then (Gzip, "gz")
    else if At4(h, 0, 0x37, 0x7A, 0xBC, 0xAF) && At2(h, 4, 0x27, 0x1C) then (SevenZip, "7z")
    else if At4(h, 0, 0x52, 0x61, 0x72, 0x21) && At2(h, 4, 0x1A, 0x07)
         && (At1(h, 6, 0x00) || At2(h, 6, 0x01, 0x00)) then (Rar, "rar")
    else if At4(h, 0, 0x52, 0x49, 0x46, 0x46) && At4(h, 8, 0x57, 0x41, 0x56, 0x45) then (Wav, "wav")
    else if At4(h, 0, 0x66, 0x4C, 0x61, 0x43) then (Flac, "flac")
    else if At4(h, 0, 0x4F, 0x67, 0x67, 0x53) then (Ogg, "ogg")
    else if (At2(h, 0, 0x49, 0x44) && At1(h, 2, 0x33))
         || (|h| >= 2 && h[0] == 0xFF && h[1] >= 0xE0) then (Mp3, "mp3") // the mask 0xE0: top three bits set
    else if At4(h, 4, 0x66, 0x74, 0x79, 0x70) && |h| >= 12 then (Mp4, "mp4")
    else if At4(h, 0, 0x1A, 0x45, 0xDF, 0xA3) then (Webm, "webm")
    else if isPlainText then (Text, "txt")
    else (Binary, "bin")
  }

  /** What is detected is always storable, under exactly the extension that `ContentPath` uses. */
  lemma DetectionAgreesWithExtensions(header: Bytes, isPlainText: bool)
    ensures var (mediaType, extension) := DetectMediaType(header, isPlainText);
            ExtensionForMediaType(mediaType) == Some(extension)
  {
  }

  function Header(content: Bytes): Bytes {
    if |content| <= HEADER_SIZE then content else content[..HEADER_SIZE]
  }

  /** The kept prefix decides as the whole file would. */
  lemma HeaderSuffices(content: Bytes, isPlainText: bool)
    ensures DetectMediaType(Header(content), isPlainText) == DetectMediaType(content, isPlainText)
  {
    assert forall i | 0 <= i < |Header(content)| :: Header(content)[i] == content[i];
  }

  // ------------------------------------------------------ what detection means

  /** These bytes stand at this place of the content. */
  predicate Has(content: Bytes, at: nat, literal: Bytes) {
    at + |literal| <= |content| && content[at..at + |literal|] == literal
  }

  /** An ISO base media file of this brand. */
  predicate HasBrand(content: Bytes, brand: Bytes) {
    Has(content, 4, [0x66, 0x74, 0x79, 0x70] + brand) // "ftyp"
  }

  /** A RIFF file of this form. */
  predicate HasForm(content: Bytes, form: Bytes) {
    Has(content, 0, [0x52, 0x49, 0x46, 0x46]) && Has(content, 8, form) // "RIFF"
  }

  /** The signature of each type, as its format defines it. */
  predicate Carries(content: Bytes, mediaType: MediaType) {
    match mediaType
    case Png => Has(content, 0, [0x89, 0x50, 0x4E, 0x47, 0x0D, 0x0A, 0x1A, 0x0A])
    case Jpeg => Has(content, 0, [0xFF, 0xD8, 0xFF])
    case Gif =>
      || Has(content, 0, [0x47, 0x49, 0x46, 0x38, 0x37, 0x61]) // "GIF87a"
      || Has(content, 0, [0x47, 0x49, 0x46, 0x38, 0x39, 0x61]) // "GIF89a"
    case Webp => HasForm(content, [0x57, 0x45, 0x42, 0x50]) // "WEBP"
    case Avif => HasBrand(content, [0x61, 0x76, 0x69, 0x66]) || HasBrand(content, [0x61, 0x76, 0x69, 0x73]) // "avif", "avis"
    case Pdf => Has(content, 0, [0x25, 0x50, 0x44, 0x46, 0x2D]) // "%PDF-"
    case Zip =>
      || Has(content, 0, [0x50, 0x4B, 0x03, 0x04]) || Has(content, 0, [0x50, 0x4B, 0x05, 0x06])
      || Has(content, 0, [0x50, 0x4B, 0x07, 0x08])
    case Gzip => Has(content, 0, [0x1F, 0x8B])
    case SevenZip => Has(content, 0, [0x37, 0x7A, 0xBC, 0xAF, 0x27, 0x1C])
    case Rar =>
      || Has(content, 0, [0x52, 0x61, 0x72, 0x21, 0x1A, 0x07, 0x00])
      || Has(content, 0, [0x52, 0x61, 0x72, 0x21, 0x1A, 0x07, 0x01, 0x00])
    case Wav => HasForm(content, [0x57, 0x41, 0x56, 0x45]) // "WAVE"
    case Flac => Has(content, 0, [0x66, 0x4C, 0x61, 0x43]) // "fLaC"
    case Ogg => Has(content, 0, [0x4F, 0x67, 0x67, 0x53]) // "OggS"
    case Mp3 => // "ID3", or an MPEG frame: eleven bits set
      Has(content, 0, [0x49, 0x44, 0x33]) || (|content| >= 2 && content[0] == 0xFF && content[1] / 0x20 == 0x07)
    case Mp4 => Has(content, 4, [0x66, 0x74, 0x79, 0x70]) && |content| >= 12
    case Webm => Has(content, 0, [0x1A, 0x45, 0xDF, 0xA3])
    case _ => false
  }

  /** Where a content carries several signatures, the earlier of these types decides. */
  const PRECEDENCE: seq<MediaType> :=
    [Png, Jpeg, Gif, Webp, Avif, Pdf, Zip, Gzip, SevenZip, Rar, Wav, Flac, Ogg, Mp3, Mp4, Webm]

  /** `mediaType` is what the signatures of the content say, or else whether it is plain text. */
  predicate IsKindOf(content: Bytes, mediaType: MediaType) {
    || (exists i | 0 <= i < |PRECEDENCE| ::
          && PRECEDENCE[i] == mediaType && Carries(content, mediaType)
          && forall j | 0 <= j < i :: !Carries(content, PRECEDENCE[j]))
    || ((forall i | 0 <= i < |PRECEDENCE| :: !Carries(content, PRECEDENCE[i]))
        && mediaType == if PlainText(content) then Text else Binary)
  }

  /** A literal is there when its two parts are. */
  lemma HasParts(h: Bytes, at: nat, a: Bytes, b: Bytes)
    ensures Has(h, at, a + b) <==> Has(h, at, a) && Has(h, at + |a|, b)
  {
    if at + |a + b| <= |h| {
      assert h[at..at + |a + b|] == h[at..at + |a|] + h[at + |a|..at + |a| + |b|];
    }
    if Has(h, at, a + b) {
      var whole := h[at..at + |a + b|];
      assert whole[..|a|] == a && whole[|a|..] == b;
      assert h[at..at + |a|] == whole[..|a|] && h[at + |a|..at + |a| + |b|] == whole[|a|..];
    }
  }

  lemma HasShort(h: Bytes, at: nat, b0: Byte, b1: Byte, b2: Byte, b3: Byte)
    ensures Has(h, at, [b0]) <==> At1(h, at, b0)
    ensures Has(h, at, [b0, b1]) <==> At2(h, at, b0, b1)
    ensures Has(h, at, [b0, b1, b2, b3]) <==> At4(h, at, b0, b1, b2, b3)
  {
    if at < |h| {
      assert h[at..at + 1] == [h[at]];
    }
    if at + 1 < |h| {
      assert h[at..at + 2] == [h[at], h[at + 1]];
    }
    if at + 3 < |h| {
      assert h[at..at + 4] == [h[at], h[at + 1], h[at + 2], h[at + 3]];
    }
    assert [b0, b1][1] == b1 && [b0, b1, b2, b3][1] == b1 && [b0, b1, b2, b3][2] == b2 && [b0, b1, b2, b3][3] == b3;
  }

  lemma ImagesCarry(h: Bytes)
    ensures Carries(h, Png) <==> At4(h, 0, 0x89, 0x50, 0x4E, 0x47) && At4(h, 4, 0x0D, 0x0A, 0x1A, 0x0A)
    ensures Carries(h, Jpeg) <==> At2(h, 0, 0xFF, 0xD8) && At1(h, 2, 0xFF)
    ensures Carries(h, Gif) <==> At4(h, 0, 0x47, 0x49, 0x46, 0x38) && (At2(h, 4, 0x37, 0x61) || At2(h, 4, 0x39, 0x61))
    ensures Carries(h, Webp) <==> At4(h, 0, 0x52, 0x49, 0x46, 0x46) && At4(h, 8, 0x57, 0x45, 0x42, 0x50)
    ensures Carries(h, Avif) <==> At4(h, 4, 0x66, 0x74, 0x79, 0x70)
                                  && (At4(h, 8, 0x61, 0x76, 0x69, 0x66) || At4(h, 8, 0x61, 0x76, 0x69, 0x73))
  {
    hide At1, At2, At4, Has;
    HasParts(h, 0, [0x89, 0x50, 0x4E, 0x47], [0x0D, 0x0A, 0x1A, 0x0A]);
    HasShort(h, 0, 0x89, 0x50, 0x4E, 0x47);
    HasShort(h, 4, 0x0D, 0x0A, 0x1A, 0x0A);
    assert [0x89, 0x50, 0x4E, 0x47] + [0x0D, 0x0A, 0x1A, 0x0A] == [0x89, 0x50, 0x4E, 0x47, 0x0D, 0x0A, 0x1A, 0x0A];
    HasParts(h, 0, [0xFF, 0xD8], [0xFF]);
    HasShort(h, 0, 0xFF, 0xD8, 0, 0);
    HasShort(h, 2, 0xFF, 0, 0, 0);
    assert [0xFF, 0xD8] + [0xFF] == [0xFF, 0xD8, 0xFF];
    HasParts(h, 0, [0x47, 0x49, 0x46, 0x38], [0x37, 0x61]);
    HasParts(h, 0, [0x47, 0x49, 0x46, 0x38], [0x39, 0x61]);
    HasShort(h, 0, 0x47, 0x49, 0x46, 0x38);
    HasShort(h, 4, 0x37, 0x61, 0, 0);
    HasShort(h, 4, 0x39, 0x61, 0, 0);
    assert [0x47, 0x49, 0x46, 0x38] + [0x37, 0x61] == [0x47, 0x49, 0x46, 0x38, 0x37, 0x61];
    assert [0x47, 0x49, 0x46, 0x38] + [0x39, 0x61] == [0x47, 0x49, 0x46, 0x38, 0x39, 0x61];
    HasShort(h, 0, 0x52, 0x49, 0x46, 0x46);
    HasShort(h, 8, 0x57, 0x45, 0x42, 0x50);
    BrandsCarry(h);
  }

  lemma BrandsCarry(h: Bytes)
    ensures HasBrand(h, [0x61, 0x76, 0x69, 0x66]) <==> At4(h, 4, 0x66, 0x74, 0x79, 0x70) && At4(h, 8, 0x61, 0x76, 0x69, 0x66)
    ensures HasBrand(h, [0x61, 0x76, 0x69, 0x73]) <==> At4(h, 4, 0x66, 0x74, 0x79, 0x70) && At4(h, 8, 0x61, 0x76, 0x69, 0x73)
  {
    hide At1, At2, At4, Has;
    HasParts(h, 4, [0x66, 0x74, 0x79, 0x70], [0x61, 0x76, 0x69, 0x66]);
    HasParts(h, 4, [0x66, 0x74, 0x79, 0x70], [0x61, 0x76, 0x69, 0x73]);
    HasShort(h, 4, 0x66, 0x74, 0x79, 0x70);
    HasShort(h, 8, 0x61, 0x76, 0x69, 0x66);
    HasShort(h, 8, 0x61, 0x76, 0x69, 0x73);
  }

  lemma ArchivesCarry(h: Bytes)
    ensures Carries(h, Pdf) <==> At4(h, 0, 0x25, 0x50, 0x44, 0x46) && At1(h, 4, 0x2D)
    ensures Carries(h, Zip) <==> At2(h, 0, 0x50, 0x4B) && (At2(h, 2, 0x03, 0x04) || At2(h, 2, 0x05, 0x06) || At2(h, 2, 0x07, 0x08))
    ensures Carries(h, Gzip) <==> At2(h, 0, 0x1F, 0x8B)
    ensures Carries(h, SevenZip) <==> At4(h, 0, 0x37, 0x7A, 0xBC, 0xAF) && At2(h, 4, 0x27, 0x1C)
  {
    hide At1, At2, At4, Has;
    HasParts(h, 0, [0x25, 0x50, 0x44, 0x46], [0x2D]);
    HasShort(h, 0, 0x25, 0x50, 0x44, 0x46);
    HasShort(h, 4, 0x2D, 0, 0, 0);
    assert [0x25, 0x50, 0x44, 0x46] + [0x2D] == [0x25, 0x50, 0x44, 0x46, 0x2D];
    HasShort(h, 0, 0x50, 0x4B, 0, 0);
    HasShort(h, 2, 0x03, 0x04, 0, 0);
    HasShort(h, 2, 0x05, 0x06, 0, 0);
    HasShort(h, 2, 0x07, 0x08, 0, 0);
    HasParts(h, 0, [0x50, 0x4B], [0x03, 0x04]);
    HasParts(h, 0, [0x50, 0x4B], [0x05, 0x06]);
    HasParts(h, 0, [0x50, 0x4B], [0x07, 0x08]);
    assert [0x50, 0x4B] + [0x03, 0x04] == [0x50, 0x4B, 0x03, 0x04] && [0x50, 0x4B] + [0x05, 0x06] == [0x50, 0x4B, 0x05, 0x06];
    assert [0x50, 0x4B] + [0x07, 0x08] == [0x50, 0x4B, 0x07, 0x08];
    HasShort(h, 0, 0x1F, 0x8B, 0, 0);
    HasParts(h, 0, [0x37, 0x7A, 0xBC, 0xAF], [0x27, 0x1C]);
    HasShort(h, 0, 0x37, 0x7A, 0xBC, 0xAF);
    HasShort(h, 4, 0x27, 0x1C, 0, 0);
    assert [0x37, 0x7A, 0xBC, 0xAF] + [0x27, 0x1C] == [0x37, 0x7A, 0xBC, 0xAF, 0x27, 0x1C];
  }

  lemma RarCarries(h: Bytes)
    ensures Carries(h, Rar) <==> At4(h, 0, 0x52, 0x61, 0x72, 0x21) && At2(h, 4, 0x1A, 0x07)
                                 && (At1(h, 6, 0x00) || At2(h, 6, 0x01, 0x00))
  {
    hide At1, At2, At4, Has;
    HasShort(h, 0, 0x52, 0x61, 0x72, 0x21);
    HasShort(h, 4, 0x1A, 0x07, 0, 0);
    HasShort(h, 6, 0x00, 0, 0, 0);
    HasShort(h, 6, 0x01, 0x00, 0, 0);
    HasParts(h, 0, [0x52, 0x61, 0x72, 0x21], [0x1A, 0x07]);
    HasParts(h, 0, [0x52, 0x61, 0x72, 0x21] + [0x1A, 0x07], [0x00]);
    HasParts(h, 0, [0x52, 0x61, 0x72, 0x21] + [0x1A, 0x07], [0x01, 0x00]);
    assert [0x52, 0x61, 0x72, 0x21] + [0x1A, 0x07] + [0x00] == [0x52, 0x61, 0x72, 0x21, 0x1A, 0x07, 0x00];
    assert [0x52, 0x61, 0x72, 0x21] + [0x1A, 0x07] + [0x01, 0x00] == [0x52, 0x61, 0x72, 0x21, 0x1A, 0x07, 0x01, 0x00];
  }

  lemma MediaCarry(h: Bytes)
    ensures Carries(h, Wav) <==> At4(h, 0, 0x52, 0x49, 0x46, 0x46) && At4(h, 8, 0x57, 0x41, 0x56, 0x45)
    ensures Carries(h, Flac) <==> At4(h, 0, 0x66, 0x4C, 0x61, 0x43)
    ensures Carries(h, Ogg) <==> At4(h, 0, 0x4F, 0x67, 0x67, 0x53)
    ensures Carries(h, Mp3) <==> (At2(h, 0, 0x49, 0x44) && At1(h, 2, 0x33)) || (|h| >= 2 && h[0] == 0xFF && h[1] >= 0xE0)
    ensures Carries(h, Mp4) <==> At4(h, 4, 0x66, 0x74, 0x79, 0x70) && |h| >= 12
    ensures Carries(h, Webm) <==> At4(h, 0, 0x1A, 0x45, 0xDF, 0xA3)
  {
    hide At1, At2, At4, Has;
    HasShort(h, 0, 0x52, 0x49, 0x46, 0x46);
    HasShort(h, 8, 0x57, 0x41, 0x56, 0x45);
    HasShort(h, 0, 0x66, 0x4C, 0x61, 0x43);
    HasShort(h, 0, 0x4F, 0x67, 0x67, 0x53);
    HasShort(h, 0, 0x1A, 0x45, 0xDF, 0xA3);
    HasShort(h, 4, 0x66, 0x74, 0x79, 0x70);
    HasParts(h, 0, [0x49, 0x44], [0x33]);
    HasShort(h, 0, 0x49, 0x44, 0, 0);
    HasShort(h, 2, 0x33, 0, 0, 0);
    assert [0x49, 0x44] + [0x33] == [0x49, 0x44, 0x33];
  }

  /** Detection from the whole content answers what the signatures say. */
  lemma DetectionIsBySignature(content: Bytes)
    ensures IsKindOf(content, DetectMediaType(content, PlainText(content)).0)
  {
    ImagesCarry(content);
    ArchivesCarry(content);
    RarCarries(content);
    MediaCarry(content);
    hide Carries, At1, At2, At4, PlainText;
    var t := DetectMediaType(content, PlainText(content)).0;
    var i := Rank(t);
    if i < |PRECEDENCE| {
      assert PRECEDENCE[i] == t && Carries(content, t);
      assert forall j | 0 <= j < i :: !Carries(content, PRECEDENCE[j]);
    }
  }

  function Rank(t: MediaType): nat {
    match t
    case Png => 0 case Jpeg => 1 case Gif => 2 case Webp => 3 case Avif => 4 case Pdf => 5 case Zip => 6 case Gzip => 7
    case SevenZip => 8 case Rar => 9 case Wav => 10 case Flac => 11 case Ogg => 12 case Mp3 => 13 case Mp4 => 14
    case Webm => 15 case _ => 16
  }

  /** What a content begins with decides alone, for the formats that no other signature can precede. */
  lemma BeginningDecides(content: Bytes, mediaType: MediaType)
    requires IsKindOf(content, mediaType)
    ensures Has(content, 0, [0x89, 0x50, 0x4E, 0x47, 0x0D, 0x0A, 0x1A, 0x0A]) ==> mediaType == Png
    ensures Has(content, 0, [0xFF, 0xD8, 0xFF]) ==> mediaType == Jpeg
    ensures Has(content, 0, [0x47, 0x49, 0x46, 0x38, 0x37, 0x61]) ==> mediaType == Gif
    ensures Has(content, 0, [0x47, 0x49, 0x46, 0x38, 0x39, 0x61]) ==> mediaType == Gif
    ensures HasForm(content, [0x57, 0x45, 0x42, 0x50]) ==> mediaType == Webp
    ensures Has(content, 0, [0x25, 0x50, 0x44, 0x46, 0x2D]) ==> mediaType == Pdf
    ensures Has(content, 0, [0x37, 0x7A, 0xBC, 0xAF, 0x27, 0x1C]) ==> mediaType == SevenZip
    ensures HasForm(content, [0x57, 0x41, 0x56, 0x45]) ==> mediaType == Wav
  {
    FirstFormatsDecide(content, mediaType);
    hide IsKindOf;
  }

  lemma FirstFormatsDecide(content: Bytes, mediaType: MediaType)
    requires IsKindOf(content, mediaType)
    ensures Carries(content, Png) ==> mediaType == Png
    ensures Carries(content, Jpeg) ==> mediaType == Jpeg
    ensures Carries(content, Gif) ==> mediaType == Gif
    ensures Carries(content, Webp) ==> mediaType == Webp
    ensures Carries(content, Pdf) ==> mediaType == Pdf
    ensures Carries(content, SevenZip) ==> mediaType == SevenZip
    ensures Carries(content, Rar) ==> mediaType == Rar
    ensures Carries(content, Wav) ==> mediaType == Wav
  {
    KindIsUnique(content, mediaType);
    ImagesCarry(content);
    ArchivesCarry(content);
    RarCarries(content);
    MediaCarry(content);
    hide Carries, PlainText, IsKindOf;
  }

  /** Only one type is the kind of a content, the one that detection answers. */
  lemma KindIsUnique(content: Bytes, mediaType: MediaType)
    requires IsKindOf(content, mediaType)
    ensures mediaType == DetectMediaType(content, PlainText(content)).0
  {
    DetectionIsBySignature(content);
    hide Carries, DetectMediaType, PlainText;
  }

  // ------------------------------------------------------------ incremental text probe

  /** The probe keeps a verdict and at most three bytes of an unfinished character. */
  class Utf8TextProbe {
    var valid: bool
    var incomplete: Bytes
    ghost var seen: Bytes

    ghost predicate Valid()
      reads this
    {
      var d := Decode(seen);
      valid == (d.ending != Malformed && AllPlain(d.chars))
      && incomplete == if valid then seen[d.validUpTo..] else []
    }

    constructor ()
      ensures Valid() && seen == []
    {
      valid, incomplete, seen := true, [], [];
    }

    method Observe(bytes: Bytes)
      requires Valid()
      modifies this
      ensures Valid() && seen == old(seen) + bytes
      ensures |incomplete| <= 3
    {
      hide DecodeHead, Width;
      hide Decode, AllPlain;
      DecodeContinues(seen, bytes);
      ghost var before, after := Decode(seen), Decode(seen + bytes);
      if !valid {
        if before.ending != Malformed {
          AllPlainAppend(before.chars, Decode(seen[before.validUpTo..] + bytes).chars);
        }
        seen := seen + bytes;
        return;
      }
      var combined := incomplete + bytes;
      incomplete := [];
      var text := Decode(combined);
      AllPlainAppend(before.chars, text.chars);
      assert combined[text.validUpTo..] == (seen + bytes)[after.validUpTo..];
      match text.ending {
        case Complete =>
          valid := AllPlain(text.chars);
        case Truncated =>
          var rest := combined[text.validUpTo..];
          valid := AllPlain(text.chars) && |rest| <= 3;
          if valid {
            incomplete := rest;
          }
        case Malformed =>
          valid := false;
      }
      seen := seen + bytes;
    }

    method IsPlainText() returns (plain: bool)
      requires Valid()
      ensures plain == PlainText(seen)
    {
      DecodeMatchesGrammar(seen);
      plain := valid && incomplete == [];
    }
  }

  // ---------------------------------------------------------------- copy and inspect

  /** One step of the copy loop: bytes that were read and written, or an I/O error on either side. */
  datatype Chunk = Data(bytes: Bytes) | Fault

  /** Everything delivered before end of file; an empty read is end of file. */
  function Streamed(input: seq<Chunk>): Option<Bytes> {
    if input == [] || input[0] == Data([]) then Some([])
    else if input[0].Fault? then None
    else
      match Streamed(input[1..])
      case None => None
      case Some(rest) => Some(input[0].bytes + rest)
  }

  /** The one-shot description: every field is a function of the whole content. */
  function Inspect(hash: Bytes -> string, content: Bytes): FileInspection {
    var (mediaType, extension) := DetectMediaType(content, PlainText(content));
    FileInspection(|content|, hash(content), mediaType, extension)
  }

  predicate Acceptable(content: Bytes, maxFileSize: nat, expectedSize: Option<nat>) {
    && 0 < |content| <= maxFileSize
    && (expectedSize.Some? ==> |content| == expectedSize.value)
  }

  datatype InspectError = CopyFailed | SizeOverflow | OverLimit | OverDeclared | SizeMismatch | EmptyFile

  /** `bytes` in front of what is still to come. */
  function Before(bytes: Bytes, rest: Option<Bytes>): Option<Bytes> {
    match rest
    case None => None
    case Some(more) => Some(bytes + more)
  }

  lemma NextRead(input: seq<Chunk>, i: nat, written: Bytes)
    requires i < |input| && input[i] != Data([])
    ensures input[i].Fault? ==> Streamed(input[i..]) == None
    ensures input[i].Data? ==>
              Before(written, Streamed(input[i..])) == Before(written + input[i].bytes, Streamed(input[i + 1..]))
  {
    assert input[i..][0] == input[i] && input[i..][1..] == input[i + 1..];
    if input[i].Data? && Streamed(input[i + 1..]).Some? {
      var rest := Streamed(input[i + 1..]).value;
      assert written + (input[i].bytes + rest) == (written + input[i].bytes) + rest;
    }
  }

  lemma FirstRead(input: seq<Chunk>)
    ensures Streamed(input) == Before([], Streamed(input[0..]))
  {
    assert input[0..] == input;
    assert Streamed(input).Some? ==> [] + Streamed(input).value == Streamed(input).value;
  }

  lemma LastRead(input: seq<Chunk>, i: nat, written: Bytes)
    requires i == |input| || (i < |input| && input[i] == Data([]))
    ensures Before(written, Streamed(input[i..])) == Some(written)
  {
    assert written + [] == written;
  }

  /** The prefix after one more read. */
  function Extended(header: Bytes, bytes: Bytes): Bytes {
    if |header| < HEADER_SIZE then
      var remaining := HEADER_SIZE - |header|;
      header + if |bytes| <= remaining then bytes else bytes[..remaining]
    else header
  }

  lemma HeaderGrows(written: Bytes, bytes: Bytes)
    ensures Extended(Header(written), bytes) == Header(written + bytes)
  {
  }

  method CopyAndInspect(hash: Bytes -> string, input: seq<Chunk>, maxFileSize: nat, expectedSize: Option<nat>)
    returns (r: Result<FileInspection, InspectError>, written: Bytes)
    requires maxFileSize <= U64_MAX
    requires forall c <- input :: c.Data? ==> |c.bytes| <= COPY_BUFFER_SIZE
    ensures r.Ok? <==>
              (&& Streamed(input).Some? && 1 <= |Streamed(input).value| <= maxFileSize
               && (expectedSize.Some? ==> |Streamed(input).value| == expectedSize.value))
    ensures r.Ok? ==> r.value == Inspect(hash, Streamed(input).value) && written == Streamed(input).value
    ensures r.Ok? ==>
              var content := Streamed(input).value;
              && r.value.size == |content| && r.value.sha256 == hash(content)
              && IsKindOf(content, r.value.mediaType) && ExtensionForMediaType(r.value.mediaType) == Some(r.value.extension)
  {
    hide PlainText, Decode, DetectMediaType, Streamed, Header, Extended, IsKindOf, ExtensionForMediaType;
    var hashed, header, size := [], [], 0;
    var probe := new Utf8TextProbe();
    written := [];
    var i := 0;
    FirstRead(input);
    NoHeader();
    while i < |input| && input[i] != Data([])
      invariant 0 <= i <= |input|
      invariant fresh(probe) && probe.Valid() && probe.seen == written
      invariant hashed == written && size == |written| && header == Header(written)
      invariant size <= maxFileSize && (expectedSize.Some? ==> size <= expectedSize.value)
      invariant Streamed(input) == Before(written, Streamed(input[i..]))
    {
      NextRead(input, i, written);
      if input[i].Fault? {
        return Err(CopyFailed), written;
      }
      var bytes := input[i].bytes;
      if size + |bytes| > U64_MAX {
        return Err(SizeOverflow), written;
      }
      size := size + |bytes|;
      if size > maxFileSize {
        return Err(OverLimit), written;
      }
      if expectedSize.Some? && size > expectedSize.value {
        return Err(OverDeclared), written;
      }
      header := Extended(header, bytes);
      HeaderGrows(written, bytes);
      hashed := hashed + bytes;
      probe.Observe(bytes);
      written := written + bytes;
      i := i + 1;
    }
    LastRead(input, i, written);
    if expectedSize.Some? && size != expectedSize.value {
      return Err(SizeMismatch), written;
    }
    if size == 0 {
      return Err(EmptyFile), written;
    }
    var plain := probe.IsPlainText();
    HeaderSuffices(written, plain);
    DetectionIsBySignature(written);
    DetectionAgreesWithExtensions(written, plain);
    var (mediaType, extension) := DetectMediaType(header, plain);
    r := Ok(FileInspection(size, hash(hashed), mediaType, extension));
  }

  lemma NoHeader()
    ensures Header([]) == []
  {
  }

  /** Every way of reading `content` in nonempty pieces: cut where `cuts` says, in order. */
  function Split(content: Bytes, cuts: seq<nat>): seq<Chunk> {
    if content == [] then []
    else if cuts == [] || cuts[0] == 0 || cuts[0] >= |content| then [Data(content)]
    else [Data(content[..cuts[0]])] + Split(content[cuts[0]..], cuts[1..])
  }

  /**
   Chunk independence: however the bytes are split, the same content is delivered,
   so by its contract `CopyAndInspect` gives the same answer.
   */
  lemma {:induction false} SplittingIsIrrelevant(content: Bytes, cuts: seq<nat>)
    ensures Streamed(Split(content, cuts)) == Some(content)
    decreases |content|
  {
    if content != [] {
      if cuts == [] || cuts[0] == 0 || cuts[0] >= |content| {
        assert Split(content, cuts)[1..] == [];
        assert content + [] == content;
      } else {
        SplittingIsIrrelevant(content[cuts[0]..], cuts[1..]);
        assert Split(content, cuts)[1..] == Split(content[cuts[0]..], cuts[1..]);
        assert content[..cuts[0]] + content[cuts[0]..] == content;
      }
    }
  }
}
