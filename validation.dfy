/**
 * Upload validation: a size limit checked before the MIME type, and the map
 * from the four accepted MIME types to the image kind.
 */
module Validation {
  import opened Wrappers
  import opened Types

  /** The upload limit, 10 MiB; a file of exactly this size is accepted. */
  const MaxFileSize: int := 10 * 1024 * 1024

  const SizeError: string := "File size must be less than 10MB"
  const TypeError: string := "File must be PNG, JPG, WebP, or SVG"
  const UnsupportedType: string := "Unsupported file type"

  /** The accepted MIME types. */
  const AllowedTypes: seq<string> := ["image/png", "image/jpeg", "image/webp", "image/svg+xml"]

  /** The MIME type each kind is uploaded as. */
  function MimeOf(k: ImageKind): (mime: string)
    ensures mime in AllowedTypes
  {
    match k
    case Png => "image/png"
    case Jpeg => "image/jpeg"
    case Webp => "image/webp"
    case Svg => "image/svg+xml"
  }

  /** None when the file is accepted, otherwise the first failed check's message: size, then type. */
  function ValidateImageFile(f: FileInfo): (err: Option<string>)
    ensures err.None? <==> f.size <= MaxFileSize && f.mime in AllowedTypes
    ensures f.size > MaxFileSize ==> err == Some(SizeError)
    ensures f.size <= MaxFileSize && f.mime !in AllowedTypes ==> err == Some(TypeError)
  {
    if f.size > MaxFileSize then Some(SizeError)
    else if f.mime !in AllowedTypes then Some(TypeError)
    else None
  }

  /** The kind of an uploaded file, or the "Unsupported file type" error for any other MIME type. */
  function GetImageType(mime: string): (r: Result<ImageKind, string>)
    ensures r.Success? <==> mime in AllowedTypes
    ensures r.Success? ==> MimeOf(r.value) == mime
    ensures r.Failure? ==> r.error == UnsupportedType
  {
    if mime == "image/png" then Success(Png)
    else if mime == "image/jpeg" then Success(Jpeg)
    else if mime == "image/webp" then Success(Webp)
    else if mime == "image/svg+xml" then Success(Svg)
    else Failure(UnsupportedType)
  }

  /** Kind to MIME type and back is the identity. */
  lemma KindRoundTrip(k: ImageKind)
    ensures GetImageType(MimeOf(k)) == Success(k)
  {
  }

  /** Every file that passes validation has a kind, so the kind lookup never throws after validation. */
  lemma ValidatedFileHasKind(f: FileInfo)
    requires ValidateImageFile(f).None?
    ensures GetImageType(f.mime).Success?
  {
  }

  /** The size check comes first: an oversized file of an unsupported type reports its size. */
  lemma SizeCheckedFirst(f: FileInfo)
    requires f.size > MaxFileSize && f.mime !in AllowedTypes
    ensures ValidateImageFile(f) == Some(SizeError)
  {
  }

  /** The limit is inclusive: 10 MiB passes, one byte more fails. */
  lemma LimitIsInclusive()
    ensures ValidateImageFile(FileInfo(10485760, "image/png")) == None
    ensures ValidateImageFile(FileInfo(10485761, "image/png")) == Some(SizeError)
  {
  }
}
