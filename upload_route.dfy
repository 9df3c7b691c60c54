/**
 * The upload route: the guards on the `file` form entry, the choice of the
 * media type, and the `data:` URL handed to the analysis library.
 */
module UploadRoute {

  import opened Strings
  import opened Web
  import opened Analysis

  const MaxUploadBytes: nat := 10 * 1024 * 1024

  const AllowedMimeTypes: seq<string> :=
    ["image/png", "image/jpeg", "image/jpg", "image/webp", "image/heic", "image/heif"]

  const MissingFileError := "Upload requires a non-empty `file` field."
  const UnsupportedTypeError := "Unsupported image type. Please upload png, jpg, jpeg, webp, heic, or heif files."
  const TooLargeError := "Screenshot must be a non-empty image <= 10MB."
  const ServerError := "Unable to process the uploaded screenshot."

  /**
   * The media type sent on: the declared type when it is exactly an allowed
   * one, else the type named by the file's extension in any letter case,
   * else `image/png`.
   */
  function InferMimeType(file: File): (r: string)
    ensures r in AllowedMimeTypes
    ensures file.mimeType != "" && file.mimeType in AllowedMimeTypes ==> r == file.mimeType
    ensures file.mimeType !in AllowedMimeTypes ==>
      var name := ToLower(file.name);
      && (EndsWith(name, ".jpg") || EndsWith(name, ".jpeg") ==> r == "image/jpeg")
      && (EndsWith(name, ".png") ==> r == "image/png")
      && (EndsWith(name, ".webp") ==> r == "image/webp")
      && (EndsWith(name, ".heic") ==> r == "image/heic")
      && (EndsWith(name, ".heif") ==> r == "image/heif")
      && (!EndsWith(name, ".jpg") && !EndsWith(name, ".jpeg") && !EndsWith(name, ".png")
          && !EndsWith(name, ".webp") && !EndsWith(name, ".heic") && !EndsWith(name, ".heif")
          ==> r == "image/png")
  {
    if file.mimeType != "" && file.mimeType in AllowedMimeTypes then file.mimeType
    else
      var name := ToLower(file.name);
      SuffixesExclusive(name);
      if EndsWith(name, ".jpg") then "image/jpeg"
      else if EndsWith(name, ".jpeg") then "image/jpeg"
      else if EndsWith(name, ".png") then "image/png"
      else if EndsWith(name, ".webp") then "image/webp"
      else if EndsWith(name, ".heic") then "image/heic"
      else if EndsWith(name, ".heif") then "image/heif"
      else "image/png"
  }

  /** A name ends with at most one of the recognised extensions. */
  lemma SuffixesExclusive(name: string)
    ensures EndsWith(name, ".jpg") ==>
      !EndsWith(name, ".jpeg") && !EndsWith(name, ".png") && !EndsWith(name, ".webp")
      && !EndsWith(name, ".heic") && !EndsWith(name, ".heif")
    ensures EndsWith(name, ".jpeg") ==>
      !EndsWith(name, ".png") && !EndsWith(name, ".webp") && !EndsWith(name, ".heic") && !EndsWith(name, ".heif")
    ensures EndsWith(name, ".png") ==> !EndsWith(name, ".webp") && !EndsWith(name, ".heic") && !EndsWith(name, ".heif")
    ensures EndsWith(name, ".webp") ==> !EndsWith(name, ".heic") && !EndsWith(name, ".heif")
    ensures EndsWith(name, ".heic") ==> !EndsWith(name, ".heif")
  {
    var n := |name|;
    if EndsWith(name, ".jpg") {
      assert name[n - 4] == '.' && name[n - 1] == 'g';
    }
    if EndsWith(name, ".jpeg") {
      assert name[n - 1] == 'g' && name[n - 2] == 'e';
    }
    if EndsWith(name, ".png") {
      assert name[n - 1] == 'g' && name[n - 4] == '.';
    }
    if EndsWith(name, ".webp") {
      assert name[n - 1] == 'p';
    }
    if EndsWith(name, ".heic") {
      assert name[n - 1] == 'c';
    }
  }

  /** `validateFile`: the entry is a file and it is not empty. */
  predicate ValidateFile(entry: FormEntry): (ok: bool)
    ensures ok ==> entry.Upload?
    ensures ok <==> !entry.Absent? && !entry.Text? && entry.file.content != []
  {
    entry.Upload? && entry.file.Size() > 0
  }

  /** The 415 guard: an empty declared type passes; any other must be allowed once lower-cased. */
  predicate DeclaredTypeAccepted(file: File)
  {
    file.mimeType == "" || ToLower(file.mimeType) in AllowedMimeTypes
  }

  /** The 413 guard, on the length of the file's bytes. */
  predicate SizeAccepted(file: File)
  {
    !(|file.content| == 0 || |file.content| > MaxUploadBytes)
  }

  /** What the route answers: an error status with its message, or the file summary and the data URL it analyses. */
  datatype UploadResponse =
    | Rejected(status: nat, error: string)
    | Accepted(name: string, size: nat, mimeType: string, dataUrl: string)

  /**
   * The route's guards in their order (400, then 415, then 413) and the data
   * URL it builds; `encode` is `Buffer.prototype.toString('base64')`.
   */
  function Post(request: FormRequest, encode: seq<bv8> -> string): (r: UploadResponse)
    ensures request.Unreadable? ==> r == Rejected(500, ServerError)
    ensures request.Form? ==>
      var entry := request.Entry("file");
      && (!ValidateFile(entry) <==> r == Rejected(400, MissingFileError))
      && (ValidateFile(entry) && !DeclaredTypeAccepted(entry.file) <==> r == Rejected(415, UnsupportedTypeError))
      && (ValidateFile(entry) && DeclaredTypeAccepted(entry.file) && !SizeAccepted(entry.file)
          <==> r == Rejected(413, TooLargeError))
      && (r.Accepted? <==> ValidateFile(entry) && DeclaredTypeAccepted(entry.file) && SizeAccepted(entry.file))
    ensures r.Rejected? && r.status == 413 ==> request.Entry("file").file.Size() > MaxUploadBytes
    ensures r.Accepted? ==>
      var file := request.Entry("file").file;
      && r.name == file.name && r.size == file.Size()
      && r.mimeType == InferMimeType(file) && r.mimeType in AllowedMimeTypes
      && r.dataUrl == "data:" + r.mimeType + ";base64," + encode(file.content)
  {
    if request.Unreadable? then Rejected(500, ServerError)
    else
      var entry := request.Entry("file");
      if !ValidateFile(entry) then Rejected(400, MissingFileError)
      else
        var file := entry.file;
        if file.mimeType != "" && ToLower(file.mimeType) !in AllowedMimeTypes then Rejected(415, UnsupportedTypeError)
        else if |file.content| == 0 || |file.content| > MaxUploadBytes then Rejected(413, TooLargeError)
        else
          var mimeType := InferMimeType(file);
          Accepted(file.name, |file.content|, mimeType, DataPrefix + mimeType + Base64Marker + encode(file.content))
  }

  /** The characters of standard base64 text, as `Buffer` writes it. */
  predicate IsBase64Char(c: char)
  {
    ('A' <= c <= 'Z') || ('a' <= c <= 'z') || ('0' <= c <= '9') || c == '+' || c == '/' || c == '='
  }

  predicate IsBase64Text(s: string)
  {
    forall i :: 0 <= i < |s| ==> IsBase64Char(s[i])
  }

  /** Every allowed media type is one both parsers of the library read back whole. */
  lemma AllowedMimeTypesParse(m: string)
    requires m in AllowedMimeTypes
    ensures IsStrippableMime(m) && forall i :: 0 <= i < |m| ==> !IsLineTerminator(m[i])
  {
  }

  /**
   * Round trip through the library: from an accepted upload's data URL the
   * library recovers the media type the route chose and exactly the base64 text.
   */
  lemma {:induction false} UploadDataUrlRoundTrip(request: FormRequest, encode: seq<bv8> -> string)
    requires Post(request, encode).Accepted?
    requires IsBase64Text(encode(request.Entry("file").file.content))
    ensures ExtractMimeType(Post(request, encode).dataUrl) == Post(request, encode).mimeType
    ensures StripBase64Prefix(Post(request, encode).dataUrl) == encode(request.Entry("file").file.content)
  {
    var r := Post(request, encode);
    var payload := encode(request.Entry("file").file.content);
    AllowedMimeTypesParse(r.mimeType);
    assert ';' !in payload by {
      forall i | 0 <= i < |payload| ensures payload[i] != ';' {
        assert IsBase64Char(payload[i]);
      }
    }
    ExtractRecoversMime(r.mimeType, payload);
    StripRemovesPrefix(r.mimeType, payload);
  }

  /**
   * A declared type allowed only after lower-casing, such as `IMAGE/PNG`,
   * passes the 415 guard, yet the media type is chosen as if none had been declared.
   */
  lemma MixedCaseTypeIsIgnored(file: File)
    requires file.mimeType !in AllowedMimeTypes && ToLower(file.mimeType) in AllowedMimeTypes
    ensures DeclaredTypeAccepted(file)
    ensures InferMimeType(file) == InferMimeType(File(file.name, "", file.content))
  {
  }

  /** `IMAGE/PNG` is such a type. */
  lemma UpperCasePngIsIgnored(file: File)
    requires file.mimeType == "IMAGE/PNG"
    ensures DeclaredTypeAccepted(file)
    ensures InferMimeType(file) == InferMimeType(File(file.name, "", file.content))
  {
    assert ToLower(file.mimeType) == "image/png";
    MixedCaseTypeIsIgnored(file);
  }

  /** A file of exactly 10 MiB passes the size guard; one byte more does not. */
  lemma SizeLimitBoundary(file: File)
    ensures |file.content| == MaxUploadBytes ==> SizeAccepted(file)
    ensures |file.content| == MaxUploadBytes + 1 ==> !SizeAccepted(file)
  {
  }
}
