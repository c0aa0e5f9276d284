/**
 * Upload checks, after `backend/app/utils/file_validation.py`: the extension after the last
 * dot must be png, jpg or jpeg in any case, and the size at most 10 MiB. A rejection is the
 * HTTP 400 error the checks raise.
 */
module FileValidation {
  import opened Wrappers
  import opened Text

  const AllowedExtensions: set<string> := {"png", "jpg", "jpeg"}
  /** `MAX_FILE_SIZE`: 10 MiB. */
  const MaxFileSize: int := 10 * 1024 * 1024
  const BadRequest := 400

  /**
   * The reason for rejecting an upload. The message listing the allowed extensions joins a
   * set, so the order of the three names in its text is not fixed.
   */
  datatype Rejection =
    | NoExtension
    | ExtensionNotAllowed(extension: string)
    | TooLarge

  function StatusCode(r: Rejection): int {
    BadRequest
  }

  /** `filename.rsplit('.', 1)[1].lower()`, when there is a '.'. */
  function ExtensionOf(filename: string): (e: Option<string>)
    ensures e.None? <==> '.' !in filename
    ensures e.Some? ==> '.' !in e.value && |e.value| < |filename|
    ensures e.Some? ==>
      exists i :: 0 <= i < |filename| && filename[i] == '.' && '.' !in filename[i + 1..] && e.value == Lower(filename[i + 1..])
  {
    match LastIndexOf(filename, '.')
    case None => None
    case Some(i) =>
      var after := filename[i + 1..];
      assert forall k :: 0 <= k < |after| ==> LowerChar(after[k]) != '.';
      Some(Lower(after))
  }

  /** `validate_file_type`: `None` on acceptance, otherwise why the name is refused. */
  function ValidateFileType(filename: string): (r: Option<Rejection>)
    ensures '.' !in filename ==> r == Some(NoExtension)
    ensures r.None? <==> ExtensionOf(filename).Some? && ExtensionOf(filename).value in AllowedExtensions
    ensures r.Some? && '.' in filename ==> r == Some(ExtensionNotAllowed(ExtensionOf(filename).value))
  {
    match ExtensionOf(filename)
    case None => Some(NoExtension)
    case Some(ext) => if ext in AllowedExtensions then None else Some(ExtensionNotAllowed(ext))
  }

  /** `validate_file_size`: only a size above 10 MiB is refused. */
  function ValidateFileSize(fileSize: int): (r: Option<Rejection>)
    ensures r.None? <==> fileSize <= 10485760
    ensures r.Some? ==> r == Some(TooLarge)
  {
    if fileSize > MaxFileSize then Some(TooLarge) else None
  }

  /** Exactly 10 MiB passes; one byte more does not. */
  lemma SizeBoundary()
    ensures ValidateFileSize(10485760).None?
    ensures ValidateFileSize(10485761) == Some(TooLarge)
  {
  }

  /** The extension is compared case-insensitively. */
  lemma UpperCaseExtensionAccepted()
    ensures ValidateFileType("a.PNG").None?
  {
    assert LastIndexOf("a.PNG", '.') == Some(1);
    assert "a.PNG"[2..] == "PNG";
    assert Lower("PNG") == "png";
  }

  /** The extension is read after the LAST dot. */
  lemma LastDotDecides()
    ensures ValidateFileType("a.png.exe") == Some(ExtensionNotAllowed("exe"))
  {
    var name := "a.png.exe";
    assert LastIndexOf(name, '.') == Some(5);
    assert name[6..] == "exe";
    assert Lower("exe") == "exe";
    assert ExtensionOf(name) == Some("exe");
    var r := ValidateFileType(name);
    assert r == Some(ExtensionNotAllowed("exe")) by {
      assert "exe" != "png" && "exe" != "jpg" && "exe" != "jpeg";
    }
  }

  /** A name ending in a dot has the empty extension, and a name without a dot has none: both are refused. */
  lemma TrailingDotRefused()
    ensures ValidateFileType("a.") == Some(ExtensionNotAllowed(""))
    ensures ValidateFileType("photo") == Some(NoExtension)
  {
    assert LastIndexOf("a.", '.') == Some(1);
    assert "a."[2..] == "";
  }
}
