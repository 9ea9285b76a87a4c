/**
 * The attachment rules of app.py: which uploaded file names are accepted
 * (`allowed_file`) and which stored name, if any, a new ticket records.
 */
module Uploads {
  import opened Optional
  import opened Text

  /** `ALLOWED_EXTENSIONS` of the application configuration. */
  const AllowedExtensions: set<string> := {"png", "jpg", "jpeg"}

  /** The position of the last occurrence of `c` in `s`, if any. */
  function LastIndexOf(s: string, c: char): (r: Option<nat>)
    ensures r.None? ==> forall j :: 0 <= j < |s| ==> s[j] != c
    ensures r.Some? ==> r.value < |s| && s[r.value] == c
                        && forall j :: r.value < j < |s| ==> s[j] != c
  {
    if s == [] then None
    else if s[|s| - 1] == c then Some(|s| - 1)
    else LastIndexOf(s[..|s| - 1], c)
  }

  /**
   * `allowed_file(filename)`: the name holds a dot, and the text after its
   * last dot, lower-cased, is one of the allowed extensions.
   */
  function AllowedFile(filename: string): (ok: bool)
    ensures ok <==> exists i :: 0 <= i < |filename| && filename[i] == '.'
                                && (forall j :: i < j < |filename| ==> filename[j] != '.')
                                && Lower(filename[i + 1..]) in AllowedExtensions
  {
    match LastIndexOf(filename, '.')
    case None => false
    case Some(i) => Lower(filename[i + 1..]) in AllowedExtensions
  }

  /**
   * The `image_filename` a new ticket records: the stored name is used only
   * when a file came with the submission, its name is non-empty and its
   * extension is allowed; otherwise the ticket is still created, without an
   * image. `storedName` is the timestamped, sanitised name computed outside.
   */
  function Attachment(upload: Option<string>, storedName: string): (image: Option<string>)
    ensures image.Some? <==> upload.Some? && upload.value != [] && AllowedFile(upload.value)
    ensures image.Some? ==> image.value == storedName
  {
    if upload.Some? && upload.value != [] && AllowedFile(upload.value) then Some(storedName) else None
  }

  /**
   * What deleting a ticket does to the upload folder: its image goes if it
   * names one and the file is there (a missing file is no error); every
   * other file stays.
   */
  function Discard(files: set<string>, image: Option<string>): (r: set<string>)
    ensures r <= files
    ensures image.Some? && image.value != [] ==> image.value !in r
    ensures forall f :: f in files && (image.None? || image.value == [] || f != image.value) ==> f in r
  {
    if image.Some? && image.value != [] && image.value in files then files - {image.value} else files
  }

  /** The examples from the upload form: the case of the extension does not matter, the last dot decides. */
  lemma AllowedFileExamples()
    ensures AllowedFile("photo.PNG") && AllowedFile("scan.v2.jpeg")
    ensures !AllowedFile("archive.png.zip") && !AllowedFile("png")
  {
    assert "photo.PNG"[5] == '.' && "photo.PNG"[6..] == "PNG" && Lower("PNG") == "png";
    assert "scan.v2.jpeg"[7] == '.' && "scan.v2.jpeg"[8..] == "jpeg" && Lower("jpeg") == "jpeg";
    var z := "archive.png.zip";
    assert z[11] == '.' && z[12] == 'z' && z[13] == 'i' && z[14] == 'p';
    assert LastIndexOf(z, '.') == Some(11);
    assert "archive.png.zip"[12..] == "zip" && Lower("zip") == "zip";
    assert LastIndexOf("png", '.') == None;
  }
}
