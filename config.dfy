/** Application settings and the upload file-name check (`Config` in backend/config.py). */
module Config {
  import opened Wrappers
  import opened Text

  /** The extensions an uploaded file may carry, in lower case. */
  const AllowedExtensions: set<string> := {"pdf", "png", "jpg", "jpeg"}

  /** `UPLOAD_FOLDER` when the environment does not set it. */
  const DefaultUploadFolder: string := "uploads"

  /** `MONGO_DB_NAME` when the environment does not set it. */
  const DefaultDbName: string := "ai_examiner"

  /** `filename.rsplit('.', 1)[1]`: the text after the last dot, when there is a dot. */
  function Extension(filename: string): (r: Option<string>)
    ensures r.Some? <==> '.' in filename
    ensures r.Some? ==> '.' !in r.value && |r.value| < |filename|
    ensures r.Some? ==> filename[|filename| - |r.value| - 1] == '.'
    ensures r.Some? ==> filename[|filename| - |r.value|..] == r.value
  {
    if filename == [] then None
    else if filename[|filename| - 1] == '.' then Some([])
    else
      var init := filename[..|filename| - 1];
      assert filename == init + [filename[|filename| - 1]];
      match Extension(init)
      case None => None
      case Some(e) => Some(e + [filename[|filename| - 1]])
  }

  /** `Config.allowed_file`: there is a dot and the lower-cased extension is allowed. */
  predicate AllowedFile(filename: string) {
    '.' in filename && Lower(Extension(filename).value) in AllowedExtensions
  }

  /** A name built as `base + "." + ext`, with no dot in `ext`, has extension `ext`. */
  lemma {:induction false} ExtensionOf(base: string, ext: string)
    requires '.' !in ext
    ensures Extension(base + "." + ext) == Some(ext)
  {
    if ext != [] {
      var f := base + "." + ext;
      var init := ext[..|ext| - 1];
      assert f[..|f| - 1] == base + "." + init;
      ExtensionOf(base, init);
      assert init + [ext[|ext| - 1]] == ext;
    }
  }

  /**
   * A name is accepted exactly when it splits as `base + "." + ext` with no dot in `ext`
   * and `ext`, lower-cased, one of the allowed extensions.
   */
  lemma AllowedFileIff(filename: string)
    ensures AllowedFile(filename) <==>
      exists base, ext :: filename == base + "." + ext && '.' !in ext && Lower(ext) in AllowedExtensions
  {
    if AllowedFile(filename) {
      var ext := Extension(filename).value;
      var base := filename[..|filename| - |ext| - 1];
      assert filename == base + "." + ext;
    }
    if exists base, ext :: filename == base + "." + ext && '.' !in ext && Lower(ext) in AllowedExtensions {
      var base, ext :| filename == base + "." + ext && '.' !in ext && Lower(ext) in AllowedExtensions;
      ExtensionOf(base, ext);
    }
  }

  /** A name without a dot is rejected. */
  lemma NoDotRejected(filename: string)
    requires '.' !in filename
    ensures !AllowedFile(filename)
  {
  }

  /** Only the text after the last dot counts: `a.tar.pdf` is accepted. */
  lemma LastDotDecides()
    ensures AllowedFile("a.tar.pdf")
  {
    ExtensionOf("a.tar", "pdf");
    assert "a.tar" + "." + "pdf" == "a.tar.pdf";
    assert Lower("pdf") == "pdf";
  }

  /** An allowed extension earlier in the name does not help: `a.pdf.exe` is rejected. */
  lemma InnerExtensionIgnored()
    ensures !AllowedFile("a.pdf.exe")
  {
    ExtensionOf("a.pdf", "exe");
    assert "a.pdf" + "." + "exe" == "a.pdf.exe";
    assert Lower("exe") == "exe";
  }

  /** The comparison ignores case: `X.PDF` is accepted. */
  lemma UpperCaseAccepted()
    ensures AllowedFile("X.PDF")
  {
    ExtensionOf("X", "PDF");
    assert "X" + "." + "PDF" == "X.PDF";
    assert Lower("PDF") == "pdf";
  }

  /** A trailing dot gives an empty extension, which is rejected. */
  lemma TrailingDotRejected(base: string)
    ensures !AllowedFile(base + ".")
  {
    ExtensionOf(base, "");
    assert base + "." + "" == base + ".";
  }
}
