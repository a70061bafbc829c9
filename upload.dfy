/** The upload checks and the paths under which uploaded images are stored and found again. */
module Upload {
  import opened Text

  /** The image extensions `allowed_file` accepts. */
  const Extensions: set<string> := {"png", "jpg", "jpeg", "gif"}

  /** The configured upload directory, with its trailing separator. */
  const UploadFolder: string := "static/uploads/"

  /** An extension is allowed when its lower-cased form is one of Extensions. */
  predicate AllowedExtension(ext: string)
  {
    Lower(ext) in Extensions
  }

  /** `allowed_file`: the name holds a `.` and the lower-cased text after the last `.` is an allowed extension. */
  function AllowedFile(filename: string): (r: bool)
    ensures r ==> exists k :: IsLast(filename, '.', k) && AllowedExtension(filename[k + 1..])
  {
    if '.' !in filename then false
    else
      var k := RFind(filename, '.');
      assert IsLast(filename, '.', k);
      AllowedExtension(filename[k + 1..])
  }

  /** AllowedFile holds exactly when some `.` is the last one and the lower-cased text after it is an allowed extension. */
  lemma AllowedFileMeaning(filename: string)
    ensures AllowedFile(filename) <==>
      exists k :: IsLast(filename, '.', k) && AllowedExtension(filename[k + 1..])
  {
    if '.' in filename {
      var k := RFind(filename, '.');
      assert IsLast(filename, '.', k);
      ExtensionAt(filename, k);
      forall j | IsLast(filename, '.', j) ensures j == k {
        RFindIsLast(filename, '.', j);
      }
    }
  }

  /** The extension after the last dot, at position `k`, decides. */
  lemma ExtensionAt(filename: string, k: int)
    requires IsLast(filename, '.', k)
    ensures AllowedFile(filename) <==> AllowedExtension(filename[k + 1..])
  {
    RFindIsLast(filename, '.', k);
  }

  /** Only the final extension decides, whatever dots the stem holds. */
  lemma FinalExtensionDecides(stem: string, ext: string)
    requires '.' !in ext
    ensures AllowedFile(stem + "." + ext) <==> AllowedExtension(ext)
  {
    var name := stem + "." + ext;
    assert IsLast(name, '.', |stem|);
    ExtensionAt(name, |stem|);
    assert name[|stem| + 1..] == ext;
  }

  /** A name without a dot is always rejected. */
  lemma NoDotRejected(filename: string)
    requires '.' !in filename
    ensures !AllowedFile(filename)
  {
  }

  /** An inner `.png` does not help: `x.png.exe` is rejected. */
  lemma InnerExtensionIgnored()
    ensures !AllowedFile("x.png.exe")
  {
    var name := "x.png.exe";
    assert IsLast(name, '.', 5);
    ExtensionAt(name, 5);
    assert name[6..] == "exe";
    var e := Lower("exe");
    assert e[0] == 'e' && e[1] == 'x' && e[2] == 'e';
    assert e !in Extensions by {
      assert e != "png" && e != "jpg" && e != "gif" && |e| != |"jpeg"|;
    }
  }

  /** Case is ignored: `x.tar.PNG` is accepted. */
  lemma UpperCaseExtensionAccepted()
    ensures AllowedFile("x.tar.PNG")
  {
    var name := "x.tar.PNG";
    assert IsLast(name, '.', 5);
    ExtensionAt(name, 5);
    assert name[6..] == "PNG";
    var e := Lower("PNG");
    assert e[0] == 'p' && e[1] == 'n' && e[2] == 'g';
    assert e == "png";
  }

  /** `os.path.join(a, b)` on POSIX: an absolute `b` replaces `a`; otherwise one `/` separates them. */
  function Join(a: string, b: string): (r: string)
    ensures |b| > 0 && b[0] == '/' ==> r == b
    ensures !(|b| > 0 && b[0] == '/') ==> a <= r && |r| >= |a| + |b| && r[|r| - |b|..] == b
  {
    if |b| > 0 && b[0] == '/' then b
    else if a == [] || a[|a| - 1] == '/' then a + b
    else a + "/" + b
  }

  /** `os.path.basename(p)`: the text after the last `/`, which is a suffix of `p` holding no `/`. */
  function Basename(p: string): (r: string)
    ensures '/' !in r
    ensures |r| <= |p| && p[|p| - |r|..] == r
    ensures |r| < |p| ==> p[|p| - |r| - 1] == '/'
  {
    p[RFind(p, '/') + 1..]
  }

  /** Where the analysis and preview routes save an upload: `os.path.join(UPLOAD_FOLDER, file.filename)`. */
  function StoredPath(filename: string): (r: string)
    ensures filename == [] || filename[0] != '/' ==> r == UploadFolder + filename
    ensures |filename| > 0 && filename[0] == '/' ==> r == filename
  {
    Join(UploadFolder, filename)
  }

  /** Round trip: the report rebuilds `UPLOAD_FOLDER + basename(stored path)`, which is the stored path again
      whenever the uploaded name holds no `/`. */
  lemma {:induction false} StoredPathRoundTrip(filename: string)
    requires '/' !in filename
    ensures Basename(StoredPath(filename)) == filename
    ensures Join(UploadFolder, Basename(StoredPath(filename))) == StoredPath(filename)
  {
    var p := UploadFolder + filename;
    assert p == StoredPath(filename);
    assert IsLast(p, '/', |UploadFolder| - 1);
    RFindIsLast(p, '/', |UploadFolder| - 1);
    assert p[|UploadFolder|..] == filename;
  }

  /** A name with a directory part breaks the round trip: the report looks for a different file. */
  lemma SubdirectoryBreaksRoundTrip()
    ensures StoredPath("a/b.png") == "static/uploads/a/b.png"
    ensures Join(UploadFolder, Basename(StoredPath("a/b.png"))) == "static/uploads/b.png"
  {
    var p := "static/uploads/a/b.png";
    assert IsLast(p, '/', 16);
    RFindIsLast(p, '/', 16);
  }

  /** An absolute name is saved outside the upload folder, since `os.path.join` drops the folder. */
  lemma AbsoluteNameLeavesFolder()
    ensures StoredPath("/tmp/x.png") == "/tmp/x.png"
  {
  }

  /** The image path handed to the preview page: `f'uploads/{file.filename}'`, relative to the `static/`
      folder, so it names the saved file whenever the name is not absolute. */
  function PreviewPath(filename: string): (r: string)
    ensures |r| >= |filename| && r[|r| - |filename|..] == filename
    ensures filename == [] || filename[0] != '/' ==> "static/" + r == StoredPath(filename)
  {
    "uploads/" + filename
  }
}
