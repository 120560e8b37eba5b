/**
 * The upload validators of the two backends: the Python `save_upload`,
 * which keeps the lower-cased `os.path.splitext` suffix of the file name,
 * and the Node `validateExt`/`saveUploaded`, which keep the lower-cased
 * `path.extname`. Paths are POSIX paths. The random uuid of the stored name
 * is a parameter; the upload folder is the field of a Disk.
 */
module Uploads {
  import opened Wrappers
  import opened Text

  const PyAllowed: set<string> := {".mp4", ".mp3", ".wav", ".avi", ".mov", ".mkv", ".m4a", ".webm"}
  const NodeAllowed: seq<string> := [".mp4", ".mp3", ".wav", ".m4a", ".mov", ".avi", ".mkv"]
  const UnsupportedPrefix: string := "Unsupported file type: "

  /** The index of the last occurrence of `c`, if any. */
  function LastIndex(s: string, c: char): (r: Option<nat>)
    ensures r.None? <==> c !in s
    ensures r.Some? ==> r.value < |s| && s[r.value] == c && c !in s[r.value + 1..]
  {
    if s == [] then None
    else if s[|s| - 1] == c then Some(|s| - 1)
    else
      var r := LastIndex(s[..|s| - 1], c);
      assert s == s[..|s| - 1] + [s[|s| - 1]];
      if r.Some? then
        assert s[r.value + 1..] == s[..|s| - 1][r.value + 1..] + [s[|s| - 1]];
        r
      else r
  }

  /** What follows the last '/'. */
  function BaseName(p: string): (b: string)
    ensures '/' !in b && |b| <= |p| && b == p[|p| - |b|..]
  {
    match LastIndex(p, '/')
    case None => p
    case Some(i) => p[i + 1..]
  }

  /** The suffix of a base name from its last dot. */
  function DotSuffix(b: string, d: nat): (ext: string)
    requires d < |b| && b[d] == '.' && '.' !in b[d + 1..] && '/' !in b
    ensures ext == b[d..] && ext[0] == '.' && '.' !in ext[1..] && '/' !in ext
  {
    assert b[d..][1..] == b[d + 1..];
    b[d..]
  }

  predicate AllDots(s: string) {
    forall i :: 0 <= i < |s| ==> s[i] == '.'
  }

  /**
   * `os.path.splitext(p)[1]`: from the last dot of the base name, provided
   * some character before that dot in the base name is not a dot; else "".
   */
  function PyExt(p: string): (ext: string)
    ensures ext == "" || (ext[0] == '.' && '.' !in ext[1..] && '/' !in ext)
    ensures ext != "" ==> EndsWith(BaseName(p), ext) && !AllDots(BaseName(p)[..|BaseName(p)| - |ext|])
    ensures ext == "" <==> '.' !in BaseName(p) || AllDots(BaseName(p)[..LastIndex(BaseName(p), '.').value])
  {
    var b := BaseName(p);
    match LastIndex(b, '.')
    case None => ""
    case Some(d) =>
      if AllDots(b[..d]) then "" else DotSuffix(b, d)
  }

  /** What is left of a path after its trailing slashes. */
  function TrimSlashes(p: string): (r: string)
    ensures r <= p && (r == "" || r[|r| - 1] != '/')
  {
    if p != [] && p[|p| - 1] == '/' then TrimSlashes(p[..|p| - 1]) else p
  }

  /**
   * `path.extname(p)` on POSIX: the base name after trailing slashes are
   * dropped, from its last dot, or "" when it has no dot, its only dot is
   * its first character, or it is "..".
   */
  function NodeExt(p: string): (ext: string)
    ensures ext == "" || (ext[0] == '.' && '.' !in ext[1..] && '/' !in ext)
    ensures var b := BaseName(TrimSlashes(p));
      ext != "" ==> EndsWith(b, ext) && |ext| < |b| && b != ".."
    ensures var b := BaseName(TrimSlashes(p));
      ext == "" <==> '.' !in b || LastIndex(b, '.').value == 0 || b == ".."
  {
    var b := BaseName(TrimSlashes(p));
    match LastIndex(b, '.')
    case None => ""
    case Some(d) =>
      if d == 0 || b == ".." then "" else DotSuffix(b, d)
  }

  /**
   * The two extractors agree except on base names that start with a dot:
   * when the base name's first character is not a dot and it has no
   * trailing slash, both take the suffix from its last dot.
   */
  lemma ExtAgree(p: string)
    requires p != [] && p[|p| - 1] != '/' && BaseName(p) != [] && BaseName(p)[0] != '.'
    ensures PyExt(p) == NodeExt(p)
  {
    var b := BaseName(p);
    assert TrimSlashes(p) == p;
    match LastIndex(b, '.')
    case None =>
    case Some(d) =>
      if d > 0 {
        assert b[..d][0] != '.';
      }
  }

  /** The base name "..mp4": Python finds no extension, Node finds ".mp4". */
  lemma ExtDisagree(p: string)
    requires p == "..mp4"
    ensures PyExt(p) == "" && NodeExt(p) == ".mp4"
  {
    assert BaseName(p) == p;
    assert TrimSlashes(p) == p;
    assert LastIndex(p, '.') == Some(1);
    assert AllDots(p[..1]);
  }

  /** `ext not in ALLOWED_EXT` and `!ALLOWED.includes(ext)`: `.webm` is the one extension only the Python backend accepts. */
  lemma AllowedExtensions(e: string)
    ensures e in NodeAllowed <==> e in PyAllowed && e != ".webm"
  {
  }

  /** `save_upload`'s check: the extension, or the ValueError message. */
  function CheckPyExt(filename: string): (r: Result<string, string>)
    ensures r.Ok? <==> Lower(PyExt(filename)) in PyAllowed
    ensures r.Ok? ==> r.value == Lower(PyExt(filename))
    ensures r.Err? ==> r.error == UnsupportedPrefix + Lower(PyExt(filename))
  {
    var ext := Lower(PyExt(filename));
    if ext !in PyAllowed then Err(UnsupportedPrefix + ext) else Ok(ext)
  }

  /** `validateExt`: the extension, or the message of the thrown Error. */
  function ValidateExt(filename: string): (r: Result<string, string>)
    ensures r.Ok? <==> Lower(NodeExt(filename)) in NodeAllowed
    ensures r.Ok? ==> r.value == Lower(NodeExt(filename))
    ensures r.Err? ==> r.error == UnsupportedPrefix + Lower(NodeExt(filename))
  {
    var ext := Lower(NodeExt(filename));
    if ext !in NodeAllowed then Err(UnsupportedPrefix + ext) else Ok(ext)
  }

  /** The record `saveUploaded` returns. */
  datatype Stored = Stored(id: string, filename: string, path: string, original: string, ext: string)

  /** `uuid.uuid4().hex`: 32 lower-case hexadecimal digits. */
  predicate IsHexId(h: string) {
    |h| == 32 && forall i :: 0 <= i < |h| ==> ('0' <= h[i] <= '9') || ('a' <= h[i] <= 'f')
  }

  /** `path.join(dir, name)` for a directory without a trailing slash. */
  function Join2(dir: string, name: string): string {
    dir + "/" + name
  }

  /** The upload folders: the file at each path. */
  class Disk {
    var files: map<string, seq<bv8>>

    constructor ()
      ensures files == map[]
    {
      files := map[];
    }

    /**
     * `save_upload(file)`: an unsupported extension raises before anything
     * is written; otherwise the content is written under the uuid followed
     * by the extension, which is returned.
     */
    method SaveUpload(uploadDir: string, filename: string, content: seq<bv8>, hex: string) returns (r: Result<string, string>)
      requires IsHexId(hex)
      modifies this
      ensures r == (match CheckPyExt(filename) case Ok(ext) => Ok(hex + ext) case Err(e) => Err(e))
      ensures r.Ok? ==> IsHexId(r.value[..32]) && r.value[32..] in PyAllowed
      ensures r.Err? ==> files == old(files)
      ensures r.Ok? ==> files == old(files)[Join2(uploadDir, r.value) := content]
    {
      var checked := CheckPyExt(filename);
      if checked.Err? {
        return Err(checked.error);
      }
      var newName := hex + checked.value;
      files := files[Join2(uploadDir, newName) := content];
      r := Ok(newName);
    }

    /**
     * `saveUploaded(file, uploadDir)`: the extension is validated before
     * the temporary file is moved; the stored name is the id followed by
     * the extension; a missing temporary file makes the rename throw.
     */
    method SaveUploaded(tmpPath: string, original: string, uploadDir: string, id: string) returns (r: Result<Stored, string>)
      modifies this
      ensures ValidateExt(original).Err? ==> r == Err(ValidateExt(original).error) && files == old(files)
      ensures ValidateExt(original).Ok? && tmpPath !in old(files) ==> r.Err? && files == old(files)
      ensures ValidateExt(original).Ok? && tmpPath in old(files) ==>
        var ext := ValidateExt(original).value; var dest := Join2(uploadDir, id + ext);
        && r == Ok(Stored(id, id + ext, dest, original, ext))
        && files == (old(files) - {tmpPath})[dest := old(files)[tmpPath]]
    {
      var checked := ValidateExt(original);
      if checked.Err? {
        return Err(checked.error);
      }
      var ext := checked.value;
      var stored := id + ext;
      var dest := Join2(uploadDir, stored);
      if tmpPath !in files {
        return Err("ENOENT: no such file or directory, rename");
      }
      var content := files[tmpPath];
      files := (files - {tmpPath})[dest := content];
      r := Ok(Stored(id, stored, dest, original, ext));
    }
  }
}
