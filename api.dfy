/** The pure helpers of the HTTP layer, pkg/api/api.go: the content type of
    a served format and the format guessed from an uploaded file's name. */
module Api {
  /** getContentType */
  function ContentType(format: string): string {
    if format == "gltf" then "model/gltf+json"
    else if format == "glb" then "model/gltf-binary"
    else if format == "obj" then "text/plain"
    else "application/octet-stream"
  }

  /** Each of the three text and glTF types belongs to exactly one format;
      FBX and every other format are served as an octet stream. */
  lemma ContentTypeCases(format: string)
    ensures ContentType(format) == "model/gltf+json" <==> format == "gltf"
    ensures ContentType(format) == "model/gltf-binary" <==> format == "glb"
    ensures ContentType(format) == "text/plain" <==> format == "obj"
    ensures ContentType(format) == "application/octet-stream" <==> format !in {"gltf", "glb", "obj"}
  {
  }

  /** filepath.Ext on a Unix path, scanning back from position n: the
      suffix from the last '.' of the last path element, or "" when that
      element has no '.'. */
  function ExtFrom(path: string, n: nat): (e: string)
    requires n <= |path|
    ensures |e| <= |path|
  {
    if n == 0 || path[n - 1] == '/' then ""
    else if path[n - 1] == '.' then path[n - 1..]
    else ExtFrom(path, n - 1)
  }

  function Ext(path: string): string {
    ExtFrom(path, |path|)
  }

  /** A position is in the last path element when no '/' follows it. */
  ghost predicate InLastElement(path: string, i: int)
    requires 0 <= i < |path|
  {
    forall j :: i < j < |path| ==> path[j] != '/'
  }

  /** What ExtFrom finds before position n: nothing exactly when no '.'
      before n is in the last element, given that none of the positions
      from n on is a '/' or a '.'; otherwise the suffix from the last such
      '.', in which no '.' or '/' follows. */
  lemma {:induction false} ExtFromMeaning(path: string, n: nat)
    requires n <= |path|
    requires forall j :: n <= j < |path| ==> path[j] != '/' && path[j] != '.'
    ensures var e := ExtFrom(path, n);
      e == "" <==> forall i :: 0 <= i < n && path[i] == '.' ==> !InLastElement(path, i)
    ensures var e := ExtFrom(path, n);
      e != "" ==> |path| - |e| < n && e == path[|path| - |e|..] && e[0] == '.' &&
                  forall k :: 1 <= k < |e| ==> e[k] != '.' && e[k] != '/'
  {
    if n > 0 && path[n - 1] != '/' && path[n - 1] != '.' {
      ExtFromMeaning(path, n - 1);
    } else if n > 0 && path[n - 1] == '/' {
      forall i | 0 <= i < n - 1
        ensures !InLastElement(path, i)
      {
        assert path[n - 1] == '/';
      }
    } else if n > 0 {
      assert InLastElement(path, n - 1);
    }
  }

  /** Ext of a whole path: "" exactly when its last element has no '.';
      otherwise a suffix that starts with '.' and holds no other '.' and
      no '/'. */
  lemma ExtMeaning(path: string)
    ensures Ext(path) == "" <==> forall i :: 0 <= i < |path| && path[i] == '.' ==> !InLastElement(path, i)
    ensures Ext(path) != "" ==>
      Ext(path)[0] == '.' && Ext(path) == path[|path| - |Ext(path)|..] &&
      forall k :: 1 <= k < |Ext(path)| ==> Ext(path)[k] != '.' && Ext(path)[k] != '/'
  {
    ExtFromMeaning(path, |path|);
  }

  /** strings.ToLower on ASCII letters; other characters are kept. */
  function LowerChar(c: char): (r: char)
    ensures 'A' <= c <= 'Z' ==> r as int == c as int + 32
    ensures !('A' <= c <= 'Z') ==> r == c
  {
    if 'A' <= c <= 'Z' then (c as int + 32) as char else c
  }

  function Lower(s: string): (r: string)
    ensures |r| == |s|
    ensures forall i :: 0 <= i < |s| ==> r[i] == LowerChar(s[i])
  {
    seq(|s|, i requires 0 <= i < |s| => LowerChar(s[i]))
  }

  /** Lowering leaves no upper-case ASCII letter and is idempotent. */
  lemma LowerIsLower(s: string)
    ensures forall i :: 0 <= i < |Lower(s)| ==> !('A' <= Lower(s)[i] <= 'Z')
    ensures Lower(Lower(s)) == Lower(s)
  {
  }

  /** getFormatFromFilename */
  function FormatFromFilename(filename: string): string {
    var ext := Ext(filename);
    if ext == "" then "" else Lower(ext[1..])
  }

  /** The format is empty when the file name's last element has no '.';
      otherwise it is the text after the last '.', lower-cased (empty when
      the name ends in '.'). It never holds a '.', a '/' or an upper-case
      letter. */
  lemma FormatFromFilenameMeaning(filename: string)
    ensures var f := FormatFromFilename(filename);
      (forall i :: 0 <= i < |filename| && filename[i] == '.' ==> !InLastElement(filename, i)) ==> f == ""
    ensures var f := FormatFromFilename(filename);
      forall i :: 0 <= i < |f| ==> f[i] != '.' && f[i] != '/' && !('A' <= f[i] <= 'Z')
    ensures var f := FormatFromFilename(filename);
      Ext(filename) != "" ==> f == Lower(filename[|filename| - |Ext(filename)| + 1..])
  {
    ExtMeaning(filename);
    var e := Ext(filename);
    if e != "" {
      assert e[1..] == filename[|filename| - |e| + 1..];
      forall i | 0 <= i < |e| - 1
        ensures LowerChar(e[1..][i]) != '.' && LowerChar(e[1..][i]) != '/'
      {
        assert e[1..][i] == e[i + 1];
      }
    }
  }

  /** The examples: upper case is lowered, only the last extension counts,
      a name ending in '.' gives "", and a '.' in a directory is ignored. */
  lemma FormatExamples(a: string, b: string, c: string, d: string)
    requires a == "Model.GLTF" && b == "a.tar.GZ" && c == "file." && d == "dir.v1/model"
    ensures FormatFromFilename(a) == "gltf"
    ensures FormatFromFilename(b) == "gz"
    ensures FormatFromFilename(c) == ""
    ensures FormatFromFilename(d) == ""
  {
    assert Ext(a) == ExtFrom(a, 9) == ExtFrom(a, 8) == ExtFrom(a, 7) == ExtFrom(a, 6) == a[5..];
    assert Ext(b) == ExtFrom(b, 7) == ExtFrom(b, 6) == b[5..];
    assert Ext(c) == c[4..];
    assert Ext(d) == ExtFrom(d, 11) == ExtFrom(d, 10) == ExtFrom(d, 9) == ExtFrom(d, 8) == ExtFrom(d, 7) == "";
  }

  /** UploadModel's format: the form's "format" value when it is not
      empty, else the one guessed from the file name. */
  function UploadFormat(formValue: string, filename: string): (r: string)
    ensures formValue != "" ==> r == formValue
    ensures formValue == "" ==> r == FormatFromFilename(filename)
  {
    if formValue != "" then formValue else FormatFromFilename(filename)
  }
}
