/** Upload checks of the backend: an uploaded file must declare an image
    content type and carry an allowed extension, and a saved upload keeps
    its extension under a fresh unique name. Paths follow POSIX rules. */
module Upload {

  datatype HttpError = HttpError(status: nat, detail: string)

  datatype Result<T> = Ok(value: T) | Err(error: HttpError)

  /** The reason an upload is refused. */
  const NotAnImage := HttpError(400, "File must be an image")

  predicate StartsWith(s: string, prefix: string)
  {
    |prefix| <= |s| && s[..|prefix|] == prefix
  }

  /** The index of the last `c` in `s`, or -1 when there is none (`str.rfind`). */
  function LastIndexOf(s: string, c: char): (i: int)
    ensures -1 <= i < |s|
    ensures i >= 0 ==> s[i] == c
    ensures forall j :: i < j < |s| ==> s[j] != c
    decreases |s|
  {
    if s == [] then -1
    else if s[|s| - 1] == c then |s| - 1
    else LastIndexOf(s[..|s| - 1], c)
  }

  /** Some character of `p[lo..hi]` is not a dot. */
  predicate HasNonDot(p: string, lo: int, hi: int)
    requires 0 <= lo && hi <= |p|
  {
    exists k :: lo <= k < hi && p[k] != '.'
  }

  /** `os.path.splitext` on POSIX: the extension runs from the last dot to
      the end, provided that dot lies in the last path component and is not
      part of that component's leading run of dots; otherwise it is empty. */
  function SplitExt(p: string): (parts: (string, string))
    ensures parts.0 + parts.1 == p
    ensures parts.1 == [] || (parts.1[0] == '.' && forall k :: 1 <= k < |parts.1| ==> parts.1[k] != '.')
    ensures forall k :: 0 <= k < |parts.1| ==> parts.1[k] != '/'
  {
    var sep, dot := LastIndexOf(p, '/'), LastIndexOf(p, '.');
    if dot > sep && HasNonDot(p, sep + 1, dot) then (p[..dot], p[dot..]) else (p, [])
  }

  function LowerChar(c: char): char
  {
    if 'A' <= c <= 'Z' then (c as int + 32) as char else c
  }

  /** `str.lower` on ASCII letters. */
  function Lower(s: string): (t: string)
    ensures |t| == |s|
    ensures forall k :: 0 <= k < |s| ==> t[k] == LowerChar(s[k])
  {
    seq(|s|, k requires 0 <= k < |s| => LowerChar(s[k]))
  }

  /** The extension the uploads are judged and saved by: `splitext`'s suffix, lowercased. */
  function FileExtension(filename: string): (e: string)
    ensures e == [] || (e[0] == '.' && forall k :: 1 <= k < |e| ==> e[k] != '.')
    ensures forall k :: 0 <= k < |e| ==> e[k] != '/' && !('A' <= e[k] <= 'Z')
  {
    Lower(SplitExt(filename).1)
  }

  /** `validate_image_file`: first the content type must start with
      `image/`, then the extension must be allowed; then the answer is true. */
  function ValidateImageFile(contentType: string, filename: string, allowed: set<string>): (r: Result<bool>)
    ensures r.Ok? <==> StartsWith(contentType, "image/") && FileExtension(filename) in allowed
    ensures r.Ok? ==> r.value
    ensures !StartsWith(contentType, "image/") ==> r == Err(NotAnImage)
    ensures StartsWith(contentType, "image/") && FileExtension(filename) !in allowed ==>
      r.Err? && r.error.status == 400 && r.error != NotAnImage
  {
    if !StartsWith(contentType, "image/") then Err(NotAnImage)
    else if FileExtension(filename) !in allowed then
      Err(HttpError(400, "File extension not allowed"))
    else Ok(true)
  }

  /** Lowercasing keeps dots and slashes where they are and creates none. */
  lemma LowerKeepsSeparators(p: string)
    ensures forall k :: 0 <= k < |p| ==> (Lower(p)[k] == '.' <==> p[k] == '.')
    ensures forall k :: 0 <= k < |p| ==> (Lower(p)[k] == '/' <==> p[k] == '/')
  {
  }

  lemma LastIndexOfLower(p: string, c: char)
    requires !('A' <= c <= 'Z') && !('a' <= c <= 'z')
    ensures LastIndexOf(Lower(p), c) == LastIndexOf(p, c)
  {
  }

  lemma LowerSlice(p: string, lo: int, hi: int)
    requires 0 <= lo <= hi <= |p|
    ensures Lower(p[lo..hi]) == Lower(p)[lo..hi]
  {
  }

  lemma HasNonDotLower(p: string, lo: int, hi: int)
    requires 0 <= lo && hi <= |p|
    ensures HasNonDot(Lower(p), lo, hi) == HasNonDot(p, lo, hi)
  {
    var q := Lower(p);
    if HasNonDot(p, lo, hi) {
      var k :| lo <= k < hi && p[k] != '.';
      assert q[k] != '.';
    }
    if HasNonDot(q, lo, hi) {
      var k :| lo <= k < hi && q[k] != '.';
      assert p[k] != '.';
    }
  }

  /** Splitting a lowercased name is lowercasing the split name. */
  lemma SplitExtLower(p: string)
    ensures SplitExt(Lower(p)) == (Lower(SplitExt(p).0), Lower(SplitExt(p).1))
  {
    var q := Lower(p);
    LastIndexOfLower(p, '/');
    LastIndexOfLower(p, '.');
    var sep, dot := LastIndexOf(p, '/'), LastIndexOf(p, '.');
    if dot > sep {
      HasNonDotLower(p, sep + 1, dot);
      LowerSlice(p, 0, dot);
      LowerSlice(p, dot, |p|);
      assert p[..dot] == p[0..dot] && p[dot..] == p[dot..|p|];
      assert q[..dot] == q[0..dot] && q[dot..] == q[dot..|p|];
    }
    assert Lower([]) == [];
  }

  /** A name and its lowercase form have the same extension. */
  lemma ExtensionIgnoresCase(filename: string)
    ensures FileExtension(Lower(filename)) == FileExtension(filename)
  {
    SplitExtLower(filename);
    LowerIdempotent(SplitExt(filename).1);
  }

  lemma LowerIdempotent(s: string)
    ensures Lower(Lower(s)) == Lower(s)
  {
    assert forall k :: 0 <= k < |s| ==> LowerChar(LowerChar(s[k])) == LowerChar(s[k]);
  }

  /** The extension check is case-insensitive: names equal up to case
      (`a.JPG`, `a.jpg`) are validated identically. */
  lemma ValidationIgnoresCase(contentType: string, f: string, g: string, allowed: set<string>)
    requires Lower(f) == Lower(g)
    ensures ValidateImageFile(contentType, f, allowed) == ValidateImageFile(contentType, g, allowed)
  {
    ExtensionIgnoresCase(f);
    ExtensionIgnoresCase(g);
  }

  /** The canonical text of a UUID: hexadecimal digits and dashes, never empty. */
  predicate IsUuidText(u: string)
  {
    |u| > 0 && forall k :: 0 <= k < |u| ==> ('0' <= u[k] <= '9' || 'a' <= u[k] <= 'f' || u[k] == '-')
  }

  /** `save_uploaded_file`'s name for the stored copy: the UUID followed by
      the upload's lowercased extension. */
  function SavedFilename(uuid: string, filename: string): (name: string)
    ensures |name| >= |uuid| && name[..|uuid|] == uuid
  {
    uuid + FileExtension(filename)
  }

  /** `os.path.join(directory, name)` for a name that is not absolute: the
      directory, one separating slash unless it is empty or already ends in
      one, then the name. */
  function JoinPath(directory: string, name: string): (path: string)
    requires name == [] || name[0] != '/'
    ensures |path| >= |directory| + |name| && path[..|directory|] == directory && path[|path| - |name|..] == name
    ensures |path| <= |directory| + 1 + |name|
    ensures directory != [] ==> path[|path| - |name| - 1] == '/'
    ensures directory == [] ==> path == name
  {
    if directory == [] || directory[|directory| - 1] == '/' then directory + name else directory + "/" + name
  }

  /** The path the stored copy is written to: the directory, a separating
      slash, then the stored name. */
  function SavedPath(directory: string, uuid: string, filename: string): (path: string)
    requires IsUuidText(uuid)
    ensures var name := SavedFilename(uuid, filename);
      |path| >= |directory| + |name| && path[..|directory|] == directory && path[|path| - |name|..] == name &&
      (directory != [] ==> path[|path| - |name| - 1] == '/')
  {
    var name := SavedFilename(uuid, filename);
    assert name[0] == name[..|uuid|][0] == uuid[0];
    JoinPath(directory, name)
  }

  /** A name with no dot or slash, followed by an extension, splits into exactly those. */
  lemma SplitExtOfPlainStem(stem: string, e: string)
    requires |stem| > 0 && forall k :: 0 <= k < |stem| ==> stem[k] != '.' && stem[k] != '/'
    requires e == [] || (e[0] == '.' && forall k :: 1 <= k < |e| ==> e[k] != '.')
    requires forall k :: 0 <= k < |e| ==> e[k] != '/'
    ensures SplitExt(stem + e).1 == e
  {
    var s := stem + e;
    assert forall k :: 0 <= k < |stem| ==> s[k] == stem[k];
    assert forall k :: |stem| <= k < |s| ==> s[k] == e[k - |stem|];
    var sep, dot := LastIndexOf(s, '/'), LastIndexOf(s, '.');
    assert sep == -1;
    if e == [] {
      assert dot == -1;
    } else {
      assert s[|stem|] == '.';
      assert dot == |stem|;
      assert s[0] != '.';
      assert HasNonDot(s, 0, dot);
      assert s[dot..] == e;
    }
  }

  /** The stored copy has the extension the upload was judged by. */
  lemma SavedFilenameKeepsExtension(uuid: string, filename: string)
    requires IsUuidText(uuid)
    ensures FileExtension(SavedFilename(uuid, filename)) == FileExtension(filename)
  {
    var raw := SplitExt(filename).1;
    var e := Lower(raw);
    LowerKeepsSeparators(raw);
    SplitExtOfPlainStem(uuid, e);
    LowerIdempotent(raw);
  }

  /** A name without slashes whose last dot, at `dot`, follows a non-dot
      first character has the suffix from `dot` as its extension. */
  lemma ExtensionFromLastDot(p: string, dot: int)
    requires 0 < dot < |p| && p[dot] == '.' && p[0] != '.'
    requires forall j :: dot < j < |p| ==> p[j] != '.'
    requires forall j :: 0 <= j < |p| ==> p[j] != '/'
    ensures SplitExt(p).1 == p[dot..]
  {
    assert LastIndexOf(p, '/') == -1;
    assert LastIndexOf(p, '.') == dot;
    assert HasNonDot(p, 0, dot);
  }

  /** Worked cases of the extension rule: the last dot counts and case is folded. */
  lemma ExtensionOfMixedCase()
    ensures FileExtension("photo.JPG") == ".jpg"
  {
    ExtensionFromLastDot("photo.JPG", 5);
    assert "photo.JPG"[5..] == ".JPG";
    LowerOfUpperSuffix();
  }

  lemma LowerOfUpperSuffix()
    ensures Lower(".JPG") == ".jpg"
  {
    var t := Lower(".JPG");
    assert t[0] == '.' && t[1] == 'j' && t[2] == 'p' && t[3] == 'g';
  }

  lemma ExtensionOfDoubleSuffix()
    ensures FileExtension("archive.tar.gz") == ".gz"
  {
    ExtensionFromLastDot("archive.tar.gz", 11);
    assert "archive.tar.gz"[11..] == ".gz";
    assert Lower(".gz") == ".gz";
  }

  /** `LastIndexOf` is pinned down by the last occurrence. */
  lemma LastIndexAt(s: string, c: char, i: int)
    requires i == -1 || (0 <= i < |s| && s[i] == c)
    requires forall j :: i < j < |s| ==> s[j] != c
    ensures LastIndexOf(s, c) == i
  {
  }

  /** A leading run of dots is not an extension. */
  lemma NoExtensionForDotfiles()
    ensures FileExtension(".jpg") == ""
    ensures FileExtension("..png") == ""
  {
    LastIndexAt(".jpg", '.', 0);
    LastIndexAt(".jpg", '/', -1);
    LastIndexAt("..png", '.', 1);
    LastIndexAt("..png", '/', -1);
    assert !HasNonDot("..png", 0, 1);
    assert Lower([]) == [];
  }

  /** A dot outside the last path component, or none at all, gives no extension. */
  lemma NoExtensionWithoutDotInName()
    ensures FileExtension("dir.d/file") == ""
    ensures FileExtension("noext") == ""
  {
    LastIndexAt("dir.d/file", '.', 3);
    LastIndexAt("dir.d/file", '/', 5);
    LastIndexAt("noext", '.', -1);
    LastIndexAt("noext", '/', -1);
    assert Lower([]) == [];
  }
}
