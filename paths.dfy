/** Local, pre-network decisions about an activity file path: the POSIX
    `os.path.splitext` / `os.path.basename` rules, the three-extension
    whitelist, the binary-or-text read mode and the ASCII-only file name
    sent in the multipart upload. */
module Paths {
  import opened Base

  /** Extensions Garmin Connect accepts, and the one read as bytes. */
  const ValidExtensions: seq<string> := [".tcx", ".fit", ".gpx"]
  const BinaryFormats: seq<string> := [".fit"]

  datatype Mode = ReadText | ReadBinary   // open(path, 'r') / open(path, 'rb')

  /** Index of the last `c` in `s`, or -1 (Python's `str.rfind`). */
  function LastIndex(s: string, c: char): (i: int)
    ensures -1 <= i < |s|
    ensures i >= 0 ==> s[i] == c
    ensures forall j :: i < j < |s| ==> s[j] != c
  {
    if s == [] then -1
    else if s[|s| - 1] == c then |s| - 1
    else LastIndex(s[..|s| - 1], c)
  }

  /** True when the file-name part of `p` between `from` and `dot` holds a
      character that is not a dot (leading dots do not start an extension). */
  predicate HasStem(p: string, from: int, dot: int)
    requires 0 <= from && dot <= |p|
  {
    exists k :: from <= k < dot && p[k] != '.'
  }

  /** The second component of posixpath.splitext(p): from the last dot of the
      last path component to the end, unless that dot only has dots before it
      in the component; "" otherwise. */
  function Extension(p: string): string {
    var sep := LastIndex(p, '/');
    var dot := LastIndex(p, '.');
    if dot > sep && HasStem(p, sep + 1, dot) then p[dot..] else []
  }

  /** The extension is empty or a dot-led suffix of the path that holds no
      further dot and no separator. */
  lemma ExtensionShape(p: string)
    ensures var e := Extension(p);
      e == [] || (e[0] == '.' && |e| <= |p| && e == p[|p| - |e|..])
    ensures var e := Extension(p);
      forall i :: 0 <= i < |e| ==> e[i] != '/'
    ensures var e := Extension(p);
      forall i :: 1 <= i < |e| ==> e[i] != '.'
  {
  }

  /** Appending `"." + suffix` to a path whose last character is an ordinary
      file-name character yields exactly that extension. */
  lemma ExtensionOfAppended(stem: string, suffix: string)
    requires |stem| > 0 && stem[|stem| - 1] != '/' && stem[|stem| - 1] != '.'
    requires forall i :: 0 <= i < |suffix| ==> suffix[i] != '.' && suffix[i] != '/'
    ensures Extension(stem + ("." + suffix)) == "." + suffix
  {
    var p := stem + ("." + suffix);
    var ext := "." + suffix;
    assert p[|stem|] == '.';
    assert forall j :: |stem| < j < |p| ==> p[j] == suffix[j - |stem| - 1];
    var dot := LastIndex(p, '.');
    assert dot == |stem|;
    var sep := LastIndex(p, '/');
    assert sep < |stem| - 1 by {
      assert p[|stem| - 1] == stem[|stem| - 1];
    }
    assert HasStem(p, sep + 1, dot) by {
      assert p[|stem| - 1] != '.';
    }
    assert p[dot..] == ext;
  }

  /** The last path component (posixpath.basename). */
  function Basename(p: string): (b: string)
    ensures |b| <= |p| && b == p[|p| - |b|..]
    ensures forall i :: 0 <= i < |b| ==> b[i] != '/'
  {
    p[LastIndex(p, '/') + 1..]
  }

  /** `os.path.splitext(p)[1].lower()`, the extension every gate tests. */
  function LowerExtension(p: string): string {
    Lower(Extension(p))
  }

  predicate IsValidExtension(e: string) {
    e in ValidExtensions
  }

  function ModeFor(e: string): (m: Mode)
    ensures m == ReadBinary <==> e == ".fit"
  {
    if e in BinaryFormats then ReadBinary else ReadText
  }

  datatype GateError = InvalidFileExtension

  /** The two local decisions upload_file makes before anything touches the
      network: reject a path whose lower-cased extension is not whitelisted,
      otherwise choose the read mode. */
  function UploadGate(path: string): Result<(string, Mode), GateError> {
    var e := LowerExtension(path);
    if !IsValidExtension(e) then Err(InvalidFileExtension) else Ok((e, ModeFor(e)))
  }

  /** The gate passes exactly the three whitelisted extensions, carries the
      extension on, and reads `.fit` alone as bytes. */
  lemma UploadGateDecides(path: string)
    ensures UploadGate(path).Ok? <==> LowerExtension(path) in [".tcx", ".fit", ".gpx"]
    ensures UploadGate(path).Ok? ==> UploadGate(path).value.0 == LowerExtension(path)
    ensures UploadGate(path).Ok? ==> (UploadGate(path).value.1 == ReadBinary <==> LowerExtension(path) == ".fit")
  {
  }

  /** `x.gpx` passes and is read as text. */
  lemma GateAcceptsGpxAsText()
    ensures UploadGate("x.gpx") == Ok((".gpx", ReadText))
  {
    ExtensionOfAppended("x", "gpx");
    assert "x" + ("." + "gpx") == "x.gpx";
    assert Lower(".gpx") == ".gpx";
  }

  /** `X.FIT` passes and is read as bytes: the test is on the lower-cased
      extension. */
  lemma GateAcceptsUpperFitAsBinary()
    ensures UploadGate("X.FIT") == Ok((".fit", ReadBinary))
  {
    ExtensionOfAppended("X", "FIT");
    assert "X" + ("." + "FIT") == "X.FIT";
    assert Lower(".FIT") == ".fit";
  }

  /** `x.jpg` is refused, and so is `.fit`, whose only dot is a leading one. */
  lemma GateRejects()
    ensures UploadGate("x.jpg") == Err(InvalidFileExtension)
    ensures UploadGate(".fit") == Err(InvalidFileExtension)
  {
    ExtensionOfAppended("x", "jpg");
    assert "x" + ("." + "jpg") == "x.jpg";
    assert Lower(".jpg") == ".jpg";
    assert ".jpg" !in ValidExtensions by {
      assert ".jpg"[1] != ".fit"[1] && ".jpg"[1] != ".tcx"[1] && ".jpg"[1] != ".gpx"[1];
    }
    assert Extension(".fit") == [] by {
      assert !HasStem(".fit", 0, 0);
    }
    assert Lower([]) == [];
  }

  /** The multipart file name: the path itself when it encodes as ASCII,
      otherwise the path with its non-ASCII characters dropped. The file is
      still opened under the original path. */
  function AsciiName(name: string): string {
    if IsAscii(name) then name else DropNonAscii(name)
  }

  /** The multipart name is ASCII, drawn from the path in order, and is the
      path itself exactly when the path is ASCII. */
  lemma AsciiNameSound(name: string)
    ensures IsAscii(AsciiName(name))
    ensures IsSubsequence(AsciiName(name), name)
    ensures AsciiName(name) == name <==> IsAscii(name)
  {
    DropNonAsciiIsSubsequence(name);
    DropNonAsciiKeepsAscii(name);
  }
}
