/** The manifest of a controlled launch: the bytes its source fingerprint is computed over determine the files.
 */
module RuntimeManifest {
  import opened Order
  import opened Sorting
  import opened Utf8

  datatype RuntimeFile = RuntimeFile(path: string, sha256: string, size: nat)

  /** Case folding and white space, as the language has them. */
  datatype Text = Text(casefold: string -> string, blank: char -> bool)

  // ---------------------------------------------------------------------------------------------
  // Paths and digests

  function Split(s: string, at: char): (parts: seq<string>)
    ensures parts != []
  {
    if s == "" then [""]
    else
      var rest := Split(s[1..], at);
      if s[0] == at then [""] + rest else [[s[0]] + rest[0]] + rest[1..]
  }

  function Joined(parts: seq<string>, at: char): string
    requires parts != []
  {
    if |parts| == 1 then parts[0] else parts[0] + [at] + Joined(parts[1..], at)
  }

  /** Splitting loses nothing, and no part holds the separator. */
  lemma {:induction false} SplitExact(s: string, at: char)
    ensures Joined(Split(s, at), at) == s
    ensures forall j | 0 <= j < |Split(s, at)| :: at !in Split(s, at)[j]
  {
    if s != "" {
      var parts, rest := Split(s, at), Split(s[1..], at);
      SplitExact(s[1..], at);
      assert s == [s[0]] + s[1..];
      if s[0] == at {
        assert parts[1..] == rest;
        assert Joined(parts, at) == "" + [at] + Joined(rest, at);
        assert forall j | 0 < j < |parts| :: parts[j] == rest[j - 1];
      } else {
        assert parts[1..] == rest[1..];
        JoinedFirst(s[0], rest, at);
        assert forall j | 0 < j < |parts| :: parts[j] == rest[j];
      }
    }
  }

  lemma JoinedFirst(c: char, rest: seq<string>, at: char)
    requires rest != []
    ensures Joined([[c] + rest[0]] + rest[1..], at) == [c] + Joined(rest, at)
  {
    var parts := [[c] + rest[0]] + rest[1..];
    assert parts[1..] == rest[1..];
  }

  const DEVICES: set<string> := {"con", "prn", "aux", "nul",
    "com0", "com1", "com2", "com3", "com4", "com5", "com6", "com7", "com8", "com9",
    "lpt0", "lpt1", "lpt2", "lpt3", "lpt4", "lpt5", "lpt6", "lpt7", "lpt8", "lpt9"}

  const FORBIDDEN: string := "\\:<>\"|?*"

  predicate SafePart(text: Text, part: string) {
    && part != "" && part != "." && part != ".."
    && !text.blank(part[0]) && !text.blank(part[|part| - 1])
    && part[|part| - 1] != '.'
    && text.casefold(Split(part, '.')[0]) !in DEVICES
    && forall i | 0 <= i < |part| :: part[i] as int >= 32 && part[i] !in FORBIDDEN
  }

  predicate SafePath(text: Text, path: string) {
    forall i | 0 <= i < |Split(path, '/')| :: SafePart(text, Split(path, '/')[i])
  }

  predicate HexDigit(c: char) {
    '0' <= c <= '9' || 'a' <= c <= 'f'
  }

  predicate Digest(s: string) {
    |s| == 64 && forall i | 0 <= i < |s| :: HexDigit(s[i])
  }

  predicate Accepted(text: Text, f: RuntimeFile) {
    SafePath(text, f.path) && Digest(f.sha256)
  }

  function HexValue(c: char): (v: int)
    requires HexDigit(c)
    ensures 0 <= v < 16
  {
    if c <= '9' then c as int - '0' as int else c as int - 'a' as int + 10
  }

  function FromHex(s: string): (r: seq<Byte>)
    requires |s| % 2 == 0 && forall i | 0 <= i < |s| :: HexDigit(s[i])
    ensures |r| == |s| / 2
  {
    if s == "" then [] else [16 * HexValue(s[0]) + HexValue(s[1])] + FromHex(s[2..])
  }

  lemma {:induction false} FromHexInjective(s: string, t: string)
    requires |s| % 2 == 0 && forall i | 0 <= i < |s| :: HexDigit(s[i])
    requires |t| % 2 == 0 && forall i | 0 <= i < |t| :: HexDigit(t[i])
    requires FromHex(s) == FromHex(t)
    ensures s == t
  {
    if s != "" && t != "" {
      assert FromHex(s)[0] == FromHex(t)[0];
      assert FromHex(s)[1..] == FromHex(s[2..]) && FromHex(t)[1..] == FromHex(t[2..]);
      FromHexInjective(s[2..], t[2..]);
      assert s == [s[0], s[1]] + s[2..] && t == [t[0], t[1]] + t[2..];
    }
  }

  /** No part, and so no accepted path, holds a control character. */
  lemma {:induction false} PartsHoldAll(s: string, at: char, i: nat)
    requires i < |s| && s[i] != at
    ensures exists j, k | 0 <= j < |Split(s, at)| && 0 <= k < |Split(s, at)[j]| :: Split(s, at)[j][k] == s[i]
    decreases |s|
  {
    var rest := Split(s[1..], at);
    if i == 0 {
      assert Split(s, at)[0][0] == s[0];
    } else {
      PartsHoldAll(s[1..], at, i - 1);
      var j, k :| 0 <= j < |rest| && 0 <= k < |rest[j]| && rest[j][k] == s[i];
      if s[0] == at {
        assert Split(s, at)[j + 1] == rest[j];
      } else if j == 0 {
        assert Split(s, at)[0][k + 1] == rest[0][k];
      } else {
        assert Split(s, at)[j] == rest[j];
      }
    }
  }

  lemma SafePathWithoutNul(text: Text, path: string)
    requires SafePath(text, path)
    ensures forall i | 0 <= i < |path| :: path[i] as int != 0
  {
    forall i | 0 <= i < |path| ensures path[i] as int != 0 {
      if path[i] != '/' {
        PartsHoldAll(path, '/', i);
        var j, k :| 0 <= j < |Split(path, '/')| && 0 <= k < |Split(path, '/')[j]| && Split(path, '/')[j][k] == path[i];
        assert SafePart(text, Split(path, '/')[j]);
      }
    }
  }

  /** An accepted path is its parts, none of which is empty or leads elsewhere, or names a device or a stream. */
  lemma SafePathParts(text: Text, path: string)
    requires SafePath(text, path)
    ensures Joined(Split(path, '/'), '/') == path
    ensures forall j | 0 <= j < |Split(path, '/')| ::
              var part := Split(path, '/')[j];
              && part !in {"", ".", ".."} && '/' !in part && '\\' !in part && ':' !in part
              && text.casefold(Split(part, '.')[0]) !in {"con", "prn", "aux", "nul"}
  {
    SplitExact(path, '/');
    forall j | 0 <= j < |Split(path, '/')|
      ensures var part := Split(path, '/')[j];
              && part !in {"", ".", ".."} && '\\' !in part && ':' !in part
              && text.casefold(Split(part, '.')[0]) !in {"con", "prn", "aux", "nul"}
    {
      var part := Split(path, '/')[j];
      assert SafePart(text, part);
      assert '\\' == FORBIDDEN[0] && ':' == FORBIDDEN[1];
    }
  }

  // ---------------------------------------------------------------------------------------------
  // The stream that is hashed

  predicate AllAccepted(text: Text, files: seq<RuntimeFile>) {
    forall i | 0 <= i < |files| :: Accepted(text, files[i])
  }

  function Record(text: Text, f: RuntimeFile): seq<Byte>
    requires Accepted(text, f)
  {
    Encode(f.path) + [0] + FromHex(f.sha256)
  }

  function Stream(text: Text, files: seq<RuntimeFile>): seq<Byte>
    requires AllAccepted(text, files)
  {
    if files == [] then [] else Stream(text, files[..|files| - 1]) + Record(text, files[|files| - 1])
  }

  /** The digest is fed path, separator and content digest of one file after the other. */
  method SourceStream(text: Text, files: seq<RuntimeFile>) returns (stream: seq<Byte>)
    requires AllAccepted(text, files)
    ensures stream == Stream(text, files)
  {
    stream := [];
    for i := 0 to |files|
      invariant stream == Stream(text, files[..i])
    {
      stream := stream + Encode(files[i].path);
      stream := stream + [0];
      stream := stream + FromHex(files[i].sha256);
      assert files[..i + 1][..i] == files[..i];
    }
    assert files[..|files|] == files;
  }

  lemma {:induction false} StreamFirst(text: Text, files: seq<RuntimeFile>)
    requires AllAccepted(text, files) && files != []
    ensures Stream(text, files) == Record(text, files[0]) + Stream(text, files[1..])
    decreases |files|
  {
    if |files| == 1 {
      assert files[..0] == [] && files[1..] == [];
      assert Stream(text, files) == [] + Record(text, files[0]);
    } else {
      var init := files[..|files| - 1];
      StreamFirst(text, init);
      StreamLast(text, files[1..]);
      assert init[1..] == files[1..][..|files| - 2];
      Associates(Record(text, files[0]), Stream(text, init[1..]), Record(text, files[|files| - 1]));
    }
  }

  lemma Associates(a: seq<Byte>, b: seq<Byte>, c: seq<Byte>)
    ensures (a + b) + c == a + (b + c)
  {
  }

  lemma StreamLast(text: Text, files: seq<RuntimeFile>)
    requires AllAccepted(text, files) && files != []
    ensures Stream(text, files) == Stream(text, files[..|files| - 1]) + Record(text, files[|files| - 1])
  {
  }

  /** A separator ends the part before it in one way only. */
  lemma {:induction false} CutAtZero(a: seq<Byte>, b: seq<Byte>, x: seq<Byte>, y: seq<Byte>)
    requires (forall i | 0 <= i < |a| :: a[i] != 0) && (forall i | 0 <= i < |b| :: b[i] != 0)
    requires a + [0] + x == b + [0] + y
    ensures a == b && x == y
  {
    var s, t := a + [0] + x, b + [0] + y;
    assert s[|a|] == 0 && t[|b|] == 0;
    assert |a| == |b|;
    assert a == s[..|a|] && b == t[..|b|];
    assert x == s[|a| + 1..] && y == t[|b| + 1..];
  }

  lemma RecordFirst(text: Text, f: RuntimeFile, g: RuntimeFile, x: seq<Byte>, y: seq<Byte>)
    requires Accepted(text, f) && Accepted(text, g) && Record(text, f) + x == Record(text, g) + y
    ensures f.path == g.path && f.sha256 == g.sha256 && x == y
  {
    SafePathWithoutNul(text, f.path);
    SafePathWithoutNul(text, g.path);
    EncodedWithoutZero(f.path);
    EncodedWithoutZero(g.path);
    var p, q := FromHex(f.sha256) + x, FromHex(g.sha256) + y;
    assert Record(text, f) + x == Encode(f.path) + [0] + p;
    assert Record(text, g) + y == Encode(g.path) + [0] + q;
    CutAtZero(Encode(f.path), Encode(g.path), p, q);
    EncodeInjective(f.path, g.path);
    assert FromHex(f.sha256) == p[..32] && FromHex(g.sha256) == q[..32];
    FromHexInjective(f.sha256, g.sha256);
    assert x == p[32..] && y == q[32..];
  }

  predicate SameContent(a: seq<RuntimeFile>, b: seq<RuntimeFile>) {
    |a| == |b| && forall i | 0 <= i < |a| :: a[i].path == b[i].path && a[i].sha256 == b[i].sha256
  }

  lemma ContentStep(a: seq<RuntimeFile>, b: seq<RuntimeFile>)
    requires a != [] && b != []
    ensures SameContent(a, b) <==>
              SameContent(a[1..], b[1..]) && a[0].path == b[0].path && a[0].sha256 == b[0].sha256
  {
    if SameContent(a[1..], b[1..]) {
      assert forall i | 0 < i < |a| :: a[i] == a[1..][i - 1] && b[i] == b[1..][i - 1];
    }
  }

  /** File lists hash the same stream exactly when they name the same paths with the same content, in order. */
  lemma {:induction false} StreamDecodable(text: Text, a: seq<RuntimeFile>, b: seq<RuntimeFile>)
    requires AllAccepted(text, a) && AllAccepted(text, b)
    ensures Stream(text, a) == Stream(text, b) <==> SameContent(a, b)
    decreases |a|
  {
    if a != [] && b != [] {
      StreamFirst(text, a);
      StreamFirst(text, b);
      StreamDecodable(text, a[1..], b[1..]);
      if Stream(text, a) == Stream(text, b) {
        RecordFirst(text, a[0], b[0], Stream(text, a[1..]), Stream(text, b[1..]));
      }
      ContentStep(a, b);
    } else if a != [] {
      StreamFirst(text, a);
    } else if b != [] {
      StreamFirst(text, b);
    }
  }

  // ---------------------------------------------------------------------------------------------
  // Manifests

  const MAX_ARTIFACT_BYTES: nat := 33554432

  datatype Manifest = Manifest(entry: string, files: seq<RuntimeFile>, dependencies: seq<string>, source: string)

  function Total(files: seq<RuntimeFile>): nat {
    if files == [] then 0 else files[0].size + Total(files[1..])
  }

  /** Files are ordered by their path without regard to case, then by the path itself. */
  function PathKey(text: Text, f: RuntimeFile): Key {
    (text.casefold(f.path), f.path)
  }

  /** What the manifest's validator demands: files in order and told apart without regard to case, the entry module
      and the dependency files among them, a bounded size, and the digest of their stream. */
  ghost predicate ManifestAccepted(text: Text, sha256: seq<Byte> -> string, m: Manifest) {
    && m.files != [] && AllAccepted(text, m.files)
    && (forall i, j | 0 <= i < j < |m.files| :: Below(PathKey(text, m.files[i]), PathKey(text, m.files[j])))
    && (forall i, j | 0 <= i < j < |m.files| :: text.casefold(m.files[i].path) != text.casefold(m.files[j].path))
    && (exists i | 0 <= i < |m.files| :: m.files[i].path == m.entry + ".py")
    && Ascending(m.dependencies) && Distinct(m.dependencies)
    && (forall d | d in m.dependencies :: exists i | 0 <= i < |m.files| :: m.files[i].path == d)
    && Total(m.files) <= MAX_ARTIFACT_BYTES
    && m.source == sha256(Stream(text, m.files))
  }

  ghost predicate Injective(sha256: seq<Byte> -> string) {
    forall x, y | sha256(x) == sha256(y) :: x == y
  }

  /** Two accepted manifests have the same source fingerprint exactly when they freeze the same files. */
  lemma FingerprintIdentifiesFiles(text: Text, sha256: seq<Byte> -> string, m: Manifest, n: Manifest)
    requires Injective(sha256) && ManifestAccepted(text, sha256, m) && ManifestAccepted(text, sha256, n)
    ensures m.source == n.source <==> SameContent(m.files, n.files)
  {
    StreamDecodable(text, m.files, n.files);
    if m.source == n.source {
      assert Stream(text, m.files) == Stream(text, n.files);
    }
  }
}
