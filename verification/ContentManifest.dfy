/** The content digest of an AMI build (release/ami_cache.py: `content_manifest`): what is fed to SHA-256, and
    the proof that it determines the release version and every input file. */
module ContentManifest {
  import opened Wrappers
  import opened Collections

  const SCHEMA := "bridgefu-ami-content/v1"
  const RELEASE := "release_version"
  const LIMIT := 0x1_0000_0000_0000_0000

  /** One input: its relative path in UTF-8 and its contents. */
  datatype Input = Input(path: seq<Byte>, data: seq<Byte>)

  datatype Entry = Entry(path: seq<Byte>, sha256: seq<Byte>, size: nat)

  datatype Manifest = Manifest(version: string, digest: seq<Byte>, inputs: seq<Entry>)

  datatype CacheError = VersionInvalid | Duplicated | NotRegular | LengthOverflow | LockInvalid

  predicate VersionChar(c: char) {
    '0' <= c <= '9' || 'A' <= c <= 'Z' || 'a' <= c <= 'z' || c == '.' || c == '-'
  }

  /** The alphabet of a release version; its exact shape is a parameter. */
  predicate IsVersion(v: string) {
    v != "" && forall i :: 0 <= i < |v| ==> VersionChar(v[i])
  }

  function Ascii(s: string): (b: seq<Byte>)
    requires forall i :: 0 <= i < |s| ==> s[i] < 128 as char
    ensures |b| == |s|
  {
    seq(|s|, i requires 0 <= i < |s| => s[i] as int)
  }

  /** `n.to_bytes(width, "big")`. */
  function BigEndian(n: nat, width: nat): (b: seq<Byte>)
    ensures |b| == width
  {
    if width == 0 then [] else BigEndian(n / 256, width - 1) + [n % 256]
  }

  function Number(b: seq<Byte>): nat {
    if b == [] then 0 else 256 * Number(b[..|b| - 1]) + b[|b| - 1]
  }

  function Power(width: nat): nat {
    if width == 0 then 1 else 256 * Power(width - 1)
  }

  lemma {:induction false} NumberOfBigEndian(n: nat, width: nat)
    requires n < Power(width)
    ensures Number(BigEndian(n, width)) == n
  {
    if width > 0 {
      NumberOfBigEndian(n / 256, width - 1);
      var b := BigEndian(n, width);
      assert b[..|b| - 1] == BigEndian(n / 256, width - 1);
    }
  }

  lemma LimitIsPower()
    ensures Power(8) == LIMIT
  {
    assert Power(2) == 65536 && Power(4) == 65536 * 65536;
  }

  /** A byte string behind its length. */
  function Frame(b: seq<Byte>): seq<Byte> {
    BigEndian(|b|, 8) + b
  }

  function Frames(inputs: seq<Input>): seq<Byte> {
    if inputs == [] then []
    else Frames(inputs[..|inputs| - 1]) + Frame(inputs[|inputs| - 1].path) + Frame(inputs[|inputs| - 1].data)
  }

  function Preamble(version: string): seq<Byte>
    requires IsVersion(version)
  {
    Ascii(SCHEMA) + [0] + Ascii(RELEASE) + [0] + Ascii(version) + [0]
  }

  /** Everything the digest covers. */
  function Stream(version: string, inputs: seq<Input>): seq<Byte>
    requires IsVersion(version)
  {
    Preamble(version) + Frames(inputs)
  }

  /** The lengths that eight bytes can hold. */
  predicate Bounded(inputs: seq<Input>) {
    forall i :: 0 <= i < |inputs| ==> |inputs[i].path| < LIMIT && |inputs[i].data| < LIMIT
  }

  // The running digest

  class Digest {
    var stream: seq<Byte>

    constructor ()
      ensures stream == []
    {
      stream := [];
    }

    method Update(b: seq<Byte>)
      modifies this
      ensures stream == old(stream) + b
    {
      stream := stream + b;
    }

    /** A length prefix and the bytes, in two updates. */
    method UpdateFramed(b: seq<Byte>)
      modifies this
      ensures stream == old(stream) + Frame(b)
    {
      Update(BigEndian(|b|, 8));
      Update(b);
    }
  }

  /** `content_manifest`; `files` gives the contents of each path, None for one that is no regular file, and
      `lockOk` the later checks on the lock file. */
  method Build(version: string, shape: string -> bool, paths: seq<seq<Byte>>, files: seq<Byte> -> Option<seq<Byte>>,
               sha: seq<Byte> -> seq<Byte>, lockOk: bool) returns (r: Result<Manifest, CacheError>)
    ensures r.Ok? <==> IsVersion(version) && shape(version) && Unique(paths) && AllRegular(paths, files) && lockOk
    ensures r.Ok? ==>
              && r.value.version == version && Bounded(Inputs(paths, files))
              && r.value.digest == sha(Stream(version, Inputs(paths, files)))
              && r.value.inputs == Entries(paths, files, sha)
  {
    hide Preamble, Frames, Unique, IsVersion, Entries, Inputs, AllRegular, Bounded, LIMIT, Frame, SCHEMA, RELEASE,
         Ascii, Stream;
    if !IsVersion(version) || !shape(version) {
      return Err(VersionInvalid);
    }
    if !Unique(paths) {
      return Err(Duplicated);
    }
    var digest := Begin(version);
    var records: seq<Entry> := [];
    NothingYet(files, sha);
    for i := 0 to |paths|
      invariant AllRegular(paths[..i], files)
      invariant digest.stream == Preamble(version) + Frames(Inputs(paths[..i], files))
      invariant records == Entries(paths[..i], files, sha)
    {
      var path, file := paths[i], files(paths[i]);
      assert paths[..i + 1] == paths[..i] + [path];
      MoreRegular(paths, files, i);
      if file.None? {
        return Err(NotRegular);
      }
      var data := file.value;
      if |path| >= LIMIT || |data| >= LIMIT {
        return Err(LengthOverflow);
      }
      digest.UpdateFramed(path);
      digest.UpdateFramed(data);
      records := records + [Entry(path, sha(data), |data|)];
      FramesMore(version, paths, files, sha, i);
    }
    assert paths[..|paths|] == paths;
    RegularIsBounded(paths, files);
    StreamIs(version, Inputs(paths, files));
    return if lockOk then Ok(Manifest(version, sha(digest.stream), records)) else Err(LockInvalid);
  }

  method Begin(version: string) returns (digest: Digest)
    requires IsVersion(version)
    ensures fresh(digest) && digest.stream == Preamble(version)
  {
    digest := new Digest();
    digest.Update(Ascii(SCHEMA) + [0]);
    digest.Update(Ascii(RELEASE) + [0] + Ascii(version) + [0]);
    PreambleParts(version);
  }

  lemma StreamIs(version: string, inputs: seq<Input>)
    requires IsVersion(version)
    ensures Stream(version, inputs) == Preamble(version) + Frames(inputs)
  {
  }

  lemma PreambleParts(version: string)
    requires IsVersion(version)
    ensures Ascii(SCHEMA) + [0] + (Ascii(RELEASE) + [0] + Ascii(version) + [0]) == Preamble(version)
  {
  }

  /** Every path is a regular file, and neither it nor its contents are too long for their length prefix. */
  predicate AllRegular(paths: seq<seq<Byte>>, files: seq<Byte> -> Option<seq<Byte>>) {
    forall p :: p in paths ==> files(p).Some? && |p| < LIMIT && |files(p).value| < LIMIT
  }

  function Entries(paths: seq<seq<Byte>>, files: seq<Byte> -> Option<seq<Byte>>,
                   sha: seq<Byte> -> seq<Byte>): seq<Entry> {
    seq(|paths|, i requires 0 <= i < |paths| =>
      var data := if files(paths[i]).Some? then files(paths[i]).value else []; Entry(paths[i], sha(data), |data|))
  }

  lemma NothingYet(files: seq<Byte> -> Option<seq<Byte>>, sha: seq<Byte> -> seq<Byte>)
    ensures AllRegular([], files) && Frames(Inputs([], files)) == [] && Entries([], files, sha) == []
  {
  }

  lemma MoreRegular(paths: seq<seq<Byte>>, files: seq<Byte> -> Option<seq<Byte>>, i: nat)
    requires i < |paths| && AllRegular(paths[..i], files)
    ensures AllRegular(paths[..i + 1], files)
            <==> files(paths[i]).Some? && |paths[i]| < LIMIT && |files(paths[i]).value| < LIMIT
    ensures AllRegular(paths, files) ==> AllRegular(paths[..i + 1], files)
  {
    assert paths[..i + 1] == paths[..i] + [paths[i]];
    assert paths[i] in paths[..i + 1];
  }

  lemma RegularIsBounded(paths: seq<seq<Byte>>, files: seq<Byte> -> Option<seq<Byte>>)
    requires AllRegular(paths, files)
    ensures Bounded(Inputs(paths, files))
  {
    forall i | 0 <= i < |paths|
      ensures |Inputs(paths, files)[i].path| < LIMIT && |Inputs(paths, files)[i].data| < LIMIT
    {
      assert paths[i] in paths;
    }
  }

  predicate Unique(paths: seq<seq<Byte>>) {
    forall i, j :: 0 <= i < j < |paths| ==> paths[i] != paths[j]
  }

  /** The files of the paths, in order. */
  function Inputs(paths: seq<seq<Byte>>, files: seq<Byte> -> Option<seq<Byte>>): seq<Input> {
    seq(|paths|, i requires 0 <= i < |paths| => Input(paths[i], if files(paths[i]).Some? then files(paths[i]).value
                                                      else []))
  }

  lemma FramesMore(version: string, paths: seq<seq<Byte>>, files: seq<Byte> -> Option<seq<Byte>>,
                   sha: seq<Byte> -> seq<Byte>, i: nat)
    requires i < |paths| && files(paths[i]).Some? && IsVersion(version)
    ensures Preamble(version) + Frames(Inputs(paths[..i], files)) + Frame(paths[i]) + Frame(files(paths[i]).value)
         == Preamble(version) + Frames(Inputs(paths[..i + 1], files))
    ensures Entries(paths[..i + 1], files, sha)
         == Entries(paths[..i], files, sha) + [Entry(paths[i], sha(files(paths[i]).value), |files(paths[i]).value|)]
  {
    var before, after := Inputs(paths[..i], files), Inputs(paths[..i + 1], files);
    var last := Input(paths[i], files(paths[i]).value);
    assert after == before + [last];
    assert after[..|after| - 1] == before;
    hide Preamble, Inputs, Frame;
    assert Frames(after) == Frames(before) + Frame(last.path) + Frame(last.data);
  }

  // Unique parsing

  /** One framed byte string at the start, and the rest. */
  function Unframe(b: seq<Byte>): Option<(seq<Byte>, seq<Byte>)> {
    if |b| < 8 then None
    else
      var n := Number(b[..8]);
      if |b| < 8 + n then None else Some((b[8..8 + n], b[8 + n..]))
  }

  lemma UnframeFrame(x: seq<Byte>, rest: seq<Byte>)
    requires |x| < LIMIT
    ensures Unframe(Frame(x) + rest) == Some((x, rest))
  {
    LimitIsPower();
    NumberOfBigEndian(|x|, 8);
    var b := Frame(x) + rest;
    assert b[..8] == BigEndian(|x|, 8);
    assert b[8..8 + |x|] == x && b[8 + |x|..] == rest;
  }

  /** The frames from the front. */
  function FramesFrom(inputs: seq<Input>): seq<Byte> {
    if inputs == [] then [] else Frame(inputs[0].path) + (Frame(inputs[0].data) + FramesFrom(inputs[1..]))
  }

  lemma {:induction false} FramesFromFront(inputs: seq<Input>, more: seq<Input>)
    ensures Frames(inputs) + FramesFrom(more) == FramesFrom(inputs + more)
    decreases |inputs|
  {
    hide Frame;
    if inputs == [] {
      assert inputs + more == more;
      assert [] + FramesFrom(more) == FramesFrom(more);
    } else {
      var init, last := inputs[..|inputs| - 1], inputs[|inputs| - 1];
      FramesFromFront(init, [last] + more);
      assert init + ([last] + more) == inputs + more;
      FrameMoves(Frames(init), last, more);
    }
  }

  lemma FrameMoves(before: seq<Byte>, last: Input, more: seq<Input>)
    ensures before + Frame(last.path) + Frame(last.data) + FramesFrom(more) == before + FramesFrom([last] + more)
  {
    hide Frame;
    assert ([last] + more)[1..] == more;
    assert FramesFrom([last] + more) == Frame(last.path) + (Frame(last.data) + FramesFrom(more));
  }

  lemma {:induction false} FramesUnique(a: seq<Input>, b: seq<Input>)
    requires Bounded(a) && Bounded(b) && FramesFrom(a) == FramesFrom(b)
    ensures a == b
    decreases |a|
  {
    if a != [] && b != [] {
      UnframeFrame(a[0].path, Frame(a[0].data) + FramesFrom(a[1..]));
      UnframeFrame(b[0].path, Frame(b[0].data) + FramesFrom(b[1..]));
      UnframeFrame(a[0].data, FramesFrom(a[1..]));
      UnframeFrame(b[0].data, FramesFrom(b[1..]));
      FramesUnique(a[1..], b[1..]);
      assert a == [a[0]] + a[1..] && b == [b[0]] + b[1..];
    }
  }

  function FirstNul(s: seq<Byte>): nat {
    if s == [] || s[0] == 0 then 0 else 1 + FirstNul(s[1..])
  }

  lemma {:induction false} NulAfter(a: seq<Byte>, x: seq<Byte>)
    requires 0 !in a
    ensures FirstNul(a + [0] + x) == |a|
  {
    if a != [] {
      NulAfter(a[1..], x);
      assert (a + [0] + x)[1..] == a[1..] + [0] + x;
    }
  }

  /** The text up to the first NUL. */
  lemma UpToNul(a: seq<Byte>, x: seq<Byte>, b: seq<Byte>, y: seq<Byte>)
    requires 0 !in a && 0 !in b && a + [0] + x == b + [0] + y
    ensures a == b && x == y
  {
    NulAfter(a, x);
    NulAfter(b, y);
    var s, t := a + [0] + x, b + [0] + y;
    assert s[..|a|] == a && t[..|b|] == b && s[|a| + 1..] == x && t[|b| + 1..] == y;
  }

  lemma VersionBytes(v: string, w: string)
    requires IsVersion(v) && IsVersion(w)
    ensures 0 !in Ascii(v)
    ensures Ascii(v) == Ascii(w) ==> v == w
  {
    if Ascii(v) == Ascii(w) {
      assert |v| == |w|;
      forall i | 0 <= i < |v| ensures v[i] == w[i] {
        assert Ascii(v)[i] == Ascii(w)[i];
      }
    }
  }

  /** The digested bytes determine the release version and the whole ordered list of paths and contents. */
  lemma StreamIsInjective(v: string, a: seq<Input>, w: string, b: seq<Input>)
    requires IsVersion(v) && IsVersion(w) && Bounded(a) && Bounded(b)
    requires Stream(v, a) == Stream(w, b)
    ensures v == w && a == b
  {
    var head := Ascii(SCHEMA) + [0] + Ascii(RELEASE) + [0];
    VersionBytes(v, w);
    VersionBytes(w, v);
    FramesFromFront(a, []);
    FramesFromFront(b, []);
    StreamParts(v, a);
    StreamParts(w, b);
    hide Ascii, Stream, Frames, SCHEMA, RELEASE, IsVersion, Bounded, FramesFrom;
    Cancel(head, Ascii(v) + [0] + Frames(a), Ascii(w) + [0] + Frames(b));
    UpToNul(Ascii(v), Frames(a), Ascii(w), Frames(b));
    NoMore(a);
    NoMore(b);
    FramesUnique(a, b);
  }

  lemma StreamParts(v: string, a: seq<Input>)
    requires IsVersion(v)
    ensures Stream(v, a) == Ascii(SCHEMA) + [0] + Ascii(RELEASE) + [0] + (Ascii(v) + [0] + Frames(a))
  {
  }

  lemma NoMore(inputs: seq<Input>)
    ensures inputs + [] == inputs && FramesFrom([]) == [] && Frames(inputs) + [] == Frames(inputs)
  {
  }
}
