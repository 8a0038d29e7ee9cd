/** Unpadded base64url (section 5 of RFC 4648, as section 2 of RFC 7515 uses it) the way both token modules
    write and read it (qualification/bridgefu_web_handoff.py: `_b64url`, `_decode_b64url`). */
module Base64Url {
  import opened Wrappers
  import opened Collections

  type Sextet = x: int | 0 <= x < 64

  function Letter(d: Sextet): (c: char)
    ensures IsLetter(c) && c != '='
  {
    if d < 26 then 'A' + d as char
    else if d < 52 then 'a' + (d - 26) as char
    else if d < 62 then '0' + (d - 52) as char
    else if d == 62 then '-' else '_'
  }

  predicate IsLetter(c: char) {
    'A' <= c <= 'Z' || 'a' <= c <= 'z' || '0' <= c <= '9' || c == '-' || c == '_'
  }

  function ValueOf(c: char): (d: Sextet)
    requires IsLetter(c)
    ensures Letter(d) == c
  {
    if 'A' <= c <= 'Z' then (c - 'A') as int
    else if 'a' <= c <= 'z' then (c - 'a') as int + 26
    else if '0' <= c <= '9' then (c - '0') as int + 52
    else if c == '-' then 62 else 63
  }

  lemma LetterIsInjective(d: Sextet)
    ensures ValueOf(Letter(d)) == d
  {
  }

  // Bytes and sextets

  function Sextets(bytes: seq<Byte>): (s: seq<Sextet>)
    ensures |s| % 4 != 1 && (|s| == 0 <==> |bytes| == 0)
  {
    if |bytes| == 0 then []
    else if |bytes| == 1 then [High(bytes[0]), Middle(bytes[0], 0)]
    else if |bytes| == 2 then [High(bytes[0]), Middle(bytes[0], bytes[1]), Lower(bytes[1], 0)]
    else [High(bytes[0]), Middle(bytes[0], bytes[1]), Lower(bytes[1], bytes[2]), Low(bytes[2])] + Sextets(bytes[3..])
  }

  function High(a: Byte): Sextet {
    a / 4
  }

  function Middle(a: Byte, b: Byte): Sextet {
    a % 4 * 16 + b / 16
  }

  function Lower(b: Byte, c: Byte): Sextet {
    b % 16 * 4 + c / 64
  }

  function Low(c: Byte): Sextet {
    c % 64
  }

  /** The reader drops the bits that do not fill a byte. */
  function Bytes(s: seq<Sextet>): seq<Byte>
    requires |s| % 4 != 1
  {
    if |s| == 0 then []
    else if |s| == 2 then [First(s[0], s[1])]
    else if |s| == 3 then [First(s[0], s[1]), Second(s[1], s[2])]
    else [First(s[0], s[1]), Second(s[1], s[2]), Third(s[2], s[3])] + Bytes(s[4..])
  }

  function First(p: int, q: int): Byte
    requires 0 <= p < 64 && 0 <= q < 64
  {
    p * 4 + q / 16
  }

  function Second(q: int, r: int): Byte
    requires 0 <= q < 64 && 0 <= r < 64
  {
    q % 16 * 16 + r / 4
  }

  function Third(r: int, t: int): Byte
    requires 0 <= r < 64 && 0 <= t < 64
  {
    r % 4 * 64 + t
  }

  /** Four sextets come back from their three bytes. */
  lemma Group(p: Sextet, q: Sextet, r: Sextet, t: Sextet)
    ensures var a, b, c := First(p, q), Second(q, r), Third(r, t);
            High(a) == p && Middle(a, b) == q && Lower(b, c) == r && Low(c) == t
  {
  }

  /** Three bytes come back from their four sextets. */
  lemma Triple(a: Byte, b: Byte, c: Byte)
    ensures First(High(a), Middle(a, b)) == a && Second(Middle(a, b), Lower(b, c)) == b
            && Third(Lower(b, c), Low(c)) == c
  {
  }

  /** A last pair or triple of sextets comes back if the bits that were dropped are zero. */
  lemma Ends(p: Sextet, q: Sextet, r: Sextet)
    ensures High(First(p, q)) == p && Middle(First(p, q), Second(q, r)) == q
    ensures Middle(First(p, q), 0) == q <==> q % 16 == 0
    ensures Lower(Second(q, r), 0) == r <==> r % 4 == 0
  {
  }

  lemma {:induction false} BytesOfSextets(bytes: seq<Byte>)
    ensures Bytes(Sextets(bytes)) == bytes
  {
    hide High, Middle, Lower, Low, First, Second, Third;
    if |bytes| == 1 {
      Triple(bytes[0], 0, 0);
    } else if |bytes| == 2 {
      Triple(bytes[0], bytes[1], 0);
    } else if |bytes| >= 3 {
      BytesOfSextets(bytes[3..]);
      Triple(bytes[0], bytes[1], bytes[2]);
      var s := Sextets(bytes);
      assert s[4..] == Sextets(bytes[3..]);
      assert bytes == [bytes[0], bytes[1], bytes[2]] + bytes[3..];
    }
  }

  /** The dropped bits are zero. */
  predicate Canonical(s: seq<Sextet>)
    requires |s| % 4 != 1
  {
    && (|s| % 4 == 2 ==> s[|s| - 1] % 16 == 0)
    && (|s| % 4 == 3 ==> s[|s| - 1] % 4 == 0)
  }

  lemma {:induction false} SextetsOfBytes(s: seq<Sextet>)
    requires |s| % 4 != 1
    ensures Sextets(Bytes(s)) == s <==> Canonical(s)
  {
    hide Sextets, Bytes, Canonical;
    if |s| == 0 {
      NoSextets(s);
    } else if |s| == 2 {
      LastPair(s);
    } else if |s| == 3 {
      LastTriple(s);
    } else {
      CanonicalRest(s);
      SextetsOfBytes(s[4..]);
      GroupsOfBytes(s);
      SplitGroup(s, Sextets(Bytes(s[4..])));
    }
  }

  lemma NoSextets(s: seq<Sextet>)
    requires |s| == 0
    ensures Sextets(Bytes(s)) == s && Canonical(s)
  {
  }

  lemma SplitGroup(s: seq<Sextet>, rest: seq<Sextet>)
    requires |s| >= 4
    ensures [s[0], s[1], s[2], s[3]] + rest == s <==> rest == s[4..]
  {
    var group := [s[0], s[1], s[2], s[3]];
    assert s == group + s[4..];
    assert (group + rest)[4..] == rest;
  }

  lemma CanonicalRest(s: seq<Sextet>)
    requires |s| >= 4 && |s| % 4 != 1
    ensures |s[4..]| % 4 != 1 && (Canonical(s[4..]) <==> Canonical(s))
  {
    assert |s| > 4 ==> s[4..][|s[4..]| - 1] == s[|s| - 1];
  }

  lemma Shortest(s: seq<Sextet>, bytes: seq<Byte>)
    ensures |s| == 2 ==> Bytes(s) == [First(s[0], s[1])]
    ensures |s| == 3 ==> Bytes(s) == [First(s[0], s[1]), Second(s[1], s[2])]
    ensures |bytes| == 1 ==> Sextets(bytes) == [High(bytes[0]), Middle(bytes[0], 0)]
    ensures |bytes| == 2 ==> Sextets(bytes) == [High(bytes[0]), Middle(bytes[0], bytes[1]), Lower(bytes[1], 0)]
  {
    hide High, Middle, Lower, Low, First, Second, Third;
  }

  lemma LastPair(s: seq<Sextet>)
    requires |s| == 2
    ensures Sextets(Bytes(s)) == s <==> Canonical(s)
  {
    Ends(s[0], s[1], 0);
    Shortest(s, Bytes(s));
    hide High, Middle, Lower, Low, First, Second, Third, Sextets, Bytes;
    assert Sextets(Bytes(s))[0] == s[0];
  }

  lemma LastTriple(s: seq<Sextet>)
    requires |s| == 3
    ensures Sextets(Bytes(s)) == s <==> Canonical(s)
  {
    Ends(s[0], s[1], s[2]);
    Shortest(s, Bytes(s));
    hide High, Middle, Lower, Low, First, Second, Third, Sextets, Bytes;
    assert Sextets(Bytes(s))[0] == s[0] && Sextets(Bytes(s))[1] == s[1];
  }

  lemma GroupsOfBytes(s: seq<Sextet>)
    requires |s| >= 4 && |s| % 4 != 1
    ensures Sextets(Bytes(s)) == [s[0], s[1], s[2], s[3]] + Sextets(Bytes(s[4..]))
  {
    hide High, Middle, Lower, Low, First, Second, Third;
    var b := Bytes(s);
    assert b[3..] == Bytes(s[4..]);
    Group(s[0], s[1], s[2], s[3]);
  }

  // Text

  function Letters(s: seq<Sextet>): string {
    seq(|s|, i requires 0 <= i < |s| => Letter(s[i]))
  }

  function Repeat(c: char, n: nat): string {
    seq(n, _ => c)
  }

  /** What the standard library's encoder returns: the letters, filled up with '=' to a multiple of four. */
  function Padded(bytes: seq<Byte>): string {
    var s := Sextets(bytes);
    Letters(s) + Repeat('=', (4 - |s| % 4) % 4)
  }

  /** Python's `rstrip`. */
  function StripRight(s: string, c: char): string {
    if s != "" && s[|s| - 1] == c then StripRight(s[..|s| - 1], c) else s
  }

  lemma {:induction false} StripRepeated(s: string, c: char, n: nat)
    requires s == "" || s[|s| - 1] != c
    ensures StripRight(s + Repeat(c, n), c) == s
  {
    if n == 0 {
      assert s + Repeat(c, 0) == s;
    } else {
      var t := s + Repeat(c, n);
      assert t[..|t| - 1] == s + Repeat(c, n - 1);
      StripRepeated(s, c, n - 1);
    }
  }

  function Encode(bytes: seq<Byte>): string {
    StripRight(Padded(bytes), '=')
  }

  lemma EncodeIsLetters(bytes: seq<Byte>)
    ensures Encode(bytes) == Letters(Sextets(bytes))
    ensures forall i :: 0 <= i < |Encode(bytes)| ==> IsLetter(Encode(bytes)[i])
  {
    var s := Sextets(bytes);
    StripRepeated(Letters(s), '=', (4 - |s| % 4) % 4);
  }

  function Values(text: string): seq<Sextet>
    requires forall i :: 0 <= i < |text| ==> IsLetter(text[i])
  {
    seq(|text|, i requires 0 <= i < |text| => ValueOf(text[i]))
  }

  predicate IsText(text: string) {
    text != "" && forall i :: 0 <= i < |text| ==> IsLetter(text[i])
  }

  /** `_decode_b64url`: refuses an empty text, another letter, or a length no byte string has. */
  function Decode(text: string): Option<seq<Byte>> {
    if !IsText(text) || |text| % 4 == 1 then None else Some(Bytes(Values(text)))
  }

  /** Reading back what was written works for every byte string but the empty one. */
  lemma DecodeEncode(bytes: seq<Byte>)
    ensures Decode(Encode(bytes)) == if bytes == [] then None else Some(bytes)
  {
    EncodeIsLetters(bytes);
    var s := Sextets(bytes);
    if bytes != [] {
      BytesOfSextets(bytes);
      forall i | 0 <= i < |s| ensures ValueOf(Letters(s)[i]) == s[i] {
        LetterIsInjective(s[i]);
      }
      assert Values(Letters(s)) == s;
    }
  }

  /** Writing again what was read gives the same text exactly when the dropped bits were zero. */
  lemma EncodeDecodeIff(text: string)
    requires Decode(text).Some?
    ensures Encode(Decode(text).value) == text <==> Canonical(Values(text))
  {
    var s := Values(text);
    var back := Sextets(Bytes(s));
    EncodeIsLetters(Bytes(s));
    SextetsOfBytes(s);
    assert Letters(s) == text;
    if Letters(back) == text {
      assert |back| == |s|;
      forall i | 0 <= i < |s| ensures back[i] == s[i] {
        LetterIsInjective(back[i]);
        LetterIsInjective(s[i]);
        assert Letters(back)[i] == text[i];
      }
      assert back == s;
    }
  }
}
