// Unpadded base64url (RFC 4648, sections 5 and 3.2) as Python writes and reads it: the decoder
// skips characters outside the alphabet and stops at complete padding.
module Base64Url {
  import opened Wrappers

  type Byte = b: nat | b < 256

  function Letter(n: nat): char
    requires n < 64
  {
    if n < 26 then 'A' + n as char
    else if n < 52 then 'a' + (n - 26) as char
    else if n < 62 then '0' + (n - 52) as char
    else if n == 62 then '-' else '_'
  }

  // Both alphabets are read.
  function Value(c: char): (v: Option<nat>)
    ensures v.Some? ==> v.value < 64
  {
    if 'A' <= c <= 'Z' then Some((c - 'A') as nat)
    else if 'a' <= c <= 'z' then Some((c - 'a') as nat + 26)
    else if '0' <= c <= '9' then Some((c - '0') as nat + 52)
    else if c == '-' || c == '+' then Some(62)
    else if c == '_' || c == '/' then Some(63)
    else None
  }

  lemma LetterValue(n: nat)
    requires n < 64
    ensures Value(Letter(n)) == Some(n) && Letter(n) != '='
  {}

  // ---- Writing ----

  function Group(a: Byte, b: Byte, c: Byte): string {
    [Letter(a / 4), Letter(a % 4 * 16 + b / 16), Letter(b % 16 * 4 + c / 64), Letter(c % 64)]
  }

  function Letters(bytes: seq<Byte>): string {
    if bytes == [] then ""
    else if |bytes| == 1 then Group(bytes[0], 0, 0)[..2]
    else if |bytes| == 2 then Group(bytes[0], bytes[1], 0)[..3]
    else Group(bytes[0], bytes[1], bytes[2]) + Letters(bytes[3..])
  }

  function Pads(n: nat): string { if n == 0 then "" else "=" + Pads(n - 1) }

  // urlsafe_b64encode pads to a multiple of four; rstrip("=") takes the padding off.
  function Padding(length: nat): string { Pads((4 - length % 4) % 4) }

  function Stripped(text: string): string {
    if text != "" && text[|text| - 1] == '=' then Stripped(text[..|text| - 1]) else text
  }

  function Encode(bytes: seq<Byte>): string { Stripped(Letters(bytes) + Padding(|Letters(bytes)|)) }

  lemma {:induction false} LettersPlain(bytes: seq<Byte>)
    ensures forall i :: 0 <= i < |Letters(bytes)| ==> Letters(bytes)[i] != '='
  {
    if |bytes| >= 3 { LettersPlain(bytes[3..]); }
  }

  lemma {:induction false} StripsPads(text: string, n: nat)
    requires text == "" || text[|text| - 1] != '='
    ensures Stripped(text + Pads(n)) == text
  {
    if n == 0 {
      assert text + "" == text;
    } else {
      PadsEnd(n);
      assert (text + Pads(n))[..|text + Pads(n)| - 1] == text + Pads(n - 1);
      StripsPads(text, n - 1);
    }
  }

  lemma {:induction false} PadsEnd(n: nat)
    requires n > 0
    ensures |Pads(n)| == n && Pads(n) == Pads(n - 1) + "="
  {
    if n > 1 { PadsEnd(n - 1); }
  }

  // What is sent: the letters without padding, and none of its characters is '='.
  lemma EncodeIsUnpadded(bytes: seq<Byte>)
    ensures Encode(bytes) == Letters(bytes) && forall i :: 0 <= i < |Encode(bytes)| ==> Encode(bytes)[i] != '='
  {
    hide Letters, Stripped;
    LettersPlain(bytes);
    StripsPads(Letters(bytes), (4 - |Letters(bytes)| % 4) % 4);
  }

  predicate UrlSafe(c: char) { 'A' <= c <= 'Z' || 'a' <= c <= 'z' || '0' <= c <= '9' || c == '-' || c == '_' }

  // Only characters that need no escaping in a URL, four for every three bytes, rounded up.
  lemma EncodeIsUrlSafe(bytes: seq<Byte>)
    ensures |Encode(bytes)| == (4 * |bytes| + 2) / 3
    ensures forall i :: 0 <= i < |Encode(bytes)| ==> UrlSafe(Encode(bytes)[i])
  {
    hide Encode, Letters;
    EncodeIsUnpadded(bytes);
    LettersAreSafe(bytes);
  }

  lemma {:induction false} LettersAreSafe(bytes: seq<Byte>)
    ensures |Letters(bytes)| == (4 * |bytes| + 2) / 3
    ensures forall i :: 0 <= i < |Letters(bytes)| ==> UrlSafe(Letters(bytes)[i])
  {
    if |bytes| >= 3 { LettersAreSafe(bytes[3..]); }
  }

  // Test vectors of RFC 4648, section 10, without padding, and one with both of the special letters.
  lemma EncodeVectors()
    ensures Encode([]) == "" && Encode([102]) == "Zg" && Encode([102, 111]) == "Zm8"
    ensures Encode([102, 111, 111, 98, 97, 114]) == "Zm9vYmFy" && Encode([251, 255]) == "-_8"
  {
    hide Encode, Letters, Group;
    EncodeIsUnpadded([]);
    EncodeIsUnpadded([102]);
    EncodeIsUnpadded([102, 111]);
    EncodeIsUnpadded([102, 111, 111, 98, 97, 114]);
    EncodeIsUnpadded([251, 255]);
    ShortLetters(102, 111);
    ShortLetters(251, 255);
    LongVector();
    GroupVectors();
  }

  lemma LongVector()
    ensures Letters([102, 111, 111, 98, 97, 114]) == "Zm9vYmFy"
  {
    hide Letters, Group;
    ThreeLetters(102, 111, 111, [98, 97, 114]);
    ThreeLetters(98, 97, 114, []);
    ShortLetters(0, 0);
    GroupVectors();
    assert [102, 111, 111] + [98, 97, 114] == [102, 111, 111, 98, 97, 114] && [98, 97, 114] + [] == [98, 97, 114];
  }

  lemma GroupVectors()
    ensures Group(102, 111, 111) == "Zm9v" && Group(98, 97, 114) == "YmFy"
    ensures Group(102, 0, 0)[..2] == "Zg" && Group(102, 111, 0)[..3] == "Zm8" && Group(251, 255, 0)[..3] == "-_8"
  {}

  lemma ShortLetters(a: Byte, b: Byte)
    ensures Letters([]) == "" && Letters([a]) == Group(a, 0, 0)[..2] && Letters([a, b]) == Group(a, b, 0)[..3]
  {}

  lemma ThreeLetters(a: Byte, b: Byte, c: Byte, rest: seq<Byte>)
    ensures Letters([a, b, c] + rest) == Group(a, b, c) + Letters(rest)
  {
    assert ([a, b, c] + rest)[3..] == rest;
  }

  // ---- Reading ----

  type Quad = q: seq<nat> | |q| <= 3 && forall i :: 0 <= i < |q| ==> q[i] < 64

  function Three(s: nat, t: nat, u: nat, v: nat): seq<Byte>
    requires s < 64 && t < 64 && u < 64 && v < 64
  {
    [s * 4 + t / 16, t % 16 * 16 + u / 4, u % 4 * 64 + v]
  }

  // The bytes an incomplete group holds when padding ends the input.
  function Partial(quad: Quad): seq<Byte> {
    if |quad| == 2 then Three(quad[0], quad[1], 0, 0)[..1]
    else if |quad| == 3 then Three(quad[0], quad[1], quad[2], 0)[..2]
    else []
  }

  function Read(text: string, quad: Quad, pads: nat): Option<seq<Byte>>
    decreases |text|
  {
    if text == "" then (if quad == [] then Some([]) else None)
    else if text[0] == '=' then
      if |quad| >= 2 && |quad| + pads + 1 >= 4 then Some(Partial(quad))
      else Read(text[1..], quad, if |quad| >= 2 then pads + 1 else pads)
    else
      match Value(text[0])
      case None => Read(text[1..], quad, pads)
      case Some(v) =>
        if |quad| < 3 then Read(text[1..], quad + [v], 0)
        else
          match Read(text[1..], [], 0)
          case None => None
          case Some(rest) => Some(Three(quad[0], quad[1], quad[2], v) + rest)
  }

  function Decode(text: string): Option<seq<Byte>> { Read(text + Padding(|text|), [], 0) }

  lemma ReadLetter(n: nat, rest: string, quad: Quad, pads: nat)
    requires n < 64
    ensures Read([Letter(n)] + rest, quad, pads)
         == if |quad| < 3 then Read(rest, quad + [n], 0)
            else match Read(rest, [], 0)
                 case None => None
                 case Some(more) => Some(Three(quad[0], quad[1], quad[2], n) + more)
  {
    LetterValue(n);
    assert ([Letter(n)] + rest)[1..] == rest;
  }

  lemma GroupReads(a: Byte, b: Byte, c: Byte)
    ensures Three(a / 4, a % 4 * 16 + b / 16, b % 16 * 4 + c / 64, c % 64) == [a, b, c]
  {}

  // The first `n` letters of a group are pending after reading them.
  lemma ReadGroupPart(a: Byte, b: Byte, c: Byte, n: nat, rest: string)
    requires 2 <= n <= 3
    ensures Read(Group(a, b, c)[..n] + rest, [], 0)
         == Read(rest, [a / 4, a % 4 * 16 + b / 16, b % 16 * 4 + c / 64][..n], 0)
  {
    hide Read, Letter;
    var p, q, r := a / 4, a % 4 * 16 + b / 16, b % 16 * 4 + c / 64;
    var third := if n == 3 then [Letter(r)] else [];
    assert Group(a, b, c)[..n] + rest == [Letter(p)] + ([Letter(q)] + (third + rest));
    ReadLetter(p, [Letter(q)] + (third + rest), [], 0);
    ReadLetter(q, third + rest, [p], 0);
    assert [p] + [q] == [p, q] && [] + rest == rest && [] + [p] == [p];
    if n == 3 {
      ReadLetter(r, rest, [p, q], 0);
      assert [p, q] + [r] == [p, q, r][..3];
    } else {
      assert [p, q] == [p, q, r][..2];
    }
  }

  lemma ReadGroup(a: Byte, b: Byte, c: Byte, rest: string)
    ensures Read(Group(a, b, c) + rest, [], 0)
         == match Read(rest, [], 0)
            case None => None
            case Some(more) => Some([a, b, c] + more)
  {
    hide Read, Letter;
    var last := c % 64;
    assert Group(a, b, c) + rest == Group(a, b, c)[..3] + ([Letter(last)] + rest);
    ReadGroupPart(a, b, c, 3, [Letter(last)] + rest);
    var quad := [a / 4, a % 4 * 16 + b / 16, b % 16 * 4 + c / 64];
    assert quad[..3] == quad;
    ReadLetter(last, rest, quad, 0);
    GroupReads(a, b, c);
  }

  lemma LettersSplit(bytes: seq<Byte>)
    ensures Letters(bytes) == if |bytes| >= 3 then Group(bytes[0], bytes[1], bytes[2]) + Letters(bytes[3..])
                              else if bytes == [] then "" else Letters(bytes)
  {}

  lemma NothingReads()
    ensures Read("" + Padding(0), [], 0) == Some([])
  {}

  lemma OneReadsBack(a: Byte)
    ensures Read(Letters([a]) + Padding(|Letters([a])|), [], 0) == Some([a])
  {
    hide Read, Three, Letter;
    var quad: Quad := [a / 4, a % 4 * 16];
    assert Pads(2) == "=" + Pads(1) && Pads(1) == "=" + Pads(0);
    assert Padding(2) == "==";
    GroupLength(a, 0, 0);
    ReadGroupPart(a, 0, 0, 2, "==");
    assert [a / 4, a % 4 * 16 + 0 / 16, 0][..2] == quad;
    ReadTwoPads(quad);
    GroupReads(a, 0, 0);
    assert Partial(quad) == [a, 0, 0][..1] == [a];
    assert Letters([a]) == Group(a, 0, 0)[..2];
  }

  lemma TwoReadBack(a: Byte, b: Byte)
    ensures Read(Letters([a, b]) + Padding(|Letters([a, b])|), [], 0) == Some([a, b])
  {
    hide Read, Three, Letter;
    var quad: Quad := [a / 4, a % 4 * 16 + b / 16, b % 16 * 4];
    assert Pads(1) == "=" + Pads(0);
    assert Padding(3) == "=";
    GroupLength(a, b, 0);
    ReadGroupPart(a, b, 0, 3, "=");
    assert [a / 4, a % 4 * 16 + b / 16, b % 16 * 4 + 0 / 64][..3] == quad;
    ReadOnePad(quad);
    GroupReads(a, b, 0);
    assert Partial(quad) == [a, b, 0][..2] == [a, b];
    assert Letters([a, b]) == Group(a, b, 0)[..3];
  }

  lemma ReadTwoPads(quad: Quad)
    requires |quad| == 2
    ensures Read("==", quad, 0) == Some(Partial(quad))
  {
    assert "=="[1..] == "=";
  }

  lemma ReadOnePad(quad: Quad)
    requires |quad| == 3
    ensures Read("=", quad, 0) == Some(Partial(quad))
  {}

  lemma {:induction false} ReadsBack(bytes: seq<Byte>)
    ensures Read(Letters(bytes) + Padding(|Letters(bytes)|), [], 0) == Some(bytes)
    decreases |bytes|
  {
    hide Group, Three, Read, Letters, Pads;
    LettersSplit(bytes);
    if bytes == [] {
      assert Read("" + Padding(0), [], 0) == Some([]) by { NothingReads(); }
    } else if |bytes| == 1 {
      OneReadsBack(bytes[0]);
      assert bytes == [bytes[0]];
    } else if |bytes| == 2 {
      TwoReadBack(bytes[0], bytes[1]);
      assert bytes == [bytes[0], bytes[1]];
    } else {
      var rest := Letters(bytes[3..]);
      GroupLength(bytes[0], bytes[1], bytes[2]);
      ReadsBack(bytes[3..]);
      assert Padding(4 + |rest|) == Padding(|rest|);
      assert Group(bytes[0], bytes[1], bytes[2]) + rest + Padding(|rest|)
          == Group(bytes[0], bytes[1], bytes[2]) + (rest + Padding(|rest|));
      ReadGroup(bytes[0], bytes[1], bytes[2], rest + Padding(|rest|));
      assert bytes == [bytes[0], bytes[1], bytes[2]] + bytes[3..];
    }
  }

  lemma GroupLength(a: Byte, b: Byte, c: Byte)
    ensures |Group(a, b, c)| == 4
  {}

  // Whatever bytes are written, exactly they are read.
  lemma RoundTrip(bytes: seq<Byte>)
    ensures Decode(Encode(bytes)) == Some(bytes)
  {
    hide Read, Letters, Padding;
    EncodeIsUnpadded(bytes);
    ReadsBack(bytes);
  }
}
