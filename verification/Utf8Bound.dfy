/** Bounding a text to a number of UTF-8 bytes (RFC 3629, section 3) without cutting a code point. */
module Utf8Bound {
  import opened Wrappers

  /** A Unicode scalar value. */
  type Scalar = c: int | 0 <= c < 0xD800 || 0xE000 <= c < 0x110000 witness 0

  const BOM: Scalar := 0xFEFF

  // ---- the encoding ----

  function Width(c: Scalar): (n: nat)
    ensures 1 <= n <= 4
  {
    if c < 0x80 then 1 else if c < 0x800 then 2 else if c < 0x10000 then 3 else 4
  }

  function EncodeOne(c: Scalar): (bytes: seq<Byte>)
    ensures |bytes| == Width(c)
  {
    if c < 0x80 then [c]
    else if c < 0x800 then [0xC0 + c / 64, 0x80 + c % 64]
    else if c < 0x10000 then [0xE0 + c / 4096, 0x80 + c / 64 % 64, 0x80 + c % 64]
    else [0xF0 + c / 262144, 0x80 + c / 4096 % 64, 0x80 + c / 64 % 64, 0x80 + c % 64]
  }

  function Encode(text: seq<Scalar>): seq<Byte> {
    if text == [] then [] else EncodeOne(text[0]) + Encode(text[1..])
  }

  /** The bytes of the form 10xxxxxx. */
  predicate IsContinuation(b: Byte) { 0x80 <= b < 0xC0 }

  lemma EncodedShape(c: Scalar)
    ensures !IsContinuation(EncodeOne(c)[0])
    ensures forall i :: 1 <= i < Width(c) ==> IsContinuation(EncodeOne(c)[i])
  {
  }

  // ---- the decoder ----

  /** The bytes a leading byte announces after itself. */
  function TrailingLength(lead: Byte): nat {
    if lead < 0x80 then 0 else if lead < 0xE0 then 1 else if lead < 0xF0 then 2 else 3
  }

  /** The bits of a code point spread over its bytes. */
  function Bits(bytes: seq<Byte>): int
    requires 1 <= |bytes| <= 4
  {
    var lead: int := bytes[0];
    if |bytes| == 1 then lead
    else
      var second: int := bytes[1];
      if |bytes| == 2 then (lead - 0xC0) * 64 + (second - 0x80)
      else
        var third: int := bytes[2];
        if |bytes| == 3 then (lead - 0xE0) * 4096 + (second - 0x80) * 64 + (third - 0x80)
        else
          var fourth: int := bytes[3];
          (lead - 0xF0) * 262144 + (second - 0x80) * 4096 + (third - 0x80) * 64 + (fourth - 0x80)
  }

  /** The code point at the front, None when the bytes do not start with a whole well-formed one. */
  function DecodeOne(bytes: seq<Byte>): Option<Scalar>
    requires bytes != []
  {
    var n := 1 + TrailingLength(bytes[0]);
    if n > |bytes| then None
    else
      var c := Bits(bytes[..n]);
      if (0 <= c < 0xD800 || 0xE000 <= c < 0x110000) && EncodeOne(c) == bytes[..n] then Some(c) else None
  }

  /** The code points of well-formed bytes. */
  function DecodeAll(bytes: seq<Byte>): Option<seq<Scalar>>
    decreases |bytes|
  {
    if bytes == [] then Some([])
    else
      var c := DecodeOne(bytes);
      if c.None? then None
      else
        var rest := DecodeAll(bytes[Width(c.value)..]);
        if rest.None? then None else Some([c.value] + rest.value)
  }

  function WithoutBom(text: seq<Scalar>): seq<Scalar> {
    if text != [] && text[0] == BOM then text[1..] else text
  }

  /** The decoder drops one byte order mark in front. */
  function TextDecode(bytes: seq<Byte>): seq<Scalar>
    requires DecodeAll(bytes).Some?
  {
    WithoutBom(DecodeAll(bytes).value)
  }

  lemma LeadAnnounces(c: Scalar)
    ensures 1 + TrailingLength(EncodeOne(c)[0]) == Width(c)
  {
  }

  /** Digits of a code point to the base 64. */
  lemma SixBits(c: int)
    requires c >= 0
    ensures c == c / 64 * 64 + c % 64 && c / 64 == c / 4096 * 64 + c / 64 % 64
            && c / 4096 == c / 262144 * 64 + c / 4096 % 64
  {
    assert c / 64 / 64 == c / 4096;
    assert c / 4096 / 64 == c / 262144;
  }

  lemma BitsOfEncoded(c: Scalar)
    ensures Bits(EncodeOne(c)) == c
  {
    SixBits(c);
    var high, mid, low := c / 4096 % 64, c / 64 % 64, c % 64;
    var q2, q3, q4 := c / 64, c / 4096, c / 262144;
    if c >= 0x10000 {
      assert q4 * 262144 + high * 4096 + mid * 64 + low == c;
    } else if c >= 0x800 {
      assert q3 * 4096 + mid * 64 + low == c;
    }
  }

  lemma DecodeEncoded(c: Scalar, rest: seq<Byte>)
    ensures DecodeOne(EncodeOne(c) + rest) == Some(c)
  {
    hide EncodeOne, Bits, TrailingLength;
    var bytes := EncodeOne(c) + rest;
    LeadAnnounces(c);
    BitsOfEncoded(c);
    assert bytes[0] == EncodeOne(c)[0];
    assert bytes[..Width(c)] == EncodeOne(c);
  }

  /** Decoding undoes encoding. */
  lemma {:induction false} RoundTrip(text: seq<Scalar>)
    ensures DecodeAll(Encode(text)) == Some(text)
    decreases |text|
  {
    hide EncodeOne, DecodeOne, Width;
    if text != [] {
      DecodeEncoded(text[0], Encode(text[1..]));
      RoundTrip(text[1..]);
      assert Encode(text)[Width(text[0])..] == Encode(text[1..]);
      assert text == [text[0]] + text[1..];
    }
  }

  lemma {:induction false} EncodeConcat(a: seq<Scalar>, b: seq<Scalar>)
    ensures Encode(a + b) == Encode(a) + Encode(b)
    decreases |a|
  {
    hide EncodeOne;
    if a == [] {
      assert a + b == b;
    } else {
      assert (a + b)[1..] == a[1..] + b;
      EncodeConcat(a[1..], b);
    }
  }

  // ---- the longest prefix that fits ----

  /** How many code points fit into so many bytes. */
  function Fits(text: seq<Scalar>, limit: int): (k: nat)
    ensures k <= |text|
  {
    if text == [] || Width(text[0]) > limit then 0 else 1 + Fits(text[1..], limit - Width(text[0]))
  }

  /** That many fit, and one more does not. */
  lemma {:induction false} FitsIsLongest(text: seq<Scalar>, limit: int)
    ensures var k := Fits(text, limit);
            && (limit >= 0 ==> |Encode(text[..k])| <= limit)
            && (k < |text| ==> |Encode(text[..k + 1])| > limit)
    decreases |text|
  {
    hide EncodeOne;
    var k := Fits(text, limit);
    if text != [] {
      if k > 0 {
        FitsIsLongest(text[1..], limit - Width(text[0]));
        assert text[..k] == [text[0]] + text[1..][..k - 1];
        assert text[..k][1..] == text[1..][..k - 1];
        assert k < |text| ==> text[..k + 1][1..] == text[1..][..k];
      } else {
        assert text[..1][1..] == [];
      }
    }
  }

  /** Prefixes that do not fit are longer than those that do. */
  lemma PrefixGrows(text: seq<Scalar>, j: nat, k: nat)
    requires j <= k <= |text|
    ensures |Encode(text[..j])| <= |Encode(text[..k])|
    ensures Encode(text[..k]) == Encode(text[..j]) + Encode(text[j..k])
  {
    assert text[..k] == text[..j] + text[j..k];
    EncodeConcat(text[..j], text[j..k]);
  }

  lemma FitsUnique(text: seq<Scalar>, limit: int, k: nat)
    requires k < |text| && |Encode(text[..k])| <= limit < |Encode(text[..k + 1])|
    ensures Fits(text, limit) == k
  {
    var f := Fits(text, limit);
    FitsIsLongest(text, limit);
    if f < k {
      PrefixGrows(text, f + 1, k);
    } else if f > k {
      PrefixGrows(text, k + 1, f);
    }
  }

  /** The code point a byte belongs to. */
  lemma {:induction false} OwnerOf(text: seq<Scalar>, at: nat) returns (k: nat)
    requires at < |Encode(text)|
    ensures k < |text| && |Encode(text[..k])| <= at < |Encode(text[..k + 1])|
    decreases |text|
  {
    hide EncodeOne;
    if at < Width(text[0]) {
      k := 0;
      assert text[..1] == [text[0]] && text[..1][1..] == [];
    } else {
      k := OwnerOf(text[1..], at - Width(text[0]));
      assert text[..k + 1][1..] == text[1..][..k] && text[..k + 2][1..] == text[1..][..k + 1];
      k := k + 1;
    }
  }

  /** The bytes of code point k inside the whole encoding. */
  lemma BytesOfOne(text: seq<Scalar>, k: nat)
    requires k < |text|
    ensures var off := |Encode(text[..k])|;
            && |Encode(text[..k + 1])| == off + Width(text[k]) && off + Width(text[k]) <= |Encode(text)|
            && forall i :: 0 <= i < Width(text[k]) ==> Encode(text)[off + i] == EncodeOne(text[k])[i]
  {
    hide EncodeOne;
    PrefixGrows(text, k, k + 1);
    PrefixGrows(text, k + 1, |text|);
    assert text[k..k + 1] == [text[k]] && text[k..k + 1][1..] == [];
    assert text[..|text|] == text;
  }

  /**
    * `boundUtf8Bytes`: a text that fits comes back as it is; a longer one is cut to the longest prefix of code
    * points that fits, for every bound, and loses a byte order mark in front.
    */
  method BoundUtf8Bytes(text: seq<Scalar>, maxBytes: int) returns (bounded: seq<Scalar>)
    ensures |Encode(text)| <= maxBytes ==> bounded == text
    ensures |Encode(text)| > maxBytes ==> bounded == WithoutBom(text[..Fits(text, maxBytes)])
  {
    hide EncodeOne, DecodeOne, Width;
    var bytes := Encode(text);
    if |bytes| <= maxBytes {
      return text;
    }
    var end := if maxBytes > 0 then maxBytes else 0;
    var start := end - 1;
    ghost var k := 0;
    if end > 0 {
      k := OwnerOf(text, start);
      BytesOfOne(text, k);
      EncodedShape(text[k]);
    }
    ghost var off := |Encode(text[..k])|;
    while start > 0 && IsContinuation(bytes[start])
      invariant -1 <= start <= end - 1 && (end > 0 ==> off <= start)
      invariant end > 0 ==> forall i :: start < i <= end - 1 ==> IsContinuation(bytes[i])
    {
      assert bytes[off] == EncodeOne(text[k])[0];
      start := start - 1;
    }
    var lead := if start >= 0 then bytes[start] else 0;
    var needed := TrailingLength(lead);
    if end > 0 {
      assert start == off by { StartFound(text, k, start); }
      LeadAnnounces(text[k]);
      assert lead == EncodeOne(text[k])[0];
      CutAt(text, k, end);
    } else {
      NothingFits(text, maxBytes);
    }
    if end - 1 - start < needed {
      end := start;
    }
    ghost var n := Fits(text, maxBytes);
    assert bytes[..end] == Encode(text[..n]);
    RoundTrip(text[..n]);
    bounded := TextDecode(bytes[..end]);
  }

  /** Stepping back over continuation bytes stops at the first byte of the code point. */
  lemma StartFound(text: seq<Scalar>, k: nat, start: int)
    requires k < |text| && |Encode(text[..k])| <= start < |Encode(text[..k + 1])|
    requires start < |Encode(text)| && (start <= 0 || !IsContinuation(Encode(text)[start]))
    ensures start == |Encode(text[..k])|
  {
    hide EncodeOne;
    BytesOfOne(text, k);
    EncodedShape(text[k]);
    var off := |Encode(text[..k])|;
    assert Encode(text)[off + (start - off)] == EncodeOne(text[k])[start - off];
  }

  /** Where the cut falls: behind code point k when all of it is there, before it otherwise. */
  lemma CutAt(text: seq<Scalar>, k: nat, end: nat)
    requires k < |text| && |Encode(text[..k])| < end <= |Encode(text[..k + 1])| && end < |Encode(text)|
    ensures end == |Encode(text[..k + 1])| ==> Fits(text, end) == k + 1
    ensures end < |Encode(text[..k + 1])| ==> Fits(text, end) == k
    ensures Encode(text[..k]) <= Encode(text) && Encode(text[..k + 1]) <= Encode(text)
  {
    hide EncodeOne, Fits;
    assert text[..|text|] == text;
    PrefixGrows(text, k, |text|);
    PrefixGrows(text, k + 1, |text|);
    if end == |Encode(text[..k + 1])| {
      BytesOfOne(text, k + 1);
      FitsUnique(text, end, k + 1);
    } else {
      FitsUnique(text, end, k);
    }
  }

  lemma NothingFits(text: seq<Scalar>, maxBytes: int)
    requires maxBytes <= 0
    ensures Fits(text, maxBytes) == 0 && Encode(text)[..0] == Encode(text[..0])
  {
  }

  /**
    * A cut text is a prefix of the text exactly when the text does not start with a byte order mark that the cut keeps.
    */
  lemma BomIsDropped(text: seq<Scalar>, k: nat)
    requires k <= |text|
    ensures WithoutBom(text[..k]) == text[..k] <==> k == 0 || text[0] != BOM
  {
    if k > 0 && text[0] == BOM {
      assert |WithoutBom(text[..k])| == k - 1;
    }
  }

  /** Cut to four bytes, a byte order mark followed by "ab" comes back as "a"; a bound of five leaves it alone. */
  lemma MarkIsLost()
    ensures var text: seq<Scalar> := [BOM, 0x61, 0x62];
            |Encode(text)| == 5 && Fits(text, 4) == 2 && WithoutBom(text[..Fits(text, 4)]) == [0x61]
  {
    var text: seq<Scalar> := [BOM, 0x61, 0x62];
    var b: seq<Scalar> := [0x62];
    var ab: seq<Scalar> := [0x61, 0x62];
    assert text[1..] == ab && ab[1..] == b;
    assert |Encode(b)| == 1 && |Encode(ab)| == 2;
    assert Fits(b, 0) == 0 && Fits(ab, 1) == 1;
  }
}
