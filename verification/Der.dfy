// A DER OCTET STRING (sections 8.1.3, 8.7 and 10.1 of X.690): what unmarshalling
// into a byte slice accepts.

module Der {
  import opened Prelude
  import BigEndian

  const OCTET_STRING: byte := 4

  datatype Header = Header(length: nat, size: nat)

  // The length octets: one below 128, else a count and a minimal big-endian number.
  // The indefinite form (128) and the reserved first octet 255 are refused.
  function ReadLength(s: seq<byte>): Option<Header> {
    if s == [] then None
    else if s[0] < 128 then Some(Header(s[0], 1))
    else
      var n := s[0] as int - 128;
      if n == 0 || n == 127 || |s| < 1 + n || s[1] == 0 then None
      else
        var length := BigEndian.Decode(s[1..1 + n]);
        if length < 128 then None else Some(Header(length, 1 + n))
  }

  // The contents; bytes after the value are ignored.
  function Unwrap(data: seq<byte>): Option<seq<byte>> {
    if data == [] || data[0] != OCTET_STRING then None
    else
      match ReadLength(data[1..])
      case None => None
      case Some(h) =>
        if 1 + h.size + h.length > |data| then None
        else Some(data[1 + h.size..1 + h.size + h.length])
  }

  function Octets(n: nat): (k: nat) {
    if n == 0 then 0 else 1 + Octets(n / 256)
  }

  lemma {:induction false} OctetsTight(n: nat)
    requires n > 0
    ensures Octets(n) > 0 && BigEndian.Pow256(Octets(n) - 1) <= n < BigEndian.Pow256(Octets(n))
  {
    if n >= 256 {
      OctetsTight(n / 256);
    }
  }

  function LengthOctets(n: nat): seq<byte>
    requires Octets(n) < 127
  {
    if n < 128 then [n] else [128 + Octets(n)] + BigEndian.Encode(n, Octets(n))
  }

  function Wrap(contents: seq<byte>): seq<byte>
    requires Octets(|contents|) < 127
  {
    [OCTET_STRING] + LengthOctets(|contents|) + contents
  }

  lemma {:induction false} EncodeLeading(v: nat, n: nat)
    requires n > 0 && BigEndian.Pow256(n - 1) <= v < BigEndian.Pow256(n)
    ensures BigEndian.Encode(v, n)[0] != 0
  {
    if n > 1 {
      EncodeLeading(v / 256, n - 1);
    }
  }

  lemma ReadLengthOctets(n: nat, rest: seq<byte>)
    requires Octets(n) < 127
    ensures ReadLength(LengthOctets(n) + rest) == Some(Header(n, |LengthOctets(n)|))
  {
    hide BigEndian.Decode, BigEndian.Encode, BigEndian.Pow256, Octets;
    if n >= 128 {
      var k := Octets(n);
      OctetsTight(n);
      EncodeLeading(n, k);
      BigEndian.DecodeEncode(n, k);
      var s := LengthOctets(n) + rest;
      assert s[1..1 + k] == BigEndian.Encode(n, k);
    }
  }

  lemma UnwrapParts(length: seq<byte>, contents: seq<byte>, trailing: seq<byte>)
    requires ReadLength(length + (contents + trailing)) == Some(Header(|contents|, |length|))
    ensures Unwrap([OCTET_STRING] + length + contents + trailing) == Some(contents)
  {
    var data := [OCTET_STRING] + length + contents + trailing;
    assert data[1..] == length + (contents + trailing);
    assert data[1 + |length|..1 + |length| + |contents|] == contents;
  }

  // Unwrapping inverts wrapping, whatever follows.
  lemma {:induction false} UnwrapWrap(contents: seq<byte>, trailing: seq<byte>)
    requires Octets(|contents|) < 127
    ensures Unwrap(Wrap(contents) + trailing) == Some(contents)
  {
    ReadLengthOctets(|contents|, contents + trailing);
    UnwrapParts(LengthOctets(|contents|), contents, trailing);
  }

  lemma OctetsUnique(n: nat, k: nat)
    requires k > 0 && BigEndian.Pow256(k - 1) <= n < BigEndian.Pow256(k)
    ensures Octets(n) == k
  {
    OctetsTight(n);
    if Octets(n) < k {
      BigEndian.Pow256Monotone(Octets(n), k - 1);
    } else if k < Octets(n) {
      BigEndian.Pow256Monotone(k, Octets(n) - 1);
    }
  }

  lemma LengthCanonical(s: seq<byte>)
    requires ReadLength(s).Some?
    ensures var h := ReadLength(s).value;
            h.size <= |s| && Octets(h.length) < 127 && LengthOctets(h.length) == s[..h.size]
  {
    if s[0] < 128 {
      OctetsSmall(s[0]);
    } else {
      var k := s[0] as int - 128;
      var length := s[1..1 + k];
      BigEndian.DecodeAtLeast(length);
      BigEndian.EncodeDecode(length);
      OctetsUnique(BigEndian.Decode(length), k);
      assert s[..1 + k] == [s[0]] + length;
    }
  }

  // DER is canonical: what unwraps is the wrapping of its contents, bytes after it aside.
  lemma WrapUnwrap(data: seq<byte>)
    requires Unwrap(data).Some?
    ensures var contents := Unwrap(data).value;
            Octets(|contents|) < 127 && Wrap(contents) <= data
  {
    hide ReadLength, LengthOctets, Octets;
    LengthCanonical(data[1..]);
    var h := ReadLength(data[1..]).value;
    assert data[..1 + h.size] == [OCTET_STRING] + data[1..][..h.size];
    assert data[..1 + h.size + h.length] == data[..1 + h.size] + Unwrap(data).value;
  }

  lemma OctetsSmall(n: nat)
    requires n < 256
    ensures Octets(n) <= 1
  {
  }
}
