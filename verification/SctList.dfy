// Signed certificate timestamps (sections 3.2 and 3.3 of RFC 6962) as parsed by
// probes/tls.go.

module SctList {
  import opened Prelude
  import BigEndian
  import Der

  // An SCT has at least version, log id, timestamp and extension length.
  const MIN_SCT := 43

  datatype SctInfo = SctInfo(version: int, logId: string, timestampMs: int, source: string)

  // ---- One SCT ----

  function HexDigit(d: nat): char
    requires d < 16
  {
    if d < 10 then ('0' as int + d) as char else ('A' as int + d - 10) as char
  }

  // %X of a byte slice.
  function Hex(bs: seq<byte>): (s: string)
    ensures |s| == 2 * |bs|
  {
    if bs == [] then "" else [HexDigit(bs[0] / 16), HexDigit(bs[0] % 16)] + Hex(bs[1..])
  }

  lemma {:induction false} HexInjective(a: seq<byte>, b: seq<byte>)
    requires Hex(a) == Hex(b)
    ensures a == b
  {
    assert |a| == |b|;
    if a != [] {
      var x, y := Hex(a), Hex(b);
      assert x[0] == y[0] && x[1] == y[1];
      assert x[2..] == Hex(a[1..]) && y[2..] == Hex(b[1..]);
      HexInjective(a[1..], b[1..]);
      assert a == [a[0]] + a[1..] && b == [b[0]] + b[1..];
    }
  }

  const HEX_DIGITS := "0123456789ABCDEF"

  // Two digits a byte, the high one first.
  lemma {:induction false} HexDigits(bs: seq<byte>, i: nat)
    requires i < |bs|
    ensures Hex(bs)[2 * i] == HEX_DIGITS[bs[i] / 16] && Hex(bs)[2 * i + 1] == HEX_DIGITS[bs[i] % 16]
  {
    if i == 0 {
      HexDigitIs(bs[0] / 16);
      HexDigitIs(bs[0] % 16);
    } else {
      HexDigits(bs[1..], i - 1);
      assert Hex(bs)[2..] == Hex(bs[1..]);
      assert Hex(bs)[2 * i] == Hex(bs)[2..][2 * (i - 1)] && Hex(bs)[2 * i + 1] == Hex(bs)[2..][2 * (i - 1) + 1];
    }
  }

  lemma HexDigitIs(d: nat)
    requires d < 16
    ensures HexDigit(d) == HEX_DIGITS[d]
  {
    assert HEX_DIGITS[0] == '0' && HEX_DIGITS[1] == '1' && HEX_DIGITS[2] == '2' && HEX_DIGITS[3] == '3';
    assert HEX_DIGITS[4] == '4' && HEX_DIGITS[5] == '5' && HEX_DIGITS[6] == '6' && HEX_DIGITS[7] == '7';
  }

  // What an SCT's first 41 bytes mean, by section 3.2 of RFC 6962.
  function DecodeSct(data: seq<byte>, source: string): Option<SctInfo> {
    if |data| < MIN_SCT then None
    else
      BigEndian.EncodeDecode(data[33..41]);
      assert BigEndian.Pow256(8) == BigEndian.TWO_64;
      Some(SctInfo(data[0], Hex(data[1..9]), BigEndian.ToInt64(BigEndian.Decode(data[33..41])), source))
  }

  // The shift/or loop: no bit of the timestamp is lost on the way.
  method ReadTimestamp(data: seq<byte>) returns (tsMs: nat)
    requires |data| >= MIN_SCT
    ensures tsMs == BigEndian.Decode(data[33..41]) && tsMs < BigEndian.TWO_64
  {
    tsMs := 0;
    for i := 0 to 8
      invariant tsMs == BigEndian.Decode(data[33..33 + i]) && tsMs < BigEndian.Pow256(i)
    {
      BigEndian.Pow256Monotone(i + 1, 8);
      assert BigEndian.Pow256(8) == BigEndian.TWO_64;
      BigEndian.ShiftOr(tsMs, data[33 + i]);
      assert data[33..33 + i + 1][..i] == data[33..33 + i];
      tsMs := BigEndian.BitOr(BigEndian.ShiftLeft8(tsMs), data[33 + i]);
    }
    assert BigEndian.Pow256(8) == BigEndian.TWO_64;
  }

  method ParseSct(data: seq<byte>, source: string) returns (sct: Option<SctInfo>)
    ensures sct == DecodeSct(data, source)
  {
    if |data| < MIN_SCT {
      return None;
    }
    var tsMs := ReadTimestamp(data);
    return Some(SctInfo(data[0], Hex(data[1..9]), BigEndian.ToInt64(tsMs), source));
  }

  // ---- The list as a recursive parser ----

  // A length-prefixed element: its bytes are buf[start..start + len].
  datatype Window = Window(start: nat, len: nat)

  function U16(hi: byte, lo: byte): nat {
    256 * (hi as int) + lo
  }

  // The elements read from pos on, while they begin before `end` and fit the buffer.
  function Windows(buf: seq<byte>, pos: nat, end: nat): seq<Window>
    decreases |buf| - pos
  {
    if pos >= end || pos + 2 > |buf| then []
    else
      var n := U16(buf[pos], buf[pos + 1]);
      if pos + 2 + n > |buf| then []
      else [Window(pos + 2, n)] + Windows(buf, pos + 2 + n, end)
  }

  predicate Fits(w: Window, buf: seq<byte>) {
    w.start + w.len <= |buf|
  }

  function Slice(buf: seq<byte>, w: Window): seq<byte>
    requires Fits(w, buf)
  {
    buf[w.start..w.start + w.len]
  }

  function Slices(buf: seq<byte>, ws: seq<Window>): (elements: seq<seq<byte>>)
    requires forall i :: 0 <= i < |ws| ==> Fits(ws[i], buf)
    ensures |elements| == |ws|
  {
    seq(|ws|, i requires 0 <= i < |ws| => Slice(buf, ws[i]))
  }

  function Found(element: seq<byte>, source: string): seq<SctInfo> {
    match DecodeSct(element, source)
    case Some(sct) => [sct]
    case None => []
  }

  // The decodable elements, in order.
  function Decoded(elements: seq<seq<byte>>, source: string): seq<SctInfo> {
    if elements == [] then [] else Found(elements[0], source) + Decoded(elements[1..], source)
  }

  function DeclaredEnd(buf: seq<byte>): nat
    requires |buf| >= 2
  {
    U16(buf[0], buf[1]) + 2
  }

  lemma {:induction false} WindowsFit(buf: seq<byte>, pos: nat, end: nat)
    ensures forall i :: 0 <= i < |Windows(buf, pos, end)| ==> Fits(Windows(buf, pos, end)[i], buf)
    decreases |buf| - pos
  {
    if pos < end && pos + 2 <= |buf| {
      var n := U16(buf[pos], buf[pos + 1]);
      if pos + 2 + n <= |buf| {
        var rest := Windows(buf, pos + 2 + n, end);
        assert Windows(buf, pos, end) == [Window(pos + 2, n)] + rest;
        WindowsFit(buf, pos + 2 + n, end);
        hide Windows;
      }
    }
  }

  // The elements themselves.
  function Elements(buf: seq<byte>, pos: nat, end: nat): seq<seq<byte>> {
    WindowsFit(buf, pos, end);
    Slices(buf, Windows(buf, pos, end))
  }

  function ParseBuffer(buf: seq<byte>, source: string): seq<SctInfo> {
    if |buf| < 2 || DeclaredEnd(buf) > |buf| then [] else Decoded(Elements(buf, 2, DeclaredEnd(buf)), source)
  }

  // Unwrap the OCTET STRING, or take the bytes as they are.
  function Unwrapped(data: seq<byte>): seq<byte> {
    match Der.Unwrap(data)
    case Some(contents) => contents
    case None => data
  }

  function ParseList(data: seq<byte>, source: string): seq<SctInfo> {
    if |data| < 2 then [] else ParseBuffer(Unwrapped(data), source)
  }

  // ---- The imperative parser refines it ----

  method ReadU16(hi: byte, lo: byte) returns (n: nat)
    ensures n == U16(hi, lo)
  {
    n := BigEndian.BitOr(BigEndian.ShiftLeft8(hi), lo);
    BigEndian.ShiftOr(hi, lo);
  }

  lemma SlicesCons(buf: seq<byte>, w: Window, ws: seq<Window>)
    requires Fits(w, buf) && forall i :: 0 <= i < |ws| ==> Fits(ws[i], buf)
    ensures Slices(buf, [w] + ws) == [Slice(buf, w)] + Slices(buf, ws)
  {
  }

  lemma ElementsStep(buf: seq<byte>, pos: nat, end: nat)
    requires pos < end && pos + 2 <= |buf| && pos + 2 + U16(buf[pos], buf[pos + 1]) <= |buf|
    ensures var next := pos + 2 + U16(buf[pos], buf[pos + 1]);
            Elements(buf, pos, end) == [buf[pos + 2..next]] + Elements(buf, next, end)
  {
    var w := Window(pos + 2, U16(buf[pos], buf[pos + 1]));
    var ws := Windows(buf, w.start + w.len, end);
    WindowsFit(buf, pos, end);
    WindowsFit(buf, w.start + w.len, end);
    assert Windows(buf, pos, end) == [w] + ws;
    SlicesCons(buf, w, ws);
    hide Windows, Slices;
  }

  lemma ElementsEnd(buf: seq<byte>, pos: nat, end: nat)
    requires pos >= end || pos + 2 > |buf| || pos + 2 + U16(buf[pos], buf[pos + 1]) > |buf|
    ensures Elements(buf, pos, end) == []
  {
  }

  lemma {:induction false} DecodedAppend(elements: seq<seq<byte>>, e: seq<byte>, source: string)
    ensures Decoded(elements + [e], source) == Decoded(elements, source) + Found(e, source)
  {
    if elements == [] {
      assert [e][1..] == [];
    } else {
      assert (elements + [e])[1..] == elements[1..] + [e];
      DecodedAppend(elements[1..], e, source);
    }
  }

  lemma Regroup<A>(xs: seq<A>, x: A, ys: seq<A>)
    ensures xs + ([x] + ys) == (xs + [x]) + ys
  {
  }

  // The loop over the elements.
  method ParseElements(buf: seq<byte>, end: nat, source: string) returns (scts: seq<SctInfo>)
    requires 2 <= end <= |buf|
    ensures scts == Decoded(Elements(buf, 2, end), source)
  {
    hide Elements, DecodeSct, U16;
    scts := [];
    var pos := 2;
    ghost var seen: seq<seq<byte>> := [];
    while pos < end
      invariant pos <= |buf|
      invariant seen + Elements(buf, pos, end) == Elements(buf, 2, end)
      invariant scts == Decoded(seen, source)
      decreases |buf| - pos
    {
      ghost var before := pos;
      if pos + 2 > |buf| {
        break;
      }
      var sctLen := ReadU16(buf[pos], buf[pos + 1]);
      pos := pos + 2;
      if pos + sctLen > |buf| {
        ElementsEnd(buf, before, end);
        assert seen + [] == seen;
        return;
      }
      ElementsStep(buf, before, end);
      var element := buf[pos..pos + sctLen];
      DecodedAppend(seen, element, source);
      Regroup(seen, element, Elements(buf, pos + sctLen, end));
      seen := seen + [element];
      var sct := ParseSct(element, source);
      if sct.Some? {
        scts := scts + [sct.value];
      }
      pos := pos + sctLen;
    }
    ElementsEnd(buf, pos, end);
    assert seen + [] == seen;
  }

  method ParseSctList(data: seq<byte>, source: string) returns (scts: seq<SctInfo>)
    ensures scts == ParseList(data, source)
  {
    if |data| < 2 {
      return [];
    }
    var buf := Unwrapped(data);
    if |buf| < 2 {
      return [];
    }
    var listLen := ReadU16(buf[0], buf[1]);
    if listLen + 2 > |buf| {
      return [];
    }
    scts := ParseElements(buf, listLen + 2, source);
  }

  datatype Extension = Extension(id: seq<nat>, value: seq<byte>)

  const SCT_LIST_OID: seq<nat> := [1, 3, 6, 1, 4, 1, 11129, 2, 4, 2]

  // What a certificate's extensions hold.
  function Embedded(extensions: seq<Extension>): seq<SctInfo> {
    if extensions == [] then []
    else if extensions[0].id == SCT_LIST_OID then ParseList(extensions[0].value, "embedded")
    else Embedded(extensions[1..])
  }

  // parseEmbeddedSCTs: the first extension with the SCT list's identifier decides,
  // whatever later ones hold.
  method ParseEmbedded(extensions: seq<Extension>) returns (scts: seq<SctInfo>)
    ensures forall k :: 0 <= k < |extensions| && extensions[k].id == SCT_LIST_OID
              && (forall j :: 0 <= j < k ==> extensions[j].id != SCT_LIST_OID)
              ==> scts == ParseList(extensions[k].value, "embedded")
    ensures (forall k :: 0 <= k < |extensions| ==> extensions[k].id != SCT_LIST_OID) ==> scts == []
    ensures scts == Embedded(extensions)
  {
    hide ParseList;
    for i := 0 to |extensions|
      invariant forall j :: 0 <= j < i ==> extensions[j].id != SCT_LIST_OID
      invariant Embedded(extensions) == Embedded(extensions[i..])
    {
      assert extensions[i..][0] == extensions[i] && extensions[i..][1..] == extensions[i + 1..];
      if extensions[i].id == SCT_LIST_OID {
        scts := ParseSctList(extensions[i].value, "embedded");
        return;
      }
    }
    scts := [];
  }
}
