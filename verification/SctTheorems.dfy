// What the certificate-transparency parser gets right, and exactly where taking
// the bytes as they are goes wrong.

module SctTheorems {
  import opened Prelude
  import BigEndian
  import Der
  import opened SctList

  // ---- One SCT there and back ----

  // Section 3.2 of RFC 6962: the structure a log signs.
  datatype Sct = Sct(version: byte, logId: seq<byte>, timestamp: nat, tail: seq<byte>)

  // The tail holds the extensions with their two length octets, and the signature.
  predicate ValidSct(s: Sct) {
    |s.logId| == 32 && s.timestamp < BigEndian.TWO_64 && |s.tail| >= 2
  }

  function EncodeSct(s: Sct): seq<byte> {
    [s.version] + s.logId + BigEndian.Encode(s.timestamp, 8) + s.tail
  }

  // A timestamp from 2^63 on comes out negative.
  function Info(s: Sct, source: string): SctInfo
    requires ValidSct(s)
  {
    var ms := if s.timestamp < BigEndian.TWO_64 / 2 then s.timestamp else s.timestamp - BigEndian.TWO_64;
    SctInfo(s.version, Hex(s.logId[..8]), ms, source)
  }

  lemma SctRoundTrip(s: Sct, source: string)
    requires ValidSct(s)
    ensures DecodeSct(EncodeSct(s), source) == Some(Info(s, source))
  {
    var data := EncodeSct(s);
    assert BigEndian.Pow256(8) == BigEndian.TWO_64;
    BigEndian.DecodeEncode(s.timestamp, 8);
    assert data[33..41] == BigEndian.Encode(s.timestamp, 8);
    assert data[1..9] == s.logId[..8];
  }

  // ---- The list there and back ----

  function U16Bytes(n: nat): (bs: seq<byte>)
    ensures |bs| == 2
  {
    [(n / 256) % 256, n % 256]
  }

  function Body(elements: seq<seq<byte>>): seq<byte> {
    if elements == [] then []
    else U16Bytes(|elements[0]|) + elements[0] + Body(elements[1..])
  }

  // Section 3.3 of RFC 6962, for lists whose total fits the length field.
  function Serialize(elements: seq<seq<byte>>): seq<byte> {
    U16Bytes(|Body(elements)|) + Body(elements)
  }

  predicate Serializable(elements: seq<seq<byte>>) {
    |Body(elements)| <= 65535
  }

  lemma U16Value(n: nat)
    requires n <= 65535
    ensures U16(U16Bytes(n)[0], U16Bytes(n)[1]) == n
  {
  }

  lemma HeaderValue(buf: seq<byte>, n: nat)
    requires |buf| >= 2 && n <= 65535 && buf[..2] == U16Bytes(n)
    ensures DeclaredEnd(buf) == n + 2
  {
    hide U16, U16Bytes;
    U16Value(n);
    assert buf[0] == U16Bytes(n)[0] && buf[1] == U16Bytes(n)[1];
  }

  lemma Pieces(pre: seq<byte>, header: seq<byte>, e: seq<byte>, rest: seq<byte>)
    requires |header| == 2
    ensures var buf, start := pre + (header + e + rest), |pre| + 2;
            && buf[|pre|] == header[0] && buf[|pre| + 1] == header[1]
            && buf[start..start + |e|] == e
            && buf == buf[..start + |e|] + rest
  {
  }

  lemma ElementAt(buf: seq<byte>, pre: seq<byte>, e: seq<byte>, rest: seq<byte>)
    requires |e| <= 65535 && buf == pre + (U16Bytes(|e|) + e + rest)
    ensures var next := |pre| + 2 + |e|;
            && next <= |buf|
            && U16(buf[|pre|], buf[|pre| + 1]) == |e|
            && buf[|pre| + 2..next] == e
            && buf == buf[..next] + rest
  {
    hide U16, U16Bytes;
    U16Value(|e|);
    Pieces(pre, U16Bytes(|e|), e, rest);
  }

  lemma {:induction false} ElementsOfBody(buf: seq<byte>, pre: seq<byte>, elements: seq<seq<byte>>, post: seq<byte>)
    requires buf == pre + (Body(elements) + post) && Serializable(elements)
    ensures Elements(buf, |pre|, |pre| + |Body(elements)|) == elements
    decreases elements
  {
    hide Elements, U16Bytes;
    var end := |pre| + |Body(elements)|;
    if elements == [] {
      ElementsEnd(buf, |pre|, end);
    } else {
      var e, more := elements[0], elements[1..];
      assert Body(elements) + post == U16Bytes(|e|) + e + (Body(more) + post);
      ElementAt(buf, pre, e, Body(more) + post);
      ElementsOfBody(buf, buf[..|pre| + 2 + |e|], more, post);
      ElementsStep(buf, |pre|, end);
    }
  }

  // Splitting the serialization gives back the elements.
  lemma {:induction false} SplitSerialized(elements: seq<seq<byte>>, trailing: seq<byte>)
    requires Serializable(elements)
    ensures var buf := Serialize(elements) + trailing;
            DeclaredEnd(buf) == |Serialize(elements)| && Elements(buf, 2, DeclaredEnd(buf)) == elements
  {
    hide Elements, Body, U16Bytes, DeclaredEnd;
    var buf := Serialize(elements) + trailing;
    var header := U16Bytes(|Body(elements)|);
    assert buf == header + (Body(elements) + trailing);
    assert buf[..2] == header;
    HeaderValue(buf, |Body(elements)|);
    ElementsOfBody(buf, header, elements, trailing);
  }

  lemma {:induction false} ParseSerialized(elements: seq<seq<byte>>, trailing: seq<byte>, source: string)
    requires Serializable(elements)
    ensures ParseBuffer(Serialize(elements) + trailing, source) == Decoded(elements, source)
  {
    SplitSerialized(elements, trailing);
  }

  lemma WrappedFits(elements: seq<seq<byte>>)
    requires Serializable(elements)
    ensures Der.Octets(|Serialize(elements)|) < 127
  {
    var n := |Serialize(elements)|;
    assert BigEndian.Pow256(3) == 0x100_0000;
    Der.OctetsTight(n);
    if Der.Octets(n) > 3 {
      BigEndian.Pow256Monotone(3, Der.Octets(n) - 1);
    }
  }

  // The extension value of a certificate, with anything after it: the elements
  // long enough to be SCTs come back in order and nothing else does.
  lemma {:induction false} ListRoundTrip(elements: seq<seq<byte>>, trailing: seq<byte>, source: string)
    requires Serializable(elements)
    ensures Der.Octets(|Serialize(elements)|) < 127
    ensures ParseList(Der.Wrap(Serialize(elements)) + trailing, source) == Decoded(elements, source)
  {
    WrappedFits(elements);
    Der.UnwrapWrap(Serialize(elements), trailing);
    ParseSerialized(elements, [], source);
    assert Serialize(elements) + [] == Serialize(elements);
  }

  function Encoded(scts: seq<Sct>): seq<seq<byte>> {
    seq(|scts|, i requires 0 <= i < |scts| => EncodeSct(scts[i]))
  }

  // The positions of the elements long enough to be SCTs.
  function LongAt(elements: seq<seq<byte>>): seq<nat> {
    if elements == [] then []
    else
      var last := |elements| - 1;
      LongAt(elements[..last]) + if |elements[last]| >= 43 then [last] else []
  }

  ghost predicate LongPositions(elements: seq<seq<byte>>, at: seq<nat>) {
    && (forall j :: 0 <= j < |at| ==> at[j] < |elements| && |elements[at[j]]| >= 43)
    && (forall j, k :: 0 <= j < k < |at| ==> at[j] < at[k])
    && (forall i: nat :: i < |elements| && |elements[i]| >= 43 ==> i in at)
  }

  lemma {:induction false} LongAtAll(elements: seq<seq<byte>>)
    ensures LongPositions(elements, LongAt(elements))
  {
    if elements != [] {
      LongAtAll(elements[..|elements| - 1]);
    }
  }

  lemma NoneLong(elements: seq<seq<byte>>)
    requires forall i :: 0 <= i < |elements| ==> |elements[i]| < 43
    ensures LongAt(elements) == []
  {
    LongAtAll(elements);
  }

  // One SCT for each of these positions, in order.
  ghost predicate ReportedFrom(elements: seq<seq<byte>>, at: seq<nat>, scts: seq<SctInfo>, source: string) {
    && |scts| == |at|
    && forall j :: 0 <= j < |at| ==>
         && at[j] < |elements| && scts[j].source == source
         && DecodeSct(elements[at[j]], source) == Some(scts[j])
  }

  // The long elements are reported, in order, and nothing else is.
  lemma {:induction false} DecodedAre(elements: seq<seq<byte>>, source: string)
    ensures ReportedFrom(elements, LongAt(elements), Decoded(elements, source), source)
  {
    if elements == [] {
      return;
    }
    hide Decoded, LongAt, ReportedFrom;
    var init, last := elements[..|elements| - 1], elements[|elements| - 1];
    DecodedAre(init, source);
    DecodedAppend(init, last, source);
    LongStep(init, last);
    ReportedStep(init, LongAt(init), Decoded(init, source), last, source);
    assert elements == init + [last];
  }

  lemma LongStep(elements: seq<seq<byte>>, e: seq<byte>)
    ensures LongAt(elements + [e]) == LongAt(elements) + if |e| >= 43 then [|elements|] else []
  {
    assert (elements + [e])[..|elements|] == elements;
  }

  lemma ReportedStep(elements: seq<seq<byte>>, at: seq<nat>, scts: seq<SctInfo>, e: seq<byte>, source: string)
    requires ReportedFrom(elements, at, scts, source)
    ensures ReportedFrom(elements + [e], at + (if |e| >= 43 then [|elements|] else []), scts + Found(e, source), source)
  {
    DecodeLong(e, source);
    hide DecodeSct;
  }

  lemma DecodeLong(data: seq<byte>, source: string)
    ensures DecodeSct(data, source).Some? <==> |data| >= 43
    ensures DecodeSct(data, source).Some? ==> DecodeSct(data, source).value.source == source
  {
  }

  lemma {:induction false} DecodedEncoded(scts: seq<Sct>, source: string)
    requires forall i :: 0 <= i < |scts| ==> ValidSct(scts[i])
    ensures Decoded(Encoded(scts), source)
         == seq(|scts|, i requires 0 <= i < |scts| => Info(scts[i], source))
  {
    if scts != [] {
      SctRoundTrip(scts[0], source);
      DecodedEncoded(scts[1..], source);
      assert Encoded(scts)[1..] == Encoded(scts[1..]);
      assert Encoded(scts)[0] == EncodeSct(scts[0]);
    }
  }

  // The extension value of a certificate: a wrapped list, with anything after it.
  ghost predicate WrappedList(value: seq<byte>, elements: seq<seq<byte>>, trailing: seq<byte>) {
    Der.Octets(|Serialize(elements)|) < 127 && value == Der.Wrap(Serialize(elements)) + trailing
  }

  // Every SCT a log issued is reported with its version, log and time.
  lemma {:induction false} CertificateRoundTrip(scts: seq<Sct>, trailing: seq<byte>, source: string)
    requires forall i :: 0 <= i < |scts| ==> ValidSct(scts[i])
    requires Serializable(Encoded(scts))
    ensures Der.Octets(|Serialize(Encoded(scts))|) < 127
    ensures ParseList(Der.Wrap(Serialize(Encoded(scts))) + trailing, source)
         == seq(|scts|, i requires 0 <= i < |scts| => Info(scts[i], source))
  {
    ListRoundTrip(Encoded(scts), trailing, source);
    DecodedEncoded(scts, source);
  }

  // ---- Arbitrary bytes ----

  lemma WindowsStep(buf: seq<byte>, pos: nat, end: nat)
    requires Windows(buf, pos, end) != []
    ensures pos < end && pos + 2 <= |buf| && pos + 2 + U16(buf[pos], buf[pos + 1]) <= |buf|
    ensures var n := U16(buf[pos], buf[pos + 1]);
            Windows(buf, pos, end) == [Window(pos + 2, n)] + Windows(buf, pos + 2 + n, end)
  {
  }

  lemma {:induction false} WindowsBeginInside(buf: seq<byte>, pos: nat, end: nat)
    ensures var ws := Windows(buf, pos, end);
            forall i :: 0 <= i < |ws| ==> ws[i].start < end + 2
    decreases |buf| - pos
  {
    hide Windows;
    if Windows(buf, pos, end) != [] {
      WindowsStep(buf, pos, end);
      WindowsBeginInside(buf, pos + 2 + U16(buf[pos], buf[pos + 1]), end);
    }
  }

  lemma {:induction false} WindowsAdjacent(buf: seq<byte>, pos: nat, end: nat, i: nat)
    requires i + 1 < |Windows(buf, pos, end)|
    ensures var w, next := Windows(buf, pos, end)[i], Windows(buf, pos, end)[i + 1];
            w.start + w.len + 2 == next.start && w.start + w.len < end
    decreases i
  {
    hide Windows;
    WindowsStep(buf, pos, end);
    var next := pos + 2 + U16(buf[pos], buf[pos + 1]);
    if i > 0 {
      WindowsAdjacent(buf, next, end, i - 1);
    } else {
      WindowsStep(buf, next, end);
    }
  }

  // On any buffer the elements tile it from pos on, each behind a two-byte
  // length that begins before the declared end; only the last can reach past it.
  lemma {:induction false} WindowsTile(buf: seq<byte>, pos: nat, end: nat)
    ensures var ws := Windows(buf, pos, end);
            && (ws != [] ==> ws[0].start == pos + 2)
            && (forall i :: 0 <= i < |ws| ==> ws[i].start < end + 2 && Fits(ws[i], buf))
            && (forall i :: 0 <= i < |ws| - 1 ==>
                  ws[i].start + ws[i].len + 2 == ws[i + 1].start && ws[i].start + ws[i].len < end)
  {
    hide Windows;
    var ws := Windows(buf, pos, end);
    WindowsFit(buf, pos, end);
    WindowsBeginInside(buf, pos, end);
    if ws != [] {
      WindowsStep(buf, pos, end);
    }
    forall i | 0 <= i < |ws| - 1
      ensures ws[i].start + ws[i].len + 2 == ws[i + 1].start && ws[i].start + ws[i].len < end
    {
      WindowsAdjacent(buf, pos, end, i);
    }
  }

  // The length in front of an element is its own.
  lemma {:induction false} WindowsMeasured(buf: seq<byte>, pos: nat, end: nat, i: nat)
    requires i < |Windows(buf, pos, end)|
    ensures var w := Windows(buf, pos, end)[i];
            2 <= w.start <= |buf| && w.len == U16(buf[w.start - 2], buf[w.start - 1])
    decreases i
  {
    hide Windows;
    WindowsStep(buf, pos, end);
    if i > 0 {
      WindowsMeasured(buf, pos + 2 + U16(buf[pos], buf[pos + 1]), end, i - 1);
    }
  }

  // Where the next element would be looked for.
  function Reached(ws: seq<Window>, pos: nat): nat {
    if ws == [] then pos else ws[|ws| - 1].start + ws[|ws| - 1].len
  }

  // Elements are read for as long as there are any: up to the declared end or to one
  // that does not fit the buffer.  What precedes such an element is kept.
  lemma {:induction false} WindowsMaximal(buf: seq<byte>, pos: nat, end: nat)
    ensures var p := Reached(Windows(buf, pos, end), pos);
            p >= end || p + 2 > |buf| || p + 2 + U16(buf[p], buf[p + 1]) > |buf|
    decreases |buf| - pos
  {
    if Windows(buf, pos, end) != [] {
      WindowsStep(buf, pos, end);
      var n := U16(buf[pos], buf[pos + 1]);
      WindowsMaximal(buf, pos + 2 + n, end);
      ReachedCons(Window(pos + 2, n), Windows(buf, pos + 2 + n, end), pos);
    }
  }

  lemma ReachedCons(w: Window, ws: seq<Window>, pos: nat)
    ensures Reached([w] + ws, pos) == Reached(ws, w.start + w.len)
  {
  }

  // Where an element lies is what it is.
  lemma ElementIs(buf: seq<byte>, pos: nat, end: nat, i: nat)
    requires i < |Windows(buf, pos, end)|
    ensures var w := Windows(buf, pos, end)[i];
            && |Elements(buf, pos, end)| == |Windows(buf, pos, end)|
            && Fits(w, buf) && Elements(buf, pos, end)[i] == buf[w.start..w.start + w.len]
  {
    hide Windows;
    WindowsFit(buf, pos, end);
  }

  // A list cut off before its declared end is not looked at.
  lemma CutOff(data: seq<byte>, source: string)
    requires var buf := Unwrapped(data); |buf| < 2 || U16(buf[0], buf[1]) + 2 > |buf|
    ensures ParseList(data, source) == []
  {
    hide Unwrapped;
  }

  // The declared list is all there is when it fills the buffer.
  lemma WindowsInsideList(buf: seq<byte>)
    requires |buf| >= 2 && DeclaredEnd(buf) == |buf|
    ensures var ws := Windows(buf, 2, DeclaredEnd(buf));
            forall i :: 0 <= i < |ws| ==> ws[i].start + ws[i].len <= DeclaredEnd(buf)
  {
    WindowsFit(buf, 2, DeclaredEnd(buf));
  }

  lemma DecodedCons(e: seq<byte>, more: seq<seq<byte>>, source: string)
    ensures Decoded([e] + more, source) == Found(e, source) + Decoded(more, source)
    ensures 45 * |Found(e, source)| <= 2 + |e|
  {
    assert ([e] + more)[1..] == more;
  }

  // Each SCT found has used up at least 45 bytes of the buffer.
  lemma {:induction false} DecodedBound(buf: seq<byte>, pos: nat, end: nat, source: string)
    requires pos <= |buf|
    ensures 45 * |Decoded(Elements(buf, pos, end), source)| <= |buf| - pos
    decreases |buf| - pos
  {
    hide Elements, Found, U16;
    if pos < end && pos + 2 <= |buf| && pos + 2 + U16(buf[pos], buf[pos + 1]) <= |buf| {
      var next := pos + 2 + U16(buf[pos], buf[pos + 1]);
      ElementsStep(buf, pos, end);
      DecodedCons(buf[pos + 2..next], Elements(buf, next, end), source);
      DecodedBound(buf, next, end, source);
    } else {
      ElementsEnd(buf, pos, end);
    }
  }

  lemma CountBound(data: seq<byte>, source: string)
    ensures ParseList(data, source) == [] || 45 * |ParseList(data, source)| <= |Unwrapped(data)| - 2
    ensures |Unwrapped(data)| <= |data|
  {
    var buf := Unwrapped(data);
    if |buf| >= 2 {
      DecodedBound(buf, 2, DeclaredEnd(buf), source);
    }
  }

  // A buffer longer than its declared list: the last element may reach past the
  // declared end and is accepted all the same.
  lemma ReachPastEnd()
    ensures var buf := [0, 2, 0, 43] + seq(43, _ => 7);
            DeclaredEnd(buf) == 4 && |ParseBuffer(buf, "embedded")| == 1
  {
    var sct: seq<byte> := seq(43, _ => 7);
    var buf: seq<byte> := [0, 2, 0, 43] + sct;
    ElementsStep(buf, 2, 4);
    ElementsEnd(buf, 47, 4);
    assert buf[4..47] == sct;
    DecodedAppend([], sct, "embedded");
  }

  // ---- Raw or wrapped ----

  // When bare bytes that were never wrapped pass for an OCTET STRING: the first
  // list octet is 4 and what follows it reads as a minimal length that fits.
  predicate Misread(elements: seq<seq<byte>>) {
    var n := |Body(elements)|;
    1024 <= n <= 1151 || (n == 1154 && elements != [] && |elements[0]| >= 256)
  }

  // The first bytes of a serialized list of about a kilobyte.
  lemma RawPrefix(elements: seq<seq<byte>>)
    requires 1024 < |Body(elements)| < 1280
    ensures elements != [] && |elements[0]| + 2 <= |Body(elements)|
    ensures var raw, first := Serialize(elements), |elements[0]|;
            && |raw| == 2 + |Body(elements)|
            && raw[..4] == [4, |Body(elements)| - 1024, first / 256, first % 256]
  {
    var e, body := elements[0], Body(elements);
    assert body[..2] == U16Bytes(|e|) && |body| >= 2 + |e|;
    HeaderOctets(|body|, |e|);
    HeaderPair(U16Bytes(|body|), body);
  }

  lemma HeaderOctets(n: nat, first: nat)
    requires 1024 < n < 1280 && first < n
    ensures U16Bytes(n) == [4, n - 1024] && U16Bytes(first) == [first / 256, first % 256]
  {
  }

  lemma HeaderPair(header: seq<byte>, body: seq<byte>)
    requires |header| == 2 && |body| >= 2
    ensures (header + body)[..4] == header + body[..2]
  {
  }

  // With one or two length octets the number read is made of the first element's
  // length; with more it exceeds the buffer.
  lemma LongFormRaw(raw: seq<byte>, n: nat, first: nat)
    requires 1152 <= n < 1280 && |raw| == 2 + n && first + 2 <= n
    requires raw[..4] == [4, n - 1024, first / 256, first % 256]
    ensures Der.Unwrap(raw).Some? <==> n == 1154 && first >= 256
    ensures n == 1154 && first >= 256 ==> Der.Unwrap(raw) == Some(raw[4..4 + first])
  {
    var s := raw[1..];
    var k := n - 1024 - 128;
    assert s[0] == n - 1024 && s[1] == first / 256 && s[2] == first % 256;
    if k == 1 {
      assert s[1..2] == [s[1]] && s[1..2][..0] == [];
      assert BigEndian.Decode(s[1..2]) == s[1];
    } else if k == 2 {
      assert s[1..3] == [s[1], s[2]] && s[1..3][..1] == [s[1]] && [s[1]][..0] == [];
      assert BigEndian.Decode([s[1]]) == s[1];
      assert BigEndian.Decode(s[1..3]) == first;
    } else if 3 <= k && s[1] != 0 {
      LongNumber(s[1..1 + k]);
    }
  }

  lemma LongNumber(bs: seq<byte>)
    requires |bs| >= 3 && bs[0] > 0
    ensures BigEndian.Decode(bs) >= 65536
  {
    BigEndian.DecodeAtLeast(bs);
    BigEndian.Pow256Monotone(2, |bs| - 1);
    assert BigEndian.Pow256(2) == 65536;
  }

  lemma RawOctets(elements: seq<seq<byte>>)
    ensures var raw, n := Serialize(elements), |Body(elements)|;
            |raw| == 2 + n && raw[0] == (n / 256) % 256 && raw[1] == n % 256 && raw[2..] == Body(elements)
  {
    hide Body;
  }

  // With a length octet below 128 that many bytes are unwrapped.
  lemma ShortFormRaw(raw: seq<byte>, m: nat)
    requires |raw| >= 2 + m && m < 128 && raw[0] == 4 && raw[1] == m
    ensures Der.Unwrap(raw) == Some(raw[2..2 + m])
  {
  }

  lemma OtherTag(raw: seq<byte>)
    requires raw != [] && raw[0] != 4
    ensures Der.Unwrap(raw).None?
  {
  }

  lemma {:induction false} RawUnwraps(elements: seq<seq<byte>>)
    requires Serializable(elements)
    ensures Der.Unwrap(Serialize(elements)).Some? <==> Misread(elements)
  {
    hide Body, Serialize, Der.Unwrap;
    var raw, n := Serialize(elements), |Body(elements)|;
    RawOctets(elements);
    if n < 1024 || n >= 1280 {
      OtherTag(raw);
    } else if n < 1152 {
      ShortFormRaw(raw, n - 1024);
    } else {
      RawPrefix(elements);
      LongFormRaw(raw, n, |elements[0]|);
    }
  }

  // Except for the misread ones, a list parses alike bare and wrapped.
  lemma {:induction false} RawAgreement(elements: seq<seq<byte>>, trailing: seq<byte>, source: string)
    requires Serializable(elements) && !Misread(elements)
    ensures Der.Octets(|Serialize(elements)|) < 127
    ensures ParseList(Serialize(elements), source)
         == ParseList(Der.Wrap(Serialize(elements)) + trailing, source)
         == Decoded(elements, source)
  {
    ListRoundTrip(elements, trailing, source);
    RawUnwraps(elements);
    ParseSerialized(elements, [], source);
    assert Serialize(elements) + [] == Serialize(elements);
  }

  // What is taken for the contents: the front of the body, or the first element.
  function MisreadContents(elements: seq<seq<byte>>): seq<byte>
    requires Misread(elements)
  {
    var body := Body(elements);
    if |body| <= 1151 then body[..|body| - 1024] else elements[0]
  }

  lemma FirstElement(elements: seq<seq<byte>>)
    requires elements != []
    ensures 4 + |elements[0]| <= |Serialize(elements)|
    ensures Serialize(elements)[4..4 + |elements[0]|] == elements[0]
  {
    var e, raw := elements[0], Serialize(elements);
    assert raw == (U16Bytes(|Body(elements)|) + U16Bytes(|e|)) + e + Body(elements[1..]);
  }

  lemma {:induction false} MisreadAs(elements: seq<seq<byte>>)
    requires Misread(elements)
    ensures Der.Unwrap(Serialize(elements)) == Some(MisreadContents(elements))
  {
    hide Body, Serialize, Der.Unwrap;
    var raw, n := Serialize(elements), |Body(elements)|;
    RawOctets(elements);
    if n <= 1151 {
      ShortFormRaw(raw, n - 1024);
      assert raw[2..][..n - 1024] == raw[2..2 + (n - 1024)];
    } else {
      RawPrefix(elements);
      LongFormRaw(raw, n, |elements[0]|);
      FirstElement(elements);
    }
  }

  lemma BodyHeader(elements: seq<seq<byte>>)
    requires 0 < |Body(elements)| <= 65535
    ensures elements != [] && |elements[0]| + 2 <= |Body(elements)|
    ensures Body(elements)[..2] == U16Bytes(|elements[0]|)
  {
  }

  // A misread list comes out empty when its first element does not fit what was
  // taken for the contents.
  lemma {:induction false} RawLost(elements: seq<seq<byte>>, source: string)
    requires 1024 <= |Body(elements)| <= 1151
    requires |elements[0]| + 2 > |Body(elements)| - 1024
    ensures ParseList(Serialize(elements), source) == []
  {
    hide Decoded, Elements, Body, U16Bytes, DeclaredEnd, Der.Unwrap;
    MisreadAs(elements);
    BodyHeader(elements);
    var body := Body(elements);
    var contents := body[..|body| - 1024];
    if |contents| >= 2 {
      assert contents[..2] == body[..2];
      HeaderValue(contents, |elements[0]|);
    }
  }

  // So in that class bare and wrapped agree only when there was nothing to report.
  lemma {:induction false} RawLostExactly(elements: seq<seq<byte>>, trailing: seq<byte>, source: string)
    requires 1024 <= |Body(elements)| <= 1151
    requires |elements[0]| + 2 > |Body(elements)| - 1024
    ensures Der.Octets(|Serialize(elements)|) < 127
    ensures ParseList(Serialize(elements), source) == ParseList(Der.Wrap(Serialize(elements)) + trailing, source)
       <==> Decoded(elements, source) == []
  {
    hide ParseList, Decoded, Body;
    RawLost(elements, source);
    ListRoundTrip(elements, trailing, source);
  }

  // The supposed contents have room for one SCT in 45 bytes: a misread list with more
  // of them loses some.
  lemma {:induction false} RawCrowded(elements: seq<seq<byte>>, trailing: seq<byte>, source: string)
    requires Serializable(elements) && Misread(elements)
    requires Decoded(elements, source) != []
    requires 45 * |Decoded(elements, source)| > |MisreadContents(elements)| - 2
    ensures Der.Octets(|Serialize(elements)|) < 127
    ensures |ParseList(Serialize(elements), source)| < |Decoded(elements, source)|
    ensures ParseList(Serialize(elements), source) != ParseList(Der.Wrap(Serialize(elements)) + trailing, source)
  {
    hide ParseList, Decoded, Body, Misread, MisreadContents;
    MisreadAs(elements);
    CountBound(Serialize(elements), source);
    ListRoundTrip(elements, trailing, source);
  }

  // Such lists exist: one SCT that is reported wrapped and not bare.
  lemma {:induction false} RawDisagrees()
    ensures var elements: seq<seq<byte>> := [seq(1022, _ => 0)];
            && Serializable(elements)
            && ParseList(Serialize(elements), "embedded") == []
            && |Decoded(elements, "embedded")| == 1
  {
    var e: seq<byte> := seq(1022, _ => 0);
    assert Body([e]) == U16Bytes(1022) + e + [];
    RawLost([e], "embedded");
    DecodedAppend([], e, "embedded");
    assert [] + [e] == [e];
  }
}
