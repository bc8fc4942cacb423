/** Request frames: written by the TypeScript client, read by the Go relay. */
module DispatchRequest {
  import opened Prelude
  import opened Wire

  const MAX_BODY: nat := 0x100_0000  // 16 << 20, the relay's cap on every 32-bit field
  const U32_MAX: nat := 0xffff_ffff

  const MAGIC: Bytes := [0x4c, 0x44, 0x42, 0x31]

  datatype Header = Header(key: Bytes, value: Bytes)

  /** What the client hands over: a JavaScript record, so each key occurs once. */
  datatype Request = Request(method_: Bytes, url: Bytes, headers: seq<Header>, body: Bytes)

  /** What the relay reconstructs: Go's multi-valued header map. */
  datatype Received = Received(method_: Bytes, url: Bytes, headers: map<Bytes, seq<Bytes>>, body: Bytes)

  ghost predicate DistinctKeys(headers: seq<Header>) {
    forall i, j :: 0 <= i < j < |headers| ==> headers[i].key != headers[j].key
  }

  // ----- the format -----

  /** The header entries followed by `tail`. */
  function EncodeHeaders(headers: seq<Header>, tail: Bytes): (r: Bytes)
    ensures |r| == EncodedSize(headers) + |tail|
  {
    if headers == [] then tail
    else EncodeField(headers[0].key, 2) + (EncodeField(headers[0].value, 4) + EncodeHeaders(headers[1..], tail))
  }

  function EncodedSize(headers: seq<Header>): nat {
    if headers == [] then 0
    else 2 + |headers[0].key| + 4 + |headers[0].value| + EncodedSize(headers[1..])
  }

  /** A frame, spelled from the right: each part is followed by everything after it. */
  function Encode(r: Request): Bytes { MAGIC + FromMethod(r) }

  function FromMethod(r: Request): Bytes { EncodeField(r.method_, 2) + FromUrl(r) }

  function FromUrl(r: Request): Bytes { EncodeField(r.url, 4) + FromCount(r) }

  function FromCount(r: Request): Bytes { BigEndian(|r.headers|, 2) + FromHeaders(r) }

  function FromHeaders(r: Request): Bytes { EncodeHeaders(r.headers, EncodeField(r.body, 4)) }

  function ParseHeader(s: Bytes): Parsed<Header> {
    match ParseField(s, 2, U32_MAX)
    case Fail(e) => Fail(e)
    case Done(key, rest) =>
      match ParseField(rest, 4, MAX_BODY)
      case Fail(e) => Fail(e)
      case Done(value, rest') => Done(Header(key, value), rest')
  }

  function ParseHeaders(s: Bytes, count: nat, acc: seq<Header>): Parsed<seq<Header>>
    decreases count
  {
    if count == 0 then Done(acc, s)
    else
      match ParseHeader(s)
      case Fail(e) => Fail(e)
      case Done(h, rest) => ParseHeaders(rest, count - 1, acc + [h])
  }

  /** `headers[key] = append(headers[key], value)`. */
  function AddHeader(m: map<Bytes, seq<Bytes>>, h: Header): map<Bytes, seq<Bytes>> {
    m[h.key := (if h.key in m then m[h.key] else []) + [h.value]]
  }

  function Collect(headers: seq<Header>): map<Bytes, seq<Bytes>> {
    if headers == [] then map[]
    else AddHeader(Collect(headers[..|headers| - 1]), headers[|headers| - 1])
  }

  /** Everything between the magic and the end-of-data check. */
  function ParseFrame(s: Bytes): Parsed<Request> {
    match ParseField(s, 2, U32_MAX)
    case Fail(e) => Fail(e)
    case Done(m, s1) =>
      match ParseField(s1, 4, MAX_BODY)
      case Fail(e) => Fail(e)
      case Done(url, s2) =>
        match ParseUint(s2, 2)
        case Fail(e) => Fail(e)
        case Done(count, s3) =>
          match ParseHeaders(s3, count, [])
          case Fail(e) => Fail(e)
          case Done(headers, s4) =>
            match ParseField(s4, 4, MAX_BODY)
            case Fail(e) => Fail(e)
            case Done(body, s5) => Done(Request(m, url, headers, body), s5)
  }

  function Decode(data: Bytes): Result<Received> {
    if |data| < 4 || data[..4] != MAGIC then Err(BadMagic)
    else
      match ParseFrame(data[4..])
      case Fail(e) => Err(e)
      case Done(r, rest) => if rest == [] then Ok(Deliver(r)) else Err(TrailingData)
  }

  /** The value the relay should end up with for a request. */
  function Deliver(r: Request): Received {
    Received(r.method_, r.url, Collect(r.headers), r.body)
  }

  // ----- the two programs -----

  /** The client's writer: the buffer is sized up front and filled to its last byte. */
  method EncodeDispatchRequest(request: Request) returns (out: array<byte>)
    ensures fresh(out) && out[..] == Encode(request)
  {
    var size := EncodedLength(request);
    var w := new ByteWriter(size);
    hide BigEndian, EncodeHeaders;
    ghost var w0 := w.Written();
    w.Put(MAGIC);
    PutStep(w0, MAGIC, FromMethod(request));
    ghost var w1 := w.Written();
    w.Put(EncodeField(request.method_, 2));
    PutStep(w1, EncodeField(request.method_, 2), FromUrl(request));
    ghost var w2 := w.Written();
    w.Put(EncodeField(request.url, 4));
    PutStep(w2, EncodeField(request.url, 4), FromCount(request));
    ghost var w3 := w.Written();
    w.Put(BigEndian(|request.headers|, 2));
    PutStep(w3, BigEndian(|request.headers|, 2), FromHeaders(request));
    WriteHeaders(w, request.headers, EncodeField(request.body, 4));
    w.Put(EncodeField(request.body, 4));
    out := w.out;
    assert w.Written() == Encode(request);
    assert out[..] == out[..w.offset];
  }

  /** The size loop that runs before the buffer is allocated. */
  method EncodedLength(request: Request) returns (size: nat)
    ensures size == |Encode(request)|
  {
    size := 4 + 2 + |request.method_| + 4 + |request.url| + 2 + 4 + |request.body|;
    ghost var total := size + EncodedSize(request.headers);
    for i := 0 to |request.headers|
      invariant size + EncodedSize(request.headers[i..]) == total
    {
      var h := request.headers[i];
      assert request.headers[i..][1..] == request.headers[i + 1..];
      size := size + 2 + |h.key| + 4 + |h.value|;
    }
  }

  /** Bytes already written followed by what is still to come, before and after one `Put`. */
  lemma PutStep(written: Bytes, part: Bytes, remaining: Bytes)
    ensures (written + part) + remaining == written + (part + remaining)
  {
  }

  method WriteHeaders(w: ByteWriter, headers: seq<Header>, ghost tail: Bytes)
    requires w.Valid() && w.offset + EncodedSize(headers) + |tail| == w.out.Length
    modifies w, w.out
    ensures w.Valid() && w.offset + |tail| == w.out.Length
    ensures w.Written() + tail == old(w.Written()) + EncodeHeaders(headers, tail)
  {
    for i := 0 to |headers|
      invariant w.Valid() && w.offset + EncodedSize(headers[i..]) + |tail| == w.out.Length
      invariant w.Written() + EncodeHeaders(headers[i..], tail) == old(w.Written()) + EncodeHeaders(headers, tail)
    {
      hide BigEndian;
      var key, value := EncodeField(headers[i].key, 2), EncodeField(headers[i].value, 4);
      assert headers[i..][1..] == headers[i + 1..];
      ghost var rest := EncodeHeaders(headers[i + 1..], tail);
      ghost var w0 := w.Written();
      w.Put(key);
      PutStep(w0, key, value + rest);
      ghost var w1 := w.Written();
      w.Put(value);
      PutStep(w1, value, rest);
    }
  }

  /** The relay's reader, field by field. */
  method DecodeBinaryDispatchRequest(data: Bytes) returns (r: Result<Received>)
    ensures r == Decode(data)
  {
    hide ParseUint, ParseField, ParseHeaders, Collect, ByteReader.Rest, ByteReader.Valid;
    var reader := new ByteReader(data);
    var magic := reader.ReadBytes(4);
    if magic.Err? || magic.value != MAGIC {
      return Err(BadMagic);
    }
    var m := reader.ReadField(2, U32_MAX);
    if m.Err? {
      return Err(m.error);
    }
    var url := reader.ReadField(4, MAX_BODY);
    if url.Err? {
      return Err(url.error);
    }
    var count := reader.ReadUint(2);
    if count.Err? {
      return Err(count.error);
    }
    var headers := ReadHeaders(reader, count.value);
    if headers.Err? {
      return Err(headers.error);
    }
    var body := reader.ReadField(4, MAX_BODY);
    if body.Err? {
      return Err(body.error);
    }
    var end := reader.AtEnd();
    if !end {
      return Err(TrailingData);
    }
    r := Ok(Received(m.value, url.value, headers.value, body.value));
  }

  method ReadHeaders(reader: ByteReader, count: nat) returns (r: Result<map<Bytes, seq<Bytes>>>)
    requires reader.Valid()
    modifies reader
    ensures reader.Valid()
    ensures match ParseHeaders(old(reader.Rest()), count, [])
            case Fail(e) => r == Err(e)
            case Done(hs, rest) => r == Ok(Collect(hs)) && reader.Rest() == rest
  {
    hide ParseField, Collect, AddHeader, ByteReader.Rest, ByteReader.Valid;
    CollectNothing();
    var headers: map<Bytes, seq<Bytes>> := map[];
    ghost var done: seq<Header> := [];
    for i := 0 to count
      invariant reader.Valid()
      invariant headers == Collect(done)
      invariant ParseHeaders(old(reader.Rest()), count, []) == ParseHeaders(reader.Rest(), count - i, done)
    {
      var key := reader.ReadField(2, U32_MAX);
      if key.Err? {
        return Err(key.error);
      }
      var value := reader.ReadField(4, MAX_BODY);
      if value.Err? {
        return Err(value.error);
      }
      var h := Header(key.value, value.value);
      headers := AddHeader(headers, h);
      CollectOneMore(done, h);
      done := done + [h];
    }
    r := Ok(headers);
  }

  lemma CollectNothing()
    ensures Collect([]) == map[]
  {
  }

  lemma {:induction false} CollectOneMore(done: seq<Header>, h: Header)
    ensures Collect(done + [h]) == AddHeader(Collect(done), h)
  {
    assert (done + [h])[..|done|] == done;
  }

  /** The values of one header name, in the order they came. */
  function ValuesOf(headers: seq<Header>, key: Bytes): seq<Bytes> {
    if headers == [] then []
    else (if headers[0].key == key then [headers[0].value] else []) + ValuesOf(headers[1..], key)
  }

  lemma {:induction false} ValuesOfAppend(a: seq<Header>, h: Header, key: Bytes)
    ensures ValuesOf(a + [h], key) == ValuesOf(a, key) + if h.key == key then [h.value] else []
  {
    if a != [] {
      assert (a + [h])[1..] == a[1..] + [h];
      ValuesOfAppend(a[1..], h, key);
    }
  }

  /** A name that comes more than once keeps all its values, in order; no name appears that did not come. */
  lemma {:induction false} CollectKeepsAll(headers: seq<Header>, key: Bytes)
    ensures key in Collect(headers) <==> ValuesOf(headers, key) != []
    ensures key in Collect(headers) ==> Collect(headers)[key] == ValuesOf(headers, key)
  {
    if headers != [] {
      var front, h := headers[..|headers| - 1], headers[|headers| - 1];
      CollectKeepsAll(front, key);
      ValuesOfAppend(front, h, key);
      assert front + [h] == headers;
    }
  }

  /** Where each part of a frame stands. */
  lemma FrameLayout(r: Request)
    requires |r.headers| == 1
    ensures var h := r.headers[0];
            Encode(r) == [0x4c, 0x44, 0x42, 0x31]
                         + (BigEndian(|r.method_|, 2) + r.method_)
                         + (BigEndian(|r.url|, 4) + r.url)
                         + BigEndian(1, 2)
                         + (BigEndian(|h.key|, 2) + h.key) + (BigEndian(|h.value|, 4) + h.value)
                         + (BigEndian(|r.body|, 4) + r.body)
  {
    var tail := EncodeField(r.body, 4);
    assert EncodeHeaders(r.headers, tail) == EncodeField(r.headers[0].key, 2) + (EncodeField(r.headers[0].value, 4) + tail);
    hide BigEndian;
  }

  // ----- what the pair guarantees -----

  /** Every field within what its prefix and the relay's cap can carry. */
  ghost predicate Fits(r: Request) {
    && |r.method_| <= 0xffff && |r.url| <= MAX_BODY && |r.body| <= MAX_BODY
    && |r.headers| <= 0xffff && HeadersFit(r.headers)
  }

  ghost predicate HeadersFit(headers: seq<Header>) {
    forall i :: 0 <= i < |headers| ==> |headers[i].key| <= 0xffff && |headers[i].value| <= MAX_BODY
  }

  lemma {:induction false} HeadersRoundTrip(headers: seq<Header>, tail: Bytes, acc: seq<Header>)
    requires HeadersFit(headers)
    ensures ParseHeaders(EncodeHeaders(headers, tail), |headers|, acc) == Done(acc + headers, tail)
  {
    if headers == [] {
      AppendNothing(acc);
    } else {
      Capacities();
      var h, rest := headers[0], EncodeHeaders(headers[1..], tail);
      assert |h.key| <= 0xffff && |h.value| <= MAX_BODY && HeadersFit(headers[1..]);
      hide ParseField, EncodeField, HeadersFit;
      FieldRoundTrip(h.key, 2, U32_MAX, EncodeField(h.value, 4) + rest);
      FieldRoundTrip(h.value, 4, MAX_BODY, rest);
      HeadersRoundTrip(headers[1..], tail, acc + [h]);
      MoveHead(acc, headers);
    }
  }

  lemma FrameRoundTrip(r: Request)
    requires Fits(r)
    ensures ParseFrame(FromMethod(r)) == Done(r, [])
  {
    Capacities();
    hide ParseField, ParseUint, EncodeField, BigEndian, ParseHeaders, EncodeHeaders;
    FieldRoundTrip(r.method_, 2, U32_MAX, FromUrl(r));
    FieldRoundTrip(r.url, 4, MAX_BODY, FromCount(r));
    UintRoundTrip(|r.headers|, 2, FromHeaders(r));
    HeadersRoundTrip(r.headers, EncodeField(r.body, 4), []);
    assert [] + r.headers == r.headers;
    FieldRoundTrip(r.body, 4, MAX_BODY, []);
    assert EncodeField(r.body, 4) + [] == EncodeField(r.body, 4);
  }

  /** Whatever bytes arrive, a frame the relay accepts is within every bound. */
  ghost predicate WithinBounds(r: Received) {
    && |r.method_| <= 0xffff && |r.url| <= MAX_BODY && |r.body| <= MAX_BODY
    && |r.headers| <= 0xffff
    && forall k :: k in r.headers ==> |k| <= 0xffff && forall v :: v in r.headers[k] ==> |v| <= MAX_BODY
  }

  lemma {:induction false} ParsedHeadersBounded(s: Bytes, count: nat, acc: seq<Header>)
    requires ParseHeaders(s, count, acc).Done?
    requires HeadersFit(acc)
    ensures |ParseHeaders(s, count, acc).value| == |acc| + count
    ensures HeadersFit(ParseHeaders(s, count, acc).value)
    decreases count
  {
    Capacities();
    if count > 0 {
      ParsedHeadersBounded(ParseHeader(s).rest, count - 1, acc + [ParseHeader(s).value]);
    }
  }

  lemma {:induction false} CollectBounded(headers: seq<Header>)
    requires HeadersFit(headers)
    ensures |Collect(headers)| <= |headers|
    ensures forall k :: k in Collect(headers) ==>
              |k| <= 0xffff && forall v :: v in Collect(headers)[k] ==> |v| <= MAX_BODY
  {
    if headers != [] {
      var front, h := headers[..|headers| - 1], headers[|headers| - 1];
      CollectBounded(front);
      var m := Collect(front);
      assert Collect(headers).Keys == m.Keys + {h.key};
      assert |m.Keys + {h.key}| <= |m.Keys| + 1;
    }
  }

  lemma AcceptedIsBounded(data: Bytes)
    requires Decode(data).Ok?
    ensures WithinBounds(Decode(data).value)
  {
    Capacities();
    var p := ParseFrame(data[4..]);
    var s1 := ParseField(data[4..], 2, U32_MAX).rest;
    var s2 := ParseField(s1, 4, MAX_BODY).rest;
    var count := ParseUint(s2, 2);
    ParsedHeadersBounded(count.rest, count.value, []);
    CollectBounded(p.value.headers);
  }

  lemma {:induction false} NotCollected(headers: seq<Header>, key: Bytes)
    requires forall i :: 0 <= i < |headers| ==> headers[i].key != key
    ensures key !in Collect(headers)
  {
    if headers != [] {
      NotCollected(headers[..|headers| - 1], key);
    }
  }

  /** With distinct keys nothing is merged: one value per key, one key per header. */
  lemma {:induction false} CollectDistinct(headers: seq<Header>)
    requires DistinctKeys(headers)
    ensures |Collect(headers)| == |headers|
    ensures forall i :: 0 <= i < |headers| ==>
              headers[i].key in Collect(headers) && Collect(headers)[headers[i].key] == [headers[i].value]
  {
    if headers != [] {
      var front, last := headers[..|headers| - 1], headers[|headers| - 1];
      CollectDistinct(front);
      NotCollected(front, last.key);
      assert Collect(headers) == Collect(front)[last.key := [last.value]] by {
        assert [] + [last.value] == [last.value];
      }
      assert forall i :: 0 <= i < |front| ==> headers[i] == front[i];
    }
  }

  /**
   * Main result.  The relay reconstructs exactly the request the client was given
   * if and only if every field is within its bound: a longer one is truncated by its
   * prefix or refused by the relay, never delivered intact.
   */
  lemma RequestRoundTrip(r: Request)
    requires DistinctKeys(r.headers)
    ensures Decode(Encode(r)) == Ok(Deliver(r)) <==> Fits(r)
  {
    hide ParseFrame, FromMethod, EncodeHeaders;
    assert Encode(r)[..4] == MAGIC && Encode(r)[4..] == FromMethod(r);
    if Fits(r) {
      FrameRoundTrip(r);
    }
    if Decode(Encode(r)) == Ok(Deliver(r)) {
      AcceptedIsBounded(Encode(r));
      CollectDistinct(r.headers);
      forall i | 0 <= i < |r.headers| ensures |r.headers[i].key| <= 0xffff && |r.headers[i].value| <= MAX_BODY {
        assert r.headers[i].value in Collect(r.headers)[r.headers[i].key];
      }
    }
  }

  lemma HeaderExtends(s: Bytes, more: Bytes)
    requires ParseHeader(s).Done?
    ensures ParseHeader(s + more) == Done(ParseHeader(s).value, ParseHeader(s).rest + more)
  {
    hide ParseField;
    FieldExtends(s, 2, U32_MAX, more);
    FieldExtends(ParseField(s, 2, U32_MAX).rest, 4, MAX_BODY, more);
  }

  lemma {:induction false} HeadersExtend(s: Bytes, count: nat, acc: seq<Header>, more: Bytes)
    requires ParseHeaders(s, count, acc).Done?
    ensures ParseHeaders(s + more, count, acc)
         == Done(ParseHeaders(s, count, acc).value, ParseHeaders(s, count, acc).rest + more)
    decreases count
  {
    if count > 0 {
      hide ParseHeader;
      HeaderExtends(s, more);
      HeadersExtend(ParseHeader(s).rest, count - 1, acc + [ParseHeader(s).value], more);
    }
  }

  lemma FrameExtends(s: Bytes, more: Bytes)
    requires ParseFrame(s).Done?
    ensures ParseFrame(s + more) == Done(ParseFrame(s).value, ParseFrame(s).rest + more)
  {
    hide ParseField, ParseUint, ParseHeaders;
    var m := ParseField(s, 2, U32_MAX);
    FieldExtends(s, 2, U32_MAX, more);
    var url := ParseField(m.rest, 4, MAX_BODY);
    FieldExtends(m.rest, 4, MAX_BODY, more);
    var count := ParseUint(url.rest, 2);
    UintExtends(url.rest, 2, more);
    var headers := ParseHeaders(count.rest, count.value, []);
    HeadersExtend(count.rest, count.value, [], more);
    FieldExtends(headers.rest, 4, MAX_BODY, more);
  }

  /** Accepted frames are prefix-free: every extension is refused as trailing data. */
  lemma ExtensionRejected(data: Bytes, more: Bytes)
    requires Decode(data).Ok? && more != []
    ensures Decode(data + more) == Err(TrailingData)
  {
    hide ParseFrame;
    FrameExtends(data[4..], more);
    assert (data + more)[..4] == data[..4];
    assert (data + more)[4..] == data[4..] + more;
    assert [] + more == more;
  }

  /** ... and therefore every proper prefix of an accepted frame is refused too. */
  lemma ProperPrefixRejected(data: Bytes, length: nat)
    requires Decode(data).Ok? && length < |data|
    ensures Decode(data[..length]).Err?
  {
    hide Decode;
    assert data == data[..length] + data[length..];
    if Decode(data[..length]).Ok? {
      ExtensionRejected(data[..length], data[length..]);
    }
  }

  /** Two requests that fit never share an encoding, and neither encoding starts the other. */
  lemma EncodingIsInjective(a: Request, b: Request)
    requires Fits(a) && Fits(b) && Encode(a) <= Encode(b)
    ensures a == b
  {
    FrameRoundTrip(a);
    FrameRoundTrip(b);
    CancelPrefix(MAGIC, FromMethod(a), FromMethod(b));
    hide *;
    FrameExtends(FromMethod(a), FromMethod(b)[|FromMethod(a)|..]);
    assert FromMethod(b) == FromMethod(a) + FromMethod(b)[|FromMethod(a)|..];
  }

  lemma CancelPrefix(head: Bytes, a: Bytes, b: Bytes)
    requires head + a <= head + b
    ensures a <= b
  {
    assert (head + a)[|head|..] == a && (head + b)[|head|..] == b;
  }
}
