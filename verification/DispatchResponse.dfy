/** Response frames: written by the Go relay, read by the TypeScript client. */
module DispatchResponse {
  import opened Prelude
  import opened Wire

  const U16_MAX: nat := 0xffff
  const U32_MAX: nat := 0xffff_ffff
  const MAGIC: Bytes := [0x4c, 0x44, 0x52, 0x31]

  /** Go's `int64`. */
  type int64 = n: int | -0x8000_0000_0000_0000 <= n < 0x8000_0000_0000_0000

  /** One entry of an `http.Header`, as the relay's `range` loop meets it. */
  datatype Header = Header(key: Bytes, values: seq<Bytes>)

  /** `headers` lists the map in whatever order Go happens to iterate it. */
  datatype Response = Response(status: int, tookNs: int64, prepNs: int64, headers: seq<Header>, body: Bytes)

  datatype Received = Received(
    status: nat, upstreamNs: nat, goPrepNs: nat, headers: map<Bytes, seq<Bytes>>, body: Bytes)

  datatype EncodeError = FieldOutOfRange | StringTooLarge | TooManyValues | ByteFieldTooLarge
  datatype Encoded = Frame(bytes: Bytes) | Refused(error: EncodeError)

  function LowerByte(b: byte): byte { if 0x41 <= b <= 0x5a then b + 0x20 else b }

  /** `strings.ToLower` on an ASCII header name. */
  function ToLower(key: Bytes): (r: Bytes)
    ensures |r| == |key|
  {
    seq(|key|, i requires 0 <= i < |key| => LowerByte(key[i]))
  }

  // ----- the format -----

  function EncodeValues(values: seq<Bytes>, tail: Bytes): Bytes {
    if values == [] then tail else EncodeField(values[0], 4) + EncodeValues(values[1..], tail)
  }

  function EncodeHeader(h: Header, tail: Bytes): Bytes {
    EncodeField(ToLower(h.key), 2) + (BigEndian(|h.values|, 2) + EncodeValues(h.values, tail))
  }

  function EncodeHeaders(headers: seq<Header>, tail: Bytes): Bytes {
    if headers == [] then tail else EncodeHeader(headers[0], EncodeHeaders(headers[1..], tail))
  }

  function FromStatus(r: Response): Bytes
    requires InRange(r)
  {
    BigEndian(r.status, 2) + FromTook(r)
  }

  function FromTook(r: Response): Bytes
    requires InRange(r)
  {
    BigEndian(r.tookNs, 8) + FromPrep(r)
  }

  function FromPrep(r: Response): Bytes
    requires InRange(r)
  {
    BigEndian(r.prepNs, 8) + FromCount(r)
  }

  function FromCount(r: Response): Bytes { BigEndian(|r.headers|, 2) + FromHeaders(r) }

  function FromHeaders(r: Response): Bytes { EncodeHeaders(r.headers, EncodeField(r.body, 4)) }

  // ----- the relay's checks, in the order it makes them -----

  predicate InRange(r: Response) {
    0 <= r.status <= U16_MAX && 0 <= r.tookNs && 0 <= r.prepNs && |r.headers| <= U16_MAX
  }

  function ValuesError(values: seq<Bytes>): Option<EncodeError> {
    if values == [] then None
    else if |values[0]| > U32_MAX then Some(ByteFieldTooLarge)
    else ValuesError(values[1..])
  }

  function HeadersError(headers: seq<Header>): Option<EncodeError> {
    if headers == [] then None
    else if |headers[0].key| > U16_MAX then Some(StringTooLarge)
    else if |headers[0].values| > U16_MAX then Some(TooManyValues)
    else if ValuesError(headers[0].values).Some? then ValuesError(headers[0].values)
    else HeadersError(headers[1..])
  }

  function Encode(r: Response): Encoded {
    if !InRange(r) then Refused(FieldOutOfRange)
    else if HeadersError(r.headers).Some? then Refused(HeadersError(r.headers).value)
    else if |r.body| > U32_MAX then Refused(ByteFieldTooLarge)
    else Frame(MAGIC + FromStatus(r))
  }

  /** Every field within what its prefix can carry. */
  ghost predicate Fits(r: Response) {
    && InRange(r) && |r.body| <= U32_MAX
    && forall i :: 0 <= i < |r.headers| ==> HeaderFits(r.headers[i])
  }

  ghost predicate HeaderFits(h: Header) {
    |h.key| <= U16_MAX && |h.values| <= U16_MAX && forall i :: 0 <= i < |h.values| ==> |h.values[i]| <= U32_MAX
  }

  // ----- the client's parser -----

  /** `values.push(string(u32()))`, `count` times. */
  function ParseValues(s: Bytes, count: nat, acc: seq<Bytes>): Parsed<seq<Bytes>>
    decreases count
  {
    if count == 0 then Done(acc, s)
    else
      match ParseField(s, 4, U32_MAX)
      case Fail(e) => Fail(e)
      case Done(v, rest) => ParseValues(rest, count - 1, acc + [v])
  }

  function ParseHeader(s: Bytes): Parsed<Header> {
    match ParseField(s, 2, U32_MAX)
    case Fail(e) => Fail(e)
    case Done(key, s1) =>
      match ParseUint(s1, 2)
      case Fail(e) => Fail(e)
      case Done(count, s2) =>
        match ParseValues(s2, count, [])
        case Fail(e) => Fail(e)
        case Done(values, s3) => Done(Header(key, values), s3)
  }

  /** `headers[key] = values`, header by header: a repeated key keeps its last values. */
  function ParseHeaders(s: Bytes, count: nat, acc: map<Bytes, seq<Bytes>>): Parsed<map<Bytes, seq<Bytes>>>
    decreases count
  {
    if count == 0 then Done(acc, s)
    else
      match ParseHeader(s)
      case Fail(e) => Fail(e)
      case Done(h, rest) => ParseHeaders(rest, count - 1, acc[h.key := h.values])
  }

  function ParseFrame(s: Bytes): Parsed<Received> {
    match ParseUint(s, 2)
    case Fail(e) => Fail(e)
    case Done(status, s1) =>
      match ParseUint(s1, 8)
      case Fail(e) => Fail(e)
      case Done(upstreamNs, s2) =>
        match ParseUint(s2, 8)
        case Fail(e) => Fail(e)
        case Done(goPrepNs, s3) =>
          match ParseUint(s3, 2)
          case Fail(e) => Fail(e)
          case Done(count, s4) =>
            match ParseHeaders(s4, count, map[])
            case Fail(e) => Fail(e)
            case Done(headers, s5) =>
              match ParseField(s5, 4, U32_MAX)
              case Fail(e) => Fail(e)
              case Done(body, s6) => Done(Received(status, upstreamNs, goPrepNs, headers, body), s6)
  }

  function Decode(data: Bytes): Result<Received> {
    if |data| < 4 then Err(Truncated)
    else if data[..4] != MAGIC then Err(BadMagic)
    else
      match ParseFrame(data[4..])
      case Fail(e) => Err(e)
      case Done(r, rest) => if rest == [] then Ok(r) else Err(TrailingData)
  }

  // ----- the two programs -----

  /** The relay's writer: a growing buffer, refusing the first field it cannot carry. */
  method EncodeBinaryDispatchResponse(r: Response) returns (e: Encoded)
    ensures e == Encode(r)
  {
    hide BigEndian, EncodeHeaders, EncodeField, HeadersError;
    if !InRange(r) {
      return Refused(FieldOutOfRange);
    }
    var out := MAGIC;
    Append(out, BigEndian(r.status, 2), FromTook(r));
    out := out + BigEndian(r.status, 2);
    Append(out, BigEndian(r.tookNs, 8), FromPrep(r));
    out := out + BigEndian(r.tookNs, 8);
    Append(out, BigEndian(r.prepNs, 8), FromCount(r));
    out := out + BigEndian(r.prepNs, 8);
    Append(out, BigEndian(|r.headers|, 2), FromHeaders(r));
    out := out + BigEndian(|r.headers|, 2);
    e := WriteHeaders(out, r.headers, EncodeField(r.body, 4));
    if e.Refused? {
      return;
    }
    if |r.body| > U32_MAX {
      return Refused(ByteFieldTooLarge);
    }
    e := Frame(e.bytes + EncodeField(r.body, 4));
  }

  /** The buffer followed by what is still to come, before and after one write. */
  lemma Append(out: Bytes, part: Bytes, remaining: Bytes)
    ensures (out + part) + remaining == out + (part + remaining)
  {
  }

  method WriteHeaders(start: Bytes, headers: seq<Header>, ghost tail: Bytes) returns (e: Encoded)
    ensures HeadersError(headers).Some? ==> e == Refused(HeadersError(headers).value)
    ensures HeadersError(headers).None? ==> e.Frame? && e.bytes + tail == start + EncodeHeaders(headers, tail)
  {
    hide BigEndian, EncodeField, EncodeValues, ValuesError;
    var out := start;
    for i := 0 to |headers|
      invariant HeadersError(headers[i..]) == HeadersError(headers)
      invariant out + EncodeHeaders(headers[i..], tail) == start + EncodeHeaders(headers, tail)
    {
      var h := headers[i];
      assert headers[i..][1..] == headers[i + 1..];
      if |h.key| > U16_MAX {
        return Refused(StringTooLarge);
      }
      if |h.values| > U16_MAX {
        return Refused(TooManyValues);
      }
      ghost var rest := EncodeHeaders(headers[i + 1..], tail);
      Append(out, EncodeField(ToLower(h.key), 2), BigEndian(|h.values|, 2) + EncodeValues(h.values, rest));
      out := out + EncodeField(ToLower(h.key), 2);
      Append(out, BigEndian(|h.values|, 2), EncodeValues(h.values, rest));
      out := out + BigEndian(|h.values|, 2);
      e := WriteValues(out, h.values, rest);
      if e.Refused? {
        return;
      }
      out := e.bytes;
    }
    e := Frame(out);
  }

  method WriteValues(start: Bytes, values: seq<Bytes>, ghost tail: Bytes) returns (e: Encoded)
    ensures ValuesError(values).Some? ==> e == Refused(ValuesError(values).value)
    ensures ValuesError(values).None? ==> e.Frame? && e.bytes + tail == start + EncodeValues(values, tail)
  {
    hide EncodeField;
    var out := start;
    for i := 0 to |values|
      invariant ValuesError(values[i..]) == ValuesError(values)
      invariant out + EncodeValues(values[i..], tail) == start + EncodeValues(values, tail)
    {
      assert values[i..][1..] == values[i + 1..];
      if |values[i]| > U32_MAX {
        return Refused(ByteFieldTooLarge);
      }
      Append(out, EncodeField(values[i], 4), EncodeValues(values[i + 1..], tail));
      out := out + EncodeField(values[i], 4);
    }
    e := Frame(out);
  }

  /** The client's reader. */
  method DecodeDispatchResponse(data: Bytes) returns (r: Result<Received>)
    ensures r == Decode(data)
  {
    hide ParseUint, ParseField, ParseHeaders, ByteReader.Rest, ByteReader.Valid;
    var reader := new ByteReader(data);
    var magic := reader.ReadBytes(4);
    if magic.Err? {
      return Err(magic.error);
    }
    if magic.value != MAGIC {
      return Err(BadMagic);
    }
    var status := reader.ReadUint(2);
    if status.Err? {
      return Err(status.error);
    }
    var upstreamNs := reader.ReadUint(8);
    if upstreamNs.Err? {
      return Err(upstreamNs.error);
    }
    var goPrepNs := reader.ReadUint(8);
    if goPrepNs.Err? {
      return Err(goPrepNs.error);
    }
    var count := reader.ReadUint(2);
    if count.Err? {
      return Err(count.error);
    }
    var headers := ReadHeaders(reader, count.value);
    if headers.Err? {
      return Err(headers.error);
    }
    var body := reader.ReadField(4, U32_MAX);
    if body.Err? {
      return Err(body.error);
    }
    var end := reader.AtEnd();
    if !end {
      return Err(TrailingData);
    }
    r := Ok(Received(status.value, upstreamNs.value, goPrepNs.value, headers.value, body.value));
  }

  method ReadHeaders(reader: ByteReader, count: nat) returns (r: Result<map<Bytes, seq<Bytes>>>)
    requires reader.Valid()
    modifies reader
    ensures reader.Valid()
    ensures match ParseHeaders(old(reader.Rest()), count, map[])
            case Fail(e) => r == Err(e)
            case Done(hs, rest) => r == Ok(hs) && reader.Rest() == rest
  {
    hide ParseUint, ParseField, ParseValues, ByteReader.Rest, ByteReader.Valid;
    var headers: map<Bytes, seq<Bytes>> := map[];
    for i := 0 to count
      invariant reader.Valid()
      invariant ParseHeaders(old(reader.Rest()), count, map[]) == ParseHeaders(reader.Rest(), count - i, headers)
    {
      var key := reader.ReadField(2, U32_MAX);
      if key.Err? {
        return Err(key.error);
      }
      var valueCount := reader.ReadUint(2);
      if valueCount.Err? {
        return Err(valueCount.error);
      }
      var values := ReadValues(reader, valueCount.value);
      if values.Err? {
        return Err(values.error);
      }
      headers := headers[key.value := values.value];
    }
    r := Ok(headers);
  }

  method ReadValues(reader: ByteReader, count: nat) returns (r: Result<seq<Bytes>>)
    requires reader.Valid()
    modifies reader
    ensures reader.Valid()
    ensures match ParseValues(old(reader.Rest()), count, [])
            case Fail(e) => r == Err(e)
            case Done(vs, rest) => r == Ok(vs) && reader.Rest() == rest
  {
    hide ParseField, ByteReader.Rest, ByteReader.Valid;
    var values: seq<Bytes> := [];
    for i := 0 to count
      invariant reader.Valid()
      invariant ParseValues(old(reader.Rest()), count, []) == ParseValues(reader.Rest(), count - i, values)
    {
      var v := reader.ReadField(4, U32_MAX);
      if v.Err? {
        return Err(v.error);
      }
      values := values + [v.value];
    }
    r := Ok(values);
  }

  lemma {:induction false} HeaderLayout(headers: seq<Header>, tail: Bytes)
    requires |headers| == 1 && |headers[0].values| == 1
    ensures var h := headers[0];
            EncodeHeaders(headers, tail)
            == (BigEndian(|h.key|, 2) + ToLower(h.key)) + (BigEndian(1, 2) + ((BigEndian(|h.values[0]|, 4) + h.values[0]) + tail))
  {
    var h := headers[0];
    hide BigEndian, ToLower;
    assert EncodeValues(h.values[1..], tail) == tail && EncodeHeaders(headers[1..], tail) == tail;
  }

  /** Where each part of a frame stands. */
  lemma FrameLayout(r: Response)
    requires Encode(r).Frame? && |r.headers| == 1 && |r.headers[0].values| == 1
    ensures var h := r.headers[0];
            Encode(r).bytes == [0x4c, 0x44, 0x52, 0x31]
                               + BigEndian(r.status, 2) + BigEndian(r.tookNs, 8) + BigEndian(r.prepNs, 8)
                               + BigEndian(1, 2)
                               + (BigEndian(|h.key|, 2) + ToLower(h.key))
                               + BigEndian(1, 2) + (BigEndian(|h.values[0]|, 4) + h.values[0])
                               + (BigEndian(|r.body|, 4) + r.body)
  {
    var h := r.headers[0];
    HeaderLayout(r.headers, EncodeField(r.body, 4));
    hide BigEndian, ToLower, EncodeHeaders;
  }

  // ----- what the pair guarantees -----

  lemma {:induction false} ValuesErrorIsExact(values: seq<Bytes>)
    ensures ValuesError(values).None? <==> forall i :: 0 <= i < |values| ==> |values[i]| <= U32_MAX
  {
    if values != [] {
      ValuesErrorIsExact(values[1..]);
    }
  }

  lemma {:induction false} HeadersErrorIsExact(headers: seq<Header>)
    ensures HeadersError(headers).None? <==> forall i :: 0 <= i < |headers| ==> HeaderFits(headers[i])
  {
    if headers != [] {
      ValuesErrorIsExact(headers[0].values);
      HeadersErrorIsExact(headers[1..]);
      assert HeadersError(headers).None? <==> HeaderFits(headers[0]) && HeadersError(headers[1..]).None?;
      assert forall i :: 1 <= i < |headers| ==> headers[i] == headers[1..][i - 1];
    }
  }

  /** The relay emits a frame exactly when every field fits; otherwise it says so. */
  lemma EncodesExactlyWhatFits(r: Response)
    ensures Encode(r).Frame? <==> Fits(r)
  {
    HeadersErrorIsExact(r.headers);
  }

  lemma {:induction false} ValuesRoundTrip(values: seq<Bytes>, tail: Bytes, acc: seq<Bytes>)
    requires forall i :: 0 <= i < |values| ==> |values[i]| <= U32_MAX
    ensures ParseValues(EncodeValues(values, tail), |values|, acc) == Done(acc + values, tail)
  {
    if values == [] {
      AppendNothing(acc);
    } else {
      Capacities();
      hide ParseField, EncodeField;
      FieldRoundTrip(values[0], 4, U32_MAX, EncodeValues(values[1..], tail));
      ValuesRoundTrip(values[1..], tail, acc + [values[0]]);
      MoveHead(acc, values);
    }
  }

  lemma HeaderRoundTrip(h: Header, tail: Bytes)
    requires HeaderFits(h)
    ensures ParseHeader(EncodeHeader(h, tail)) == Done(Header(ToLower(h.key), h.values), tail)
  {
    Capacities();
    hide ParseField, EncodeField, ParseUint, BigEndian, ParseValues, EncodeValues;
    var values := EncodeValues(h.values, tail);
    FieldRoundTrip(ToLower(h.key), 2, U32_MAX, BigEndian(|h.values|, 2) + values);
    UintRoundTrip(|h.values|, 2, values);
    ValuesRoundTrip(h.values, tail, []);
    assert [] + h.values == h.values;
  }

  /** What the client's record ends up holding: lower-cased names, the last writer winning. */
  function Deliver(headers: seq<Header>, acc: map<Bytes, seq<Bytes>>): map<Bytes, seq<Bytes>> {
    if headers == [] then acc
    else Deliver(headers[1..], acc[ToLower(headers[0].key) := headers[0].values])
  }

  lemma {:induction false} HeadersRoundTrip(headers: seq<Header>, tail: Bytes, acc: map<Bytes, seq<Bytes>>)
    requires forall i :: 0 <= i < |headers| ==> HeaderFits(headers[i])
    ensures ParseHeaders(EncodeHeaders(headers, tail), |headers|, acc) == Done(Deliver(headers, acc), tail)
  {
    if headers != [] {
      hide ParseHeader, EncodeHeader;
      HeaderRoundTrip(headers[0], EncodeHeaders(headers[1..], tail));
      HeadersRoundTrip(headers[1..], tail, acc[ToLower(headers[0].key) := headers[0].values]);
    }
  }

  /** Main result: whatever the relay frames, the client reads back, for any map iteration order. */
  lemma ResponseRoundTrip(r: Response)
    requires Encode(r).Frame?
    ensures Decode(Encode(r).bytes)
         == Ok(Received(r.status, r.tookNs, r.prepNs, Deliver(r.headers, map[]), r.body))
  {
    EncodesExactlyWhatFits(r);
    assert Encode(r).bytes[..4] == MAGIC && Encode(r).bytes[4..] == FromStatus(r);
    Capacities();
    hide ParseField, ParseUint, EncodeField, BigEndian, ParseHeaders, EncodeHeaders;
    UintRoundTrip(r.status, 2, FromTook(r));
    UintRoundTrip(r.tookNs, 8, FromPrep(r));
    UintRoundTrip(r.prepNs, 8, FromCount(r));
    UintRoundTrip(|r.headers|, 2, FromHeaders(r));
    HeadersRoundTrip(r.headers, EncodeField(r.body, 4), map[]);
    FieldRoundTrip(r.body, 4, U32_MAX, []);
    assert EncodeField(r.body, 4) + [] == EncodeField(r.body, 4);
  }

  /** Header `i` is one of those named `k`, and the client holds its values. */
  ghost predicate HoldsValuesOf(headers: seq<Header>, m: map<Bytes, seq<Bytes>>, k: Bytes, i: nat)
    requires i < |headers|
  {
    ToLower(headers[i].key) == k && k in m && m[k] == headers[i].values
  }

  /** A delivered name holds the values of some header with that name, or what was there before. */
  lemma {:induction false} DeliverKeeps(headers: seq<Header>, acc: map<Bytes, seq<Bytes>>, k: Bytes)
    ensures || (exists i :: 0 <= i < |headers| && HoldsValuesOf(headers, Deliver(headers, acc), k, i))
            || ((forall i :: 0 <= i < |headers| ==> ToLower(headers[i].key) != k)
                && (k in Deliver(headers, acc) <==> k in acc)
                && (k in acc ==> Deliver(headers, acc)[k] == acc[k]))
  {
    if headers != [] {
      var acc' := acc[ToLower(headers[0].key) := headers[0].values];
      DeliverKeeps(headers[1..], acc', k);
      var m := Deliver(headers, acc);
      assert m == Deliver(headers[1..], acc');
      hide Deliver, ToLower;
      assert forall i :: 0 <= i < |headers[1..]| ==> headers[1..][i] == headers[i + 1];
      if i :| 0 <= i < |headers[1..]| && HoldsValuesOf(headers[1..], m, k, i) {
        assert HoldsValuesOf(headers, m, k, i + 1);
      } else if ToLower(headers[0].key) == k {
        assert HoldsValuesOf(headers, Deliver(headers, acc), k, 0);
      } else {
        assert forall i :: 1 <= i < |headers| ==> ToLower(headers[i].key) == ToLower(headers[1..][i - 1].key);
      }
    }
  }

  /** Every header's values are what the client holds under its lower-cased name. */
  ghost predicate AllHeld(headers: seq<Header>, m: map<Bytes, seq<Bytes>>) {
    forall i :: 0 <= i < |headers| ==> HoldsValuesOf(headers, m, ToLower(headers[i].key), i)
  }

  /** Headers that agree up to case agree on their values. */
  ghost predicate CasesAgree(headers: seq<Header>) {
    forall i, j :: 0 <= i < |headers| && 0 <= j < |headers| && ToLower(headers[i].key) == ToLower(headers[j].key) ==>
      headers[i].values == headers[j].values
  }

  /** Some header of each name is held, because the last one written is. */
  lemma NameIsHeld(headers: seq<Header>, i: nat) returns (j: nat)
    requires i < |headers|
    ensures j < |headers| && HoldsValuesOf(headers, Deliver(headers, map[]), ToLower(headers[i].key), j)
  {
    DeliverKeeps(headers, map[], ToLower(headers[i].key));
    hide Deliver, ToLower, HoldsValuesOf;
    j :| 0 <= j < |headers| && HoldsValuesOf(headers, Deliver(headers, map[]), ToLower(headers[i].key), j);
  }

  lemma AllHeldMeansAgree(headers: seq<Header>, m: map<Bytes, seq<Bytes>>)
    requires AllHeld(headers, m)
    ensures CasesAgree(headers)
  {
    hide ToLower;
    forall i, j | 0 <= i < |headers| && 0 <= j < |headers| && ToLower(headers[i].key) == ToLower(headers[j].key)
      ensures headers[i].values == headers[j].values
    {
      assert HoldsValuesOf(headers, m, ToLower(headers[i].key), i);
      assert HoldsValuesOf(headers, m, ToLower(headers[j].key), j);
    }
  }

  /** No header value is lost on the way exactly when headers that agree up to case agree on their values. */
  lemma {:induction false} NoHeaderLost(headers: seq<Header>)
    ensures AllHeld(headers, Deliver(headers, map[])) <==> CasesAgree(headers)
  {
    var m := Deliver(headers, map[]);
    if AllHeld(headers, m) {
      AllHeldMeansAgree(headers, m);
    }
    hide Deliver, ToLower;
    if CasesAgree(headers) {
      forall i | 0 <= i < |headers| ensures HoldsValuesOf(headers, m, ToLower(headers[i].key), i) {
        var j := NameIsHeld(headers, i);
      }
    }
  }

  /** `low` is `key` with its capital letters, and nothing else, made small. */
  ghost predicate IsLowered(key: Bytes, low: Bytes) {
    && |low| == |key|
    && forall i :: 0 <= i < |key| ==>
         && !(0x41 <= low[i] <= 0x5a)
         && low[i] == if 0x41 <= key[i] <= 0x5a then key[i] + (0x61 - 0x41) else key[i]
  }

  lemma ToLowerIsLowered(key: Bytes, low: Bytes)
    ensures IsLowered(key, low) <==> low == ToLower(key)
  {
  }

  /**
   * Every name the client holds is the small-letter spelling of a header's name, with some such header's
   * values; and every header's name is held in that spelling.
   */
  lemma {:induction false} DeliveredNamesAreLowered(headers: seq<Header>, k: Bytes)
    ensures var m := Deliver(headers, map[]);
            k in m <==> exists i :: 0 <= i < |headers| && IsLowered(headers[i].key, k)
    ensures var m := Deliver(headers, map[]);
            k in m ==> exists i :: 0 <= i < |headers| && IsLowered(headers[i].key, k) && headers[i].values == m[k]
  {
    DeliverKeeps(headers, map[], k);
    forall i | 0 <= i < |headers| ensures IsLowered(headers[i].key, k) <==> k == ToLower(headers[i].key) {
      ToLowerIsLowered(headers[i].key, k);
    }
    hide Deliver, ToLower, IsLowered;
  }

  /** The start of a name and of each part behind a hyphen takes a capital; no other place does. */
  predicate TakesCapital(key: Bytes, i: nat)
    requires i < |key|
  {
    i == 0 || key[i - 1] == 0x2d
  }

  /** `net/http`'s spelling of a name. */
  predicate IsCanonical(key: Bytes) {
    forall i :: 0 <= i < |key| ==>
      if TakesCapital(key, i) then !(0x61 <= key[i] <= 0x7a) else !(0x41 <= key[i] <= 0x5a)
  }

  /** Canonical names that agree up to case are the same name. */
  lemma {:induction false} CanonicalNamesAgree(a: Bytes, b: Bytes, n: nat)
    requires IsCanonical(a) && IsCanonical(b) && ToLower(a) == ToLower(b) && n <= |a|
    ensures |a| == |b| && a[..n] == b[..n]
  {
    assert |a| == |ToLower(a)| == |ToLower(b)| == |b|;
    if n > 0 {
      CanonicalNamesAgree(a, b, n - 1);
      assert TakesCapital(a, n - 1) == TakesCapital(b, n - 1) by {
        assert n >= 2 ==> a[n - 2] == a[..n - 1][n - 2] && b[n - 2] == b[..n - 1][n - 2];
      }
      assert LowerByte(a[n - 1]) == ToLower(a)[n - 1] == ToLower(b)[n - 1] == LowerByte(b[n - 1]);
      assert a[..n] == a[..n - 1] + [a[n - 1]] && b[..n] == b[..n - 1] + [b[n - 1]];
    }
  }

  /** What `net/http` hands the relay, canonical names each once, always arrives whole. */
  lemma {:induction false} CanonicalHeadersAllArrive(headers: seq<Header>)
    requires forall i :: 0 <= i < |headers| ==> IsCanonical(headers[i].key)
    requires forall i, j :: 0 <= i < j < |headers| ==> headers[i].key != headers[j].key
    ensures AllHeld(headers, Deliver(headers, map[]))
  {
    forall i, j | 0 <= i < |headers| && 0 <= j < |headers| && ToLower(headers[i].key) == ToLower(headers[j].key)
      ensures headers[i].values == headers[j].values
    {
      var a, b := headers[i].key, headers[j].key;
      CanonicalNamesAgree(a, b, |a|);
      assert a[..|a|] == a && b[..|b|] == b;
    }
    NoHeaderLost(headers);
    hide ToLower, IsCanonical, Deliver;
  }

  // ----- one frame, one response -----

  /** The same names up to case, with the same values, in the same order. */
  ghost predicate SameHeaders(a: seq<Header>, b: seq<Header>) {
    |a| == |b| && forall i :: 0 <= i < |a| ==> ToLower(a[i].key) == ToLower(b[i].key) && a[i].values == b[i].values
  }

  lemma {:induction false} HeadersCancel(a: seq<Header>, atail: Bytes, b: seq<Header>, btail: Bytes)
    requires |a| == |b| && EncodeHeaders(a, atail) == EncodeHeaders(b, btail)
    requires forall i :: 0 <= i < |a| ==> HeaderFits(a[i]) && HeaderFits(b[i])
    ensures SameHeaders(a, b) && atail == btail
  {
    if a != [] {
      hide ParseHeader, EncodeHeader, HeaderFits, ToLower;
      HeaderRoundTrip(a[0], EncodeHeaders(a[1..], atail));
      HeaderRoundTrip(b[0], EncodeHeaders(b[1..], btail));
      HeadersCancel(a[1..], atail, b[1..], btail);
      assert forall i :: 0 < i < |a| ==> a[i] == a[1..][i - 1] && b[i] == b[1..][i - 1];
    }
  }

  lemma {:induction false} UintCancels(a: nat, b: nat, width: nat, arest: Bytes, brest: Bytes)
    requires a < Capacity(width) && b < Capacity(width)
    requires BigEndian(a, width) + arest == BigEndian(b, width) + brest
    ensures a == b && arest == brest
  {
    UintRoundTrip(a, width, arest);
    UintRoundTrip(b, width, brest);
    hide ParseUint, BigEndian;
  }

  lemma FrameCancels(a: Response, b: Response)
    requires Fits(a) && Fits(b) && FromStatus(a) == FromStatus(b)
    ensures a.status == b.status && a.tookNs == b.tookNs && a.prepNs == b.prepNs
    ensures |a.headers| == |b.headers| && FromHeaders(a) == FromHeaders(b)
  {
    Capacities();
    hide BigEndian, FromHeaders;
    UintCancels(a.status, b.status, 2, FromTook(a), FromTook(b));
    UintCancels(a.tookNs, b.tookNs, 8, FromPrep(a), FromPrep(b));
    UintCancels(a.prepNs, b.prepNs, 8, FromCount(a), FromCount(b));
    UintCancels(|a.headers|, |b.headers|, 2, FromHeaders(a), FromHeaders(b));
  }

  lemma BodyCancels(a: Bytes, b: Bytes)
    requires |a| <= U32_MAX && |b| <= U32_MAX && EncodeField(a, 4) == EncodeField(b, 4)
    ensures a == b
  {
    Capacities();
    hide ParseField, EncodeField;
    FieldRoundTrip(a, 4, U32_MAX, []);
    FieldRoundTrip(b, 4, U32_MAX, []);
    AppendNothing(EncodeField(a, 4));
    AppendNothing(EncodeField(b, 4));
  }

  /** A frame that starts another is that frame, and says the same response up to the case of names. */
  lemma FramesAreDistinct(a: Response, b: Response)
    requires Encode(a).Frame? && Encode(b).Frame? && Encode(a).bytes <= Encode(b).bytes
    ensures a.status == b.status && a.tookNs == b.tookNs && a.prepNs == b.prepNs && a.body == b.body
    ensures SameHeaders(a.headers, b.headers)
  {
    ResponseRoundTrip(a);
    ResponseRoundTrip(b);
    var x, y := Encode(a).bytes, Encode(b).bytes;
    PrefixIsWhole(x, y);
    EncodesExactlyWhatFits(a);
    EncodesExactlyWhatFits(b);
    assert x[4..] == FromStatus(a) && y[4..] == FromStatus(b);
    FrameCancels(a, b);
    hide Decode, EncodeHeaders, EncodeField, FromStatus, HeadersError, SameHeaders, HeaderFits;
    HeadersCancel(a.headers, EncodeField(a.body, 4), b.headers, EncodeField(b.body, 4));
    BodyCancels(a.body, b.body);
  }

  lemma PrefixIsWhole(x: Bytes, y: Bytes)
    requires x <= y && Decode(x).Ok? && Decode(y).Ok?
    ensures x == y
  {
    hide Decode;
    assert y[..|x|] == x && x == y[..|x|];
    if |x| < |y| {
      ProperPrefixRejected(y, |x|);
    }
  }

  lemma {:induction false} ValuesExtend(s: Bytes, count: nat, acc: seq<Bytes>, more: Bytes)
    requires ParseValues(s, count, acc).Done?
    ensures ParseValues(s + more, count, acc)
         == Done(ParseValues(s, count, acc).value, ParseValues(s, count, acc).rest + more)
    decreases count
  {
    if count > 0 {
      hide ParseField;
      var v := ParseField(s, 4, U32_MAX);
      FieldExtends(s, 4, U32_MAX, more);
      ValuesExtend(v.rest, count - 1, acc + [v.value], more);
    }
  }

  lemma HeaderExtends(s: Bytes, more: Bytes)
    requires ParseHeader(s).Done?
    ensures ParseHeader(s + more) == Done(ParseHeader(s).value, ParseHeader(s).rest + more)
  {
    hide ParseField, ParseUint, ParseValues;
    var key := ParseField(s, 2, U32_MAX);
    FieldExtends(s, 2, U32_MAX, more);
    var n := ParseUint(key.rest, 2);
    UintExtends(key.rest, 2, more);
    ValuesExtend(n.rest, n.value, [], more);
  }

  lemma {:induction false} HeadersExtend(s: Bytes, count: nat, acc: map<Bytes, seq<Bytes>>, more: Bytes)
    requires ParseHeaders(s, count, acc).Done?
    ensures ParseHeaders(s + more, count, acc)
         == Done(ParseHeaders(s, count, acc).value, ParseHeaders(s, count, acc).rest + more)
    decreases count
  {
    if count > 0 {
      HeaderExtends(s, more);
      var h := ParseHeader(s);
      hide ParseHeader;
      HeadersExtend(h.rest, count - 1, acc[h.value.key := h.value.values], more);
    }
  }

  lemma FrameExtends(s: Bytes, more: Bytes)
    requires ParseFrame(s).Done?
    ensures ParseFrame(s + more) == Done(ParseFrame(s).value, ParseFrame(s).rest + more)
  {
    hide ParseField, ParseUint, ParseHeaders;
    var s1 := ParseUint(s, 2).rest;
    UintExtends(s, 2, more);
    var s2 := ParseUint(s1, 8).rest;
    UintExtends(s1, 8, more);
    var s3 := ParseUint(s2, 8).rest;
    UintExtends(s2, 8, more);
    var count := ParseUint(s3, 2);
    UintExtends(s3, 2, more);
    HeadersExtend(count.rest, count.value, map[], more);
    FieldExtends(ParseHeaders(count.rest, count.value, map[]).rest, 4, U32_MAX, more);
  }

  /** Accepted frames are prefix-free: every extension is refused as trailing data. */
  lemma ExtensionRejected(data: Bytes, more: Bytes)
    requires Decode(data).Ok? && more != []
    ensures Decode(data + more) == Err(TrailingData)
  {
    hide ParseFrame;
    FrameExtends(data[4..], more);
    assert (data + more)[..4] == data[..4];
    assert (data + more)[4..] == data[4..] + more;
    assert [] + more == more;
  }

  /** ... and therefore every proper prefix of an accepted frame is refused too. */
  lemma ProperPrefixRejected(data: Bytes, length: nat)
    requires Decode(data).Ok? && length < |data|
    ensures Decode(data[..length]).Err?
  {
    hide Decode;
    assert data == data[..length] + data[length..];
    if Decode(data[..length]).Ok? {
      ExtensionRejected(data[..length], data[length..]);
    }
  }

  // ----- the Content-Length header -----

  function Digit(d: nat): char
    requires d < 10
  {
    ('0' as int + d) as char
  }

  /** Decimal text of a positive number, without leading zeros. */
  function DigitsOf(v: nat): string {
    if v == 0 then "" else DigitsOf(v / 10) + [Digit(v % 10)]
  }

  /** How a reader of the header understands decimal text. */
  function ParseDecimal(s: string): int {
    if s == "" then 0 else 10 * ParseDecimal(s[..|s| - 1]) + (s[|s| - 1] as int - '0' as int)
  }

  lemma {:induction false} DigitsParseBack(v: nat)
    ensures ParseDecimal(DigitsOf(v)) == v
    ensures v > 0 ==> DigitsOf(v) != "" && DigitsOf(v)[0] != '0'
    ensures forall c :: c in DigitsOf(v) ==> '0' <= c <= '9'
  {
    if v > 0 {
      DigitsParseBack(v / 10);
      assert DigitsOf(v)[..|DigitsOf(v)| - 1] == DigitsOf(v / 10);
    }
  }

  /** Ten to the power `k`. */
  function Pow10(k: nat): (p: nat)
    ensures p >= 1
  {
    if k == 0 then 1 else 10 * Pow10(k - 1)
  }

  lemma {:induction false} DigitsFit(v: nat, k: nat)
    requires v < Pow10(k)
    ensures |DigitsOf(v)| <= k
  {
    if v > 0 {
      DigitsFit(v / 10, k - 1);
    }
  }

  lemma {:induction false} TwentyDigitsHoldAnInt64(v: nat)
    requires v < 0x8000_0000_0000_0000
    ensures |DigitsOf(v)| <= 20
  {
    assert Pow10(5) == 100000 by {
      assert Pow10(3) == 1000;
    }
    assert Pow10(10) == 100000 * 100000 by {
      assert Pow10(8) == 1000 * Pow10(5);
    }
    assert Pow10(15) == 100000 * Pow10(10) by {
      assert Pow10(13) == 1000 * Pow10(10);
    }
    assert Pow10(20) == 100000 * Pow10(15) by {
      assert Pow10(18) == 1000 * Pow10(15);
    }
    DigitsFit(v, 20);
  }

  lemma {:induction false} OneMoreDigit(v: nat, done: string)
    requires v > 0
    ensures DigitsOf(v) != "" && DigitsOf(v) + done == DigitsOf(v / 10) + ([Digit(v % 10)] + done)
  {
  }

  /** `intString`: a 20-byte buffer filled from its end, never past its start. */
  method IntString(value: int64) returns (s: string)
    ensures value >= 0 ==> ParseDecimal(s) == value && s != "" && (value > 0 ==> s[0] != '0')
    ensures value < 0 ==> s == ""
  {
    if value == 0 {
      s := "0";
      assert s[..|s| - 1] == "" && ParseDecimal(s[..|s| - 1]) == 0;
      return;
    }
    var buf := new char[20](_ => '0');
    var i, v: int := buf.Length, value;
    if value > 0 {
      TwentyDigitsHoldAnInt64(value);
      DigitsParseBack(value);
    }
    assert DigitsOf(0) == "";
    hide DigitsOf, Digit, ParseDecimal, Pow10;
    while v > 0
      invariant 0 <= i <= buf.Length
      invariant value > 0 ==> v >= 0 && DigitsOf(value) == DigitsOf(v) + buf[i..]
      invariant value < 0 ==> v < 0 && i == buf.Length
    {
      ghost var done := buf[i..];
      OneMoreDigit(v, done);
      i := i - 1;
      buf[i] := Digit(v % 10);
      assert buf[i..][1..] == done;
      assert buf[i..] == [Digit(v % 10)] + done;
      v := v / 10;
    }
    s := buf[i..];
    assert "" + s == s;
  }
}
