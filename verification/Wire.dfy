/** Bytes on the wire: big-endian integers, length-prefixed fields, and parsers over them. */
module Wire {
  import opened Prelude

  type byte = b: int | 0 <= b < 256
  type Bytes = seq<byte>

  datatype DecodeError = BadMagic | Truncated | FieldTooLarge | TrailingData
  datatype Parsed<+T> = Fail(error: DecodeError) | Done(value: T, rest: Bytes)
  datatype Result<+T> = Ok(value: T) | Err(error: DecodeError)

  /** 256 to the power `width`: one more than the largest value `width` bytes hold. */
  function Capacity(width: nat): (c: nat)
    ensures c >= 1
  {
    if width == 0 then 1 else 256 * Capacity(width - 1)
  }

  lemma Capacities()
    ensures Capacity(2) == 0x1_0000
    ensures Capacity(4) == 0x1_0000_0000
    ensures Capacity(8) == 0x1_0000_0000_0000_0000
  {
    assert Capacity(2) == 256 * Capacity(1) && Capacity(1) == 256;
    assert Capacity(3) == 256 * Capacity(2) && Capacity(4) == 256 * Capacity(3);
    assert Capacity(5) == 256 * Capacity(4) && Capacity(6) == 256 * Capacity(5);
    assert Capacity(7) == 256 * Capacity(6) && Capacity(8) == 256 * Capacity(7);
  }

  /** `setUint16`/`setUint32`/`binary.Write`: the low `width` bytes, most significant first. */
  function BigEndian(v: nat, width: nat): (r: Bytes)
    ensures |r| == width
  {
    if width == 0 then [] else BigEndian(v / 256, width - 1) + [v % 256]
  }

  function FromBigEndian(s: Bytes): (v: nat)
    ensures v < Capacity(|s|)
  {
    if s == [] then 0 else 256 * FromBigEndian(s[..|s| - 1]) + s[|s| - 1]
  }

  /** The first byte weighs most. */
  lemma {:induction false} MostSignificantFirst(s: Bytes)
    requires s != []
    ensures FromBigEndian(s) == s[0] * Capacity(|s| - 1) + FromBigEndian(s[1..])
  {
    var front := s[..|s| - 1];
    if front != [] {
      MostSignificantFirst(front);
      assert s[1..][..|s| - 2] == front[1..];
      Scaled(s[0], Capacity(|s| - 2));
    }
  }

  lemma Scaled(b: nat, c: nat)
    ensures 256 * (b * c) == b * (256 * c)
  {
  }

  /** Reading back is exact within the width; anything wider is silently truncated. */
  lemma {:induction false} BigEndianRoundTrip(v: nat, width: nat)
    ensures v < Capacity(width) <==> FromBigEndian(BigEndian(v, width)) == v
  {
    if width > 0 {
      var s := BigEndian(v, width);
      assert s[..|s| - 1] == BigEndian(v / 256, width - 1);
      BigEndianRoundTrip(v / 256, width - 1);
    }
  }

  function ParseUint(s: Bytes, width: nat): (p: Parsed<nat>)
    ensures p.Done? ==> p.value < Capacity(width)
  {
    if |s| < width then Fail(Truncated) else Done(FromBigEndian(s[..width]), s[width..])
  }

  function ParseBytes(s: Bytes, length: nat): (p: Parsed<Bytes>)
    ensures p.Done? ==> |p.value| == length
  {
    if |s| < length then Fail(Truncated) else Done(s[..length], s[length..])
  }

  /** A field with a `width`-byte length prefix; `limit` is the reader's own cap on it. */
  function ParseField(s: Bytes, width: nat, limit: nat): (p: Parsed<Bytes>)
    ensures p.Done? ==> |p.value| < Capacity(width) && |p.value| <= limit
  {
    match ParseUint(s, width)
    case Fail(e) => Fail(e)
    case Done(length, rest) => if length > limit then Fail(FieldTooLarge) else ParseBytes(rest, length)
  }

  function EncodeField(value: Bytes, width: nat): Bytes {
    BigEndian(|value|, width) + value
  }

  lemma {:induction false} UintRoundTrip(v: nat, width: nat, rest: Bytes)
    requires v < Capacity(width)
    ensures ParseUint(BigEndian(v, width) + rest, width) == Done(v, rest)
  {
    BigEndianRoundTrip(v, width);
    assert (BigEndian(v, width) + rest)[..width] == BigEndian(v, width);
  }

  lemma {:induction false} FieldRoundTrip(value: Bytes, width: nat, limit: nat, rest: Bytes)
    requires |value| < Capacity(width) && |value| <= limit
    ensures ParseField(EncodeField(value, width) + rest, width, limit) == Done(value, rest)
  {
    assert EncodeField(value, width) + rest == BigEndian(|value|, width) + (value + rest);
    UintRoundTrip(|value|, width, value + rest);
  }

  /** A parser that succeeded never looks past what it consumed. */
  lemma UintExtends(s: Bytes, width: nat, more: Bytes)
    requires ParseUint(s, width).Done?
    ensures ParseUint(s + more, width) == Done(ParseUint(s, width).value, ParseUint(s, width).rest + more)
  {
    assert (s + more)[..width] == s[..width];
  }

  lemma FieldExtends(s: Bytes, width: nat, limit: nat, more: Bytes)
    requires ParseField(s, width, limit).Done?
    ensures ParseField(s + more, width, limit)
         == Done(ParseField(s, width, limit).value, ParseField(s, width, limit).rest + more)
  {
    UintExtends(s, width, more);
    var length, rest := ParseUint(s, width).value, ParseUint(s, width).rest;
    assert (rest + more)[..length] == rest[..length];
  }

  /** A reader consumed field by field: Go's `bufio.Reader`, TypeScript's moving `offset`. */
  class ByteReader {
    const data: Bytes
    var offset: nat

    ghost predicate Valid()
      reads this
    {
      offset <= |data|
    }

    /** What is left to read. */
    function Rest(): Bytes
      requires Valid()
      reads this
    {
      data[offset..]
    }

    constructor (data: Bytes)
      ensures Valid() && this.data == data && Rest() == data
    {
      this.data, offset := data, 0;
    }

    method ReadBytes(length: nat) returns (r: Result<Bytes>)
      requires Valid()
      modifies this
      ensures Valid()
      ensures match ParseBytes(old(Rest()), length)
              case Fail(e) => r == Err(e)
              case Done(v, rest) => r == Ok(v) && Rest() == rest
    {
      if offset + length > |data| {
        return Err(Truncated);
      }
      assert old(Rest())[..length] == data[offset..offset + length];
      r := Ok(data[offset..offset + length]);
      offset := offset + length;
    }

    /** `offset === data.length`, or `ReadByte` answering `io.EOF`. */
    method AtEnd() returns (end: bool)
      requires Valid()
      ensures end <==> Rest() == []
    {
      end := offset == |data|;
    }

    method ReadUint(width: nat) returns (r: Result<nat>)
      requires Valid()
      modifies this
      ensures Valid()
      ensures match ParseUint(old(Rest()), width)
              case Fail(e) => r == Err(e)
              case Done(v, rest) => r == Ok(v) && Rest() == rest
    {
      var raw := ReadBytes(width);
      if raw.Err? {
        return Err(raw.error);
      }
      r := Ok(FromBigEndian(raw.value));
    }

    method ReadField(width: nat, limit: nat) returns (r: Result<Bytes>)
      requires Valid()
      modifies this
      ensures Valid()
      ensures match ParseField(old(Rest()), width, limit)
              case Fail(e) => r == Err(e)
              case Done(v, rest) => r == Ok(v) && Rest() == rest
    {
      var length := ReadUint(width);
      if length.Err? {
        return Err(length.error);
      }
      if length.value > limit {
        return Err(FieldTooLarge);
      }
      r := ReadBytes(length.value);
    }
  }

  /** A preallocated output buffer filled from the front. */
  class ByteWriter {
    const out: array<byte>
    var offset: nat

    ghost predicate Valid()
      reads this
    {
      offset <= out.Length
    }

    function Written(): Bytes
      requires Valid()
      reads this, out
    {
      out[..offset]
    }

    constructor (size: nat)
      ensures Valid() && fresh(out) && out.Length == size && Written() == []
    {
      out := new byte[size](_ => 0);
      offset := 0;
    }

    /** `out.set(value, offset)`, which throws when it would run past the end. */
    method Put(value: Bytes)
      requires Valid() && offset + |value| <= out.Length
      modifies this, out
      ensures Valid() && Written() == old(Written()) + value
    {
      for i := 0 to |value|
        invariant offset == old(offset)
        invariant out[..offset] == old(out[..offset])
        invariant out[offset..offset + i] == value[..i]
      {
        out[offset + i] := value[i];
      }
      offset := offset + |value|;
      assert out[..offset] == out[..old(offset)] + out[old(offset)..offset];
    }
  }
}
