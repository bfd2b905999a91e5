/**
 * MEMCv3 variable-length integers: unsigned LEB128 (DWARF 5, section 7.6) cut off at 64 bits,
 * and the zigzag code for signed values laid over it.
 */
module Varint {
  import opened Common

  type byte = b: int | 0 <= b < 256

  const U64: int := 0x1_0000_0000_0000_0000
  const I64: int := 0x8000_0000_0000_0000

  /** A value read from the front of a byte string, and what is left of the string. */
  datatype Parsed<+T> = Parsed(value: T, rest: seq<byte>)

  /** One more than the largest value the bytes from position `index` on can contribute. */
  function Bound(index: nat): (n: nat)
    requires index <= 10
    ensures n >= 2
    decreases 10 - index
  {
    if index >= 9 then 2 else 128 * Bound(index + 1)
  }

  /** The digits of a varint from its byte number `index` on. */
  function UvarFrom(s: seq<byte>, index: nat): (r: Result<Parsed<nat>>)
    requires index <= 10
    ensures r.Ok? ==> r.value.value < Bound(index)
    ensures r.Ok? ==> |r.value.rest| < |s| && s[|s| - |r.value.rest|..] == r.value.rest
    ensures index < 10 ==> r != Err(VarintTooLong)
    decreases 10 - index
  {
    if index == 10 then Err(VarintTooLong)
    else if s == [] then Err(TruncatedVarint)
    else if index == 9 && s[0] > 1 then Err(VarintOverflow)
    else if s[0] < 128 then Ok(Parsed(s[0], s[1..]))
    else
      var high :- UvarFrom(s[1..], index + 1);
      Ok(Parsed(s[0] - 128 + 128 * high.value, high.rest))
  }

  /** `read_uvar`: the value at the front of `s`. */
  function Uvar(s: seq<byte>): (r: Result<Parsed<nat>>)
    ensures r.Ok? ==> r.value.value < U64 && |r.value.rest| < |s|
    ensures r != Err(VarintTooLong)
  {
    BoundIsU64();
    UvarFrom(s, 0)
  }

  lemma BoundIsU64()
    ensures Bound(0) == U64
  {
    assert Bound(7) == 128 * (128 * 2);
    assert Bound(5) == 128 * (128 * Bound(7));
    assert Bound(3) == 128 * (128 * Bound(5));
    assert Bound(1) == 128 * (128 * Bound(3));
  }

  /** The shortest code of `n`, followed by `rest`. */
  function PutUvar(n: nat, rest: seq<byte>): (s: seq<byte>)
    ensures |s| > |rest|
  {
    if n < 128 then [n] + rest else [n % 128 + 128] + PutUvar(n / 128, rest)
  }

  lemma {:induction false} UvarFromPut(n: nat, rest: seq<byte>, index: nat)
    requires index <= 9 && n < Bound(index)
    ensures UvarFrom(PutUvar(n, rest), index) == Ok(Parsed(n, rest))
    decreases 10 - index
  {
    var s := PutUvar(n, rest);
    if n < 128 {
      assert s[1..] == rest;
    } else {
      assert s[1..] == PutUvar(n / 128, rest);
      UvarFromPut(n / 128, rest, index + 1);
    }
  }

  /** Every 64-bit value survives encoding, and exactly its own bytes are consumed. */
  lemma UvarRoundTrip(n: nat, rest: seq<byte>)
    requires n < U64
    ensures Uvar(PutUvar(n, rest)) == Ok(Parsed(n, rest))
  {
    BoundIsU64();
    UvarFromPut(n, rest, 0);
  }

  // ------------------------------------------------------------------- zigzag

  /** Even codes are the nonnegative values, odd codes the negative ones. */
  function Unzigzag(v: nat): int {
    if v % 2 == 0 then v / 2 else -(v / 2) - 1
  }

  function Zigzag(n: int): nat {
    if n >= 0 then 2 * n else -2 * n - 1
  }

  /** Zigzag is a bijection between the signed and the unsigned 64-bit values. */
  lemma ZigzagBijection(n: int, v: nat)
    ensures Unzigzag(Zigzag(n)) == n && Zigzag(Unzigzag(v)) == v
    ensures -I64 <= n < I64 <==> Zigzag(n) < U64
    ensures v < U64 <==> -I64 <= Unzigzag(v) < I64
  {
  }

  /** `read_svar` */
  function Svar(s: seq<byte>): (r: Result<Parsed<int>>)
    ensures r.Ok? ==> -I64 <= r.value.value < I64 && |r.value.rest| < |s|
    ensures r != Err(VarintTooLong)
  {
    match Uvar(s)
    case Ok(p) => Ok(Parsed(Unzigzag(p.value), p.rest))
    case Err(e) => Err(e)
  }

  function PutSvar(n: int, rest: seq<byte>): (s: seq<byte>)
    ensures |s| > |rest|
  {
    PutUvar(Zigzag(n), rest)
  }

  lemma SvarRoundTrip(n: int, rest: seq<byte>)
    requires -I64 <= n < I64
    ensures Svar(PutSvar(n, rest)) == Ok(Parsed(n, rest))
  {
    UvarRoundTrip(Zigzag(n), rest);
    ZigzagBijection(n, 0);
  }

  /** On canonical codes the signed reader is one-to-one: different values have different codes. */
  lemma CanonicalCodesDiffer(m: int, n: int, rest: seq<byte>)
    requires -I64 <= m < I64 && -I64 <= n < I64 && m != n
    ensures PutSvar(m, rest) != PutSvar(n, rest)
  {
    SvarRoundTrip(m, rest);
    SvarRoundTrip(n, rest);
  }

  lemma ScanIsUvar(s: seq<byte>)
    ensures Scan(s, 0, 0) == Uvar(s)
  {
    ScanIsResume(s, 0, 0);
  }

  // ------------------------------------------------------------------- stream

  /** A reading method returned `r` and left `after`, just as the function result `spec` says. */
  ghost predicate Reads<T>(r: Result<T>, after: seq<byte>, spec: Result<Parsed<T>>) {
    match spec
    case Ok(p) => r == Ok(p.value) && after == p.rest
    case Err(e) => r == Err(e)
  }

  function Weight(index: nat): (w: nat)
    ensures w >= 1
  {
    if index == 0 then 1 else 128 * Weight(index - 1)
  }

  function Scale(index: nat, v: nat): nat {
    Weight(index) * v
  }

  /** What the byte at a position adds: its low seven bits, at that position's weight. */
  function Place(index: nat, b: byte): nat {
    Scale(index, b % 128)
  }

  /** A varint whose first `index` bytes have already contributed `value`. */
  function Resume(value: nat, index: nat, tail: Result<Parsed<nat>>): Result<Parsed<nat>> {
    match tail
    case Ok(p) => Ok(Parsed(value + Scale(index, p.value), p.rest))
    case Err(e) => Err(e)
  }

  lemma ResumeStep(value: nat, index: nat, s: seq<byte>)
    requires index < 10 && s != [] && s[0] >= 128 && !(index == 9 && s[0] > 1)
    ensures Resume(value, index, UvarFrom(s, index))
         == Resume(value + Place(index, s[0]), index + 1, UvarFrom(s[1..], index + 1))
  {
    hide Scale;
    var tail := UvarFrom(s[1..], index + 1);
    assert s[0] % 128 == s[0] - 128;
    if tail.Ok? {
      ScaleStep(index, s[0] - 128, tail.value.value);
    }
  }

  lemma ScaleStep(index: nat, a: nat, b: nat)
    ensures Scale(index, a + 128 * b) == Scale(index, a) + Scale(index + 1, b)
  {
    Distribute(Weight(index), a, b);
  }

  lemma Distribute(w: int, a: int, b: int)
    ensures w * (a + 128 * b) == w * a + (128 * w) * b
  {
  }

  /** The source's loop as a recursion: `value` holds the payload of the bytes read so far. */
  function Scan(s: seq<byte>, value: nat, index: nat): Result<Parsed<nat>>
    requires index <= 10
    decreases 10 - index
  {
    if index == 10 then Err(VarintTooLong)
    else if s == [] then Err(TruncatedVarint)
    else if index == 9 && s[0] > 1 then Err(VarintOverflow)
    else
      var next := value + Place(index, s[0]);
      if s[0] < 128 then Ok(Parsed(next, s[1..])) else Scan(s[1..], next, index + 1)
  }

  lemma {:induction false} ScanIsResume(s: seq<byte>, value: nat, index: nat)
    requires index <= 10
    ensures Scan(s, value, index) == Resume(value, index, UvarFrom(s, index))
    decreases 10 - index
  {
    hide Scale, Weight;
    if index < 10 && s != [] && s[0] >= 128 && !(index == 9 && s[0] > 1) {
      ResumeStep(value, index, s);
      hide Uvar, Place, Resume;
      ScanIsResume(s[1..], value + Place(index, s[0]), index + 1);
    }
  }

  /** An open file: the bytes, and how many of them have been consumed. */
  class ByteStream {
    const data: seq<byte>
    var pos: nat

    constructor (data: seq<byte>)
      ensures Valid() && Rest() == data
    {
      this.data := data;
      pos := 0;
    }

    ghost predicate Valid()
      reads this
    {
      pos <= |data|
    }

    /** What has not been read yet. */
    ghost function Rest(): seq<byte>
      requires Valid()
      reads this
    {
      data[pos..]
    }

    method AtEnd() returns (end: bool)
      requires Valid()
      ensures end <==> Rest() == []
    {
      end := pos == |data|;
    }

    /** Reads one byte, if there is one. */
    method ReadByte() returns (b: Option<byte>)
      requires Valid()
      modifies this
      ensures Valid()
      ensures old(Rest()) == [] ==> b == None && Rest() == []
      ensures old(Rest()) != [] ==> b == Some(old(Rest())[0]) && Rest() == old(Rest())[1..]
    {
      if pos == |data| {
        return None;
      }
      b := Some(data[pos]);
      pos := pos + 1;
    }

    /** `stream.read(n)`: fewer than `n` bytes only at the end of the file. */
    method Read(n: nat) returns (bytes: seq<byte>)
      requires Valid()
      modifies this
      ensures Valid()
      ensures n <= |old(Rest())| ==> bytes == old(Rest())[..n] && Rest() == old(Rest())[n..]
      ensures n > |old(Rest())| ==> bytes == old(Rest()) && Rest() == []
    {
      var end := if pos + n <= |data| then pos + n else |data|;
      bytes := data[pos..end];
      pos := end;
    }

    /**
     * `read_uvar`. The seven payload bits of byte `index` go in above the bits read so far, so
     * the source's `|` is an addition.
     */
    method ReadUvar() returns (r: Result<nat>)
      requires Valid()
      modifies this
      ensures Valid()
      ensures Reads(r, Rest(), Uvar(old(Rest())))
    {
      hide Uvar, Place;
      var value, index := 0, 0;
      ScanIsUvar(Rest());
      while index < 10
        invariant 0 <= index <= 10 && 0 <= value && Valid()
        invariant Scan(Rest(), value, index) == Uvar(old(Rest()))
      {
        var raw := ReadByte();
        if raw == None {
          return Err(TruncatedVarint);
        }
        var b := raw.value;
        if index == 9 && b > 1 {
          return Err(VarintOverflow);
        }
        value := value + Place(index, b);
        if b < 128 {
          return Ok(value);
        }
        index := index + 1;
      }
      return Err(VarintTooLong);
    }

    /** `read_svar` */
    method ReadSvar() returns (r: Result<int>)
      requires Valid()
      modifies this
      ensures Valid()
      ensures Reads(r, Rest(), Svar(old(Rest())))
    {
      var value :- ReadUvar();
      return Ok(Unzigzag(value));
    }
  }
}
