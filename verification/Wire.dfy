/**
 The proto3 wire format: base-128 varints, field tags and length-delimited values,
 and the decoder that folds the fields of a message into a value.
 */
module Wire {
  import opened Wrappers

  type byte = x: int | 0 <= x < 256
  type Bytes = seq<byte>

  /** A Go []byte. Marshalling cannot tell Nil from an empty slice, but the nil checks of the source can. */
  datatype Slice = Nil | Of(data: Bytes) {
    function Get(): Bytes {
      if Nil? then [] else data
    }

    /** What remains of a bytes field after it was marshalled and unmarshalled. */
    function Norm(): Slice {
      if Get() == [] then Nil else this
    }
  }

  type Bytes8 = b: Bytes | |b| == 8 witness [0, 0, 0, 0, 0, 0, 0, 0]
  type Bytes4 = b: Bytes | |b| == 4 witness [0, 0, 0, 0]

  datatype Value =
    | Varint(n: nat)
    | Fixed64(eight: Bytes8)
    | Len(data: Bytes)
    | Fixed32(four: Bytes4)
  {
    function WireType(): nat {
      match this
      case Varint(_) => 0
      case Fixed64(_) => 1
      case Len(_) => 2
      case Fixed32(_) => 5
    }
  }

  /** Field numbers start at 1. */
  type FieldNum = n: int | n >= 1 witness 1

  datatype Field = Field(num: FieldNum, value: Value)

  // ----- varints -----

  function EncVarint(n: nat): Bytes {
    if n < 128 then [n] else [n % 128 + 128] + EncVarint(n / 128)
  }

  function DecVarint(b: Bytes): (r: Option<(nat, Bytes)>)
    ensures r.Some? ==> |r.value.1| < |b|
  {
    if b == [] then None
    else if b[0] < 128 then Some((b[0], b[1..]))
    else
      var (n, rest) :- DecVarint(b[1..]);
      Some((b[0] - 128 + 128 * n, rest))
  }

  lemma {:induction false} VarintRoundTrip(n: nat, rest: Bytes)
    ensures DecVarint(EncVarint(n) + rest) == Some((n, rest))
  {
    var b := EncVarint(n) + rest;
    if n < 128 {
      assert b[1..] == rest;
    } else {
      VarintRoundTrip(n / 128, rest);
      assert b[1..] == EncVarint(n / 128) + rest;
    }
  }

  // ----- fields -----

  function EncValue(v: Value): Bytes {
    match v
    case Varint(n) => EncVarint(n)
    case Len(d) => EncVarint(|d|) + d
    case Fixed64(d) => d
    case Fixed32(d) => d
  }

  function EncField(f: Field): Bytes {
    EncVarint(8 * f.num + f.value.WireType()) + EncValue(f.value)
  }

  function Take(b: Bytes, n: nat): (r: Option<(Bytes, Bytes)>)
    ensures r.Some? ==> |r.value.0| == n && |r.value.1| <= |b|
  {
    if |b| < n then None else Some((b[..n], b[n..]))
  }

  /** Groups (wire types 3 and 4) and the undefined types 6 and 7 are malformed. */
  function DecValue(wireType: nat, b: Bytes): (r: Option<(Value, Bytes)>)
    ensures r.Some? ==> |r.value.1| <= |b|
  {
    match wireType
    case 0 =>
      var (n, rest) :- DecVarint(b);
      Some((Varint(n), rest))
    case 1 =>
      var (d, rest) :- Take(b, 8);
      Some((Fixed64(d), rest))
    case 2 =>
      var (n, rest) :- DecVarint(b);
      var (d, rest') :- Take(rest, n);
      Some((Len(d), rest'))
    case 5 =>
      var (d, rest) :- Take(b, 4);
      Some((Fixed32(d), rest))
    case _ => None
  }

  /** Field number 0 is an illegal tag, whatever its wire type. */
  function DecField(b: Bytes): (r: Option<(Field, Bytes)>)
    ensures r.Some? ==> |r.value.1| < |b|
  {
    var (tag, rest) :- DecVarint(b);
    if tag < 8 then None
    else
      var (v, rest') :- DecValue(tag % 8, rest);
      Some((Field(tag / 8, v), rest'))
  }

  lemma TakeConcat(d: Bytes, rest: Bytes)
    ensures Take(d + rest, |d|) == Some((d, rest))
  {
    assert (d + rest)[..|d|] == d && (d + rest)[|d|..] == rest;
  }

  lemma ValueRoundTrip(v: Value, rest: Bytes)
    ensures DecValue(v.WireType(), EncValue(v) + rest) == Some((v, rest))
  {
    match v
    case Varint(n) => VarintRoundTrip(n, rest);
    case Len(d) =>
      assert EncValue(v) + rest == EncVarint(|d|) + (d + rest);
      VarintRoundTrip(|d|, d + rest);
      TakeConcat(d, rest);
    case Fixed64(d) => TakeConcat(d, rest);
    case Fixed32(d) => TakeConcat(d, rest);
  }

  lemma FieldRoundTrip(f: Field, rest: Bytes)
    ensures DecField(EncField(f) + rest) == Some((f, rest))
  {
    var tag := 8 * f.num + f.value.WireType();
    assert EncField(f) + rest == EncVarint(tag) + (EncValue(f.value) + rest);
    VarintRoundTrip(tag, EncValue(f.value) + rest);
    assert tag % 8 == f.value.WireType() && tag / 8 == f.num;
    ValueRoundTrip(f.value, rest);
  }

  // ----- messages as field lists -----

  function Enc(fs: seq<Field>): Bytes {
    if fs == [] then [] else EncField(fs[0]) + Enc(fs[1..])
  }

  function Parse(b: Bytes): Option<seq<Field>>
    decreases |b|
  {
    if b == [] then Some([])
    else
      var (f, rest) :- DecField(b);
      var fs :- Parse(rest);
      Some([f] + fs)
  }

  lemma {:induction false} ParseRoundTrip(fs: seq<Field>)
    ensures Parse(Enc(fs)) == Some(fs)
  {
    if fs == [] {
    } else {
      FieldRoundTrip(fs[0], Enc(fs[1..]));
      ParseRoundTrip(fs[1..]);
      assert [fs[0]] + fs[1..] == fs;
    }
  }

  lemma {:induction false} EncConcat(fs: seq<Field>, gs: seq<Field>)
    ensures Enc(fs + gs) == Enc(fs) + Enc(gs)
  {
    if fs == [] {
      assert fs + gs == gs;
    } else {
      EncConcat(fs[1..], gs);
      EncPrepend(fs[0], fs[1..], gs);
      assert [fs[0]] + fs[1..] == fs;
    }
  }

  lemma EncPrepend(f: Field, fs: seq<Field>, gs: seq<Field>)
    requires Enc(fs + gs) == Enc(fs) + Enc(gs)
    ensures Enc([f] + fs + gs) == Enc([f] + fs) + Enc(gs)
  {
    EncOne(f, fs);
    EncOne(f, fs + gs);
    ConcatAssoc([f], fs, gs);
    ConcatAssoc(EncField(f), Enc(fs), Enc(gs));
  }

  lemma EncOne(f: Field, fs: seq<Field>)
    ensures Enc([f] + fs) == EncField(f) + Enc(fs)
  {
    assert ([f] + fs)[1..] == fs;
  }

  lemma ConcatAssoc<T>(a: seq<T>, b: seq<T>, c: seq<T>)
    ensures (a + b) + c == a + (b + c)
  {
  }

  lemma EncInjective(fs: seq<Field>, gs: seq<Field>)
    requires Enc(fs) == Enc(gs)
    ensures fs == gs
  {
    ParseRoundTrip(fs);
    ParseRoundTrip(gs);
  }

  lemma EncNonEmpty(fs: seq<Field>)
    ensures Enc(fs) == [] <==> fs == []
  {
    if fs != [] {
      assert EncVarint(8 * fs[0].num + fs[0].value.WireType()) != [];
    }
  }

  /** Applies the fields of a message to `acc` in wire order; None is a decoding error. */
  function Fold<M>(step: (M, Field) -> Option<M>, acc: M, fs: seq<Field>): Option<M> {
    if fs == [] then Some(acc)
    else
      var next :- step(acc, fs[0]);
      Fold(step, next, fs[1..])
  }

  /** proto.Unmarshal, starting from `acc`: the zero message, or the value a repeated embedded field merges into. */
  function Unmarshal<M>(step: (M, Field) -> Option<M>, acc: M, b: Bytes): Option<M> {
    var fs :- Parse(b);
    Fold(step, acc, fs)
  }

  lemma UnmarshalEnc<M>(step: (M, Field) -> Option<M>, acc: M, fs: seq<Field>)
    ensures Unmarshal(step, acc, Enc(fs)) == Fold(step, acc, fs)
  {
    ParseRoundTrip(fs);
  }

  // ----- proto3 fields: default values are not written -----

  function BytesField(num: FieldNum, s: Bytes): seq<Field> {
    if s == [] then [] else [Field(num, Len(s))]
  }

  function EmbeddedField(num: FieldNum, m: Option<Bytes>): seq<Field> {
    match m
    case None => []
    case Some(b) => [Field(num, Len(b))]
  }

  const TWO_32: int := 0x1_0000_0000
  const TWO_64: int := 0x1_0000_0000_0000_0000

  type int32 = x: int | -0x8000_0000 <= x < 0x8000_0000
  type int64 = x: int | -0x8000_0000_0000_0000 <= x < 0x8000_0000_0000_0000
  type uint64 = x: int | 0 <= x < TWO_64

  /** A signed integer travels as the two's complement of its 64-bit sign extension. */
  function IntField(num: FieldNum, n: int): seq<Field>
    requires -0x8000_0000_0000_0000 <= n < TWO_64
  {
    if n == 0 then [] else [Field(num, Varint(if n < 0 then n + TWO_64 else n))]
  }

  function ToInt32(n: nat): int32 {
    var m := n % TWO_32;
    if m >= 0x8000_0000 then m - TWO_32 else m
  }

  function ToInt64(n: nat): int64 {
    var m := n % TWO_64;
    if m >= 0x8000_0000_0000_0000 then m - TWO_64 else m
  }

  lemma Int32RoundTrip(num: FieldNum, n: int32)
    ensures n != 0 ==> ToInt32(IntField(num, n)[0].value.n) == n
  {
  }

  lemma Int64RoundTrip(num: FieldNum, n: int64)
    ensures n != 0 ==> ToInt64(IntField(num, n)[0].value.n) == n
  {
  }

  lemma FoldOne<M>(step: (M, Field) -> Option<M>, acc: M, f: Field, rest: seq<Field>)
    ensures Fold(step, acc, [f] + rest) ==
            match step(acc, f) case None => None case Some(next) => Fold(step, next, rest)
  {
    assert ([f] + rest)[1..] == rest;
  }
}
