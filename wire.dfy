/** Byte-level vocabulary of the NBT wire format: bytes, tag ids, big-endian
    integers and the byte/char correspondence of std::string. */
module Wire {

  /** One byte of the input file. */
  newtype byte = x: int | 0 <= x < 256

  // Tag ids (the on-wire discriminant of every named tag).
  const TAG_END: byte := 0
  const TAG_BYTE: byte := 1
  const TAG_SHORT: byte := 2
  const TAG_INT: byte := 3
  const TAG_LONG: byte := 4
  const TAG_FLOAT: byte := 5
  const TAG_DOUBLE: byte := 6
  const TAG_BYTE_ARRAY: byte := 7
  const TAG_STRING: byte := 8
  const TAG_LIST: byte := 9
  const TAG_COMPOUND: byte := 10
  const TAG_INT_ARRAY: byte := 11
  const TAG_LONG_ARRAY: byte := 12

  function Pow256(n: nat): (r: nat)
    ensures r >= 1
  {
    if n == 0 then 1 else 256 * Pow256(n - 1)
  }

  /** The unsigned value of a big-endian byte string. */
  function BigEndian(bs: seq<byte>): (r: nat)
    ensures r < Pow256(|bs|)
  {
    if |bs| == 0 then 0
    else
      var hi := BigEndian(bs[..|bs| - 1]);
      assert hi <= Pow256(|bs| - 1) - 1;
      assert hi * 256 <= (Pow256(|bs| - 1) - 1) * 256;
      hi * 256 + bs[|bs| - 1] as nat
  }

  /** The two's-complement value of a big-endian byte string, as the
      reader's `readValue<T>` yields it for a signed T of |bs| bytes. */
  function Signed(bs: seq<byte>): (r: int)
    ensures |bs| > 0 ==> -128 * Pow256(|bs| - 1) <= r < 128 * Pow256(|bs| - 1)
    ensures r >= 0 <==> |bs| == 0 || bs[0] < 128
  {
    if |bs| == 0 then 0
    else
      var u := BigEndian(bs);
      SignBit(bs);
      if u >= 128 * Pow256(|bs| - 1) then u - Pow256(|bs|) else u
  }

  /** The leading byte alone decides whether the unsigned value reaches the
      sign bit. */
  lemma {:induction false} SignBit(bs: seq<byte>)
    requires |bs| > 0
    ensures BigEndian(bs) >= 128 * Pow256(|bs| - 1) <==> bs[0] >= 128
  {
    if |bs| > 1 {
      var init := bs[..|bs| - 1];
      assert init[0] == bs[0];
      SignBit(init);
      var hi := BigEndian(init);
      var p := Pow256(|bs| - 2);
      if bs[0] >= 128 {
        assert hi >= 128 * p;
        assert hi * 256 >= 128 * p * 256;
      } else {
        assert hi <= 128 * p - 1;
        assert hi * 256 <= (128 * p - 1) * 256;
      }
    }
  }

  /** A non-negative int16 (a string length) as the two big-endian bytes the
      reader reads back. Only used to state what the reader accepts. */
  function Int16Bytes(v: int): (r: seq<byte>)
    requires 0 <= v < 0x8000
    ensures |r| == 2 && Signed(r) == v
  {
    var r := [(v / 256) as byte, (v % 256) as byte];
    assert BigEndian(r) == v by {
      assert r[..1] == [r[0]];
      assert BigEndian(r[..1]) == r[0] as nat;
    }
    assert r[0] < 128;
    r
  }

  /** A non-negative int32 (a list count) as four big-endian bytes. */
  function Int32Bytes(v: int): (r: seq<byte>)
    requires 0 <= v < 0x8000_0000
    ensures |r| == 4 && Signed(r) == v
  {
    var r := [(v / 0x100_0000) as byte, (v / 0x1_0000 % 256) as byte, (v / 256 % 256) as byte, (v % 256) as byte];
    assert BigEndian(r) == v by {
      assert r[..1] == [r[0]] && r[..2][..1] == r[..1] && r[..3][..2] == r[..2] && r[..4][..3] == r[..3];
      assert BigEndian(r[..1]) == v / 0x100_0000;
      assert BigEndian(r[..2]) == v / 0x1_0000;
      assert BigEndian(r[..3]) == v / 256;
      assert r[..4] == r;
    }
    assert Pow256(3) == 0x100_0000 by {
      assert Pow256(1) == 256;
      assert Pow256(2) == 0x1_0000;
    }
    assert r[0] < 128;
    r
  }

  /** A std::string holds bytes; each byte is one char below 256. */
  predicate IsByteString(s: string)
  {
    forall i :: 0 <= i < |s| ==> s[i] as int < 256
  }

  /** The std::string made from the bytes the reader copied out of the file. */
  function Chars(bs: seq<byte>): (s: string)
    ensures |s| == |bs| && IsByteString(s)
    ensures forall i :: 0 <= i < |bs| ==> s[i] as int == bs[i] as int
  {
    seq(|bs|, i requires 0 <= i < |bs| => (bs[i] as int) as char)
  }

  /** The bytes of a std::string. */
  function Bytes(s: string): (bs: seq<byte>)
    requires IsByteString(s)
    ensures |bs| == |s|
    ensures forall i :: 0 <= i < |s| ==> bs[i] as int == s[i] as int
  {
    seq(|s|, i requires 0 <= i < |s| => (s[i] as int) as byte)
  }

  /** Reading back the bytes of a string yields the string. */
  lemma CharsOfBytes(s: string)
    requires IsByteString(s)
    ensures Chars(Bytes(s)) == s
  {
    var r := Chars(Bytes(s));
    assert |r| == |s|;
    forall i | 0 <= i < |s| ensures r[i] == s[i] {
      assert r[i] as int == s[i] as int;
    }
  }

  /** Chars is injective: two byte strings read as the same std::string only
      when they are equal. */
  lemma CharsInjective(a: seq<byte>, b: seq<byte>)
    requires Chars(a) == Chars(b)
    ensures a == b
  {
    assert |a| == |b|;
    forall i | 0 <= i < |a| ensures a[i] == b[i] {
      assert Chars(a)[i] == Chars(b)[i];
    }
  }

  /** `enc` occurs in `data` starting at offset p, byte by byte. */
  ghost predicate At(data: seq<byte>, p: nat, enc: seq<byte>)
    decreases |enc|
  {
    if enc == [] then p <= |data|
    else p < |data| && data[p] == enc[0] && At(data, p + 1, enc[1..])
  }

  /** The same, as a slice of `data`. */
  lemma {:induction false} AtSlice(data: seq<byte>, p: nat, enc: seq<byte>)
    ensures At(data, p, enc) <==> p + |enc| <= |data| && data[p..p + |enc|] == enc
    decreases |enc|
  {
    if enc != [] {
      AtSlice(data, p + 1, enc[1..]);
      if p + |enc| <= |data| {
        assert data[p..p + |enc|] == [data[p]] + data[p + 1..p + 1 + |enc[1..]|];
        assert enc == [enc[0]] + enc[1..];
      }
    }
  }

  lemma AtConcat(data: seq<byte>, p: nat, a: seq<byte>, b: seq<byte>)
    ensures At(data, p, a + b) <==> At(data, p, a) && At(data, p + |a|, b)
  {
    AtSlice(data, p, a + b);
    AtSlice(data, p, a);
    AtSlice(data, p + |a|, b);
    if At(data, p, a) && At(data, p + |a|, b) {
      assert data[p..p + |a + b|] == data[p..p + |a|] + data[p + |a|..p + |a| + |b|];
    }
    if At(data, p, a + b) {
      assert data[p..p + |a|] == (a + b)[..|a|];
      assert data[p + |a|..p + |a| + |b|] == (a + b)[|a|..];
    }
  }
}
