/** Fixed-width integers, their wrapping sums, and their byte layouts. */
module Bytes {

  type U8 = x: int | 0 <= x < 0x100
  type U16 = x: int | 0 <= x < 0x1_0000
  type U32 = x: int | 0 <= x < 0x1_0000_0000
  type U64 = x: int | 0 <= x < 0x1_0000_0000_0000_0000

  // The release build has no overflow checks, so `+` on machine integers wraps.
  function Add16(a: int, b: int): U16 {
    (a + b) % 0x1_0000
  }

  function Add32(a: int, b: int): U32 {
    (a + b) % 0x1_0000_0000
  }

  lemma Add32Exact(a: U32, b: nat)
    requires a + b < 0x1_0000_0000
    ensures Add32(a, b) == a + b
  {
  }

  function Add64(a: int, b: int): U64 {
    (a + b) % 0x1_0000_0000_0000_0000
  }

  function Min(a: int, b: int): int {
    if a < b then a else b
  }

  function Max(a: int, b: int): int {
    if a < b then b else a
  }

  function Zeros(n: nat): (s: seq<U8>)
    ensures |s| == n && forall i :: 0 <= i < n ==> s[i] == 0
  {
    seq(n, i => 0)
  }

  /** Writes `data` at `offset`, growing the buffer with zeros when it is too short. */
  function Overwrite(buf: seq<U8>, offset: nat, data: seq<U8>): (r: seq<U8>)
    ensures |r| == if offset + |data| > |buf| then offset + |data| else |buf|
    ensures forall i :: 0 <= i < |r| ==>
              r[i] == if offset <= i < offset + |data| then data[i - offset]
                      else if i < |buf| then buf[i] else 0
  {
    var end := offset + |data|;
    var grown := if end > |buf| then buf + Zeros(end - |buf|) else buf;
    grown[..offset] + data + grown[end..]
  }

  function Le16(x: U16): (s: seq<U8>)
    ensures |s| == 2
  {
    [x % 0x100, x / 0x100]
  }

  function FromLe16(a: U8, b: U8): U16 {
    a + 0x100 * b
  }

  function Le32(x: U32): (s: seq<U8>)
    ensures |s| == 4
  {
    [x % 0x100, x / 0x100 % 0x100, x / 0x1_0000 % 0x100, x / 0x100_0000]
  }

  function FromLe32(a: U8, b: U8, c: U8, d: U8): U32 {
    a + 0x100 * b + 0x1_0000 * c + 0x100_0000 * d
  }

  lemma Le16Inverse(x: U16)
    ensures FromLe16(Le16(x)[0], Le16(x)[1]) == x
  {
  }

  lemma Le32Inverse(x: U32)
    ensures var s := Le32(x); FromLe32(s[0], s[1], s[2], s[3]) == x
  {
    var y, z := x / 0x100, x / 0x1_0000;
    assert x == x % 0x100 + 0x100 * y;
    assert z == y / 0x100 && y == y % 0x100 + 0x100 * z;
    assert x / 0x100_0000 == z / 0x100 && z == z % 0x100 + 0x100 * (z / 0x100);
  }

  lemma FromLe16Inverse(a: U8, b: U8)
    ensures Le16(FromLe16(a, b)) == [a, b]
  {
  }

  lemma FromLe32Inverse(a: U8, b: U8, c: U8, d: U8)
    ensures Le32(FromLe32(a, b, c, d)) == [a, b, c, d]
  {
    var x := FromLe32(a, b, c, d);
    assert x / 0x100_0000 == d;
    var y := b + 0x100 * c + 0x1_0000 * d;
    assert x == a + 0x100 * y;
    assert x % 0x100 == a && x / 0x100 == y;
    var z := c + 0x100 * d;
    assert y == b + 0x100 * z;
    assert y % 0x100 == b;
    assert x / 0x1_0000 == z;
    assert z % 0x100 == c;
  }
}
