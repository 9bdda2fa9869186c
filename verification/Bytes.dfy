/** Bytes, chunks of them, and the big-endian lengths every wire format here starts with. */
module Bytes {

  type byte = b: int | 0 <= b < 256

  const TWO_TO_THE_32 := 0x1_0000_0000

  /** `(n as u32).to_be_bytes()`: the cast drops what does not fit. */
  function U32(n: nat): (s: seq<byte>)
    ensures |s| == 4
  {
    var w := n % TWO_TO_THE_32;
    [w / 0x100_0000, w / 0x1_0000 % 256, w / 256 % 256, w % 256]
  }

  /** `u32::from_be_bytes` of the first four bytes. */
  function FromU32(s: seq<byte>): (n: nat)
    requires |s| >= 4
    ensures n < TWO_TO_THE_32
  {
    s[0] as int * 0x100_0000 + s[1] as int * 0x1_0000 + s[2] as int * 256 + s[3] as int
  }

  lemma U32RoundTrip(n: nat, rest: seq<byte>)
    ensures FromU32(U32(n) + rest) == n % TWO_TO_THE_32
  {
    var w := n % TWO_TO_THE_32;
    var hi, lo := w / 0x1_0000, w % 0x1_0000;
    assert w / 0x100_0000 == hi / 256 && w / 0x1_0000 % 256 == hi % 256;
    assert w / 256 % 256 == lo / 256 && w % 256 == lo % 256;
  }

  lemma FromU32RoundTrip(s: seq<byte>)
    requires |s| >= 4
    ensures U32(FromU32(s)) == s[..4]
  {
    var n := FromU32(s);
    var top, mid := s[0] as int * 256 + s[1] as int, s[0] as int * 0x1_0000 + s[1] as int * 256 + s[2] as int;
    assert n == mid * 256 + s[3] as int && n / 256 == mid && n % 256 == s[3];
    assert mid == top * 256 + s[2] as int && mid / 256 == top && mid % 256 == s[2];
    assert n / 0x1_0000 == mid / 256 && n / 0x100_0000 == top / 256;
  }

  /** The first of the four bytes in which two numbers differ says which is smaller. */
  lemma BigEndian(a: seq<byte>, b: seq<byte>, i: nat)
    requires |a| >= 4 && |b| >= 4 && i < 4
    requires (forall j | 0 <= j < i :: a[j] == b[j]) && a[i] < b[i]
    ensures FromU32(a) < FromU32(b)
  {
  }

  /** `u16::from_be_bytes`. */
  function FromU16(hi: byte, lo: byte): (n: nat)
    ensures n < 0x1_0000
  {
    hi as int * 256 + lo as int
  }

  /** A stream put back together from the chunks it was cut into. */
  function Flatten<T>(chunks: seq<seq<T>>): seq<T> {
    if chunks == [] then [] else chunks[0] + Flatten(chunks[1..])
  }

  lemma Regroup<T>(a: seq<T>, b: seq<T>, c: seq<T>)
    ensures a + (b + c) == a + b + c
  {
  }

  lemma {:induction false} FlattenAppend<T>(a: seq<seq<T>>, b: seq<seq<T>>)
    ensures Flatten(a + b) == Flatten(a) + Flatten(b)
  {
    if a == [] {
      assert a + b == b;
    } else {
      assert (a + b)[0] == a[0] && (a + b)[1..] == a[1..] + b;
      FlattenAppend(a[1..], b);
      hide Flatten;
      Regroup(a[0], Flatten(a[1..]), Flatten(b));
    }
  }

  lemma FlattenSnoc<T>(a: seq<seq<T>>, c: seq<T>)
    ensures Flatten(a + [c]) == Flatten(a) + c
  {
    FlattenAppend(a, [c]);
    assert Flatten([c]) == c + Flatten([c][1..]);
    assert Flatten([c]) == c;
  }
}
