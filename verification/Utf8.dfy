/** UTF-8 as it is defined, and as the standard library's validator walks it. */
module Utf8 {
  import opened Bytes

  /** Section 3.9 of the Unicode Standard: what a byte that is part of no character becomes. */
  const REPLACEMENT: int := 0xFFFD

  predicate IsTail(b: byte) { 0x80 <= b <= 0xBF }

  predicate SecondOfThree(b0: byte, b1: byte) {
    || (b0 == 0xE0 && 0xA0 <= b1 <= 0xBF)
    || (0xE1 <= b0 <= 0xEC && IsTail(b1))
    || (b0 == 0xED && 0x80 <= b1 <= 0x9F)
    || (0xEE <= b0 <= 0xEF && IsTail(b1))
  }

  predicate SecondOfFour(b0: byte, b1: byte) {
    || (b0 == 0xF0 && 0x90 <= b1 <= 0xBF)
    || (0xF1 <= b0 <= 0xF3 && IsTail(b1))
    || (b0 == 0xF4 && 0x80 <= b1 <= 0x8F)
  }

  /** The bytes of one character: section 4 of RFC 3629. */
  predicate WellFormed(s: seq<byte>) {
    || (|s| == 1 && s[0] <= 0x7F)
    || (|s| == 2 && 0xC2 <= s[0] <= 0xDF && IsTail(s[1]))
    || (|s| == 3 && SecondOfThree(s[0], s[1]) && IsTail(s[2]))
    || (|s| == 4 && SecondOfFour(s[0], s[1]) && IsTail(s[2]) && IsTail(s[3]))
  }

  /** The character those bytes are. */
  function Scalar(s: seq<byte>): int
    requires WellFormed(s)
  {
    var low := (i: int) requires 0 < i < |s| => s[i] as int - 0x80;
    var lead := s[0] as int;
    if |s| == 1 then lead
    else if |s| == 2 then (lead - 0xC0) * 0x40 + low(1)
    else if |s| == 3 then (lead - 0xE0) * 0x1000 + low(1) * 0x40 + low(2)
    else (lead - 0xF0) * 0x4_0000 + low(1) * 0x1000 + low(2) * 0x40 + low(3)
  }

  predicate IsScalar(v: int) {
    0 <= v <= 0x10FFFF && !(0xD800 <= v <= 0xDFFF)
  }

  /** Section 3 of RFC 3629, the encoding direction. */
  function Encode(v: int): seq<byte>
    requires IsScalar(v)
  {
    if v <= 0x7F then [v]
    else if v <= 0x7FF then [0xC0 + v / 0x40, 0x80 + v % 0x40]
    else if v <= 0xFFFF then [0xE0 + v / 0x1000, 0x80 + v / 0x40 % 0x40, 0x80 + v % 0x40]
    else [0xF0 + v / 0x4_0000, 0x80 + v / 0x1000 % 0x40, 0x80 + v / 0x40 % 0x40, 0x80 + v % 0x40]
  }

  lemma EncodeIsWellFormed(v: int)
    requires IsScalar(v)
    ensures WellFormed(Encode(v)) && Scalar(Encode(v)) == v
  {
    if v > 0xFFFF {
      FourByteForm(v);
    } else if v > 0x7FF {
      ThreeByteForm(v);
    }
  }

  lemma ThreeByteForm(v: int)
    requires IsScalar(v) && 0x7FF < v <= 0xFFFF
    ensures WellFormed(Encode(v)) && Scalar(Encode(v)) == v
  {
    var a, b := v / 0x40, v / 0x1000;
    assert v == a * 0x40 + v % 0x40;
    assert a == b * 0x40 + a % 0x40;
    assert b < 0x10;
  }

  lemma FourByteForm(v: int)
    requires IsScalar(v) && v > 0xFFFF
    ensures WellFormed(Encode(v)) && Scalar(Encode(v)) == v
  {
    var a, b := v / 0x40, v / 0x1000;
    assert v == a * 0x40 + v % 0x40;
    assert a == b * 0x40 + a % 0x40;
    assert b == v / 0x4_0000 * 0x40 + b % 0x40;
  }

  /** A number put together from 6-bit digits comes apart into them. */
  lemma SixBits(high: int, low: int)
    requires 0 <= low < 0x40
    ensures (high * 0x40 + low) / 0x40 == high && (high * 0x40 + low) % 0x40 == low
  {
  }

  lemma ScalarIsEncoded(s: seq<byte>)
    requires WellFormed(s)
    ensures IsScalar(Scalar(s)) && Encode(Scalar(s)) == s
  {
    var v := Scalar(s);
    if |s| == 2 {
      SixBits(s[0] as int - 0xC0, s[1] as int - 0x80);
    } else if |s| == 3 {
      var a := (s[0] as int - 0xE0) * 0x40 + (s[1] as int - 0x80);
      SixBits(a, s[2] as int - 0x80);
      SixBits(s[0] as int - 0xE0, s[1] as int - 0x80);
      assert v == a * 0x40 + (s[2] as int - 0x80) && v / 0x1000 == a / 0x40;
    } else if |s| == 4 {
      FourBytes(s);
    }
  }

  lemma FourBytes(s: seq<byte>)
    requires WellFormed(s) && |s| == 4
    ensures IsScalar(Scalar(s)) && Encode(Scalar(s)) == s
  {
    var v := Scalar(s);
    var b := (s[0] as int - 0xF0) * 0x40 + (s[1] as int - 0x80);
    var a := b * 0x40 + (s[2] as int - 0x80);
    SixBits(a, s[3] as int - 0x80);
    SixBits(b, s[2] as int - 0x80);
    SixBits(s[0] as int - 0xF0, s[1] as int - 0x80);
    assert v == a * 0x40 + (s[3] as int - 0x80);
    assert v / 0x1000 == a / 0x40 && v / 0x4_0000 == b / 0x40;
  }

  // ---- Lossy decoding, as the Unicode Standard describes it ----------------------

  /** A character could still come of these bytes. */
  ghost predicate Begins(s: seq<byte>) {
    exists c: seq<byte> :: WellFormed(c) && s < c
  }

  /** The first unit of `b` is `n` bytes: a character, or else the longest run that begins
      one, or else a single byte. */
  ghost predicate IsUnit(b: seq<byte>, n: nat) {
    && 0 < n <= |b|
    && (|| WellFormed(b[..n])
        || (&& (forall m | 0 < m <= |b| :: !WellFormed(b[..m]))
            && (n == 1 || Begins(b[..n]))
            && (forall m | n < m <= |b| :: !Begins(b[..m]))))
  }

  lemma UnitIsUnique(b: seq<byte>, m: nat, n: nat)
    requires IsUnit(b, m) && IsUnit(b, n)
    ensures m == n
  {
    // A character's first byte says how long it is.
    assert b[..m][0] == b[0] == b[..n][0];
  }

  ghost function Unit(b: seq<byte>): (n: nat)
    requires b != []
    ensures IsUnit(b, n)
  {
    StepIsUnit(b);
    Step(b).n
  }

  /** One scalar a character, one U+FFFD a maximal ill-formed subpart. */
  ghost function Lossy(b: seq<byte>): seq<int> {
    if b == [] then []
    else
      var n := Unit(b);
      [if WellFormed(b[..n]) then Scalar(b[..n]) else REPLACEMENT] + Lossy(b[n..])
  }

  // ---- The validator ---------------------------------------------------------------

  /** What the validator finds at the start of its input: a character, a run that is not one,
      or the start of one that the input cuts off. `n` is how many bytes that is. */
  datatype Found = Char(n: nat) | Bad(n: nat) | Cut(n: nat)

  function Step(b: seq<byte>): (f: Found)
    requires b != []
    ensures 0 < f.n <= |b|
    ensures f.Char? ==> WellFormed(b[..f.n])
    ensures f.Cut? ==> f.n == |b| <= 3
  {
    if b[0] <= 0x7F then Char(1)
    else if 0xC2 <= b[0] <= 0xDF then
      if |b| < 2 then Cut(1)
      else if !IsTail(b[1]) then Bad(1)
      else Char(2)
    else if 0xE0 <= b[0] <= 0xEF then
      if |b| < 2 then Cut(1)
      else if !SecondOfThree(b[0], b[1]) then Bad(1)
      else if |b| < 3 then Cut(2)
      else if !IsTail(b[2]) then Bad(2)
      else Char(3)
    else if 0xF0 <= b[0] <= 0xF4 then
      if |b| < 2 then Cut(1)
      else if !SecondOfFour(b[0], b[1]) then Bad(1)
      else if |b| < 3 then Cut(2)
      else if !IsTail(b[2]) then Bad(2)
      else if |b| < 4 then Cut(3)
      else if !IsTail(b[3]) then Bad(3)
      else Char(4)
    else Bad(1)
  }

  /** The end of a character some of whose first bytes are `b`. */
  function Completion(b: seq<byte>): seq<byte>
    requires b != []
  {
    if |b| == 1 && b[0] == 0xE0 then [0xA0, 0x80]
    else if |b| == 1 && b[0] == 0xF0 then [0x90, 0x80, 0x80]
    else if b[0] <= 0xDF then [0x80]
    else if b[0] <= 0xEF then (if |b| == 1 then [0x80, 0x80] else [0x80])
    else if |b| == 1 then [0x80, 0x80, 0x80]
    else if |b| == 2 then [0x80, 0x80]
    else [0x80]
  }

  lemma CutBegins(b: seq<byte>)
    requires b != [] && Step(b).Cut?
    ensures Begins(b)
  {
    assert WellFormed(b + Completion(b));
  }

  /** Appending to the input changes nothing the validator has settled. */
  lemma StepIsSettled(b: seq<byte>, more: seq<byte>)
    requires b != [] && !Step(b).Cut?
    ensures Step(b + more) == Step(b)
  {
  }

  lemma StepOfPrefix(b: seq<byte>, m: nat)
    requires b != [] && Step(b).Bad? && 0 < m <= |b|
    ensures !WellFormed(b[..m])
    ensures Step(b).n < m ==> !Begins(b[..m])
    ensures m == Step(b).n > 1 ==> Begins(b[..m])
  {
    if m == Step(b).n && m > 1 {
      CutBegins(b[..m]);
    }
    if Step(b).n < m {
      forall c: seq<byte> | b[..m] < c ensures !WellFormed(c) {
        assert c[0] == b[..m][0] && c[1] == b[..m][1];
        assert m > 2 ==> c[2] == b[..m][2];
        assert m > 3 ==> c[3] == b[..m][3];
      }
    }
  }

  lemma StepIsUnit(b: seq<byte>)
    requires b != []
    ensures IsUnit(b, Step(b).n)
    ensures Step(b).Char? <==> WellFormed(b[..Step(b).n])
  {
    var f := Step(b);
    if f.Bad? {
      forall m | 0 < m <= |b|
        ensures !WellFormed(b[..m]) && (f.n < m ==> !Begins(b[..m])) && (m == f.n > 1 ==> Begins(b[..m]))
      {
        StepOfPrefix(b, m);
      }
    } else if f.Cut? {
      CutBegins(b);
      assert b[..f.n] == b;
    }
  }

  /** `from_utf8`: all of it is text, or text up to a point and what stopped it there. */
  datatype Checked = Valid | Invalid(validUpTo: nat, errorLen: ErrorLen)
  datatype ErrorLen = IllFormed(n: nat) | EndOfInput

  function FromUtf8(b: seq<byte>): (r: Checked)
    ensures r.Invalid? ==> r.validUpTo < |b|
    ensures r.Invalid? && r.errorLen.IllFormed? ==> 0 < r.errorLen.n <= |b| - r.validUpTo
  {
    if b == [] then Valid
    else
      match Step(b)
      case Bad(n) => Invalid(0, IllFormed(n))
      case Cut(_) => Invalid(0, EndOfInput)
      case Char(n) =>
        var rest := FromUtf8(b[n..]);
        if rest.Valid? then Valid else Invalid(n + rest.validUpTo, rest.errorLen)
  }

  /** The scalars of bytes that are text. */
  function Text(b: seq<byte>): (r: seq<int>)
    ensures forall i | 0 <= i < |r| :: IsScalar(r[i])
  {
    if b == [] || !Step(b).Char? then []
    else
      ScalarIsEncoded(b[..Step(b).n]);
      [Scalar(b[..Step(b).n])] + Text(b[Step(b).n..])
  }

  /** `String::from_utf8_lossy`. */
  function FromUtf8Lossy(b: seq<byte>): seq<int> {
    if b == [] then []
    else
      var f := Step(b);
      [if f.Char? then Scalar(b[..f.n]) else REPLACEMENT] + FromUtf8Lossy(b[f.n..])
  }

  lemma {:induction false} LossyIsLossy(b: seq<byte>)
    ensures FromUtf8Lossy(b) == Lossy(b)
  {
    if b != [] {
      StepIsUnit(b);
      UnitIsUnique(b, Step(b).n, Unit(b));
      LossyIsLossy(b[Step(b).n..]);
    }
  }

  /** Text is what its own encoding decodes to, with nothing replaced. */
  function EncodeAll(vs: seq<int>): seq<byte>
    requires forall i | 0 <= i < |vs| :: IsScalar(vs[i])
  {
    if vs == [] then [] else Encode(vs[0]) + EncodeAll(vs[1..])
  }

  lemma {:induction false} TextComesBack(vs: seq<int>)
    requires forall i | 0 <= i < |vs| :: IsScalar(vs[i])
    ensures FromUtf8(EncodeAll(vs)).Valid? && Lossy(EncodeAll(vs)) == vs
  {
    if vs != [] {
      TextComesBack(vs[1..]);
      var c, b := Encode(vs[0]), EncodeAll(vs);
      EncodeIsWellFormed(vs[0]);
      assert b[..|c|] == c && b[|c|..] == EncodeAll(vs[1..]);
      assert IsUnit(b, |c|);
      UnitIsUnique(b, |c|, Unit(b));
      StepIsUnit(b);
      UnitIsUnique(b, |c|, Step(b).n);
    }
  }

  /** What is text is the same text however it is read. */
  lemma {:induction false} TextIsLossy(b: seq<byte>)
    requires FromUtf8(b).Valid?
    ensures Text(b) == FromUtf8Lossy(b)
  {
    if b != [] {
      TextIsLossy(b[Step(b).n..]);
    }
  }
}
