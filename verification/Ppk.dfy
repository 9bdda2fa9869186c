/** PuTTY keys turned into OpenSSH ones: the strings and integers of section 5 of RFC 4251, the bytes a
    PPK's MAC is taken over, and the container PROTOCOL.key lays out, up to its base64 armour. */
module Ppk {
  import opened Bytes
  import opened Wrappers

  // ---- Strings -------------------------------------------------------------------------------------

  /** A string on the wire. The cast of its length drops what does not fit. */
  function Str(f: seq<byte>): seq<byte> {
    U32(|f|) + f
  }

  function Strs(fields: seq<seq<byte>>): seq<byte> {
    if fields == [] then [] else Str(fields[0]) + Strs(fields[1..])
  }

  /** The first `n` strings of some bytes, and what is after them. */
  function Fields(s: seq<byte>, n: nat): Option<(seq<seq<byte>>, seq<byte>)> {
    if n == 0 then Some(([], s))
    else if |s| < 4 || |s| - 4 < FromU32(s) then None
    else
      var end := 4 + FromU32(s);
      var rest := Fields(s[end..], n - 1);
      if rest.None? then None else Some(([s[4..end]] + rest.value.0, rest.value.1))
  }

  predicate Fits(f: seq<byte>) {
    |f| < TWO_TO_THE_32
  }

  predicate AllFit(fields: seq<seq<byte>>) {
    forall i | 0 <= i < |fields| :: Fits(fields[i])
  }

  lemma StrComesBack(f: seq<byte>, rest: seq<byte>)
    ensures |Str(f) + rest| >= 4 && FromU32(Str(f) + rest) == |f| % TWO_TO_THE_32
    ensures (Str(f) + rest)[4..4 + |f|] == f && (Str(f) + rest)[4 + |f|..] == rest
  {
    Regroup(U32(|f|), f, rest);
    U32RoundTrip(|f|, f + rest);
    hide U32, FromU32;
  }

  lemma NoFields(rest: seq<byte>)
    ensures Fields(rest, 0) == Some(([], rest))
  {
  }

  lemma OneInFront(f: seq<byte>, tail: seq<byte>, n: nat)
    requires Fits(f)
    ensures Fields(Str(f) + tail, n + 1) ==
      var rest := Fields(tail, n);
      if rest.None? then None else Some(([f] + rest.value.0, rest.value.1))
  {
    hide U32, FromU32;
    StrComesBack(f, tail);
    assert 4 + FromU32(Str(f) + tail) <= |Str(f) + tail|;
  }

  /** Strings that fit come back as they were, whatever follows them. */
  lemma {:induction false} StrsComeBack(fields: seq<seq<byte>>, rest: seq<byte>)
    requires AllFit(fields)
    ensures Fields(Strs(fields) + rest, |fields|) == Some((fields, rest))
  {
    hide Str, Fields;
    if fields == [] {
      assert Strs(fields) + rest == rest;
      NoFields(rest);
    } else {
      var tail := Strs(fields[1..]) + rest;
      assert Fits(fields[0]);
      OneInFront(fields[0], tail, |fields| - 1);
      Regroup(Str(fields[0]), Strs(fields[1..]), rest);
      StrsComeBack(fields[1..], rest);
      assert [fields[0]] + fields[1..] == fields;
    }
  }

  /** What is read always fits. */
  lemma {:induction false} FieldsFit(s: seq<byte>, n: nat)
    ensures Fields(s, n).Some? ==> |Fields(s, n).value.0| == n && AllFit(Fields(s, n).value.0)
  {
    if n > 0 && Fields(s, n).Some? {
      FieldsFit(s[4 + FromU32(s)..], n - 1);
    }
  }

  lemma {:induction false} FieldsAppend(s: seq<byte>, m: nat, n: nat)
    ensures Fields(s, m + n) ==
      var a := Fields(s, m);
      if a.None? then None
      else
        var b := Fields(a.value.1, n);
        if b.None? then None else Some((a.value.0 + b.value.0, b.value.1))
  {
    hide FromU32;
    if m == 0 {
      var b := Fields(s, n);
      assert b.Some? ==> [] + b.value.0 == b.value.0;
    } else if |s| >= 4 && FromU32(s) <= |s| - 4 {
      var end := 4 + FromU32(s);
      FieldsAppend(s[end..], m - 1, n);
      var a := Fields(s[end..], m - 1);
      if a.Some? {
        var b := Fields(a.value.1, n);
        if b.Some? {
          Regroup([s[4..end]], a.value.0, b.value.0);
        }
      }
    }
  }

  // ---- The bytes of the MAC ------------------------------------------------------------------------

  /** `mac_input`. */
  method MacInput(algorithm: seq<byte>, encryption: seq<byte>, comment: seq<byte>, publicData: seq<byte>,
      privatePlain: seq<byte>)
    returns (out: seq<byte>)
    ensures out == Strs([algorithm, encryption, comment, publicData, privatePlain])
  {
    var fields := [algorithm, encryption, comment, publicData, privatePlain];
    out := [];
    for i := 0 to |fields|
      invariant out + Strs(fields[i..]) == Strs(fields)
    {
      assert fields[i..][1..] == fields[i + 1..];
      Regroup(out, Str(fields[i]), Strs(fields[i + 1..]));
      Regroup(out, U32(|fields[i]|), fields[i]);
      out := out + U32(|fields[i]|) + fields[i];
    }
    assert out + [] == out;
  }

  /** Two lists of fields that fit give the same bytes only if they are the same. */
  lemma StrsInjective(a: seq<seq<byte>>, b: seq<seq<byte>>)
    requires |a| == |b| && AllFit(a) && AllFit(b) && Strs(a) == Strs(b)
    ensures a == b
  {
    StrsComeBack(a, []);
    StrsComeBack(b, []);
    assert Strs(a) + [] == Strs(b) + [];
  }

  predicate Below(fields: seq<seq<byte>>, n: nat) {
    |fields| == 5 && forall i | 0 <= i < 5 :: |fields[i]| < n
  }

  /** No two ways to fill the five fields, each shorter than this, give the same bytes. */
  ghost predicate TellsApart(n: nat) {
    forall a, b | Below(a, n) && Below(b, n) && Strs(a) == Strs(b) :: a == b
  }

  /** The MAC's bytes tell the five fields apart exactly as long as every length fits its four bytes. */
  lemma TellsApartExactly(n: nat)
    ensures TellsApart(n) <==> n <= TWO_TO_THE_32
  {
    if n <= TWO_TO_THE_32 {
      forall a, b | Below(a, n) && Below(b, n) && Strs(a) == Strs(b) ensures a == b {
        StrsInjective(a, b);
      }
    } else {
      var long := Zeros(TWO_TO_THE_32);
      var a, b := [long, [], [], [], []], [[], [], [], [], long];
      SameZeros(long);
      assert Below(a, n) && Below(b, n) && a[4] != b[4];
    }
  }

  function Zeros(n: nat): (s: seq<byte>)
    ensures |s| == n && forall i | 0 <= i < n :: s[i] == 0
  {
    seq(n, _ => 0)
  }

  /** A length of four gigabytes is written as none, and then nothing says which field it was. */
  lemma SameZeros(long: seq<byte>)
    requires long == Zeros(TWO_TO_THE_32)
    ensures Strs([long, [], [], [], []]) == Strs([[], [], [], [], long])
  {
    var z := Zeros(4);
    assert U32(0) == z && U32(|long|) == z && z + [] == z;
    FiveStrs(long, [], [], [], []);
    FiveStrs([], [], [], [], long);
    assert Str([]) == z && Str(long) == z + long;
    hide U32, Strs, Str;
    assert z + long + z + z + z + z == z + z + z + z + (z + long);
  }

  lemma FiveStrs(a: seq<byte>, b: seq<byte>, c: seq<byte>, d: seq<byte>, e: seq<byte>)
    ensures Strs([a, b, c, d, e]) == Str(a) + Str(b) + Str(c) + Str(d) + Str(e)
  {
    hide Str;
    assert [a, b, c, d, e][1..] == [b, c, d, e] && [b, c, d, e][1..] == [c, d, e];
    assert [c, d, e][1..] == [d, e] && [d, e][1..] == [e] && [e][1..] == [];
    assert Strs([d, e]) == Str(d) + Strs([e]) && Strs([e]) == Str(e) + [] == Str(e);
    assert Strs([c, d, e]) == Str(c) + (Str(d) + Str(e));
    assert Strs([b, c, d, e]) == Str(b) + (Str(c) + (Str(d) + Str(e)));
  }

  // ---- Integers ------------------------------------------------------------------------------------

  /** Bytes as a number, most significant first. */
  function Natural(b: seq<byte>): nat {
    if b == [] then 0 else Natural(b[..|b| - 1]) * 256 + b[|b| - 1] as int
  }

  function Power(n: nat): nat {
    if n == 0 then 1 else 256 * Power(n - 1)
  }

  /** An `mpint` as section 5 of RFC 4251 reads it: two's complement. */
  function Signed(b: seq<byte>): int {
    if b != [] && b[0] >= 0x80 then Natural(b) - Power(|b|) else Natural(b)
  }

  /** No sign, and no leading byte that could be left out. */
  predicate IsCanonical(b: seq<byte>) {
    b == [] || (b[0] < 0x80 && (b[0] == 0 ==> |b| > 1 && b[1] >= 0x80))
  }

  /** `position` of the first byte that is not zero, and what follows. */
  function Strip(b: seq<byte>): (r: seq<byte>)
    ensures r == [] || r[0] != 0
  {
    if b != [] && b[0] == 0 then Strip(b[1..]) else b
  }

  /** What `ssh_write_mpint` puts after the length. */
  function MpintBytes(m: seq<byte>): seq<byte> {
    var s := Strip(m);
    if s != [] && s[0] >= 0x80 then [0] + s else s
  }

  lemma {:induction false} NaturalAppend(a: seq<byte>, b: seq<byte>)
    ensures Natural(a + b) == Natural(a) * Power(|b|) + Natural(b)
  {
    if b == [] {
      assert a + b == a;
    } else {
      var n := |b| - 1;
      assert (a + b)[..|a| + n] == a + b[..n];
      NaturalAppend(a, b[..n]);
      Scaled(Natural(a), Power(n), Natural(b[..n]), b[n] as int);
    }
  }

  lemma Scaled(x: nat, p: nat, y: nat, z: nat)
    ensures (x * p + y) * 256 + z == x * (256 * p) + (y * 256 + z)
  {
  }

  lemma ZeroInFront(b: seq<byte>)
    ensures Natural([0] + b) == Natural(b)
  {
    NaturalAppend([0], b);
    assert [0][..0] == [];
  }

  lemma {:induction false} StripKeepsValue(b: seq<byte>)
    ensures Natural(Strip(b)) == Natural(b)
  {
    if b != [] && b[0] == 0 {
      StripKeepsValue(b[1..]);
      ZeroInFront(b[1..]);
      assert b == [0] + b[1..];
    }
  }

  /** What is written for a number is the canonical form of it, and `ssh_read_mpint` gets the number's
      bytes back. */
  lemma MpintIsCanonical(m: seq<byte>)
    ensures IsCanonical(MpintBytes(m)) && Signed(MpintBytes(m)) == Natural(m)
    ensures Strip(MpintBytes(m)) == Strip(m)
  {
    StripKeepsValue(m);
    var s := Strip(m);
    ZeroInFront(s);
    assert ([0] + s)[1..] == s;
  }

  lemma {:induction false} NaturalIsPositive(b: seq<byte>)
    requires b != [] && b[0] != 0
    ensures Natural(b) > 0
  {
    if |b| > 1 {
      NaturalIsPositive(b[..|b| - 1]);
    }
  }

  lemma {:induction false} StrippedIsUnique(a: seq<byte>, b: seq<byte>)
    requires (a == [] || a[0] != 0) && (b == [] || b[0] != 0) && Natural(a) == Natural(b)
    ensures a == b
  {
    if a == [] && b != [] {
      NaturalIsPositive(b);
    } else if a != [] && b == [] {
      NaturalIsPositive(a);
    } else if a != [] && b != [] {
      var m, n := |a| - 1, |b| - 1;
      assert a[m] == b[n] && Natural(a[..m]) == Natural(b[..n]);
      StrippedIsUnique(a[..m], b[..n]);
      assert a == a[..m] + [a[m]] && b == b[..n] + [b[n]];
    }
  }

  /** A number has one canonical form. */
  lemma CanonicalIsUnique(a: seq<byte>, b: seq<byte>)
    requires IsCanonical(a) && IsCanonical(b) && Signed(a) == Signed(b)
    ensures a == b
  {
    CanonicalStrips(a);
    CanonicalStrips(b);
    StripKeepsValue(a);
    StripKeepsValue(b);
    StrippedIsUnique(Strip(a), Strip(b));
  }

  lemma CanonicalStrips(a: seq<byte>)
    requires IsCanonical(a)
    ensures a == if Strip(a) != [] && Strip(a)[0] >= 0x80 then [0] + Strip(a) else Strip(a)
  {
    if a != [] && a[0] == 0 {
      assert Strip(a) == Strip(a[1..]) == a[1..];
      assert a == [0] + a[1..];
    }
  }

  // ---- The container -------------------------------------------------------------------------------

  function Ascii(s: string): (r: seq<byte>)
    requires forall i | 0 <= i < |s| :: s[i] as int < 0x80
    ensures |r| == |s| && forall i | 0 <= i < |s| :: r[i] == s[i] as int
  {
    if s == "" then [] else [s[0] as int] + Ascii(s[1..])
  }

  const MAGIC: seq<byte> := Ascii("openssh-key-v1") + [0]
  const NONE: seq<byte> := Ascii("none")
  const RSA: seq<byte> := Ascii("ssh-rsa")
  const ED25519: seq<byte> := Ascii("ssh-ed25519")
  const ECDSA_PREFIX: seq<byte> := Ascii("ecdsa-sha2-")
  const CHECK: nat := 0xDEAD_BEEF
  const HEADER: seq<seq<byte>> := [NONE, NONE, []]

  function Padding(n: nat): (r: seq<byte>)
    requires n < 256
    ensures |r| == n && forall i | 0 <= i < n :: r[i] == i + 1
  {
    if n == 0 then [] else Padding(n - 1) + [n]
  }

  function ShortOfEight(n: nat): (k: nat)
    ensures k < 8 && (n + k) % 8 == 0
  {
    (8 - n % 8) % 8
  }

  lemma Filled(n: nat, k: nat)
    requires k <= ShortOfEight(n)
    ensures (n + k) % 8 == 0 <==> k == ShortOfEight(n)
  {
  }

  function Padded(s: seq<byte>): (r: seq<byte>)
    ensures |r| % 8 == 0 && |r| < |s| + 8
  {
    s + Padding(ShortOfEight(|s|))
  }

  function Section(data: seq<byte>, comment: seq<byte>): seq<byte> {
    Padded(U32(CHECK) + U32(CHECK) + data + Str(comment))
  }

  /** What `build_openssh_pem` puts under base64. */
  function Container(publicBlob: seq<byte>, data: seq<byte>, comment: seq<byte>): seq<byte> {
    MAGIC + (Strs(HEADER) + (U32(1) + Strs([publicBlob, Section(data, comment)])))
  }

  // ---- A reader of the container, after PROTOCOL.key ---------------------------------------------------

  /** An unencrypted key file: the public blob, the type, the fields that type has, and the comment. */
  datatype KeyFile = KeyFile(publicBlob: seq<byte>, keyType: seq<byte>, fields: seq<seq<byte>>, comment: seq<byte>)

  /** How many fields follow the type in the private section. */
  function FieldCount(keyType: seq<byte>): Option<nat> {
    if keyType == RSA then Some(6)
    else if keyType == ED25519 then Some(2)
    else if ECDSA_PREFIX <= keyType then Some(3)
    else None
  }

  /** Two equal check integers, the key, the comment, and 1, 2, 3, ... up to a multiple of eight. */
  function ReadSection(publicBlob: seq<byte>, s: seq<byte>): Option<KeyFile> {
    if |s| < 8 || |s| % 8 != 0 || FromU32(s) != FromU32(s[4..]) then None
    else
      var t := Fields(s[8..], 1);
      if t.None? then None
      else
        var keyType := t.value.0[0];
        var n := FieldCount(keyType);
        if n.None? then None
        else
          var f := Fields(t.value.1, n.value + 1);
          FieldsFit(t.value.1, n.value + 1);
          if f.None? || |f.value.1| >= 8 || f.value.1 != Padding(|f.value.1|) then None
          else Some(KeyFile(publicBlob, keyType, f.value.0[..n.value], f.value.0[n.value]))
  }

  /** After the count: the public blob and the private section, and nothing more. */
  function ReadBody(strings: seq<byte>): Option<KeyFile> {
    var b := Fields(strings, 2);
    FieldsFit(strings, 2);
    if b.None? || b.value.1 != [] then None else ReadSection(b.value.0[0], b.value.0[1])
  }

  function ReadKeyFile(c: seq<byte>): Option<KeyFile> {
    if !(MAGIC <= c) then None
    else
      var h := Fields(c[|MAGIC|..], 3);
      if h.None? || h.value.0 != HEADER || |h.value.1| < 4 || FromU32(h.value.1) != 1 then None
      else ReadBody(h.value.1[4..])
  }

  lemma {:induction false} StrsAppend(a: seq<seq<byte>>, b: seq<seq<byte>>)
    ensures Strs(a + b) == Strs(a) + Strs(b)
  {
    hide Str;
    if a == [] {
      assert a + b == b;
    } else {
      assert (a + b)[1..] == a[1..] + b;
      StrsAppend(a[1..], b);
      Regroup(Str(a[0]), Strs(a[1..]), Strs(b));
    }
  }

  lemma {:induction false} PartsAreShorter(fields: seq<seq<byte>>)
    ensures forall i | 0 <= i < |fields| :: |fields[i]| <= |Strs(fields)|
  {
    if fields != [] {
      PartsAreShorter(fields[1..]);
      assert forall i | 0 < i < |fields| :: fields[i] == fields[1..][i - 1];
    }
  }

  lemma OneStr(f: seq<byte>)
    ensures Strs([f]) == Str(f)
  {
    hide Str;
    assert Str(f) + [] == Str(f);
  }

  lemma SectionIs(keyType: seq<byte>, fields: seq<seq<byte>>, comment: seq<byte>)
    ensures exists n | 0 <= n < 8 ::
      Section(Strs([keyType] + fields), comment)
      == U32(CHECK) + (U32(CHECK) + (Strs([keyType]) + (Strs(fields + [comment]) + Padding(n))))
  {
    hide U32, Str, Strs;
    var all := [keyType] + fields;
    StrsAppend([keyType], fields);
    StrsAppend(fields, [comment]);
    OneStr(comment);
    var body := U32(CHECK) + U32(CHECK) + Strs(all) + Str(comment);
    var n := ShortOfEight(|body|);
    var tail := Strs(fields + [comment]);
    assert Section(Strs(all), comment) == body + Padding(n);
    hide Section, Padded;
    Regroup(Strs([keyType]), Strs(fields), Str(comment));
    Regroup(U32(CHECK) + U32(CHECK), Strs(all), Str(comment));
    Regroup(U32(CHECK) + U32(CHECK), Strs([keyType]) + tail, Padding(n));
    Regroup(U32(CHECK), U32(CHECK), Strs([keyType]) + tail + Padding(n));
    Regroup(Strs([keyType]), tail, Padding(n));
  }

  lemma CheckedTwice(rest: seq<byte>)
    ensures var s := U32(CHECK) + (U32(CHECK) + rest);
            |s| == 8 + |rest| && FromU32(s) == CHECK && FromU32(s[4..]) == CHECK && s[8..] == rest
  {
    U32RoundTrip(CHECK, U32(CHECK) + rest);
    U32RoundTrip(CHECK, rest);
    hide U32, FromU32;
    var s := U32(CHECK) + (U32(CHECK) + rest);
    assert s[4..] == U32(CHECK) + rest;
  }

  lemma SectionReads(publicBlob: seq<byte>, keyType: seq<byte>, fields: seq<seq<byte>>, comment: seq<byte>)
    requires FieldCount(keyType) == Some(|fields|)
    requires Fits(keyType) && AllFit(fields + [comment])
    ensures ReadSection(publicBlob, Section(Strs([keyType] + fields), comment))
         == Some(KeyFile(publicBlob, keyType, fields, comment))
  {
    hide U32, FromU32, Fields, Strs, FieldCount, Padding;
    var s := Section(Strs([keyType] + fields), comment);
    SectionIs(keyType, fields, comment);
    var n :| 0 <= n < 8
      && s == U32(CHECK) + (U32(CHECK) + (Strs([keyType]) + (Strs(fields + [comment]) + Padding(n))));
    var tail := Strs(fields + [comment]) + Padding(n);
    assert |s| % 8 == 0;
    hide Section;
    CheckedTwice(Strs([keyType]) + tail);
    StrsComeBack([keyType], tail);
    StrsComeBack(fields + [comment], Padding(n));
    assert (fields + [comment])[..|fields|] == fields;
  }

  lemma MagicComesOff(rest: seq<byte>)
    ensures MAGIC <= MAGIC + rest && (MAGIC + rest)[|MAGIC|..] == rest
  {
    hide Ascii;
  }

  lemma HeaderFits()
    ensures AllFit(HEADER)
  {
  }

  /** What reading comes to once the magic, the header and the count are past. */
  lemma HeaderReads(strings: seq<byte>)
    ensures ReadKeyFile(MAGIC + (Strs(HEADER) + (U32(1) + strings))) == ReadBody(strings)
  {
    hide U32, FromU32, Fields, Strs, Ascii, ReadBody;
    MagicComesOff(Strs(HEADER) + (U32(1) + strings));
    HeaderFits();
    StrsComeBack(HEADER, U32(1) + strings);
    U32RoundTrip(1, strings);
    assert (U32(1) + strings)[4..] == strings;
  }

  lemma TwoStrs(a: seq<byte>, b: seq<byte>)
    ensures Strs([a, b]) == Str(a) + Str(b)
  {
    hide Str;
    OneStr(b);
    assert [a, b][1..] == [b];
  }

  /** Two strings read back as what they were exactly when both fit. */
  lemma TwoComeBackExactly(a: seq<byte>, b: seq<byte>)
    ensures Fields(Strs([a, b]), 2) == Some(([a, b], [])) <==> Fits(a) && Fits(b)
    ensures Fits(a) && !Fits(b) && Fields(Strs([a, b]), 2).Some? ==> Fields(Strs([a, b]), 2).value.1 != []
  {
    hide U32, FromU32;
    if Fits(a) && Fits(b) {
      StrsComeBack([a, b], []);
      assert Strs([a, b]) + [] == Strs([a, b]);
    } else {
      FieldsFit(Strs([a, b]), 2);
      assert [a, b][0] == a && [a, b][1] == b;
      TwoStrs(a, b);
      if Fits(a) {
        StrComesBack(a, Str(b));
        StrComesBack(b, []);
        assert Str(b) + [] == Str(b);
        LastIsCutShort(b);
      }
    }
  }

  lemma LastIsCutShort(b: seq<byte>)
    requires !Fits(b)
    ensures Fields(Str(b), 1).Some? ==> Fields(Str(b), 1).value.1 != []
  {
    StrComesBack(b, []);
    hide U32, FromU32;
    assert Str(b) + [] == Str(b);
  }

  /** The container of a key reads back as that key, its public blob and its comment, if and only if
      the public blob and the private section have lengths four bytes can hold. */
  lemma ContainerReadsExactly(publicBlob: seq<byte>, keyType: seq<byte>, fields: seq<seq<byte>>, comment: seq<byte>)
    requires FieldCount(keyType) == Some(|fields|)
    ensures var data := Strs([keyType] + fields);
            ReadKeyFile(Container(publicBlob, data, comment)) == Some(KeyFile(publicBlob, keyType, fields, comment))
            <==> Fits(publicBlob) && Fits(Section(data, comment))
  {
    hide U32, FromU32, Fields, Strs, Ascii, FieldCount, Section, ReadSection, ReadKeyFile;
    var data := Strs([keyType] + fields);
    var section := Section(data, comment);
    HeaderReads(Strs([publicBlob, section]));
    FieldsFit(Strs([publicBlob, section]), 2);
    TwoComeBackExactly(publicBlob, section);
    if Fits(publicBlob) && Fits(section) {
      SectionHolds(keyType, fields, comment);
      SectionReads(publicBlob, keyType, fields, comment);
    } else {
      ReadSectionKeeps(Strs([publicBlob, section]));
    }
  }

  lemma SectionHolds(keyType: seq<byte>, fields: seq<seq<byte>>, comment: seq<byte>)
    requires Fits(Section(Strs([keyType] + fields), comment))
    ensures Fits(keyType) && AllFit(fields + [comment])
  {
    hide U32, Section, Strs;
    SectionIs(keyType, fields, comment);
    PartsAreShorter([keyType]);
    PartsAreShorter(fields + [comment]);
    assert [keyType][0] == keyType;
  }

  lemma ReadSectionKeeps(strings: seq<byte>)
    ensures var b := Fields(strings, 2);
            b.Some? ==> |b.value.0| == 2 && var k := ReadSection(b.value.0[0], b.value.0[1]);
              k.Some? ==> k.value.publicBlob == b.value.0[0] && Fits(b.value.0[0])
  {
    hide U32, FromU32, Fields;
    FieldsFit(strings, 2);
  }

  // ---- Reading and writing in place ----------------------------------------------------------------

  /** What one more string is, behind those already read. */
  lemma OneMore(data: seq<byte>, fields: seq<seq<byte>>, left: seq<byte>)
    requires Fields(data, |fields|) == Some((fields, left))
    ensures Fields(left, 1).Some? ==>
              |Fields(left, 1).value.0| == 1
              && Fields(data, |fields| + 1) == Some((fields + Fields(left, 1).value.0, Fields(left, 1).value.1))
    ensures Fields(left, 1).None? ==> forall n | n > |fields| :: Fields(data, n).None?
  {
    hide FromU32, Fields;
    FieldsFit(left, 1);
    FieldsAppend(data, |fields|, 1);
    if Fields(left, 1).None? {
      forall n | n > |fields| ensures Fields(data, n).None? {
        FieldsAppend(left, 1, n - |fields| - 1);
        FieldsAppend(data, |fields|, n - |fields|);
      }
    }
  }

  lemma OneField(s: seq<byte>)
    ensures Fields(s, 1) ==
      if |s| < 4 || |s| - 4 < FromU32(s) then None else Some(([s[4..4 + FromU32(s)]], s[4 + FromU32(s)..]))
  {
    hide FromU32;
    if |s| >= 4 && FromU32(s) <= |s| - 4 {
      var end := 4 + FromU32(s);
      assert Fields(s[end..], 0) == Some(([], s[end..]));
      assert [s[4..end]] + [] == [s[4..end]];
    }
  }

  /** Bytes, how far they have been read, and the strings behind that point. */
  class Cursor {
    const data: seq<byte>
    var pos: nat
    ghost var taken: seq<seq<byte>>

    constructor (data: seq<byte>)
      ensures this.data == data && taken == [] && Valid()
    {
      this.data, pos, taken := data, 0, [];
    }

    ghost predicate Valid()
      reads this
    {
      pos <= |data| && Fields(data, |taken|) == Some((taken, data[pos..]))
    }

    /** `ssh_read_u32`. */
    method ReadU32() returns (r: Option<nat>)
      requires pos <= |data|
      modifies this`pos
      ensures r == if |data| - old(pos) < 4 then None else Some(FromU32(data[old(pos)..]))
      ensures pos == if r.None? then old(pos) else old(pos) + 4
    {
      if pos + 4 > |data| {
        return None;
      }
      r := Some(FromU32(data[pos..pos + 4]));
      pos := pos + 4;
    }

    /** `ssh_read_bytes`: short of its bytes, it stops behind the length. */
    method ReadBytes() returns (r: Option<seq<byte>>)
      requires Valid()
      modifies this
      ensures r.Some? ==> Valid() && taken == old(taken) + [r.value]
      ensures r.None? ==> forall n | n > |old(taken)| :: Fields(data, n).None?
      ensures r.None? ==> pos == if |data| - old(pos) < 4 then old(pos) else old(pos) + 4
    {
      hide Fields, FromU32;
      ghost var left := data[pos..];
      OneField(left);
      OneMore(data, taken, left);
      var len := ReadU32();
      if len.None? {
        return None;
      }
      if pos + len.value > |data| {
        return None;
      }
      r := Some(data[pos..pos + len.value]);
      pos := pos + len.value;
      taken := taken + [r.value];
      assert left[4..4 + len.value] == r.value && left[4 + len.value..] == data[pos..];
    }

    /** `ssh_read_mpint`: the leading zeros go. */
    method ReadMpint() returns (r: Option<seq<byte>>)
      requires Valid()
      modifies this
      ensures r.Some? ==> Valid() && exists raw :: r.value == Strip(raw) && taken == old(taken) + [raw]
      ensures r.None? ==> forall n | n > |old(taken)| :: Fields(data, n).None?
    {
      hide Fields;
      var bytes := ReadBytes();
      if bytes.None? {
        return None;
      }
      ghost var at, behind := pos, taken;
      var i := 0;
      while i < |bytes.value| && bytes.value[i] == 0
        invariant pos == at && taken == behind
        invariant i <= |bytes.value| && Strip(bytes.value[i..]) == Strip(bytes.value)
      {
        assert bytes.value[i..][1..] == bytes.value[i + 1..];
        i := i + 1;
      }
      r := Some(bytes.value[i..]);
    }
  }

  /** Bytes being written. */
  class Buffer {
    var bytes: seq<byte>

    constructor ()
      ensures bytes == []
    {
      bytes := [];
    }

    method WriteU32(n: nat)
      modifies this
      ensures bytes == old(bytes) + U32(n)
    {
      bytes := bytes + U32(n);
    }

    method WriteBytes(data: seq<byte>)
      modifies this
      ensures bytes == old(bytes) + Str(data)
    {
      Regroup(bytes, U32(|data|), data);
      WriteU32(|data|);
      bytes := bytes + data;
    }

    /** `ssh_write_mpint`: no leading zeros, and one in front of a high bit. */
    method WriteMpint(data: seq<byte>)
      modifies this
      ensures bytes == old(bytes) + Str(MpintBytes(data))
    {
      var i := 0;
      while i < |data| && data[i] == 0
        invariant i <= |data| && Strip(data[i..]) == Strip(data)
      {
        assert data[i..][1..] == data[i + 1..];
        i := i + 1;
      }
      var stripped := data[i..];
      hide U32;
      if stripped == [] {
        assert Str([]) == U32(0);
        WriteU32(0);
      } else if stripped[0] >= 0x80 {
        Regroup(bytes, U32(|stripped| + 1), [0] + stripped);
        Regroup(bytes + U32(|stripped| + 1), [0], stripped);
        WriteU32(|stripped| + 1);
        bytes := bytes + [0];
        bytes := bytes + stripped;
      } else {
        WriteBytes(stripped);
      }
    }

    /** 1, 2, 3, ... until the length is a multiple of eight. */
    method Pad()
      modifies this
      ensures bytes == Padded(old(bytes))
    {
      hide ShortOfEight;
      ghost var short := ShortOfEight(|bytes|);
      var pad: byte := 1;
      while |bytes| % 8 != 0
        invariant 1 <= pad as int <= short + 1 && bytes == old(bytes) + Padding(pad as int - 1)
        decreases short + 1 - pad as int
      {
        Filled(|old(bytes)|, pad as int - 1);
        Regroup(old(bytes), Padding(pad as int - 1), [pad]);
        bytes := bytes + [pad];
        pad := (pad as int + 1) % 256;
      }
      Filled(|old(bytes)|, pad as int - 1);
    }
  }

  /** `build_openssh_pem`, before base64. */
  method BuildContainer(publicBlob: seq<byte>, data: seq<byte>, comment: seq<byte>) returns (r: seq<byte>)
    ensures r == Container(publicBlob, data, comment)
  {
    hide U32, Ascii, Str, Container, Padded, Section;
    var buf := new Buffer();
    buf.bytes := buf.bytes + MAGIC;
    buf.WriteBytes(NONE);
    buf.WriteBytes(NONE);
    buf.WriteBytes([]);
    buf.WriteU32(1);
    buf.WriteBytes(publicBlob);

    var section := new Buffer();
    section.WriteU32(CHECK);
    section.WriteU32(CHECK);
    section.bytes := section.bytes + data;
    section.WriteBytes(comment);
    section.Pad();
    SectionIsPadded(data, comment);
    ContainerIs(publicBlob, data, comment);
    buf.WriteBytes(section.bytes);
    r := buf.bytes;
  }

  lemma SectionIsPadded(data: seq<byte>, comment: seq<byte>)
    ensures Section(data, comment) == Padded([] + U32(CHECK) + U32(CHECK) + data + Str(comment))
  {
    assert [] + U32(CHECK) == U32(CHECK);
  }

  lemma ContainerIs(publicBlob: seq<byte>, data: seq<byte>, comment: seq<byte>)
    ensures Container(publicBlob, data, comment)
         == [] + MAGIC + Str(NONE) + Str(NONE) + Str([]) + U32(1) + Str(publicBlob) + Str(Section(data, comment))
  {
    hide U32, Ascii, Str, Section, Strs;
    var section := Section(data, comment);
    TwoStrs(publicBlob, section);
    ThreeStrs(NONE, NONE, []);
    var m, h, n, a, b := MAGIC, Str(NONE) + Str(NONE) + Str([]), U32(1), Str(publicBlob), Str(section);
    assert [] + m == m;
    Regroup(m, Str(NONE) + Str(NONE), Str([]));
    Regroup(m, Str(NONE), Str(NONE));
    Regroup(m, h, n + (a + b));
    Regroup(m + h, n, a + b);
    Regroup(m + h + n, a, b);
  }

  lemma ThreeStrs(a: seq<byte>, b: seq<byte>, c: seq<byte>)
    ensures Strs([a, b, c]) == Str(a) + Str(b) + Str(c)
  {
    hide Str;
    TwoStrs(b, c);
    assert [a, b, c][1..] == [b, c];
    Regroup(Str(a), Str(b), Str(c));
  }

  // ---- The three kinds of key ----------------------------------------------------------------------

  function Converted(keyType: seq<byte>, fields: seq<seq<byte>>, publicBlob: seq<byte>, comment: seq<byte>): seq<byte> {
    Container(publicBlob, Strs([keyType] + fields), comment)
  }

  /** PuTTY has type, e, n and d, p, q, 1/q mod p; OpenSSH wants n, e, d, 1/q mod p, p, q. */
  function RsaFields(pub: seq<seq<byte>>, priv: seq<seq<byte>>): seq<seq<byte>>
    requires |pub| == 3 && |priv| == 4
  {
    [MpintBytes(pub[2]), MpintBytes(pub[1]), MpintBytes(priv[0]), MpintBytes(priv[3]), MpintBytes(priv[1]),
      MpintBytes(priv[2])]
  }

  function RsaKey(publicBlob: seq<byte>, privateBlob: seq<byte>, comment: seq<byte>): Option<seq<byte>> {
    FieldsFit(publicBlob, 3);
    FieldsFit(privateBlob, 4);
    var a, b := Fields(publicBlob, 3), Fields(privateBlob, 4);
    if a.None? || b.None? then None else Some(Converted(RSA, RsaFields(a.value.0, b.value.0), publicBlob, comment))
  }

  function Ed25519Key(publicBlob: seq<byte>, privateBlob: seq<byte>, comment: seq<byte>): Option<seq<byte>> {
    FieldsFit(publicBlob, 2);
    FieldsFit(privateBlob, 1);
    var a, b := Fields(publicBlob, 2), Fields(privateBlob, 1);
    if a.None? || |a.value.0[1]| != 32 || b.None? || |b.value.0[0]| != 32 then None
    else Some(Converted(ED25519, [a.value.0[1], b.value.0[0] + a.value.0[1]], publicBlob, comment))
  }

  function EcdsaKey(algorithm: seq<byte>, publicBlob: seq<byte>, privateBlob: seq<byte>,
      comment: seq<byte>): Option<seq<byte>> {
    FieldsFit(publicBlob, 3);
    FieldsFit(privateBlob, 1);
    var a, b := Fields(publicBlob, 3), Fields(privateBlob, 1);
    if a.None? || b.None? then None
    else Some(Converted(algorithm, [a.value.0[1], a.value.0[2], MpintBytes(b.value.0[0])], publicBlob, comment))
  }

  lemma StripAgain(m: seq<byte>)
    ensures MpintBytes(Strip(m)) == MpintBytes(m)
  {
  }

  lemma StrsSnoc(fields: seq<seq<byte>>, f: seq<byte>)
    ensures Strs(fields + [f]) == Strs(fields) + Str(f)
  {
    hide Str;
    StrsAppend(fields, [f]);
    OneStr(f);
  }

  /** `build_rsa`. */
  method BuildRsa(publicBlob: seq<byte>, privateBlob: seq<byte>, comment: seq<byte>) returns (r: Option<seq<byte>>)
    ensures r == RsaKey(publicBlob, privateBlob, comment)
  {
    hide Fields, Container, Ascii, Strs, Str, MpintBytes, Strip;
    var pub := new Cursor(publicBlob);
    var algo := pub.ReadBytes();
    if algo.None? { return None; }
    var e := pub.ReadMpint();
    if e.None? { return None; }
    var n := pub.ReadMpint();
    if n.None? { return None; }

    var priv := new Cursor(privateBlob);
    var d := priv.ReadMpint();
    if d.None? { return None; }
    var p := priv.ReadMpint();
    if p.None? { return None; }
    var q := priv.ReadMpint();
    if q.None? { return None; }
    var iqmp := priv.ReadMpint();
    if iqmp.None? { return None; }
    ghost var a, b := pub.taken, priv.taken;
    ghost var fields := RsaFields(a, b);
    RsaFieldsStripped(a, b);
    assert RsaKey(publicBlob, privateBlob, comment) == Some(Container(publicBlob, Strs([RSA] + fields), comment));

    var pk := WriteRsa(n.value, e.value, d.value, iqmp.value, p.value, q.value);
    assert [RSA] + fields == [RSA, fields[0], fields[1], fields[2], fields[3], fields[4], fields[5]];
    var c := BuildContainer(publicBlob, pk, comment);
    r := Some(c);
  }

  /** The private key data of `build_rsa`, in OpenSSH's order. */
  method WriteRsa(n: seq<byte>, e: seq<byte>, d: seq<byte>, iqmp: seq<byte>, p: seq<byte>, q: seq<byte>)
    returns (r: seq<byte>)
    ensures r == Strs([RSA, MpintBytes(n), MpintBytes(e), MpintBytes(d), MpintBytes(iqmp), MpintBytes(p),
      MpintBytes(q)])
  {
    hide Ascii, Strs, Str, MpintBytes;
    var pk := new Buffer();
    pk.WriteBytes(RSA);
    pk.WriteMpint(n);
    pk.WriteMpint(e);
    pk.WriteMpint(d);
    pk.WriteMpint(iqmp);
    pk.WriteMpint(p);
    pk.WriteMpint(q);
    SevenStrs([RSA, MpintBytes(n), MpintBytes(e), MpintBytes(d), MpintBytes(iqmp), MpintBytes(p), MpintBytes(q)]);
    r := pk.bytes;
  }

  /** Stripping twice is stripping once. */
  lemma RsaFieldsStripped(pub: seq<seq<byte>>, priv: seq<seq<byte>>)
    requires |pub| == 3 && |priv| == 4
    ensures forall i | 0 <= i < 3 :: MpintBytes(Strip(pub[i])) == MpintBytes(pub[i])
    ensures forall i | 0 <= i < 4 :: MpintBytes(Strip(priv[i])) == MpintBytes(priv[i])
  {
    hide MpintBytes, Strip;
    forall i | 0 <= i < 3 ensures MpintBytes(Strip(pub[i])) == MpintBytes(pub[i]) {
      StripAgain(pub[i]);
    }
    forall i | 0 <= i < 4 ensures MpintBytes(Strip(priv[i])) == MpintBytes(priv[i]) {
      StripAgain(priv[i]);
    }
  }

  /** Strings written one after the other. */
  lemma {:induction false} WrittenInOrder(fields: seq<seq<byte>>, n: nat)
    requires n < |fields|
    ensures Strs(fields[..n + 1]) == Strs(fields[..n]) + Str(fields[n])
  {
    hide Str;
    assert fields[..n + 1] == fields[..n] + [fields[n]];
    StrsSnoc(fields[..n], fields[n]);
  }

  lemma FourStrs(f: seq<seq<byte>>)
    requires |f| == 4
    ensures [] + Str(f[0]) + Str(f[1]) + Str(f[2]) + Str(f[3]) == Strs(f)
  {
    hide Str, Strs;
    assert Strs(f[..0]) == [] by { NoStrs(); }
    WrittenInOrder(f, 0);
    WrittenInOrder(f, 1);
    WrittenInOrder(f, 2);
    WrittenInOrder(f, 3);
    assert f[..4] == f;
  }

  lemma NoStrs()
    ensures Strs([]) == []
  {
  }

  lemma SevenStrs(f: seq<seq<byte>>)
    requires |f| == 7
    ensures [] + Str(f[0]) + Str(f[1]) + Str(f[2]) + Str(f[3]) + Str(f[4]) + Str(f[5]) + Str(f[6]) == Strs(f)
  {
    hide Str, Strs;
    FourStrs(f[..4]);
    WrittenInOrder(f, 4);
    WrittenInOrder(f, 5);
    WrittenInOrder(f, 6);
    assert f[..7] == f;
  }

  /** `build_ed25519`: the seed and the public half go together behind the public half. */
  method BuildEd25519(publicBlob: seq<byte>, privateBlob: seq<byte>, comment: seq<byte>) returns (r: Option<seq<byte>>)
    ensures r == Ed25519Key(publicBlob, privateBlob, comment)
  {
    hide Fields, Container, Ascii, Strs, Str;
    var pub := new Cursor(publicBlob);
    var algo := pub.ReadBytes();
    if algo.None? { return None; }
    var pubBytes := pub.ReadBytes();
    if pubBytes.None? || |pubBytes.value| != 32 { return None; }

    var priv := new Cursor(privateBlob);
    var seed := priv.ReadBytes();
    if seed.None? || |seed.value| != 32 { return None; }

    var combined := seed.value + pubBytes.value;
    var pk := new Buffer();
    pk.WriteBytes(ED25519);
    pk.WriteBytes(pubBytes.value);
    pk.WriteBytes(combined);
    ThreeStrs(ED25519, pubBytes.value, combined);
    assert [] + Str(ED25519) == Str(ED25519);
    assert [ED25519] + [pubBytes.value, combined] == [ED25519, pubBytes.value, combined];
    var c := BuildContainer(publicBlob, pk.bytes, comment);
    r := Some(c);
  }

  /** `build_ecdsa`: the type is the file's, the curve and the point the blob's. */
  method BuildEcdsa(algorithm: seq<byte>, publicBlob: seq<byte>, privateBlob: seq<byte>, comment: seq<byte>)
    returns (r: Option<seq<byte>>)
    ensures r == EcdsaKey(algorithm, publicBlob, privateBlob, comment)
  {
    hide Fields, Container, Ascii, Strs, Str, MpintBytes, Strip;
    var pub := new Cursor(publicBlob);
    var algo := pub.ReadBytes();
    if algo.None? { return None; }
    var curve := pub.ReadBytes();
    if curve.None? { return None; }
    var point := pub.ReadBytes();
    if point.None? { return None; }

    var priv := new Cursor(privateBlob);
    var scalar := priv.ReadMpint();
    if scalar.None? { return None; }
    StripAgain(priv.taken[0]);

    ghost var m := MpintBytes(scalar.value);
    var pk := new Buffer();
    pk.WriteBytes(algorithm);
    pk.WriteBytes(curve.value);
    pk.WriteBytes(point.value);
    pk.WriteMpint(scalar.value);
    FourStrs([algorithm, curve.value, point.value, m]);
    assert [algorithm] + [curve.value, point.value, m] == [algorithm, curve.value, point.value, m];
    var c := BuildContainer(publicBlob, pk.bytes, comment);
    r := Some(c);
  }

  // ---- What a converted key says -------------------------------------------------------------------

  /** A converted key with lengths four bytes can hold. */
  predicate Holdable(r: Option<seq<byte>>, publicBlob: seq<byte>, keyType: seq<byte>, fields: seq<seq<byte>>,
      comment: seq<byte>) {
    r == Some(Converted(keyType, fields, publicBlob, comment)) && Fits(publicBlob)
      && Fits(Section(Strs([keyType] + fields), comment))
  }

  /** Every field the canonical form of the number it came from. */
  predicate SameNumbers(fields: seq<seq<byte>>, from: seq<seq<byte>>) {
    && |fields| == |from|
    && forall i | 0 <= i < |from| :: IsCanonical(fields[i]) && Signed(fields[i]) == Natural(from[i])
  }

  lemma RsaNumbers(pub: seq<seq<byte>>, priv: seq<seq<byte>>)
    requires |pub| == 3 && |priv| == 4
    ensures SameNumbers(RsaFields(pub, priv), [pub[2], pub[1], priv[0], priv[3], priv[1], priv[2]])
  {
    hide MpintBytes, Signed, IsCanonical, Natural, Strip;
    var from := [pub[2], pub[1], priv[0], priv[3], priv[1], priv[2]];
    var fields := RsaFields(pub, priv);
    forall i | 0 <= i < 6 ensures IsCanonical(fields[i]) && Signed(fields[i]) == Natural(from[i]) {
      MpintIsCanonical(from[i]);
    }
  }

  /** An RSA key comes across with the same public blob and comment, and every number the same: n, e, d,
      1/q mod p, p and q where OpenSSH looks for them, each in its canonical form. */
  lemma RsaComesAcross(publicBlob: seq<byte>, privateBlob: seq<byte>, comment: seq<byte>)
    ensures RsaKey(publicBlob, privateBlob, comment).Some?
       <==> Fields(publicBlob, 3).Some? && Fields(privateBlob, 4).Some?
    ensures var r := RsaKey(publicBlob, privateBlob, comment);
            r.Some? ==>
              var a, b := Fields(publicBlob, 3).value.0, Fields(privateBlob, 4).value.0;
              |a| == 3 && |b| == 4 &&
              var fields := RsaFields(a, b);
              && SameNumbers(fields, [a[2], a[1], b[0], b[3], b[1], b[2]])
              && (ReadKeyFile(r.value) == Some(KeyFile(publicBlob, RSA, fields, comment))
                  <==> Holdable(r, publicBlob, RSA, fields, comment))
  {
    hide Fields, Container, Ascii, Strs, Section, ReadKeyFile, RsaFields, SameNumbers, FieldCount;
    FieldsFit(publicBlob, 3);
    FieldsFit(privateBlob, 4);
    Types();
    if RsaKey(publicBlob, privateBlob, comment).Some? {
      var a, b := Fields(publicBlob, 3).value.0, Fields(privateBlob, 4).value.0;
      RsaNumbers(a, b);
      SixRsaFields(a, b);
      ContainerReadsExactly(publicBlob, RSA, RsaFields(a, b), comment);
    }
  }

  lemma SixRsaFields(pub: seq<seq<byte>>, priv: seq<seq<byte>>)
    requires |pub| == 3 && |priv| == 4
    ensures |RsaFields(pub, priv)| == 6
  {
  }

  lemma Types()
    ensures FieldCount(RSA) == Some(6) && FieldCount(ED25519) == Some(2)
  {
    hide Ascii;
    TypesStart();
  }

  /** An Ed25519 key comes across whole: the seed in front of the public half. */
  lemma Ed25519ComesAcross(publicBlob: seq<byte>, privateBlob: seq<byte>, comment: seq<byte>)
    ensures Ed25519Key(publicBlob, privateBlob, comment).Some?
       <==> && (exists a, left :: Fields(publicBlob, 2) == Some((a, left)) && |a| == 2 && |a[1]| == 32)
            && exists b, left :: Fields(privateBlob, 1) == Some((b, left)) && |b| == 1 && |b[0]| == 32
    ensures var r := Ed25519Key(publicBlob, privateBlob, comment);
            r.Some? ==>
              var a, b := Fields(publicBlob, 2).value.0, Fields(privateBlob, 1).value.0;
              |a| == 2 && |b| == 1 && |a[1]| == 32 && |b[0]| == 32 &&
              var fields := [a[1], b[0] + a[1]];
              ReadKeyFile(r.value) == Some(KeyFile(publicBlob, ED25519, fields, comment))
              <==> Holdable(r, publicBlob, ED25519, fields, comment)
  {
    hide Fields, Container, Ascii, Strs, Section, ReadKeyFile, FieldCount;
    FieldsFit(publicBlob, 2);
    FieldsFit(privateBlob, 1);
    Types();
    if Ed25519Key(publicBlob, privateBlob, comment).Some? {
      var a, b := Fields(publicBlob, 2).value.0, Fields(privateBlob, 1).value.0;
      ContainerReadsExactly(publicBlob, ED25519, [a[1], b[0] + a[1]], comment);
    }
  }

  /** An ECDSA key comes across with its curve and point, and its secret number the same. */
  lemma EcdsaComesAcross(algorithm: seq<byte>, publicBlob: seq<byte>, privateBlob: seq<byte>, comment: seq<byte>)
    requires ECDSA_PREFIX <= algorithm
    ensures EcdsaKey(algorithm, publicBlob, privateBlob, comment).Some?
       <==> Fields(publicBlob, 3).Some? && Fields(privateBlob, 1).Some?
    ensures var r := EcdsaKey(algorithm, publicBlob, privateBlob, comment);
            r.Some? ==>
              var a, b := Fields(publicBlob, 3).value.0, Fields(privateBlob, 1).value.0;
              |a| == 3 && |b| == 1 &&
              var fields := [a[1], a[2], MpintBytes(b[0])];
              && (ReadKeyFile(r.value) == Some(KeyFile(publicBlob, algorithm, fields, comment))
                  <==> Holdable(r, publicBlob, algorithm, fields, comment))
              && IsCanonical(fields[2]) && Signed(fields[2]) == Natural(b[0])
  {
    hide Fields, Container, Ascii, Strs, Section, MpintBytes, ReadKeyFile, Signed, IsCanonical, Natural, Strip,
      FieldCount;
    FieldsFit(publicBlob, 3);
    FieldsFit(privateBlob, 1);
    EcdsaCount(algorithm);
    if EcdsaKey(algorithm, publicBlob, privateBlob, comment).Some? {
      var a, b := Fields(publicBlob, 3).value.0, Fields(privateBlob, 1).value.0;
      MpintIsCanonical(b[0]);
      ContainerReadsExactly(publicBlob, algorithm, [a[1], a[2], MpintBytes(b[0])], comment);
    }
  }

  lemma EcdsaCount(algorithm: seq<byte>)
    requires ECDSA_PREFIX <= algorithm
    ensures FieldCount(algorithm) == Some(3)
  {
    hide Ascii;
    TypesStart();
    assert algorithm[0] == ECDSA_PREFIX[0];
  }

  lemma TypesStart()
    ensures |ECDSA_PREFIX| == 11 && ECDSA_PREFIX[0] == 'e' as int
    ensures |RSA| == 7 && RSA[0] == 's' as int && |ED25519| == 11 && ED25519[0] == 's' as int
  {
    hide Ascii;
  }
}
