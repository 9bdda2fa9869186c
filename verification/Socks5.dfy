/** The SOCKS5 server side of a dynamic forward: sections 3 to 6 of RFC 1928 and section 2 of
    RFC 1929, CONNECT only. */
module Socks5 {
  import opened Bytes
  import Decimal
  import Utf8
  import opened Wrappers

  /** Text as the scalars it is made of. */
  type Text = seq<int>

  datatype Credentials = Credentials(username: seq<byte>, password: seq<byte>)

  datatype Error =
    | EndOfStream
    | NotSocks5
    | NoLoginOffered
    | UnknownLoginVersion
    | WrongLogin
    | OnlyConnect
    | UnknownAddressType

  datatype Result<T> = Ok(value: T) | Err(error: Error)

  // ---- Equality that looks at every byte -----------------------------------------------

  /** `^` and `|`, bit by bit. */
  function Xor(a: nat, b: nat): nat
    decreases a + b
  {
    if a == 0 && b == 0 then 0 else 2 * Xor(a / 2, b / 2) + (if a % 2 == b % 2 then 0 else 1)
  }

  function Or(a: nat, b: nat): nat
    decreases a + b
  {
    if a == 0 && b == 0 then 0 else 2 * Or(a / 2, b / 2) + (if a % 2 + b % 2 == 0 then 0 else 1)
  }

  lemma {:induction false} XorIsZero(a: nat, b: nat)
    ensures Xor(a, b) == 0 <==> a == b
    decreases a + b
  {
    if a != 0 || b != 0 {
      XorIsZero(a / 2, b / 2);
    }
  }

  lemma {:induction false} OrIsZero(a: nat, b: nat)
    ensures Or(a, b) == 0 <==> a == 0 && b == 0
    decreases a + b
  {
    if a != 0 || b != 0 {
      OrIsZero(a / 2, b / 2);
    }
  }

  lemma OneDifference(a: seq<byte>, b: seq<byte>, acc: nat)
    requires |a| == |b| > 0
    ensures (Or(acc, Xor(a[0], b[0])) == 0 && a[1..] == b[1..]) <==> (acc == 0 && a == b)
  {
    XorIsZero(a[0], b[0]);
    OrIsZero(acc, Xor(a[0], b[0]));
    assert a == [a[0]] + a[1..] && b == [b[0]] + b[1..];
  }

  function Differences(a: seq<byte>, b: seq<byte>, acc: nat): (r: nat)
    requires |a| == |b|
    ensures r == 0 <==> acc == 0 && a == b
  {
    if a == [] then acc
    else
      OneDifference(a, b, acc);
      Differences(a[1..], b[1..], Or(acc, Xor(a[0], b[0])))
  }

  predicate Same(a: seq<byte>, b: seq<byte>)
    ensures Same(a, b) <==> a == b
  {
    |a| == |b| && Differences(a, b, 0) == 0
  }

  // ---- How addresses are written down --------------------------------------------------

  function Scalars(s: string): Text {
    seq(|s|, i requires 0 <= i < |s| => s[i] as int)
  }

  function HexDigit(n: nat): int
    requires n < 16
  {
    if n < 10 then '0' as int + n else 'a' as int + n - 10
  }

  function Hex2(b: byte): Text {
    [HexDigit(b / 16), HexDigit(b % 16)]
  }

  function Dotted(a: seq<byte>): Text
    requires |a| == 4
  {
    Scalars(Decimal.Digits(a[0]) + "." + Decimal.Digits(a[1]) + "." + Decimal.Digits(a[2]) + "." + Decimal.Digits(a[3]))
  }

  /** Pairs of bytes as four hex digits, colons between. */
  function Segments(a: seq<byte>): Text
    requires |a| % 2 == 0
  {
    if a == [] then []
    else if |a| == 2 then Hex2(a[0]) + Hex2(a[1])
    else Hex2(a[0]) + Hex2(a[1]) + [':' as int] + Segments(a[2..])
  }

  // ---- Reading an address back -----------------------------------------------------------

  /** The stretches of text between separators. */
  function Parts(t: Text, sep: int): (r: seq<Text>)
    ensures r != []
  {
    if t == [] then [[]]
    else
      var rest := Parts(t[1..], sep);
      if t[0] == sep then [[]] + rest else [[t[0]] + rest[0]] + rest[1..]
  }

  lemma {:induction false} OnePart(a: Text, sep: int)
    requires sep !in a
    ensures Parts(a, sep) == [a]
  {
    if a != [] {
      OnePart(a[1..], sep);
      assert [a[0]] + a[1..] == a;
    }
  }

  lemma {:induction false} PartThen(a: Text, sep: int, rest: Text)
    requires sep !in a
    ensures Parts(a + [sep] + rest, sep) == [a] + Parts(rest, sep)
  {
    var t := a + [sep] + rest;
    if a == [] {
      assert t[1..] == rest;
    } else {
      PartThen(a[1..], sep, rest);
      assert t[1..] == a[1..] + [sep] + rest;
      assert [a[0]] + a[1..] == a;
    }
  }

  predicate IsDecimal(t: Text) {
    t != [] && forall i | 0 <= i < |t| :: '0' as int <= t[i] <= '9' as int
  }

  function Characters(t: Text): (s: string)
    requires forall i | 0 <= i < |t| :: 0 <= t[i] < 128
  {
    seq(|t|, i requires 0 <= i < |t| => t[i] as char)
  }

  /** A number from 0 to 255. */
  function ReadOctet(t: Text): Option<byte> {
    if !IsDecimal(t) then None
    else
      var n := Decimal.Number(Characters(t));
      if n < 256 then Some(n) else None
  }

  /** Four numbers between dots. */
  function ReadV4(t: Text): Option<seq<byte>> {
    var p := Parts(t, '.' as int);
    if |p| != 4 then None
    else
      var a, b, c, d := ReadOctet(p[0]), ReadOctet(p[1]), ReadOctet(p[2]), ReadOctet(p[3]);
      if a == None || b == None || c == None || d == None then None else Some([a.value, b.value, c.value, d.value])
  }

  function HexValue(c: int): (r: Option<nat>)
    ensures r.Some? ==> r.value < 16
  {
    if '0' as int <= c <= '9' as int then Some(c - '0' as int)
    else if 'a' as int <= c <= 'f' as int then Some(c - 'a' as int + 10)
    else if 'A' as int <= c <= 'F' as int then Some(c - 'A' as int + 10)
    else None
  }

  /** Four hexadecimal digits as two bytes, the high one first. */
  function ReadGroup(t: Text): Option<seq<byte>> {
    if |t| != 4 then None
    else
      var a, b, c, d := HexValue(t[0]), HexValue(t[1]), HexValue(t[2]), HexValue(t[3]);
      if a == None || b == None || c == None || d == None then None
      else Some([16 * a.value + b.value, 16 * c.value + d.value])
  }

  function ReadGroups(parts: seq<Text>): Option<seq<byte>> {
    if parts == [] then Some([])
    else
      var g, rest := ReadGroup(parts[0]), ReadGroups(parts[1..]);
      if g == None || rest == None then None else Some(g.value + rest.value)
  }

  /** Eight groups between colons, none left out. */
  function ReadV6(t: Text): Option<seq<byte>> {
    var p := Parts(t, ':' as int);
    if |p| != 8 then None else ReadGroups(p)
  }

  lemma CharactersComeBack(s: string)
    requires Decimal.AllDigits(s)
    ensures Characters(Scalars(s)) == s && '.' as int !in Scalars(s) && (s != "" ==> IsDecimal(Scalars(s)))
  {
    assert forall i | 0 <= i < |s| :: Decimal.IsDigit(s[i]);
  }

  lemma OctetIsRead(b: byte)
    ensures ReadOctet(Scalars(Decimal.Digits(b))) == Some(b) && '.' as int !in Scalars(Decimal.Digits(b))
  {
    hide Decimal.Digits, Decimal.Number, Decimal.AllDigits, Scalars, Characters, IsDecimal;
    Decimal.DigitsAreRead(b);
    CharactersComeBack(Decimal.Digits(b));
  }

  lemma DottedParts(a: Text, b: Text, c: Text, d: Text)
    requires '.' as int !in a && '.' as int !in b && '.' as int !in c && '.' as int !in d
    ensures var dot := ['.' as int]; Parts(a + dot + b + dot + c + dot + d, '.' as int) == [a, b, c, d]
  {
    var dot := ['.' as int];
    assert a + dot + b + dot + c + dot + d == a + dot + (b + dot + (c + dot + d));
    PartThen(a, '.' as int, b + dot + (c + dot + d));
    PartThen(b, '.' as int, c + dot + d);
    PartThen(c, '.' as int, d);
    OnePart(d, '.' as int);
    assert [a] + ([b] + ([c] + [d])) == [a, b, c, d];
  }

  /** The text of an IPv4 address reads back as its four bytes, in order. */
  lemma DottedIsRead(a: seq<byte>)
    requires |a| == 4
    ensures ReadV4(Dotted(a)) == Some(a)
  {
    hide Parts, ReadOctet;
    var s0, s1 := Scalars(Decimal.Digits(a[0])), Scalars(Decimal.Digits(a[1]));
    var s2, s3 := Scalars(Decimal.Digits(a[2])), Scalars(Decimal.Digits(a[3]));
    OctetIsRead(a[0]);
    OctetIsRead(a[1]);
    OctetIsRead(a[2]);
    OctetIsRead(a[3]);
    DottedIsParts(a);
    DottedParts(s0, s1, s2, s3);
    assert [a[0], a[1], a[2], a[3]] == a;
  }

  lemma DottedIsParts(a: seq<byte>)
    requires |a| == 4
    ensures var dot, s := ['.' as int], (i: nat) requires i < 4 => Scalars(Decimal.Digits(a[i]));
      Dotted(a) == s(0) + dot + s(1) + dot + s(2) + dot + s(3)
  {
    hide Decimal.Digits;
  }

  lemma HexIsRead(b: byte)
    ensures var hi, lo := HexValue(HexDigit(b / 16)), HexValue(HexDigit(b % 16));
      hi.Some? && lo.Some? && 16 * hi.value + lo.value == b
    ensures Hex2(b) == [HexDigit(b / 16), HexDigit(b % 16)] && ':' as int !in Hex2(b)
  {
  }

  lemma GroupIsRead(a: byte, b: byte)
    ensures ReadGroup(Hex2(a) + Hex2(b)) == Some([a, b]) && ':' as int !in Hex2(a) + Hex2(b)
  {
    hide HexValue, HexDigit, Hex2;
    HexIsRead(a);
    HexIsRead(b);
  }

  lemma GroupsThen(group: Text, rest: seq<Text>)
    requires ReadGroup(group).Some? && ReadGroups(rest).Some?
    ensures ReadGroups([group] + rest) == Some(ReadGroup(group).value + ReadGroups(rest).value)
  {
    hide ReadGroup;
    assert ([group] + rest)[1..] == rest;
  }

  lemma {:induction false} SegmentsAreRead(a: seq<byte>)
    requires |a| % 2 == 0 && a != []
    ensures |Parts(Segments(a), ':' as int)| == |a| / 2 && ReadGroups(Parts(Segments(a), ':' as int)) == Some(a)
  {
    hide Hex2, ReadGroup, Parts;
    var group, colon := Hex2(a[0]) + Hex2(a[1]), ':' as int;
    GroupIsRead(a[0], a[1]);
    if |a| == 2 {
      OnePart(group, colon);
      GroupsThen(group, []);
      assert [group] + [] == [group] && [a[0], a[1]] + [] == a;
    } else {
      SegmentsAreRead(a[2..]);
      PartThen(group, colon, Segments(a[2..]));
      assert Segments(a) == group + [colon] + Segments(a[2..]);
      GroupsThen(group, Parts(Segments(a[2..]), colon));
      assert [a[0], a[1]] + a[2..] == a;
    }
  }

  /** The text of an IPv6 address reads back as its sixteen bytes, in order. */
  lemma SegmentsIsRead(a: seq<byte>)
    requires |a| == 16
    ensures ReadV6(Segments(a)) == Some(a)
  {
    SegmentsAreRead(a);
  }

  // ---- The stream ------------------------------------------------------------------------

  /** A connection: what the client has to say, how much of it was read, what was answered. */
  class Stream {
    const input: seq<byte>
    var at: nat
    var written: seq<byte>

    constructor (input: seq<byte>)
      ensures this.input == input && at == 0 && written == []
    {
      this.input := input;
      at, written := 0, [];
    }

    /** `read_exact`: that many bytes, or the end of the stream with nothing more to read. */
    method ReadExact(n: nat) returns (r: Result<seq<byte>>)
      requires at <= |input|
      modifies this`at
      ensures at <= |input|
      ensures r.Ok? <==> old(at) + n <= |input|
      ensures r.Ok? ==> at == old(at) + n && r.value == input[old(at)..at]
      ensures r.Err? ==> r.error == EndOfStream && at == |input|
    {
      if at + n > |input| {
        at := |input|;
        return Err(EndOfStream);
      }
      at := at + n;
      return Ok(input[at - n..at]);
    }

    method WriteAll(bytes: seq<byte>)
      modifies this`written
      ensures written == old(written) + bytes
    {
      written := written + bytes;
    }
  }

  // ---- What the two ends should say --------------------------------------------------------

  datatype Address = V4(octets: seq<byte>) | Name(name: seq<byte>) | V6(octets: seq<byte>)

  predicate ValidAddress(a: Address) {
    match a
    case V4(o) => |o| == 4
    case Name(n) => |n| < 256
    case V6(o) => |o| == 16
  }

  function EncodeAddress(a: Address): seq<byte>
    requires ValidAddress(a)
  {
    match a
    case V4(o) => [1] + o
    case Name(n) => [3, |n|] + n
    case V6(o) => [4] + o
  }

  function HostText(a: Address): Text
    requires ValidAddress(a)
  {
    match a
    case V4(o) => Dotted(o)
    case Name(n) => Utf8.FromUtf8Lossy(n)
    case V6(o) => Segments(o)
  }

  /** The text says this address. */
  predicate Says(host: Text, a: Address) {
    match a
    case V4(o) => ReadV4(host) == Some(o)
    case Name(n) => host == Utf8.FromUtf8Lossy(n)
    case V6(o) => ReadV6(host) == Some(o)
  }

  lemma HostTextSays(a: Address)
    requires ValidAddress(a)
    ensures Says(HostText(a), a)
  {
    hide ReadV4, ReadV6, Dotted, Segments;
    match a
    case V4(o) => DottedIsRead(o);
    case Name(_) =>
    case V6(o) => SegmentsIsRead(o);
  }

  predicate ValidGreeting(methods: seq<byte>) {
    |methods| < 256
  }

  function EncodeGreeting(methods: seq<byte>): seq<byte>
    requires ValidGreeting(methods)
  {
    [5, |methods|] + methods
  }

  predicate ValidLogin(c: Credentials) {
    |c.username| < 256 && |c.password| < 256
  }

  function EncodeLogin(c: Credentials): seq<byte>
    requires ValidLogin(c)
  {
    [1, |c.username|] + c.username + [|c.password|] + c.password
  }

  datatype Connect = Connect(reserved: byte, address: Address, port: nat)

  predicate ValidConnect(c: Connect) {
    ValidAddress(c.address) && c.port < 0x1_0000
  }

  function EncodeConnect(c: Connect): seq<byte>
    requires ValidConnect(c)
  {
    [5, 1, c.reserved] + EncodeAddress(c.address) + [c.port / 256, c.port % 256]
  }

  /** All a client says when it goes as it should, with a login where one is asked for. */
  datatype Client = Client(methods: seq<byte>, login: Option<Credentials>, connect: Connect)

  predicate Valid(c: Client) {
    && ValidGreeting(c.methods)
    && ValidConnect(c.connect)
    && (c.login.Some? ==> ValidLogin(c.login.value))
  }

  function Encode(c: Client): seq<byte>
    requires Valid(c)
  {
    EncodeGreeting(c.methods) + (if c.login.Some? then EncodeLogin(c.login.value) else []) + EncodeConnect(c.connect)
  }

  /** Whether a client that says this is let in, and what it has been told by then. */
  predicate Welcome(c: Client, auth: Option<Credentials>) {
    match auth
    case None => c.login == None
    case Some(creds) => 2 in c.methods && c.login == Some(creds)
  }

  function Answers(auth: Option<Credentials>): seq<byte> {
    if auth == None then [5, 0] else [5, 2, 1, 0]
  }

  const REFUSED: seq<byte> := [5, 7, 0, 1, 0, 0, 0, 0, 0, 0]

  // ---- The answers as the client reads them -----------------------------------------------------

  datatype Answer = Answer(code: byte, bound: Address, port: nat)

  const SUCCEEDED: byte := 0
  const GENERAL_FAILURE: byte := 1
  const COMMAND_NOT_SUPPORTED: byte := 7

  /** Section 6 of RFC 1928: version, reply, a reserved zero, an address, a port. */
  function ReadAnswer(s: seq<byte>): Option<(Answer, seq<byte>)> {
    if |s| < 5 || s[0] != 5 || s[2] != 0 then None
    else
      var end := if s[3] == 1 then 8 else if s[3] == 3 then 5 + s[4] as int else if s[3] == 4 then 20 else |s|;
      if |s| < end + 2 then None
      else
        var bound := if s[3] == 1 then V4(s[4..8]) else if s[3] == 3 then Name(s[5..end]) else V6(s[4..20]);
        Some((Answer(s[1], bound, FromU16(s[end], s[end + 1])), s[end + 2..]))
  }

  /** The method chosen, the login let in when that was asked for, and the answer to CONNECT: section 3
      of RFC 1928, section 2 of RFC 1929, then the above. */
  function ReadAnswers(s: seq<byte>): Option<(byte, Answer, seq<byte>)> {
    if |s| < 2 || s[0] != 5 then None
    else if s[1] == 2 && (|s| < 4 || s[2] != 1 || s[3] != 0) then None
    else
      var a := ReadAnswer(s[if s[1] == 2 then 4 else 2..]);
      if a.None? then None else Some((s[1], a.value.0, a.value.1))
  }

  const NOWHERE: Address := V4([0, 0, 0, 0])

  /** A client told all this reads the method, then the answer, and nothing is left over. */
  lemma ClientIsTold(auth: Option<Credentials>, told: seq<byte>, a: Answer)
    requires ReadAnswer(told) == Some((a, []))
    ensures ReadAnswers(Answers(auth) + told) == Some((if auth.Some? then 2 else 0, a, []))
  {
    hide ReadAnswer;
    var n := |Answers(auth)|;
    assert (Answers(auth) + told)[n..] == told;
  }

  /** What a client asking for anything but CONNECT is told, after section 6: command not supported. */
  lemma RefusalIsRead()
    ensures ReadAnswer(REFUSED) == Some((Answer(COMMAND_NOT_SUPPORTED, NOWHERE, 0), []))
  {
    BoundNowhere(7);
  }

  lemma BoundNowhere(code: byte)
    ensures ReadAnswer([5, code, 0, 1, 0, 0, 0, 0, 0, 0]) == Some((Answer(code, NOWHERE, 0), []))
  {
    var s: seq<byte> := [5, code, 0, 1, 0, 0, 0, 0, 0, 0];
    assert s[4..8] == [0, 0, 0, 0] && s[10..] == [];
  }

  // ---- The three readings, as functions of what is left of the stream ------------------------

  datatype Read<T> = Read(result: Result<T>, used: nat)

  function ReadGreeting(s: seq<byte>): Read<seq<byte>> {
    if |s| < 2 then Read(Err(EndOfStream), |s|)
    else if s[0] != 5 then Read(Err(NotSocks5), 2)
    else if |s| < 2 + s[1] as int then Read(Err(EndOfStream), |s|)
    else Read(Ok(s[2..2 + s[1] as int]), 2 + s[1] as int)
  }

  function ReadLogin(s: seq<byte>): Read<Credentials> {
    if |s| < 2 then Read(Err(EndOfStream), |s|)
    else if s[0] != 1 then Read(Err(UnknownLoginVersion), 2)
    else
      var p := 2 + s[1] as int;
      if |s| < p + 1 then Read(Err(EndOfStream), |s|)
      else
        var e := p + 1 + s[p] as int;
        if |s| < e then Read(Err(EndOfStream), |s|)
        else Read(Ok(Credentials(s[2..p], s[p + 1..e])), e)
  }

  function ReadConnect(s: seq<byte>): Read<(Text, nat)> {
    if |s| < 4 then Read(Err(EndOfStream), |s|)
    else if s[0] != 5 || s[1] != 1 then Read(Err(OnlyConnect), 4)
    else if s[3] == 1 then
      if |s| < 10 then Read(Err(EndOfStream), |s|)
      else Read(Ok((Dotted(s[4..8]), FromU16(s[8], s[9]))), 10)
    else if s[3] == 3 then
      if |s| < 5 then Read(Err(EndOfStream), |s|)
      else
        var e := 5 + s[4] as int;
        if |s| < e + 2 then Read(Err(EndOfStream), |s|)
        else Read(Ok((Utf8.FromUtf8Lossy(s[5..e]), FromU16(s[e], s[e + 1]))), e + 2)
    else if s[3] == 4 then
      if |s| < 22 then Read(Err(EndOfStream), |s|)
      else Read(Ok((Segments(s[4..20]), FromU16(s[20], s[21]))), 22)
    else Read(Err(UnknownAddressType), 4)
  }

  /** A greeting that is read is the start of a well-formed one, and the other way round. */
  lemma GreetingIsRead(s: seq<byte>, methods: seq<byte>)
    ensures ReadGreeting(s).result == Ok(methods) <==> ValidGreeting(methods) && EncodeGreeting(methods) <= s
    ensures ReadGreeting(s).result == Ok(methods) ==> ReadGreeting(s).used == |EncodeGreeting(methods)|
  {
    if ValidGreeting(methods) && EncodeGreeting(methods) <= s {
      assert s[..2] == EncodeGreeting(methods)[..2];
      assert s[2..2 + |methods|] == methods;
    }
    if ReadGreeting(s).result == Ok(methods) {
      assert s[..2 + |methods|] == EncodeGreeting(methods);
    }
  }

  lemma SamePart(s: seq<byte>, e: seq<byte>, i: nat, j: nat)
    requires e <= s && i <= j <= |e|
    ensures s[i..j] == e[i..j]
  {
  }

  lemma LoginParts(c: Credentials)
    requires ValidLogin(c)
    ensures var e, p := EncodeLogin(c), 2 + |c.username|;
            |e| == p + 1 + |c.password| && e[2..p] == c.username && e[p + 1..] == c.password
  {
  }

  lemma LoginIsRead(s: seq<byte>, c: Credentials)
    ensures ReadLogin(s).result == Ok(c) <==> ValidLogin(c) && EncodeLogin(c) <= s
    ensures ReadLogin(s).result == Ok(c) ==> ReadLogin(s).used == |EncodeLogin(c)|
  {
    var p := 2 + |c.username|;
    if ValidLogin(c) && EncodeLogin(c) <= s {
      var e := EncodeLogin(c);
      assert s[0] == e[0] && s[1] == e[1] && s[p] == e[p];
      LoginParts(c);
      SamePart(s, e, 2, p);
      SamePart(s, e, p + 1, |e|);
      assert e[p + 1..|e|] == e[p + 1..];
    }
    if ReadLogin(s).result == Ok(c) {
      assert s[..p + 1 + |c.password|] == [s[0], s[1]] + s[2..p] + [s[p]] + s[p + 1..p + 1 + |c.password|];
    }
  }

  lemma PortIsRead(hi: byte, lo: byte)
    ensures FromU16(hi, lo) / 256 == hi && FromU16(hi, lo) % 256 == lo
  {
  }

  /** The request that was read, put back together. */
  function Requested(s: seq<byte>): Connect
    requires ReadConnect(s).result.Ok?
  {
    var used := ReadConnect(s).used;
    var address := if s[3] == 1 then V4(s[4..8]) else if s[3] == 3 then Name(s[5..used - 2]) else V6(s[4..20]);
    Connect(s[2], address, FromU16(s[used - 2], s[used - 1]))
  }

  lemma ReadConnectIsSound(s: seq<byte>)
    requires ReadConnect(s).result.Ok?
    ensures var c := Requested(s);
      && ReadConnect(s).used <= |s|
      && ValidConnect(c) && EncodeConnect(c) == s[..ReadConnect(s).used]
      && ReadConnect(s).result.value == (HostText(c.address), c.port)
  {
    hide Dotted, Segments, Utf8.FromUtf8Lossy, FromU16;
    var used, c := ReadConnect(s).used, Requested(s);
    PortIsRead(s[used - 2], s[used - 1]);
    AddressIsWritten(s, used);
    RequestInParts(s, used);
  }

  lemma RequestInParts(s: seq<byte>, used: nat)
    requires 6 <= used <= |s|
    ensures s[..used] == [s[0], s[1], s[2]] + s[3..used - 2] + [s[used - 2], s[used - 1]]
  {
  }

  lemma AddressIsWritten(s: seq<byte>, used: nat)
    requires ReadConnect(s).result.Ok? && used == ReadConnect(s).used
    ensures ValidAddress(Requested(s).address) && s[3..used - 2] == EncodeAddress(Requested(s).address)
  {
    hide Dotted, Segments, Utf8.FromUtf8Lossy, FromU16;
    match Requested(s).address
    case V4(o) => assert s[3..8] == [s[3]] + s[4..8];
    case Name(name) => assert s[3..used - 2] == [s[3], s[4]] + s[5..used - 2];
    case V6(o) => assert s[3..20] == [s[3]] + s[4..20];
  }

  /** Where the parts of a request are written. */
  lemma ConnectParts(c: Connect)
    requires ValidConnect(c)
    ensures var e := EncodeConnect(c); var n := |e|;
      && n >= 7 && e[0] == 5 && e[1] == 1 && FromU16(e[n - 2], e[n - 1]) == c.port
      && match c.address {
           case V4(o) => n == 10 && e[3] == 1 && e[4..8] == o
           case Name(name) => n == 7 + |name| && e[3] == 3 && e[4] == |name| && e[5..n - 2] == name
           case V6(o) => n == 22 && e[3] == 4 && e[4..20] == o
         }
  {
  }

  lemma ReadConnectIsComplete(s: seq<byte>, c: Connect)
    requires ValidConnect(c) && EncodeConnect(c) <= s
    ensures ReadConnect(s) == Read(Ok((HostText(c.address), c.port)), |EncodeConnect(c)|)
  {
    hide EncodeConnect, FromU16, Dotted, Segments, Utf8.FromUtf8Lossy;
    var e := EncodeConnect(c);
    var n := |e|;
    ConnectParts(c);
    assert s[0] == e[0] && s[1] == e[1] && s[3] == e[3] && s[4] == e[4] && s[n - 2] == e[n - 2] && s[n - 1] == e[n - 1];
    match c.address
    case V4(_) => SamePart(s, e, 4, 8);
    case Name(_) => SamePart(s, e, 5, n - 2);
    case V6(_) => SamePart(s, e, 4, 20);
  }

  // ---- The server ------------------------------------------------------------------------------

  method Authenticate(stream: Stream, creds: Credentials) returns (r: Result<()>)
    requires stream.at <= |stream.input|
    modifies stream
    ensures stream.at <= |stream.input|
    ensures
      var said := ReadLogin(stream.input[old(stream.at)..]);
      match said.result {
        case Err(e) => r == Err(e)
        case Ok(c) =>
          && stream.at == old(stream.at) + said.used
          && r == (if c == creds then Ok(()) else Err(WrongLogin))
      }
    ensures r.Err? ==> r.error in {EndOfStream, UnknownLoginVersion, WrongLogin}
    ensures stream.written == old(stream.written) +
      (if r.Ok? then [1, 0] else if r.error == EndOfStream then [] else [1, 1])
  {
    ghost var s := stream.input[stream.at..];
    var head := stream.ReadExact(2);
    if head.Err? { return Err(head.error); }
    if head.value[0] != 1 {
      stream.WriteAll([1, 1]);
      return Err(UnknownLoginVersion);
    }
    var username := stream.ReadExact(head.value[1]);
    if username.Err? { return Err(username.error); }
    var len := stream.ReadExact(1);
    if len.Err? { return Err(len.error); }
    var password := stream.ReadExact(len.value[0]);
    if password.Err? { return Err(password.error); }
    assert ReadLogin(s).result == Ok(Credentials(username.value, password.value)) by {
      var p := 2 + s[1] as int;
      assert s[2..p] == username.value && s[p] == len.value[0] && s[p + 1..p + 1 + s[p] as int] == password.value;
    }
    var userOk := Same(username.value, creds.username);
    var passOk := Same(password.value, creds.password);
    if !(userOk && passOk) {
      stream.WriteAll([1, 1]);
      return Err(WrongLogin);
    }
    stream.WriteAll([1, 0]);
    return Ok(());
  }

  /** The outcome of a handshake on a stream, and how much of it that takes. */
  function Shake(s: seq<byte>, auth: Option<Credentials>): Read<(Text, nat)> {
    var g := ReadGreeting(s);
    if g.result.Err? then Read(Err(g.result.error), g.used)
    else if auth.None? then From(g.used, ReadConnect(s[g.used..]))
    else if 2 !in g.result.value then Read(Err(NoLoginOffered), g.used)
    else
      var l := ReadLogin(s[g.used..]);
      if l.result.Err? then Read(Err(l.result.error), g.used + l.used)
      else if l.result.value != auth.value then Read(Err(WrongLogin), g.used + l.used)
      else From(g.used + l.used, ReadConnect(s[g.used + l.used..]))
  }

  function From(used: nat, r: Read<(Text, nat)>): Read<(Text, nat)> {
    Read(r.result, used + r.used)
  }

  /** What a client whose bytes run out has been told: nothing before its greeting is whole, the method
      chosen before its login is, and all but the answer to CONNECT after that. */
  function ToldBeforeTheEnd(s: seq<byte>, auth: Option<Credentials>): seq<byte> {
    var g := ReadGreeting(s);
    if g.result.Err? then []
    else if auth.Some? && ReadLogin(s[g.used..]).result.Err? then [5, 2]
    else Answers(auth)
  }

  /** What the client has been told when the handshake ends in an error. */
  function ToldWhy(e: Error, s: seq<byte>, auth: Option<Credentials>): seq<byte> {
    match e
    case NotSocks5 => []
    case NoLoginOffered => [5, 0xFF]
    case UnknownLoginVersion => [5, 2, 1, 1]
    case WrongLogin => [5, 2, 1, 1]
    case OnlyConnect => Answers(auth) + REFUSED
    case UnknownAddressType => Answers(auth)
    case EndOfStream => ToldBeforeTheEnd(s, auth)
  }

  const NO_ACCEPTABLE: byte := 0xFF

  /** The method chosen: section 3 of RFC 1928. */
  function ReadMethod(s: seq<byte>): Option<byte> {
    if |s| >= 2 && s[0] == 5 then Some(s[1]) else None
  }

  /** Whether a login was accepted: section 2 of RFC 1929, where zero and nothing else is success. */
  function ReadLoginStatus(s: seq<byte>): Option<bool> {
    if |s| >= 4 && s[2] == 1 then Some(s[3] == 0) else None
  }

  /** A client that is turned away reads why: no method it offered will do, or its login failed. One
      that is let in never reads either. */
  lemma TurnedAwayIsRead(s: seq<byte>, auth: Option<Credentials>)
    ensures ReadMethod(ToldWhy(NoLoginOffered, s, auth)) == Some(NO_ACCEPTABLE)
    ensures forall e | e in {UnknownLoginVersion, WrongLogin} ::
      ReadMethod(ToldWhy(e, s, auth)) == Some(2) && ReadLoginStatus(ToldWhy(e, s, auth)) == Some(false)
    ensures auth.Some? ==>
      ReadMethod(Answers(auth)) == Some(2) && ReadLoginStatus(Answers(auth)) == Some(true)
    ensures auth == None ==> ReadMethod(Answers(auth)) == Some(0)
  {
  }

  method Handshake(stream: Stream, auth: Option<Credentials>) returns (r: Result<(Text, nat)>)
    requires stream.at <= |stream.input|
    modifies stream
    ensures r == Shake(stream.input[old(stream.at)..], auth).result
    ensures r.Ok? ==> stream.at == old(stream.at) + Shake(stream.input[old(stream.at)..], auth).used
    ensures stream.written == old(stream.written)
      + (if r.Ok? then Answers(auth) else ToldWhy(r.error, stream.input[old(stream.at)..], auth))
  {
    hide ReadGreeting, ReadLogin, ReadConnect;
    ghost var s, w := stream.input[stream.at..], stream.written;
    var greeting := ReadMethods(stream);
    if greeting.Err? { return Err(greeting.error); }
    var methods := greeting.value;
    ghost var g := ReadGreeting(s).used;
    match auth {
      case None => stream.WriteAll([5, 0]);
      case Some(creds) =>
        if 2 !in methods {
          stream.WriteAll([5, 0xFF]);
          return Err(NoLoginOffered);
        }
        stream.WriteAll([5, 2]);
        assert stream.input[stream.at..] == s[g..];
        var login := Authenticate(stream, creds);
        if login.Err? {
          assert stream.written == w + (if login.error == EndOfStream then [5, 2] else [5, 2, 1, 1]);
          return Err(login.error);
        }
        assert stream.written == w + [5, 2, 1, 0];
    }
    r := ReadRequest(stream);
    assert r.Err? && r.error == OnlyConnect ==> stream.written[|w|..] == Answers(auth) + REFUSED;
  }

  /** Version, then the methods offered. */
  method ReadMethods(stream: Stream) returns (r: Result<seq<byte>>)
    requires stream.at <= |stream.input|
    modifies stream`at
    ensures stream.at <= |stream.input|
    ensures r == ReadGreeting(stream.input[old(stream.at)..]).result
    ensures r.Ok? ==> stream.at == old(stream.at) + ReadGreeting(stream.input[old(stream.at)..]).used
    ensures r.Err? ==> r.error in {EndOfStream, NotSocks5}
  {
    ghost var s := stream.input[stream.at..];
    var head := stream.ReadExact(2);
    if head.Err? { return Err(head.error); }
    if head.value[0] != 5 {
      return Err(NotSocks5);
    }
    var methods: seq<byte> := [];
    if head.value[1] > 0 {
      var m := stream.ReadExact(head.value[1]);
      if m.Err? { return Err(m.error); }
      methods := m.value;
    }
    assert s[2..2 + |methods|] == methods;
    return Ok(methods);
  }

  lemma TakenFront(s: seq<byte>, at: nat, n: nat, m: nat)
    requires n <= m && at + m <= |s|
    ensures s[at..at + m][..n] == s[at..at + n]
  {
  }

  /** Version, command, reserved byte and address type, then the address and the port. */
  method ReadRequest(stream: Stream) returns (r: Result<(Text, nat)>)
    requires stream.at <= |stream.input|
    modifies stream
    ensures r == ReadConnect(stream.input[old(stream.at)..]).result
    ensures r.Ok? ==> stream.at == old(stream.at) + ReadConnect(stream.input[old(stream.at)..]).used
    ensures r.Err? ==> r.error in {EndOfStream, OnlyConnect, UnknownAddressType}
    ensures stream.written == old(stream.written) + (if r == Err(OnlyConnect) then REFUSED else [])
  {
    ghost var s := stream.input[stream.at..];
    var head := stream.ReadExact(4);
    if head.Err? { return Err(head.error); }
    var h := head.value;
    assert h == s[..4];
    if h[0] != 5 || h[1] != 1 {
      stream.WriteAll(REFUSED);
      return Err(OnlyConnect);
    }
    if h[3] == 1 {
      var a := stream.ReadExact(6);
      if a.Err? { return Err(a.error); }
      assert a.value == s[4..10] && s[4..8] == a.value[..4];
      return Ok((Dotted(a.value[..4]), FromU16(a.value[4], a.value[5])));
    } else if h[3] == 3 {
      var l := stream.ReadExact(1);
      if l.Err? { return Err(l.error); }
      var len := l.value[0];
      assert len == s[4];
      var a := stream.ReadExact(len as int + 2);
      if a.Err? { return Err(a.error); }
      assert a.value == s[5..7 + len as int];
      TakenFront(s, 5, len as int, len as int + 2);
      return Ok((Utf8.FromUtf8Lossy(a.value[..len]), FromU16(a.value[len], a.value[len as int + 1])));
    } else if h[3] == 4 {
      var a := stream.ReadExact(18);
      if a.Err? { return Err(a.error); }
      assert a.value == s[4..22] && s[4..20] == a.value[..16];
      return Ok((Segments(a.value[..16]), FromU16(a.value[16], a.value[17])));
    }
    return Err(UnknownAddressType);
  }

  // ---- The handshake succeeds on exactly the well-formed requests it should ------------------

  /** A client that says what it should and is welcome gets through, and the handshake stops
      exactly where its bytes do, whatever follows them. */
  lemma WelcomeGetsThrough(s: seq<byte>, auth: Option<Credentials>, c: Client)
    requires Valid(c) && Welcome(c, auth) && Encode(c) <= s
    ensures var r := Shake(s, auth);
      && r.result.Ok? && r.used == |Encode(c)|
      && Says(r.result.value.0, c.connect.address) && r.result.value.1 == c.connect.port
  {
    hide Says, HostText, ReadGreeting, ReadLogin, ReadConnect, EncodeGreeting, EncodeLogin, EncodeConnect;
    var greeting, connect := EncodeGreeting(c.methods), EncodeConnect(c.connect);
    var login := if c.login.Some? then EncodeLogin(c.login.value) else [];
    var g, l := |greeting|, |login|;
    assert s[..|Encode(c)|] == greeting + login + connect;
    assert greeting == s[..g];
    GreetingIsRead(s, c.methods);
    assert s[g..][..l] == login && s[g + l..][..|connect|] == connect;
    if c.login.Some? {
      LoginIsRead(s[g..], c.login.value);
    }
    ReadConnectIsComplete(s[g + l..], c.connect);
    HostTextSays(c.connect.address);
  }

  /** And whoever gets through said that: with a login set, method 2 was offered and both
      halves were equal to it. */
  lemma OnlyTheWelcomeGetThrough(s: seq<byte>, auth: Option<Credentials>) returns (c: Client)
    requires Shake(s, auth).result.Ok?
    ensures Valid(c) && Welcome(c, auth) && Encode(c) == s[..Shake(s, auth).used]
    ensures var r := Shake(s, auth).result.value; Says(r.0, c.connect.address) && r.1 == c.connect.port
  {
    hide ReadGreeting, ReadLogin, ReadConnect, EncodeGreeting, EncodeLogin, EncodeConnect, Requested, HostText, Says;
    var g := ReadGreeting(s);
    GreetingIsRead(s, g.result.value);
    var greeting := EncodeGreeting(g.result.value);
    if auth.None? {
      ReadConnectIsSound(s[g.used..]);
      c := Client(g.result.value, None, Requested(s[g.used..]));
      assert greeting + [] == greeting;
      TwoReads(s, g.used, ReadConnect(s[g.used..]).used);
    } else {
      var l := ReadLogin(s[g.used..]);
      LoginIsRead(s[g.used..], l.result.value);
      var at := g.used + l.used;
      TwoReads(s, g.used, l.used);
      ReadConnectIsSound(s[at..]);
      c := Client(g.result.value, auth, Requested(s[at..]));
      TwoReads(s, at, ReadConnect(s[at..]).used);
    }
    HostTextSays(c.connect.address);
  }

  /** What was read first, then what was read after it. */
  lemma TwoReads(s: seq<byte>, m: nat, n: nat)
    requires m + n <= |s|
    ensures s[..m + n] == s[..m] + s[m..][..n]
  {
  }

  /** With a login set, success is exactly the offer of method 2 and both fields equal. */
  lemma LoginDecides(s: seq<byte>, creds: Credentials, said: Client)
    requires Valid(said) && Encode(said) <= s && said.login.Some?
    ensures Shake(s, Some(creds)).result.Ok? <==> 2 in said.methods && said.login.value == creds
    ensures 2 in said.methods && said.login.value != creds ==> Shake(s, Some(creds)).result == Err(WrongLogin)
    ensures 2 !in said.methods ==> Shake(s, Some(creds)).result == Err(NoLoginOffered)
  {
    hide ReadGreeting, ReadLogin, ReadConnect, EncodeGreeting, EncodeLogin, EncodeConnect;
    var greeting, login := EncodeGreeting(said.methods), EncodeLogin(said.login.value);
    assert s[..|Encode(said)|] == greeting + login + EncodeConnect(said.connect);
    assert s[..|greeting|] == greeting;
    GreetingIsRead(s, said.methods);
    assert s[|greeting|..][..|login|] == login;
    LoginIsRead(s[|greeting|..], said.login.value);
    if 2 in said.methods && said.login.value == creds {
      WelcomeGetsThrough(s, Some(creds), said);
    }
  }

  /** The answer to CONNECT once the channel has opened or failed to. */
  method Reply(stream: Stream, connected: bool)
    modifies stream
    ensures old(stream.written) <= stream.written && stream.at == old(stream.at)
    ensures ReadAnswer(stream.written[|old(stream.written)|..])
         == Some((Answer(if connected then SUCCEEDED else GENERAL_FAILURE, NOWHERE, 0), []))
  {
    hide ReadAnswer;
    var code := if connected then 0 else 1;
    BoundNowhere(code);
    ghost var before := stream.written;
    var reply: seq<byte> := [5, code, 0, 1, 0, 0, 0, 0, 0, 0];
    stream.WriteAll(reply);
    assert stream.written[|before|..] == reply;
  }
}
