/** A session's output recorded as text, however the stream it came in on was cut. */
module Recording {
  import opened Bytes
  import opened Utf8

  /** One line of the recording after its header. */
  datatype Event = Output(text: seq<int>) | Resize(cols: nat, rows: nat)

  /** What a recorder does with the bytes it holds: the text it can write, and how many
      bytes that took. The start of a character waits. */
  function Settled(b: seq<byte>): (r: (seq<int>, nat))
    ensures r.1 <= |b|
  {
    if b == [] || Step(b).Cut? then ([], 0)
    else
      var n := Step(b).n;
      var rest := Settled(b[n..]);
      ([if Step(b).Char? then Scalar(b[..n]) else REPLACEMENT] + rest.0, n + rest.1)
  }

  /** Only the start of a character is left waiting. */
  lemma {:induction false} OnlyAStartWaits(b: seq<byte>)
    ensures b[Settled(b).1..] == [] || Step(b[Settled(b).1..]).Cut?
  {
    if b == [] || Step(b).Cut? {
      assert b[0..] == b;
    } else {
      var n := Step(b).n;
      OnlyAStartWaits(b[n..]);
      assert b[n..][Settled(b[n..]).1..] == b[n + Settled(b[n..]).1..];
    }
  }

  /** A step of the loop: text so far, then what the rest settles to. */
  lemma Onward(done: seq<int>, text: seq<int>, rest: seq<int>)
    ensures done + (text + [REPLACEMENT] + rest) == done + text + [REPLACEMENT] + rest
    ensures [REPLACEMENT] + rest == [] + [REPLACEMENT] + rest
  {
  }

  /** One answer of `from_utf8` covers the text up to where it stopped, and what is left
      after an ill-formed run is settled from there. */
  ghost predicate Covers(b: seq<byte>, c: Checked)
    requires c.Invalid? ==> c.validUpTo <= |b|
    requires c.Invalid? && c.errorLen.IllFormed? ==> c.validUpTo + c.errorLen.n <= |b|
  {
    match c
    case Valid => Settled(b) == (Text(b), |b|)
    case Invalid(v, EndOfInput) => Settled(b) == (Text(b[..v]), v)
    case Invalid(v, IllFormed(n)) =>
      && Settled(b).0 == Text(b[..v]) + [REPLACEMENT] + Settled(b[v + n..]).0
      && Settled(b).1 == v + n + Settled(b[v + n..]).1
  }

  lemma {:induction false} CheckedIsSettled(b: seq<byte>)
    ensures Covers(b, FromUtf8(b))
  {
    if b == [] || Step(b).Cut? {
      assert b[..0] == [];
    } else if Step(b).Bad? {
      assert b[..0] == [];
      Onward([], [], Settled(b[Step(b).n..]).0);
    } else {
      CheckedIsSettled(b[Step(b).n..]);
      OneMoreCharacter(b, Step(b).n);
    }
  }

  lemma CharacterFirst(b: seq<byte>, n: nat)
    requires b != [] && Step(b) == Char(n)
    ensures Settled(b).0 == [Scalar(b[..n])] + Settled(b[n..]).0 && Settled(b).1 == n + Settled(b[n..]).1
    ensures Text(b) == [Scalar(b[..n])] + Text(b[n..])
    ensures FromUtf8(b) == (var rest := FromUtf8(b[n..]);
                            if rest.Valid? then Valid else Invalid(n + rest.validUpTo, rest.errorLen))
  {
  }

  lemma OneMoreCharacter(b: seq<byte>, n: nat)
    requires b != [] && Step(b) == Char(n) && Covers(b[n..], FromUtf8(b[n..]))
    ensures Covers(b, FromUtf8(b))
  {
    hide Text, Settled, FromUtf8;
    CharacterFirst(b, n);
    var c := FromUtf8(b[n..]);
    if c.Invalid? {
      TextOfPrefix(b, n, c.validUpTo);
      if c.errorLen.IllFormed? {
        var v, bad := c.validUpTo, c.errorLen.n;
        assert b[n..][v + bad..] == b[n + v + bad..];
        Onward([Scalar(b[..n])], Text(b[n..][..v]), Settled(b[n + v + bad..]).0);
      }
    }
  }

  lemma TextOfPrefix(b: seq<byte>, n: nat, v: nat)
    requires b != [] && Step(b) == Char(n) && v <= |b| - n
    ensures Text(b[..n + v]) == [Scalar(b[..n])] + Text(b[n..][..v])
  {
    var p := b[..n + v];
    assert p[..n] == b[..n] && p[n..] == b[n..][..v];
    assert p + b[n + v..] == b;
    assert Step(p) == Char(n);
  }

  /** The same, from a place in the middle. */
  lemma CheckedFrom(bytes: seq<byte>, at: nat)
    requires at <= |bytes|
    ensures
      var c, s := FromUtf8(bytes[at..]), Settled(bytes[at..]);
      match c
      case Valid => s == (Text(bytes[at..]), |bytes| - at)
      case Invalid(v, EndOfInput) => s == (Text(bytes[at..at + v]), v)
      case Invalid(v, IllFormed(n)) =>
        && s.0 == Text(bytes[at..at + v]) + [REPLACEMENT] + Settled(bytes[at + v + n..]).0
        && s.1 == v + n + Settled(bytes[at + v + n..]).1
  {
    hide FromUtf8, Text, Settled;
    CheckedIsSettled(bytes[at..]);
    var c := FromUtf8(bytes[at..]);
    if c.Invalid? {
      assert bytes[at..][..c.validUpTo] == bytes[at..at + c.validUpTo];
      if c.errorLen.IllFormed? {
        assert bytes[at..][c.validUpTo + c.errorLen.n..] == bytes[at + c.validUpTo + c.errorLen.n..];
      }
    }
  }

  method Utf8Split(bytes: seq<byte>) returns (text: seq<int>, used: nat)
    ensures text == Settled(bytes).0 && used == Settled(bytes).1
  {
    hide FromUtf8, Text, Settled;
    text := [];
    var at := 0;
    assert bytes[0..] == bytes && [] + Settled(bytes).0 == Settled(bytes).0;
    while true
      invariant at <= |bytes|
      invariant Settled(bytes).0 == text + Settled(bytes[at..]).0
      invariant Settled(bytes).1 == at + Settled(bytes[at..]).1
      decreases |bytes| - at
    {
      ghost var said := text;
      CheckedFrom(bytes, at);
      match FromUtf8(bytes[at..]) {
        case Valid =>
          return text + Text(bytes[at..]), |bytes|;
        case Invalid(validUpTo, errorLen) =>
          var valid := at + validUpTo;
          text := text + Text(bytes[at..valid]);
          match errorLen {
            case EndOfInput => return text, valid;
            case IllFormed(bad) =>
              text := text + [REPLACEMENT];
              at := valid + bad;
              Onward(said, Text(bytes[at - bad - validUpTo..valid]), Settled(bytes[at..]).0);
          }
      }
    }
  }

  // ---- The recorder ------------------------------------------------------------------

  /** A recorder's state as a value. */
  datatype State = State(carry: seq<byte>, events: seq<Event>)

  function Fed(s: State, bytes: seq<byte>): State {
    var (text, used) := Settled(s.carry + bytes);
    State((s.carry + bytes)[used..], if text == [] then s.events else s.events + [Output(text)])
  }

  function Dropped(s: State): State {
    State([], if s.carry == [] then s.events else s.events + [Output(FromUtf8Lossy(s.carry))])
  }

  class Recorder {
    var carry: seq<byte>
    var events: seq<Event>

    ghost function Contents(): State
      reads this
    {
      State(carry, events)
    }

    constructor ()
      ensures Contents() == State([], [])
    {
      carry, events := [], [];
    }

    method Write(event: Event)
      modifies this`events
      ensures events == old(events) + [event]
    {
      events := events + [event];
    }

    method Output(bytes: seq<byte>)
      modifies this
      ensures Contents() == Fed(old(Contents()), bytes)
    {
      carry := carry + bytes;
      var text, used := Utf8Split(carry);
      carry := carry[used..];
      if text == [] {
        return;
      }
      Write(Event.Output(text));
    }

    method Resize(cols: nat, rows: nat)
      modifies this
      ensures Contents() == State(old(carry), old(events) + [Event.Resize(cols, rows)])
    {
      Write(Event.Resize(cols, rows));
    }

    method Drop()
      modifies this
      ensures Contents() == Dropped(old(Contents()))
    {
      if carry != [] {
        var rest := FromUtf8Lossy(carry);
        carry := [];
        Write(Event.Output(rest));
      }
    }
  }

  // ---- Whole recordings ----------------------------------------------------------------

  datatype Call = Chunk(bytes: seq<byte>) | Resized(cols: nat, rows: nat)

  function After(s: State, calls: seq<Call>): State {
    if calls == [] then s
    else
      var last := After(s, calls[..|calls| - 1]);
      match calls[|calls| - 1]
      case Chunk(b) => Fed(last, b)
      case Resized(c, r) => last.(events := last.events + [Event.Resize(c, r)])
  }

  /** The stream the calls cut up. */
  function Stream(calls: seq<Call>): seq<byte> {
    if calls == [] then []
    else Stream(calls[..|calls| - 1]) + (if calls[|calls| - 1].Chunk? then calls[|calls| - 1].bytes else [])
  }

  /** What a player shows: the text of the output events, in order. */
  function Shown(events: seq<Event>): seq<int> {
    if events == [] then []
    else
      var e := events[|events| - 1];
      Shown(events[..|events| - 1]) + (if e.Output? then e.text else [])
  }

  lemma ShownMore(events: seq<Event>, e: Event)
    ensures Shown(events + [e]) == Shown(events) + (if e.Output? then e.text else [])
  {
    assert (events + [e])[..|events|] == events;
  }

  /** The text is settled: whatever comes later, it stays the start of the decoding. */
  lemma {:induction false} SettledIsLossy(b: seq<byte>, more: seq<byte>)
    ensures FromUtf8Lossy(b + more) == Settled(b).0 + FromUtf8Lossy(b[Settled(b).1..] + more)
  {
    hide Step, Scalar;
    if b == [] || Step(b).Cut? {
      assert b[0..] == b;
    } else {
      var n := Step(b).n;
      StepIsSettled(b, more);
      assert (b + more)[..n] == b[..n] && (b + more)[n..] == b[n..] + more;
      SettledIsLossy(b[n..], more);
      var rest := Settled(b[n..]);
      assert b[n..][rest.1..] == b[n + rest.1..];
      Regroup([if Step(b).Char? then Scalar(b[..n]) else REPLACEMENT], rest.0, FromUtf8Lossy(b[n + rest.1..] + more));
    }
  }

  lemma FedShows(s: State, b: seq<byte>)
    ensures Shown(Fed(s, b).events) == Shown(s.events) + Settled(s.carry + b).0
  {
    ShownMore(s.events, Output(Settled(s.carry + b).0));
  }

  /** One more chunk: what it adds to the recording is what it adds to the decoding. */
  lemma FedSaysMore(s: State, b: seq<byte>, more: seq<byte>)
    ensures FromUtf8Lossy(s.carry + b + more) == Settled(s.carry + b).0 + FromUtf8Lossy(Fed(s, b).carry + more)
    ensures Shown(Fed(s, b).events) == Shown(s.events) + Settled(s.carry + b).0
  {
    SettledIsLossy(s.carry + b, more);
    FedShows(s, b);
  }

  lemma {:induction false} DuringARecording(calls: seq<Call>, more: seq<byte>)
    ensures
      var s := After(State([], []), calls);
      FromUtf8Lossy(Stream(calls) + more) == Shown(s.events) + FromUtf8Lossy(s.carry + more)
  {
    hide FromUtf8Lossy, Settled;
    if calls != [] {
      var before := calls[..|calls| - 1];
      var s := After(State([], []), before);
      match calls[|calls| - 1]
      case Chunk(b) =>
        DuringARecording(before, b + more);
        assert Stream(calls) + more == Stream(before) + (b + more);
        assert s.carry + (b + more) == s.carry + b + more;
        FedSaysMore(s, b, more);
        Regroup(Shown(s.events), Settled(s.carry + b).0, FromUtf8Lossy(Fed(s, b).carry + more));
      case Resized(c, r) =>
        DuringARecording(before, more);
        assert Stream(calls) == Stream(before);
        ShownMore(s.events, Event.Resize(c, r));
    }
  }

  /** However the stream is cut, and wherever the terminal is resized, the recording closed
      at the end says what the whole stream decodes to: one scalar a character, and one
      U+FFFD for each run of bytes that is none. */
  lemma WholeRecording(calls: seq<Call>)
    ensures Shown(Dropped(After(State([], []), calls)).events) == Lossy(Stream(calls))
  {
    var s := After(State([], []), calls);
    DuringARecording(calls, []);
    assert Stream(calls) + [] == Stream(calls) && s.carry + [] == s.carry;
    LossyIsLossy(Stream(calls));
    if s.carry != [] {
      ShownMore(s.events, Output(FromUtf8Lossy(s.carry)));
    }
  }

  /** What is held back between calls is the start of one character, at most three bytes of
      it; and no event is empty. */
  lemma {:induction false} HoldsBackLittle(calls: seq<Call>)
    ensures
      var s := After(State([], []), calls);
      && |s.carry| <= 3 && (s.carry != [] ==> Begins(s.carry))
      && forall i | 0 <= i < |s.events| :: s.events[i].Output? ==> s.events[i].text != []
  {
    if calls != [] {
      var s := After(State([], []), calls[..|calls| - 1]);
      HoldsBackLittle(calls[..|calls| - 1]);
      match calls[|calls| - 1]
      case Chunk(b) =>
        var held := s.carry + b;
        OnlyAStartWaits(held);
        if held[Settled(held).1..] != [] {
          CutBegins(held[Settled(held).1..]);
        }
      case Resized(_, _) =>
    }
  }
}
