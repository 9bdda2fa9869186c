/** Agent requests cut out of a forwarded channel, whatever packets they came in. */
module AgentFraming {
  import opened Bytes
  import opened Wrappers

  const MAX_FRAME: nat := 256 * 1024

  /** One request as it goes over the wire. */
  function Framed(body: seq<byte>): seq<byte> {
    U32(|body|) + body
  }

  function FramedAll(bodies: seq<seq<byte>>): seq<byte> {
    if bodies == [] then []
    else FramedAll(bodies[..|bodies| - 1]) + Framed(bodies[|bodies| - 1])
  }

  /** Fewer bytes than the frame they start needs: a proper prefix of one frame, of a length
      that is not refused. */
  predicate Waiting(b: seq<byte>) {
    |b| >= 4 ==> FromU32(b) <= MAX_FRAME && |b| < 4 + FromU32(b)
  }

  predicate Oversize(b: seq<byte>) {
    |b| >= 4 && FromU32(b) > MAX_FRAME
  }

  predicate Proper(bodies: seq<seq<byte>>) {
    forall i | 0 <= i < |bodies| :: |bodies[i]| <= MAX_FRAME
  }

  datatype Taken = Frame(body: seq<byte>) | Partial | Refused

  datatype Status = Open | TooLarge | AgentFailed | Ended

  datatype Message = Data(bytes: seq<byte>) | Eof | Other

  /** What the agent answers to the last of the requests it has been sent, if anything. */
  type Agent = seq<seq<byte>> -> Option<seq<byte>>

  ghost predicate Answered(agent: Agent, asked: seq<seq<byte>>, sent: seq<seq<byte>>) {
    |sent| <= |asked| &&
    forall i | 0 <= i < |sent| :: agent(asked[..i + 1]) == Some(sent[i])
  }

  /** A channel's buffer, the requests written to the agent, the replies sent back to the
      remote, and whether it is still served. */
  datatype State = State(pending: seq<byte>, asked: seq<seq<byte>>, sent: seq<seq<byte>>, status: Status)

  /** Everything that arrived is either a request the agent was asked, in order, or waits. */
  ghost predicate Accounts(s: State, agent: Agent, stream: seq<byte>) {
    && stream == FramedAll(s.asked) + s.pending
    && Proper(s.asked)
    && Answered(agent, s.asked, s.sent)
    && (s.status == AgentFailed ==> s.asked != [] && |s.sent| == |s.asked| - 1 && agent(s.asked) == None)
    && (s.status != AgentFailed ==> |s.sent| == |s.asked|)
    && (s.status == TooLarge ==> Oversize(s.pending))
    && (s.status == Open || s.status == Ended ==> Waiting(s.pending))
  }

  /** One channel being served. */
  class Channel {
    var pending: seq<byte>
    var asked: seq<seq<byte>>
    var sent: seq<seq<byte>>
    var status: Status

    ghost function Contents(): State
      reads this
    {
      State(pending, asked, sent, status)
    }

    constructor ()
      ensures Contents() == State([], [], [], Open)
    {
      pending, asked, sent, status := [], [], [], Open;
    }

    /** Takes the first whole request out of the buffer. */
    method TakeFrame() returns (t: Taken)
      modifies this`pending
      ensures t.Frame? ==> |t.body| <= MAX_FRAME && old(pending) == Framed(t.body) + pending
      ensures t.Partial? <==> Waiting(old(pending))
      ensures t.Refused? <==> Oversize(old(pending))
      ensures !t.Frame? ==> pending == old(pending)
    {
      if |pending| < 4 {
        return Partial;
      }
      var n := FromU32(pending);
      if n > MAX_FRAME {
        return Refused;
      }
      if |pending| < 4 + n {
        return Partial;
      }
      var frame := pending[4..4 + n];
      FromU32RoundTrip(pending);
      assert pending == U32(n) + frame + pending[4 + n..];
      pending := pending[4 + n..];
      return Frame(frame);
    }

    /** One packet: buffered, then every whole request in it asked and answered. */
    method Receive(agent: Agent, data: seq<byte>, ghost stream: seq<byte>)
      requires status == Open && Accounts(Contents(), agent, stream)
      modifies this
      ensures Accounts(Contents(), agent, stream + data) && status != Ended
      ensures old(asked) <= asked
    {
      hide FramedAll;
      Regroup(FramedAll(asked), pending, data);
      pending := pending + data;
      while true
        invariant status == Open && stream + data == FramedAll(asked) + pending
        invariant Proper(asked) && Answered(agent, asked, sent) && |sent| == |asked|
        invariant old(asked) <= asked
        decreases |pending|
      {
        var taken := TakeFrame();
        match taken {
          case Partial => return;
          case Refused =>
            status := TooLarge;
            return;
          case Frame(body) =>
            OneMore(asked, body, pending);
            AnsweredSoFar(agent, asked, sent, body);
            asked := asked + [body];
            match agent(asked) {
              case Some(reply) => sent := sent + [reply];
              case None =>
                status := AgentFailed;
                return;
            }
        }
      }
    }

    /** Relays the channel until the remote ends it, it stops speaking the protocol, or the
        agent does not answer. `used` is how many of the messages were looked at. */
    method Serve(agent: Agent, messages: seq<Message>) returns (used: nat)
      requires Contents() == State([], [], [], Open)
      modifies this
      ensures used <= |messages|
      ensures Accounts(Contents(), agent, DataOf(messages[..used]))
      ensures status == Open ==> used == |messages|
      ensures status == Ended ==> 0 < used && messages[used - 1] == Eof
    {
      hide DataOf, Accounts;
      used := 0;
      NothingYet(agent);
      while used < |messages|
        invariant used <= |messages|
        invariant status == Open && Accounts(Contents(), agent, DataOf(messages[..used]))
      {
        var msg := messages[used];
        ghost var stream := DataOf(messages[..used]);
        DataSoFar(messages, used);
        used := used + 1;
        match msg {
          case Eof =>
            EndedAccounts(Contents(), agent, stream);
            status := Ended;
            return;
          case Other =>
          case Data(data) =>
            Receive(agent, data, stream);
            if status != Open {
              return;
            }
        }
      }
    }
  }

  lemma NothingYet(agent: Agent)
    ensures Accounts(State([], [], [], Open), agent, DataOf([]))
  {
  }

  lemma EndedAccounts(s: State, agent: Agent, stream: seq<byte>)
    requires s.status == Open && Accounts(s, agent, stream)
    ensures Accounts(s.(status := Ended), agent, stream)
  {
  }

  lemma DataSoFar(messages: seq<Message>, n: nat)
    requires n < |messages|
    ensures DataOf(messages[..n + 1]) == DataOf(messages[..n]) + (if messages[n].Data? then messages[n].bytes else [])
    ensures !messages[n].Data? ==> DataOf(messages[..n + 1]) == DataOf(messages[..n])
  {
    assert messages[..n + 1][..n] == messages[..n];
  }

  lemma OneMore(asked: seq<seq<byte>>, body: seq<byte>, rest: seq<byte>)
    ensures FramedAll(asked + [body]) + rest == FramedAll(asked) + (Framed(body) + rest)
  {
    assert (asked + [body])[..|asked|] == asked;
    Regroup(FramedAll(asked), Framed(body), rest);
  }

  lemma AnsweredSoFar(agent: Agent, asked: seq<seq<byte>>, sent: seq<seq<byte>>, body: seq<byte>)
    requires Answered(agent, asked, sent)
    ensures Answered(agent, asked + [body], sent)
    ensures |sent| == |asked| && agent(asked + [body]).Some? ==>
              Answered(agent, asked + [body], sent + [agent(asked + [body]).value])
  {
    forall i | 0 <= i < |sent| ensures agent((asked + [body])[..i + 1]) == Some(sent[i]) {
      assert (asked + [body])[..i + 1] == asked[..i + 1];
    }
    assert (asked + [body])[..|asked| + 1] == asked + [body];
  }

  /** The bytes the messages carry. */
  function DataOf(messages: seq<Message>): seq<byte> {
    if messages == [] then []
    else
      var m := messages[|messages| - 1];
      DataOf(messages[..|messages| - 1]) + (if m.Data? then m.bytes else [])
  }

  // ---- One stream, one reading of it ----------------------------------------------------

  function FramedFront(bodies: seq<seq<byte>>): seq<byte> {
    if bodies == [] then [] else Framed(bodies[0]) + FramedFront(bodies[1..])
  }

  lemma {:induction false} FrontIsAll(bodies: seq<seq<byte>>, more: seq<seq<byte>>)
    ensures FramedAll(bodies + more) == FramedAll(bodies) + FramedFront(more)
    decreases |more|
  {
    if more == [] {
      assert bodies + more == bodies;
    } else {
      FrontIsAll(bodies + [more[0]], more[1..]);
      assert bodies + [more[0]] + more[1..] == bodies + more;
      assert (bodies + [more[0]])[..|bodies|] == bodies;
      Regroup(FramedAll(bodies), Framed(more[0]), FramedFront(more[1..]));
    }
  }

  lemma AllIsFront(bodies: seq<seq<byte>>)
    ensures FramedAll(bodies) == FramedFront(bodies)
  {
    FrontIsAll([], bodies);
    assert [] + bodies == bodies && [] + FramedFront(bodies) == FramedFront(bodies);
  }

  /** What the first frame of a stream is does not depend on what follows it. */
  lemma FirstFrame(body: seq<byte>, rest: seq<byte>)
    requires |body| <= MAX_FRAME
    ensures !Waiting(Framed(body) + rest) && !Oversize(Framed(body) + rest)
    ensures FromU32(Framed(body) + rest) == |body|
    ensures (Framed(body) + rest)[4..4 + |body|] == body
    ensures (Framed(body) + rest)[4 + |body|..] == rest
  {
    U32RoundTrip(|body|, body + rest);
    assert Framed(body) + rest == U32(|body|) + (body + rest);
  }

  /** A stream reads in one way only: as these frames and this unfinished one. */
  lemma {:induction false} OneReading(a: seq<seq<byte>>, p: seq<byte>, b: seq<seq<byte>>, q: seq<byte>)
    requires Proper(a) && Proper(b) && (Waiting(p) || Oversize(p)) && (Waiting(q) || Oversize(q))
    requires FramedFront(a) + p == FramedFront(b) + q
    ensures a == b && p == q
  {
    assert [] + p == p && [] + q == q;
    if a != [] {
      ReadsOn(a, p);
    }
    if b != [] {
      ReadsOn(b, q);
    }
    if a != [] && b != [] {
      OneReading(a[1..], p, b[1..], q);
      assert a == [a[0]] + a[1..] && b == [b[0]] + b[1..];
    }
  }

  lemma ReadsOn(a: seq<seq<byte>>, p: seq<byte>)
    requires a != [] && Proper(a)
    ensures var s := FramedFront(a) + p;
      && !Waiting(s) && !Oversize(s) && |s| >= 4 && FromU32(s) == |a[0]| && |s| >= 4 + |a[0]|
      && s[4..4 + |a[0]|] == a[0] && s[4 + |a[0]|..] == FramedFront(a[1..]) + p
  {
    FirstFrame(a[0], FramedFront(a[1..]) + p);
    Regroup(Framed(a[0]), FramedFront(a[1..]), p);
  }

  lemma {:induction false} DataOfPrefix(messages: seq<Message>, n: nat)
    requires n <= |messages|
    ensures DataOf(messages[..n]) <= DataOf(messages)
  {
    if n < |messages| {
      DataOfPrefix(messages[..|messages| - 1], n);
      assert messages[..|messages| - 1][..n] == messages[..n];
    } else {
      assert messages[..n] == messages;
    }
  }

  lemma OversizeStays(p: seq<byte>, rest: seq<byte>)
    requires Oversize(p)
    ensures Oversize(p + rest)
  {
    assert FromU32(p + rest) == FromU32(p);
  }

  /** What `Serve` leaves, for any frames that fit, encoded one after another, cut anywhere and
      followed by part of another, with nothing sent after the end: an agent that always answers has
      been asked exactly those, in order, each has had its reply, and what waits is what was sent of
      the next one. */
  lemma FramesComeOut(s: State, agent: Agent, messages: seq<Message>, used: nat,
      bodies: seq<seq<byte>>, started: seq<byte>)
    requires used <= |messages| && Accounts(s, agent, DataOf(messages[..used]))
    requires s.status == Open ==> used == |messages|
    requires s.status == Ended ==> DataOf(messages[..used]) == DataOf(messages)
    requires forall history: seq<seq<byte>> :: agent(history).Some?
    requires Proper(bodies) && Waiting(started) && DataOf(messages) == FramedAll(bodies) + started
    ensures s.asked == bodies && s.pending == started && (s.status == Open || s.status == Ended)
    ensures |s.sent| == |bodies| && Answered(agent, bodies, s.sent)
    ensures |s.pending| < 4 + MAX_FRAME
  {
    hide FramedAll, FramedFront, DataOf, FromU32;
    DataOfPrefix(messages, used);
    var rest := DataOf(messages)[|DataOf(messages[..used])|..];
    assert messages[..|messages|] == messages;
    assert DataOf(messages) == DataOf(messages[..used]) + rest;
    Regroup(FramedAll(s.asked), s.pending, rest);
    if s.status == Open || s.status == Ended {
      assert s.pending + rest == s.pending;
    } else if s.status == TooLarge {
      OversizeStays(s.pending, rest);
    }
    AllIsFront(bodies);
    AllIsFront(s.asked);
    OneReading(s.asked, s.pending + rest, bodies, started);
  }

  /** Two ways of cutting one stream into packets come to the same requests and the same wait. */
  lemma CutsDoNotMatter(s: State, t: State, agent: Agent, stream: seq<byte>)
    requires Accounts(s, agent, stream) && Accounts(t, agent, stream)
    requires s.status != AgentFailed && t.status != AgentFailed
    ensures s.asked == t.asked && s.pending == t.pending && (s.status == TooLarge <==> t.status == TooLarge)
    ensures s.sent == t.sent
  {
    hide FramedAll, FramedFront;
    AllIsFront(s.asked);
    AllIsFront(t.asked);
    OneReading(s.asked, s.pending, t.asked, t.pending);
    forall i | 0 <= i < |s.sent| ensures s.sent[i] == t.sent[i] {
      assert agent(s.asked[..i + 1]) == Some(s.sent[i]) && agent(t.asked[..i + 1]) == Some(t.sent[i]);
    }
  }

  /** A length over the limit is refused when its last byte arrives, before any of the frame:
      it never waits, and four bytes are enough to tell. */
  lemma OversizeNeverWaits(b: seq<byte>)
    requires |b| >= 4
    ensures FromU32(b) > MAX_FRAME ==> !Waiting(b) && Oversize(b[..4])
    ensures FromU32(b) <= MAX_FRAME ==> !Oversize(b[..4])
  {
    assert FromU32(b[..4]) == FromU32(b);
  }
}
