/** A session's output on its way to the terminal: held until one listens, and kept out of the
    log while a ZMODEM transfer runs. */
module SessionOutput {
  import opened Bytes
  import opened Wrappers

  // ---- Holding output for a terminal ----------------------------------------------------------

  const MAX_PENDING: nat := 256 * 1024

  function LastOf(s: seq<byte>, n: nat): (r: seq<byte>)
    ensures |r| == (if |s| <= n then |s| else n) && r == s[|s| - |r|..]
  {
    if |s| <= n then s else s[|s| - n..]
  }

  datatype Held = Held(attached: bool, pending: seq<byte>)

  class Attach {
    var attached: bool
    var pending: seq<byte>

    ghost function Contents(): Held
      reads this
    {
      Held(attached, pending)
    }

    constructor ()
      ensures Contents() == Held(false, [])
    {
      attached, pending := false, [];
    }

    method Hold(data: seq<byte>) returns (held: bool)
      modifies this`pending
      ensures held == !attached
      ensures Contents() == Done(old(Contents()), Keep(data))
    {
      if attached {
        return false;
      }
      pending := pending + data;
      if |pending| > MAX_PENDING {
        var excess := |pending| - MAX_PENDING;
        pending := pending[excess..];
      }
      return true;
    }

    method Take() returns (taken: seq<byte>)
      modifies this
      ensures taken == old(pending)
      ensures Contents() == Done(old(Contents()), Collect)
    {
      attached := true;
      taken := pending;
      pending := [];
    }

    method Release()
      modifies this`attached
      ensures Contents() == Done(old(Contents()), LetGo)
    {
      attached := false;
    }
  }

  /** `hold`, `take` and `release`. */
  datatype Op = Keep(data: seq<byte>) | Collect | LetGo

  function Done(h: Held, op: Op): Held {
    match op
    case Keep(data) => if h.attached then h else h.(pending := LastOf(h.pending + data, MAX_PENDING))
    case Collect => Held(true, [])
    case LetGo => h.(attached := false)
  }

  function DoneAll(ops: seq<Op>): Held {
    if ops == [] then Held(false, []) else Done(DoneAll(ops[..|ops| - 1]), ops[|ops| - 1])
  }

  /** Whether the terminal was last told to take over or to let go. */
  predicate Attached(ops: seq<Op>) {
    ops != [] && (ops[|ops| - 1].Collect? || (ops[|ops| - 1].Keep? && Attached(ops[..|ops| - 1])))
  }

  /** What was held and not collected since, all of it. */
  function Uncollected(ops: seq<Op>): seq<byte> {
    if ops == [] then []
    else
      var before, op := ops[..|ops| - 1], ops[|ops| - 1];
      match op
      case Keep(data) => if Attached(before) then Uncollected(before) else Uncollected(before) + data
      case Collect => []
      case LetGo => Uncollected(before)
  }

  lemma LastOfLast(a: seq<byte>, b: seq<byte>, n: nat)
    ensures LastOf(LastOf(a, n) + b, n) == LastOf(a + b, n)
  {
    hide LastOf;
    var x, ab := LastOf(a, n), a + b;
    assert x + b == ab[|a| - |x|..];
    var m := |LastOf(ab, n)|;
    assert |LastOf(x + b, n)| == m;
    assert (x + b)[|x + b| - m..] == ab[|ab| - m..];
  }

  /** In every run: nothing waits while a terminal is attached, and what waits otherwise is the
      end of what was held since the last collection, all of it unless there is too much. */
  lemma {:induction false} PendingIsTheEnd(ops: seq<Op>)
    ensures DoneAll(ops).attached == Attached(ops)
    ensures DoneAll(ops).attached ==> DoneAll(ops).pending == [] && Uncollected(ops) == []
    ensures DoneAll(ops).pending == LastOf(Uncollected(ops), MAX_PENDING)
  {
    if ops != [] {
      var before := ops[..|ops| - 1];
      PendingIsTheEnd(before);
      if ops[|ops| - 1].Keep? {
        LastOfLast(Uncollected(before), ops[|ops| - 1].data, MAX_PENDING);
      }
    }
  }

  // ---- Spotting a transfer ------------------------------------------------------------------------

  /** `**`, ZDLE, `B`, `0`. */
  const HEADER: seq<byte> := [0x2A, 0x2A, 0x18, 0x42, 0x30]

  predicate HeaderAt(s: seq<byte>, i: nat) {
    i + 5 <= |s| && s[i..i + 5] == HEADER
  }

  predicate HasHeader(s: seq<byte>) {
    exists i: nat | i < |s| :: HeaderAt(s, i)
  }

  predicate FirstHeaderAt(s: seq<byte>, i: nat) {
    HeaderAt(s, i) && forall j: nat | j < i :: !HeaderAt(s, j)
  }

  /** The first window equal to the header. */
  function FindHeader(s: seq<byte>, from: nat): (r: Option<nat>)
    requires from <= |s|
    ensures r.Some? ==> from <= r.value && HeaderAt(s, r.value)
    ensures r.Some? ==> forall j: nat | from <= j < r.value :: !HeaderAt(s, j)
    ensures r.None? ==> forall j: nat | from <= j :: !HeaderAt(s, j)
    decreases |s| - from
  {
    if from + 5 > |s| then None
    else if s[from..from + 5] == HEADER then Some(from)
    else FindHeader(s, from + 1)
  }

  /** Where in `buf` a transfer starts: 0 when its header began at the end of the last chunk. */
  function ZmodemStart(tail: seq<byte>, buf: seq<byte>): (r: Option<nat>)
    ensures r.Some? ==> r.value <= |buf|
  {
    var at := FindHeader(tail + buf, 0);
    if at.None? then None
    else Some(if at.value < |tail| then 0 else at.value - |tail|)
  }

  /** What flushing keeps between calls, and the log it writes. */
  datatype Out = Out(tail: seq<byte>, transfer: bool, log: seq<byte>)

  function Flushed(o: Out, buf: seq<byte>): Out {
    if buf == [] then o
    else
      var at := if o.transfer then None else ZmodemStart(o.tail, buf);
      var kept := if o.transfer then [] else if at.Some? then buf[..at.value] else buf;
      Out(LastOf(buf, 4), o.transfer || at.Some?, o.log + kept)
  }

  class Output {
    const attach: Attach
    var log: seq<byte>
    /** What the recorder was handed, and what the terminal was sent. */
    var recorded: seq<seq<byte>>
    var emitted: seq<seq<byte>>
    var buf: seq<byte>
    var transfer: bool
    var tail: seq<byte>

    ghost function Contents(): Out
      reads this
    {
      Out(tail, transfer, log)
    }

    constructor (attach: Attach)
      ensures this.attach == attach && Contents() == Out([], false, [])
      ensures recorded == [] && emitted == [] && buf == []
    {
      this.attach := attach;
      log, recorded, emitted, buf := [], [], [], [];
      transfer, tail := false, [];
    }

    method TransferDone()
      modifies this`transfer, this`tail
      ensures Contents() == Out([], false, old(log))
    {
      transfer := false;
      tail := [];
    }

    /** How much of the buffer the log and the recording get, noting a transfer that starts. */
    method Spot() returns (kept: nat)
      modifies this`transfer, this`tail
      ensures kept <= |buf|
      ensures buf != [] ==> Flushed(old(Contents()), buf) == Out(tail, transfer, log + buf[..kept])
    {
      kept := |buf|;
      if transfer {
        kept := 0;
      } else {
        match ZmodemStart(tail, buf) {
          case Some(at) =>
            transfer := true;
            kept := at;
          case None =>
        }
      }
      var tailFrom := if |buf| < 4 then 0 else |buf| - 4;
      tail := buf[tailFrom..];
    }

    method Write(bytes: seq<byte>)
      modifies this`log, this`recorded
      ensures log == old(log) + bytes
      ensures Flatten(recorded) == Flatten(old(recorded)) + bytes
    {
      if |bytes| > 0 {
        log := log + bytes;
        FlattenSnoc(recorded, bytes);
        recorded := recorded + [bytes];
      }
      assert Flatten(recorded) + [] == Flatten(recorded);
    }

    method Flush()
      modifies this, attach
      ensures buf == [] && Contents() == Flushed(old(Contents()), old(buf))
      ensures old(log) <= log && Flatten(recorded) == Flatten(old(recorded)) + log[|old(log)|..]
      ensures old(buf) == [] ==> attach.Contents() == old(attach.Contents())
      ensures old(buf) != [] ==> attach.Contents() == Done(old(attach.Contents()), Keep(old(buf)))
      ensures emitted == old(emitted) + (if old(attach.attached) && old(buf) != [] then [old(buf)] else [])
    {
      if buf == [] {
        assert Flatten(recorded) + [] == Flatten(recorded);
        return;
      }
      hide Flushed, Flatten, Done;
      var kept := Spot();
      assert (log + buf[..kept])[|log|..] == buf[..kept];
      Write(buf[..kept]);
      var held := attach.Hold(buf);
      if !held {
        emitted := emitted + [buf];
      }
      buf := [];
    }
  }

  // ---- A stream flushed in pieces ---------------------------------------------------------------

  /** Where a stream is cut: from its start to its end, every piece of it something. */
  predicate CutsOf(size: nat, cuts: seq<nat>) {
    && cuts != [] && cuts[0] == 0 && cuts[|cuts| - 1] == size
    && (forall i, j | 0 <= i < j < |cuts| :: cuts[i] < cuts[j])
    && (forall i | 0 <= i < |cuts| :: cuts[i] <= size)
  }

  /** After `j` pieces. */
  function After(stream: seq<byte>, cuts: seq<nat>, j: nat): Out
    requires CutsOf(|stream|, cuts) && j < |cuts|
  {
    if j == 0 then Out([], false, [])
    else Flushed(After(stream, cuts, j - 1), stream[cuts[j - 1]..cuts[j]])
  }

  /** The transfer is known of once its header is through, and not before. */
  ghost predicate RightFlag(stream: seq<byte>, cuts: seq<nat>, j: nat)
    requires CutsOf(|stream|, cuts) && j < |cuts|
  {
    After(stream, cuts, j).transfer <==> HasHeader(stream[..cuts[j]])
  }

  /** Until a header is through the log has everything; from then on, what came before the header
      or before the piece that completed it, whichever is later. */
  ghost predicate RightLog(stream: seq<byte>, cuts: seq<nat>, j: nat)
    requires CutsOf(|stream|, cuts) && j < |cuts|
  {
    && (!HasHeader(stream[..cuts[j]]) ==> After(stream, cuts, j).log == stream[..cuts[j]])
    && forall k: nat, i: nat | k < j && FirstHeaderAt(stream, i) && cuts[k] < i + 5 <= cuts[k + 1] ::
         After(stream, cuts, j).log == stream[..if i < cuts[k] then cuts[k] else i]
  }

  ghost predicate Right(stream: seq<byte>, cuts: seq<nat>)
    requires CutsOf(|stream|, cuts)
  {
    forall j: nat | j < |cuts| :: RightFlag(stream, cuts, j) && RightLog(stream, cuts, j)
  }

  /** No piece but the first and the last is shorter than what a header leaves behind. */
  predicate Spaced(cuts: seq<nat>) {
    forall j | 0 < j < |cuts| - 2 :: cuts[j] + 4 <= cuts[j + 1]
  }

  lemma HeaderWithin(stream: seq<byte>, i: nat, from: nat, to: nat)
    requires from <= i && from <= to <= |stream|
    ensures HeaderAt(stream[from..to], i - from) <==> i + 5 <= to && HeaderAt(stream, i)
  {
    if i + 5 <= to {
      var w, k := stream[from..to], i - from;
      assert w[k..k + 5] == [w[k], w[k + 1], w[k + 2], w[k + 3], w[k + 4]];
      assert stream[i..i + 5] == [stream[i], stream[i + 1], stream[i + 2], stream[i + 3], stream[i + 4]];
    }
  }

  lemma HasHeaderBy(stream: seq<byte>, to: nat)
    requires to <= |stream|
    ensures HasHeader(stream[..to]) <==> exists i: nat :: i + 5 <= to && HeaderAt(stream, i)
  {
    forall i: nat ensures HeaderAt(stream[..to], i) <==> i + 5 <= to && HeaderAt(stream, i) {
      HeaderWithin(stream, i, 0, to);
      assert stream[0..to] == stream[..to];
    }
  }

  /** Searching a stretch that holds every header so far finds the first of them, if there is one. */
  lemma SearchedFrom(stream: seq<byte>, from: nat, d: nat) returns (at: Option<nat>)
    requires from <= d <= |stream|
    requires forall i: nat | HeaderAt(stream, i) && i + 5 <= d :: from <= i
    ensures at == FindHeader(stream[from..d], 0)
    ensures at.Some? <==> exists i: nat :: i + 5 <= d && HeaderAt(stream, i)
    ensures forall i: nat | FirstHeaderAt(stream, i) && i + 5 <= d :: at == Some(i - from)
  {
    hide HeaderAt;
    at := FindHeader(stream[from..d], 0);
    forall i: nat | from <= i ensures HeaderAt(stream[from..d], i - from) <==> i + 5 <= d && HeaderAt(stream, i) {
      HeaderWithin(stream, i, from, d);
    }
    if at.Some? {
      assert HeaderAt(stream, at.value + from) by { HeaderWithin(stream, at.value + from, from, d); }
    }
    forall i: nat | FirstHeaderAt(stream, i) && i + 5 <= d ensures at == Some(i - from) {
      assert HeaderAt(stream[from..d], i - from);
      assert at.Some? && HeaderAt(stream, at.value + from);
    }
  }

  /** One piece, with no header before it and nothing missed: a header that completes in it is
      found, where it is. */
  lemma FoundIn(stream: seq<byte>, o: Out, from: nat, c: nat, d: nat)
    requires from <= c < d <= |stream| && o.tail == stream[from..c] && !o.transfer
    requires forall i: nat | HeaderAt(stream, i) && i + 5 <= d :: from <= i
    ensures var f := Flushed(o, stream[c..d]);
      && (f.transfer <==> exists i: nat :: i + 5 <= d && HeaderAt(stream, i))
      && (!f.transfer ==> f.log == o.log + stream[c..d])
      && (forall i: nat | FirstHeaderAt(stream, i) && i + 5 <= d ::
            f.log == o.log + stream[c..if i < c then c else i])
  {
    hide HeaderAt, FindHeader, FirstHeaderAt, LastOf;
    assert o.tail + stream[c..d] == stream[from..d];
    var at := SearchedFrom(stream, from, d);
    forall i: nat | FirstHeaderAt(stream, i) && i + 5 <= d
      ensures Flushed(o, stream[c..d]).log == o.log + stream[c..if i < c then c else i]
    {
      assert HeaderAt(stream, i) by { FirstIsOne(stream, i); }
      assert i >= c ==> stream[c..d][..i - c] == stream[c..i];
      assert i < c ==> stream[c..d][..0] == stream[c..c];
    }
  }

  lemma FirstIsOne(stream: seq<byte>, i: nat)
    requires FirstHeaderAt(stream, i)
    ensures HeaderAt(stream, i)
  {
  }

  /** The tail is the end of what went by, of the last piece of it. */
  lemma TailIsTheEnd(stream: seq<byte>, cuts: seq<nat>, j: nat)
    requires CutsOf(|stream|, cuts) && j < |cuts|
    ensures var t := After(stream, cuts, j).tail;
      && |t| <= cuts[j] && t == stream[cuts[j] - |t|..cuts[j]]
      && (j > 0 ==> cuts[j - 1] + |t| <= cuts[j])
  {
    hide FindHeader, ZmodemStart, LastOf, Flushed;
    if j > 0 {
      assert cuts[j - 1] < cuts[j] <= |stream|;
      TailIsLast(After(stream, cuts, j - 1), stream[cuts[j - 1]..cuts[j]]);
      LastOfPiece(stream, cuts[j - 1], cuts[j]);
    }
  }

  lemma TailIsLast(o: Out, piece: seq<byte>)
    requires piece != []
    ensures Flushed(o, piece).tail == LastOf(piece, 4)
  {
    hide ZmodemStart, LastOf;
  }

  lemma LastOfPiece(stream: seq<byte>, c: nat, d: nat)
    requires c <= d <= |stream|
    ensures var t := LastOf(stream[c..d], 4); |t| <= d - c && t == stream[d - |t|..d]
  {
  }

  /** In well-spaced pieces it is long enough to hold the start of any header not through yet. */
  lemma TailReaches(stream: seq<byte>, cuts: seq<nat>, j: nat)
    requires CutsOf(|stream|, cuts) && Spaced(cuts) && j < |cuts| - 1
    ensures var t := After(stream, cuts, j).tail; |t| == 4 || |t| == cuts[j]
  {
    hide FindHeader, ZmodemStart;
    if j > 1 {
      assert cuts[j - 1] + 4 <= cuts[j];
    }
  }

  lemma NoHeaderYet(stream: seq<byte>, cuts: seq<nat>, j: nat, k: nat)
    requires CutsOf(|stream|, cuts) && j <= k < |cuts| && !HasHeader(stream[..cuts[k]])
    ensures !HasHeader(stream[..cuts[j]])
  {
    HasHeaderBy(stream, cuts[j]);
    HasHeaderBy(stream, cuts[k]);
    assert cuts[j] <= cuts[k];
  }

  lemma OnePiece(stream: seq<byte>, cuts: seq<nat>, j: nat)
    requires CutsOf(|stream|, cuts) && Spaced(cuts) && j + 1 < |cuts| && !HasHeader(stream[..cuts[j]])
    requires !After(stream, cuts, j).transfer
    ensures var f, log := After(stream, cuts, j + 1), After(stream, cuts, j).log;
      && (f.transfer <==> exists i: nat :: i + 5 <= cuts[j + 1] && HeaderAt(stream, i))
      && (!f.transfer ==> f.log == log + stream[cuts[j]..cuts[j + 1]])
      && (forall i: nat | FirstHeaderAt(stream, i) && i + 5 <= cuts[j + 1] ::
            f.log == log + stream[cuts[j]..if i < cuts[j] then cuts[j] else i])
  {
    var o := After(stream, cuts, j);
    assert After(stream, cuts, j + 1) == Flushed(o, stream[cuts[j]..cuts[j + 1]]);
    TailIsTheEnd(stream, cuts, j);
    TailReaches(stream, cuts, j);
    HasHeaderBy(stream, cuts[j]);
    hide After, Flushed, HasHeader;
    FoundIn(stream, o, cuts[j] - |o.tail|, cuts[j], cuts[j + 1]);
  }

  /** Up to where a header could first be through, nothing is flagged and all is logged. */
  lemma {:induction false} BeforeTheHeader(stream: seq<byte>, cuts: seq<nat>, j: nat)
    requires CutsOf(|stream|, cuts) && Spaced(cuts) && j < |cuts| && !HasHeader(stream[..cuts[j]])
    ensures !After(stream, cuts, j).transfer && After(stream, cuts, j).log == stream[..cuts[j]]
  {
    hide Flushed, HasHeader;
    if j == 0 {
      assert stream[..0] == [];
    } else {
      NoHeaderYet(stream, cuts, j - 1, j);
      BeforeTheHeader(stream, cuts, j - 1);
      HasHeaderBy(stream, cuts[j]);
      OnePiece(stream, cuts, j - 1);
      assert stream[..cuts[j]] == stream[..cuts[j - 1]] + stream[cuts[j - 1]..cuts[j]];
    }
  }

  /** In the piece where the first header completes it is found. */
  lemma AtTheHeader(stream: seq<byte>, cuts: seq<nat>, k: nat, i: nat)
    requires CutsOf(|stream|, cuts) && Spaced(cuts) && k + 1 < |cuts|
    requires FirstHeaderAt(stream, i) && cuts[k] < i + 5 <= cuts[k + 1]
    ensures var o := After(stream, cuts, k + 1);
      o.transfer && o.log == stream[..if i < cuts[k] then cuts[k] else i]
  {
    hide After, Flushed, HasHeader;
    HasHeaderBy(stream, cuts[k]);
    BeforeTheHeader(stream, cuts, k);
    OnePiece(stream, cuts, k);
    var at := if i < cuts[k] then cuts[k] else i;
    assert stream[..at] == stream[..cuts[k]] + stream[cuts[k]..at];
  }

  lemma {:induction false} AfterTheHeader(stream: seq<byte>, cuts: seq<nat>, k: nat, j: nat)
    requires CutsOf(|stream|, cuts) && k <= j < |cuts| && After(stream, cuts, k).transfer
    ensures After(stream, cuts, j).transfer && After(stream, cuts, j).log == After(stream, cuts, k).log
    decreases j
  {
    hide FindHeader, ZmodemStart, LastOf;
    if k < j {
      AfterTheHeader(stream, cuts, k, j - 1);
      assert After(stream, cuts, j - 1).log + [] == After(stream, cuts, j - 1).log;
    }
  }

  lemma FirstOf(stream: seq<byte>, i: nat) returns (first: nat)
    requires HeaderAt(stream, i)
    ensures FirstHeaderAt(stream, first) && first <= i
  {
    first := FindHeader(stream, 0).value;
  }

  lemma PieceOf(stream: seq<byte>, cuts: seq<nat>, at: nat, j: nat) returns (k: nat)
    requires CutsOf(|stream|, cuts) && j < |cuts| && 0 < at <= cuts[j]
    ensures k < j && cuts[k] < at <= cuts[k + 1]
  {
    k := 0;
    while cuts[k + 1] < at
      invariant k < j && cuts[k] < at
      decreases j - k
    {
      k := k + 1;
    }
  }

  /** Well-spaced pieces: every transfer is known of in exactly the flush its header completes
      in, and the log stops where it should. */
  lemma SpacedIsRight(stream: seq<byte>, cuts: seq<nat>)
    requires CutsOf(|stream|, cuts) && Spaced(cuts)
    ensures Right(stream, cuts)
  {
    hide After, HasHeader, FirstHeaderAt;
    forall j: nat | j < |cuts| ensures RightFlag(stream, cuts, j) && RightLog(stream, cuts, j) {
      HasHeaderBy(stream, cuts[j]);
      if !HasHeader(stream[..cuts[j]]) {
        BeforeTheHeader(stream, cuts, j);
      } else {
        var i: nat :| i + 5 <= cuts[j] && HeaderAt(stream, i);
        var first := FirstOf(stream, i);
        var k := PieceOf(stream, cuts, first + 5, j);
        AtTheHeader(stream, cuts, k, first);
        AfterTheHeader(stream, cuts, k + 1, j);
      }
      forall k: nat, i: nat | k < j && FirstHeaderAt(stream, i) && cuts[k] < i + 5 <= cuts[k + 1]
        ensures After(stream, cuts, j).log == stream[..if i < cuts[k] then cuts[k] else i]
      {
        AtTheHeader(stream, cuts, k, i);
        AfterTheHeader(stream, cuts, k + 1, j);
      }
    }
  }

  // ---- And only those -------------------------------------------------------------------------

  /** A stream of nothing but one header. */
  function OneHeader(size: nat, at: nat): (s: seq<byte>)
    requires at + 5 <= size
    ensures |s| == size && HeaderAt(s, at)
    ensures forall i: nat | HeaderAt(s, i) :: i == at
  {
    var s := seq(at, _ => 0) + HEADER + seq(size - at - 5, _ => 0);
    assert s[at..at + 5] == HEADER;
    assert forall i: nat | HeaderAt(s, i) :: i == at by {
      forall i: nat | HeaderAt(s, i) ensures i == at {
        assert s[i..i + 5][2] == s[i + 2] && s[i + 2] == 0x18;
      }
    }
    s
  }

  /** A header around a short piece goes by unseen. */
  lemma {:induction false} Missed(stream: seq<byte>, cuts: seq<nat>, j: nat, k: nat, at: nat)
    requires CutsOf(|stream|, cuts) && j < |cuts| && 0 < k < |cuts| - 2
    requires forall i: nat | HeaderAt(stream, i) :: i == at
    requires at < cuts[k] && cuts[k + 1] < at + 5
    ensures !After(stream, cuts, j).transfer
  {
    hide Flushed;
    if j > 0 {
      Missed(stream, cuts, j - 1, k, at);
      TailIsTheEnd(stream, cuts, j - 1);
      var o := After(stream, cuts, j - 1);
      if j <= k + 1 {
        assert cuts[j] <= cuts[k + 1];
      } else {
        assert cuts[k] <= cuts[j - 2];
      }
      NotFoundIn(stream, o, cuts[j - 1] - |o.tail|, cuts[j - 1], cuts[j], at);
    }
  }

  lemma NotFoundIn(stream: seq<byte>, o: Out, from: nat, c: nat, d: nat, at: nat)
    requires from <= c < d <= |stream| && o.tail == stream[from..c] && !o.transfer
    requires forall i: nat | HeaderAt(stream, i) :: i == at
    requires at < from || d < at + 5
    ensures !Flushed(o, stream[c..d]).transfer
  {
    assert o.tail + stream[c..d] == stream[from..d];
    var found := FindHeader(stream[from..d], 0);
    if found.Some? {
      HeaderWithin(stream, found.value + from, from, d);
    }
  }

  /** For cuts with a short piece inside, a stream whose header is never noticed. */
  lemma HiddenHeader(cuts: seq<nat>, size: nat) returns (stream: seq<byte>)
    requires CutsOf(size, cuts) && !Spaced(cuts) && size >= 5
    ensures |stream| == size && HasHeader(stream) && !Right(stream, cuts)
    ensures forall j | 0 <= j < |cuts| :: !After(stream, cuts, j).transfer
  {
    hide After, OneHeader;
    var k :| 0 < k < |cuts| - 2 && cuts[k] + 4 > cuts[k + 1];
    assert cuts[0] < cuts[k] < cuts[k + 1] < cuts[|cuts| - 1];
    var at := if cuts[k + 1] < 4 then 0 else cuts[k + 1] - 4;
    stream := OneHeader(size, at);
    var last := |cuts| - 1;
    forall j | 0 <= j < |cuts| ensures !After(stream, cuts, j).transfer {
      Missed(stream, cuts, j, k, at);
    }
    assert stream[..cuts[last]] == stream;
    assert HasHeader(stream);
    assert !RightFlag(stream, cuts, last);
  }

  /** Cutting a stream at given places never hides a header from the log, whatever the bytes,
      exactly when no piece but the first and last is shorter than four bytes, or there is no room
      for a header at all. */
  lemma ExactlyWhenRight(cuts: seq<nat>, size: nat)
    requires CutsOf(size, cuts)
    ensures (forall stream: seq<byte> | |stream| == size :: Right(stream, cuts)) <==> Spaced(cuts) || size < 5
  {
    if Spaced(cuts) {
      forall stream: seq<byte> | |stream| == size ensures Right(stream, cuts) {
        SpacedIsRight(stream, cuts);
      }
    } else if size < 5 {
      forall stream: seq<byte> | |stream| == size ensures Right(stream, cuts) {
        TooShortIsRight(stream, cuts);
      }
    } else {
      var stream := HiddenHeader(cuts, size);
    }
  }

  lemma TooShortIsRight(stream: seq<byte>, cuts: seq<nat>)
    requires CutsOf(|stream|, cuts) && |stream| < 5
    ensures Right(stream, cuts)
  {
    forall j: nat | j < |cuts| ensures RightFlag(stream, cuts, j) && RightLog(stream, cuts, j) {
      AllLogged(stream, cuts, j);
      HasHeaderBy(stream, cuts[j]);
    }
  }

  lemma {:induction false} AllLogged(stream: seq<byte>, cuts: seq<nat>, j: nat)
    requires CutsOf(|stream|, cuts) && |stream| < 5 && j < |cuts|
    ensures !After(stream, cuts, j).transfer && After(stream, cuts, j).log == stream[..cuts[j]]
  {
    hide Flushed;
    if j > 0 {
      AllLogged(stream, cuts, j - 1);
      TailIsTheEnd(stream, cuts, j - 1);
      NothingIn(After(stream, cuts, j - 1), stream[cuts[j - 1]..cuts[j]]);
      assert stream[..cuts[j]] == stream[..cuts[j - 1]] + stream[cuts[j - 1]..cuts[j]];
    } else {
      assert stream[..0] == [];
    }
  }

  lemma NothingIn(o: Out, buf: seq<byte>)
    requires buf != [] && !o.transfer && |o.tail| + |buf| < 5
    ensures !Flushed(o, buf).transfer && Flushed(o, buf).log == o.log + buf
  {
  }
}
