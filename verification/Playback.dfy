/** A recording's timeline: reading the clock out of a file, cutting the pauses short, and finding how
    much of it has been shown by a given second. */
module Playback {

  datatype Kind = Output | Resize

  /** One event of a file as it parses: a number, a code, a text. `kind` is absent for codes a player
      has no use for. */
  datatype Line = Skipped | Timed(time: real, code: Code, data: string)
  datatype Code = Known(kind: Kind) | Other

  datatype Event = Event(t: real, kind: Kind, data: string)

  datatype Version = V2 | V3

  function Max(a: real, b: real): real { if a < b then b else a }

  function Min(a: real, b: real): real { if a < b then a else b }

  /** The clock after some lines: the latest time so far in version 2, the gaps added up in version 3,
      and never backwards in either. */
  function Clock(version: Version, lines: seq<Line>): (c: real)
    ensures c >= 0.0
  {
    if lines == [] then 0.0
    else
      var before, last := Clock(version, lines[..|lines| - 1]), lines[|lines| - 1];
      if last.Skipped? then before
      else if version == V3 then before + Max(0.0, last.time)
      else Max(before, last.time)
  }

  function Events(version: Version, lines: seq<Line>): seq<Event> {
    if lines == [] then []
    else
      var last := lines[|lines| - 1];
      Events(version, lines[..|lines| - 1])
      + if last.Timed? && last.code.Known? then [Event(Clock(version, lines), last.code.kind, last.data)] else []
  }

  predicate Sorted(events: seq<Event>) {
    forall i, j | 0 <= i <= j < |events| :: events[i].t <= events[j].t
  }

  /** The loop of `parseCast`. */
  method ParseEvents(version: Version, lines: seq<Line>) returns (events: seq<Event>, duration: real)
    ensures events == Events(version, lines)
    ensures duration == if events == [] then 0.0 else events[|events| - 1].t
  {
    events := [];
    var clock := 0.0;
    for i := 0 to |lines|
      invariant clock == Clock(version, lines[..i]) && events == Events(version, lines[..i])
    {
      assert lines[..i + 1][..i] == lines[..i];
      var line := lines[i];
      if line.Skipped? {
        continue;
      }
      clock := if version == V3 then clock + Max(0.0, line.time) else Max(clock, line.time);
      if line.code.Known? {
        events := events + [Event(clock, line.code.kind, line.data)];
      }
    }
    assert lines[..|lines|] == lines;
    duration := if |events| > 0 then events[|events| - 1].t else 0.0;
  }

  lemma ClockGoesOn(version: Version, lines: seq<Line>)
    requires lines != []
    ensures 0.0 <= Clock(version, lines[..|lines| - 1]) <= Clock(version, lines)
  {
  }

  /** One more line is one more event, at the clock as it now stands, or none. */
  lemma OneMoreLine(version: Version, lines: seq<Line>)
    requires lines != []
    ensures var before, events := Events(version, lines[..|lines| - 1]), Events(version, lines);
      || events == before
      || (|events| == |before| + 1 && events[..|before|] == before && events[|before|].t == Clock(version, lines))
  {
    hide Clock;
  }

  /** However a file's times run, what is played is in order, from zero on, and up to the clock. */
  lemma {:induction false} EventsAreSorted(version: Version, lines: seq<Line>)
    ensures Sorted(Events(version, lines))
    ensures forall i | 0 <= i < |Events(version, lines)| :: 0.0 <= Events(version, lines)[i].t <= Clock(version, lines)
  {
    hide Clock, Events;
    if lines == [] {
      assert Events(version, lines) == [] by {
        NoLines(version);
      }
    } else {
      var before, events := Events(version, lines[..|lines| - 1]), Events(version, lines);
      EventsAreSorted(version, lines[..|lines| - 1]);
      ClockGoesOn(version, lines);
      OneMoreLine(version, lines);
      forall i | 0 <= i < |events| ensures 0.0 <= events[i].t <= Clock(version, lines) {
        assert i < |before| ==> events[i] == before[i];
      }
      forall i, j | 0 <= i <= j < |events| ensures events[i].t <= events[j].t {
        assert i < |before| ==> events[i] == before[i];
        assert j < |before| ==> events[j] == before[j];
      }
    }
  }

  lemma NoLines(version: Version)
    ensures Events(version, []) == []
  {
  }

  // ---- What the two versions' times are ----------------------------------------------------------

  /** In version 2 the clock is the latest time there was, if any was above zero. */
  lemma {:induction false} ClockIsTheLatest(lines: seq<Line>)
    ensures forall i | 0 <= i < |lines| && lines[i].Timed? :: lines[i].time <= Clock(V2, lines)
    ensures Clock(V2, lines) == 0.0
         || exists i | 0 <= i < |lines| :: lines[i].Timed? && lines[i].time == Clock(V2, lines)
  {
    if lines != [] {
      var n := |lines| - 1;
      ClockIsTheLatest(lines[..n]);
      assert forall i | 0 <= i < n :: lines[..n][i] == lines[i];
    }
  }

  /** In version 3 it is all that has gone by, and a time below zero is none. */
  lemma {:induction false} ClockAddsUp(a: seq<Line>, b: seq<Line>)
    ensures Clock(V3, a + b) == Clock(V3, a) + Clock(V3, b)
    ensures forall line: Line ::
      Clock(V3, [line]) == if line.Timed? && line.time > 0.0 then line.time else 0.0
  {
    assert forall line: Line :: [line][..0] == [];
    if b == [] {
      assert a + b == a;
    } else {
      var n := |b| - 1;
      assert (a + b)[..|a| + n] == a + b[..n];
      ClockAddsUp(a, b[..n]);
    }
  }

  /** Events as a file of either version has them: their times, or what passed before each. */
  function Recorded(version: Version, events: seq<Event>): (r: seq<Line>)
    ensures |r| == |events|
  {
    if events == [] then []
    else
      var n := |events| - 1;
      var e := events[n];
      var before := if n == 0 then 0.0 else events[n - 1].t;
      Recorded(version, events[..n]) + [Timed(if version == V2 then e.t else e.t - before, Known(e.kind), e.data)]
  }

  lemma OneMoreRecorded(version: Version, events: seq<Event>)
    requires events != []
    ensures var n := |events| - 1; var lines, e := Recorded(version, events), events[n];
      && lines[..n] == Recorded(version, events[..n]) && lines[n].Timed?
      && lines[n] == Timed(lines[n].time, Known(e.kind), e.data)
      && lines[n].time == if version == V2 then e.t else if n == 0 then e.t else e.t - events[n - 1].t
  {
  }

  lemma OneMorePlays(version: Version, lines: seq<Line>, kind: Kind, data: string)
    requires lines != [] && lines[|lines| - 1].Timed? && lines[|lines| - 1].code == Known(kind)
    requires lines[|lines| - 1].data == data
    ensures var before, last := lines[..|lines| - 1], lines[|lines| - 1];
      && Events(version, lines) == Events(version, before) + [Event(Clock(version, lines), kind, data)]
      && Clock(version, lines) == (if version == V3 then Clock(version, before) + Max(0.0, last.time)
                                   else Max(Clock(version, before), last.time))
  {
  }

  lemma NothingPlays(version: Version)
    ensures Recorded(version, []) == [] && Events(version, []) == [] && Clock(version, []) == 0.0
  {
  }

  lemma UpToTheLast(events: seq<Event>)
    requires FromZero(events) && events != []
    ensures var n := |events| - 1;
      FromZero(events[..n]) && if n == 0 then 0.0 <= events[0].t else 0.0 <= events[n - 1].t <= events[n].t
  {
  }

  /** What was recorded in either version plays back as it was. */
  lemma {:induction false} RecordedPlaysBack(version: Version, events: seq<Event>)
    requires FromZero(events)
    ensures Events(version, Recorded(version, events)) == events
    ensures Clock(version, Recorded(version, events)) == if events == [] then 0.0 else events[|events| - 1].t
  {
    hide Recorded, Events, Clock, FromZero;
    if events == [] {
      NothingPlays(version);
    } else {
      var n := |events| - 1;
      UpToTheLast(events);
      RecordedPlaysBack(version, events[..n]);
      OneMoreRecorded(version, events);
      OneMorePlays(version, Recorded(version, events), events[n].kind, events[n].data);
      assert events == events[..n] + [events[n]];
    }
  }

  // ---- Cutting pauses short ------------------------------------------------------------------------

  /** The same events, each as long after the one before as it was, but no longer than `max`. */
  function Compressed(events: seq<Event>, max: real): (r: seq<Event>)
    ensures |r| == |events|
  {
    if events == [] then []
    else
      var n := |events| - 1;
      var before := Compressed(events[..n], max);
      var last, now := if n == 0 then 0.0 else events[n - 1].t, if n == 0 then 0.0 else before[n - 1].t;
      before + [events[n].(t := now + Min(events[n].t - last, max))]
  }

  /** `compressIdle`: keeps the time taken out so far. */
  method CompressIdle(events: seq<Event>, max: real) returns (r: seq<Event>)
    ensures r == Compressed(events, max)
  {
    var removed, last := 0.0, 0.0;
    r := [];
    for i := 0 to |events|
      invariant r == Compressed(events[..i], max)
      invariant last == if i == 0 then 0.0 else events[i - 1].t
      invariant (if i == 0 then 0.0 else r[i - 1].t) == last - removed
    {
      assert events[..i + 1][..i] == events[..i];
      var e := events[i];
      var gap := e.t - last;
      last := e.t;
      if gap > max {
        removed := removed + (gap - max);
      }
      r := r + [e.(t := e.t - removed)];
    }
    assert events[..|events|] == events;
  }

  function Gap(events: seq<Event>, i: nat): real
    requires i < |events|
  {
    events[i].t - if i == 0 then 0.0 else events[i - 1].t
  }

  predicate FromZero(events: seq<Event>) {
    Sorted(events) && (events != [] ==> events[0].t >= 0.0)
  }

  lemma LastGapIsCut(events: seq<Event>, max: real)
    requires events != []
    ensures var n, r := |events| - 1, Compressed(events, max);
            && r[..n] == Compressed(events[..n], max)
            && Gap(r, n) == (if Gap(events, n) > max then max else Gap(events, n)) && r[n] == events[n].(t := r[n].t)
  {
  }

  /** Event by event the gap is the smaller of what it was and `max`, and nothing else changes. */
  lemma {:induction false} GapsAreCut(events: seq<Event>, max: real)
    ensures forall i | 0 <= i < |events| ::
      && Gap(Compressed(events, max), i) == (if Gap(events, i) > max then max else Gap(events, i))
      && Compressed(events, max)[i] == events[i].(t := Compressed(events, max)[i].t)
  {
    hide Compressed, Min;
    if events != [] {
      var n := |events| - 1;
      GapsAreCut(events[..n], max);
      LastGapIsCut(events, max);
      var before, r := Compressed(events[..n], max), Compressed(events, max);
      forall i | 0 <= i < |events|
        ensures Gap(r, i) == (if Gap(events, i) > max then max else Gap(events, i)) && r[i] == events[i].(t := r[i].t)
      {
        if i < n {
          assert r[i] == before[i] && events[i] == events[..n][i];
          assert i > 0 ==> r[i - 1] == before[i - 1] && events[i - 1] == events[..n][i - 1];
          assert Gap(before, i) == if Gap(events[..n], i) > max then max else Gap(events[..n], i);
        }
      }
    }
  }

  /** Gaps decide order: between two events lie the gaps from one to the other. */
  lemma {:induction false} OrderOfGaps(a: seq<Event>, b: seq<Event>, i: nat, j: nat)
    requires i <= j < |a| == |b|
    requires forall k | 0 <= k < |a| :: Gap(a, k) >= 0.0 && Gap(b, k) >= 0.0 && (Gap(a, k) > 0.0 <==> Gap(b, k) > 0.0)
    ensures a[i].t <= a[j].t && b[i].t <= b[j].t && (a[i].t < a[j].t <==> b[i].t < b[j].t)
    decreases j
  {
    if i < j {
      OrderOfGaps(a, b, i, j - 1);
      assert Gap(a, j) >= 0.0 && Gap(b, j) >= 0.0 && (Gap(a, j) > 0.0 <==> Gap(b, j) > 0.0);
    }
  }

  lemma GapsOfSorted(events: seq<Event>)
    requires FromZero(events)
    ensures forall i | 0 <= i < |events| :: Gap(events, i) >= 0.0
  {
  }

  lemma {:induction false} SortedFromGaps(events: seq<Event>)
    requires forall i | 0 <= i < |events| :: Gap(events, i) >= 0.0
    ensures FromZero(events)
  {
    forall i, j | 0 <= i <= j < |events| ensures events[i].t <= events[j].t {
      OrderOfGaps(events, events, i, j);
    }
    if events != [] {
      assert Gap(events, 0) == events[0].t;
    }
  }

  lemma CompressedStaysSorted(events: seq<Event>, max: real)
    requires FromZero(events) && max >= 0.0
    ensures FromZero(Compressed(events, max))
  {
    hide Compressed, FromZero;
    GapsOfSorted(events);
    GapsAreCut(events, max);
    var r := Compressed(events, max);
    forall i | 0 <= i < |r| ensures Gap(r, i) >= 0.0 {
      assert Gap(r, i) in {max, Gap(events, i)};
    }
    SortedFromGaps(r);
  }

  /** A timeline stays in order when its pauses are cut, exactly when the limit is not negative. */
  lemma CompressedIsSortedExactly(max: real)
    ensures (forall events: seq<Event> | FromZero(events) :: FromZero(Compressed(events, max))) <==> max >= 0.0
  {
    if max >= 0.0 {
      forall events: seq<Event> | FromZero(events) ensures FromZero(Compressed(events, max)) {
        CompressedStaysSorted(events, max);
      }
    } else {
      var one := CutBelowZero(max);
    }
  }

  lemma CutBelowZero(max: real) returns (one: seq<Event>)
    requires max < 0.0
    ensures FromZero(one) && !FromZero(Compressed(one, max))
  {
    one := [Event(0.0, Output, "")];
    GapsAreCut(one, max);
    assert Gap(one, 0) == 0.0 && Gap(Compressed(one, max), 0) == max;
  }

  // ---- What has been shown by a given second ---------------------------------------------------------

  /** How many events are not after `t`. */
  function Shown(events: seq<Event>, t: real): nat {
    if events == [] then 0
    else Shown(events[..|events| - 1], t) + if events[|events| - 1].t <= t then 1 else 0
  }

  lemma {:induction false} ShownUpTo(events: seq<Event>, t: real, n: nat)
    requires n <= |events|
    requires forall i | 0 <= i < n :: events[i].t <= t
    requires forall i | n <= i < |events| :: events[i].t > t
    ensures Shown(events, t) == n
  {
    if events != [] {
      var m := |events| - 1;
      ShownUpTo(events[..m], t, if n <= m then n else m);
    }
  }

  /** `eventsBy`: on a timeline in order, the search by halves counts the events that have happened. */
  method EventsBy(events: seq<Event>, t: real) returns (r: nat)
    requires Sorted(events)
    ensures r == Shown(events, t) <= |events|
    ensures forall i | 0 <= i < |events| :: i < r <==> events[i].t <= t
  {
    var lo: nat, hi: nat := 0, |events|;
    while lo < hi
      invariant lo <= hi <= |events|
      invariant forall i | 0 <= i < lo :: events[i].t <= t
      invariant forall i | hi <= i < |events| :: events[i].t > t
    {
      var mid := (lo + hi) / 2;
      if events[mid].t <= t {
        lo := mid + 1;
      } else {
        hi := mid;
      }
    }
    ShownUpTo(events, t, lo);
    r := lo;
  }

  /** Two timelines that agree on what is after what have shown as much by each of their events. */
  lemma {:induction false} ShownAlike(a: seq<Event>, b: seq<Event>, s: real, t: real)
    requires |a| == |b| && forall k | 0 <= k < |a| :: a[k].t <= s <==> b[k].t <= t
    ensures Shown(a, s) == Shown(b, t)
  {
    if a != [] {
      ShownAlike(a[..|a| - 1], b[..|b| - 1], s, t);
    }
  }

  /** With the pauses cut, going to an event shows just what going to it showed before. That takes a
      limit above zero: at zero every event falls on the first. */
  lemma SameShownExactly(max: real)
    ensures (forall events: seq<Event>, i: nat | FromZero(events) && i < |events| ::
               Shown(Compressed(events, max), Compressed(events, max)[i].t) == Shown(events, events[i].t))
            <==> max > 0.0
  {
    if max > 0.0 {
      forall events: seq<Event>, i: nat | FromZero(events) && i < |events|
        ensures Shown(Compressed(events, max), Compressed(events, max)[i].t) == Shown(events, events[i].t)
      {
        SameShown(events, max, i);
      }
    } else {
      var two := [Event(0.0, Output, ""), Event(1.0, Output, "")];
      assert FromZero(two);
      GapsAreCut(two, max);
      var r := Compressed(two, max);
      assert Gap(two, 1) == 1.0 && Gap(r, 1) == max && r[1].t <= r[0].t;
      ShownUpTo(two, 0.0, 1);
      ShownUpTo(r, r[0].t, 2);
      assert Shown(Compressed(two, max), Compressed(two, max)[0].t) != Shown(two, two[0].t);
    }
  }

  lemma SameShown(events: seq<Event>, max: real, i: nat)
    requires FromZero(events) && i < |events| && max > 0.0
    ensures Shown(Compressed(events, max), Compressed(events, max)[i].t) == Shown(events, events[i].t)
  {
    var r := Compressed(events, max);
    GapsOfSorted(events);
    GapsAreCut(events, max);
    forall k | 0 <= k < |r| ensures Gap(r, k) >= 0.0 && (Gap(r, k) > 0.0 <==> Gap(events, k) > 0.0) {
      assert Gap(r, k) in {max, Gap(events, k)};
    }
    forall k | 0 <= k < |r| ensures r[k].t <= r[i].t <==> events[k].t <= events[i].t {
      if k <= i {
        OrderOfGaps(events, r, k, i);
      } else {
        OrderOfGaps(events, r, i, k);
      }
    }
    ShownAlike(r, events, r[i].t, events[i].t);
  }
}
