/** Commands a host remembers, most recent first: kept by the backend, which truncates once a
    batch, and by the frontend, which truncates at every command. */
module History {
  import opened Bytes
  import opened Lists

  const HISTORY_CAP: nat := 500

  predicate NoDuplicates(s: seq<string>) {
    forall i, j | 0 <= i < j < |s| :: s[i] != s[j]
  }

  function Without(s: seq<string>, c: string): (r: seq<string>)
    ensures c !in r && |r| <= |s|
  {
    if s == [] then [] else (if s[0] == c then [] else [s[0]]) + Without(s[1..], c)
  }

  function Pushed(h: seq<string>, c: string): seq<string> {
    [c] + Without(h, c)
  }

  function Take(s: seq<string>, cap: nat): seq<string> {
    if |s| <= cap then s else s[..cap]
  }

  function PushedAll(h: seq<string>, commands: seq<string>): seq<string> {
    if commands == [] then h
    else Pushed(PushedAll(h, commands[..|commands| - 1]), commands[|commands| - 1])
  }

  /** `remember`: the frontend's copy, one command at a time. */
  function Remember(h: seq<string>, command: string, cap: nat): seq<string> {
    Take(Pushed(h, command), cap)
  }

  function RememberEach(h: seq<string>, commands: seq<string>, cap: nat): seq<string> {
    if commands == [] then h
    else Remember(RememberEach(h, commands[..|commands| - 1], cap), commands[|commands| - 1], cap)
  }

  /** The backend's copy. */
  class Saved {
    var history: seq<string>

    constructor (history: seq<string>)
      ensures this.history == history
    {
      this.history := history;
    }

    method Retain(other: string)
      modifies this
      ensures history == Without(old(history), other)
    {
      var kept: seq<string> := [];
      var i := 0;
      while i < |history|
        invariant i <= |history| && history == old(history)
        invariant kept == Without(history[..i], other)
      {
        assert history[..i + 1] == history[..i] + [history[i]];
        WithoutConcat(history[..i], [history[i]], other);
        if history[i] != other {
          kept := kept + [history[i]];
        }
        i := i + 1;
      }
      assert history[..i] == history;
      history := kept;
    }

    /** `remember_commands`: each to the front in turn, truncated when all are in. */
    method RememberCommands(commands: seq<string>)
      modifies this
      ensures history == Take(PushedAll(old(history), commands), HISTORY_CAP)
    {
      var n := 0;
      while n < |commands|
        invariant n <= |commands|
        invariant history == PushedAll(old(history), commands[..n])
      {
        assert commands[..n + 1][..n] == commands[..n];
        Retain(commands[n]);
        history := [commands[n]] + history;
        n := n + 1;
      }
      assert commands[..n] == commands;
      if |history| > HISTORY_CAP {
        history := history[..HISTORY_CAP];
      }
    }
  }

  // ---- Truncating once and truncating at every step ------------------------------------------

  lemma {:induction false} WithoutMembers(s: seq<string>, c: string)
    ensures forall x :: x in Without(s, c) <==> x in s && x != c
  {
    if s != [] {
      WithoutMembers(s[1..], c);
      assert s == [s[0]] + s[1..];
    }
  }

  /** What is left comes from places in the same order. */
  lemma {:induction false} WithoutPicks(s: seq<string>, c: string, i: nat, j: nat) returns (a: nat, b: nat)
    requires i < j < |Without(s, c)|
    ensures a < b < |s| && s[a] == Without(s, c)[i] && s[b] == Without(s, c)[j]
  {
    if s[0] == c {
      a, b := WithoutPicks(s[1..], c, i, j);
      a, b := a + 1, b + 1;
    } else if i == 0 {
      var w := Without(s[1..], c);
      WithoutMembers(s[1..], c);
      assert w[j - 1] in s[1..];
      b :| 0 <= b < |s[1..]| && s[1..][b] == w[j - 1];
      a, b := 0, b + 1;
    } else {
      a, b := WithoutPicks(s[1..], c, i - 1, j - 1);
      a, b := a + 1, b + 1;
    }
  }

  lemma WithoutHasNoDuplicates(s: seq<string>, c: string)
    requires NoDuplicates(s)
    ensures NoDuplicates(Without(s, c))
  {
    forall i, j | 0 <= i < j < |Without(s, c)| ensures Without(s, c)[i] != Without(s, c)[j] {
      var a, b := WithoutPicks(s, c, i, j);
    }
  }

  lemma {:induction false} WithoutAbsent(s: seq<string>, c: string)
    requires c !in s
    ensures Without(s, c) == s
  {
    if s != [] {
      assert s == [s[0]] + s[1..] && s[0] in s;
      WithoutAbsent(s[1..], c);
    }
  }

  lemma {:induction false} WithoutConcat(a: seq<string>, b: seq<string>, c: string)
    ensures Without(a + b, c) == Without(a, c) + Without(b, c)
  {
    hide Without;
    if a == [] {
      assert a + b == b;
      assert Without(a, c) == [] by { WithoutNone(c); }
    } else {
      assert (a + b)[1..] == a[1..] + b;
      WithoutFirst(a + b, c);
      WithoutFirst(a, c);
      WithoutConcat(a[1..], b, c);
      Regroup(if a[0] == c then [] else [a[0]], Without(a[1..], c), Without(b, c));
    }
  }

  lemma WithoutNone(c: string)
    ensures Without([], c) == []
  {
  }

  lemma WithoutFirst(s: seq<string>, c: string)
    requires s != []
    ensures Without(s, c) == (if s[0] == c then [] else [s[0]]) + Without(s[1..], c)
  {
  }

  /** Without duplicates, at most one is taken out. */
  lemma {:induction false} WithoutOne(s: seq<string>, c: string)
    requires NoDuplicates(s)
    ensures |Without(s, c)| >= |s| - 1
  {
    if s != [] {
      if s[0] == c {
        WithoutAbsent(s[1..], c);
      } else {
        WithoutOne(s[1..], c);
      }
    }
  }

  /** What is past the cap before a command is past it after. */
  lemma TruncateFirst(h: seq<string>, c: string, cap: nat)
    requires NoDuplicates(h)
    ensures Take(Pushed(Take(h, cap), c), cap) == Take(Pushed(h, c), cap)
  {
    hide Without;
    if |h| > cap > 0 {
      var kept, past := h[..cap], h[cap..];
      assert h == kept + past;
      WithoutConcat(kept, past, c);
      WithoutOne(kept, c);
      assert Without(h, c) == Without(kept, c) + Without(past, c);
      if c !in kept {
        WithoutAbsent(kept, c);
      } else {
        var k :| 0 <= k < |kept| && kept[k] == c;
        assert forall i | cap <= i < |h| :: h[i] != h[k];
        WithoutAbsent(past, c);
      }
      assert Take(Pushed(h, c), cap) == Pushed(h, c)[..cap];
      assert Pushed(h, c)[..cap] == Take(Pushed(kept, c), cap);
    }
  }

  lemma {:induction false} PushedAllHasNoDuplicates(h: seq<string>, commands: seq<string>)
    requires NoDuplicates(h)
    ensures NoDuplicates(PushedAll(h, commands))
  {
    if commands != [] {
      PushedAllHasNoDuplicates(h, commands[..|commands| - 1]);
      WithoutHasNoDuplicates(PushedAll(h, commands[..|commands| - 1]), commands[|commands| - 1]);
    }
  }

  /** The saved history after a batch is the one the frontend came to command by command. */
  lemma {:induction false} BatchIsEach(h: seq<string>, commands: seq<string>, cap: nat)
    requires NoDuplicates(h) && |h| <= cap
    ensures RememberEach(h, commands, cap) == Take(PushedAll(h, commands), cap)
    ensures NoDuplicates(RememberEach(h, commands, cap))
    ensures |RememberEach(h, commands, cap)| <= cap
  {
    PushedAllHasNoDuplicates(h, commands);
    if commands != [] {
      var before := commands[..|commands| - 1];
      BatchIsEach(h, before, cap);
      PushedAllHasNoDuplicates(h, before);
      TruncateFirst(PushedAll(h, before), commands[|commands| - 1], cap);
    }
  }

  // ---- What the order means ---------------------------------------------------------------------

  /** Everything that was run, oldest first: the history backwards, then the commands. */
  function Log(h: seq<string>, commands: seq<string>): seq<string> {
    Reversed(h) + commands
  }

  function LastRun(log: seq<string>, c: string): (k: nat)
    requires c in log
    ensures k < |log| && log[k] == c && c !in log[k + 1..]
  {
    if log[|log| - 1] == c then |log| - 1
    else
      var k := LastRun(log[..|log| - 1], c);
      assert log[k + 1..] == log[..|log| - 1][k + 1..] + [log[|log| - 1]];
      k
  }

  /** Each command of the log once, the one run last first. */
  ghost predicate ByLastRun(log: seq<string>, r: seq<string>) {
    && (forall c :: c in r <==> c in log)
    && forall i, j | 0 <= i < j < |r| :: LastRun(log, r[i]) > LastRun(log, r[j])
  }

  lemma LastRunMore(log: seq<string>, c: string, x: string)
    requires x in log + [c]
    ensures LastRun(log + [c], x) == if x == c then |log| else LastRun(log, x)
  {
    assert (log + [c])[..|log|] == log;
  }

  lemma {:induction false} HistoryByLastRun(h: seq<string>)
    requires NoDuplicates(h)
    ensures ByLastRun(Reversed(h), h)
  {
    if h != [] {
      assert h == [h[0]] + h[1..];
      HistoryByLastRun(h[1..]);
      PushByLastRun(Reversed(h[1..]), h[1..], h[0]);
      assert h[0] !in h[1..];
      WithoutAbsent(h[1..], h[0]);
    }
  }

  lemma PushByLastRun(log: seq<string>, r: seq<string>, c: string)
    requires ByLastRun(log, r)
    ensures ByLastRun(log + [c], Pushed(r, c))
  {
    hide Without, LastRun;
    WithoutMembers(r, c);
    var p := Pushed(r, c);
    forall x ensures x in p <==> x in log + [c] {
      assert x in r <==> x in log;
    }
    forall i, j | 0 <= i < j < |p| ensures LastRun(log + [c], p[i]) > LastRun(log + [c], p[j]) {
      PushedInOrder(log, r, c, i, j);
    }
  }

  lemma PushedInOrder(log: seq<string>, r: seq<string>, c: string, i: nat, j: nat)
    requires ByLastRun(log, r) && i < j < |Pushed(r, c)|
    requires forall x :: x in Pushed(r, c) <==> x in log + [c]
    ensures LastRun(log + [c], Pushed(r, c)[i]) > LastRun(log + [c], Pushed(r, c)[j])
  {
    hide Without, LastRun;
    var p := Pushed(r, c);
    WithoutMembers(r, c);
    assert p[j] in Without(r, c) && (i > 0 ==> p[i] in Without(r, c));
    LastRunMore(log, c, p[i]);
    LastRunMore(log, c, p[j]);
    if i > 0 {
      var a, b := WithoutPicks(r, c, i - 1, j - 1);
    } else {
      assert p[j] in log;
    }
  }

  lemma {:induction false} PushedByLastRun(h: seq<string>, commands: seq<string>)
    requires NoDuplicates(h)
    ensures ByLastRun(Log(h, commands), PushedAll(h, commands))
  {
    if commands == [] {
      HistoryByLastRun(h);
      assert Log(h, commands) == Reversed(h);
    } else {
      var before, last := commands[..|commands| - 1], commands[|commands| - 1];
      PushedByLastRun(h, before);
      PushByLastRun(Log(h, before), PushedAll(h, before), last);
      assert Log(h, commands) == Log(h, before) + [last];
    }
  }

  /** The `cap` commands of the log that were run last, or all of them, the last run first. */
  ghost predicate MostRecent(log: seq<string>, r: seq<string>, cap: nat) {
    && |r| <= cap && (forall c | c in r :: c in log)
    && (forall i, j | 0 <= i < j < |r| :: LastRun(log, r[i]) > LastRun(log, r[j]))
    && (forall c | c in log && c !in r :: |r| == cap && forall i | 0 <= i < |r| :: LastRun(log, r[i]) > LastRun(log, c))
  }

  /** What a batch leaves of a history is the commands run last, once each, the last first: those of the
      batch and those of the history before it, up to the cap. */
  lemma BatchByLastRun(h: seq<string>, commands: seq<string>, cap: nat)
    requires NoDuplicates(h)
    ensures MostRecent(Log(h, commands), Take(PushedAll(h, commands), cap), cap)
  {
    hide Log, PushedAll, LastRun;
    PushedByLastRun(h, commands);
    var log, all := Log(h, commands), PushedAll(h, commands);
    var r := Take(all, cap);
    forall c | c in log && c !in r
      ensures |r| == cap && forall i | 0 <= i < |r| :: LastRun(log, r[i]) > LastRun(log, c)
    {
      assert c in all;
      var k :| 0 <= k < |all| && all[k] == c;
      assert all[..|r|] == r;
      assert k >= |r|;
    }
  }
}
