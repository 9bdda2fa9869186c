/** A host and its port as one name in known_hosts: told apart by every port, and read back. */
module HostPorts {
  import opened Decimal
  import opened KnownHosts
  import opened TextLines
  import opened Wrappers

  const PORTS: nat := 0x1_0000

  // ---- Reading a name back -----------------------------------------------------------------------

  /** `parse::<u16>`: digits, a plus before them or not, below 65536. */
  function ParsePort(s: string): (r: Option<nat>)
    ensures r.Some? ==> r.value < PORTS
  {
    var digits := if "+" <= s then s[1..] else s;
    if digits == "" || !AllDigits(digits) || Number(digits) >= PORTS then None else Some(Number(digits))
  }

  predicate ClosesAt(s: string, i: nat) {
    i + 2 <= |s| && s[i] == ']' && s[i + 1] == ':'
  }

  /** Where the last `]:` starts. */
  function LastClose(s: string): (r: Option<nat>)
    ensures r.Some? ==> ClosesAt(s, r.value)
    ensures forall i: nat | ClosesAt(s, i) :: r.Some? && i <= r.value
  {
    if |s| < 2 then None
    else if ClosesAt(s, |s| - 2) then Some(|s| - 2)
    else
      var r := LastClose(s[..|s| - 1]);
      assert forall i: nat | ClosesAt(s, i) :: ClosesAt(s[..|s| - 1], i);
      r
  }

  /** `split_host_spec`. */
  function SplitHostSpec(spec: string): (string, nat) {
    if !("[" <= spec) then (spec, 22)
    else
      var rest := spec[1..];
      var at := LastClose(rest);
      if at.None? then (spec, 22)
      else
        var port := ParsePort(rest[at.value + 2..]);
        if port.None? then (spec, 22) else (rest[..at.value], port.value)
  }

  /** A bare host that looks like a host and a port in brackets. */
  ghost predicate Bracketed(host: string) {
    exists h: string, p: string :: host == "[" + h + "]:" + p && ParsePort(p).Some?
  }

  lemma DigitsMakeAPort(port: nat)
    requires port < PORTS
    ensures ParsePort(Digits(port)) == Some(port)
  {
    DigitsAreRead(port);
    assert IsDigit(Digits(port)[0]);
  }

  lemma NoCloseInAPort(p: string, i: nat)
    requires ParsePort(p).Some? && i < |p|
    ensures p[i] !in "]:"
  {
    if i > 0 && "+" <= p {
      assert IsDigit(p[1..][i - 1]);
    }
  }

  lemma LastCloseIs(s: string, n: nat)
    requires ClosesAt(s, n) && forall i: nat | n < i :: !ClosesAt(s, i)
    ensures LastClose(s) == Some(n)
  {
  }

  lemma ClosesLast(h: string, p: string)
    requires ParsePort(p).Some?
    ensures LastClose(h + "]:" + p) == Some(|h|)
  {
    hide ParsePort, LastClose;
    var s := h + "]:" + p;
    forall i: nat | |h| < i && i + 2 <= |s| ensures !ClosesAt(s, i) {
      NoCloseInAPort(p, i - |h| - 1);
      assert s[i + 1] == p[i - |h| - 1];
    }
    LastCloseIs(s, |h|);
  }

  /** Between the brackets is the host, whatever it is, and behind them the port. */
  lemma BracketsComeOff(h: string, p: string)
    requires ParsePort(p).Some?
    ensures SplitHostSpec("[" + h + "]:" + p) == (h, ParsePort(p).value)
  {
    hide ParsePort, LastClose;
    var spec, rest := "[" + h + "]:" + p, h + "]:" + p;
    ClosesLast(h, p);
    assert spec[1..] == rest;
    assert rest[|h| + 2..] == p && rest[..|h|] == h;
  }

  lemma BareIsBare(host: string)
    ensures SplitHostSpec(host) == (host, 22) <==> !Bracketed(host)
  {
    if h: string, p: string :| host == "[" + h + "]:" + p && ParsePort(p).Some? {
      BracketsComeOff(h, p);
    } else if "[" <= host && LastClose(host[1..]).Some? {
      var at := LastClose(host[1..]).value;
      var h, p := host[1..][..at], host[1..][at + 2..];
      assert host[1..] == h + "]:" + p;
      assert host == "[" + h + "]:" + p;
    }
  }

  /** The host and the port come back from the name made of them, but for a bare host that is itself
      such a name. */
  lemma SpecComesBack(host: string, port: nat)
    requires port < PORTS
    ensures SplitHostSpec(HostSpec(host, port)) == (host, port) <==> port != 22 || !Bracketed(host)
  {
    if port == 22 {
      BareIsBare(host);
    } else {
      DigitsMakeAPort(port);
      BracketsComeOff(host, Digits(port));
    }
  }

  /** So no two hosts or ports share a name, and on the usual port the name is the host. */
  lemma SpecsDiffer(host: string, port: nat, host': string, port': nat)
    requires port < PORTS && port' < PORTS && !Bracketed(host) && !Bracketed(host')
    ensures HostSpec(host, port) == HostSpec(host', port') <==> host == host' && port == port'
    ensures HostSpec(host, 22) == host
  {
    SpecComesBack(host, port);
    SpecComesBack(host', port');
  }

  // ---- One host, two ports -----------------------------------------------------------------------

  /** A host name as it is typed: nothing known_hosts has a use for, no wildcards, no brackets. */
  predicate Ordinary(host: string) {
    PlainHost(host) && NoWildcards(host) && host[0] != '['
  }

  lemma OrdinarySpec(host: string, port: nat)
    requires Ordinary(host)
    ensures PlainHost(HostSpec(host, port)) && NoWildcards(HostSpec(host, port)) && !Bracketed(host)
  {
    var digits := Digits(port);
    var spec := HostSpec(host, port);
    if port != 22 {
      assert spec == "[" + host + "]:" + digits;
      forall i | 0 <= i < |spec| ensures !IsSpace(spec[i]) && spec[i] !in ",*?" {
        if 0 < i <= |host| {
          assert spec[i] == host[i - 1];
        } else if i >= |host| + 3 {
          assert spec[i] == digits[i - |host| - 3] && IsDigit(digits[i - |host| - 3]);
        }
      }
    }
  }

  lemma OtherName(host: string, port: nat, host': string, port': nat)
    requires Ordinary(host) && Ordinary(host') && port < PORTS && port' < PORTS
    ensures HostSpec(host, port) == HostSpec(host', port') <==> host == host' && port == port'
  {
    hide HostSpec, PlainHost;
    OrdinarySpec(host, port);
    OrdinarySpec(host', port');
    SpecsDiffer(host, port, host', port');
  }

  /** Learning a host on one port changes no answer about any other host, or the same on another port. */
  lemma LearntOnOnePort(w: World, f: Files, host: string, port: nat, blob: Blob, host': string, port': nat, blob': Blob)
    requires Lawful(w) && Ordinary(host) && Ordinary(host') && port < PORTS && port' < PORTS
    requires host != host' || port != port'
    requires AlgoFromBlob(blob).Some? && IsWord(AlgoFromBlob(blob).value)
    ensures var after := Files(Learnt(w, HostSpec(host, port), blob, f.own), f.openssh);
      StatusOf(w, HostSpec(host', port'), blob', Entries(after))
        == StatusOf(w, HostSpec(host', port'), blob', Entries(f))
  {
    hide StatusOf, Entries, Learnt, AlgoFromBlob, PlainHost, HostSpec, IsWord;
    OrdinarySpec(host, port);
    OtherName(host, port, host', port');
    LearntElsewhere(w, HostSpec(host, port), blob, f, HostSpec(host', port'), blob');
  }

  /** Every line that is for this host names it and no other, as the lines written here do. */
  predicate NamedAlone(w: World, own: Option<string>, target: string) {
    forall l | l in FileLines(own) && HostMatches(w, l.hosts, target) :: l.hosts == target
  }

  /** Nor does removing its keys, of one type or of all, when the lines that go name it alone. */
  lemma RemovedOnOnePort(w: World, f: Files, host: string, port: nat, algo: Option<string>, host': string, port': nat,
      blob: Blob)
    requires Ordinary(host) && Ordinary(host') && port < PORTS && port' < PORTS
    requires host != host' || port != port'
    requires NamedAlone(w, f.own, HostSpec(host, port))
    ensures var after := Files(Removed(w, HostSpec(host, port), algo, f.own), f.openssh);
      Numberless(StatusOf(w, HostSpec(host', port'), blob, Entries(after)))
        == Numberless(StatusOf(w, HostSpec(host', port'), blob, Entries(f)))
  {
    hide StatusOf, Entries, Removed, PlainHost, HostSpec, HostMatches, FileLines, AlgoFromBlob;
    OrdinarySpec(host, port);
    OtherName(host, port, host', port');
    NoOtherHost(w, HostSpec(host, port), HostSpec(host', port'));
    RemovedElsewhere(w, HostSpec(host, port), algo, f, HostSpec(host', port'), blob);
  }

  /** From no files at all: after one host is learnt on one port its key matches there, and no key is
      known for any other host, or for the same host on any other port. */
  lemma OnlyThatPort(w: World, host: string, port: nat, blob: Blob, host': string, port': nat, blob': Blob)
    requires Lawful(w) && Ordinary(host) && Ordinary(host') && port < PORTS && port' < PORTS
    requires AlgoFromBlob(blob).Some? && IsWord(AlgoFromBlob(blob).value)
    ensures var entries := Entries(Files(Learnt(w, HostSpec(host, port), blob, None), None));
      && StatusOf(w, HostSpec(host, port), blob, entries) == Match(Bifrossh)
      && (host != host' || port != port' ==> StatusOf(w, HostSpec(host', port'), blob', entries) == Unknown)
  {
    hide StatusOf, Entries, Learnt, AlgoFromBlob, PlainHost, HostSpec, IsWord, Serves, Decider, Written;
    OrdinarySpec(host, port);
    PlainServes(w, HostSpec(host, port), blob);
    LearntIsFound(w, HostSpec(host, port), blob, Files(None, None));
    NothingToDecide(w, HostSpec(host, port), blob);
    if host != host' || port != port' {
      LearntOnOnePort(w, Files(None, None), host, port, blob, host', port', blob');
      NothingKnown(w, HostSpec(host', port'), blob');
    }
  }

  lemma NothingKnown(w: World, target: string, blob: Blob)
    ensures StatusOf(w, target, blob, Entries(Files(None, None))) == Unknown
  {
  }
}
