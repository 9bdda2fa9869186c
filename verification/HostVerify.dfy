/** Saying yes or no to the key a server offers: the files, the policy and the user together. */
module HostVerify {
  import opened KnownHosts
  import opened Lists
  import opened TextLines
  import opened Wrappers

  datatype Policy = Ask | AcceptNew | Strict

  /** What a prompt can come back with; nothing at all counts as `Reject`. */
  datatype Decision = Trust | Replace | Once | Reject

  datatype Failure =
    | KeyRevoked
    | KeyChanged(stored: StoredKey, otherType: bool)
    | CouldNotUpdate
    | CouldNotWrite
    | NotKnown
    | NobodyToAsk
    | Rejected

  datatype Verdict = Verdict(accepted: bool, outcome: Option<Failure>, own: Option<string>)

  /** What a connection is told, what it records as the reason, and what is written down. */
  function VerdictOf(w: World, policy: Policy, interactive: bool, answer: Decision, target: string, blob: Blob,
      f: Files, outcome: Option<Failure>): Verdict
  {
    match StatusOf(w, target, blob, Entries(f))
    case Match(Bifrossh) => Verdict(true, outcome, f.own)
    case Match(OpenSsh) => Verdict(true, outcome, Learnt(w, target, blob, f.own))
    case Revoked => Verdict(false, Some(KeyRevoked), f.own)
    case Unknown =>
      if policy == Strict then Verdict(false, Some(NotKnown), f.own)
      else if policy == Ask && !interactive then Verdict(false, Some(NobodyToAsk), f.own)
      else if policy == Ask && answer == Once then Verdict(true, outcome, f.own)
      else if policy == AcceptNew || answer == Trust then
        if AlgoFromBlob(blob).None? then Verdict(false, Some(CouldNotWrite), f.own)
        else Verdict(true, outcome, Learnt(w, target, blob, f.own))
      else Verdict(false, Some(Rejected), f.own)
    case changed =>
      if policy != Ask || !interactive || answer != Replace then
        Verdict(false, Some(KeyChanged(changed.stored, changed.OtherType?)), f.own)
      else if AlgoFromBlob(blob).None? then
        Verdict(false, Some(CouldNotUpdate), Replaced(w, target, blob, f.own))
      else Verdict(true, None, Replaced(w, target, blob, f.own))
  }

  lemma Unlearnable(w: World, target: string, blob: Blob, own: Option<string>)
    requires AlgoFromBlob(blob).None?
    ensures Learnt(w, target, blob, own) == own
  {
    hide AlgoFromBlob;
  }

  class Verifier {
    const policy: Policy
    const interactive: bool
    const host: string
    const port: nat
    var outcome: Option<Failure>

    constructor (policy: Policy, interactive: bool, host: string, port: nat)
      ensures this.policy == policy && this.interactive == interactive && this.host == host && this.port == port
      ensures outcome == None
    {
      this.policy, this.interactive, this.host, this.port := policy, interactive, host, port;
      outcome := None;
    }

    /** `verify`: the reason is set before the user is asked and cleared when the answer undoes it. */
    method Verify(k: Keeper, blob: Blob, reply: Option<Decision>) returns (accepted: bool)
      modifies this`outcome, k`own
      ensures var answer := if reply.Some? then reply.value else Reject;
              VerdictOf(k.world, policy, interactive, answer, HostSpec(host, port), blob, old(k.View()), old(outcome))
              == Verdict(accepted, outcome, k.own)
    {
      hide StatusOf, Entries, Learnt, Removed, AlgoFromBlob, HostSpec;
      if AlgoFromBlob(blob).None? {
        Unlearnable(k.world, HostSpec(host, port), blob, k.own);
      }
      var status := k.CheckHost(host, port, blob);
      match status
      case Match(source) =>
        return true;
      case Revoked =>
        outcome := Some(KeyRevoked);
        return false;
      case Mismatch(stored) =>
        accepted := Changed(k, blob, stored, false, reply);
      case OtherType(stored) =>
        accepted := Changed(k, blob, stored, true, reply);
      case Unknown =>
        match policy
        case AcceptNew =>
          var ok := k.LearnHost(host, port, blob);
          if !ok {
            outcome := Some(CouldNotWrite);
          }
          return ok;
        case Strict =>
          outcome := Some(NotKnown);
          return false;
        case Ask =>
          if !interactive {
            outcome := Some(NobodyToAsk);
            return false;
          }
          match if reply.Some? then reply.value else Reject
          case Trust =>
            var ok := k.LearnHost(host, port, blob);
            if !ok {
              outcome := Some(CouldNotWrite);
            }
            return ok;
          case Once =>
            return true;
          case _ =>
            outcome := Some(Rejected);
            return false;
    }

    /** The arm of `verify` for a host known by another key. */
    method Changed(k: Keeper, blob: Blob, stored: StoredKey, otherType: bool, reply: Option<Decision>)
      returns (accepted: bool)
      modifies this`outcome, k`own
      ensures var replace := policy == Ask && interactive && reply == Some(Replace);
              && accepted == (replace && AlgoFromBlob(blob).Some?)
              && k.own == (if replace then Replaced(k.world, HostSpec(host, port), blob, old(k.own)) else old(k.own))
              && outcome == if accepted then None
                            else if replace then Some(CouldNotUpdate)
                            else Some(KeyChanged(stored, otherType))
    {
      hide Learnt, Removed, AlgoFromBlob, HostSpec;
      outcome := Some(KeyChanged(stored, otherType));
      if policy != Ask || !interactive {
        return false;
      }
      var decision := if reply.Some? then reply.value else Reject;
      if decision != Replace {
        return false;
      }
      var ok := k.ReplaceHost(host, port, blob);
      if !ok {
        outcome := Some(CouldNotUpdate);
        return false;
      }
      outcome := None;
      return true;
    }
  }

  // ---- What a refusal leaves, and what an acceptance leaves -------------------------------------------

  lemma BodyIsShort(kept: seq<string>)
    requires NoNewlines(kept)
    ensures |Lines(Body(kept))| <= |kept|
  {
    hide Lines, Pieces;
    LinesArePieces(Body(kept));
    if Join(kept) == "" {
      assert Pieces("") == [] by { NoPieces(); }
    } else {
      JoinIsUnlines(kept);
      PiecesOfUnlines(kept);
    }
  }

  lemma NoPieces()
    ensures Pieces("") == []
  {
  }

  /** Removing changes the file exactly when some line goes. */
  lemma RemovedIsNoticed(w: World, target: string, algo: Option<string>, own: Option<string>)
    ensures Removed(w, target, algo, own) != own <==> Gone(w, target, algo, own) > 0
  {
    hide Lines, FilterMap, KeepRaw, Body;
    if own.Some? {
      var lines := Lines(own.value);
      LinesHaveNoNewlines(own.value);
      KeptHaveNoNewlines(w, target, algo, lines);
      if Gone(w, target, algo, own) > 0 {
        BodyIsShort(KeptOf(w, target, algo, lines));
      }
    }
  }

  /** Our file has an unmarked line of this host. */
  predicate HasUnmarked(w: World, target: string, own: Option<string>) {
    exists l | l in FileLines(own) :: l.marker.None? && HostMatches(w, l.hosts, target)
  }

  lemma UnmarkedGo(w: World, target: string, own: Option<string>)
    ensures Gone(w, target, None, own) > 0 <==> HasUnmarked(w, target, own)
  {
    hide Lines, FilterMap, SplitLine, Trim, HostMatches, HeldFor;
    if own.Some? {
      var lines, keep := Lines(own.value), KeepRaw(w, target, None);
      FilterMapLength(lines, keep);
      FilterMapFrom(lines, SplitLine);
      forall i | 0 <= i < |lines|
        ensures keep(lines[i]).None? ==> SplitLine(lines[i]).Some? && SplitLine(lines[i]).value in FileLines(own)
        ensures keep(lines[i]).None? <==> SplitLine(lines[i]).Some? && Goes(w, target, None, SplitLine(lines[i]).value)
      {
        TrimmedReads(lines[i]);
        if keep(lines[i]).None? {
          FilterMapIn(lines, SplitLine, i);
        }
      }
    }
  }

  /** A refused key that names its type leaves the files as they were, and every refusal has a reason. */
  lemma RefusalLeavesFiles(w: World, policy: Policy, interactive: bool, answer: Decision, target: string, blob: Blob,
      f: Files, outcome: Option<Failure>)
    ensures var v := VerdictOf(w, policy, interactive, answer, target, blob, f, outcome);
            !v.accepted ==> v.outcome.Some? && (AlgoFromBlob(blob).Some? ==> v.own == f.own)
  {
    hide StatusOf, Entries, Learnt, Removed, AlgoFromBlob;
  }

  /** For a key of any kind a refusal changes our file exactly when the user chose to put one that names no
      type in the place of others, and there are some: those are gone and it is not written down. */
  lemma NamelessRefusal(w: World, policy: Policy, interactive: bool, answer: Decision, target: string, blob: Blob,
      f: Files, outcome: Option<Failure>)
    ensures var v := VerdictOf(w, policy, interactive, answer, target, blob, f, outcome);
            var s := StatusOf(w, target, blob, Entries(f));
            !v.accepted ==>
              (v.own != f.own <==>
                && (s.Mismatch? || s.OtherType?) && policy == Ask && interactive && answer == Replace
                && AlgoFromBlob(blob).None? && HasUnmarked(w, target, f.own))
  {
    hide StatusOf, Entries, Learnt, Removed, Gone, AlgoFromBlob, HasUnmarked;
    if AlgoFromBlob(blob).None? {
      RemovedIsNoticed(w, target, None, f.own);
      UnmarkedGo(w, target, f.own);
      Unlearnable(w, target, blob, Removed(w, target, None, f.own));
      Unlearnable(w, target, blob, f.own);
    }
  }

  /** Who is let in: a key on file, a new host under accept-new or by the user's word, and a host whose
      key changed only when the user, asked, said to replace it. A revoked key never. */
  lemma AcceptedOnlyIf(w: World, policy: Policy, interactive: bool, answer: Decision, target: string, blob: Blob,
      f: Files, outcome: Option<Failure>)
    ensures var v := VerdictOf(w, policy, interactive, answer, target, blob, f, outcome);
            var s := StatusOf(w, target, blob, Entries(f));
            var asked := policy == Ask && interactive;
            v.accepted <==>
              || s.Match?
              || (s.Unknown? && asked && answer == Once)
              || (s.Unknown? && (policy == AcceptNew || (asked && answer == Trust)) && AlgoFromBlob(blob).Some?)
              || ((s.Mismatch? || s.OtherType?) && asked && answer == Replace && AlgoFromBlob(blob).Some?)
  {
    hide StatusOf, Entries, Learnt, Removed, AlgoFromBlob;
  }

  /** The reason a connection ends with, for each there is: exactly when it is given. An acceptance gives
      none, and takes back one there was only when a key was replaced. */
  lemma ReasonsAre(w: World, policy: Policy, interactive: bool, answer: Decision, target: string, blob: Blob,
      f: Files, outcome: Option<Failure>)
    ensures var v := VerdictOf(w, policy, interactive, answer, target, blob, f, outcome);
      var s := StatusOf(w, target, blob, Entries(f));
      var asked, named := policy == Ask && interactive, AlgoFromBlob(blob).Some?;
      if v.accepted then v.outcome == if s.Match? || s.Unknown? then outcome else None
      else
        var why := v.outcome;
        && (why == Some(KeyRevoked) <==> s.Revoked?)
        && (forall k, other :: why == Some(KeyChanged(k, other)) <==>
              s == (if other then OtherType(k) else Mismatch(k)) && !(asked && answer == Replace))
        && (why == Some(CouldNotUpdate) <==> (s.Mismatch? || s.OtherType?) && asked && answer == Replace && !named)
        && (why == Some(NotKnown) <==> s.Unknown? && policy == Strict)
        && (why == Some(NobodyToAsk) <==> s.Unknown? && policy == Ask && !interactive)
        && (why == Some(CouldNotWrite) <==> s.Unknown? && (policy == AcceptNew || (asked && answer == Trust)) && !named)
        && (why == Some(Rejected) <==> s.Unknown? && asked && answer in {Reject, Replace})
  {
    hide StatusOf, Entries, Learnt, Removed, AlgoFromBlob;
  }

  /** Accepting for one session only writes nothing; any other acceptance of a key our own file does not
      match is found there by the next look, if and only if the line written says what it should. */
  lemma AcceptanceIsRemembered(w: World, policy: Policy, interactive: bool, answer: Decision, target: string,
      blob: Blob, f: Files, outcome: Option<Failure>)
    requires Lawful(w)
    ensures var v := VerdictOf(w, policy, interactive, answer, target, blob, f, outcome);
            var s := StatusOf(w, target, blob, Entries(f));
            v.accepted ==>
              if s == Match(Bifrossh) || (s.Unknown? && policy == Ask && answer == Once) then v.own == f.own
              else
                var next := StatusOf(w, target, blob, Entries(Files(v.own, f.openssh)));
                (next == Match(Bifrossh)) == Serves(w, target, blob)
  {
    hide StatusOf, Entries, Learnt, Removed, AlgoFromBlob, Serves, Written, FileLines, Decides, First;
    VerdictIs(w, target, blob, f);
    LearntIsFound(w, target, blob, f);
    ReplacedIsFound(w, target, blob, f);
  }

  /** So for a plain host and an ordinary key, whoever is told yes and not just once is let in next time
      without a question, under any policy. */
  lemma AcceptedIsKnownNextTime(w: World, policy: Policy, interactive: bool, answer: Decision, target: string,
      blob: Blob, f: Files, outcome: Option<Failure>, policy': Policy, interactive': bool, answer': Decision)
    requires Lawful(w) && PlainHost(target) && AlgoFromBlob(blob).Some? && IsWord(AlgoFromBlob(blob).value)
    ensures var v := VerdictOf(w, policy, interactive, answer, target, blob, f, outcome);
            v.accepted && !(StatusOf(w, target, blob, Entries(f)).Unknown? && policy == Ask && answer == Once) ==>
              var now := Files(v.own, f.openssh);
              var next := VerdictOf(w, policy', interactive', answer', target, blob, now, v.outcome);
              next == Verdict(true, v.outcome, v.own)
  {
    hide StatusOf, Entries, Learnt, Removed, AlgoFromBlob, Serves, Written, FileLines, Decides, First,
      PlainHost, IsWord;
    PlainServes(w, target, blob);
    VerdictIs(w, target, blob, f);
    LearntIsFound(w, target, blob, f);
    AcceptanceIsRemembered(w, policy, interactive, answer, target, blob, f, outcome);
  }
}
