/** Saving the vault beside its backup, and getting it back, with a stop allowed anywhere.

    A directory is its files; a file is its bytes. Creating empties a file, writing grows it a byte
    at a time, copying is creating and writing, renaming is one step. */
module Store {
  import opened Bytes
  import opened Wrappers

  datatype Name = Data | Backup | Temp | Corrupt

  type Files = map<Name, seq<byte>>

  /** A document as the app holds it, and the reading of a file back into one under the key. */
  datatype Document = Document(json: string)
  type Reader = seq<byte> -> Option<Document>

  /** Bytes that read as a document and that no part written so far does. */
  ghost predicate IsEnvelope(read: Reader, content: seq<byte>) {
    && read(content).Some?
    && forall n | 0 <= n < |content| :: read(content[..n]) == None
  }

  // ---- A directory and every way it has looked -------------------------------------------------

  class Directory {
    var files: Files
    /** Each state a stop could have left since this began to be kept. */
    ghost var seen: seq<Files>

    constructor (files: Files)
      ensures this.files == files && seen == [files]
    {
      this.files := files;
      seen := [files];
    }

    method Set(name: Name, bytes: seq<byte>)
      modifies this
      ensures files == old(files)[name := bytes] && seen == old(seen) + [files]
    {
      files := files[name := bytes];
      seen := seen + [files];
    }

    method Rename(from: Name, to: Name)
      requires from in files && from != to
      modifies this
      ensures files == old(files)[to := old(files)[from]] - {from} && seen == old(seen) + [files]
    {
      files := files[to := files[from]] - {from};
      seen := seen + [files];
    }

    /** Created empty, then written: `limit` bytes of it when the disk gives out there. */
    method Write(name: Name, bytes: seq<byte>, limit: nat)
      requires limit <= |bytes|
      modifies this
      ensures files == old(files)[name := bytes[..limit]]
      ensures |old(seen)| <= |seen| && seen[..|old(seen)|] == old(seen)
      ensures forall i | |old(seen)| <= i < |seen| :: PartWay(old(files), name, bytes, seen[i])
    {
      Set(name, []);
      assert bytes[..0] == [];
      var n := 0;
      while n < limit
        invariant n <= limit && files == old(files)[name := bytes[..n]]
        invariant |old(seen)| <= |seen| && seen[..|old(seen)|] == old(seen)
        invariant forall i | |old(seen)| <= i < |seen| :: PartWay(old(files), name, bytes, seen[i])
      {
        assert bytes[..n] + [bytes[n]] == bytes[..n + 1];
        Set(name, files[name] + [bytes[n]]);
        n := n + 1;
      }
    }
  }

  ghost predicate PartWay(before: Files, name: Name, bytes: seq<byte>, after: Files) {
    exists n | 0 <= n <= |bytes| :: after == before[name := bytes[..n]]
  }

  // ---- Saving -------------------------------------------------------------------------------------

  function Backed(before: Files, kept: seq<byte>): Files {
    if Data in before then before[Backup := kept] else before
  }

  /** Where a save of `content` may stop: some of the new file written beside the old one; then some
      of the old one copied; then the new one in place. */
  ghost predicate SaveStop(before: Files, content: seq<byte>, after: Files) {
    || after == before
    || PartWay(before, Temp, content, after)
    || (Data in before && PartWay(before[Temp := content], Backup, before[Data], after))
    || exists kept: seq<byte> :: (Data in before ==> kept <= before[Data])
         && after == Backed(before, kept)[Data := content] - {Temp}
  }

  /** `save_app_data_in`, with the copy to the backup cut short after `copied` bytes when it fails,
      which is not a reason to stop. */
  method SaveAppData(dir: Directory, content: seq<byte>, copied: nat)
    requires Data in dir.files ==> copied <= |dir.files[Data]|
    modifies dir
    ensures |old(dir.seen)| <= |dir.seen| && dir.seen[..|old(dir.seen)|] == old(dir.seen)
    ensures forall i | |old(dir.seen)| <= i < |dir.seen| :: SaveStop(old(dir.files), content, dir.seen[i])
    ensures dir.files == Saved(old(dir.files), content, copied)
  {
    ghost var before := dir.files;
    dir.Write(Temp, content, |content|);
    assert content[..|content|] == content;
    if Data in dir.files {
      dir.Write(Backup, dir.files[Data], copied);
    }
    assert dir.files[Data := content] - {Temp} == Saved(before, content, copied);
    dir.Rename(Temp, Data);
    assert dir.files == Saved(before, content, copied);
    assert SaveStop(before, content, dir.files) by {
      var kept := if Data in before then before[Data][..copied] else [];
      assert dir.files == Backed(before, kept)[Data := content] - {Temp};
    }
  }

  /** Where a save ends. */
  function Saved(before: Files, content: seq<byte>, copied: nat): Files
    requires Data in before ==> copied <= |before[Data]|
  {
    Backed(before, if Data in before then before[Data][..copied] else [])[Data := content] - {Temp}
  }

  // ---- Loading ------------------------------------------------------------------------------------

  datatype Loaded =
    | FirstRun
    | Read(document: Document)
    | Recovered(document: Document)
    | Unreadable

  /** What a load says of a directory. */
  function Load(read: Reader, files: Files): Loaded {
    if Data !in files then FirstRun
    else if read(files[Data]).Some? then Read(read(files[Data]).value)
    else if Backup !in files || read(files[Backup]).None? then Unreadable
    else Recovered(read(files[Backup]).value)
  }

  /** How the two steps of putting a recovered file back went: the damaged file renamed or not, and
      the copy not begun, or begun and stopped after some bytes, which may be all of them. */
  datatype Restore = Restore(renamed: bool, copied: Option<nat>)

  predicate Possible(r: Restore, files: Files) {
    r.copied.Some? ==> Backup in files && r.copied.value <= |files[Backup]|
  }

  predicate Completes(r: Restore, files: Files) {
    Backup in files && r.copied == Some(|files[Backup]|)
  }

  function SetAside(files: Files): Files
    requires Data in files
  {
    files[Corrupt := files[Data]] - {Data}
  }

  function Restored(files: Files, r: Restore): Files
    requires Data in files && Possible(r, files)
  {
    var aside := if r.renamed then SetAside(files) else files;
    if r.copied.None? then aside else aside[Data := files[Backup][..r.copied.value]]
  }

  ghost predicate RecoverStop(before: Files, after: Files)
    requires Data in before
  {
    || after == before
    || after == SetAside(before)
    || (Backup in before && (PartWay(before, Data, before[Backup], after)
                             || PartWay(SetAside(before), Data, before[Backup], after)))
  }

  /** `load_app_data_in`. */
  method LoadAppData(dir: Directory, read: Reader, r: Restore) returns (loaded: Loaded)
    requires Possible(r, dir.files)
    modifies dir
    ensures loaded == Load(read, old(dir.files))
    ensures |old(dir.seen)| <= |dir.seen| && dir.seen[..|old(dir.seen)|] == old(dir.seen)
    ensures !loaded.Recovered? ==> dir.files == old(dir.files) && dir.seen == old(dir.seen)
    ensures loaded.Recovered? ==> dir.files == Restored(old(dir.files), r)
    ensures loaded.Recovered? ==> forall i | |old(dir.seen)| <= i < |dir.seen| ::
      RecoverStop(old(dir.files), dir.seen[i])
  {
    if Data !in dir.files {
      return FirstRun;
    }
    var data := read(dir.files[Data]);
    if data.Some? {
      return Read(data.value);
    }
    if Backup !in dir.files {
      return Unreadable;
    }
    var recovered := read(dir.files[Backup]);
    if recovered.None? {
      return Unreadable;
    }
    if r.renamed {
      dir.Rename(Data, Corrupt);
    }
    if r.copied.Some? {
      dir.Write(Data, dir.files[Backup], r.copied.value);
    }
    return Recovered(recovered.value);
  }

  // ---- One save, one recovery ------------------------------------------------------------------------

  /** Wherever a save stops, `data.json` is what it was, whole, or the new version, whole. */
  lemma SaveIsAtomic(before: Files, content: seq<byte>, after: Files)
    requires SaveStop(before, content, after)
    ensures || (Data in after && after[Data] == content)
            || (Data in before && Data in after && after[Data] == before[Data])
            || (Data !in before && Data !in after)
  {
  }

  /** What the next launch makes of it: the old document or the new one. */
  lemma LoadAfterSaveStop(read: Reader, before: Files, content: seq<byte>, after: Files)
    requires SaveStop(before, content, after) && read(content).Some?
    requires Data in before ==> read(before[Data]).Some?
    ensures Load(read, after) in {Load(read, before), Read(read(content).value)}
  {
    SaveIsAtomic(before, content, after);
  }

  /** What a launch finds, whatever is there: a first run exactly when there is no `data.json`; what that
      reads as when it does read, else what the backup reads as; and nothing exactly when neither reads. */
  lemma LoadExactly(read: Reader, files: Files)
    ensures Load(read, files) == FirstRun <==> Data !in files
    ensures forall document ::
      Load(read, files) == Read(document) <==> Data in files && read(files[Data]) == Some(document)
    ensures forall document :: Load(read, files) == Recovered(document) <==>
      (Data in files && read(files[Data]) == None && Backup in files && read(files[Backup]) == Some(document))
    ensures Load(read, files) == Unreadable
      <==> Data in files && read(files[Data]) == None && (Backup in files ==> read(files[Backup]) == None)
  {
  }

  /** A recovery stopped anywhere is a recovery again, or done, at the next launch; except between
      the rename and the copy, when there is no `data.json` and that is taken for a first run. */
  lemma LoadAfterRecoverStop(read: Reader, before: Files, after: Files)
    requires Load(read, before).Recovered? && RecoverStop(before, after) && IsEnvelope(read, before[Backup])
    ensures Backup in after && after[Backup] == before[Backup]
    ensures Load(read, after) == FirstRun <==> after == SetAside(before)
    ensures Load(read, after) != FirstRun ==>
      Load(read, after) in {Load(read, before), Read(Load(read, before).document)}
  {
    if after != before && after != SetAside(before) {
      var n :| 0 <= n <= |before[Backup]| && Data in after && after[Data] == before[Backup][..n];
      assert before[Backup][..|before[Backup]|] == before[Backup];
    }
  }

  /** What is saved is what the next launch reads, and what was in place is the backup when its copy was
      not cut short; nothing else is touched. */
  lemma SavedIsRead(read: Reader, before: Files, content: seq<byte>, copied: nat)
    requires read(content).Some? && (Data in before ==> copied <= |before[Data]|)
    ensures var after := Saved(before, content, copied);
      && Load(read, after) == Read(read(content).value) && Temp !in after
      && (Data in before && copied == |before[Data]| ==> Backup in after && after[Backup] == before[Data])
      && (Data !in before ==> (Backup in after <==> Backup in before))
      && (Data !in before && Backup in before ==> after[Backup] == before[Backup])
      && (Corrupt in after <==> Corrupt in before) && (Corrupt in before ==> after[Corrupt] == before[Corrupt])
  {
    assert Data in before ==> before[Data][..|before[Data]|] == before[Data];
  }

  /** A copy of the backup may stop after any of its bytes, the last one included. */
  lemma CopiesMayStop(files: Files, copied: nat)
    requires Backup in files
    ensures Possible(Restore(true, Some(copied)), files) <==> copied <= |files[Backup]|
    ensures exists r :: Possible(r, files) && Completes(r, files)
  {
    assert Completes(Restore(true, Some(|files[Backup]|)), files);
  }

  /** A recovery keeps the damaged file under another name, when it could be renamed, and the backup. */
  lemma DamagedIsKept(before: Files, r: Restore)
    requires Data in before && Possible(r, before)
    ensures var after := Restored(before, r);
      && (r.renamed ==> Corrupt in after && after[Corrupt] == before[Data])
      && (!r.renamed && r.copied == None ==> after == before)
      && (Backup in before ==> Backup in after && after[Backup] == before[Backup])
      && (Completes(r, before) ==> Data in after && after[Data] == before[Backup])
  {
    assert Backup in before ==> before[Backup][..|before[Backup]|] == before[Backup];
  }

  /** The save after a completed recovery leaves the recovered version as the backup. */
  lemma SaveAfterRecovery(read: Reader, before: Files, r: Restore, content: seq<byte>)
    requires Load(read, before).Recovered? && Possible(r, before) && Completes(r, before)
    ensures var files := Restored(before, r);
      && Load(read, files) == Read(Load(read, before).document)
      && Saved(files, content, |files[Data]|)[Backup] == before[Backup]
      && Saved(files, content, |files[Data]|)[Data] == content
  {
    assert before[Backup][..|before[Backup]|] == before[Backup];
    var files := Restored(before, r);
    assert files[Data][..|files[Data]|] == files[Data];
  }

  // ---- Runs ---------------------------------------------------------------------------------------------

  /** The files, whether the app is running, and every version a save has put in place. */
  datatype System = System(files: Files, open: bool, committed: set<seq<byte>>)

  datatype Step =
    | Save(content: seq<byte>, copied: nat)
    | SaveStops(content: seq<byte>, after: Files)
    | Launch(restore: Restore)
    | LaunchStops(after: Files)
    | Quit
    /** Any file, come to hold anything. */
    | Damage(name: Name, bytes: seq<byte>)

  ghost predicate Enabled(read: Reader, s: System, step: Step) {
    match step
    case Save(content, copied) => s.open && IsEnvelope(read, content) && (Data in s.files ==> copied <= |s.files[Data]|)
    case SaveStops(content, after) => s.open && IsEnvelope(read, content) && SaveStop(s.files, content, after)
    case Launch(r) => !s.open && (Load(read, s.files).Recovered? ==> Possible(r, s.files))
    case LaunchStops(after) => !s.open && Load(read, s.files).Recovered? && RecoverStop(s.files, after)
    case Quit => s.open
    case Damage(name, _) => name in s.files
  }

  function Next(read: Reader, s: System, step: Step): System
    requires Enabled(read, s, step)
  {
    match step
    case Save(content, copied) => System(Saved(s.files, content, copied), true, s.committed + {content})
    case SaveStops(content, after) =>
      System(after, false, if Data in after && after[Data] == content then s.committed + {content} else s.committed)
    case Launch(r) =>
      var loaded := Load(read, s.files);
      s.(open := loaded != Unreadable, files := if loaded.Recovered? then Restored(s.files, r) else s.files)
    case LaunchStops(after) => s.(files := after)
    case Quit => s.(open := false)
    case Damage(name, bytes) => s.(files := s.files[name := bytes])
  }

  predicate Whole(s: System, name: Name) {
    name in s.files && s.files[name] in s.committed
  }

  /** Once anything was ever saved, a whole version of it is on the disk. */
  predicate Safe(s: System) {
    s.committed != {} ==> Whole(s, Data) || Whole(s, Backup)
  }

  /** The copy that puts a recovered file back ran to its end, or never began on a name the damaged
      file had left. */
  predicate NotCutShort(r: Restore, files: Files) {
    Completes(r, files) || (r.renamed && r.copied == None)
  }

  /** No copy of a recovery cut short, and only the damage the backup is for: to the file in place, so
      that it no longer reads, with a good backup beside it. */
  predicate Mild(read: Reader, s: System, step: Step) {
    && (step.Launch? && Load(read, s.files).Recovered? ==> NotCutShort(step.restore, s.files))
    && (step.Damage? ==> !s.open && step.name == Data && read(step.bytes) == None && Whole(s, Backup))
  }

  ghost predicate Inv(read: Reader, s: System) {
    && (forall c | c in s.committed :: IsEnvelope(read, c))
    && (s.committed == {} ==> Data !in s.files)
    && (s.committed != {} ==>
          || Whole(s, Data)
          || (Whole(s, Backup) && Data !in s.files)
          || (!s.open && Whole(s, Backup) && read(s.files[Data]) == None))
  }

  lemma SaveKeepsInv(read: Reader, s: System, step: Step)
    requires Inv(read, s) && Enabled(read, s, step) && (step.Save? || step.SaveStops?)
    ensures Inv(read, Next(read, s, step))
  {
    var t := Next(read, s, step);
    if step.SaveStops? {
      SaveIsAtomic(s.files, step.content, step.after);
      if Data !in s.files && Data !in step.after {
        assert Backup in s.files ==> Backup in step.after && step.after[Backup] == s.files[Backup];
      }
    }
  }

  lemma LaunchKeepsInv(read: Reader, s: System, step: Step)
    requires Inv(read, s) && Enabled(read, s, step) && (step.Launch? || step.LaunchStops?)
    requires Mild(read, s, step)
    ensures Inv(read, Next(read, s, step))
    ensures step.Launch? ==> Next(read, s, step).open
  {
    var loaded := Load(read, s.files);
    if loaded.Recovered? {
      var backup := s.files[Backup];
      assert backup[..|backup|] == backup;
      if step.LaunchStops? && step.after != s.files && step.after != SetAside(s.files) {
        var n :| 0 <= n <= |backup| && Data in step.after && step.after[Data] == backup[..n];
      }
    }
  }

  lemma StepKeepsInv(read: Reader, s: System, step: Step)
    requires Inv(read, s) && Enabled(read, s, step) && Mild(read, s, step)
    ensures Inv(read, Next(read, s, step))
  {
    match step
    case Save(_, _) => SaveKeepsInv(read, s, step);
    case SaveStops(_, _) => SaveKeepsInv(read, s, step);
    case Launch(_) => LaunchKeepsInv(read, s, step);
    case LaunchStops(_) => LaunchKeepsInv(read, s, step);
    case Quit =>
    case Damage(_, _) =>
  }

  ghost predicate IsRun(read: Reader, states: seq<System>, steps: seq<Step>) {
    && |states| == |steps| + 1 && states[0] == System(map[], false, {})
    && forall i | 0 <= i < |steps| ::
      Enabled(read, states[i], steps[i]) && states[i + 1] == Next(read, states[i], steps[i])
  }

  /** Through any run of saves, stops, damage and recoveries whose copies are not cut short, a whole
      committed version is always on the disk, and every launch opens. */
  lemma {:induction false} AlwaysSafe(read: Reader, states: seq<System>, steps: seq<Step>, n: nat)
    requires IsRun(read, states, steps) && n <= |steps|
    requires forall i | 0 <= i < |steps| :: Mild(read, states[i], steps[i])
    ensures Inv(read, states[n]) && Safe(states[n])
    ensures n > 0 && steps[n - 1].Launch? ==> states[n].open
  {
    if n > 0 {
      AlwaysSafe(read, states, steps, n - 1);
      StepKeepsInv(read, states[n - 1], steps[n - 1]);
      if steps[n - 1].Launch? {
        LaunchKeepsInv(read, states[n - 1], steps[n - 1]);
      }
    }
  }

  // ---- Any damage at all ---------------------------------------------------------------------------------

  /** The document a file reads as, if it is there and does. */
  function Reads(read: Reader, files: Files, name: Name): Option<Document> {
    if name in files then read(files[name]) else None
  }

  /** In any run, whatever happened to the files before: a launch that finds a `data.json` opens exactly
      when that or the backup reads, and with what it reads as, leaving the backup as it was; one that
      does not open changes nothing. */
  lemma OpensWhatReads(read: Reader, states: seq<System>, steps: seq<Step>, i: nat)
    requires IsRun(read, states, steps) && i < |steps| && steps[i].Launch? && Data in states[i].files
    ensures var before, after := states[i], states[i + 1];
      var own, backup := Reads(read, before.files, Data), Reads(read, before.files, Backup);
      && (after.open <==> own.Some? || backup.Some?)
      && (own.Some? ==> Load(read, before.files) == Read(own.value) && after.files == before.files)
      && (own == None && backup.Some? ==> Load(read, before.files) == Recovered(backup.value)
                                          && Backup in after.files && after.files[Backup] == before.files[Backup])
      && (!after.open ==> after == before)
  {
    assert states[i + 1] == Next(read, states[i], steps[i]) && Enabled(read, states[i], steps[i]);
  }

  /** So a directory of which nothing reads stays closed, and as it is, through any number of launches. */
  lemma {:induction false} UnreadableStays(read: Reader, states: seq<System>, steps: seq<Step>, from: nat, n: nat)
    requires IsRun(read, states, steps) && from <= n <= |steps|
    requires !states[from].open && Load(read, states[from].files) == Unreadable
    requires forall i | from <= i < n :: !steps[i].Damage?
    ensures states[n] == states[from]
  {
    if from < n {
      UnreadableStays(read, states, steps, from, n - 1);
      assert states[n - 1 + 1] == Next(read, states[n - 1], steps[n - 1])
        && Enabled(read, states[n - 1], steps[n - 1]);
    }
  }

  // ---- A copy cut short --------------------------------------------------------------------------------

  /** After a recovery the file in place is a version or is not there exactly when the copy was not cut
      short. */
  lemma RestoreExactly(read: Reader, s: System, r: Restore)
    requires Inv(read, s) && !s.open && Load(read, s.files).Recovered? && Possible(r, s.files)
    ensures var files := Restored(s.files, r);
      (Data !in files || files[Data] in s.committed) <==> NotCutShort(r, s.files)
  {
    var backup := s.files[Backup];
    assert backup[..|backup|] == backup;
    assert Whole(s, Backup);
  }

  /** From a running app whose backup is good, every stop of a save leaves a whole version exactly
      when the file in place is one or is not there: otherwise the save copies it over the backup. */
  lemma SaveIsSafeExactly(read: Reader, s: System, content: seq<byte>)
    requires s.open && IsEnvelope(read, content) && Whole(s, Backup)
    ensures (forall after: Files | SaveStop(s.files, content, after) ::
               Safe(Next(read, s, SaveStops(content, after))))
       <==> Data !in s.files || s.files[Data] in s.committed || s.files[Data] == content
  {
    if Data !in s.files || s.files[Data] in s.committed || s.files[Data] == content {
      forall after: Files | SaveStop(s.files, content, after)
        ensures Safe(Next(read, s, SaveStops(content, after)))
      {
        SaveIsAtomic(s.files, content, after);
        if Data !in after {
          assert after[Backup] == s.files[Backup];
        }
      }
    } else {
      var after := s.files[Temp := content][Backup := s.files[Data]];
      assert s.files[Data][..|s.files[Data]|] == s.files[Data];
      assert PartWay(s.files[Temp := content], Backup, s.files[Data], after);
      assert SaveStop(s.files, content, after);
      assert !Safe(Next(read, s, SaveStops(content, after)));
    }
  }

  /** After a launch that recovered, no save of anything, stopped anywhere, can lose the last whole
      version, if and only if the copy of that recovery was not cut short. */
  lemma LaunchIsSafeExactly(read: Reader, s: System, r: Restore)
    requires Inv(read, s) && !s.open && Load(read, s.files).Recovered? && Possible(r, s.files)
    ensures var t := Next(read, s, Launch(r));
      (forall content: seq<byte>, after: Files | Enabled(read, t, SaveStops(content, after)) ::
         Safe(Next(read, t, SaveStops(content, after))))
      <==> NotCutShort(r, s.files)
  {
    var t := Next(read, s, Launch(r));
    RestoreExactly(read, s, r);
    assert Whole(s, Backup) && Whole(t, Backup);
    if NotCutShort(r, s.files) {
      forall content: seq<byte>, after: Files | Enabled(read, t, SaveStops(content, after))
        ensures Safe(Next(read, t, SaveStops(content, after)))
      {
        SaveIsSafeExactly(read, t, content);
      }
    } else {
      var content := s.files[Backup];
      SaveIsSafeExactly(read, t, content);
      var after: Files :| SaveStop(t.files, content, after) && !Safe(Next(read, t, SaveStops(content, after)));
      assert Enabled(read, t, SaveStops(content, after));
    }
  }

  /** A recovery whose copy is cut short, then a save stopped after its own copy: no whole version is
      left under either name, with every step allowed. */
  lemma CutShortThenSaved(read: Reader, s: System, content: seq<byte>) returns (t: System, u: System)
    requires Inv(read, s) && !s.open && Load(read, s.files).Recovered? && IsEnvelope(read, content)
      && content !in s.committed
    requires |s.files[Backup]| > 0 && read([]) == None && content != []
    ensures Enabled(read, s, Launch(Restore(true, Some(0)))) && t == Next(read, s, Launch(Restore(true, Some(0))))
    ensures exists after: Files ::
      Enabled(read, t, SaveStops(content, after)) && u == Next(read, t, SaveStops(content, after))
    ensures t.open && Safe(t) && !Safe(u)
  {
    var r := Restore(true, Some(0));
    t := Next(read, s, Launch(r));
    assert Whole(s, Backup);
    assert t.files[Data] == [];
    var after := t.files[Temp := content][Backup := t.files[Data]];
    assert t.files[Data][..|t.files[Data]|] == t.files[Data];
    assert PartWay(t.files[Temp := content], Backup, t.files[Data], after);
    u := Next(read, t, SaveStops(content, after));
    assert [] !in s.committed;
  }

  lemma OneStepMore(read: Reader, states: seq<System>, steps: seq<Step>, step: Step)
    returns (states': seq<System>, steps': seq<Step>)
    requires IsRun(read, states, steps) && Enabled(read, states[|steps|], step)
    ensures steps' == steps + [step] && states' == states + [Next(read, states[|steps|], step)]
    ensures IsRun(read, states', steps')
  {
    hide Enabled, Next;
    states', steps' := states + [Next(read, states[|steps|], step)], steps + [step];
    forall i | 0 <= i < |steps'|
      ensures Enabled(read, states'[i], steps'[i]) && states'[i + 1] == Next(read, states'[i], steps'[i])
    {
      assert i < |steps| ==> states'[i] == states[i] && states'[i + 1] == states[i + 1] && steps'[i] == steps[i];
    }
  }

  /** Two saves, and the file in place damaged: what a recovery finds. */
  lemma DamagedRun(read: Reader, a: seq<byte>, b: seq<byte>, bytes: seq<byte>)
    returns (states: seq<System>, steps: seq<Step>)
    requires IsEnvelope(read, a) && IsEnvelope(read, b) && read(bytes) == None
    ensures |steps| == 5 && IsRun(read, states, steps)
    ensures states[5] == System(map[Data := bytes, Backup := a], false, {a, b})
    ensures forall i | 0 <= i <= 5 :: Safe(states[i])
  {
    states, steps := [System(map[], false, {})], [];
    states, steps := OneStepMore(read, states, steps, Launch(Restore(false, None)));
    states, steps := OneStepMore(read, states, steps, Save(a, 0));
    assert a[..|a|] == a;
    assert states[2] == System(map[Data := a], true, {a});
    states, steps := OneStepMore(read, states, steps, Save(b, |a|));
    assert states[3] == System(map[Data := b, Backup := a], true, {a, b});
    states, steps := OneStepMore(read, states, steps, Quit);
    states, steps := OneStepMore(read, states, steps, Damage(Data, bytes));
  }

  /** Such a run from the very start: two saves, damage, a copy cut short, and a save stopped. */
  lemma EverythingIsLost(read: Reader, a: seq<byte>, b: seq<byte>, bytes: seq<byte>, content: seq<byte>)
    returns (states: seq<System>, steps: seq<Step>)
    requires IsEnvelope(read, a) && IsEnvelope(read, b) && IsEnvelope(read, content) && content !in {a, b}
    requires read(bytes) == None && read([]) == None
    ensures |steps| == 7 && IsRun(read, states, steps) && !Safe(states[7])
    ensures forall i | 0 <= i < 7 :: Safe(states[i])
  {
    states, steps := DamagedRun(read, a, b, bytes);
    var s := states[5];
    assert a != [] && content != [];
    DamagedIsInv(read, s, a, b, bytes);
    var t, u := CutShortThenSaved(read, s, content);
    states, steps := OneStepMore(read, states, steps, Launch(Restore(true, Some(0))));
    var after: Files :| Enabled(read, t, SaveStops(content, after)) && u == Next(read, t, SaveStops(content, after));
    states, steps := OneStepMore(read, states, steps, SaveStops(content, after));
  }

  lemma DamagedIsInv(read: Reader, s: System, a: seq<byte>, b: seq<byte>, bytes: seq<byte>)
    requires IsEnvelope(read, a) && IsEnvelope(read, b) && read(bytes) == None
    requires s == System(map[Data := bytes, Backup := a], false, {a, b})
    ensures Inv(read, s) && Load(read, s.files).Recovered?
  {
  }

  // ---- Which version it is -----------------------------------------------------------------------------

  /** The version a step put in place or took from the disk. */
  function SeenBy(read: Reader, s: System, step: Step): Option<seq<byte>>
    requires Enabled(read, s, step)
  {
    match step
    case Save(content, _) => Some(content)
    case SaveStops(content, after) => if Data in after && after[Data] == content then Some(content) else None
    case Launch(_) =>
      var loaded := Load(read, s.files);
      if loaded.Read? then Some(s.files[Data]) else if loaded.Recovered? then Some(s.files[Backup]) else None
    case _ => None
  }

  /** The versions saved or read, in order, one seen again left out. */
  function Onward(trail: seq<seq<byte>>, seen: Option<seq<byte>>): seq<seq<byte>> {
    if seen.None? || (trail != [] && trail[|trail| - 1] == seen.value) then trail else trail + [seen.value]
  }

  function Trail(read: Reader, states: seq<System>, steps: seq<Step>, n: nat): seq<seq<byte>>
    requires IsRun(read, states, steps) && n <= |steps|
  {
    if n == 0 then [] else Onward(Trail(read, states, steps, n - 1), SeenBy(read, states[n - 1], steps[n - 1]))
  }

  predicate IsLast(trail: seq<seq<byte>>, version: seq<byte>) {
    trail != [] && trail[|trail| - 1] == version
  }

  predicate AmongLastTwo(trail: seq<seq<byte>>, version: seq<byte>) {
    IsLast(trail, version) || (|trail| > 1 && trail[|trail| - 2] == version)
  }

  predicate Holds(s: System, name: Name, trail: seq<seq<byte>>) {
    Whole(s, name) && AmongLastTwo(trail, s.files[name])
  }

  /** The version last saved or read, or the one before it, is on the disk. */
  predicate Recent(s: System, trail: seq<seq<byte>>) {
    s.committed != {} ==> Holds(s, Data, trail) || Holds(s, Backup, trail)
  }

  /** A launch that finds a backup and no `data.json`, which is taken for a first run. */
  predicate PassesOver(s: System, step: Step) {
    step.Launch? && Data !in s.files && Backup in s.files
  }

  /** A running app's file in place is the last version; without one the backup is. A file in place
      that is not the last is the backup put back. */
  predicate InOrder(s: System, trail: seq<seq<byte>>) {
    && (s.committed == {} ==> Backup !in s.files)
    && (Whole(s, Data) && s.open ==> IsLast(trail, s.files[Data]))
    && (Whole(s, Data) && !IsLast(trail, s.files[Data]) && Whole(s, Backup) ==> s.files[Backup] == s.files[Data])
    && (Whole(s, Data) ==> AmongLastTwo(trail, s.files[Data]))
    && (Whole(s, Backup) ==> AmongLastTwo(trail, s.files[Backup]))
    && (s.committed != {} && s.open && Data !in s.files ==> Whole(s, Backup) && IsLast(trail, s.files[Backup]))
  }

  lemma SaveKeepsOrder(read: Reader, s: System, step: Step, trail: seq<seq<byte>>)
    requires Inv(read, s) && InOrder(s, trail) && Enabled(read, s, step) && (step.Save? || step.SaveStops?)
    ensures InOrder(Next(read, s, step), Onward(trail, SeenBy(read, s, step)))
  {
    if step.Save? {
      if Data in s.files {
        PartOfVersion(read, s.files[Data], step.copied);
      }
    } else {
      SaveIsAtomic(s.files, step.content, step.after);
      BackupAfterStop(read, s.files, step.content, step.after);
    }
  }

  lemma PartOfVersion(read: Reader, version: seq<byte>, n: nat)
    requires IsEnvelope(read, version) && n <= |version|
    ensures version[..n] == version || read(version[..n]) == None
  {
    if n == |version| {
      assert version[..n] == version;
    }
  }

  /** The backup after a save stopped is the one that was there, or as much of the file in place as was
      copied. */
  lemma BackupAfterStop(read: Reader, before: Files, content: seq<byte>, after: Files)
    requires SaveStop(before, content, after) && (Data in before ==> IsEnvelope(read, before[Data]))
    ensures Data !in before ==> (Backup in after <==> Backup in before)
    ensures Backup in after ==>
      || (Backup in before && after[Backup] == before[Backup])
      || (Data in before && (after[Backup] == before[Data] || read(after[Backup]) == None))
    ensures Data in before && (Data !in after || after[Data] != before[Data]) && Backup in after ==>
      after[Backup] == before[Data] || read(after[Backup]) == None
  {
    if Data in before {
      forall n | 0 <= n <= |before[Data]| ensures before[Data][..n] == before[Data] || read(before[Data][..n]) == None {
        PartOfVersion(read, before[Data], n);
      }
      if exists kept: seq<byte> :: kept <= before[Data] && after == Backed(before, kept)[Data := content] - {Temp} {
        var kept: seq<byte> :| kept <= before[Data] && after == Backed(before, kept)[Data := content] - {Temp};
        assert kept == before[Data][..|kept|];
      }
    }
  }

  lemma LaunchKeepsOrder(read: Reader, s: System, step: Step, trail: seq<seq<byte>>)
    requires Inv(read, s) && InOrder(s, trail) && Enabled(read, s, step) && (step.Launch? || step.LaunchStops?)
    requires Mild(read, s, step) && !PassesOver(s, step)
    ensures InOrder(Next(read, s, step), Onward(trail, SeenBy(read, s, step)))
  {
    if Load(read, s.files).Recovered? {
      var backup := s.files[Backup];
      assert backup[..|backup|] == backup;
      if step.LaunchStops? && step.after != s.files && step.after != SetAside(s.files) {
        var n :| 0 <= n <= |backup| && Data in step.after && step.after[Data] == backup[..n];
      }
    }
  }

  lemma StepKeepsOrder(read: Reader, s: System, step: Step, trail: seq<seq<byte>>)
    requires Inv(read, s) && InOrder(s, trail) && Enabled(read, s, step)
    requires Mild(read, s, step) && !PassesOver(s, step)
    ensures InOrder(Next(read, s, step), Onward(trail, SeenBy(read, s, step)))
  {
    match step
    case Save(_, _) => SaveKeepsOrder(read, s, step, trail);
    case SaveStops(_, _) => SaveKeepsOrder(read, s, step, trail);
    case Launch(_) => LaunchKeepsOrder(read, s, step, trail);
    case LaunchStops(_) => LaunchKeepsOrder(read, s, step, trail);
    case Quit =>
    case Damage(_, _) =>
  }

  /** Through any such run in which no launch passes a backup over, the version last saved or read is on
      the disk, or the one before it. */
  lemma {:induction false} AlwaysRecent(read: Reader, states: seq<System>, steps: seq<Step>, n: nat)
    requires IsRun(read, states, steps) && n <= |steps|
    requires forall i | 0 <= i < |steps| :: Mild(read, states[i], steps[i]) && !PassesOver(states[i], steps[i])
    ensures InOrder(states[n], Trail(read, states, steps, n)) && Recent(states[n], Trail(read, states, steps, n))
  {
    hide Enabled, Next, SeenBy, Onward, Mild, PassesOver, AmongLastTwo, IsLast;
    AlwaysSafe(read, states, steps, n);
    if n > 0 {
      AlwaysRecent(read, states, steps, n - 1);
      AlwaysSafe(read, states, steps, n - 1);
      StepKeepsOrder(read, states[n - 1], steps[n - 1], Trail(read, states, steps, n - 1));
    }
  }

  /** Two saves, damage, a recovery stopped between its rename and its copy, and a launch that passes the
      backup over. */
  lemma PassingRun(read: Reader, a: seq<byte>, b: seq<byte>, bytes: seq<byte>)
    returns (states: seq<System>, steps: seq<Step>)
    requires IsEnvelope(read, a) && IsEnvelope(read, b) && read(bytes) == None
    ensures |steps| == 7 && IsRun(read, states, steps) && PassesOver(states[6], steps[6])
    ensures forall i | 0 <= i <= 7 :: Safe(states[i])
    ensures states[7] == System(map[Corrupt := bytes, Backup := a], true, {a, b})
  {
    states, steps := DamagedRun(read, a, b, bytes);
    var s := states[5];
    DamagedIsInv(read, s, a, b, bytes);
    var aside: Files := map[Corrupt := bytes, Backup := a];
    assert aside == SetAside(s.files);
    states, steps := OneStepMore(read, states, steps, LaunchStops(aside));
    states, steps := OneStepMore(read, states, steps, Launch(Restore(false, None)));
  }

  /** After such a launch and two saves: a version is on the disk after every step, and neither of those
      there were is any more. */
  lemma PassedOver(read: Reader, a: seq<byte>, b: seq<byte>, bytes: seq<byte>, c: seq<byte>, d: seq<byte>)
    returns (states: seq<System>, steps: seq<Step>)
    requires IsEnvelope(read, a) && IsEnvelope(read, b) && IsEnvelope(read, c) && IsEnvelope(read, d)
    requires read(bytes) == None && c !in {a, b} && d !in {a, b}
    ensures |steps| == 9 && IsRun(read, states, steps) && PassesOver(states[6], steps[6])
    ensures forall i | 0 <= i <= 9 :: Safe(states[i])
    ensures forall name | name in states[9].files :: states[9].files[name] !in {a, b}
  {
    hide Enabled, Next, PassesOver, Safe;
    states, steps := PassingRun(read, a, b, bytes);
    states, steps := OneSaveMore(read, states, steps, c);
    assert states[8].files == map[Corrupt := bytes, Backup := a, Data := c];
    states, steps := OneSaveMore(read, states, steps, d);
    assert states[9].files == map[Corrupt := bytes, Backup := c, Data := d];
  }

  /** A run goes on with a save that is not cut short. */
  lemma OneSaveMore(read: Reader, states: seq<System>, steps: seq<Step>, content: seq<byte>)
    returns (states': seq<System>, steps': seq<Step>)
    requires IsRun(read, states, steps) && states[|steps|].open && IsEnvelope(read, content)
    ensures IsRun(read, states', steps') && |steps'| == |steps| + 1
    ensures states'[..|states|] == states && steps'[..|steps|] == steps && states'[|steps'|].open
    ensures var was, now := states[|steps|], states'[|steps'|];
      && now.files == Backed(was.files, if Data in was.files then was.files[Data] else [])[Data := content] - {Temp}
      && now.committed == was.committed + {content} && Safe(now)
  {
    var s := states[|steps|];
    var copied := if Data in s.files then |s.files[Data]| else 0;
    states', steps' := OneStepMore(read, states, steps, Save(content, copied));
    assert Data in s.files ==> s.files[Data][..copied] == s.files[Data];
  }
}
