/** Taking known_hosts lines from an export into our own file: what is new is added, what we hold a
    different key for is reported and left alone. */
module HostImport {
  import opened Bytes
  import opened KnownHosts
  import opened Lists
  import opened TextLines
  import opened Wrappers

  datatype HostEntry = HostEntry(marker: Option<string>, hosts: string, algo: string, b64: string)

  function EntryOf(w: World): HostLine -> Option<HostEntry> {
    (l: HostLine) =>
      var blob := Decode(w, l.b64);
      if blob.None? then None
      else
        var algo := AlgoFromBlob(blob.value);
        if algo.None? then None else Some(HostEntry(l.marker, l.hosts, algo.value, l.b64))
  }

  function ParseLine(w: World): string -> Option<HostEntry> {
    (raw: string) => Then(SplitLine(raw), EntryOf(w))
  }

  /** The entries a file holds. */
  function Known(w: World, content: string): seq<HostEntry> {
    FilterMap(Lines(content), ParseLine(w))
  }

  function SameKey(e: HostEntry): HostEntry -> bool {
    (f: HostEntry) => f.marker == e.marker && f.hosts == e.hosts && f.algo == e.algo
  }

  predicate Holds(held: seq<HostEntry>, e: HostEntry) {
    First(held, SameKey(e)).Some?
  }

  datatype Report = Report(added: nat, skipped: nat, conflicts: seq<string>)

  datatype Merge = Merge(held: seq<HostEntry>, report: Report, pending: seq<string>)

  predicate PassedOver(line: string) {
    line == "" || line[0] == '#'
  }

  /** One line of the export, judged against everything held so far. */
  function Judged(w: World, m: Merge, raw: string): Merge {
    var line := Trim(raw);
    if PassedOver(line) then m
    else
      var e := ParseLine(w)(line);
      if e.None? then m.(report := m.report.(skipped := m.report.skipped + 1))
      else
        var f := First(m.held, SameKey(e.value));
        if f.None? then
          Merge(m.held + [e.value], m.report.(added := m.report.added + 1), m.pending + [line])
        else if f.value.b64 == e.value.b64 then m.(report := m.report.(skipped := m.report.skipped + 1))
        else m.(report := m.report.(conflicts := m.report.conflicts + [e.value.hosts]))
  }

  function Merged(w: World, held: seq<HostEntry>, incoming: seq<string>): Merge {
    if incoming == [] then Merge(held, Report(0, 0, []), [])
    else Judged(w, Merged(w, held, incoming[..|incoming| - 1]), incoming[|incoming| - 1])
  }

  /** `merge_lines`. */
  method MergeLines(w: World, existing: string, incoming: seq<string>) returns (report: Report, pending: seq<string>)
    ensures var m := Merged(w, Known(w, existing), incoming);
            report == m.report && pending == m.pending
  {
    hide SplitLine, Trim, Lines, First, FilterMap, EntryOf, ParseLine;
    var held := Known(w, existing);
    report, pending := Report(0, 0, []), [];
    for i := 0 to |incoming|
      invariant Merge(held, report, pending) == Merged(w, Known(w, existing), incoming[..i])
    {
      assert incoming[..i + 1][..i] == incoming[..i];
      var line := Trim(incoming[i]);
      if line == "" || line[0] == '#' {
        continue;
      }
      var entry := ParseLine(w)(line);
      if entry.None? {
        report := report.(skipped := report.skipped + 1);
        continue;
      }
      var e := First(held, SameKey(entry.value));
      if e.Some? && e.value.b64 == entry.value.b64 {
        report := report.(skipped := report.skipped + 1);
      } else if e.Some? {
        report := report.(conflicts := report.conflicts + [entry.value.hosts]);
      } else {
        pending := pending + [line];
        report := report.(added := report.added + 1);
        held := held + [entry.value];
      }
    }
    assert incoming[..|incoming|] == incoming;
  }

  /** What our own file is after an import; one that adds nothing does not touch it. */
  function Imported(w: World, own: Option<string>, incoming: seq<string>): Option<string> {
    var pending := Merged(w, Known(w, Contents(own)), incoming).pending;
    if pending == [] then own else Some(Appended(own, pending))
  }

  /** `import_lines`. */
  method ImportLines(k: Keeper, lines: seq<string>) returns (report: Report)
    modifies k`own
    ensures report == Merged(k.world, Known(k.world, Contents(old(k.own))), lines).report
    ensures k.own == Imported(k.world, old(k.own), lines)
  {
    hide Known, Merged, Appended;
    var pending: seq<string>;
    report, pending := MergeLines(k.world, Contents(k.own), lines);
    if pending != [] {
      k.AppendLines(pending);
    }
  }

  // ---- What is added -------------------------------------------------------------------------------

  /** The entry a line of an export stands for, if it is not passed over or unreadable. */
  function Offered(w: World, raw: string): Option<HostEntry> {
    if PassedOver(Trim(raw)) then None else ParseLine(w)(Trim(raw))
  }

  /** What is held afterwards is what was held and what the added lines say. */
  lemma {:induction false} MergedHolds(w: World, held: seq<HostEntry>, incoming: seq<string>)
    ensures var m := Merged(w, held, incoming);
            m.held == held + FilterMap(m.pending, ParseLine(w)) && m.report.added == |m.pending|
  {
    hide SplitLine, Trim, First, FilterMap, EntryOf, ParseLine, PassedOver;
    var p := ParseLine(w);
    if incoming == [] {
      assert FilterMap([], p) == [] by { Nothing(w); }
      assert held + [] == held;
    } else {
      var n := |incoming| - 1;
      var before, raw := Merged(w, held, incoming[..n]), incoming[n];
      MergedHolds(w, held, incoming[..n]);
      var m := Merged(w, held, incoming);
      if m.pending != before.pending {
        var line := Trim(raw);
        FilterMapSnoc(before.pending, line, p);
        Regroup(held, FilterMap(before.pending, p), [p(line).value]);
      }
    }
  }

  lemma Nothing(w: World)
    ensures FilterMap([], ParseLine(w)) == []
  {
  }

  /** Every key of the export is held afterwards, and no key new to the file is added twice. */
  lemma {:induction false} MergedKeys(w: World, held: seq<HostEntry>, incoming: seq<string>)
    ensures var m := Merged(w, held, incoming);
            && held <= m.held
            && (forall i | 0 <= i < |incoming| && Offered(w, incoming[i]).Some? ::
              Holds(m.held, Offered(w, incoming[i]).value))
            && (forall i, j | 0 <= i < j < |m.held| && |held| <= j :: !SameKey(m.held[j])(m.held[i]))
  {
    hide SplitLine, Trim, First, FilterMap, EntryOf, ParseLine, PassedOver;
    if incoming != [] {
      var n := |incoming| - 1;
      var before, raw := Merged(w, held, incoming[..n]), incoming[n];
      MergedKeys(w, held, incoming[..n]);
      var m := Merged(w, held, incoming);
      assert forall j | 0 <= j < n :: incoming[..n][j] == incoming[j];
      assert m.held == before.held || exists e :: m.held == before.held + [e];
      forall i | 0 <= i < |incoming| && Offered(w, incoming[i]).Some?
        ensures Holds(m.held, Offered(w, incoming[i]).value)
      {
        var e := Offered(w, incoming[i]).value;
        if i < n {
          assert Holds(before.held, e);
          HoldsOn(before.held, m.held, e);
        } else if m.held != before.held {
          assert SameKey(e)(m.held[|before.held|]);
        }
      }
    }
  }

  /** One host, one mark and one type of key: each in the export is held in the end, and none is held
      twice for an import. */
  lemma OneOfEachType(w: World, held: seq<HostEntry>, incoming: seq<string>)
    ensures var m := Merged(w, held, incoming);
      && (forall i | 0 <= i < |incoming| && Offered(w, incoming[i]).Some? :: exists h | h in m.held ::
            var e := Offered(w, incoming[i]).value; h.marker == e.marker && h.hosts == e.hosts && h.algo == e.algo)
      && (forall i, j | 0 <= i < j < |m.held| && |held| <= j ::
            var h, e := m.held[i], m.held[j]; h.marker != e.marker || h.hosts != e.hosts || h.algo != e.algo)
  {
    hide Merged, Offered, First;
    MergedKeys(w, held, incoming);
    var m := Merged(w, held, incoming);
    forall i | 0 <= i < |incoming| && Offered(w, incoming[i]).Some?
      ensures exists h | h in m.held ::
        var e := Offered(w, incoming[i]).value; h.marker == e.marker && h.hosts == e.hosts && h.algo == e.algo
    {
      var k :| FirstAt(m.held, SameKey(Offered(w, incoming[i]).value), k);
      assert m.held[k] in m.held;
    }
    forall i, j | 0 <= i < j < |m.held| && |held| <= j
      ensures var h, e := m.held[i], m.held[j]; h.marker != e.marker || h.hosts != e.hosts || h.algo != e.algo
    {
      assert !SameKey(m.held[j])(m.held[i]);
    }
  }

  lemma HoldsOn(a: seq<HostEntry>, b: seq<HostEntry>, e: HostEntry)
    requires a <= b && Holds(a, e)
    ensures First(b, SameKey(e)) == First(a, SameKey(e))
  {
    hide First;
    FirstAppend(a, b[|a|..], SameKey(e));
    assert a + b[|a|..] == b;
  }

  /** The first line of the export with its key. */
  predicate LeadsItsKey(w: World, incoming: seq<string>, i: int) {
    && 0 <= i < |incoming| && Offered(w, incoming[i]).Some?
    && forall j | 0 <= j < i && Offered(w, incoming[j]).Some? ::
         !SameKey(Offered(w, incoming[i]).value)(Offered(w, incoming[j]).value)
  }

  ghost predicate Leading(w: World, incoming: seq<string>, line: string) {
    exists i :: LeadsItsKey(w, incoming, i) && line == Trim(incoming[i])
  }

  /** Only the first line with a key is ever added. */
  lemma {:induction false} AddedLead(w: World, held: seq<HostEntry>, incoming: seq<string>)
    ensures forall line | line in Merged(w, held, incoming).pending :: Leading(w, incoming, line)
  {
    hide SplitLine, Trim, First, FilterMap, EntryOf, ParseLine, PassedOver, Leading, LeadsItsKey;
    if incoming != [] {
      var n := |incoming| - 1;
      var prior := incoming[..n];
      var before, m := Merged(w, held, prior), Merged(w, held, incoming);
      AddedLead(w, held, prior);
      forall line | line in m.pending ensures Leading(w, incoming, line) {
        if line in before.pending {
          StillLeading(w, incoming, n, line);
        } else {
          NewKeyLeads(w, held, incoming, n);
        }
      }
    }
  }

  lemma StillLeading(w: World, incoming: seq<string>, n: nat, line: string)
    requires n <= |incoming| && Leading(w, incoming[..n], line)
    ensures Leading(w, incoming, line)
  {
    hide Trim, Offered;
    var i :| LeadsItsKey(w, incoming[..n], i) && line == Trim(incoming[..n][i]);
    assert forall j | 0 <= j < n :: incoming[..n][j] == incoming[j];
    assert LeadsItsKey(w, incoming, i);
  }

  lemma NewKeyLeads(w: World, held: seq<HostEntry>, incoming: seq<string>, n: nat)
    requires n < |incoming| && Offered(w, incoming[n]).Some?
    requires !Holds(Merged(w, held, incoming[..n]).held, Offered(w, incoming[n]).value)
    ensures Leading(w, incoming, Trim(incoming[n]))
  {
    hide Trim, Offered, Merged, First;
    var prior, e := incoming[..n], Offered(w, incoming[n]).value;
    MergedKeys(w, held, prior);
    forall j | 0 <= j < n && Offered(w, incoming[j]).Some? ensures !SameKey(e)(Offered(w, incoming[j]).value) {
      assert prior[j] == incoming[j];
      if SameKey(e)(Offered(w, incoming[j]).value) {
        HeldAlike(Merged(w, held, prior).held, Offered(w, incoming[j]).value, e);
      }
    }
    assert LeadsItsKey(w, incoming, n);
  }

  lemma HeldAlike(held: seq<HostEntry>, e: HostEntry, f: HostEntry)
    requires SameKey(f)(e)
    ensures Holds(held, e) <==> Holds(held, f)
  {
    hide First;
    assert forall i | 0 <= i < |held| :: SameKey(e)(held[i]) <==> SameKey(f)(held[i]);
  }

  lemma AddedAreOffered(w: World, held: seq<HostEntry>, incoming: seq<string>)
    ensures forall line | line in Merged(w, held, incoming).pending ::
              exists j | 0 <= j < |incoming| ::
                line == Trim(incoming[j]) && Offered(w, incoming[j]) == ParseLine(w)(line) != None
  {
    hide SplitLine, Trim, EntryOf, ParseLine, Merged, PassedOver;
    AddedLead(w, held, incoming);
    forall line | line in Merged(w, held, incoming).pending
      ensures exists j | 0 <= j < |incoming| ::
        line == Trim(incoming[j]) && Offered(w, incoming[j]) == ParseLine(w)(line) != None
    {
      assert Leading(w, incoming, line);
      var i :| LeadsItsKey(w, incoming, i) && line == Trim(incoming[i]);
      assert Offered(w, incoming[i]) == ParseLine(w)(line) != None;
    }
  }

  // ---- What is reported -----------------------------------------------------------------------------

  /** The host of a line whose key is held, and is another key. */
  function ConflictIn(w: World, held: seq<HostEntry>): string -> Option<string> {
    (raw: string) =>
      var o := Offered(w, raw);
      if o.None? then None
      else
        var f := First(held, SameKey(o.value));
        if f.Some? && f.value.b64 != o.value.b64 then Some(o.value.hosts) else None
  }

  function Counted(): string -> Option<string> {
    (raw: string) => if PassedOver(Trim(raw)) then None else Some(raw)
  }

  /** The conflicts are the hosts whose key is held differently, all of them, in order; every other line
      that is not passed over was added or skipped. */
  lemma {:induction false} ReportIsExact(w: World, held: seq<HostEntry>, incoming: seq<string>)
    ensures var m := Merged(w, held, incoming);
      && m.report.conflicts == FilterMap(incoming, ConflictIn(w, m.held))
      && m.report.added + m.report.skipped + |m.report.conflicts| == |FilterMap(incoming, Counted())|
      && m.report.added == |m.pending|
  {
    hide FilterMap, Judged, Merged, ConflictIn, Counted;
    if incoming == [] {
      NothingPicked(ConflictIn(w, held));
      NothingPicked(Counted());
      NothingJudged(w, held);
    } else {
      var n := |incoming| - 1;
      var prior, raw := incoming[..n], incoming[n];
      var before, m := Merged(w, held, prior), Merged(w, held, incoming);
      LastIsJudged(w, held, incoming);
      ReportIsExact(w, held, prior);
      JudgedConflict(w, before, raw);
      ConflictsStay(w, held, prior, m.held);
      assert incoming == prior + [raw];
      FilterMapSnoc(prior, raw, ConflictIn(w, m.held));
      FilterMapSnoc(prior, raw, Counted());
    }
  }

  lemma NothingJudged(w: World, held: seq<HostEntry>)
    ensures Merged(w, held, []) == Merge(held, Report(0, 0, []), [])
  {
  }

  lemma LastIsJudged(w: World, held: seq<HostEntry>, incoming: seq<string>)
    requires incoming != []
    ensures Merged(w, held, incoming)
         == Judged(w, Merged(w, held, incoming[..|incoming| - 1]), incoming[|incoming| - 1])
  {
    hide Judged;
  }

  /** What conflicted with the lines before conflicts with what more is held. */
  lemma ConflictsStay(w: World, held: seq<HostEntry>, prior: seq<string>, now: seq<HostEntry>)
    requires Merged(w, held, prior).held <= now
    ensures FilterMap(prior, ConflictIn(w, Merged(w, held, prior).held)) == FilterMap(prior, ConflictIn(w, now))
  {
    hide FilterMap, Merged, First, Offered;
    var was := Merged(w, held, prior).held;
    MergedKeys(w, held, prior);
    forall j | 0 <= j < |prior| ensures ConflictIn(w, was)(prior[j]) == ConflictIn(w, now)(prior[j]) {
      if Offered(w, prior[j]).Some? {
        HoldsOn(was, now, Offered(w, prior[j]).value);
      }
    }
    FilterMapAlike(prior, prior, ConflictIn(w, was), ConflictIn(w, now));
  }

  lemma NothingPicked<U>(f: string -> Option<U>)
    ensures FilterMap([], f) == []
  {
  }

  lemma JudgedConflict(w: World, before: Merge, raw: string)
    ensures var m := Judged(w, before, raw);
      && before.held <= m.held
      && m.report.conflicts == before.report.conflicts + OptionToSeq(ConflictIn(w, m.held)(raw))
      && m.report.added + m.report.skipped + |m.report.conflicts|
         == before.report.added + before.report.skipped + |before.report.conflicts| + |OptionToSeq(Counted()(raw))|
      && m.report.added - before.report.added == |m.pending| - |before.pending|
  {
    hide SplitLine, Trim, First, EntryOf, ParseLine, PassedOver;
    var o := Offered(w, raw);
    if o.Some? {
      if Holds(before.held, o.value) {
        assert Judged(w, before, raw).held == before.held;
      } else {
        NewKeyIsFirst(before.held, o.value);
      }
    }
    assert before.report.conflicts + [] == before.report.conflicts;
  }

  /** An entry stands for a line of the file, with the type its key names. */
  lemma HeldAreLines(w: World, own: Option<string>, e: HostEntry)
    requires e in Known(w, Contents(own))
    ensures exists l | l in FileLines(own) ::
      && e.marker == l.marker && e.hosts == l.hosts && e.b64 == l.b64
      && Decode(w, l.b64).Some? && AlgoFromBlob(Decode(w, l.b64).value) == Some(e.algo)
  {
    hide FileLines, FilterMap, AlgoFromBlob, Known;
    KnownIs(w, own);
    FilterMapFrom(FileLines(own), EntryOf(w));
    var i :| 0 <= i < |FileLines(own)| && EntryOf(w)(FileLines(own)[i]) == Some(e);
    assert FileLines(own)[i] in FileLines(own);
  }

  // ---- Importing the same lines again ---------------------------------------------------------------

  /** Judged against everything the first import left, the same lines add nothing: what was added
      counts as skipped, and the conflicts are the same. */
  lemma {:induction false} MergedAgain(w: World, held: seq<HostEntry>, after: seq<HostEntry>, incoming: seq<string>)
    requires Merged(w, held, incoming).held <= after
    ensures var m := Merged(w, held, incoming);
            Merged(w, after, incoming)
            == Merge(after, Report(0, m.report.skipped + m.report.added, m.report.conflicts), [])
  {
    hide SplitLine, Trim, First, FilterMap, EntryOf, ParseLine, PassedOver;
    if incoming != [] {
      var n := |incoming| - 1;
      var before, raw := Merged(w, held, incoming[..n]), incoming[n];
      var m := Merged(w, held, incoming);
      assert before.held <= m.held;
      MergedAgain(w, held, after, incoming[..n]);
      var o := Offered(w, raw);
      if o.Some? {
        if Holds(before.held, o.value) {
          HoldsOn(before.held, after, o.value);
        } else {
          assert m.held == before.held + [o.value] && after[|before.held|] == o.value;
          NewKeyIsFirst(before.held, o.value);
          HoldsOn(m.held, after, o.value);
        }
      }
    }
  }

  lemma NewKeyIsFirst(held: seq<HostEntry>, e: HostEntry)
    requires !Holds(held, e)
    ensures First(held + [e], SameKey(e)) == Some(e)
  {
    FirstPlus(held, e, SameKey(e));
  }

  lemma {:induction false} NoNews(w: World, held: seq<HostEntry>, incoming: seq<string>)
    ensures Merged(w, held, incoming).pending == []
        <==> forall i | 0 <= i < |incoming| && Offered(w, incoming[i]).Some? ::
          Holds(held, Offered(w, incoming[i]).value)
    ensures Merged(w, held, incoming).pending == [] ==> Merged(w, held, incoming).held == held
  {
    hide SplitLine, Trim, First, FilterMap, EntryOf, ParseLine, PassedOver;
    if incoming != [] {
      var n := |incoming| - 1;
      NoNews(w, held, incoming[..n]);
      assert forall j | 0 <= j < n :: incoming[..n][j] == incoming[j];
      var before, m := Merged(w, held, incoming[..n]), Merged(w, held, incoming);
      assert before.pending != [] ==> m.pending != [];
    }
  }

  /** What the added lines say once they are in the file. */
  function Reread(w: World, lines: seq<string>): seq<HostEntry> {
    FilterMap(FilterMap(Pieces(Unlines(lines)), SplitLine), EntryOf(w))
  }

  lemma KnownIs(w: World, own: Option<string>)
    ensures Known(w, Contents(own)) == FilterMap(FileLines(own), EntryOf(w))
  {
    hide SplitLine, EntryOf, FilterMap, Lines;
    FilterMapThen(Lines(Contents(own)), SplitLine, EntryOf(w), ParseLine(w));
    assert own.None? ==> Lines(Contents(own)) == [] by { NoLines(); }
    assert own.None? ==> FilterMap(Lines(Contents(own)), SplitLine) == [] by { NothingSplit(); }
  }

  lemma NoLines()
    ensures Lines("") == []
  {
  }

  lemma NothingSplit()
    ensures FilterMap([], SplitLine) == []
  {
  }

  lemma KnownAfter(w: World, own: Option<string>, lines: seq<string>)
    ensures Known(w, Appended(own, lines)) == Known(w, Contents(own)) + Reread(w, lines)
  {
    hide Known, FileLines, FilterMap, Appended, Pieces, Unlines, SplitLine, EntryOf;
    KnownIs(w, own);
    KnownIs(w, Some(Appended(own, lines)));
    AppendedReads(own, lines);
    FilterMapAppend(FileLines(own), FilterMap(Pieces(Unlines(lines)), SplitLine), EntryOf(w));
  }

  lemma RereadAppend(w: World, a: seq<string>, b: seq<string>)
    ensures Reread(w, a + b) == Reread(w, a) + Reread(w, b)
  {
    hide FilterMap, Pieces, Unlines, SplitLine, EntryOf, EndsLine;
    UnlinesAppend(a, b);
    UnlinesEnd(a);
    PiecesThen(Unlines(a), Unlines(b));
    FilterMapAppend(Pieces(Unlines(a)), Pieces(Unlines(b)), SplitLine);
    FilterMapAppend(FilterMap(Pieces(Unlines(a)), SplitLine), FilterMap(Pieces(Unlines(b)), SplitLine), EntryOf(w));
  }

  /** A line that says in the file just what it was judged as. */
  predicate SaysItself(w: World, raw: string) {
    Offered(w, raw).Some? ==> Reread(w, [Trim(raw)]) == [Offered(w, raw).value]
  }

  /** A line of one line does. */
  lemma OneLineSaysItself(w: World, raw: string)
    requires '\n' !in Trim(raw)
    ensures SaysItself(w, raw)
  {
    hide Pieces, Unlines, SplitLine, EntryOf, Trim;
    var line := Trim(raw);
    PiecesOfUnlines([line]);
    FilterMapOne(line);
    if SplitLine(line).Some? {
      assert [SplitLine(line).value][..0] == [];
    }
  }

  lemma {:induction false} RereadIs(w: World, lines: seq<string>)
    requires forall i | 0 <= i < |lines| ::
      ParseLine(w)(lines[i]).Some? && Reread(w, [lines[i]]) == [ParseLine(w)(lines[i]).value]
    ensures Reread(w, lines) == FilterMap(lines, ParseLine(w))
  {
    hide FilterMap, Reread, ParseLine;
    if lines == [] {
      NothingReread(w);
    } else {
      var n := |lines| - 1;
      assert forall i | 0 <= i < n :: lines[..n][i] == lines[i];
      RereadIs(w, lines[..n]);
      RereadAppend(w, lines[..n], [lines[n]]);
      FilterMapSnoc(lines[..n], lines[n], ParseLine(w));
      assert lines == lines[..n] + [lines[n]];
    }
  }

  lemma NothingReread(w: World)
    ensures Reread(w, []) == FilterMap([], ParseLine(w))
  {
    assert Pieces("") == [];
  }

  /** When the lines an import added say themselves, the same import again changes nothing, and says so. */
  lemma ImportTwice(w: World, own: Option<string>, incoming: seq<string>)
    requires forall line | line in Merged(w, Known(w, Contents(own)), incoming).pending :: SaysItself(w, line)
    ensures var once, r := Imported(w, own, incoming), Merged(w, Known(w, Contents(own)), incoming).report;
            && Imported(w, once, incoming) == once
            && Merged(w, Known(w, Contents(once)), incoming).report == Report(0, r.skipped + r.added, r.conflicts)
  {
    hide Known, Merged, Trim, Appended, FilterMap, ParseLine, Reread, PassedOver;
    var held := Known(w, Contents(own));
    var m, once := Merged(w, held, incoming), Imported(w, own, incoming);
    MergedHolds(w, held, incoming);
    AddedAreOffered(w, held, incoming);
    if m.pending == [] {
      assert FilterMap(m.pending, ParseLine(w)) == [] by { Nothing(w); }
      assert held + [] == held;
    } else {
      forall i | 0 <= i < |m.pending|
        ensures ParseLine(w)(m.pending[i]).Some?
        ensures Reread(w, [m.pending[i]]) == [ParseLine(w)(m.pending[i]).value]
      {
        var line := m.pending[i];
        assert line in m.pending && SaysItself(w, line);
        var j :| 0 <= j < |incoming| && line == Trim(incoming[j]) && Offered(w, incoming[j]) == ParseLine(w)(line);
        TrimAgain(incoming[j]);
      }
      RereadIs(w, m.pending);
      KnownAfter(w, own, m.pending);
    }
    MergedAgain(w, held, Known(w, Contents(once)), incoming);
  }

  lemma HoldsIn(a: seq<HostEntry>, b: seq<HostEntry>, e: HostEntry)
    ensures Holds(a + b, e) <==> Holds(a, e) || Holds(b, e)
  {
    hide First;
    FirstAppend(a, b, SameKey(e));
  }

  /** On one file the second import changes nothing exactly when every line the first one added still
      says its key when the file is read back. */
  lemma TwiceOnFile(w: World, own: Option<string>, incoming: seq<string>)
    ensures var once, added := Imported(w, own, incoming), Merged(w, Known(w, Contents(own)), incoming).pending;
            Imported(w, once, incoming) == once
            <==> forall i | 0 <= i < |added| ::
              ParseLine(w)(added[i]).Some? && Holds(Reread(w, added), ParseLine(w)(added[i]).value)
  {
    hide Known, Merged, Trim, Appended, FilterMap, ParseLine, Holds, Reread;
    var held := Known(w, Contents(own));
    var m, once := Merged(w, held, incoming), Imported(w, own, incoming);
    var after := Known(w, Contents(once));
    MergedHolds(w, held, incoming);
    NoNews(w, after, incoming);
    if m.pending == [] {
      MergedKeys(w, held, incoming);
    } else {
      KnownAfter(w, own, m.pending);
      if Merged(w, after, incoming).pending != [] {
        Longer(once, Merged(w, after, incoming).pending);
      }
      AddedHold(w, held, Reread(w, m.pending), incoming);
    }
  }

  /** Among what was held and what the file now says, every offered key is found if and only if each
      added line's own key is found in what the file now says. */
  lemma AddedHold(w: World, held: seq<HostEntry>, reread: seq<HostEntry>, incoming: seq<string>)
    ensures var added := Merged(w, held, incoming).pending;
            (forall j | 0 <= j < |incoming| && Offered(w, incoming[j]).Some? ::
              Holds(held + reread, Offered(w, incoming[j]).value))
            <==> forall i | 0 <= i < |added| ::
              ParseLine(w)(added[i]).Some? && Holds(reread, ParseLine(w)(added[i]).value)
  {
    hide Merged, Trim, FilterMap, ParseLine, PassedOver, Holds;
    var m, p := Merged(w, held, incoming), ParseLine(w);
    MergedHolds(w, held, incoming);
    MergedKeys(w, held, incoming);
    AddedAreOffered(w, held, incoming);
    assert forall i | 0 <= i < |m.pending| :: m.pending[i] in m.pending;
    FilterMapAll(m.pending, p);
    var entries := FilterMap(m.pending, p);
    forall i | 0 <= i < |m.pending|
      ensures exists j | 0 <= j < |incoming| :: Offered(w, incoming[j]) == Some(entries[i]) == p(m.pending[i])
      ensures Holds(held + reread, entries[i]) <==> Holds(reread, entries[i])
    {
      HoldsIn(held, reread, entries[i]);
      assert m.held[|held| + i] == entries[i];
      NewKey(held, m.held, |held| + i);
    }
    forall j | 0 <= j < |incoming| && Offered(w, incoming[j]).Some?
      ensures Holds(held + reread, Offered(w, incoming[j]).value)
           || exists i | 0 <= i < |entries| :: !Holds(reread, entries[i])
    {
      var e := Offered(w, incoming[j]).value;
      HoldsIn(held, entries, e);
      HoldsIn(held, reread, e);
      if Holds(entries, e) {
        HeldVia(entries, reread, e);
      }
    }
  }

  lemma NewKey(held: seq<HostEntry>, all: seq<HostEntry>, i: nat)
    requires held <= all && |held| <= i < |all| && forall k | 0 <= k < i :: !SameKey(all[i])(all[k])
    ensures !Holds(held, all[i])
  {
    hide First;
    assert forall k | 0 <= k < |held| :: held[k] == all[k];
  }

  lemma HeldVia(entries: seq<HostEntry>, reread: seq<HostEntry>, e: HostEntry)
    requires Holds(entries, e)
    ensures Holds(reread, e) || exists i | 0 <= i < |entries| :: !Holds(reread, entries[i])
  {
    hide First;
    var i :| 0 <= i < |entries| && SameKey(e)(entries[i]);
    if Holds(reread, entries[i]) {
      var k :| 0 <= k < |reread| && SameKey(entries[i])(reread[k]);
      assert SameKey(e)(reread[k]);
    }
  }

  lemma Longer(own: Option<string>, lines: seq<string>)
    requires lines != []
    ensures Some(Appended(own, lines)) != own
  {
    assert |Unlines(lines)| > 0;
  }

  // ---- Which lines import twice as once, whatever the file ------------------------------------------

  /** Written to a file by itself, a line is found under its key there. */
  predicate ReadsBack(w: World, raw: string) {
    Offered(w, raw).Some? && Holds(Reread(w, [Trim(raw)]), Offered(w, raw).value)
  }

  predicate TwiceIsOnce(w: World, own: Option<string>, incoming: seq<string>) {
    Imported(w, Imported(w, own, incoming), incoming) == Imported(w, own, incoming)
  }

  lemma RereadHas(w: World, lines: seq<string>, k: nat, e: HostEntry)
    requires k < |lines| && Holds(Reread(w, [lines[k]]), e)
    ensures Holds(Reread(w, lines), e)
  {
    hide Reread, Holds;
    assert lines == lines[..k] + [lines[k]] + lines[k + 1..];
    RereadAppend(w, lines[..k] + [lines[k]], lines[k + 1..]);
    RereadAppend(w, lines[..k], [lines[k]]);
    HoldsIn(Reread(w, lines[..k]), Reread(w, [lines[k]]), e);
    HoldsIn(Reread(w, lines[..k] + [lines[k]]), Reread(w, lines[k + 1..]), e);
  }

  /** A file that holds every key of the export but one: what importing into it adds. */
  lemma OnlyOneAdded(w: World, held: seq<HostEntry>, incoming: seq<string>, i: nat, n: nat)
    requires LeadsItsKey(w, incoming, i) && i < n <= |incoming| && !Holds(held, Offered(w, incoming[i]).value)
    requires forall j | 0 <= j < |incoming| && Offered(w, incoming[j]).Some? ::
               || SameKey(Offered(w, incoming[i]).value)(Offered(w, incoming[j]).value)
               || Holds(held, Offered(w, incoming[j]).value)
    ensures var m := Merged(w, held, incoming[..n]);
            m.pending == [Trim(incoming[i])] && m.held == held + [Offered(w, incoming[i]).value]
    decreases n
  {
    hide SplitLine, Trim, First, FilterMap, EntryOf, ParseLine, PassedOver, Merged;
    var e := Offered(w, incoming[i]).value;
    LastJudged(w, held, incoming, n);
    if n == i + 1 {
      var prior := incoming[..i];
      NoNews(w, held, prior);
      assert forall j | 0 <= j < i :: prior[j] == incoming[j];
      assert [] + [Trim(incoming[i])] == [Trim(incoming[i])];
    } else {
      OnlyOneAdded(w, held, incoming, i, n - 1);
      var o := Offered(w, incoming[n - 1]);
      if o.Some? {
        HoldsIn(held, [e], o.value);
        assert SameKey(e)(o.value) ==> SameKey(o.value)([e][0]);
      }
    }
  }

  lemma LastJudged(w: World, held: seq<HostEntry>, incoming: seq<string>, n: nat)
    requires 0 < n <= |incoming|
    ensures Merged(w, held, incoming[..n]) == Judged(w, Merged(w, held, incoming[..n - 1]), incoming[n - 1])
  {
    hide Judged;
    assert incoming[..n][..n - 1] == incoming[..n - 1];
  }

  /** A host line whose fields are words, as the fields of any line are. */
  predicate FromWords(l: HostLine) {
    && IsWord(l.hosts) && IsWord(l.b64)
    && (if l.marker.Some? then IsWord(l.marker.value) && l.marker.value[0] == '@' else l.hosts[0] !in "#@")
  }

  /** Such a line written out again, on one line. */
  function WrittenOut(l: HostLine): string {
    if l.marker.Some? then l.marker.value + " " + (l.hosts + " x " + l.b64) else l.hosts + " x " + l.b64
  }

  lemma FieldsAreWords(raw: string)
    ensures SplitLine(raw).Some? ==> FromWords(SplitLine(raw).value)
  {
    hide Words, IsSpace, WordEnd;
    var line := Trim(raw);
    WordsAreWords(line);
    FirstWord(line);
    if line != "" {
      TrimmedStart(raw);
      assert TrimStart(line) == line;
    }
  }

  lemma TrimmedStart(raw: string)
    requires Trim(raw) != ""
    ensures !IsSpace(Trim(raw)[0])
  {
    hide IsSpace;
    assert Trim(raw)[0] == TrimStart(raw)[0];
  }

  lemma WrittenOutReads(l: HostLine)
    requires FromWords(l)
    ensures SplitLine(WrittenOut(l)) == Some(l) && '\n' !in WrittenOut(l)
  {
    hide Words, Trim, IsSpace;
    assert IsWord("x") by { XIsWord(); }
    assert " x " == " " + "x" + " ";
    var tail := l.hosts + " " + "x" + " " + l.b64;
    assert tail == l.hosts + " x " + l.b64;
    ThreeWords(l.hosts, "x", l.b64);
    EndsInWords(l.hosts, "x", l.b64);
    if l.marker.Some? {
      var m := l.marker.value;
      FourWords(m, l.hosts, "x", l.b64);
      MarkedEnds(m, tail);
      NothingToTrim(m + " " + tail);
    } else {
      NothingToTrim(tail);
    }
  }

  lemma XIsWord()
    ensures IsWord("x")
  {
  }

  lemma MarkedEnds(m: string, tail: string)
    requires IsWord(m) && tail != "" && !IsSpace(tail[|tail| - 1]) && '\n' !in tail
    ensures var line := m + " " + tail;
            line[0] == m[0] && !IsSpace(line[0]) && !IsSpace(line[|line| - 1]) && '\n' !in line
  {
  }

  /** The other keys of an export, each on a line of its own. */
  function OtherKey(w: World, e: HostEntry): string -> Option<string> {
    (raw: string) =>
      var o := Offered(w, raw);
      if o.None? || SameKey(e)(o.value) then None else Some(WrittenOut(SplitLine(Trim(raw)).value))
  }

  function OtherEntry(w: World, e: HostEntry): string -> Option<HostEntry> {
    (raw: string) =>
      var o := Offered(w, raw);
      if o.None? || SameKey(e)(o.value) then None else o
  }

  lemma OthersHold(w: World, incoming: seq<string>, e: HostEntry)
    ensures Known(w, Unlines(FilterMap(incoming, OtherKey(w, e)))) == FilterMap(incoming, OtherEntry(w, e))
  {
    hide FilterMap, Pieces, Lines, Unlines, SplitLine, EntryOf, Trim, WrittenOut, FromWords, PassedOver;
    var key, entry, p := OtherKey(w, e), OtherEntry(w, e), ParseLine(w);
    var others := FilterMap(incoming, key);
    forall i | 0 <= i < |incoming|
      ensures entry(incoming[i]) == Then(key(incoming[i]), p)
      ensures key(incoming[i]).Some? ==> '\n' !in key(incoming[i]).value
    {
      var o := Offered(w, incoming[i]);
      if o.Some? {
        FieldsAreWords(Trim(incoming[i]));
        WrittenOutReads(SplitLine(Trim(incoming[i])).value);
      }
    }
    FilterMapThen(incoming, key, p, entry);
    FilterMapFrom(incoming, key);
    assert NoNewlines(others) by {
      forall k | 0 <= k < |others| ensures '\n' !in others[k] {
        assert others[k] in others;
      }
    }
    PiecesOfUnlines(others);
    LinesRead(Unlines(others));
    FilterMapThen(others, SplitLine, EntryOf(w), p);
    FilterMapThen(Lines(Unlines(others)), SplitLine, EntryOf(w), p);
  }

  /** A file that does not change twice under an export one of whose lines does not read back: the one
      with all its other keys. */
  lemma NotTwice(w: World, incoming: seq<string>, i: nat)
    requires LeadsItsKey(w, incoming, i) && !ReadsBack(w, incoming[i])
    ensures !TwiceIsOnce(w, Some(Unlines(FilterMap(incoming, OtherKey(w, Offered(w, incoming[i]).value)))), incoming)
  {
    hide FilterMap, Unlines, SplitLine, Trim, ParseLine, First, Merged, Known, PassedOver, Reread;
    var e := Offered(w, incoming[i]).value;
    var own := Some(Unlines(FilterMap(incoming, OtherKey(w, e))));
    var held := FilterMap(incoming, OtherEntry(w, e));
    OthersHold(w, incoming, e);
    FilterMapFrom(incoming, OtherEntry(w, e));
    forall k | 0 <= k < |held| ensures !SameKey(e)(held[k]) {
      assert held[k] in held;
    }
    forall j | 0 <= j < |incoming| && Offered(w, incoming[j]).Some?
      ensures SameKey(e)(Offered(w, incoming[j]).value) || Holds(held, Offered(w, incoming[j]).value)
    {
      var o := Offered(w, incoming[j]).value;
      if !SameKey(e)(o) {
        FilterMapIn(incoming, OtherEntry(w, e), j);
        var k :| 0 <= k < |held| && held[k] == o;
        assert SameKey(o)(held[k]);
      }
    }
    OnlyOneAdded(w, held, incoming, i, |incoming|);
    assert incoming[..|incoming|] == incoming;
    TwiceOnFile(w, own, incoming);
    var added := Merged(w, Known(w, Contents(own)), incoming).pending;
    assert added == [Trim(incoming[i])] && ParseLine(w)(added[0]) == Some(e);
  }

  /** The second import of some lines changes no file at all, if and only if each line that is the first
      of the export with its key would be found under that key in a file of its own. */
  lemma ImportTwiceExactly(w: World, incoming: seq<string>)
    ensures (forall own: Option<string> :: TwiceIsOnce(w, own, incoming))
            <==> forall i | LeadsItsKey(w, incoming, i) :: ReadsBack(w, incoming[i])
  {
    hide TwiceIsOnce, ReadsBack, Offered;
    if i :| LeadsItsKey(w, incoming, i) && !ReadsBack(w, incoming[i]) {
      NotTwice(w, incoming, i);
    } else {
      forall own: Option<string> ensures TwiceIsOnce(w, own, incoming) {
        AllReadBack(w, own, incoming);
      }
    }
  }

  lemma AllReadBack(w: World, own: Option<string>, incoming: seq<string>)
    requires forall i | LeadsItsKey(w, incoming, i) :: ReadsBack(w, incoming[i])
    ensures TwiceIsOnce(w, own, incoming)
  {
    hide Known, Merged, Trim, ParseLine, Reread, PassedOver, First;
    var held := Known(w, Contents(own));
    var added := Merged(w, held, incoming).pending;
    AddedLead(w, held, incoming);
    forall k | 0 <= k < |added|
      ensures ParseLine(w)(added[k]).Some? && Holds(Reread(w, added), ParseLine(w)(added[k]).value)
    {
      assert added[k] in added && Leading(w, incoming, added[k]);
      var i :| LeadsItsKey(w, incoming, i) && added[k] == Trim(incoming[i]);
      assert ReadsBack(w, incoming[i]);
      RereadHas(w, added, k, Offered(w, incoming[i]).value);
    }
    TwiceOnFile(w, own, incoming);
  }

  lemma NamelessType()
    ensures AlgoFromBlob([0, 0, 0, 0]) == Some("")
  {
    assert [0, 0, 0, 0][4..4] == [];
  }

  /** Two words make no host key line. */
  lemma TooFewWords(a: string, b: string)
    requires IsWord(a) && IsWord(b) && a[0] !in "#@"
    ensures SplitLine(a) == None && SplitLine(a + " " + b) == None
  {
    hide IsSpace, Words;
    assert " " == [' '];
    assert IsSpace(' ') by { SpaceIsSpace(); }
    OneWord(a);
    OneWord(b);
    WordThen(a, ' ', b);
    NothingToTrim(a);
    NothingToTrim(a + " " + b);
  }

  lemma SpaceIsSpace()
    ensures IsSpace(' ') && IsSpace('\n')
  {
  }

  /** Three words do, even with a newline for one of the spaces. */
  lemma ThreeAcross(a: string, b: string, c: string)
    requires IsWord(a) && IsWord(b) && IsWord(c) && a[0] !in "#@"
    ensures var line := a + "\n" + (b + " " + c);
            SplitLine(line) == Some(HostLine(None, a, c)) && Trim(line) == line && !PassedOver(line)
  {
    hide IsSpace, Words, Trim;
    assert " " == [' '] && "\n" == ['\n'];
    assert IsSpace(' ') && IsSpace('\n') by { SpaceIsSpace(); }
    OneWord(c);
    WordThen(b, ' ', c);
    WordThen(a, '\n', b + " " + c);
    Three(a, b, c);
    NothingToTrim(a + "\n" + (b + " " + c));
  }

  /** Once in the file such a line is two lines, and neither is a host key. */
  lemma TornInTwo(w: World, a: string, b: string, c: string)
    requires IsWord(a) && IsWord(b) && IsWord(c) && a[0] !in "#@" && b[0] !in "#@"
    ensures Reread(w, [a + "\n" + (b + " " + c)]) == []
  {
    hide SplitLine, Pieces, FilterMap, EntryOf;
    var line, rest := a + "\n" + (b + " " + c), b + " " + c;
    assert Unlines([line]) == line + "\n" + "" == line + "\n";
    Regroup(a + "\n", rest, "\n");
    NoNewlineInWords(a, b, c);
    PiecesOfLine(a, rest + "\n");
    PiecesOfUnlines([rest]);
    assert Unlines([rest]) == rest + "\n" + "" == rest + "\n";
    TooFewWords(a, a);
    TooFewWords(b, c);
    assert [a] + [rest] == [a, rest];
    NoneRead(w, a, rest);
  }

  lemma NoNewlineInWords(a: string, b: string, c: string)
    requires IsWord(a) && IsWord(b) && IsWord(c)
    ensures '\n' !in a && '\n' !in b + " " + c
  {
  }

  lemma PlainWords()
    ensures IsWord("host") && IsWord("type")
  {
  }

  /** Into an empty file one readable line goes as it is. */
  lemma AddedOnce(w: World, line: string)
    requires Trim(line) == line && !PassedOver(line) && ParseLine(w)(line).Some?
    ensures Merged(w, Known(w, ""), [line]).pending == [line]
  {
    hide Trim, ParseLine, PassedOver, Lines;
    assert Lines("") == [] by { NoLines(); }
    assert Known(w, "") == [];
    assert [line][..0] == [];
  }

  lemma NoneRead(w: World, a: string, b: string)
    requires SplitLine(a) == None && SplitLine(b) == None
    ensures FilterMap(FilterMap([a, b], SplitLine), EntryOf(w)) == []
  {
    hide SplitLine, EntryOf;
    assert [a, b][..1] == [a] && [a][..0] == [];
  }

  /** A line with a newline inside it: read as a key when it is judged, as two scraps once it is in the
      file, and so added again each time. */
  lemma AddedAgain(w: World)
    requires Lawful(w)
    ensures var incoming := ["host\n" + ("type " + Encode(w, [0, 0, 0, 0]))];
            var once := Imported(w, None, incoming);
            Imported(w, once, incoming) != once
  {
    hide Lines, Pieces, Unlines, FilterMap, Trim, AlgoFromBlob, SplitLine, Reread;
    var b64 := Encode(w, [0, 0, 0, 0]);
    assert Decode(w, b64) == Some([0, 0, 0, 0]) && IsWord(b64);
    assert IsWord("host") && IsWord("type") by { PlainWords(); }
    var line := "host\n" + ("type " + b64);
    assert "host\n" == "host" + "\n" && "type " == "type" + " ";
    ThreeAcross("host", "type", b64);
    TornInTwo(w, "host", "type", b64);
    NamelessType();
    KnownIs(w, None);
    AddedOnce(w, line);
    TwiceOnFile(w, None, [line]);
  }

  /** A key our own file already vouches for, or revokes, stays so whatever is imported. */
  lemma ImportKeepsVerdicts(w: World, target: string, blob: KnownHosts.Blob, f: Files, incoming: seq<string>)
    requires Decider(w, target, blob, f.own).Some?
    ensures StatusOf(w, target, blob, Entries(Files(Imported(w, f.own, incoming), f.openssh)))
         == StatusOf(w, target, blob, Entries(f))
  {
    hide Known, Merged, Appended, FileLines, Decides, FilterMap, First, StatusOf, Entries, Pieces, Unlines, SplitLine;
    var pending := Merged(w, Known(w, Contents(f.own)), incoming).pending;
    VerdictIs(w, target, blob, f);
    VerdictIs(w, target, blob, Files(Imported(w, f.own, incoming), f.openssh));
    if pending != [] {
      AppendedReads(f.own, pending);
      FirstAppend(FileLines(f.own), FilterMap(Pieces(Unlines(pending)), SplitLine), Deciding(w, target, blob));
    }
  }

  /** `export_lines`: the lines that are not blank or comments, trimmed. */
  function ExportLine(): string -> Option<string> {
    (raw: string) => if PassedOver(Trim(raw)) then None else Some(Trim(raw))
  }

  function ExportLines(own: Option<string>): seq<string> {
    FilterMap(Lines(Contents(own)), ExportLine())
  }

  /** Taking a file's own export back in adds nothing to it. */
  lemma OwnExportAddsNothing(w: World, own: Option<string>)
    ensures Imported(w, own, ExportLines(own)) == own
  {
    hide Lines, Trim, FilterMap, ParseLine, PassedOver, First, Merged;
    var lines, exported, known := Lines(Contents(own)), ExportLines(own), Known(w, Contents(own));
    NoNews(w, known, exported);
    FilterMapFrom(lines, ExportLine());
    forall i | 0 <= i < |exported| && Offered(w, exported[i]).Some?
      ensures Holds(known, Offered(w, exported[i]).value)
    {
      assert exported[i] in exported;
      var j :| 0 <= j < |lines| && ExportLine()(lines[j]) == Some(exported[i]);
      OfferedIsRead(w, lines[j]);
      FilterMapIn(lines, ParseLine(w), j);
      var e := Offered(w, exported[i]).value;
      var k :| 0 <= k < |known| && known[k] == e;
      assert SameKey(e)(known[k]);
    }
  }

  lemma OfferedIsRead(w: World, raw: string)
    ensures Offered(w, Trim(raw)).Some? ==> ParseLine(w)(raw) == Offered(w, Trim(raw))
  {
    hide Trim, SplitLine, EntryOf, PassedOver;
    TrimAgain(raw);
    TrimmedReads(raw);
  }
}
