/** The known_hosts files: reading them, asking them about a key, and writing our own one.

    Base64 and the hashed form of a host name belong to a `World`; SHA-256 fingerprints are told
    apart exactly as the keys they are of. */
module KnownHosts {
  import opened Bytes
  import opened Decimal
  import opened Lists
  import opened TextLines
  import opened Wrappers
  import Glob
  import Utf8

  type Blob = seq<byte>

  datatype World = World(encode: Blob -> string, decode: string -> Option<Blob>, hashed: (string, string) -> bool)

  function Encode(w: World, blob: Blob): string { w.encode(blob) }

  function Decode(w: World, b64: string): Option<Blob> { w.decode(b64) }

  predicate HashMatches(w: World, field: string, target: string) { w.hashed(field, target) }

  /** What is written comes back, and is one word. */
  ghost predicate Lawful(w: World) {
    forall b: Blob :: Decode(w, Encode(w, b)) == Some(b) && (b != [] ==> IsWord(Encode(w, b)))
  }

  // ---- Keys, hosts and lines -------------------------------------------------------------------

  function AsString(scalars: seq<int>): (s: string)
    requires forall i | 0 <= i < |scalars| :: Utf8.IsScalar(scalars[i])
    ensures |s| == |scalars| && forall i | 0 <= i < |s| :: s[i] as int == scalars[i]
  {
    if scalars == [] then ""
    else
      assert Utf8.IsScalar(scalars[0]);
      [scalars[0] as char] + AsString(scalars[1..])
  }

  /** The algorithm a key names itself by: a length of at most 64, and that much text. */
  function AlgoFromBlob(blob: Blob): (r: Option<string>) {
    if |blob| < 4 then None
    else
      var n := FromU32(blob);
      if n > 64 || |blob| < 4 + n then None
      else if Utf8.FromUtf8(blob[4..4 + n]).Valid? then Some(AsString(Utf8.Text(blob[4..4 + n])))
      else None
  }

  function HostSpec(host: string, port: nat): string {
    if port == 22 then host else "[" + host + "]:" + Digits(port)
  }

  datatype HostLine = HostLine(marker: Option<string>, hosts: string, b64: string)

  /** The fields of one line. The stated algorithm is read past. */
  function SplitLine(raw: string): Option<HostLine> {
    var line := Trim(raw);
    if line == "" || line[0] == '#' then None
    else
      var f := Words(line);
      if f == [] then None
      else if "@" <= f[0] then
        if |f| < 4 then None else Some(HostLine(Some(f[0]), f[1], f[3]))
      else
        if |f| < 3 then None else Some(HostLine(None, f[0], f[2]))
  }

  function CommaAt(s: string): (n: nat)
    ensures n <= |s| && (n < |s| ==> s[n] == ',')
  {
    if s == "" || s[0] == ',' then 0 else 1 + CommaAt(s[1..])
  }

  /** `split(',')`. */
  function Patterns(field: string): (r: seq<string>)
    ensures r != []
    decreases |field|
  {
    var n := CommaAt(field);
    if n == |field| then [field] else [field[..n]] + Patterns(field[n + 1..])
  }

  predicate Wants(pattern: string, target: string) {
    !("!" <= pattern) && Glob.Accepts(pattern, target)
  }

  predicate Refuses(pattern: string, target: string) {
    "!" <= pattern && Glob.Accepts(pattern[1..], target)
  }

  /** A hashed name, or a list of patterns of which one accepts and none refuses. */
  predicate HostMatches(w: World, field: string, target: string) {
    if "|1|" <= field then HashMatches(w, field, target)
    else
      var ps := Patterns(field);
      && (exists i | 0 <= i < |ps| :: Wants(ps[i], target))
      && (forall i | 0 <= i < |ps| :: !Refuses(ps[i], target))
  }

  method MatchHost(w: World, field: string, target: string) returns (r: bool)
    ensures r == HostMatches(w, field, target)
  {
    if "|1|" <= field {
      return HashMatches(w, field, target);
    }
    var matched := false;
    var patterns := Patterns(field);
    for i := 0 to |patterns|
      invariant matched == exists j | 0 <= j < i :: Wants(patterns[j], target)
      invariant forall j | 0 <= j < i :: !Refuses(patterns[j], target)
    {
      var pat := patterns[i];
      if "!" <= pat {
        var hit := Glob.GlobMatch(pat[1..], target);
        if hit {
          assert Refuses(patterns[i], target);
          return false;
        }
      } else {
        var hit := Glob.GlobMatch(pat, target);
        if hit {
          assert Wants(patterns[i], target);
          matched := true;
        }
      }
    }
    r := matched;
  }

  // ---- Scanning --------------------------------------------------------------------------------

  datatype Source = Bifrossh | OpenSsh

  datatype Entry = Entry(source: Source, lineNo: nat, line: HostLine)

  /** Our own file and OpenSSH's; either may be missing. */
  datatype Files = Files(own: Option<string>, openssh: Option<string>)

  function Scan(source: Source, lines: seq<string>): (r: seq<Entry>)
    ensures forall i | 0 <= i < |r| :: r[i].source == source
  {
    if lines == [] then []
    else
      var l := SplitLine(lines[|lines| - 1]);
      Scan(source, lines[..|lines| - 1]) + if l.Some? then [Entry(source, |lines|, l.value)] else []
  }

  function ScanFile(source: Source, file: Option<string>): seq<Entry> {
    if file.None? then [] else Scan(source, Lines(file.value))
  }

  /** The files in the order they are read. */
  function Sources(f: Files): (r: seq<(Source, Option<string>)>)
    ensures |r| == 2
  {
    [(Bifrossh, f.own), (OpenSsh, f.openssh)]
  }

  function EntriesBefore(f: Files, n: nat): seq<Entry>
    requires n <= 2
  {
    if n == 0 then [] else EntriesBefore(f, n - 1) + ScanFile(Sources(f)[n - 1].0, Sources(f)[n - 1].1)
  }

  function Entries(f: Files): seq<Entry> {
    EntriesBefore(f, 2)
  }

  // ---- What the files say about a key ----------------------------------------------------------

  datatype Held = Held(blob: Blob, algo: string)

  /** The key a line holds for this host, if it is one for this host and can be read. */
  function HeldFor(w: World, target: string, l: HostLine): Option<Held> {
    if !HostMatches(w, l.hosts, target) then None
    else
      var b := Decode(w, l.b64);
      if b.None? then None
      else
        var a := AlgoFromBlob(b.value);
        if a.None? then None else Some(Held(b.value, a.value))
  }

  function OfferedAlgo(blob: Blob): string {
    var a := AlgoFromBlob(blob);
    if a.Some? then a.value else ""
  }

  /** A line that settles the question: this host, this very key, and not a delegation to a CA. */
  predicate Decides(w: World, target: string, blob: Blob, l: HostLine) {
    var h := HeldFor(w, target, l);
    h.Some? && h.value.blob == blob && h.value.algo == OfferedAlgo(blob) && l.marker != Some("@cert-authority")
  }

  /** An unmarked line holding a key of the same type for this host. */
  predicate SameType(w: World, target: string, blob: Blob, l: HostLine) {
    var h := HeldFor(w, target, l);
    h.Some? && h.value.algo == OfferedAlgo(blob) && l.marker == None
  }

  predicate OtherKind(w: World, target: string, blob: Blob, l: HostLine) {
    var h := HeldFor(w, target, l);
    h.Some? && h.value.algo != OfferedAlgo(blob) && l.marker == None
  }

  function Deciding(w: World, target: string, blob: Blob): HostLine -> bool {
    (l: HostLine) => Decides(w, target, blob, l)
  }

  function OfSameType(w: World, target: string, blob: Blob): HostLine -> bool {
    (l: HostLine) => SameType(w, target, blob, l)
  }

  function OfOtherKind(w: World, target: string, blob: Blob): HostLine -> bool {
    (l: HostLine) => OtherKind(w, target, blob, l)
  }

  function OnLine(p: HostLine -> bool): Entry -> bool {
    (e: Entry) => p(e.line)
  }

  datatype StoredKey = StoredKey(source: Source, lineNo: nat, held: Held)

  datatype Status =
    | Match(source: Source)
    | Unknown
    | Mismatch(stored: StoredKey)
    | OtherType(stored: StoredKey)
    | Revoked

  function Stored(w: World, target: string, e: Entry): StoredKey
    requires HeldFor(w, target, e.line).Some?
  {
    StoredKey(e.source, e.lineNo, HeldFor(w, target, e.line).value)
  }

  function FirstMismatch(w: World, target: string, blob: Blob, entries: seq<Entry>): Option<Status> {
    var m := First(entries, OnLine(OfSameType(w, target, blob)));
    if m.Some? then Some(Mismatch(Stored(w, target, m.value))) else None
  }

  function FirstOtherType(w: World, target: string, blob: Blob, entries: seq<Entry>): Option<Status> {
    var o := First(entries, OnLine(OfOtherKind(w, target, blob)));
    if o.Some? then Some(OtherType(Stored(w, target, o.value))) else None
  }

  /** The first line that decides does; failing one, the first of the same type; failing that, the
      first of another. */
  function StatusOf(w: World, target: string, blob: Blob, entries: seq<Entry>): Status {
    var d := First(entries, OnLine(Deciding(w, target, blob)));
    if d.Some? then
      if d.value.line.marker == Some("@revoked") then Revoked else Match(d.value.source)
    else
      var m, o := FirstMismatch(w, target, blob, entries), FirstOtherType(w, target, blob, entries);
      if m.Some? then m.value else if o.Some? then o.value else Unknown
  }

  // ---- What writing makes of our own file ------------------------------------------------------

  function FormatLine(w: World, target: string, blob: Blob): Option<string> {
    var a := AlgoFromBlob(blob);
    if a.None? then None else Some(target + " " + a.value + " " + Encode(w, blob))
  }

  lemma NoLineWithoutType(w: World, target: string, blob: Blob)
    ensures FormatLine(w, target, blob).None? <==> AlgoFromBlob(blob).None?
  {
  }

  function Contents(file: Option<string>): string {
    if file.Some? then file.value else ""
  }

  function Finished(s: string): (r: string)
    ensures EndsLine(r)
  {
    if EndsLine(s) then s else s + "\n"
  }

  function Appended(file: Option<string>, lines: seq<string>): string {
    Finished(Contents(file)) + Unlines(lines)
  }

  /** An unmarked line that already records this key, letter for letter. */
  predicate Records(w: World, target: string, blob: Blob, l: HostLine) {
    l.marker.None? && HostMatches(w, l.hosts, target) && l.b64 == Encode(w, blob)
  }

  predicate AlreadyRecorded(w: World, target: string, blob: Blob, own: Option<string>) {
    exists e | e in ScanFile(Bifrossh, own) :: Records(w, target, blob, e.line)
  }

  function Learnt(w: World, target: string, blob: Blob, own: Option<string>): Option<string> {
    var line := FormatLine(w, target, blob);
    if line.None? || AlreadyRecorded(w, target, blob, own) then own else Some(Appended(own, [line.value]))
  }

  /** Whether a line goes when a host, or its key of one type, is removed. Marked lines never do. */
  predicate Goes(w: World, target: string, algo: Option<string>, l: HostLine) {
    && l.marker.None? && HostMatches(w, l.hosts, target)
    && (algo.Some? ==> HeldFor(w, target, l).Some? && HeldFor(w, target, l).value.algo == algo.value)
  }

  function KeepLine(w: World, target: string, algo: Option<string>): HostLine -> Option<HostLine> {
    (l: HostLine) => if Goes(w, target, algo, l) then None else Some(l)
  }

  function KeepRaw(w: World, target: string, algo: Option<string>): string -> Option<string> {
    (raw: string) =>
      var l := SplitLine(Trim(raw));
      if l.Some? && Goes(w, target, algo, l.value) then None else Some(raw)
  }

  function KeptOf(w: World, target: string, algo: Option<string>, lines: seq<string>): seq<string> {
    FilterMap(lines, KeepRaw(w, target, algo))
  }

  function Body(kept: seq<string>): string {
    if Join(kept) == "" then "" else Join(kept) + "\n"
  }

  function Removed(w: World, target: string, algo: Option<string>, own: Option<string>): Option<string> {
    if own.None? then None
    else
      var kept := KeptOf(w, target, algo, Lines(own.value));
      if |kept| == |Lines(own.value)| then own else Some(Body(kept))
  }

  // ---- The operations --------------------------------------------------------------------------

  lemma NextSource(f: Files, s: nat)
    requires s < 2
    ensures EntriesBefore(f, s) + ScanFile(Sources(f)[s].0, Sources(f)[s].1) == EntriesBefore(f, s + 1) <= Entries(f)
    ensures Sources(f)[s].1.None? ==> EntriesBefore(f, s + 1) == EntriesBefore(f, s)
  {
  }

  function Gone(w: World, target: string, algo: Option<string>, own: Option<string>): nat {
    if own.None? then 0 else |Lines(own.value)| - |KeptOf(w, target, algo, Lines(own.value))|
  }

  function Replaced(w: World, target: string, blob: Blob, own: Option<string>): Option<string> {
    Learnt(w, target, blob, Removed(w, target, AlgoFromBlob(blob), own))
  }

  lemma HeldOnMatch(w: World, target: string, l: HostLine)
    requires HostMatches(w, l.hosts, target)
    ensures var b := Decode(w, l.b64);
            var a := if b.Some? then AlgoFromBlob(b.value) else None;
            var h := HeldFor(w, target, l);
            a == if h.Some? then Some(h.value.algo) else None
  {
  }

  /** Where `check_host` stands when nothing so far has decided. */
  predicate Sofar(w: World, target: string, blob: Blob, seen: seq<Entry>, mismatch: Option<Status>,
      otherType: Option<Status>) {
    && First(seen, OnLine(Deciding(w, target, blob))).None?
    && mismatch == FirstMismatch(w, target, blob, seen)
    && otherType == FirstOtherType(w, target, blob, seen)
  }

  lemma SofarNothing(w: World, target: string, blob: Blob, f: Files)
    ensures Sofar(w, target, blob, EntriesBefore(f, 0), None, None)
  {
  }

  /** What one more line changes. */
  lemma Another(w: World, target: string, blob: Blob, seen: seq<Entry>, e: Entry, mismatch: Option<Status>,
      otherType: Option<Status>)
    requires Sofar(w, target, blob, seen, mismatch, otherType)
    ensures Decides(w, target, blob, e.line)
         || Sofar(w, target, blob, seen + [e],
                  if mismatch.None? && SameType(w, target, blob, e.line)
                    then Some(Mismatch(Stored(w, target, e))) else mismatch,
                  if otherType.None? && OtherKind(w, target, blob, e.line)
                    then Some(OtherType(Stored(w, target, e))) else otherType)
  {
    hide First, HeldFor, Decides, SameType, OtherKind;
    assert (seen + [e])[..|seen|] == seen && (seen + [e])[..|seen| + 1] == seen + [e];
    FirstSnoc(seen + [e], |seen|, OnLine(Deciding(w, target, blob)));
    FirstSnoc(seen + [e], |seen|, OnLine(OfSameType(w, target, blob)));
    FirstSnoc(seen + [e], |seen|, OnLine(OfOtherKind(w, target, blob)));
  }

  lemma Settled(w: World, target: string, blob: Blob, seen: seq<Entry>, lines: seq<Entry>, j: nat, f: Files)
    requires j < |lines| && seen + lines <= Entries(f)
    requires First(seen + lines[..j], OnLine(Deciding(w, target, blob))).None?
      && Decides(w, target, blob, lines[j].line)
    ensures First(Entries(f), OnLine(Deciding(w, target, blob))) == Some(lines[j])
  {
    var p, all := OnLine(Deciding(w, target, blob)), Entries(f);
    hide Entries;
    var before, after := seen + lines[..j], all[|seen| + j + 1..];
    assert all == before + ([lines[j]] + after);
    FirstAppend(before, [lines[j]] + after, p);
    FirstAppend([lines[j]], after, p);
    assert First([lines[j]], p) == Some(lines[j]);
  }

  class Keeper {
    const world: World
    var own: Option<string>
    var openssh: Option<string>

    constructor (world: World, own: Option<string>, openssh: Option<string>)
      ensures this.world == world && this.own == own && this.openssh == openssh
    {
      this.world, this.own, this.openssh := world, own, openssh;
    }

    function View(): Files
      reads this
    {
      Files(own, openssh)
    }

    /** `append_lines`: finishes a line left unfinished, then adds. */
    method AppendLines(lines: seq<string>)
      modifies this`own
      ensures own == Some(Appended(old(own), lines))
    {
      var needsNewline := own.Some? && own.value != "" && own.value[|own.value| - 1] != '\n';
      var file := if own.Some? then own.value else "";
      if needsNewline {
        file := file + "\n";
      }
      ghost var start := file;
      for i := 0 to |lines|
        invariant file + Unlines(lines[i..]) == start + Unlines(lines)
      {
        Regroup(file, lines[i] + "\n", Unlines(lines[i + 1..]));
        Regroup(file, lines[i], "\n");
        assert lines[i..][1..] == lines[i + 1..];
        file := file + lines[i] + "\n";
      }
      assert file + "" == file;
      own := Some(file);
    }

    /** `learn_host`: refuses a key that does not name its type, and adds no line twice. */
    method LearnHost(host: string, port: nat, blob: Blob) returns (ok: bool)
      modifies this`own
      ensures ok == AlgoFromBlob(blob).Some?
      ensures own == Learnt(world, HostSpec(host, port), blob, old(own))
    {
      var target := HostSpec(host, port);
      var line := FormatLine(world, target, blob);
      hide FormatLine, AlgoFromBlob, HostMatches, Appended, Lines, Scan;
      assert line.None? <==> AlgoFromBlob(blob).None? by { NoLineWithoutType(world, target, blob); }
      if line.None? {
        return false;
      }
      var held := ScanFile(Bifrossh, own);
      for i := 0 to |held|
        invariant own == old(own)
        invariant forall j | 0 <= j < i :: !Records(world, target, blob, held[j].line)
      {
        var l := held[i].line;
        if l.marker.None? && l.b64 == Encode(world, blob) {
          var matches := MatchHost(world, l.hosts, target);
          if matches {
            assert held[i] in held;
            assert AlreadyRecorded(world, target, blob, own);
            return true;
          }
        }
      }
      assert !AlreadyRecorded(world, target, blob, own);
      AppendLines([line.value]);
      ok := true;
    }

    /** `check_host`: one pass over both files, remembering the first key that differs and the
        first of another type. A match in OpenSSH's file is written into ours. */
    method CheckHost(host: string, port: nat, blob: Blob) returns (status: Status)
      modifies this`own
      ensures status == StatusOf(world, HostSpec(host, port), blob, Entries(old(View())))
      ensures own == if status == Match(OpenSsh) then Learnt(world, HostSpec(host, port), blob, old(own)) else old(own)
    {
      var algo := OfferedAlgo(blob);
      var target := HostSpec(host, port);
      hide HostSpec, OfferedAlgo, HostMatches, AlgoFromBlob, Learnt;
      var files := View();
      var sources := Sources(files);
      hide Lines, Scan, EntriesBefore, First, Sources;
      var mismatch: Option<Status> := None;
      var otherType: Option<Status> := None;
      SofarNothing(world, target, blob, files);
      for s := 0 to 2
        invariant own == old(own)
        invariant Sofar(world, target, blob, EntriesBefore(files, s), mismatch, otherType)
      {
        var (source, path) := sources[s];
        ghost var seen := EntriesBefore(files, s);
        NextSource(files, s);
        if path.None? {
          continue;
        }
        var lines := Scan(source, Lines(path.value));
        assert seen + lines[..0] == seen;
        for j := 0 to |lines|
          invariant own == old(own)
          invariant Sofar(world, target, blob, seen + lines[..j], mismatch, otherType)
        {
          var line := lines[j].line;
          ghost var before := seen + lines[..j];
          assert seen + lines[..j + 1] == before + [lines[j]];
          Another(world, target, blob, before, lines[j], mismatch, otherType);
          var matches := MatchHost(world, line.hosts, target);
          if !matches {
            continue;
          }
          var lineBlob := Decode(world, line.b64);
          if lineBlob.None? {
            continue;
          }
          var lineAlgo := AlgoFromBlob(lineBlob.value);
          if lineAlgo.None? {
            continue;
          }
          if lineAlgo.value != algo {
            if line.marker.None? && otherType.None? {
              otherType := Some(OtherType(StoredKey(source, lines[j].lineNo, Held(lineBlob.value, lineAlgo.value))));
            }
            continue;
          }
          if lineBlob.value == blob {
            if line.marker == Some("@cert-authority") {
              continue;
            }
            Settled(world, target, blob, seen, lines, j, files);
            if line.marker == Some("@revoked") {
              return Revoked;
            }
            if source == OpenSsh {
              var _ := LearnHost(host, port, blob);
            }
            return Match(source);
          }
          if line.marker.None? && mismatch.None? {
            mismatch := Some(Mismatch(StoredKey(source, lines[j].lineNo, Held(lineBlob.value, lineAlgo.value))));
          }
        }
        assert lines[..|lines|] == lines;
      }
      status := if mismatch.Some? then mismatch.value else if otherType.Some? then otherType.value else Unknown;
    }

    /** The closure in `remove_lines`. */
    method DropIt(target: string, algo: Option<string>, raw: string) returns (r: bool)
      ensures KeepRaw(world, target, algo)(raw) == if r then None else Some(raw)
    {
      var split := SplitLine(Trim(raw));
      hide HostMatches, HeldFor, SplitLine, Trim, AlgoFromBlob;
      if split.None? {
        return false;
      }
      var l := split.value;
      if l.marker.Some? {
        return false;
      }
      var matches := MatchHost(world, l.hosts, target);
      if !matches {
        return false;
      }
      if algo.None? {
        return true;
      }
      HeldOnMatch(world, target, l);
      var blob := Decode(world, l.b64);
      if blob.None? {
        return false;
      }
      return AlgoFromBlob(blob.value) == algo;
    }

    /** `remove_lines`: rewrites our own file without the lines that go, and not at all if none does. */
    method RemoveLines(host: string, port: nat, algo: Option<string>) returns (removed: nat)
      modifies this`own
      ensures own == Removed(world, HostSpec(host, port), algo, old(own))
      ensures removed == Gone(world, HostSpec(host, port), algo, old(own))
    {
      hide HostSpec, Lines, FilterMap, Join, Goes, SplitLine, Trim;
      if own.None? {
        return 0;
      }
      var target := HostSpec(host, port);
      var lines := Lines(own.value);
      var kept: seq<string> := [];
      removed := 0;
      for i := 0 to |lines|
        invariant own == old(own)
        invariant kept == FilterMap(lines[..i], KeepRaw(world, target, algo)) && removed == i - |kept|
      {
        FilterMapTake(lines, i, KeepRaw(world, target, algo));
        var dropIt := DropIt(target, algo, lines[i]);
        if dropIt {
          removed := removed + 1;
        } else {
          kept := kept + [lines[i]];
        }
      }
      assert lines[..|lines|] == lines;
      if removed == 0 {
        return;
      }
      var body := Join(kept);
      if body != "" {
        body := body + "\n";
      }
      own := Some(body);
    }

    /** `forget_host`. */
    method ForgetHost(host: string, port: nat) returns (removed: nat)
      modifies this`own
      ensures own == Removed(world, HostSpec(host, port), None, old(own))
      ensures removed == Gone(world, HostSpec(host, port), None, old(own))
    {
      removed := RemoveLines(host, port, None);
    }

    /** `replace_host`: drops the host's keys of this type, then records this one. */
    method ReplaceHost(host: string, port: nat, blob: Blob) returns (ok: bool)
      modifies this`own
      ensures ok == AlgoFromBlob(blob).Some?
      ensures own == Replaced(world, HostSpec(host, port), blob, old(own))
    {
      var _ := RemoveLines(host, port, AlgoFromBlob(blob));
      ok := LearnHost(host, port, blob);
    }
  }

  // ---- Text and the lines in it ----------------------------------------------------------------

  /** What the lines of a file say, wherever they stand. */
  function FileLines(file: Option<string>): seq<HostLine> {
    if file.None? then [] else FilterMap(Lines(file.value), SplitLine)
  }

  /** Carriage returns make no difference to what a file says. */
  lemma LinesRead(s: string)
    ensures FilterMap(Lines(s), SplitLine) == FilterMap(Pieces(s), SplitLine)
  {
    var p, l := Pieces(s), Lines(s);
    LinesArePieces(s);
    hide Pieces, Lines, SplitLine, DropReturn, Trim, FilterMap;
    forall i | 0 <= i < |p| ensures SplitLine(l[i]) == SplitLine(p[i]) {
      ReturnsDoNotRead(p[i]);
    }
    FilterMapAlike(l, p, SplitLine, SplitLine);
  }

  lemma ReturnsDoNotRead(raw: string)
    ensures SplitLine(DropReturn(raw)) == SplitLine(raw)
  {
    ReturnsDoNotShow(raw);
    hide Trim, DropReturn;
  }

  /** What was there, then what was added. */
  lemma AppendedReads(file: Option<string>, lines: seq<string>)
    ensures FileLines(Some(Appended(file, lines)))
         == FileLines(file) + FilterMap(Pieces(Unlines(lines)), SplitLine)
  {
    var c := Contents(file);
    assert file.None? ==> FilterMap(Pieces(c), SplitLine) == [];
    hide Lines, Unlines, FilterMap, SplitLine;
    if !EndsLine(c) {
      PiecesFinished(c);
    }
    PiecesThen(Finished(c), Unlines(lines));
    LinesRead(c);
    LinesRead(Finished(c) + Unlines(lines));
    FilterMapAppend(Pieces(c), Pieces(Unlines(lines)), SplitLine);
  }

  /** A rewritten file says what the kept lines say. */
  lemma BodyReads(kept: seq<string>)
    requires NoNewlines(kept)
    ensures FilterMap(Lines(Body(kept)), SplitLine) == FilterMap(kept, SplitLine)
  {
    LinesRead(Body(kept));
    if Join(kept) == "" {
      hide SplitLine;
      assert |kept| > 1 ==> |Join(kept)| > 0;
      assert kept == [] || kept == [""];
      BlankReadsAsNothing();
      assert FilterMap(kept, SplitLine) == [];
      assert Pieces("") == [];
    } else {
      hide FilterMap, SplitLine;
      JoinIsUnlines(kept);
      PiecesOfUnlines(kept);
    }
  }

  lemma BlankReadsAsNothing()
    ensures SplitLine("") == None
  {
  }

  /** What our own file says when a host's lines are gone: everything else, in order. */
  lemma RemovedReads(w: World, target: string, algo: Option<string>, own: Option<string>)
    ensures FileLines(Removed(w, target, algo, own)) == FilterMap(FileLines(own), KeepLine(w, target, algo))
  {
    hide Goes, SplitLine, Trim;
    if own.Some? {
      var lines := Lines(own.value);
      var kept := KeptOf(w, target, algo, lines);
      var f, g := KeepRaw(w, target, algo), KeepLine(w, target, algo);
      KeptReads(w, target, algo, lines);
      if |kept| == |lines| {
        hide FilterMap, Lines;
        KeepAll(lines, f);
      } else {
        LinesHaveNoNewlines(own.value);
        KeptHaveNoNewlines(w, target, algo, lines);
        hide Body, Lines, KeptOf, SplitLine, FilterMap;
        BodyReads(kept);
      }
    }
  }

  lemma KeptReads(w: World, target: string, algo: Option<string>, lines: seq<string>)
    ensures FilterMap(KeptOf(w, target, algo, lines), SplitLine)
         == FilterMap(FilterMap(lines, SplitLine), KeepLine(w, target, algo))
  {
    var f, g := KeepRaw(w, target, algo), KeepLine(w, target, algo);
    var h := (raw: string) => Then(SplitLine(raw), g);
    hide FilterMap, SplitLine, Trim, Goes;
    forall i | 0 <= i < |lines| ensures h(lines[i]) == Then(f(lines[i]), SplitLine) {
      TrimmedReads(lines[i]);
    }
    FilterMapThen(lines, f, SplitLine, h);
    FilterMapThen(lines, SplitLine, g, h);
  }

  lemma TrimmedReads(raw: string)
    ensures SplitLine(Trim(raw)) == SplitLine(raw)
  {
    TrimAgain(raw);
    hide Trim;
  }

  lemma KeptHaveNoNewlines(w: World, target: string, algo: Option<string>, lines: seq<string>)
    requires NoNewlines(lines)
    ensures NoNewlines(KeptOf(w, target, algo, lines))
  {
    var kept := KeptOf(w, target, algo, lines);
    FilterMapFrom(lines, KeepRaw(w, target, algo));
    hide FilterMap, SplitLine, Trim, Goes;
    forall i | 0 <= i < |kept| ensures '\n' !in kept[i] {
      assert kept[i] in kept;
    }
  }

  // ---- What the answer depends on --------------------------------------------------------------

  lemma {:induction false} ScanFirst(source: Source, lines: seq<string>, p: HostLine -> bool)
    ensures First(Scan(source, lines), OnLine(p)).Some? <==> First(FilterMap(lines, SplitLine), p).Some?
    ensures First(Scan(source, lines), OnLine(p)).Some? ==>
      var e := First(Scan(source, lines), OnLine(p)).value;
      e.source == source && First(FilterMap(lines, SplitLine), p) == Some(e.line)
  {
    hide SplitLine, First, FilterMap;
    if lines == [] {
      assert FilterMap(lines, SplitLine) == [] by { NothingMapped(); }
    } else {
      var n := |lines| - 1;
      var l := SplitLine(lines[n]);
      ScanFirst(source, lines[..n], p);
      assert lines == lines[..n] + [lines[n]];
      FilterMapSnoc(lines[..n], lines[n], SplitLine);
      var entries, read := Scan(source, lines[..n]), FilterMap(lines[..n], SplitLine);
      if l.Some? {
        FirstPlus(entries, Entry(source, |lines|, l.value), OnLine(p));
        FirstPlus(read, l.value, p);
      } else {
        assert entries + [] == entries && read + [] == read;
      }
    }
  }

  lemma NothingMapped()
    ensures FilterMap<string, HostLine>([], SplitLine) == []
  {
  }

  function Decider(w: World, target: string, blob: Blob, file: Option<string>): Option<HostLine> {
    First(FileLines(file), Deciding(w, target, blob))
  }

  function Verdict(l: HostLine, source: Source): Status {
    if l.marker == Some("@revoked") then Revoked else Match(source)
  }

  predicate Undecided(s: Status) {
    s.Unknown? || s.Mismatch? || s.OtherType?
  }

  /** Match and Revoked come from the first line that decides, in our own file before OpenSSH's, and
      line numbers have no part in them. */
  lemma VerdictIs(w: World, target: string, blob: Blob, f: Files)
    ensures var d, o := Decider(w, target, blob, f.own), Decider(w, target, blob, f.openssh);
            var s := StatusOf(w, target, blob, Entries(f));
            if d.Some? then s == Verdict(d.value, Bifrossh)
            else if o.Some? then s == Verdict(o.value, OpenSsh)
            else Undecided(s)
  {
    var p := Deciding(w, target, blob);
    EntriesAre(f);
    hide Decides, SameType, OtherKind, HeldFor, Lines, Scan, Entries, SplitLine, FilterMap, First;
    var own, openssh := ScanFile(Bifrossh, f.own), ScanFile(OpenSsh, f.openssh);
    FirstAppend(own, openssh, OnLine(p));
    FileFirst(Bifrossh, f.own, p);
    FileFirst(OpenSsh, f.openssh, p);
  }

  lemma EntriesAre(f: Files)
    ensures Entries(f) == ScanFile(Bifrossh, f.own) + ScanFile(OpenSsh, f.openssh)
  {
    hide Lines, Scan;
    assert EntriesBefore(f, 1) == [] + ScanFile(Bifrossh, f.own);
  }

  lemma FileFirst(source: Source, file: Option<string>, p: HostLine -> bool)
    ensures First(ScanFile(source, file), OnLine(p)).Some? <==> First(FileLines(file), p).Some?
    ensures First(ScanFile(source, file), OnLine(p)).Some? ==>
      var e := First(ScanFile(source, file), OnLine(p)).value;
      e.source == source && First(FileLines(file), p) == Some(e.line)
  {
    hide Lines, Scan, SplitLine, FilterMap;
    if file.Some? {
      ScanFirst(source, Lines(file.value), p);
    }
  }

  // ---- What a line is for, and when it counts ----------------------------------------------------

  /** A list of patterns as it is written. */
  function Commas(patterns: seq<string>): string
    requires patterns != []
  {
    if |patterns| == 1 then patterns[0] else patterns[0] + "," + Commas(patterns[1..])
  }

  lemma CommaIsAt(a: string, rest: string)
    requires ',' !in a
    ensures CommaAt(a + "," + rest) == |a|
  {
    var s := a + "," + rest;
    if a != "" {
      CommaIsAt(a[1..], rest);
      assert s[1..] == a[1..] + "," + rest;
    }
  }

  /** They come apart where they were joined. */
  lemma {:induction false} PatternsOfCommas(patterns: seq<string>)
    requires patterns != [] && forall i | 0 <= i < |patterns| :: ',' !in patterns[i]
    ensures Patterns(Commas(patterns)) == patterns
  {
    var a, field := patterns[0], Commas(patterns);
    if |patterns| == 1 {
      NoCommas(a);
    } else {
      var rest := patterns[1..];
      PatternsOfCommas(rest);
      CommaIsAt(a, Commas(rest));
      assert field[..|a|] == a && field[|a| + 1..] == Commas(rest);
      assert [a] + rest == patterns;
    }
  }

  /** A name without a star in it is meant by a list when one pattern of it means the name and no pattern
      behind a `!` does. */
  lemma ListMeans(w: World, patterns: seq<string>, target: string)
    requires patterns != [] && forall i | 0 <= i < |patterns| :: ',' !in patterns[i]
    requires '*' !in target && !("|1|" <= Commas(patterns))
    ensures HostMatches(w, Commas(patterns), target)
       <==> && (exists i | 0 <= i < |patterns| :: !("!" <= patterns[i]) && Glob.Matches(patterns[i], target))
            && (forall i | 0 <= i < |patterns| :: "!" <= patterns[i] ==> !Glob.Matches(patterns[i][1..], target))
  {
    PatternsOfCommas(patterns);
    hide Commas, Patterns, Glob.Accepts, Glob.Matches;
    forall i | 0 <= i < |patterns|
      ensures Glob.Accepts(patterns[i], target) <==> Glob.Matches(patterns[i], target)
      ensures "!" <= patterns[i] ==>
        (Glob.Accepts(patterns[i][1..], target) <==> Glob.Matches(patterns[i][1..], target))
    {
      Glob.AcceptsIsMatches(patterns[i], target);
      if "!" <= patterns[i] {
        Glob.AcceptsIsMatches(patterns[i][1..], target);
      }
    }
  }

  lemma TextBehindLength(text: Blob, rest: Blob)
    requires |text| <= 64
    ensures var blob := U32(|text|) + text + rest;
      |blob| >= 4 + |text| && FromU32(blob) == |text| && blob[4..4 + |text|] == text
  {
    hide U32, FromU32;
    Regroup(U32(|text|), text, rest);
    U32RoundTrip(|text|, text + rest);
  }

  lemma NameOf(blob: Blob, text: Blob)
    requires 4 + |text| <= |blob| && |text| <= 64 && FromU32(blob) == |text| && blob[4..4 + |text|] == text
    ensures AlgoFromBlob(blob) == if Utf8.FromUtf8(text).Valid? then Some(AsString(Utf8.Text(text))) else None
  {
    hide Utf8.FromUtf8, Utf8.Text, AsString, FromU32;
  }

  /** A key's type is the text it starts with, behind the length of that. */
  lemma TypeIsRead(name: seq<int>, rest: Blob)
    requires forall i | 0 <= i < |name| :: Utf8.IsScalar(name[i])
    requires |Utf8.EncodeAll(name)| <= 64
    ensures var text := Utf8.EncodeAll(name); AlgoFromBlob(U32(|text|) + text + rest) == Some(AsString(name))
  {
    hide AlgoFromBlob, U32, FromU32, Utf8.FromUtf8, Utf8.Text, Utf8.EncodeAll, AsString, Utf8.FromUtf8Lossy;
    var text := Utf8.EncodeAll(name);
    TextBehindLength(text, rest);
    NameOf(U32(|text|) + text + rest, text);
    Utf8.TextComesBack(name);
    Utf8.TextIsLossy(text);
    Utf8.LossyIsLossy(text);
  }

  /** A line settles the question when it is for the host, holds this very key and is not a delegation; it
      is of the same type when it is unmarked and holds a key that names the same. */
  lemma LinesThatCount(w: World, target: string, blob: Blob, l: HostLine)
    ensures Decides(w, target, blob, l)
       <==> && HostMatches(w, l.hosts, target) && Decode(w, l.b64) == Some(blob) && AlgoFromBlob(blob).Some?
            && l.marker != Some("@cert-authority")
    ensures AlgoFromBlob(blob).Some? ==>
      && (SameType(w, target, blob, l) <==> OfHost(w, target, AlgoFromBlob(blob), l))
      && (OtherKind(w, target, blob, l) <==>
            && OfHost(w, target, None, l) && !OfHost(w, target, AlgoFromBlob(blob), l)
            && Decode(w, l.b64).Some? && AlgoFromBlob(Decode(w, l.b64).value).Some?)
  {
    hide HostMatches, AlgoFromBlob;
  }

  /** A comment says nothing, and every line that says something says it where its number says. */
  lemma {:induction false} EntriesAreWhereTheySay(source: Source, lines: seq<string>)
    ensures forall e | e in Scan(source, lines) ::
      1 <= e.lineNo <= |lines| && SplitLine(lines[e.lineNo - 1]) == Some(e.line)
    ensures forall i | 0 <= i < |lines| && SplitLine(lines[i]).Some? ::
      Entry(source, i + 1, SplitLine(lines[i]).value) in Scan(source, lines)
    ensures forall line | line in lines && "#" <= line :: SplitLine(line) == None
  {
    hide SplitLine;
    if lines != [] {
      var m := |lines| - 1;
      EntriesAreWhereTheySay(source, lines[..m]);
      assert forall n | 0 <= n < m :: lines[..m][n] == lines[n];
    }
    forall line | line in lines && "#" <= line ensures SplitLine(line) == None {
      CommentsSayNothing(line);
    }
  }

  lemma CommentsSayNothing(line: string)
    requires "#" <= line
    ensures SplitLine(line) == None
  {
    assert !IsSpace(line[0]);
    assert TrimStart(line) == line;
    assert Trim(line) != "" ==> Trim(line)[0] == '#';
  }

  /** A stored key is the one on this line. */
  predicate IsOn(w: World, k: StoredKey, e: Entry) {
    && k.source == e.source && k.lineNo == e.lineNo
    && Decode(w, e.line.b64) == Some(k.held.blob) && AlgoFromBlob(k.held.blob) == Some(k.held.algo)
  }

  lemma StoredIsOn(w: World, target: string, e: Entry)
    requires HeldFor(w, target, e.line).Some?
    ensures IsOn(w, Stored(w, target, e), e)
  {
    hide HostMatches, AlgoFromBlob;
  }

  /** What each answer means, line by line. A mismatch is always with a different key. */
  lemma StatusMeans(w: World, target: string, blob: Blob, entries: seq<Entry>)
    ensures var decides, same, other :=
              OnLine(Deciding(w, target, blob)), OnLine(OfSameType(w, target, blob)),
              OnLine(OfOtherKind(w, target, blob));
            var s := StatusOf(w, target, blob, entries);
            && (s.Revoked? <==> exists i :: FirstAt(entries, decides, i) && entries[i].line.marker == Some("@revoked"))
            && (s.Match? <==> exists i :: FirstAt(entries, decides, i) && entries[i].line.marker != Some("@revoked"))
            && (s.Match? ==> exists i :: FirstAt(entries, decides, i) && entries[i].source == s.source)
            && (Undecided(s) ==> forall i | 0 <= i < |entries| :: !decides(entries[i]))
            && (s.Mismatch? ==> s.stored.held.blob != blob && s.stored.held.algo == OfferedAlgo(blob))
            && (s.Mismatch? ==> exists i :: FirstAt(entries, same, i) && IsOn(w, s.stored, entries[i]))
            && (s.OtherType? ==> exists i :: FirstAt(entries, other, i) && IsOn(w, s.stored, entries[i]))
            && (s.OtherType? || s.Unknown? ==> forall i | 0 <= i < |entries| :: !same(entries[i]))
            && (s.Unknown? ==> forall i | 0 <= i < |entries| :: !other(entries[i]))
  {
    hide HostMatches, AlgoFromBlob, HeldFor, IsOn;
    forall e: Entry | HeldFor(w, target, e.line).Some? ensures IsOn(w, Stored(w, target, e), e) {
      StoredIsOn(w, target, e);
    }
    var decides := OnLine(Deciding(w, target, blob));
    forall i, j | FirstAt(entries, decides, i) && FirstAt(entries, decides, j) ensures i == j {
    }
  }

  // ---- After learning, replacing and forgetting ------------------------------------------------

  /** What the text written for a key says when it is read: one line, unless the host or the type breaks
      it into more. */
  function Written(w: World, target: string, blob: Blob): seq<HostLine> {
    var line := FormatLine(w, target, blob);
    if line.None? then [] else FilterMap(Pieces(Unlines([line.value])), SplitLine)
  }

  /** It says that this is the host's key. */
  predicate Serves(w: World, target: string, blob: Blob) {
    var d := First(Written(w, target, blob), Deciding(w, target, blob));
    d.Some? && d.value.marker != Some("@revoked")
  }

  lemma RecordedDecides(w: World, target: string, blob: Blob, l: HostLine)
    requires Lawful(w) && AlgoFromBlob(blob).Some? && Records(w, target, blob, l)
    ensures Decides(w, target, blob, l)
  {
    hide HostMatches, AlgoFromBlob;
    assert Decode(w, Encode(w, blob)) == Some(blob);
  }

  lemma LearntReads(w: World, target: string, blob: Blob, own: Option<string>)
    ensures FileLines(Learnt(w, target, blob, own))
         == FileLines(own) + if AlreadyRecorded(w, target, blob, own) then [] else Written(w, target, blob)
  {
    hide FormatLine, AlreadyRecorded, SplitLine, Appended, Lines, Pieces, Unlines, FilterMap;
    var line := FormatLine(w, target, blob);
    if line.Some? && !AlreadyRecorded(w, target, blob, own) {
      AppendedReads(own, [line.value]);
    } else {
      assert FileLines(own) + [] == FileLines(own);
    }
  }

  lemma FilterMapOne(raw: string)
    ensures FilterMap([raw], SplitLine) == OptionToSeq(SplitLine(raw))
  {
    hide SplitLine;
    assert [raw][..0] == [];
  }

  /** Learning writes exactly when the key names its type and no unmarked line for the host has it
      already, letter for letter. */
  lemma LearntExactly(w: World, target: string, blob: Blob, own: Option<string>)
    ensures Learnt(w, target, blob, own) != own
       <==> && AlgoFromBlob(blob).Some?
            && forall l | l in FileLines(own) && l.marker == None && l.b64 == Encode(w, blob) ::
                 !HostMatches(w, l.hosts, target)
  {
    hide FormatLine, HostMatches, AlgoFromBlob, FileLines, ScanFile, First;
    NoLineWithoutType(w, target, blob);
    var records := (l: HostLine) => Records(w, target, blob, l);
    var entries, lines := ScanFile(Bifrossh, own), FileLines(own);
    FileFirst(Bifrossh, own, records);
    assert First(entries, OnLine(records)).None? <==> forall i | 0 <= i < |entries| :: !OnLine(records)(entries[i]);
    assert First(lines, records).None? <==> forall i | 0 <= i < |lines| :: !records(lines[i]);
    assert AlreadyRecorded(w, target, blob, own) <==> exists l | l in lines :: records(l);
    assert forall line: string | own.Some? :: |Appended(own, [line])| > |own.value|;
  }

  /** After a key is learnt the next look at the files matches it, if and only if no revocation of it
      stood first in our own file and the line written for it says what it should. */
  lemma LearntIsFound(w: World, target: string, blob: Blob, f: Files)
    requires Lawful(w)
    ensures var d := Decider(w, target, blob, f.own);
            var after := Files(Learnt(w, target, blob, f.own), f.openssh);
            (StatusOf(w, target, blob, Entries(after)) == Match(Bifrossh))
              == if d.Some? then d.value.marker != Some("@revoked") else Serves(w, target, blob)
  {
    hide Lines, SplitLine, FilterMap, Decides, StatusOf, Entries, ScanFile, Learnt, Written, HostMatches, First,
      AlgoFromBlob;
    var after := Files(Learnt(w, target, blob, f.own), f.openssh);
    VerdictIs(w, target, blob, after);
    LearntReads(w, target, blob, f.own);
    FirstAppend(FileLines(f.own), Written(w, target, blob), Deciding(w, target, blob));
    assert FileLines(f.own) + [] == FileLines(f.own);
    if AlreadyRecorded(w, target, blob, f.own) {
      RecordedServes(w, target, blob, f.own);
    }
  }

  /** A key that is recorded decides; one that names no type never does. */
  lemma RecordedServes(w: World, target: string, blob: Blob, own: Option<string>)
    requires Lawful(w) && AlreadyRecorded(w, target, blob, own)
    ensures Decider(w, target, blob, own).Some? || !Serves(w, target, blob)
  {
    hide FileLines, Scan, HostMatches, AlgoFromBlob, SplitLine, First, Pieces, Unlines;
    NoLineWithoutType(w, target, blob);
    if AlgoFromBlob(blob).Some? {
      var e :| e in ScanFile(Bifrossh, own) && Records(w, target, blob, e.line);
      RecordedDecides(w, target, blob, e.line);
      FileFirst(Bifrossh, own, Deciding(w, target, blob));
    }
  }

  /** A host name known_hosts can hold as it stands. */
  predicate PlainHost(target: string) {
    IsWord(target) && target[0] !in "#@!" && ',' !in target && !("|1|" <= target)
  }

  lemma {:induction false} NoCommas(s: string)
    requires ',' !in s
    ensures CommaAt(s) == |s|
  {
    if s != "" {
      NoCommas(s[1..]);
    }
  }

  lemma PlainHostMatches(w: World, target: string)
    requires PlainHost(target)
    ensures HostMatches(w, target, target)
  {
    NoCommas(target);
    Glob.Reflexive(target);
    hide Glob.Accepts;
    assert Patterns(target) == [target];
    assert Wants(Patterns(target)[0], target);
  }

  /** For a plain host and a type that is one word, the line written says what it should. */
  lemma PlainServes(w: World, target: string, blob: Blob)
    requires Lawful(w) && PlainHost(target)
    requires AlgoFromBlob(blob).Some? && IsWord(AlgoFromBlob(blob).value)
    ensures Written(w, target, blob) == [HostLine(None, target, Encode(w, blob))] && Serves(w, target, blob)
  {
    hide AlgoFromBlob, HostMatches, SplitLine, PlainHost, IsWord, Glob.Accepts, Pieces, Unlines, FilterMap;
    PlainReads(w, target, blob);
    PlainHostMatches(w, target);
    assert Decode(w, Encode(w, blob)) == Some(blob);
    var line := FormatLine(w, target, blob).value;
    PiecesOfUnlines([line]);
    FilterMapOne(line);
    RecordedDecides(w, target, blob, HostLine(None, target, Encode(w, blob)));
    FirstOfOne(HostLine(None, target, Encode(w, blob)), Deciding(w, target, blob));
  }

  lemma FirstOfOne<T>(x: T, p: T -> bool)
    ensures First([x], p) == if p(x) then Some(x) else None
  {
    assert [x][..0] == [];
  }

  lemma PlainReads(w: World, target: string, blob: Blob)
    requires Lawful(w) && PlainHost(target)
    requires AlgoFromBlob(blob).Some? && IsWord(AlgoFromBlob(blob).value)
    ensures var line := target + " " + AlgoFromBlob(blob).value + " " + Encode(w, blob);
            '\n' !in line && SplitLine(line) == Some(HostLine(None, target, Encode(w, blob)))
  {
    hide AlgoFromBlob, SplitLine, IsWord;
    FieldReads(w, target, blob);
  }

  /** A line of a host field, the key's type and the key. */
  lemma FieldReads(w: World, hosts: string, blob: Blob)
    requires Lawful(w) && IsWord(hosts) && hosts[0] !in "#@"
    requires AlgoFromBlob(blob).Some? && IsWord(AlgoFromBlob(blob).value)
    ensures var line := hosts + " " + AlgoFromBlob(blob).value + " " + Encode(w, blob);
            '\n' !in line && SplitLine(line) == Some(HostLine(None, hosts, Encode(w, blob)))
  {
    hide AlgoFromBlob, Words, Trim, IsSpace;
    var algo, b64 := AlgoFromBlob(blob).value, Encode(w, blob);
    var line := hosts + " " + algo + " " + b64;
    assert blob != [] by { NoBlobNoType(); }
    assert Decode(w, b64) == Some(blob) && IsWord(b64);
    ThreeWords(hosts, algo, b64);
    EndsInWords(hosts, algo, b64);
    hide IsWord;
    NothingToTrim(line);
    NotMarked(hosts, line);
  }

  lemma NoBlobNoType()
    ensures AlgoFromBlob([]) == None
  {
  }

  lemma EndsInWords(a: string, b: string, c: string)
    requires IsWord(a) && IsWord(b) && IsWord(c)
    ensures var line := a + " " + b + " " + c;
            line[0] == a[0] && !IsSpace(line[0]) && !IsSpace(line[|line| - 1]) && '\n' !in line
  {
  }

  lemma NotMarked(target: string, line: string)
    requires target != "" && target[0] !in "#@" && line != "" && line[0] == target[0]
    ensures line[0] != '#' && !("@" <= target)
  {
  }

  /** A line for this very key that carries a marker. */
  function MarkedDeciding(w: World, target: string, blob: Blob): HostLine -> bool {
    (l: HostLine) => l.marker.Some? && Decides(w, target, blob, l)
  }

  /** Once the keys of this type are gone, only marked lines are left to decide. */
  lemma RemovedDecider(w: World, target: string, blob: Blob, own: Option<string>)
    ensures Decider(w, target, blob, Removed(w, target, AlgoFromBlob(blob), own))
         == First(FileLines(own), MarkedDeciding(w, target, blob))
  {
    var algo := AlgoFromBlob(blob);
    RemovedReads(w, target, algo, own);
    hide Removed, FileLines, First, FilterMap, HostMatches, AlgoFromBlob;
    FirstKept(FileLines(own), KeepLine(w, target, algo), Deciding(w, target, blob), MarkedDeciding(w, target, blob));
  }

  /** After a key is put in the place of the old ones the next look matches it, if and only if no
      revocation of it is left standing first and the line written says what it should. */
  lemma ReplacedIsFound(w: World, target: string, blob: Blob, f: Files)
    requires Lawful(w)
    ensures var d := First(FileLines(f.own), MarkedDeciding(w, target, blob));
            var after := Files(Replaced(w, target, blob, f.own), f.openssh);
            (StatusOf(w, target, blob, Entries(after)) == Match(Bifrossh))
              == if d.Some? then d.value.marker != Some("@revoked") else Serves(w, target, blob)
  {
    RemovedDecider(w, target, blob, f.own);
    LearntIsFound(w, target, blob, Files(Removed(w, target, AlgoFromBlob(blob), f.own), f.openssh));
  }

  /** An unmarked line of this host, holding a key of the type if one is asked for. */
  predicate OfHost(w: World, target: string, algo: Option<string>, l: HostLine) {
    var blob := Decode(w, l.b64);
    && l.marker == None && HostMatches(w, l.hosts, target)
    && (algo == None || (blob.Some? && AlgoFromBlob(blob.value) == algo))
  }

  lemma TheseGo(w: World, target: string, algo: Option<string>)
    ensures forall l :: Goes(w, target, algo, l) <==> OfHost(w, target, algo, l)
  {
    hide HostMatches, AlgoFromBlob;
  }

  /** Replacing a key takes the host's unmarked keys of that type and nothing else, and the only such
      line afterwards is the one written for the new key. */
  lemma ReplacedKeepsTheRest(w: World, target: string, blob: Blob, own: Option<string>)
    ensures var algo, was, now := AlgoFromBlob(blob), FileLines(own), FileLines(Replaced(w, target, blob, own));
            && (forall l | l in was && !OfHost(w, target, algo, l) :: l in now)
            && (forall l | l in now && OfHost(w, target, algo, l) :: l in Written(w, target, blob))
            && (forall l | l in now :: l in was || l in Written(w, target, blob))
  {
    hide Replaced, FileLines, FilterMap, HostMatches, HeldFor, Written, AlgoFromBlob;
    var algo, was := AlgoFromBlob(blob), FileLines(own);
    var keep := KeepLine(w, target, algo);
    var left := FilterMap(was, keep);
    ReplacedReads(w, target, blob, own);
    FilterMapFrom(was, keep);
    TheseGo(w, target, algo);
    forall l | l in was && !OfHost(w, target, algo, l) ensures l in left {
      var i :| 0 <= i < |was| && was[i] == l;
      FilterMapIn(was, keep, i);
    }
    assert forall l | l in left :: l in was && !Goes(w, target, algo, l);
  }

  lemma ReplacedReads(w: World, target: string, blob: Blob, own: Option<string>)
    ensures var left := FilterMap(FileLines(own), KeepLine(w, target, AlgoFromBlob(blob)));
            FileLines(Replaced(w, target, blob, own)) in {left, left + Written(w, target, blob)}
  {
    hide Removed, FileLines, FilterMap, Written, AlgoFromBlob, Learnt, AlreadyRecorded;
    RemovedReads(w, target, AlgoFromBlob(blob), own);
    LearntReads(w, target, blob, Removed(w, target, AlgoFromBlob(blob), own));
    var left := FilterMap(FileLines(own), KeepLine(w, target, AlgoFromBlob(blob)));
    assert left + [] == left;
  }

  /** Forgetting leaves this host nothing but marked lines, and takes nothing else. */
  lemma ForgottenLines(w: World, target: string, own: Option<string>)
    ensures var left := FileLines(Removed(w, target, None, own));
            && (forall l | l in left && HostMatches(w, l.hosts, target) :: l.marker.Some?)
            && (forall l | l in FileLines(own) && (l.marker.Some? || !HostMatches(w, l.hosts, target)) :: l in left)
  {
    var was, keep := FileLines(own), KeepLine(w, target, None);
    RemovedReads(w, target, None, own);
    hide Removed, FileLines, HostMatches, FilterMap;
    FilterMapFrom(was, keep);
    forall l | l in was && (l.marker.Some? || !HostMatches(w, l.hosts, target))
      ensures l in FilterMap(was, keep)
    {
      var i :| 0 <= i < |was| && was[i] == l;
      FilterMapIn(was, keep, i);
    }
  }

  /** A host forgotten in our file is what OpenSSH's file says it is, whatever key it offers, unless a
      marked line of ours still decides. */
  lemma ForgottenIsNew(w: World, target: string, blob: Blob, f: Files)
    ensures StatusOf(w, target, blob, Entries(Files(Removed(w, target, None, f.own), f.openssh)))
         == var d := First(FileLines(f.own), MarkedDeciding(w, target, blob));
            if d.Some? then Verdict(d.value, Bifrossh) else StatusOf(w, target, blob, Entries(Files(None, f.openssh)))
  {
    hide Removed, FileLines, FilterMap, First, Decides, SameType, OtherKind, HeldFor, Entries, Scan, Lines;
    var left := Removed(w, target, None, f.own);
    EntriesAre(Files(left, f.openssh));
    EntriesAre(Files(None, f.openssh));
    var entries, others := ScanFile(Bifrossh, left), ScanFile(OpenSsh, f.openssh);
    assert ScanFile(Bifrossh, None) + others == others;
    ForgottenDecider(w, target, blob, f.own);
    NothingUnmarked(w, target, blob, f.own);
    FileFirst(Bifrossh, left, Deciding(w, target, blob));
    FirstAppend(entries, others, OnLine(Deciding(w, target, blob)));
    FirstAppend(entries, others, OnLine(OfSameType(w, target, blob)));
    FirstAppend(entries, others, OnLine(OfOtherKind(w, target, blob)));
  }

  lemma ForgottenDecider(w: World, target: string, blob: Blob, own: Option<string>)
    ensures Decider(w, target, blob, Removed(w, target, None, own))
      == First(FileLines(own), MarkedDeciding(w, target, blob))
  {
    hide Removed, FileLines, FilterMap, First, HostMatches, AlgoFromBlob;
    RemovedReads(w, target, None, own);
    FirstKept(FileLines(own), KeepLine(w, target, None), Deciding(w, target, blob), MarkedDeciding(w, target, blob));
  }

  /** Of a forgotten host no unmarked line is left in our file, so none for a mismatch or another type. */
  lemma NothingUnmarked(w: World, target: string, blob: Blob, own: Option<string>)
    ensures var entries := ScanFile(Bifrossh, Removed(w, target, None, own));
            && First(entries, OnLine(OfSameType(w, target, blob))).None?
            && First(entries, OnLine(OfOtherKind(w, target, blob))).None?
  {
    hide Removed, FileLines, ScanFile, HostMatches, AlgoFromBlob;
    var left := Removed(w, target, None, own);
    ForgottenLines(w, target, own);
    FileFirst(Bifrossh, left, OfSameType(w, target, blob));
    FileFirst(Bifrossh, left, OfOtherKind(w, target, blob));
    var kept := FileLines(left);
    assert forall i | 0 <= i < |kept| :: kept[i] in kept;
  }

  // ---- Other hosts -----------------------------------------------------------------------------

  predicate NoWildcards(s: string) {
    '*' !in s && '?' !in s
  }

  lemma {:induction false} MatchesOnlyItself(p: string, t: string)
    requires NoWildcards(p) && Glob.Matches(p, t)
    ensures p == t
  {
    if p != "" {
      MatchesOnlyItself(p[1..], t[1..]);
      assert p == [p[0]] + p[1..] && t == [t[0]] + t[1..];
    }
  }

  lemma NoOtherHost(w: World, target: string, other: string)
    requires PlainHost(target) && NoWildcards(target) && other != target
    ensures !HostMatches(w, target, other)
  {
    NoCommas(target);
    assert Patterns(target) == [target];
    if Glob.Accepts(target, other) {
      Glob.AcceptedMatches(target, other);
      MatchesOnlyItself(target, other);
    }
  }

  lemma {:induction false} ScanAlike(source: Source, a: seq<string>, b: seq<string>)
    requires |a| == |b| && forall i | 0 <= i < |a| :: SplitLine(a[i]) == SplitLine(b[i])
    ensures Scan(source, a) == Scan(source, b)
  {
    hide SplitLine;
    if a != [] {
      var n := |a| - 1;
      assert forall i | 0 <= i < n :: a[..n][i] == a[i] && b[..n][i] == b[i];
      ScanAlike(source, a[..n], b[..n]);
    }
  }

  lemma LinesScan(source: Source, s: string)
    ensures Scan(source, Lines(s)) == Scan(source, Pieces(s))
  {
    hide Pieces, Lines, SplitLine, DropReturn, Scan;
    var p, l := Pieces(s), Lines(s);
    LinesArePieces(s);
    forall i | 0 <= i < |p| ensures SplitLine(l[i]) == SplitLine(p[i]) {
      ReturnsDoNotRead(p[i]);
    }
    ScanAlike(source, l, p);
  }

  /** One more line in our own file is one more entry after those that were there. */
  lemma AppendedScan(own: Option<string>, line: string)
    requires '\n' !in line && SplitLine(line).Some?
    ensures exists n :: ScanFile(Bifrossh, Some(Appended(own, [line])))
                     == ScanFile(Bifrossh, own) + [Entry(Bifrossh, n, SplitLine(line).value)]
  {
    hide Pieces, Lines, SplitLine, Unlines;
    var c := Contents(own);
    assert own.None? ==> Scan(Bifrossh, Pieces(c)) == [] by { NothingScanned(); }
    if !EndsLine(c) {
      PiecesFinished(c);
    }
    PiecesOfUnlines([line]);
    PiecesThen(Finished(c), Unlines([line]));
    LinesScan(Bifrossh, c);
    LinesScan(Bifrossh, Finished(c) + Unlines([line]));
    assert (Pieces(c) + [line])[..|Pieces(c)|] == Pieces(c);
    assert Scan(Bifrossh, Pieces(c) + [line])
        == Scan(Bifrossh, Pieces(c)) + [Entry(Bifrossh, |Pieces(c)| + 1, SplitLine(line).value)];
  }

  lemma NothingScanned()
    ensures Pieces("") == []
  {
  }

  lemma FirstAmidst<T>(a: seq<T>, x: T, b: seq<T>, p: T -> bool)
    requires !p(x)
    ensures First(a + [x] + b, p) == First(a + b, p)
  {
    hide First;
    FirstPlus(a, x, p);
    FirstAppend(a + [x], b, p);
    FirstAppend(a, b, p);
  }

  /** Learning a plain host changes no answer about any other host. */
  lemma LearntElsewhere(w: World, target: string, blob: Blob, f: Files, other: string, blob': Blob)
    requires Lawful(w) && PlainHost(target) && NoWildcards(target) && other != target
    requires AlgoFromBlob(blob).Some? && IsWord(AlgoFromBlob(blob).value)
    ensures StatusOf(w, other, blob', Entries(Files(Learnt(w, target, blob, f.own), f.openssh)))
         == StatusOf(w, other, blob', Entries(f))
  {
    hide Entries, ScanFile, First, SplitLine, HostMatches, AlgoFromBlob, PlainHost, IsWord, Appended;
    if !AlreadyRecorded(w, target, blob, f.own) {
      PlainReads(w, target, blob);
      NoOtherHost(w, target, other);
      var line := FormatLine(w, target, blob).value;
      AppendedScan(f.own, line);
      var n :| ScanFile(Bifrossh, Some(Appended(f.own, [line])))
            == ScanFile(Bifrossh, f.own) + [Entry(Bifrossh, n, SplitLine(line).value)];
      var e := Entry(Bifrossh, n, SplitLine(line).value);
      var a, b := ScanFile(Bifrossh, f.own), ScanFile(OpenSsh, f.openssh);
      EntriesAre(f);
      EntriesAre(Files(Learnt(w, target, blob, f.own), f.openssh));
      FirstAmidst(a, e, b, OnLine(Deciding(w, other, blob')));
      FirstAmidst(a, e, b, OnLine(OfSameType(w, other, blob')));
      FirstAmidst(a, e, b, OnLine(OfOtherKind(w, other, blob')));
    }
  }

  /** A look at the files with the line numbers left out of it. */
  function Numberless(s: Status): Status {
    match s
    case Mismatch(k) => Mismatch(k.(lineNo := 0))
    case OtherType(k) => OtherType(k.(lineNo := 0))
    case _ => s
  }

  /** None of the lines that go with one host holds a key of the other. */
  predicate Spares(w: World, target: string, algo: Option<string>, own: Option<string>, other: string) {
    forall l | l in FileLines(own) && Goes(w, target, algo, l) :: HeldFor(w, other, l).None?
  }

  /** The first that passes is on the same line, but for its number. */
  predicate FirstAlike(a: seq<Entry>, b: seq<Entry>, p: HostLine -> bool) {
    var x, y := First(a, OnLine(p)), First(b, OnLine(p));
    if x.Some? then y.Some? && x.value.(lineNo := 0) == y.value.(lineNo := 0) else y.None?
  }

  lemma AlikeAnswers(w: World, target: string, blob: Blob, a: seq<Entry>, b: seq<Entry>)
    requires FirstAlike(a, b, Deciding(w, target, blob)) && FirstAlike(a, b, OfSameType(w, target, blob))
    requires FirstAlike(a, b, OfOtherKind(w, target, blob))
    ensures Numberless(StatusOf(w, target, blob, a)) == Numberless(StatusOf(w, target, blob, b))
  {
    hide First, HeldFor, AlgoFromBlob;
  }

  lemma OwnFirst(own: Option<string>, own': Option<string>, openssh: Option<string>, p: HostLine -> bool)
    requires First(FileLines(own), p) == First(FileLines(own'), p)
    ensures FirstAlike(Entries(Files(own, openssh)), Entries(Files(own', openssh)), p)
  {
    hide FileLines, First, Entries, ScanFile;
    EntriesAre(Files(own, openssh));
    EntriesAre(Files(own', openssh));
    FileFirst(Bifrossh, own, p);
    FileFirst(Bifrossh, own', p);
    FirstAppend(ScanFile(Bifrossh, own), ScanFile(OpenSsh, openssh), OnLine(p));
    FirstAppend(ScanFile(Bifrossh, own'), ScanFile(OpenSsh, openssh), OnLine(p));
  }

  lemma SparedFirst(w: World, target: string, algo: Option<string>, own: Option<string>, other: string,
      p: HostLine -> bool)
    requires Spares(w, target, algo, own, other)
    requires forall l | p(l) :: HeldFor(w, other, l).Some?
    ensures First(FileLines(Removed(w, target, algo, own)), p) == First(FileLines(own), p)
  {
    hide FileLines, First, FilterMap, Removed, Goes, HeldFor;
    RemovedReads(w, target, algo, own);
    var was := FileLines(own);
    assert forall i | 0 <= i < |was| :: was[i] in was;
    FirstKept(was, KeepLine(w, target, algo), p, p);
  }

  /** Removing one host's keys changes no answer about a host that none of the lines that go holds a key
      for, but for line numbers. */
  lemma RemovedElsewhere(w: World, target: string, algo: Option<string>, f: Files, other: string, blob: Blob)
    requires Spares(w, target, algo, f.own, other)
    ensures var after := Files(Removed(w, target, algo, f.own), f.openssh);
      Numberless(StatusOf(w, other, blob, Entries(after))) == Numberless(StatusOf(w, other, blob, Entries(f)))
  {
    hide Removed, Entries, First, FileLines, HeldFor, AlgoFromBlob, Spares, StatusOf, FirstAlike;
    var left := Removed(w, target, algo, f.own);
    var decides, same, kind := Deciding(w, other, blob), OfSameType(w, other, blob), OfOtherKind(w, other, blob);
    SparedFirst(w, target, algo, f.own, other, decides);
    SparedFirst(w, target, algo, f.own, other, same);
    SparedFirst(w, target, algo, f.own, other, kind);
    OwnFirst(left, f.own, f.openssh, decides);
    OwnFirst(left, f.own, f.openssh, same);
    OwnFirst(left, f.own, f.openssh, kind);
    AlikeAnswers(w, other, blob, Entries(Files(left, f.openssh)), Entries(f));
  }

  /** Nor does replacing a plain host's key. */
  lemma ReplacedElsewhere(w: World, target: string, blob: Blob, f: Files, other: string, blob': Blob)
    requires Lawful(w) && PlainHost(target) && NoWildcards(target) && other != target
    requires AlgoFromBlob(blob).Some? && IsWord(AlgoFromBlob(blob).value)
    requires Spares(w, target, AlgoFromBlob(blob), f.own, other)
    ensures var after := Files(Replaced(w, target, blob, f.own), f.openssh);
      Numberless(StatusOf(w, other, blob', Entries(after))) == Numberless(StatusOf(w, other, blob', Entries(f)))
  {
    hide Removed, Entries, AlgoFromBlob, Spares, StatusOf, PlainHost, IsWord, Learnt;
    RemovedElsewhere(w, target, AlgoFromBlob(blob), f, other, blob');
    LearntElsewhere(w, target, blob, Files(Removed(w, target, AlgoFromBlob(blob), f.own), f.openssh), other, blob');
  }

  /** A line that settles the question for the other host and does not go with the first. */
  function StayingToDecide(w: World, target: string, algo: Option<string>, other: string, blob: Blob)
    : HostLine -> bool
  {
    (l: HostLine) => Decides(w, other, blob, l) && !Goes(w, target, algo, l)
  }

  /** After a removal the first line that settles the question and stays is what settles it, for any
      host and key. */
  lemma MatchOutlivesExactly(w: World, target: string, algo: Option<string>, f: Files, other: string, blob: Blob)
    ensures var d := First(FileLines(f.own), StayingToDecide(w, target, algo, other, blob));
            var o := Decider(w, other, blob, f.openssh);
            var s := StatusOf(w, other, blob, Entries(Files(Removed(w, target, algo, f.own), f.openssh)));
            if d.Some? then s == Verdict(d.value, Bifrossh)
            else if o.Some? then s == Verdict(o.value, OpenSsh)
            else Undecided(s)
  {
    hide Removed, FileLines, First, FilterMap, Decides, Goes, StatusOf, Entries, Verdict, Undecided;
    RemovedReads(w, target, algo, f.own);
    FirstKept(FileLines(f.own), KeepLine(w, target, algo), Deciding(w, other, blob),
              StayingToDecide(w, target, algo, other, blob));
    VerdictIs(w, other, blob, Files(Removed(w, target, algo, f.own), f.openssh));
  }

  lemma TwoNamed(w: World)
    ensures HostMatches(w, "a,b", "a") && HostMatches(w, "a,b", "b")
  {
    assert Patterns("b") == ["b"];
    assert "a,b"[2..] == "b" && CommaAt("a,b") == 1 && "a,b"[..1] == "a";
    assert Patterns("a,b") == ["a", "b"];
    Glob.Reflexive("a");
    Glob.Reflexive("b");
    assert Wants(["a", "b"][0], "a") && Wants(["a", "b"][1], "b");
  }

  /** A file of one line for two hosts. */
  function SharedLine(w: World, blob: Blob): Option<string>
    requires AlgoFromBlob(blob).Some?
  {
    Some(Unlines(["a,b" + " " + AlgoFromBlob(blob).value + " " + Encode(w, blob)]))
  }

  /** Two hosts on one line: forgetting one, or replacing its key, takes the other's with it. */
  lemma SharedLineGoes(w: World, blob: Blob, blob': Blob)
    requires Lawful(w) && AlgoFromBlob(blob).Some? && IsWord(AlgoFromBlob(blob).value)
    requires AlgoFromBlob(blob') == AlgoFromBlob(blob)
    ensures var own := SharedLine(w, blob);
      && StatusOf(w, "b", blob, Entries(Files(own, None))) == Match(Bifrossh)
      && Undecided(StatusOf(w, "b", blob, Entries(Files(Removed(w, "a", None, own), None))))
      && Undecided(StatusOf(w, "b", blob, Entries(Files(Replaced(w, "a", blob', own), None))))
  {
    hide AlgoFromBlob, HostMatches, IsWord, Entries, StatusOf, Removed, First, FileLines, Learnt, SharedLine;
    var own, l := SharedLine(w, blob), HostLine(None, "a,b", Encode(w, blob));
    SharedLineReads(w, blob);
    TwoNamed(w);
    RecordedDecides(w, "b", blob, l);
    FirstOfOne(l, Deciding(w, "b", blob));
    VerdictIs(w, "b", blob, Files(own, None));
    SharedLineTaken(w, blob, None);
    SharedLineTaken(w, blob, AlgoFromBlob(blob));
    PlainA();
    LearntElsewhere(w, "a", blob', Files(Removed(w, "a", AlgoFromBlob(blob), own), None), "b", blob);
  }

  lemma PlainA()
    ensures PlainHost("a") && NoWildcards("a") && "a" != "b"
  {
  }

  lemma SharedLineReads(w: World, blob: Blob)
    requires Lawful(w) && AlgoFromBlob(blob).Some? && IsWord(AlgoFromBlob(blob).value)
    ensures FileLines(SharedLine(w, blob)) == [HostLine(None, "a,b", Encode(w, blob))]
  {
    hide AlgoFromBlob, SplitLine, FilterMap, Pieces, Lines, Unlines;
    var line := "a,b" + " " + AlgoFromBlob(blob).value + " " + Encode(w, blob);
    FieldReads(w, "a,b", blob);
    LinesRead(Unlines([line]));
    PiecesOfUnlines([line]);
    FilterMapOne(line);
  }

  lemma SharedLineTaken(w: World, blob: Blob, algo: Option<string>)
    requires Lawful(w) && AlgoFromBlob(blob).Some? && IsWord(AlgoFromBlob(blob).value)
    requires algo in {None, AlgoFromBlob(blob)}
    ensures var own := SharedLine(w, blob);
      Undecided(StatusOf(w, "b", blob, Entries(Files(Removed(w, "a", algo, own), None))))
  {
    hide AlgoFromBlob, HostMatches, IsWord, Entries, StatusOf, Removed, First, FileLines, SharedLine;
    var own := SharedLine(w, blob);
    var l := HostLine(None, "a,b", Encode(w, blob));
    SharedLineReads(w, blob);
    TwoNamed(w);
    assert Decode(w, l.b64) == Some(blob);
    assert Goes(w, "a", algo, l);
    FirstOfOne(l, StayingToDecide(w, "a", algo, "b", blob));
    MatchOutlivesExactly(w, "a", algo, Files(own, None), "b", blob);
    NothingToDecide(w, "b", blob);
  }

  lemma NothingToDecide(w: World, target: string, blob: Blob)
    ensures Decider(w, target, blob, None).None?
  {
  }
}
