/** Merging an export into the vault: each collection in turn, then a second pass over the
    references of what was added. */
module Backup {
  import opened Merge
  import opened Wrappers

  /** A credential under the key it is encrypted with. */
  datatype Secret = Secret(plain: string, key: nat)

  datatype Server = Server(
    id: string, host: string, port: nat, username: Option<string>,
    identityId: Option<string>, keyId: Option<string>, proxyJump: Option<string>,
    password: Option<Secret>, name: string)

  datatype Identity = Identity(id: string, name: string, username: string, keyId: Option<string>,
    password: Option<Secret>)

  datatype KeyEntry = KeyEntry(id: string, name: string, keyPath: Option<string>, key: Option<Secret>,
    passphrase: Option<Secret>)

  datatype Forwarding = Forwarding(
    id: string, title: string, kind: nat, localPort: Option<nat>, destAddress: string, destPort: Option<nat>,
    intermediateHostId: Option<string>, remoteHostId: Option<string>)

  datatype Codeprint = Codeprint(id: string, name: string, command: string)

  predicate SameServer(a: Server, b: Server) {
    a.id == b.id || (a.host == b.host && a.port == b.port && a.username == b.username)
  }

  predicate SameIdentity(a: Identity, b: Identity) {
    a.id == b.id || (a.name == b.name && a.username == b.username)
  }

  predicate SameKey(a: KeyEntry, b: KeyEntry) {
    || a.id == b.id
    || (if a.keyPath.Some? && b.keyPath.Some? then a.keyPath == b.keyPath else a.name == b.name)
  }

  predicate SameForwarding(a: Forwarding, b: Forwarding) {
    || a.id == b.id
    || (a.title == b.title && a.kind == b.kind && a.localPort == b.localPort
        && a.destAddress == b.destAddress && a.destPort == b.destPort)
  }

  predicate SameCodeprint(a: Codeprint, b: Codeprint) {
    a.id == b.id || (a.name == b.name && a.command == b.command)
  }

  const SERVERS: Kind<Server> := Kind((s: Server) => s.id, (a, b) => SameServer(a, b))
  const IDENTITIES: Kind<Identity> := Kind((i: Identity) => i.id, (a, b) => SameIdentity(a, b))
  const KEYS: Kind<KeyEntry> := Kind((k: KeyEntry) => k.id, (a, b) => SameKey(a, b))
  const FORWARDINGS: Kind<Forwarding> := Kind((f: Forwarding) => f.id, (a, b) => SameForwarding(a, b))
  const CODEPRINTS: Kind<Codeprint> := Kind((c: Codeprint) => c.id, (a, b) => SameCodeprint(a, b))

  lemma KindsAreLawful()
    ensures Lawful(SERVERS) && Lawful(IDENTITIES) && Lawful(KEYS) && Lawful(FORWARDINGS) && Lawful(CODEPRINTS)
  {
  }

  datatype Payload = Payload(
    servers: seq<Server>, identities: seq<Identity>, keys: seq<KeyEntry>, forwardings: seq<Forwarding>,
    codeprints: seq<Codeprint>, themes: map<string, string>, settings: Option<string>)

  datatype AppData = AppData(
    servers: seq<Server>, identities: seq<Identity>, keys: seq<KeyEntry>, forwardings: seq<Forwarding>,
    codeprints: seq<Codeprint>, themes: map<string, string>, settings: string)

  datatype Options = Options(
    servers: bool, identities: bool, keys: bool, forwardings: bool, codeprints: bool, themes: bool, settings: bool)

  datatype Counts = Counts(servers: nat, identities: nat, keys: nat, forwardings: nat, codeprints: nat, themes: nat)

  datatype Report = Report(added: Counts, skipped: Counts, unresolved: nat)

  // ---- Moving the secrets across ------------------------------------------------------------------

  function Rekey(field: Option<Secret>, from: nat, to: nat): Option<Secret> {
    if field.Some? && field.value.key == from then Some(Secret(field.value.plain, to)) else None
  }

  function RekeyServers(servers: seq<Server>, from: nat, to: nat): (r: seq<Server>)
    ensures |r| == |servers|
    ensures forall i | 0 <= i < |r| :: r[i] == servers[i].(password := Rekey(servers[i].password, from, to))
  {
    if servers == [] then []
    else [servers[0].(password := Rekey(servers[0].password, from, to))] + RekeyServers(servers[1..], from, to)
  }

  function RekeyIdentities(list: seq<Identity>, from: nat, to: nat): (r: seq<Identity>)
    ensures |r| == |list| && forall i | 0 <= i < |r| :: r[i] == list[i].(password := Rekey(list[i].password, from, to))
  {
    if list == [] then []
    else [list[0].(password := Rekey(list[0].password, from, to))] + RekeyIdentities(list[1..], from, to)
  }

  function RekeyKeys(ks: seq<KeyEntry>, from: nat, to: nat): (r: seq<KeyEntry>)
    ensures |r| == |ks|
    ensures forall i | 0 <= i < |r| ::
      r[i] == ks[i].(key := Rekey(ks[i].key, from, to), passphrase := Rekey(ks[i].passphrase, from, to))
  {
    if ks == [] then []
    else
      [ks[0].(key := Rekey(ks[0].key, from, to), passphrase := Rekey(ks[0].passphrase, from, to))]
        + RekeyKeys(ks[1..], from, to)
  }

  function RekeyAll(p: Payload, from: nat, to: nat): Payload {
    p.(servers := RekeyServers(p.servers, from, to), identities := RekeyIdentities(p.identities, from, to),
       keys := RekeyKeys(p.keys, from, to))
  }

  // ---- References --------------------------------------------------------------------------------------

  type Ids = map<string, string>

  function Resolve(ref: Option<string>, ids: Ids): Option<string> {
    if ref.Some? && ref.value in ids then Some(ids[ref.value]) else None
  }

  function Missed(ref: Option<string>, ids: Ids): nat {
    if ref.Some? && ref.value !in ids then 1 else 0
  }

  datatype Maps = Maps(identities: Ids, keys: Ids, servers: Ids)

  function ResolveServer(s: Server, m: Maps): Server {
    var jump := Resolve(s.proxyJump, m.servers);
    s.(identityId := Resolve(s.identityId, m.identities), keyId := Resolve(s.keyId, m.keys),
       proxyJump := if jump == Some(s.id) then None else jump)
  }

  function MissedOnServer(s: Server, m: Maps): nat {
    Missed(s.identityId, m.identities) + Missed(s.keyId, m.keys) + Missed(s.proxyJump, m.servers)
  }

  function ResolveForwarding(f: Forwarding, m: Maps): Forwarding {
    f.(intermediateHostId := Resolve(f.intermediateHostId, m.servers),
      remoteHostId := Resolve(f.remoteHostId, m.servers))
  }

  function MissedOnForwarding(f: Forwarding, m: Maps): nat {
    Missed(f.intermediateHostId, m.servers) + Missed(f.remoteHostId, m.servers)
  }

  /** The second pass over the servers, for those whose ids are listed. */
  function ResolveServers(servers: seq<Server>, added: seq<string>, m: Maps): (r: seq<Server>)
    ensures |r| == |servers|
    ensures forall i | 0 <= i < |r| ::
      r[i] == if servers[i].id in added then ResolveServer(servers[i], m) else servers[i]
  {
    if servers == [] then []
    else
      [if servers[0].id in added then ResolveServer(servers[0], m) else servers[0]]
        + ResolveServers(servers[1..], added, m)
  }

  function MissedOnServers(servers: seq<Server>, added: seq<string>, m: Maps): nat {
    if servers == [] then 0
    else
      MissedOnServers(servers[..|servers| - 1], added, m)
        + (if servers[|servers| - 1].id in added then MissedOnServer(servers[|servers| - 1], m) else 0)
  }

  function ResolveForwardings(fs: seq<Forwarding>, added: seq<string>, m: Maps): (r: seq<Forwarding>)
    ensures |r| == |fs|
    ensures forall i | 0 <= i < |r| :: r[i] == if fs[i].id in added then ResolveForwarding(fs[i], m) else fs[i]
  {
    if fs == [] then []
    else [if fs[0].id in added then ResolveForwarding(fs[0], m) else fs[0]] + ResolveForwardings(fs[1..], added, m)
  }

  function MissedOnForwardings(fs: seq<Forwarding>, added: seq<string>, m: Maps): nat {
    if fs == [] then 0
    else
      MissedOnForwardings(fs[..|fs| - 1], added, m)
        + (if fs[|fs| - 1].id in added then MissedOnForwarding(fs[|fs| - 1], m) else 0)
  }

  // ---- The whole import -----------------------------------------------------------------------------------

  /** One collection, taken when its option is on. */
  function Taken<T>(on: bool, k: Kind<T>, incoming: seq<T>, current: seq<T>): (m: Merged<T>)
    ensures m.items == current + m.added
  {
    if on then AddAll(k, incoming, current) else Merged(map[], [], 0, current)
  }

  function MapsOf(p: Payload, d: AppData, o: Options): Maps {
    Maps(Taken(o.identities, IDENTITIES, p.identities, d.identities).ids, Taken(o.keys, KEYS, p.keys, d.keys).ids,
         Taken(o.servers, SERVERS, p.servers, d.servers).ids)
  }

  function ServersAfter(p: Payload, d: AppData, o: Options): seq<Server> {
    var m := Taken(o.servers, SERVERS, p.servers, d.servers);
    ResolveServers(m.items, Merge.Ids(SERVERS, m.added), MapsOf(p, d, o))
  }

  function ForwardingsAfter(p: Payload, d: AppData, o: Options): seq<Forwarding> {
    var m := Taken(o.forwardings, FORWARDINGS, p.forwardings, d.forwardings);
    ResolveForwardings(m.items, Merge.Ids(FORWARDINGS, m.added), MapsOf(p, d, o))
  }

  /** The vault after the import of a payload already under the vault's key. */
  function Applied(p: Payload, d: AppData, o: Options): AppData {
    AppData(
      ServersAfter(p, d, o),
      Taken(o.identities, IDENTITIES, p.identities, d.identities).items,
      Taken(o.keys, KEYS, p.keys, d.keys).items,
      ForwardingsAfter(p, d, o),
      Taken(o.codeprints, CODEPRINTS, p.codeprints, d.codeprints).items,
      if o.themes then p.themes + d.themes else d.themes,
      if o.settings && p.settings.Some? then p.settings.value else d.settings)
  }

  function Unresolved(p: Payload, d: AppData, o: Options): nat {
    var s := Taken(o.servers, SERVERS, p.servers, d.servers);
    var f := Taken(o.forwardings, FORWARDINGS, p.forwardings, d.forwardings);
    var m := MapsOf(p, d, o);
    MissedOnServers(s.items, Merge.Ids(SERVERS, s.added), m)
      + MissedOnForwardings(f.items, Merge.Ids(FORWARDINGS, f.added), m)
  }

  function Skipped(p: Payload, d: AppData, o: Options): Counts {
    Counts(Taken(o.servers, SERVERS, p.servers, d.servers).skipped,
           Taken(o.identities, IDENTITIES, p.identities, d.identities).skipped,
           Taken(o.keys, KEYS, p.keys, d.keys).skipped,
           Taken(o.forwardings, FORWARDINGS, p.forwardings, d.forwardings).skipped,
           Taken(o.codeprints, CODEPRINTS, p.codeprints, d.codeprints).skipped,
           if o.themes then |p.themes.Keys * d.themes.Keys| else 0)
  }

  function AddedCounts(p: Payload, d: AppData, o: Options): Counts {
    Counts(|Taken(o.servers, SERVERS, p.servers, d.servers).added|,
           |Taken(o.identities, IDENTITIES, p.identities, d.identities).added|,
           |Taken(o.keys, KEYS, p.keys, d.keys).added|,
           |Taken(o.forwardings, FORWARDINGS, p.forwardings, d.forwardings).added|,
           |Taken(o.codeprints, CODEPRINTS, p.codeprints, d.codeprints).added|,
           if o.themes then |p.themes.Keys - d.themes.Keys| else 0)
  }

  lemma CountsOf(p: Payload, d: AppData, o: Options)
    ensures var s, i, k, f, c :=
              Taken(o.servers, SERVERS, p.servers, d.servers),
              Taken(o.identities, IDENTITIES, p.identities, d.identities),
              Taken(o.keys, KEYS, p.keys, d.keys), Taken(o.forwardings, FORWARDINGS, p.forwardings, d.forwardings),
              Taken(o.codeprints, CODEPRINTS, p.codeprints, d.codeprints);
            && MapsOf(p, d, o) == Maps(i.ids, k.ids, s.ids)
            && AddedCounts(p, d, o) == Counts(|s.added|, |i.added|, |k.added|, |f.added|, |c.added|,
                                              if o.themes then |p.themes.Keys - d.themes.Keys| else 0)
            && Skipped(p, d, o) == Counts(s.skipped, i.skipped, k.skipped, f.skipped, c.skipped,
                                          if o.themes then |p.themes.Keys * d.themes.Keys| else 0)
  {
    hide Taken;
  }

  class Vault {
    var servers: seq<Server>
    var identities: seq<Identity>
    var keys: seq<KeyEntry>
    var forwardings: seq<Forwarding>
    var codeprints: seq<Codeprint>
    var themes: map<string, string>
    var settings: string

    function Contents(): AppData
      reads this
    {
      AppData(servers, identities, keys, forwardings, codeprints, themes, settings)
    }

    lemma ContentsAre(d: AppData)
      requires d == AppData(servers, identities, keys, forwardings, codeprints, themes, settings)
      ensures Contents() == d
    {
    }

    constructor (d: AppData)
      ensures Contents() == d
    {
      servers, identities, keys, forwardings := d.servers, d.identities, d.keys, d.forwardings;
      codeprints, themes, settings := d.codeprints, d.themes, d.settings;
    }

    /** Rewrites the references on the servers just added, counting the ones that led nowhere. */
    method PointServers(added: seq<string>, m: Maps) returns (missed: nat)
      modifies this`servers
      ensures servers == ResolveServers(old(servers), added, m)
      ensures missed == MissedOnServers(old(servers), added, m)
    {
      missed := 0;
      var n := 0;
      ghost var was := servers;
      while n < |servers|
        invariant n <= |servers| == |was|
        invariant forall i | 0 <= i < n :: servers[i] == if was[i].id in added then ResolveServer(was[i], m) else was[i]
        invariant forall i | n <= i < |was| :: servers[i] == was[i]
        invariant missed == MissedOnServers(was[..n], added, m)
      {
        assert was[..n + 1][..n] == was[..n];
        if servers[n].id in added {
          missed := missed + MissedOnServer(servers[n], m);
          servers := servers[n := ResolveServer(servers[n], m)];
        }
        n := n + 1;
      }
      assert was[..n] == was;
    }

    method PointForwardings(added: seq<string>, m: Maps) returns (missed: nat)
      modifies this`forwardings
      ensures forwardings == ResolveForwardings(old(forwardings), added, m)
      ensures missed == MissedOnForwardings(old(forwardings), added, m)
    {
      missed := 0;
      var n := 0;
      ghost var was := forwardings;
      while n < |forwardings|
        invariant n <= |forwardings| == |was|
        invariant forall i | 0 <= i < n ::
          forwardings[i] == if was[i].id in added then ResolveForwarding(was[i], m) else was[i]
        invariant forall i | n <= i < |was| :: forwardings[i] == was[i]
        invariant missed == MissedOnForwardings(was[..n], added, m)
      {
        assert was[..n + 1][..n] == was[..n];
        if forwardings[n].id in added {
          missed := missed + MissedOnForwarding(forwardings[n], m);
          forwardings := forwardings[n := ResolveForwarding(forwardings[n], m)];
        }
        n := n + 1;
      }
      assert was[..n] == was;
    }

    /** Merges one collection when its option is on. */
    method Take<T>(on: bool, k: Kind<T>, incoming: seq<T>, current: seq<T>)
      returns (items: seq<T>, ids: Ids, added: seq<string>, skipped: nat)
      ensures var m := Taken(on, k, incoming, current);
        items == m.items && ids == m.ids && added == Merge.Ids(k, m.added) && skipped == m.skipped
    {
      items, ids, added, skipped := current, map[], [], 0;
      if on {
        var c := new Collection(current);
        ids, added, skipped := c.MergeInto(k, incoming);
        items := c.items;
      }
    }

    method TakeThemes(on: bool, incoming: map<string, string>) returns (added: nat, skipped: nat)
      modifies this`themes
      ensures themes == if on then incoming + old(themes) else old(themes)
      ensures added == if on then |incoming.Keys - old(themes).Keys| else 0
      ensures skipped == if on then |incoming.Keys * old(themes).Keys| else 0
    {
      added, skipped := 0, 0;
      if on {
        added, skipped := |incoming.Keys - themes.Keys|, |incoming.Keys * themes.Keys|;
        themes := incoming + themes;
      }
    }

    /** The first pass: adds what is missing, and says where every imported id ended up. */
    method TakeAll(p: Payload, o: Options) returns (m: Maps, sa: seq<string>, fa: seq<string>, added: Counts,
        skipped: Counts)
      modifies this`servers, this`identities, this`keys, this`forwardings, this`codeprints, this`themes
      ensures m == MapsOf(p, old(Contents()), o)
      ensures var t := Taken(o.servers, SERVERS, p.servers, old(servers));
        servers == t.items && sa == Merge.Ids(SERVERS, t.added)
      ensures var t := Taken(o.forwardings, FORWARDINGS, p.forwardings, old(forwardings));
        forwardings == t.items && fa == Merge.Ids(FORWARDINGS, t.added)
      ensures identities == Taken(o.identities, IDENTITIES, p.identities, old(identities)).items
      ensures keys == Taken(o.keys, KEYS, p.keys, old(keys)).items
      ensures codeprints == Taken(o.codeprints, CODEPRINTS, p.codeprints, old(codeprints)).items
      ensures themes == if o.themes then p.themes + old(themes) else old(themes)
      ensures added == AddedCounts(p, old(Contents()), o) && skipped == Skipped(p, old(Contents()), o)
    {
      hide Taken, Merge.Ids, MapsOf, AddedCounts, Skipped, Contents;
      ghost var d := AppData(servers, identities, keys, forwardings, codeprints, themes, settings);
      ContentsAre(d);
      CountsOf(p, d, o);
      var ii, im, ia, isk := Take(o.identities, IDENTITIES, p.identities, identities);
      var ks, km, ka, ksk := Take(o.keys, KEYS, p.keys, keys);
      var ss, sm, added1, ssk := Take(o.servers, SERVERS, p.servers, servers);
      var fs, fm, added2, fsk := Take(o.forwardings, FORWARDINGS, p.forwardings, forwardings);
      var cs, cm, ca, csk := Take(o.codeprints, CODEPRINTS, p.codeprints, codeprints);
      identities, keys, servers, forwardings, codeprints := ii, ks, ss, fs, cs;
      var ta, tsk := TakeThemes(o.themes, p.themes);
      m, sa, fa := Maps(im, km, sm), added1, added2;
      added := Counts(|sa|, |ia|, |ka|, |fa|, |ca|, ta);
      skipped := Counts(ssk, isk, ksk, fsk, csk, tsk);
    }

    /** `apply_merge`. */
    method ApplyMerge(payload: Payload, exportKey: nat, master: nat, o: Options) returns (r: Report)
      modifies this
      ensures var p := RekeyAll(payload, exportKey, master);
        && Contents() == Applied(p, old(Contents()), o)
        && r == Report(AddedCounts(p, old(Contents()), o), Skipped(p, old(Contents()), o),
          Unresolved(p, old(Contents()), o))
    {
      hide Taken, RekeyAll, ResolveServers, ResolveForwardings, MissedOnServers, MissedOnForwardings, Merge.Ids;
      hide MapsOf, AddedCounts, Skipped;
      var p := RekeyAll(payload, exportKey, master);
      var m, sa, fa, added, skipped := TakeAll(p, o);
      var missed := PointServers(sa, m);
      var alsoMissed := PointForwardings(fa, m);
      if o.settings && p.settings.Some? {
        settings := p.settings.value;
      }
      r := Report(added, skipped, missed + alsoMissed);
    }
  }

  // ---- Existing records are untouched, references lead somewhere -------------------------------------

  lemma TakenIsNew<T(!new)>(on: bool, k: Kind<T>, incoming: seq<T>, current: seq<T>)
    requires Lawful(k)
    ensures var m := Taken(on, k, incoming, current);
      && AllNew(k, incoming, current, m.added)
      && (forall i, j | 0 <= i < |current| && 0 <= j < |m.added| :: k.id(current[i]) != k.id(m.added[j]))
      && (forall i, j | 0 <= i < j < |m.added| :: k.id(m.added[i]) != k.id(m.added[j]))
  {
    if on {
      AddedIsNew(k, incoming, current);
      var added := AddAll(k, incoming, current).added;
      forall i, j | 0 <= i < |current| && 0 <= j < |added| ensures k.id(current[i]) != k.id(added[j]) {
        assert !Has(k, current, added[j]);
      }
    }
  }

  lemma IdsApart<T(!new)>(k: Kind<T>, current: seq<T>, added: seq<T>, ids: seq<string>)
    requires ids == Merge.Ids(k, added)
    requires forall i, j | 0 <= i < |current| && 0 <= j < |added| :: k.id(current[i]) != k.id(added[j])
    ensures forall x | x in added :: k.id(x) in ids
    ensures forall x | x in current :: k.id(x) !in ids
  {
    forall x | x in added ensures k.id(x) in ids {
      var i :| 0 <= i < |added| && added[i] == x;
      assert ids[i] == k.id(x);
    }
  }

  lemma ServersInTwoParts(current: seq<Server>, added: seq<Server>, ids: seq<string>, m: Maps)
    requires forall x | x in added :: x.id in ids
    requires forall x | x in current :: x.id !in ids
    ensures var after := ResolveServers(current + added, ids, m);
      && after[..|current|] == current
      && forall j | 0 <= j < |added| :: after[|current| + j] == ResolveServer(added[j], m)
  {
    hide ResolveServers, ResolveServer;
    var all := current + added;
    forall i | 0 <= i < |current| ensures all[i] == current[i] && all[i].id !in ids {
      assert current[i] in current;
    }
    forall j | 0 <= j < |added| ensures all[|current| + j] == added[j] && added[j].id in ids {
      assert added[j] in added;
    }
  }

  /** The servers afterwards: those that were there as they were, then the added ones resolved. */
  lemma ServersAfterAre(p: Payload, d: AppData, o: Options)
    ensures var added := Taken(o.servers, SERVERS, p.servers, d.servers).added; var after := Applied(p, d, o).servers;
      && |after| == |d.servers| + |added| && after[..|d.servers|] == d.servers
      && forall j | 0 <= j < |added| :: after[|d.servers| + j] == ResolveServer(added[j], MapsOf(p, d, o))
  {
    hide Taken, MapsOf, AllNew, Merge.Ids, ResolveServer, ResolveServers, Lawful;
    KindsAreLawful();
    TakenIsNew(o.servers, SERVERS, p.servers, d.servers);
    var t := Taken(o.servers, SERVERS, p.servers, d.servers);
    var ids := Merge.Ids(SERVERS, t.added);
    IdsApart(SERVERS, d.servers, t.added, ids);
    assert forall x: Server :: SERVERS.id(x) == x.id;
    ServersInTwoParts(d.servers, t.added, ids, MapsOf(p, d, o));
  }

  lemma ForwardingsInTwoParts(current: seq<Forwarding>, added: seq<Forwarding>, ids: seq<string>, m: Maps)
    requires forall x | x in added :: x.id in ids
    requires forall x | x in current :: x.id !in ids
    ensures var after := ResolveForwardings(current + added, ids, m);
      && after[..|current|] == current
      && forall j | 0 <= j < |added| :: after[|current| + j] == ResolveForwarding(added[j], m)
  {
    hide ResolveForwardings, ResolveForwarding;
    var all := current + added;
    forall i | 0 <= i < |current| ensures all[i] == current[i] && all[i].id !in ids {
      assert current[i] in current;
    }
    forall j | 0 <= j < |added| ensures all[|current| + j] == added[j] && added[j].id in ids {
      assert added[j] in added;
    }
  }

  lemma ForwardingsAfterAre(p: Payload, d: AppData, o: Options)
    ensures var added := Taken(o.forwardings, FORWARDINGS, p.forwardings, d.forwardings).added;
      var after := Applied(p, d, o).forwardings;
      && |after| == |d.forwardings| + |added| && after[..|d.forwardings|] == d.forwardings
      && forall j | 0 <= j < |added| :: after[|d.forwardings| + j] == ResolveForwarding(added[j], MapsOf(p, d, o))
  {
    hide Taken, MapsOf, AllNew, Merge.Ids, ResolveForwarding, ResolveForwardings, Lawful;
    KindsAreLawful();
    TakenIsNew(o.forwardings, FORWARDINGS, p.forwardings, d.forwardings);
    var t := Taken(o.forwardings, FORWARDINGS, p.forwardings, d.forwardings);
    var ids := Merge.Ids(FORWARDINGS, t.added);
    IdsApart(FORWARDINGS, d.forwardings, t.added, ids);
    assert forall x: Forwarding :: FORWARDINGS.id(x) == x.id;
    ForwardingsInTwoParts(d.forwardings, t.added, ids, MapsOf(p, d, o));
  }

  /** Never overwrites and never deletes: every collection starts with what it was. */
  lemma ExistingUntouched(p: Payload, d: AppData, o: Options)
    ensures var after := Applied(p, d, o);
      && d.servers <= after.servers && d.identities <= after.identities && d.keys <= after.keys
      && d.forwardings <= after.forwardings && d.codeprints <= after.codeprints
      && forall name | name in d.themes :: name in after.themes && after.themes[name] == d.themes[name]
  {
    ServersAfterAre(p, d, o);
    ForwardingsAfterAre(p, d, o);
  }

  predicate Leads<T>(k: Kind<T>, items: seq<T>, ref: Option<string>) {
    ref.None? || Names(k, items, ref.value)
  }

  lemma ResolvedLeads<T(!new)>(on: bool, k: Kind<T>, incoming: seq<T>, current: seq<T>, ref: Option<string>)
    ensures var m := Taken(on, k, incoming, current); Leads(k, m.items, Resolve(ref, m.ids))
  {
    if on {
      EveryIdLands(k, incoming, current);
    }
  }

  lemma ServerNamesStay(p: Payload, d: AppData, o: Options, ref: Option<string>)
    requires Leads(SERVERS, Taken(o.servers, SERVERS, p.servers, d.servers).items, ref)
    ensures Leads(SERVERS, Applied(p, d, o).servers, ref)
  {
    var items, after := Taken(o.servers, SERVERS, p.servers, d.servers).items, Applied(p, d, o).servers;
    if ref.Some? {
      var i :| 0 <= i < |items| && SERVERS.id(items[i]) == ref.value;
      assert SERVERS.id(after[i]) == ref.value;
    }
  }

  /** Every reference on an added server or forwarding is empty or names a record of the vault. */
  lemma ReferencesLead(p: Payload, d: AppData, o: Options)
    ensures var after := Applied(p, d, o);
      && (forall i | |d.servers| <= i < |after.servers| ::
            && Leads(IDENTITIES, after.identities, after.servers[i].identityId)
            && Leads(KEYS, after.keys, after.servers[i].keyId)
            && Leads(SERVERS, after.servers, after.servers[i].proxyJump))
      && (forall i | |d.forwardings| <= i < |after.forwardings| ::
            && Leads(SERVERS, after.servers, after.forwardings[i].intermediateHostId)
            && Leads(SERVERS, after.servers, after.forwardings[i].remoteHostId))
  {
    ServersAfterAre(p, d, o);
    ForwardingsAfterAre(p, d, o);
    var after, m := Applied(p, d, o), MapsOf(p, d, o);
    hide Taken, ServersAfter, ForwardingsAfter;
    forall i | |d.servers| <= i < |after.servers|
      ensures Leads(IDENTITIES, after.identities, after.servers[i].identityId)
      ensures Leads(KEYS, after.keys, after.servers[i].keyId)
      ensures Leads(SERVERS, after.servers, after.servers[i].proxyJump)
    {
      var s := Taken(o.servers, SERVERS, p.servers, d.servers).added[i - |d.servers|];
      ResolvedLeads(o.identities, IDENTITIES, p.identities, d.identities, s.identityId);
      ResolvedLeads(o.keys, KEYS, p.keys, d.keys, s.keyId);
      ResolvedLeads(o.servers, SERVERS, p.servers, d.servers, s.proxyJump);
      ServerNamesStay(p, d, o, Resolve(s.proxyJump, m.servers));
    }
    forall i | |d.forwardings| <= i < |after.forwardings|
      ensures Leads(SERVERS, after.servers, after.forwardings[i].intermediateHostId)
      ensures Leads(SERVERS, after.servers, after.forwardings[i].remoteHostId)
    {
      var f := Taken(o.forwardings, FORWARDINGS, p.forwardings, d.forwardings).added[i - |d.forwardings|];
      ResolvedLeads(o.servers, SERVERS, p.servers, d.servers, f.intermediateHostId);
      ResolvedLeads(o.servers, SERVERS, p.servers, d.servers, f.remoteHostId);
      ServerNamesStay(p, d, o, Resolve(f.intermediateHostId, m.servers));
      ServerNamesStay(p, d, o, Resolve(f.remoteHostId, m.servers));
    }
  }

  // ---- References name what they named --------------------------------------------------------------

  /** A reference of an import and what became of it: gone if it named nothing there; else the id of the
      first record of the vault that is the same as the one it named. */
  ghost predicate Redirected<T>(k: Kind<T>, incoming: seq<T>, items: seq<T>, was: Option<string>,
      now: Option<string>)
  {
    if was.None? || !Names(k, incoming, was.value) then now == None
    else
      exists i, n | LastWithId(k, incoming, i) && FirstSame(k, items, incoming[i], n) ::
        k.id(incoming[i]) == was.value && now == Some(k.id(items[n]))
  }

  lemma {:induction false} LastOfId<T>(k: Kind<T>, incoming: seq<T>, id: string) returns (i: nat)
    requires Names(k, incoming, id)
    ensures LastWithId(k, incoming, i) && k.id(incoming[i]) == id
  {
    var before := incoming[..|incoming| - 1];
    if k.id(incoming[|incoming| - 1]) == id {
      i := |incoming| - 1;
    } else {
      var j :| 0 <= j < |incoming| && k.id(incoming[j]) == id;
      assert before[j] == incoming[j];
      i := LastOfId(k, before, id);
    }
  }

  /** What an option lets in. */
  function Offered<T>(on: bool, incoming: seq<T>): seq<T> {
    if on then incoming else []
  }

  lemma ResolvedIsRedirected<T(!new)>(on: bool, k: Kind<T>, incoming: seq<T>, current: seq<T>, ref: Option<string>)
    requires Lawful(k)
    ensures var m := Taken(on, k, incoming, current);
      Redirected(k, Offered(on, incoming), m.items, ref, Resolve(ref, m.ids))
  {
    if on {
      EveryIdLands(k, incoming, current);
      if ref.Some? && Names(k, incoming, ref.value) {
        var i := LastOfId(k, incoming, ref.value);
        var n := IdsLeadToTheSame(k, incoming, current, i);
      }
    }
  }

  /** The same among records told apart alike. */
  lemma RedirectedAlike<T(!new)>(k: Kind<T>, incoming: seq<T>, items: seq<T>, now: seq<T>, was: Option<string>,
      ref: Option<string>)
    requires Redirected(k, incoming, items, was, ref)
    requires |now| == |items| && forall i, x: T | 0 <= i < |now| :: k.same(x, now[i]) <==> k.same(x, items[i])
    requires forall i | 0 <= i < |now| :: k.id(now[i]) == k.id(items[i])
    ensures Redirected(k, incoming, now, was, ref)
  {
    if was.Some? && Names(k, incoming, was.value) {
      var i, n :| LastWithId(k, incoming, i) && FirstSame(k, items, incoming[i], n)
        && k.id(incoming[i]) == was.value && ref == Some(k.id(items[n]));
      assert FirstSame(k, now, incoming[i], n);
    }
  }

  /** A server of an import as it is in the vault afterwards: itself, with each reference redirected and
      no jump to itself. */
  ghost predicate ArrivedAs(p: Payload, o: Options, after: AppData, s: Server, t: Server) {
    && t == s.(identityId := t.identityId, keyId := t.keyId, proxyJump := t.proxyJump)
    && Redirected(IDENTITIES, Offered(o.identities, p.identities), after.identities, s.identityId, t.identityId)
    && Redirected(KEYS, Offered(o.keys, p.keys), after.keys, s.keyId, t.keyId)
    && exists jump :: Redirected(SERVERS, Offered(o.servers, p.servers), after.servers, s.proxyJump, jump)
                   && t.proxyJump == if jump == Some(s.id) then None else jump
  }

  ghost predicate ForwardingArrivedAs(p: Payload, o: Options, after: AppData, f: Forwarding, g: Forwarding) {
    && g == f.(intermediateHostId := g.intermediateHostId, remoteHostId := g.remoteHostId)
    && Redirected(SERVERS, Offered(o.servers, p.servers), after.servers, f.intermediateHostId, g.intermediateHostId)
    && Redirected(SERVERS, Offered(o.servers, p.servers), after.servers, f.remoteHostId, g.remoteHostId)
  }

  lemma ServerReferenceLands(p: Payload, d: AppData, o: Options, ref: Option<string>)
    ensures Redirected(SERVERS, Offered(o.servers, p.servers), Applied(p, d, o).servers, ref,
                       Resolve(ref, MapsOf(p, d, o).servers))
  {
    KindsAreLawful();
    ResolvingKeepsSameness(p, d, o);
    ResolvedIsRedirected(o.servers, SERVERS, p.servers, d.servers, ref);
    assert MapsOf(p, d, o).servers == Taken(o.servers, SERVERS, p.servers, d.servers).ids;
    ResolvingKeepsIds(p, d, o);
    hide Taken, Redirected, Applied, Resolve, MapsOf, Lawful;
    RedirectedAlike(SERVERS, Offered(o.servers, p.servers), Taken(o.servers, SERVERS, p.servers, d.servers).items,
                    Applied(p, d, o).servers, ref, Resolve(ref, MapsOf(p, d, o).servers));
  }

  lemma ResolvingKeepsIds(p: Payload, d: AppData, o: Options)
    ensures var items, now := Taken(o.servers, SERVERS, p.servers, d.servers).items, Applied(p, d, o).servers;
      |now| == |items| && forall i | 0 <= i < |now| :: SERVERS.id(now[i]) == SERVERS.id(items[i])
  {
    hide Taken, MapsOf, Merge.Ids;
  }

  lemma AddedServerArrives(p: Payload, d: AppData, o: Options, s: Server)
    ensures ArrivedAs(p, o, Applied(p, d, o), s, ResolveServer(s, MapsOf(p, d, o)))
  {
    KindsAreLawful();
    ResolvedIsRedirected(o.identities, IDENTITIES, p.identities, d.identities, s.identityId);
    ResolvedIsRedirected(o.keys, KEYS, p.keys, d.keys, s.keyId);
    ServerReferenceLands(p, d, o, s.proxyJump);
    hide Taken, Redirected, Resolve, ServersAfter, ForwardingsAfter, Lawful;
  }

  lemma AddedForwardingsAre(p: Payload, d: AppData, o: Options, i: nat) returns (f: Forwarding)
    requires |d.forwardings| <= i < |Applied(p, d, o).forwardings|
    ensures f in p.forwardings && Applied(p, d, o).forwardings[i] == ResolveForwarding(f, MapsOf(p, d, o))
  {
    hide Applied, Taken, MapsOf, ResolveForwarding, Has, Lawful;
    KindsAreLawful();
    ForwardingsAfterAre(p, d, o);
    TakenIsNew(o.forwardings, FORWARDINGS, p.forwardings, d.forwardings);
    f := Taken(o.forwardings, FORWARDINGS, p.forwardings, d.forwardings).added[i - |d.forwardings|];
    assert i == |d.forwardings| + (i - |d.forwardings|);
  }

  lemma ServerArrived(p: Payload, d: AppData, o: Options, i: nat) returns (s: Server)
    requires |d.servers| <= i < |Applied(p, d, o).servers|
    ensures s in p.servers && ArrivedAs(p, o, Applied(p, d, o), s, Applied(p, d, o).servers[i])
  {
    hide Applied, Taken, MapsOf, ArrivedAs, ResolveServer, Has;
    LaterServersAre(p, d, o);
    var n := |d.servers|;
    assert Applied(p, d, o).servers[i] == Applied(p, d, o).servers[n..][i - n];
    s := Taken(o.servers, SERVERS, p.servers, d.servers).added[i - n];
    AddedServerArrives(p, d, o, s);
  }

  lemma ForwardingArrived(p: Payload, d: AppData, o: Options, i: nat) returns (f: Forwarding)
    requires |d.forwardings| <= i < |Applied(p, d, o).forwardings|
    ensures f in p.forwardings && ForwardingArrivedAs(p, o, Applied(p, d, o), f, Applied(p, d, o).forwardings[i])
  {
    hide Applied, Taken, MapsOf, Redirected, Resolve;
    f := AddedForwardingsAre(p, d, o, i);
    ServerReferenceLands(p, d, o, f.intermediateHostId);
    ServerReferenceLands(p, d, o, f.remoteHostId);
  }

  ghost predicate SomeServerArrivedAs(p: Payload, o: Options, after: AppData, t: Server) {
    exists s :: s in p.servers && ArrivedAs(p, o, after, s, t)
  }

  ghost predicate SomeForwardingArrivedAs(p: Payload, o: Options, after: AppData, g: Forwarding) {
    exists f :: f in p.forwardings && ForwardingArrivedAs(p, o, after, f, g)
  }

  /** Every server and forwarding that was added is one of the import, and jumps through, logs in as,
      opens with and leads to what it did there, or what is the same here. */
  lemma ReferencesNameTheSame(p: Payload, d: AppData, o: Options)
    ensures var after := Applied(p, d, o);
      && (forall i | |d.servers| <= i < |after.servers| :: SomeServerArrivedAs(p, o, after, after.servers[i]))
      && (forall i | |d.forwardings| <= i < |after.forwardings| ::
            SomeForwardingArrivedAs(p, o, after, after.forwardings[i]))
  {
    hide Applied, ArrivedAs, ForwardingArrivedAs;
    var after := Applied(p, d, o);
    forall i | |d.servers| <= i < |after.servers| ensures SomeServerArrivedAs(p, o, after, after.servers[i]) {
      var s := ServerArrived(p, d, o, i);
    }
    forall i | |d.forwardings| <= i < |after.forwardings|
      ensures SomeForwardingArrivedAs(p, o, after, after.forwardings[i])
    {
      var f := ForwardingArrived(p, d, o, i);
    }
  }

  // ---- Secrets open here as they did there ------------------------------------------------------------

  function Opens(field: Option<Secret>, key: nat): Option<string> {
    if field.Some? && field.value.key == key then Some(field.value.plain) else None
  }

  /** A secret under one key that opens to what it did under the other, or is gone if it did not open. */
  predicate Carried(was: Option<Secret>, from: nat, now: Option<Secret>, to: nat) {
    Opens(now, to) == Opens(was, from) && (now.Some? <==> Opens(was, from).Some?)
  }

  ghost predicate ServerCarried(p: Payload, from: nat, to: nat, t: Server) {
    exists s :: s in p.servers && Carried(s.password, from, t.password, to)
      && t == s.(identityId := t.identityId, keyId := t.keyId, proxyJump := t.proxyJump, password := t.password)
  }

  ghost predicate IdentityCarried(p: Payload, from: nat, to: nat, t: Identity) {
    exists s :: s in p.identities && t == s.(password := t.password) && Carried(s.password, from, t.password, to)
  }

  ghost predicate KeyCarried(p: Payload, from: nat, to: nat, t: KeyEntry) {
    exists s :: s in p.keys && t == s.(key := t.key, passphrase := t.passphrase)
      && Carried(s.key, from, t.key, to) && Carried(s.passphrase, from, t.passphrase, to)
  }

  lemma TakenFrom<T(!new)>(on: bool, k: Kind<T>, incoming: seq<T>, current: seq<T>, i: nat)
    requires Lawful(k) && |current| <= i < |Taken(on, k, incoming, current).items|
    ensures Taken(on, k, incoming, current).items[i] in incoming
  {
    TakenIsNew(on, k, incoming, current);
    var m := Taken(on, k, incoming, current);
    assert m.items[i] == m.added[i - |current|];
  }

  /** What an import adds is the export's, every secret of it under the vault's key and opening to what it
      opened to under the export's. */
  lemma SecretsComeAcross(p: Payload, d: AppData, from: nat, to: nat, o: Options)
    ensures var after := Applied(RekeyAll(p, from, to), d, o);
      && (forall i | |d.servers| <= i < |after.servers| :: ServerCarried(p, from, to, after.servers[i]))
      && (forall i | |d.identities| <= i < |after.identities| :: IdentityCarried(p, from, to, after.identities[i]))
      && (forall i | |d.keys| <= i < |after.keys| :: KeyCarried(p, from, to, after.keys[i]))
  {
    hide Applied, RekeyAll, ServerCarried, IdentityCarried, KeyCarried;
    var after := Applied(RekeyAll(p, from, to), d, o);
    forall i | |d.servers| <= i < |after.servers| ensures ServerCarried(p, from, to, after.servers[i]) {
      ServerIsCarried(p, d, from, to, o, i);
    }
    forall i | |d.identities| <= i < |after.identities| ensures IdentityCarried(p, from, to, after.identities[i]) {
      IdentityIsCarried(p, d, from, to, o, i);
    }
    forall i | |d.keys| <= i < |after.keys| ensures KeyCarried(p, from, to, after.keys[i]) {
      KeyIsCarried(p, d, from, to, o, i);
    }
  }

  lemma RestOf(p: Payload, d: AppData, o: Options)
    ensures Applied(p, d, o).identities == Taken(o.identities, IDENTITIES, p.identities, d.identities).items
    ensures Applied(p, d, o).keys == Taken(o.keys, KEYS, p.keys, d.keys).items
  {
    hide Taken, ServersAfter, ForwardingsAfter;
  }

  lemma IdentityIsCarried(p: Payload, d: AppData, from: nat, to: nat, o: Options, i: nat)
    requires |d.identities| <= i < |Applied(RekeyAll(p, from, to), d, o).identities|
    ensures IdentityCarried(p, from, to, Applied(RekeyAll(p, from, to), d, o).identities[i])
  {
    hide Taken, Applied, Lawful;
    KindsAreLawful();
    var r := RekeyAll(p, from, to);
    RestOf(r, d, o);
    TakenFrom(o.identities, IDENTITIES, r.identities, d.identities, i);
    var j :| 0 <= j < |r.identities| && r.identities[j] == Applied(r, d, o).identities[i];
    assert p.identities[j] in p.identities;
  }

  lemma KeyIsCarried(p: Payload, d: AppData, from: nat, to: nat, o: Options, i: nat)
    requires |d.keys| <= i < |Applied(RekeyAll(p, from, to), d, o).keys|
    ensures KeyCarried(p, from, to, Applied(RekeyAll(p, from, to), d, o).keys[i])
  {
    hide Taken, Applied, Lawful, RekeyAll, KeyCarried;
    KindsAreLawful();
    var r := RekeyAll(p, from, to);
    RestOf(r, d, o);
    TakenFrom(o.keys, KEYS, r.keys, d.keys, i);
    var j :| 0 <= j < |r.keys| && r.keys[j] == Applied(r, d, o).keys[i];
    RekeyedKey(p, from, to, j);
  }

  lemma RekeyedKey(p: Payload, from: nat, to: nat, j: nat)
    requires j < |RekeyAll(p, from, to).keys|
    ensures KeyCarried(p, from, to, RekeyAll(p, from, to).keys[j])
  {
    var s, t := p.keys[j], RekeyAll(p, from, to).keys[j];
    assert s in p.keys && t == s.(key := t.key, passphrase := t.passphrase);
  }

  lemma ServerIsCarried(p: Payload, d: AppData, from: nat, to: nat, o: Options, i: nat)
    requires |d.servers| <= i < |Applied(RekeyAll(p, from, to), d, o).servers|
    ensures ServerCarried(p, from, to, Applied(RekeyAll(p, from, to), d, o).servers[i])
  {
    hide Applied, Redirected;
    var r := RekeyAll(p, from, to);
    var s := ServerArrived(r, d, o, i);
    var j :| 0 <= j < |r.servers| && r.servers[j] == s;
    assert p.servers[j] in p.servers;
  }

  // ---- Everything is there, and nothing twice ----------------------------------------------------------

  predicate OneLogin(a: Server, b: Server) {
    a.host == b.host && a.port == b.port && a.username == b.username
  }

  predicate OneName(a: Identity, b: Identity) {
    a.name == b.name && a.username == b.username
  }

  /** Of one file when both say which, else of one name. */
  predicate OneKey(a: KeyEntry, b: KeyEntry) {
    if a.keyPath == None || b.keyPath == None then a.name == b.name else a.keyPath == b.keyPath
  }

  /** The same but for the ids and the servers they go through. */
  predicate OneTunnel(a: Forwarding, b: Forwarding) {
    a == b.(id := a.id, intermediateHostId := a.intermediateHostId, remoteHostId := a.remoteHostId)
  }

  predicate OneCommand(a: Codeprint, b: Codeprint) {
    a == b.(id := a.id)
  }

  /** What is taken is there afterwards or one that is the same, and nothing taken is the same as what
      stands before it. */
  lemma ThereOnce<T(!new)>(on: bool, k: Kind<T>, incoming: seq<T>, current: seq<T>, now: seq<T>)
    requires Lawful(k) && Alike(k, Taken(on, k, incoming, current).items, now)
    ensures on ==> forall x | x in incoming :: exists y | y in now :: k.same(x, y)
    ensures forall i, j | 0 <= i < j < |now| && |current| <= j :: !k.same(now[j], now[i])
  {
    var items, added := Taken(on, k, incoming, current).items, Taken(on, k, incoming, current).added;
    if on {
      EveryRecordIsThere(k, incoming, current);
      forall x | x in incoming ensures exists y | y in now :: k.same(x, y) {
        var i :| 0 <= i < |incoming| && incoming[i] == x;
        assert Has(k, items, x);
        var j :| 0 <= j < |items| && k.same(x, items[j]);
        assert now[j] in now && k.same(x, now[j]);
      }
    }
    TakenIsNew(on, k, incoming, current);
    forall i, j | 0 <= i < j < |now| && |current| <= j ensures !k.same(now[j], now[i]) {
      var e := items[i];
      assert items[j] == added[j - |current|];
      assert i < |current| ==> e == current[i];
      assert i >= |current| ==> e == added[i - |current|];
      assert !k.same(items[j], e);
    }
  }

  lemma ResolvingIsAlike(p: Payload, d: AppData, o: Options)
    ensures Alike(SERVERS, Taken(o.servers, SERVERS, p.servers, d.servers).items, Applied(p, d, o).servers)
    ensures Alike(FORWARDINGS, Taken(o.forwardings, FORWARDINGS, p.forwardings, d.forwardings).items,
                  Applied(p, d, o).forwardings)
  {
    hide Taken, MapsOf, Merge.Ids;
  }

  lemma TheRestIsTaken(p: Payload, d: AppData, o: Options)
    ensures Alike(IDENTITIES, Taken(o.identities, IDENTITIES, p.identities, d.identities).items,
                  Applied(p, d, o).identities)
    ensures Alike(KEYS, Taken(o.keys, KEYS, p.keys, d.keys).items, Applied(p, d, o).keys)
    ensures Alike(CODEPRINTS, Taken(o.codeprints, CODEPRINTS, p.codeprints, d.codeprints).items,
                  Applied(p, d, o).codeprints)
  {
    hide Taken, ServersAfter, ForwardingsAfter;
  }

  /** Every server of an import is there by its id or its login, and no server that came has an id or a
      login a server before it has. */
  lemma ServersAreThereOnce(p: Payload, d: AppData, o: Options)
    ensures var after := Applied(p, d, o).servers;
      && (o.servers ==> forall x | x in p.servers :: exists y | y in after :: x.id == y.id || OneLogin(x, y))
      && (forall i, j | 0 <= i < j < |after| && |d.servers| <= j ::
            after[j].id != after[i].id && !OneLogin(after[j], after[i]))
  {
    hide Applied, Taken, Lawful, Alike;
    KindsAreLawful();
    ResolvingIsAlike(p, d, o);
    ThereOnce(o.servers, SERVERS, p.servers, d.servers, Applied(p, d, o).servers);
    assert forall x: Server, y: Server :: SERVERS.same(x, y) <==> x.id == y.id || OneLogin(x, y);
  }

  lemma IdentitiesAreThereOnce(p: Payload, d: AppData, o: Options)
    ensures var after := Applied(p, d, o).identities;
      && (o.identities ==> forall x | x in p.identities :: exists y | y in after :: x.id == y.id || OneName(x, y))
      && (forall i, j | 0 <= i < j < |after| && |d.identities| <= j ::
            after[j].id != after[i].id && !OneName(after[j], after[i]))
  {
    hide Applied, Taken, Lawful, Alike;
    KindsAreLawful();
    TheRestIsTaken(p, d, o);
    ThereOnce(o.identities, IDENTITIES, p.identities, d.identities, Applied(p, d, o).identities);
    assert forall x: Identity, y: Identity :: IDENTITIES.same(x, y) <==> x.id == y.id || OneName(x, y);
  }

  lemma KeysAreThereOnce(p: Payload, d: AppData, o: Options)
    ensures var after := Applied(p, d, o).keys;
      && (o.keys ==> forall x | x in p.keys :: exists y | y in after :: x.id == y.id || OneKey(x, y))
      && (forall i, j | 0 <= i < j < |after| && |d.keys| <= j ::
            after[j].id != after[i].id && !OneKey(after[j], after[i]))
  {
    hide Applied, Taken, Lawful, Alike;
    KindsAreLawful();
    TheRestIsTaken(p, d, o);
    ThereOnce(o.keys, KEYS, p.keys, d.keys, Applied(p, d, o).keys);
    assert forall x: KeyEntry, y: KeyEntry :: KEYS.same(x, y) <==> x.id == y.id || OneKey(x, y);
  }

  lemma ForwardingsAreThereOnce(p: Payload, d: AppData, o: Options)
    ensures var after := Applied(p, d, o).forwardings;
      && (o.forwardings ==> forall x | x in p.forwardings :: exists y | y in after :: x.id == y.id || OneTunnel(x, y))
      && (forall i, j | 0 <= i < j < |after| && |d.forwardings| <= j ::
            after[j].id != after[i].id && !OneTunnel(after[j], after[i]))
  {
    hide Applied, Taken, Lawful, Alike;
    KindsAreLawful();
    ResolvingIsAlike(p, d, o);
    ThereOnce(o.forwardings, FORWARDINGS, p.forwardings, d.forwardings, Applied(p, d, o).forwardings);
    assert forall x: Forwarding, y: Forwarding :: FORWARDINGS.same(x, y) <==> x.id == y.id || OneTunnel(x, y);
  }

  lemma CodeprintsAreThereOnce(p: Payload, d: AppData, o: Options)
    ensures var after := Applied(p, d, o).codeprints;
      && (o.codeprints ==> forall x | x in p.codeprints :: exists y | y in after :: x.id == y.id || OneCommand(x, y))
      && (forall i, j | 0 <= i < j < |after| && |d.codeprints| <= j ::
            after[j].id != after[i].id && !OneCommand(after[j], after[i]))
  {
    hide Applied, Taken, Lawful, Alike;
    KindsAreLawful();
    TheRestIsTaken(p, d, o);
    ThereOnce(o.codeprints, CODEPRINTS, p.codeprints, d.codeprints, Applied(p, d, o).codeprints);
    assert forall x: Codeprint, y: Codeprint :: CODEPRINTS.same(x, y) <==> x.id == y.id || OneCommand(x, y);
  }

  predicate Reported<T(==)>(taken: bool, incoming: seq<T>, current: seq<T>, now: seq<T>, added: nat, skipped: nat) {
    && |now| == |current| + added
    && if taken then added + skipped == |incoming| else now == current && skipped == 0
  }

  /** The report: of every kind as many were added as there are more of now, and the rest of the export's
      were skipped; a kind that is not taken is as it was. */
  lemma ReportIsRight(p: Payload, d: AppData, o: Options)
    ensures var after, added, skipped := Applied(p, d, o), AddedCounts(p, d, o), Skipped(p, d, o);
      && Reported(o.servers, p.servers, d.servers, after.servers, added.servers, skipped.servers)
      && Reported(o.identities, p.identities, d.identities, after.identities, added.identities, skipped.identities)
      && Reported(o.keys, p.keys, d.keys, after.keys, added.keys, skipped.keys)
      && Reported(o.forwardings, p.forwardings, d.forwardings, after.forwardings, added.forwardings,
                  skipped.forwardings)
      && Reported(o.codeprints, p.codeprints, d.codeprints, after.codeprints, added.codeprints, skipped.codeprints)
  {
    hide Taken, MapsOf, Merge.Ids;
    TakenCounts(o.servers, SERVERS, p.servers, d.servers);
    TakenCounts(o.identities, IDENTITIES, p.identities, d.identities);
    TakenCounts(o.keys, KEYS, p.keys, d.keys);
    TakenCounts(o.forwardings, FORWARDINGS, p.forwardings, d.forwardings);
    TakenCounts(o.codeprints, CODEPRINTS, p.codeprints, d.codeprints);
    ServersAfterAre(p, d, o);
    ForwardingsAfterAre(p, d, o);
  }

  lemma TakenCounts<T>(on: bool, k: Kind<T>, incoming: seq<T>, current: seq<T>)
    ensures var m := Taken(on, k, incoming, current);
      && |m.added| + m.skipped == (if on then |incoming| else 0)
      && (!on ==> m.items == current && m.added == [])
  {
  }

  /** Themes that are new come with the import under their names, and settings replace the vault's, when
      they are asked for. */
  lemma ThemesAndSettings(p: Payload, d: AppData, o: Options)
    ensures var after := Applied(p, d, o);
      && (forall name :: name in after.themes <==> name in d.themes || (o.themes && name in p.themes))
      && (forall name | name in after.themes ::
            after.themes[name] == if name in d.themes then d.themes[name] else p.themes[name])
      && (o.settings && p.settings.Some? ==> p.settings == Some(after.settings))
      && (!o.settings || p.settings == None ==> after.settings == d.settings)
  {
  }

  // ---- Counting the references that were cleared ----------------------------------------------------------

  function ClearedRef(before: Option<string>, after: Option<string>): nat {
    if before.Some? && after.None? then 1 else 0
  }

  /** References an added server or forwarding came with and does not have afterwards. */
  function ClearedOnServers(added: seq<Server>, m: Maps): nat {
    if added == [] then 0
    else
      var s, r := added[|added| - 1], ResolveServer(added[|added| - 1], m);
      ClearedOnServers(added[..|added| - 1], m) + ClearedRef(s.identityId, r.identityId)
        + ClearedRef(s.keyId, r.keyId) + ClearedRef(s.proxyJump, r.proxyJump)
  }

  function ClearedOnForwardings(added: seq<Forwarding>, m: Maps): nat {
    if added == [] then 0
    else
      var f, r := added[|added| - 1], ResolveForwarding(added[|added| - 1], m);
      ClearedOnForwardings(added[..|added| - 1], m) + ClearedRef(f.intermediateHostId, r.intermediateHostId)
        + ClearedRef(f.remoteHostId, r.remoteHostId)
  }

  /** Added servers whose jump host turned out to be themselves. */
  function SelfJumps(added: seq<Server>, m: Maps): nat {
    if added == [] then 0
    else
      var s := added[|added| - 1];
      SelfJumps(added[..|added| - 1], m) + (if Resolve(s.proxyJump, m.servers) == Some(s.id) then 1 else 0)
  }

  lemma {:induction false} MissedOnAdded(current: seq<Server>, added: seq<Server>, ids: seq<string>, m: Maps)
    requires forall s | s in added :: s.id in ids
    requires forall s | s in current :: s.id !in ids
    ensures MissedOnServers(current + added, ids, m) + SelfJumps(added, m) == ClearedOnServers(added, m)
  {
    hide MissedOnServer, ResolveServer, ClearedRef, Resolve;
    if added == [] {
      assert current + added == current;
      NoneMissed(current, ids, m);
    } else {
      var before, last := added[..|added| - 1], added[|added| - 1];
      assert forall s | s in before :: s in added;
      MissedOnAdded(current, before, ids, m);
      assert (current + added)[..|current + added| - 1] == current + before;
      assert last in added;
      MissedOnOne(last, m);
    }
  }

  lemma MissedOnOne(s: Server, m: Maps)
    ensures var r := ResolveServer(s, m);
      MissedOnServer(s, m) + (if Resolve(s.proxyJump, m.servers) == Some(s.id) then 1 else 0)
        == ClearedRef(s.identityId, r.identityId) + ClearedRef(s.keyId, r.keyId) + ClearedRef(s.proxyJump, r.proxyJump)
  {
  }

  lemma {:induction false} NoneMissed(current: seq<Server>, ids: seq<string>, m: Maps)
    requires forall s | s in current :: s.id !in ids
    ensures MissedOnServers(current, ids, m) == 0
  {
    if current != [] {
      assert current[|current| - 1] in current;
      assert forall s | s in current[..|current| - 1] :: s in current;
      NoneMissed(current[..|current| - 1], ids, m);
    }
  }

  lemma {:induction false} MissedOnAddedForwardings(current: seq<Forwarding>, added: seq<Forwarding>,
      ids: seq<string>, m: Maps)
    requires forall f | f in added :: f.id in ids
    requires forall f | f in current :: f.id !in ids
    ensures MissedOnForwardings(current + added, ids, m) == ClearedOnForwardings(added, m)
  {
    if added == [] {
      assert current + added == current;
      NoForwardingsMissed(current, ids, m);
    } else {
      var before, last := added[..|added| - 1], added[|added| - 1];
      assert forall f | f in before :: f in added;
      MissedOnAddedForwardings(current, before, ids, m);
      assert (current + added)[..|current + added| - 1] == current + before;
      assert last in added;
    }
  }

  lemma {:induction false} NoForwardingsMissed(current: seq<Forwarding>, ids: seq<string>, m: Maps)
    requires forall f | f in current :: f.id !in ids
    ensures MissedOnForwardings(current, ids, m) == 0
  {
    if current != [] {
      assert current[|current| - 1] in current;
      assert forall f | f in current[..|current| - 1] :: f in current;
      NoForwardingsMissed(current[..|current| - 1], ids, m);
    }
  }

  /** `unresolved_refs` is the references cleared, less the jumps that led a server to itself: those
      are cleared without being counted. */
  lemma UnresolvedCounts(p: Payload, d: AppData, o: Options)
    ensures var m := MapsOf(p, d, o);
      var s, f := Taken(o.servers, SERVERS, p.servers, d.servers).added,
                  Taken(o.forwardings, FORWARDINGS, p.forwardings, d.forwardings).added;
      && Unresolved(p, d, o) + SelfJumps(s, m) == ClearedOnServers(s, m) + ClearedOnForwardings(f, m)
      && (Unresolved(p, d, o) == ClearedOnServers(s, m) + ClearedOnForwardings(f, m) <==> SelfJumps(s, m) == 0)
  {
    KindsAreLawful();
    TakenIsNew(o.servers, SERVERS, p.servers, d.servers);
    TakenIsNew(o.forwardings, FORWARDINGS, p.forwardings, d.forwardings);
    var m := MapsOf(p, d, o);
    hide Taken, MapsOf, AllNew, Merge.Ids, MissedOnServers, MissedOnForwardings, SelfJumps;
    var s := Taken(o.servers, SERVERS, p.servers, d.servers);
    var f := Taken(o.forwardings, FORWARDINGS, p.forwardings, d.forwardings);
    var sa, fa := Merge.Ids(SERVERS, s.added), Merge.Ids(FORWARDINGS, f.added);
    IdsApart(SERVERS, d.servers, s.added, sa);
    IdsApart(FORWARDINGS, d.forwardings, f.added, fa);
    assert forall x: Server :: SERVERS.id(x) == x.id;
    assert forall x: Forwarding :: FORWARDINGS.id(x) == x.id;
    MissedOnAdded(d.servers, s.added, sa, m);
    MissedOnAddedForwardings(d.forwardings, f.added, fa, m);
  }

  lemma AddOne(s: Server)
    ensures AddAll(SERVERS, [s], []) == Merged(map[s.id := s.id], [s], 0, [s])
  {
    assert [s][..0] == [];
    assert AddAll(SERVERS, [s], []) == Add(SERVERS, AddAll(SERVERS, [], []), s);
  }

  /** A jump host that is the server itself: cleared, and not counted. */
  lemma SelfJumpIsNotCounted(s: Server, o: Options)
    requires s.proxyJump == Some(s.id) && s.identityId == None && s.keyId == None && o.servers
    ensures var p := Payload([s], [], [], [], [], map[], None);
      var d := AppData([], [], [], [], [], map[], "");
      Applied(p, d, o).servers == [s.(proxyJump := None)] && Unresolved(p, d, o) == 0
  {
    var p, d := Payload([s], [], [], [], [], map[], None), AppData([], [], [], [], [], map[], "");
    AddOne(s);
    ServersAfterAre(p, d, o);
    UnresolvedCounts(p, d, o);
    var m := MapsOf(p, d, o);
    assert m.servers == AddAll(SERVERS, [s], []).ids;
    hide AddAll, MapsOf, Applied, Unresolved;
    assert ResolveServer(s, m) == s.(proxyJump := None);
    assert [s][..0] == [];
    assert SelfJumps([s], m) == 1 && ClearedOnServers([s], m) == 1;
    assert ClearedOnForwardings(Taken(o.forwardings, FORWARDINGS, [], []).added, m) == 0 by {
      NoForwardings(o.forwardings);
    }
  }

  lemma NoForwardings(on: bool)
    ensures Taken(on, FORWARDINGS, [], []).added == []
  {
  }

  // ---- Jumping in circles -----------------------------------------------------------------------------------

  /** One server is reached through another. */
  ghost predicate Edge(servers: seq<Server>, a: string, b: string) {
    exists i | 0 <= i < |servers| :: servers[i].id == a && servers[i].proxyJump == Some(b)
  }

  ghost predicate IsPath(servers: seq<Server>, path: seq<string>) {
    forall i | 0 <= i < |path| - 1 :: Edge(servers, path[i], path[i + 1])
  }

  ghost predicate Circles(servers: seq<Server>) {
    exists path: seq<string> :: |path| >= 2 && path[0] == path[|path| - 1] && IsPath(servers, path)
  }

  /** Every jump leads to one of these servers. */
  ghost predicate Closed(servers: seq<Server>) {
    forall i | 0 <= i < |servers| :: Leads(SERVERS, servers, servers[i].proxyJump)
  }

  /** A server here jumps to one that is not here and is about to come. */
  ghost predicate Awaits(current: seq<Server>, incoming: seq<Server>) {
    exists i, j | 0 <= i < |current| && 0 <= j < |incoming| ::
      current[i].proxyJump == Some(incoming[j].id) && !Names(SERVERS, current, incoming[j].id)
  }

  /** No server of the first list jumps to one of the second, and no id is in both. */
  ghost predicate Apart(before: seq<Server>, added: seq<Server>) {
    forall i, j | 0 <= i < |before| && 0 <= j < |added| ::
      before[i].id != added[j].id && before[i].proxyJump != Some(added[j].id)
  }

  /** A jump is one of the second list's own, or it neither starts nor ends there, or it leads out of it. */
  lemma EdgeSplit(before: seq<Server>, added: seq<Server>, a: string, b: string)
    requires Apart(before, added) && Edge(before + added, a, b)
    ensures Names(SERVERS, added, a) ==> Edge(added, a, b)
    ensures !Names(SERVERS, added, a) ==> Edge(before, a, b) && !Names(SERVERS, added, b)
  {
    var all := before + added;
    var i :| 0 <= i < |all| && all[i].id == a && all[i].proxyJump == Some(b);
    if i < |before| {
      assert before[i] == all[i];
    } else {
      assert added[i - |before|] == all[i] && SERVERS.id(added[i - |before|]) == a;
    }
  }

  lemma EdgeOfEither(before: seq<Server>, added: seq<Server>, a: string, b: string)
    requires Edge(before, a, b) || Edge(added, a, b)
    ensures Edge(before + added, a, b)
  {
    assert forall i | 0 <= i < |before| :: (before + added)[i] == before[i];
    assert forall i | 0 <= i < |added| :: (before + added)[|before| + i] == added[i];
  }

  /** A path that has left the second list does not come back. */
  lemma {:induction false} StaysOut(before: seq<Server>, added: seq<Server>, path: seq<string>, i: nat, j: nat)
    requires Apart(before, added) && IsPath(before + added, path)
    requires i <= j < |path| && !Names(SERVERS, added, path[i])
    ensures !Names(SERVERS, added, path[j])
    decreases j
  {
    hide Apart, Names, Edge;
    if i < j {
      StaysOut(before, added, path, i, j - 1);
      var last := j - 1;
      assert Edge(before + added, path[last], path[last + 1]);
      EdgeSplit(before, added, path[last], path[last + 1]);
    }
  }

  lemma CircleIsOnOneSide(before: seq<Server>, added: seq<Server>, path: seq<string>)
    requires Apart(before, added) && |path| >= 2 && path[0] == path[|path| - 1] && IsPath(before + added, path)
    ensures IsPath(before, path) || IsPath(added, path)
  {
    hide Apart, Names, Edge;
    var inside := Names(SERVERS, added, path[0]);
    forall i | 0 <= i < |path| ensures Names(SERVERS, added, path[i]) <==> inside {
      if !inside {
        StaysOut(before, added, path, 0, i);
      } else if !Names(SERVERS, added, path[i]) {
        StaysOut(before, added, path, i, |path| - 1);
      }
    }
    forall i | 0 <= i < |path| - 1
      ensures if inside then Edge(added, path[i], path[i + 1]) else Edge(before, path[i], path[i + 1])
    {
      EdgeSplit(before, added, path[i], path[i + 1]);
    }
  }

  lemma CirclesSplit(before: seq<Server>, added: seq<Server>)
    requires Apart(before, added)
    ensures Circles(before + added) <==> Circles(before) || Circles(added)
  {
    hide Apart, Edge;
    forall path: seq<string> | |path| >= 2 && path[0] == path[|path| - 1]
      ensures IsPath(before + added, path) <==> IsPath(before, path) || IsPath(added, path)
    {
      if IsPath(before + added, path) {
        CircleIsOnOneSide(before, added, path);
      }
      forall i | 0 <= i < |path| - 1 && (Edge(before, path[i], path[i + 1]) || Edge(added, path[i], path[i + 1]))
        ensures Edge(before + added, path[i], path[i + 1])
      {
        EdgeOfEither(before, added, path[i], path[i + 1]);
      }
    }
  }

  /** The servers an import adds, as they are in the end. */
  lemma LaterServersAre(p: Payload, d: AppData, o: Options)
    ensures var n, after, added := |d.servers|, Applied(p, d, o).servers,
                Taken(o.servers, SERVERS, p.servers, d.servers).added;
      && n <= |after| && after == d.servers + after[n..] && |after[n..]| == |added|
      && forall j | 0 <= j < |added| ::
        && after[n..][j] == ResolveServer(added[j], MapsOf(p, d, o))
        && after[n..][j].id == added[j].id && added[j] in p.servers && !Has(SERVERS, d.servers, added[j])
  {
    hide Applied, Taken, MapsOf, Lawful, Has;
    KindsAreLawful();
    ServersAfterAre(p, d, o);
    TakenIsNew(o.servers, SERVERS, p.servers, d.servers);
  }

  lemma AddedIsApart(p: Payload, d: AppData, o: Options)
    requires !Awaits(d.servers, p.servers)
    ensures var after := Applied(p, d, o).servers;
      |d.servers| <= |after| && after == d.servers + after[|d.servers|..] && Apart(d.servers, after[|d.servers|..])
  {
    hide Applied, Taken, MapsOf, Awaits, Has, ResolveServer;
    LaterServersAre(p, d, o);
    var later := Applied(p, d, o).servers[|d.servers|..];
    var added := Taken(o.servers, SERVERS, p.servers, d.servers).added;
    forall i, j | 0 <= i < |d.servers| && 0 <= j < |later|
      ensures d.servers[i].id != later[j].id && d.servers[i].proxyJump != Some(later[j].id)
    {
      NotAwaited(d.servers, p.servers, added[j], i);
    }
  }

  lemma HasById(servers: seq<Server>, s: Server)
    requires Names(SERVERS, servers, s.id)
    ensures Has(SERVERS, servers, s)
  {
    var n :| 0 <= n < |servers| && SERVERS.id(servers[n]) == s.id;
    assert SERVERS.same(s, servers[n]);
  }

  lemma NotAwaited(current: seq<Server>, incoming: seq<Server>, s: Server, i: nat)
    requires !Awaits(current, incoming) && i < |current| && s in incoming && !Has(SERVERS, current, s)
    ensures current[i].id != s.id && current[i].proxyJump != Some(s.id)
  {
    hide Has;
    if Names(SERVERS, current, s.id) {
      HasById(current, s);
    }
    assert SERVERS.id(current[i]) == current[i].id;
  }

  /** Unless a server here waits for one that comes: there is a circle afterwards exactly when there
      was one, or the servers added make one of their own. */
  lemma CirclesExactly(p: Payload, d: AppData, o: Options)
    requires !Awaits(d.servers, p.servers)
    ensures var after := Applied(p, d, o).servers;
      |d.servers| <= |after| && (Circles(after) <==> Circles(d.servers) || Circles(after[|d.servers|..]))
  {
    hide Applied, Awaits, Apart, Circles;
    AddedIsApart(p, d, o);
    CirclesSplit(d.servers, Applied(p, d, o).servers[|d.servers|..]);
  }

  /** Where every jump leads somewhere nothing is waited for, and an import keeps it that way. */
  lemma ClosedIsKept(p: Payload, d: AppData, o: Options)
    requires Closed(d.servers)
    ensures Closed(Applied(p, d, o).servers) && !Awaits(d.servers, p.servers)
  {
    ServersAfterAre(p, d, o);
    ReferencesLead(p, d, o);
    hide Applied, Taken, MapsOf, ResolveServer;
    var n, after := |d.servers|, Applied(p, d, o).servers;
    forall i | 0 <= i < |after| ensures Leads(SERVERS, after, after[i].proxyJump) {
      if i < n && after[i].proxyJump.Some? {
        assert after[i] == d.servers[i] && Names(SERVERS, d.servers, after[i].proxyJump.value);
        var j :| 0 <= j < n && SERVERS.id(d.servers[j]) == after[i].proxyJump.value;
        assert after[j] == d.servers[j];
      }
    }
  }

  ghost predicate NoTwoSame(servers: seq<Server>) {
    forall i, j | 0 <= i < |servers| && 0 <= j < |servers| && i != j :: !SameServer(servers[i], servers[j])
  }

  /** Where an imported id went, when no two imported servers are the same: to itself if its server
      was added, to a server that was there if not. */
  lemma {:induction false} IdsLandApart(incoming: seq<Server>, current: seq<Server>, id: string)
    requires NoTwoSame(incoming) && Names(SERVERS, incoming, id)
    ensures var m := AddAll(SERVERS, incoming, current);
      id in m.ids && (m.ids[id] == id || Names(SERVERS, current, m.ids[id]))
  {
    var before, last := incoming[..|incoming| - 1], incoming[|incoming| - 1];
    var b := AddAll(SERVERS, before, current);
    assert AddAll(SERVERS, incoming, current) == Add(SERVERS, b, last);
    assert incoming == before + [last];
    assert NoTwoSame(before) by {
      forall i, j | 0 <= i < |before| && 0 <= j < |before| && i != j ensures !SameServer(before[i], before[j]) {
        assert before[i] == incoming[i] && before[j] == incoming[j];
      }
    }
    AddedIsNew(SERVERS, before, current);
    if last.id == id {
      var at := Find(SERVERS, b.items, last);
      if at.Some? {
        var e := b.items[at.value];
        if at.value < |current| {
          assert e == current[at.value] && SERVERS.id(current[at.value]) == e.id;
        }
      }
    } else {
      var i :| 0 <= i < |incoming| && SERVERS.id(incoming[i]) == id;
      assert i < |before| && SERVERS.id(before[i]) == id;
      IdsLandApart(before, current, id);
    }
  }

  /** Where a jump of an added server leads: into the servers that were there, or where it led in
      the import. */
  lemma AddedEdge(p: Payload, d: AppData, s: Server, m: Maps)
    requires NoTwoSame(p.servers) && s in AddAll(SERVERS, p.servers, d.servers).added
    requires m.servers == AddAll(SERVERS, p.servers, d.servers).ids
    requires ResolveServer(s, m).proxyJump.Some? && !Names(SERVERS, d.servers, ResolveServer(s, m).proxyJump.value)
    ensures Edge(p.servers, s.id, ResolveServer(s, m).proxyJump.value)
  {
    AddedIsNew(SERVERS, p.servers, d.servers);
    EveryIdLands(SERVERS, p.servers, d.servers);
    hide AddAll;
    var j := s.proxyJump.value;
    assert Names(SERVERS, p.servers, j);
    IdsLandApart(p.servers, d.servers, j);
    assert s in p.servers && s.proxyJump == Some(j);
  }

  /** A jump from one added server to another is a jump of the import's own. */
  lemma AddedEdgeWas(p: Payload, d: AppData, o: Options, a: string, b: string)
    requires NoTwoSame(p.servers) && |d.servers| <= |Applied(p, d, o).servers|
    requires Edge(Applied(p, d, o).servers[|d.servers|..], a, b)
    requires Names(SERVERS, Applied(p, d, o).servers[|d.servers|..], b)
    ensures Edge(p.servers, a, b)
  {
    hide Applied, AddAll, MapsOf, NoTwoSame, Has, ResolveServer, Edge, Taken;
    LaterServersAre(p, d, o);
    TakenByAll(p, d, o);
    var later, m := Applied(p, d, o).servers[|d.servers|..], MapsOf(p, d, o);
    var added := Taken(o.servers, SERVERS, p.servers, d.servers).added;
    var i, j := EdgeAt(later, a, b);
    if Names(SERVERS, d.servers, b) {
      HasById(d.servers, added[j]);
    }
    assert added[i] in added;
    assert added[i].id == a && ResolveServer(added[i], m).proxyJump == Some(b);
    AddedEdge(p, d, added[i], m);
  }

  lemma TakenByAll(p: Payload, d: AppData, o: Options)
    ensures var added := Taken(o.servers, SERVERS, p.servers, d.servers).added;
      added != [] ==> added == AddAll(SERVERS, p.servers, d.servers).added
                      && MapsOf(p, d, o).servers == AddAll(SERVERS, p.servers, d.servers).ids
  {
    hide AddAll;
  }

  lemma EdgeAt(servers: seq<Server>, a: string, b: string) returns (i: nat, j: nat)
    requires Edge(servers, a, b) && Names(SERVERS, servers, b)
    ensures i < |servers| && j < |servers|
    ensures servers[i].id == a && servers[i].proxyJump == Some(b) && servers[j].id == b
  {
    i :| 0 <= i < |servers| && servers[i].id == a && servers[i].proxyJump == Some(b);
    j :| 0 <= j < |servers| && SERVERS.id(servers[j]) == b;
  }

  /** No circles there, none in the import, no two imported servers the same, and nothing waited
      for: no circles after. */
  lemma NoNewCircles(p: Payload, d: AppData, o: Options)
    requires !Awaits(d.servers, p.servers) && NoTwoSame(p.servers) && !Circles(d.servers) && !Circles(p.servers)
    ensures !Circles(Applied(p, d, o).servers)
  {
    hide Applied, NoTwoSame, Awaits, Edge, Names;
    CirclesExactly(p, d, o);
    var added := Applied(p, d, o).servers[|d.servers|..];
    if Circles(added) {
      var path: seq<string> :| |path| >= 2 && path[0] == path[|path| - 1] && IsPath(added, path);
      ACircleWasThere(p, d, o, path);
    }
  }

  lemma ACircleWasThere(p: Payload, d: AppData, o: Options, path: seq<string>)
    requires NoTwoSame(p.servers) && |d.servers| <= |Applied(p, d, o).servers|
    requires |path| >= 2 && path[0] == path[|path| - 1]
    requires IsPath(Applied(p, d, o).servers[|d.servers|..], path)
    ensures IsPath(p.servers, path)
  {
    hide Applied, NoTwoSame, Edge, Names;
    var added := Applied(p, d, o).servers[|d.servers|..];
    forall i | 0 <= i < |path| - 1 ensures Edge(p.servers, path[i], path[i + 1]) {
      var next := if i + 1 == |path| - 1 then 0 else i + 1;
      assert path[next] == path[i + 1] && Edge(added, path[next], path[next + 1]);
      EdgeStarts(added, path[next], path[next + 1]);
      AddedEdgeWas(p, d, o, path[i], path[i + 1]);
    }
  }

  lemma EdgeStarts(servers: seq<Server>, a: string, b: string)
    requires Edge(servers, a, b)
    ensures Names(SERVERS, servers, a)
  {
    var i :| 0 <= i < |servers| && servers[i].id == a && servers[i].proxyJump == Some(b);
    assert SERVERS.id(servers[i]) == a;
  }

  // ---- Circles an import makes ------------------------------------------------------------------------------

  lemma {:induction false} RankGrows(servers: seq<Server>, rank: string -> nat, path: seq<string>, n: nat)
    requires forall i | 0 <= i < |servers| && servers[i].proxyJump.Some? ::
      rank(servers[i].id) < rank(servers[i].proxyJump.value)
    requires IsPath(servers, path) && n < |path|
    ensures rank(path[0]) + n <= rank(path[n])
  {
    if n > 0 {
      RankGrows(servers, rank, path, n - 1);
      assert Edge(servers, path[n - 1], path[n - 1 + 1]);
    }
  }

  /** Where every jump goes up there is no circle. */
  lemma UpwardsIsNoCircle(servers: seq<Server>, rank: string -> nat)
    requires forall i | 0 <= i < |servers| && servers[i].proxyJump.Some? ::
      rank(servers[i].id) < rank(servers[i].proxyJump.value)
    ensures !Circles(servers)
  {
    hide Edge;
    forall path: seq<string> | |path| >= 2 && path[0] == path[|path| - 1] ensures !IsPath(servers, path) {
      if IsPath(servers, path) {
        RankGrows(servers, rank, path, |path| - 1);
      }
    }
  }

  function ServerNamed(id: string, host: string, jump: Option<string>): Server {
    Server(id, host, 22, None, None, None, jump, None, "")
  }

  /** Two servers of an export are the same, and one is a jump away from the other: taken as one,
      they close a circle that is nowhere in the export. */
  lemma SameServersCloseACircle(o: Options)
    requires o.servers
    ensures var x, z, y :=
              ServerNamed("x", "g", Some("y")), ServerNamed("z", "h", Some("x")), ServerNamed("y", "h", None);
      var p, d := Payload([x, z, y], [], [], [], [], map[], None), AppData([], [], [], [], [], map[], "");
      && !Circles(p.servers) && Applied(p, d, o).servers == [x.(proxyJump := Some("z")), z]
      && Circles(Applied(p, d, o).servers)
  {
    var x, z, y := ServerNamed("x", "g", Some("y")), ServerNamed("z", "h", Some("x")), ServerNamed("y", "h", None);
    var p, d := Payload([x, z, y], [], [], [], [], map[], None), AppData([], [], [], [], [], map[], "");
    hide Applied, Edge, Circles;
    assert "z"[0] != "x"[0] && "y"[0] != "x"[0];
    TakenAsOne(p, d, o, x, z, y);
    TwoInACircle(Applied(p, d, o).servers, "x", "z");
    UpwardsIsNoCircle(p.servers, id => if id == "z" then 0 else if id == "x" then 1 else 2);
  }

  lemma TakenAsOne(p: Payload, d: AppData, o: Options, x: Server, z: Server, y: Server)
    requires o.servers && p.servers == [x, z, y] && d.servers == []
    requires !SameServer(z, x) && !SameServer(y, x) && SameServer(y, z)
    requires x.proxyJump == Some(y.id) && z.proxyJump == Some(x.id)
    requires x.identityId == None && x.keyId == None && z.identityId == None && z.keyId == None
    ensures Applied(p, d, o).servers == [x.(proxyJump := Some(z.id)), z]
  {
    hide Applied, MapsOf, AddAll, SameServer, ResolveServer;
    assert x.id != z.id && x.id != y.id by { SameById(z, x); SameById(y, x); }
    MergeOfThree(x, z, y);
    var m := MapsOf(p, d, o);
    IntoAnEmptyVault(p, d, o, [x, z]);
    JumpLeadsTo(x, m, z.id);
    JumpLeadsTo(z, m, x.id);
    assert z.(proxyJump := Some(x.id)) == z;
  }

  lemma IntoAnEmptyVault(p: Payload, d: AppData, o: Options, added: seq<Server>)
    requires o.servers && d.servers == [] && added == AddAll(SERVERS, p.servers, []).added
    ensures MapsOf(p, d, o).servers == AddAll(SERVERS, p.servers, []).ids
    ensures |Applied(p, d, o).servers| == |added|
    ensures forall j | 0 <= j < |added| :: Applied(p, d, o).servers[j] == ResolveServer(added[j], MapsOf(p, d, o))
  {
    hide Applied, MapsOf, AddAll, ResolveServer;
    ServerIds(p, d, o);
    LaterServersAre(p, d, o);
    assert Applied(p, d, o).servers[|d.servers|..] == Applied(p, d, o).servers;
  }

  lemma JumpLeadsTo(s: Server, m: Maps, id: string)
    requires s.identityId == None && s.keyId == None && id != s.id
    requires s.proxyJump.Some? && s.proxyJump.value in m.servers && m.servers[s.proxyJump.value] == id
    ensures ResolveServer(s, m) == s.(proxyJump := Some(id))
  {
  }

  lemma SameById(a: Server, b: Server)
    ensures a.id == b.id ==> SameServer(a, b)
  {
  }

  lemma ServerIds(p: Payload, d: AppData, o: Options)
    requires o.servers
    ensures MapsOf(p, d, o).servers == AddAll(SERVERS, p.servers, d.servers).ids
  {
    hide AddAll;
  }

  lemma TwoInACircle(servers: seq<Server>, a: string, b: string)
    requires |servers| == 2 && servers[0].id == a && servers[0].proxyJump == Some(b)
    requires servers[1].id == b && servers[1].proxyJump == Some(a)
    ensures Circles(servers)
  {
    var path := [a, b, a];
    assert Edge(servers, a, b) && Edge(servers, b, a);
    assert IsPath(servers, path);
  }

  lemma MergeOfThree(x: Server, z: Server, y: Server)
    requires !SameServer(z, x) && !SameServer(y, x) && SameServer(y, z) && x.id != y.id
    ensures var m := AddAll(SERVERS, [x, z, y], []);
      m.added == [x, z] && m.ids == map[x.id := x.id, z.id := z.id, y.id := z.id]
  {
    hide AddAll, Find, SameServer, Has;
    AddOne(x);
    assert [x, z][..1] == [x] && [x, z, y][..2] == [x, z];
    AddedLast(SERVERS, [x, z], []);
    AddedLast(SERVERS, [x, z, y], []);
    NotInOne(x, z);
    assert AddAll(SERVERS, [x, z], []) == Merged(map[x.id := x.id, z.id := z.id], [x, z], 0, [x, z]);
    SecondOfTwo(x, z, y);
  }

  lemma NotInOne(x: Server, s: Server)
    requires !SameServer(s, x)
    ensures Find(SERVERS, [x], s) == None
  {
  }

  lemma SecondOfTwo(x: Server, z: Server, s: Server)
    requires !SameServer(s, x) && SameServer(s, z)
    ensures Find(SERVERS, [x, z], s) == Some(1)
  {
    assert SERVERS.same(s, [x, z][1]);
  }

  /** A server here jumps to one that is gone, and an import brings that one back, jumping to the first. */
  lemma AwaitedCloseACircle(o: Options)
    requires o.servers
    ensures var x, y := ServerNamed("x", "g", Some("y")), ServerNamed("y", "h", Some("x"));
      var p := Payload([x.(proxyJump := None), y], [], [], [], [], map[], None);
      var d := AppData([x], [], [], [], [], map[], "");
      && !Circles(p.servers) && !Circles(d.servers) && NoTwoSame(p.servers) && Awaits(d.servers, p.servers)
      && Applied(p, d, o).servers == [x, y] && Circles(Applied(p, d, o).servers)
  {
    var x, y := ServerNamed("x", "g", Some("y")), ServerNamed("y", "h", Some("x"));
    var w := x.(proxyJump := None);
    var p, d := Payload([w, y], [], [], [], [], map[], None), AppData([x], [], [], [], [], map[], "");
    var after := Applied(p, d, o).servers;
    hide Applied, MapsOf, AddAll, Edge, Circles;
    MergeIntoOne(x, w, y);
    var added := Taken(o.servers, SERVERS, p.servers, d.servers).added;
    assert added == [y];
    assert MapsOf(p, d, o).servers == map["x" := "x", "y" := "y"] by { ServerIds(p, d, o); }
    LaterServersAre(p, d, o);
    assert "y"[0] != "x"[0];
    assert ResolveServer(added[0], MapsOf(p, d, o)) == y;
    TwoInACircle(after, "x", "y");
    UpwardsIsNoCircle(p.servers, id => if id == "y" then 0 else 1);
    UpwardsIsNoCircle(d.servers, id => if id == "x" then 0 else 1);
    assert d.servers[0].proxyJump == Some(p.servers[1].id);
  }

  lemma MergeIntoOne(x: Server, w: Server, y: Server)
    requires SameServer(w, x) && !SameServer(y, x) && w.id == x.id
    ensures var m := AddAll(SERVERS, [w, y], [x]); m.added == [y] && m.ids == map[x.id := x.id, y.id := y.id]
  {
    assert [w][..0] == [] && [w, y][..1] == [w];
    assert AddAll(SERVERS, [w], [x]) == Add(SERVERS, AddAll(SERVERS, [], [x]), w);
    assert AddAll(SERVERS, [w, y], [x]) == Add(SERVERS, AddAll(SERVERS, [w], [x]), y);
  }

  // ---- The same file again ------------------------------------------------------------------------------------

  lemma AllTakenAlready<T(!new)>(on: bool, k: Kind<T>, incoming: seq<T>, current: seq<T>, now: seq<T>)
    requires Lawful(k)
    requires var items := Taken(on, k, incoming, current).items;
      |now| == |items| && forall i, x: T | 0 <= i < |now| :: k.same(x, now[i]) <==> k.same(x, items[i])
    ensures Taken(on, k, incoming, now).items == now && Taken(on, k, incoming, now).added == []
    ensures on ==> Taken(on, k, incoming, now).skipped == |incoming|
  {
    if on {
      EveryRecordIsThere(k, incoming, current);
      var items := AddAll(k, incoming, current).items;
      forall i | 0 <= i < |incoming| ensures Has(k, now, incoming[i]) {
        assert Has(k, items, incoming[i]);
        var j :| 0 <= j < |items| && k.same(incoming[i], items[j]);
        assert k.same(incoming[i], now[j]);
      }
      NothingToAdd(k, incoming, now);
    }
  }

  lemma ResolvingKeepsSameness(p: Payload, d: AppData, o: Options)
    ensures var items, now := Taken(o.servers, SERVERS, p.servers, d.servers).items, Applied(p, d, o).servers;
      |now| == |items| && forall i, x: Server | 0 <= i < |now| :: SERVERS.same(x, now[i]) <==> SERVERS.same(x, items[i])
    ensures var items, now := Taken(o.forwardings, FORWARDINGS, p.forwardings, d.forwardings).items,
      Applied(p, d, o).forwardings;
      |now| == |items| && forall i, x: Forwarding | 0 <= i < |now| ::
        FORWARDINGS.same(x, now[i]) <==> FORWARDINGS.same(x, items[i])
  {
    hide Taken, MapsOf, Merge.Ids;
  }

  /** Importing the same thing again with the same options changes nothing and adds nothing. */
  lemma TwiceIsOnce(p: Payload, d: AppData, o: Options)
    ensures var once := Applied(p, d, o);
      && Applied(p, once, o) == once
      && AddedCounts(p, once, o) == Counts(0, 0, 0, 0, 0, 0)
      && Unresolved(p, once, o) == 0
  {
    var once := Applied(p, d, o);
    KindsAreLawful();
    ResolvingKeepsSameness(p, d, o);
    RestIsTaken(p, d, o);
    hide Taken, ResolveServers, ResolveForwardings, MissedOnServers, MissedOnForwardings, Merge.Ids;
    AllTakenAlready(o.servers, SERVERS, p.servers, d.servers, once.servers);
    AllTakenAlready(o.forwardings, FORWARDINGS, p.forwardings, d.forwardings, once.forwardings);
    NoneToPoint(once, MapsOf(p, once, o));
    hide MapsOf, Lawful;
    assert o.themes ==> p.themes.Keys - once.themes.Keys == {};
    assert o.themes ==> p.themes + once.themes == once.themes;
    NoIds();
  }

  lemma NoIds()
    ensures Merge.Ids(SERVERS, []) == [] && Merge.Ids(FORWARDINGS, []) == []
  {
  }

  lemma RestIsTaken(p: Payload, d: AppData, o: Options)
    ensures var once := Applied(p, d, o);
      && Taken(o.identities, IDENTITIES, p.identities, once.identities).added == []
      && Taken(o.keys, KEYS, p.keys, once.keys).added == []
      && Taken(o.codeprints, CODEPRINTS, p.codeprints, once.codeprints).added == []
  {
    var once := Applied(p, d, o);
    KindsAreLawful();
    hide Taken, Merge.Ids, MapsOf;
    AllTakenAlready(o.identities, IDENTITIES, p.identities, d.identities, once.identities);
    AllTakenAlready(o.keys, KEYS, p.keys, d.keys, once.keys);
    AllTakenAlready(o.codeprints, CODEPRINTS, p.codeprints, d.codeprints, once.codeprints);
  }

  lemma NoneToPoint(d: AppData, m: Maps)
    ensures ResolveServers(d.servers, [], m) == d.servers && ResolveForwardings(d.forwardings, [], m) == d.forwardings
    ensures MissedOnServers(d.servers, [], m) == 0 && MissedOnForwardings(d.forwardings, [], m) == 0
  {
    NoneMissed(d.servers, [], m);
    NoForwardingsMissed(d.forwardings, [], m);
  }

  // ---- The preview ----------------------------------------------------------------------------------------------

  /** `plan_merge`'s duplicates. */
  function PlannedDuplicates(p: Payload, d: AppData): Counts {
    Counts(Duplicates(SERVERS, p.servers, d.servers), Duplicates(IDENTITIES, p.identities, d.identities),
           Duplicates(KEYS, p.keys, d.keys), Duplicates(FORWARDINGS, p.forwardings, d.forwardings),
           Duplicates(CODEPRINTS, p.codeprints, d.codeprints), |p.themes.Keys * d.themes.Keys|)
  }

  /** Of a kind that is taken the preview never promises more duplicates than are skipped, and as
      many exactly when no two records that are both new here are the same. */
  predicate Agree(taken: bool, planned: nat, skipped: nat, twoNewAreSame: bool) {
    if taken then planned <= skipped && (planned == skipped <==> !twoNewAreSame) else skipped == 0
  }

  lemma RekeyingIsAlike(p: Payload, from: nat, to: nat)
    ensures var r := RekeyAll(p, from, to);
      Alike(SERVERS, p.servers, r.servers) && Alike(IDENTITIES, p.identities, r.identities)
        && Alike(KEYS, p.keys, r.keys) && Alike(FORWARDINGS, p.forwardings, r.forwardings)
        && Alike(CODEPRINTS, p.codeprints, r.codeprints)
  {
  }

  lemma KindAgrees<T(!new)>(on: bool, k: Kind<T>, shown: seq<T>, taken: seq<T>, current: seq<T>)
    requires Alike(k, shown, taken)
    ensures Agree(on, Duplicates(k, shown, current), Taken(on, k, taken, current).skipped,
                  TwoNewAreSame(k, shown, current))
  {
    PreviewOfAlike(k, shown, taken, current);
  }

  /** Preview and import, kind by kind, whatever the options; of the themes the preview is right. */
  lemma PreviewAgrees(p: Payload, d: AppData, exportKey: nat, master: nat, o: Options)
    ensures var planned, skipped := PlannedDuplicates(p, d), Skipped(RekeyAll(p, exportKey, master), d, o);
      && Agree(o.servers, planned.servers, skipped.servers, TwoNewAreSame(SERVERS, p.servers, d.servers))
      && Agree(o.identities, planned.identities, skipped.identities,
               TwoNewAreSame(IDENTITIES, p.identities, d.identities))
      && Agree(o.keys, planned.keys, skipped.keys, TwoNewAreSame(KEYS, p.keys, d.keys))
      && Agree(o.forwardings, planned.forwardings, skipped.forwardings,
               TwoNewAreSame(FORWARDINGS, p.forwardings, d.forwardings))
      && Agree(o.codeprints, planned.codeprints, skipped.codeprints,
               TwoNewAreSame(CODEPRINTS, p.codeprints, d.codeprints))
      && Agree(o.themes, planned.themes, skipped.themes, false)
  {
    var r := RekeyAll(p, exportKey, master);
    RekeyingIsAlike(p, exportKey, master);
    RekeyedThemes(p, exportKey, master);
    hide RekeyAll, Alike, TwoNewAreSame, AddAll, Duplicates, Taken, Agree;
    KindAgrees(o.servers, SERVERS, p.servers, r.servers, d.servers);
    KindAgrees(o.identities, IDENTITIES, p.identities, r.identities, d.identities);
    KindAgrees(o.keys, KEYS, p.keys, r.keys, d.keys);
    KindAgrees(o.forwardings, FORWARDINGS, p.forwardings, r.forwardings, d.forwardings);
    KindAgrees(o.codeprints, CODEPRINTS, p.codeprints, r.codeprints, d.codeprints);
    AgreeOnThemes(o.themes, |p.themes.Keys * d.themes.Keys|);
  }

  lemma AgreeOnThemes(on: bool, n: nat)
    ensures Agree(on, n, if on then n else 0, false)
  {
  }

  lemma RekeyedThemes(p: Payload, from: nat, to: nat)
    ensures RekeyAll(p, from, to).themes == p.themes
  {
  }
}
