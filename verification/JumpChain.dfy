/** A `ProxyJump` line turned into links between saved servers: the config names hops outermost first,
    a saved server points at the one it is reached through. */
module JumpChain {
  import opened Lists
  import opened Wrappers

  type Link = (string, string)

  predicate Distinct(ids: seq<string>) {
    forall i, j | 0 <= i < j < |ids| :: ids[i] != ids[j]
  }

  function Resolved(hops: seq<string>, byAlias: map<string, string>): (r: seq<string>)
    requires forall i | 0 <= i < |hops| :: hops[i] in byAlias
    ensures |r| == |hops| && forall i | 0 <= i < |r| :: r[i] == byAlias[hops[i]]
  {
    seq(|hops|, i requires 0 <= i < |hops| => byAlias[hops[i]])
  }

  /** Each stop linked to the next. */
  function LinksAlong(path: seq<string>): (r: seq<Link>)
    requires path != []
    ensures |r| == |path| - 1 && forall i | 0 <= i < |r| :: r[i] == (path[i], path[i + 1])
  {
    seq(|path| - 1, i requires 0 <= i < |path| - 1 => (path[i], path[i + 1]))
  }

  /** A chain that can be honoured as written: there is one, every hop is a saved server, and no server
      is passed twice. */
  predicate Honoured(server: string, hops: seq<string>, byAlias: map<string, string>) {
    && hops != [] && (forall i | 0 <= i < |hops| :: hops[i] in byAlias)
    && Distinct([server] + Resolved(hops, byAlias))
  }

  /** The loop of `chain_links` that refuses a chain visiting a host twice. */
  method PassedTwice(server: string, ids: seq<string>) returns (r: bool)
    ensures r <==> !Distinct([server] + ids)
  {
    var seen := [server];
    for i := 0 to |ids|
      invariant seen == [server] + ids[..i] && Distinct(seen)
    {
      if ids[i] in seen {
        var k :| 0 <= k < |seen| && seen[k] == ids[i];
        assert ([server] + ids)[k] == seen[k] && ([server] + ids)[i + 1] == ids[i];
        return true;
      }
      seen := seen + [ids[i]];
    }
    assert seen == [server] + ids;
    r := false;
  }

  /** Every hop a saved server, none of them the one it leads to, and no two the same. */
  predicate CanBeHonoured(server: string, hops: seq<string>, byAlias: map<string, string>) {
    && hops != [] && (forall i | 0 <= i < |hops| :: hops[i] in byAlias && byAlias[hops[i]] != server)
    && forall i, j | 0 <= i < j < |hops| :: byAlias[hops[i]] != byAlias[hops[j]]
  }

  lemma DistinctBehind(server: string, ids: seq<string>)
    ensures Distinct([server] + ids)
       <==> (forall i | 0 <= i < |ids| :: ids[i] != server) && forall i, j | 0 <= i < j < |ids| :: ids[i] != ids[j]
  {
    var all := [server] + ids;
    assert all[0] == server && forall i | 0 < i < |all| :: all[i] == ids[i - 1];
    assert forall i | 0 <= i < |ids| :: all[i + 1] == ids[i];
    if Distinct(all) {
      forall i, j | 0 <= i < j < |ids| ensures ids[i] != ids[j] {
        assert all[i + 1] != all[j + 1];
      }
    }
  }

  lemma HonouredWhenItCanBe(server: string, hops: seq<string>, byAlias: map<string, string>)
    ensures Honoured(server, hops, byAlias) <==> CanBeHonoured(server, hops, byAlias)
  {
    hide Distinct;
    if hops != [] && forall i | 0 <= i < |hops| :: hops[i] in byAlias {
      DistinctBehind(server, Resolved(hops, byAlias));
    }
  }

  /** `chain_links`. */
  method ChainLinks(server: string, hops: seq<string>, byAlias: map<string, string>) returns (r: Option<seq<Link>>)
    ensures r == if Honoured(server, hops, byAlias)
                 then Some(LinksAlong([server] + Reversed(Resolved(hops, byAlias)))) else None
    ensures r.Some? <==> CanBeHonoured(server, hops, byAlias)
  {
    hide Reversed;
    HonouredWhenItCanBe(server, hops, byAlias);
    if hops == [] {
      return None;
    }
    var hopIds: seq<string> := [];
    for i := 0 to |hops|
      invariant |hopIds| == i && forall j | 0 <= j < i :: hops[j] in byAlias && hopIds[j] == byAlias[hops[j]]
    {
      if hops[i] !in byAlias {
        return None;
      }
      hopIds := hopIds + [byAlias[hops[i]]];
    }
    assert hopIds == Resolved(hops, byAlias);

    var twice := PassedTwice(server, hopIds);
    if twice {
      return None;
    }

    var links: seq<Link> := [];
    var reached := server;
    ghost var path := [server] + Reversed(hopIds);
    var left := |hopIds|;
    while left > 0
      invariant 0 <= left <= |hopIds| && |links| == |hopIds| - left && reached == path[|links|]
      invariant forall j | 0 <= j < |links| :: links[j] == (path[j], path[j + 1])
    {
      left := left - 1;
      var through := hopIds[left];
      assert path[|links| + 1] == Reversed(hopIds)[|links|] == through;
      links := links + [(reached, through)];
      reached := through;
    }
    assert links == LinksAlong(path);
    r := Some(links);
  }

  // ---- Dialling through the links --------------------------------------------------------------------

  function From(at: string): Link -> bool {
    (l: Link) => l.0 == at
  }

  /** The servers a connection goes through, nearest to the target first: from each the one it is reached
      through, until one is reached directly or `fuel` servers have been passed. */
  function Through(links: seq<Link>, at: string, fuel: nat): seq<string>
    decreases fuel
  {
    var l := First(links, From(at));
    if fuel == 0 || l.None? then [] else [l.value.1] + Through(links, l.value.1, fuel - 1)
  }

  lemma OnlyLink(path: seq<string>, i: nat)
    requires path != [] && Distinct(path) && i < |path|
    ensures First(LinksAlong(path), From(path[i])) == if i + 1 < |path| then Some((path[i], path[i + 1])) else None
  {
    var links, l := LinksAlong(path), First(LinksAlong(path), From(path[i]));
    if i + 1 < |path| {
      assert From(path[i])(links[i]);
    }
  }

  lemma {:induction false} ThroughIsTheRest(path: seq<string>, i: nat, fuel: nat)
    requires path != [] && Distinct(path) && i < |path| && fuel >= |path| - 1 - i
    ensures Through(LinksAlong(path), path[i], fuel) == path[i + 1..]
    decreases fuel
  {
    hide LinksAlong, First, Distinct, From;
    OnlyLink(path, i);
    if i + 1 < |path| {
      ThroughIsTheRest(path, i + 1, fuel - 1);
      assert path[i + 1..] == [path[i + 1]] + path[i + 2..];
    }
  }

  /** Turning the hops round keeps everything on the way different. */
  lemma StillDistinct(server: string, ids: seq<string>)
    requires Distinct([server] + ids)
    ensures Distinct([server] + Reversed(ids)) && Distinct(Reversed(ids)) && server !in Reversed(ids)
    ensures Reversed(Reversed(ids)) == ids
  {
    var all, back := [server] + ids, Reversed(ids);
    hide Reversed;
    forall i, j | 0 <= i < j < |back| ensures back[i] != back[j] {
      assert back[j] == all[|ids| - j] && back[i] == all[|ids| - i];
    }
    forall j | 0 <= j < |back| ensures back[j] != server {
      assert back[j] == all[|ids| - j] && server == all[0];
    }
  }

  /** The links of a chain lead from the server through the config's hops and
      no further: dialled from the far end they come in the order the config names them, once each, and
      never round in a circle. */
  lemma DialledInOrder(server: string, hops: seq<string>, byAlias: map<string, string>, fuel: nat)
    requires Honoured(server, hops, byAlias) && fuel >= |hops|
    ensures var ids := Resolved(hops, byAlias);
            var through := Through(LinksAlong([server] + Reversed(ids)), server, fuel);
            && Reversed(through) == ids
            && server !in through && Distinct(through)
  {
    hide Through, LinksAlong, Reversed, Distinct, Resolved;
    var ids := Resolved(hops, byAlias);
    var path := [server] + Reversed(ids);
    StillDistinct(server, ids);
    ThroughIsTheRest(path, 0, fuel);
    assert path[1..] == Reversed(ids);
  }
}
