/** Adding records to a collection that may already hold them: what every imported collection goes
    through, and where each imported id ends up. */
module Merge {
  import opened Wrappers

  /** How a kind of record is told apart: its id, and when two are the same one. */
  datatype Kind<!T> = Kind(id: T -> string, same: (T, T) -> bool)

  /** Records with one id are the same record. */
  ghost predicate Lawful<T(!new)>(k: Kind<T>) {
    forall a: T, b: T :: k.id(a) == k.id(b) ==> k.same(a, b)
  }

  predicate Has<T>(k: Kind<T>, items: seq<T>, item: T) {
    exists i | 0 <= i < |items| :: k.same(item, items[i])
  }

  /** The first record that is the same. */
  function Find<T>(k: Kind<T>, items: seq<T>, item: T): (r: Option<nat>)
    ensures r.Some? <==> Has(k, items, item)
    ensures r.Some? ==> r.value < |items| && k.same(item, items[r.value])
                        && forall j | 0 <= j < r.value :: !k.same(item, items[j])
  {
    if items == [] then None
    else if k.same(item, items[0]) then Some(0)
    else
      var r := Find(k, items[1..], item);
      assert forall j | 0 < j < |items| :: items[j] == items[1..][j - 1];
      if r.Some? then Some(r.value + 1) else None
  }

  /** `ids` is where each imported id went; `items` is the collection with `added` at its end. */
  datatype Merged<T> = Merged(ids: map<string, string>, added: seq<T>, skipped: nat, items: seq<T>)

  function Add<T>(k: Kind<T>, m: Merged<T>, item: T): Merged<T> {
    var at := Find(k, m.items, item);
    if at.Some? then m.(ids := m.ids[k.id(item) := k.id(m.items[at.value])], skipped := m.skipped + 1)
    else m.(ids := m.ids[k.id(item) := k.id(item)], added := m.added + [item], items := m.items + [item])
  }

  function AddAll<T>(k: Kind<T>, incoming: seq<T>, current: seq<T>): (m: Merged<T>)
    ensures m.items == current + m.added
    ensures m.skipped + |m.added| == |incoming|
  {
    if incoming == [] then Merged(map[], [], 0, current)
    else Add(k, AddAll(k, incoming[..|incoming| - 1], current), incoming[|incoming| - 1])
  }

  /** A collection of the vault. */
  class Collection<T> {
    var items: seq<T>

    constructor (items: seq<T>)
      ensures this.items == items
    {
      this.items := items;
    }

    /** `merge_into`. */
    method MergeInto(k: Kind<T>, incoming: seq<T>)
      returns (ids: map<string, string>, added: seq<string>, skipped: nat)
      modifies this
      ensures var m := AddAll(k, incoming, old(items));
        items == m.items && ids == m.ids && added == Ids(k, m.added) && skipped == m.skipped
    {
      hide Has, AddAll, Ids;
      ids, added, skipped := map[], [], 0;
      NothingMerged(k, items);
      ghost var m := AddAll(k, [], items);
      var n := 0;
      while n < |incoming|
        invariant n <= |incoming| && m == AddAll(k, incoming[..n], old(items))
        invariant items == m.items && ids == m.ids && added == Ids(k, m.added) && skipped == m.skipped
      {
        assert incoming[..n + 1][..n] == incoming[..n];
        AddedLast(k, incoming[..n + 1], old(items));
        var item := incoming[n];
        var from := k.id(item);
        match Find(k, items, item) {
          case Some(at) =>
            ids := ids[from := k.id(items[at])];
            skipped := skipped + 1;
          case None =>
            ids := ids[from := from];
            IdsSnoc(k, m.added, item);
            added := added + [from];
            items := items + [item];
        }
        m := Add(k, m, item);
        n := n + 1;
      }
      assert incoming[..n] == incoming;
    }
  }

  function Ids<T>(k: Kind<T>, items: seq<T>): (r: seq<string>)
    ensures |r| == |items| && forall i | 0 <= i < |items| :: r[i] == k.id(items[i])
  {
    if items == [] then [] else [k.id(items[0])] + Ids(k, items[1..])
  }

  lemma NothingMerged<T>(k: Kind<T>, current: seq<T>)
    ensures AddAll(k, [], current) == Merged(map[], [], 0, current) && Ids(k, []) == []
  {
  }

  lemma IdsSnoc<T>(k: Kind<T>, items: seq<T>, item: T)
    ensures Ids(k, items + [item]) == Ids(k, items) + [k.id(item)]
  {
  }

  predicate Names<T>(k: Kind<T>, items: seq<T>, id: string) {
    exists i | 0 <= i < |items| :: k.id(items[i]) == id
  }

  // ---- What a merge leaves ------------------------------------------------------------------------

  /** Every imported id went somewhere, and that is a record of the collection. */
  lemma {:induction false} EveryIdLands<T(!new)>(k: Kind<T>, incoming: seq<T>, current: seq<T>)
    ensures var m := AddAll(k, incoming, current);
      && (forall i | 0 <= i < |incoming| :: k.id(incoming[i]) in m.ids)
      && (forall id | id in m.ids :: Names(k, incoming, id) && Names(k, m.items, m.ids[id]))
  {
    hide AddAll, Find;
    AddedLast(k, incoming, current);
    if incoming != [] {
      var before, last := incoming[..|incoming| - 1], incoming[|incoming| - 1];
      EveryIdLands(k, before, current);
      var b, m := AddAll(k, before, current), AddAll(k, incoming, current);
      var at := Find(k, b.items, last);
      var more := m.items[|b.items|..];
      assert incoming == before + [last] && b.items + more == m.items;
      forall id | id in m.ids ensures Names(k, incoming, id) && Names(k, m.items, m.ids[id]) {
        if id == k.id(last) {
          NamesLast(k, before, last);
          if at.None? {
            NamesLast(k, b.items, last);
          }
        } else {
          NamesStill(k, before, [last], id);
          NamesStill(k, b.items, more, b.ids[id]);
        }
      }
    }
  }

  lemma AddedLast<T>(k: Kind<T>, incoming: seq<T>, current: seq<T>)
    ensures incoming == [] ==> AddAll(k, incoming, current).ids == map[]
    ensures incoming != [] ==>
      AddAll(k, incoming, current) == Add(k, AddAll(k, incoming[..|incoming| - 1], current), incoming[|incoming| - 1])
  {
  }

  lemma NamesLast<T>(k: Kind<T>, items: seq<T>, item: T)
    ensures Names(k, items + [item], k.id(item))
  {
    assert (items + [item])[|items|] == item;
  }

  lemma NamesStill<T>(k: Kind<T>, items: seq<T>, more: seq<T>, id: string)
    requires Names(k, items, id)
    ensures Names(k, items + more, id)
  {
    var i :| 0 <= i < |items| && k.id(items[i]) == id;
    assert (items + more)[i] == items[i];
  }

  /** What was added is new: no added record is the same as one that was there, or as one added
      before it; and each comes from the import. */
  ghost predicate AllNew<T>(k: Kind<T>, incoming: seq<T>, current: seq<T>, added: seq<T>) {
    && (forall i | 0 <= i < |added| :: added[i] in incoming && !Has(k, current, added[i]))
    && (forall i, j | 0 <= i < j < |added| :: !k.same(added[j], added[i]))
  }

  lemma {:induction false} AddedIsNew<T(!new)>(k: Kind<T>, incoming: seq<T>, current: seq<T>)
    ensures AllNew(k, incoming, current, AddAll(k, incoming, current).added)
  {
    if incoming != [] {
      var before, last := incoming[..|incoming| - 1], incoming[|incoming| - 1];
      AddedIsNew(k, before, current);
      var b := AddAll(k, before, current);
      if !Has(k, b.items, last) {
        assert forall i | 0 <= i < |current| :: b.items[i] == current[i];
        assert forall i | 0 <= i < |b.added| :: b.items[|current| + i] == b.added[i];
      }
      assert incoming == before + [last];
    }
  }

  /** The first record of a list that is the same as this one. */
  predicate FirstSame<T>(k: Kind<T>, items: seq<T>, item: T, n: int) {
    0 <= n < |items| && k.same(item, items[n]) && forall j | 0 <= j < n :: !k.same(item, items[j])
  }

  /** The last record of an import with its id. */
  predicate LastWithId<T>(k: Kind<T>, incoming: seq<T>, i: int) {
    0 <= i < |incoming| && forall j | i < j < |incoming| :: k.id(incoming[j]) != k.id(incoming[i])
  }

  lemma AddedLandsFirst<T(!new)>(k: Kind<T>, m: Merged<T>, item: T) returns (n: nat)
    requires Lawful(k)
    ensures var now := Add(k, m, item);
      && m.items <= now.items && now.ids == m.ids[k.id(item) := now.ids[k.id(item)]]
      && FirstSame(k, now.items, item, n) && now.ids[k.id(item)] == k.id(now.items[n])
  {
    var at := Find(k, m.items, item);
    n := if at.Some? then at.value else |m.items|;
  }

  lemma StillFirst<T>(k: Kind<T>, items: seq<T>, more: seq<T>, item: T, n: nat)
    requires items <= more && FirstSame(k, items, item, n)
    ensures FirstSame(k, more, item, n) && k.id(more[n]) == k.id(items[n])
  {
    assert forall j | 0 <= j <= n :: more[j] == items[j];
  }

  /** Where an imported id leads: to the first record that is the same as the last one imported under
      it. */
  lemma {:induction false} IdsLeadToTheSame<T(!new)>(k: Kind<T>, incoming: seq<T>, current: seq<T>, i: nat)
    returns (n: nat)
    requires Lawful(k) && LastWithId(k, incoming, i)
    ensures var m, id := AddAll(k, incoming, current), k.id(incoming[i]);
      FirstSame(k, m.items, incoming[i], n) && id in m.ids && m.ids[id] == k.id(m.items[n])
  {
    hide AddAll, Add;
    AddedLast(k, incoming, current);
    var before, last := incoming[..|incoming| - 1], incoming[|incoming| - 1];
    var b := AddAll(k, before, current);
    var at := AddedLandsFirst(k, b, last);
    if i == |before| {
      n := at;
    } else {
      assert forall j | 0 <= j < |before| :: before[j] == incoming[j];
      n := IdsLeadToTheSame(k, before, current, i);
      StillFirst(k, b.items, AddAll(k, incoming, current).items, incoming[i], n);
    }
  }

  /** Every imported record is there afterwards, or one that is the same. */
  lemma {:induction false} EveryRecordIsThere<T(!new)>(k: Kind<T>, incoming: seq<T>, current: seq<T>)
    requires Lawful(k)
    ensures var m := AddAll(k, incoming, current);
      forall i | 0 <= i < |incoming| :: Has(k, m.items, incoming[i])
  {
    if incoming != [] {
      var before, last := incoming[..|incoming| - 1], incoming[|incoming| - 1];
      EveryRecordIsThere(k, before, current);
      var b, m := AddAll(k, before, current), AddAll(k, incoming, current);
      forall i | 0 <= i < |incoming| ensures Has(k, m.items, incoming[i]) {
        if i < |before| {
          assert incoming[i] == before[i] && Has(k, b.items, before[i]);
          var j :| 0 <= j < |b.items| && k.same(before[i], b.items[j]);
          assert m.items[j] == b.items[j];
        } else if !Has(k, b.items, last) {
          assert m.items[|b.items|] == last && k.same(last, last);
        }
      }
    }
  }

  /** What is all there already adds nothing. */
  lemma {:induction false} NothingToAdd<T(!new)>(k: Kind<T>, incoming: seq<T>, current: seq<T>)
    requires forall i | 0 <= i < |incoming| :: Has(k, current, incoming[i])
    ensures AddAll(k, incoming, current).items == current && AddAll(k, incoming, current).added == []
    ensures AddAll(k, incoming, current).skipped == |incoming|
  {
    if incoming != [] {
      var before := incoming[..|incoming| - 1];
      assert forall i | 0 <= i < |before| :: before[i] == incoming[i];
      NothingToAdd(k, before, current);
    }
  }

  // ---- The preview -----------------------------------------------------------------------------------

  /** How many of `incoming` are already present. */
  function Duplicates<T>(k: Kind<T>, incoming: seq<T>, current: seq<T>): nat {
    if incoming == [] then 0
    else
      Duplicates(k, incoming[..|incoming| - 1], current)
        + if Has(k, current, incoming[|incoming| - 1]) then 1 else 0
  }

  /** Two imported records that are the same as each other and as nothing already present. */
  ghost predicate TwoNewAreSame<T>(k: Kind<T>, incoming: seq<T>, current: seq<T>) {
    exists i, j | 0 <= i < j < |incoming| ::
      !Has(k, current, incoming[i]) && !Has(k, current, incoming[j]) && k.same(incoming[j], incoming[i])
  }

  lemma HasEither<T>(k: Kind<T>, a: seq<T>, b: seq<T>, x: T)
    ensures Has(k, a + b, x) <==> Has(k, a, x) || Has(k, b, x)
  {
    assert forall i | 0 <= i < |a| :: (a + b)[i] == a[i];
    assert forall i | 0 <= i < |b| :: (a + b)[|a| + i] == b[i];
  }

  lemma NoneAddedIsSame<T>(k: Kind<T>, before: seq<T>, last: T, current: seq<T>, added: seq<T>)
    requires !TwoNewAreSame(k, before + [last], current) && !Has(k, current, last)
    requires forall x :: x in added ==> x in before && !Has(k, current, x)
    ensures !Has(k, added, last)
  {
    var incoming := before + [last];
    forall i | 0 <= i < |added| ensures !k.same(last, added[i]) {
      assert added[i] in added;
      var j :| 0 <= j < |before| && before[j] == added[i];
      assert incoming[j] == added[i] && incoming[|before|] == last;
    }
  }

  lemma FewerAreSame<T>(k: Kind<T>, before: seq<T>, last: T, current: seq<T>)
    requires TwoNewAreSame(k, before, current)
    ensures TwoNewAreSame(k, before + [last], current)
  {
    var i, j :| 0 <= i < j < |before|
      && !Has(k, current, before[i]) && !Has(k, current, before[j]) && k.same(before[j], before[i]);
    var incoming := before + [last];
    assert incoming[i] == before[i] && incoming[j] == before[j];
  }

  lemma {:induction false} NewOnesAreAdded<T(!new)>(k: Kind<T>, incoming: seq<T>, current: seq<T>)
    requires !TwoNewAreSame(k, incoming, current)
    ensures forall x :: x in AddAll(k, incoming, current).added <==> x in incoming && !Has(k, current, x)
    ensures AddAll(k, incoming, current).skipped == Duplicates(k, incoming, current)
  {
    if incoming != [] {
      var before, last := incoming[..|incoming| - 1], incoming[|incoming| - 1];
      var b := AddAll(k, before, current);
      assert AddAll(k, incoming, current) == Add(k, b, last) && incoming == before + [last];
      if TwoNewAreSame(k, before, current) {
        FewerAreSame(k, before, last, current);
      }
      NewOnesAreAdded(k, before, current);
      hide AddAll, TwoNewAreSame, Find;
      HasEither(k, current, b.added, last);
      if !Has(k, current, last) {
        NoneAddedIsSame(k, before, last, current, b.added);
      }
    }
  }

  lemma {:induction false} PreviewNeverExceeds<T(!new)>(k: Kind<T>, incoming: seq<T>, current: seq<T>)
    ensures Duplicates(k, incoming, current) <= AddAll(k, incoming, current).skipped
  {
    if incoming != [] {
      var before, last := incoming[..|incoming| - 1], incoming[|incoming| - 1];
      PreviewNeverExceeds(k, before, current);
      if Has(k, current, last) {
        var i :| 0 <= i < |current| && k.same(last, current[i]);
        assert AddAll(k, before, current).items[i] == current[i];
      }
    }
  }

  /** The preview counts as duplicates exactly what the import skips, unless two imported records
      that are both new here are the same; then it counts fewer. */
  lemma PreviewExactly<T(!new)>(k: Kind<T>, incoming: seq<T>, current: seq<T>)
    ensures Duplicates(k, incoming, current) <= AddAll(k, incoming, current).skipped
    ensures Duplicates(k, incoming, current) == AddAll(k, incoming, current).skipped
       <==> !TwoNewAreSame(k, incoming, current)
  {
    PreviewNeverExceeds(k, incoming, current);
    if !TwoNewAreSame(k, incoming, current) {
      NewOnesAreAdded(k, incoming, current);
    } else {
      PreviewFallsShort(k, incoming, current);
    }
  }

  lemma {:induction false} PreviewFallsShort<T(!new)>(k: Kind<T>, incoming: seq<T>, current: seq<T>)
    requires TwoNewAreSame(k, incoming, current)
    ensures Duplicates(k, incoming, current) < AddAll(k, incoming, current).skipped
  {
    hide AddAll, Find, Has;
    AddedLast(k, incoming, current);
    var before, last := incoming[..|incoming| - 1], incoming[|incoming| - 1];
    assert forall i | 0 <= i < |before| :: before[i] == incoming[i];
    var b := AddAll(k, before, current);
    HasEither(k, current, b.added, last);
    if TwoNewAreSame(k, before, current) {
      PreviewFallsShort(k, before, current);
    } else {
      NewOnesAreAdded(k, before, current);
      var i, j :| 0 <= i < j < |incoming|
        && !Has(k, current, incoming[i]) && !Has(k, current, incoming[j]) && k.same(incoming[j], incoming[i]);
      assert j == |before| && before[i] in b.added;
      HasIn(k, b.added, last, before[i]);
    }
  }

  lemma HasIn<T>(k: Kind<T>, items: seq<T>, item: T, x: T)
    requires x in items && k.same(item, x)
    ensures Has(k, items, item)
  {
  }

  /** Two lists that sameness cannot tell apart. */
  ghost predicate Alike<T(!new)>(k: Kind<T>, xs: seq<T>, ys: seq<T>) {
    && |xs| == |ys|
    && forall i, e: T | 0 <= i < |xs| ::
      (k.same(xs[i], e) <==> k.same(ys[i], e)) && (k.same(e, xs[i]) <==> k.same(e, ys[i]))
  }

  lemma AlikeHave<T(!new)>(k: Kind<T>, xs: seq<T>, ys: seq<T>, current: seq<T>, i: nat)
    requires Alike(k, xs, ys) && i < |xs|
    ensures Has(k, current, xs[i]) <==> Has(k, current, ys[i])
  {
  }

  lemma {:induction false} AlikeDuplicates<T(!new)>(k: Kind<T>, xs: seq<T>, ys: seq<T>, current: seq<T>)
    requires Alike(k, xs, ys)
    ensures Duplicates(k, xs, current) == Duplicates(k, ys, current)
  {
    if xs != [] {
      AlikeHave(k, xs, ys, current, |xs| - 1);
      AlikeDuplicates(k, xs[..|xs| - 1], ys[..|ys| - 1], current);
    }
  }

  lemma AlikeTwoNew<T(!new)>(k: Kind<T>, xs: seq<T>, ys: seq<T>, current: seq<T>)
    requires Alike(k, xs, ys) && TwoNewAreSame(k, xs, current)
    ensures TwoNewAreSame(k, ys, current)
  {
    var i, j :| 0 <= i < j < |xs| && !Has(k, current, xs[i]) && !Has(k, current, xs[j]) && k.same(xs[j], xs[i]);
    AlikeHave(k, xs, ys, current, i);
    AlikeHave(k, xs, ys, current, j);
    assert k.same(ys[j], ys[i]);
  }

  /** The preview of one list is right about the import of another just like it. */
  lemma PreviewOfAlike<T(!new)>(k: Kind<T>, xs: seq<T>, ys: seq<T>, current: seq<T>)
    requires Alike(k, xs, ys)
    ensures Duplicates(k, xs, current) <= AddAll(k, ys, current).skipped
    ensures Duplicates(k, xs, current) == AddAll(k, ys, current).skipped <==> !TwoNewAreSame(k, xs, current)
  {
    AlikeDuplicates(k, xs, ys, current);
    PreviewExactly(k, ys, current);
    if TwoNewAreSame(k, xs, current) {
      AlikeTwoNew(k, xs, ys, current);
    }
    if TwoNewAreSame(k, ys, current) {
      AlikeTwoNew(k, ys, xs, current);
    }
  }
}
