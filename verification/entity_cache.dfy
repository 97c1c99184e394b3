/** The cache-or-build step `normalizeIncluded` applies to every included
    record of one kind (src/pages/api/schedule.ts:156-167, 172-189 and
    194-210), stated once for any entity type. The three kinds never share a
    table, so each kind's tables evolve exactly as this step run over that
    kind's records alone. */
module EntityCache {
  import opened Optional

  /** The ids carried by a sequence of `(id, freshly built entity)` entries. */
  function Ids<E>(entries: seq<(string, E)>): set<string> {
    set k | 0 <= k < |entries| :: entries[k].0
  }

  /** The entity built for the first entry that carries `id`, if any. */
  function FirstBuilt<E>(entries: seq<(string, E)>, id: string): Option<E>
    decreases |entries|
  {
    if |entries| == 0 then None
    else if entries[0].0 == id then Some(entries[0].1)
    else FirstBuilt(entries[1..], id)
  }

  /** Processes the entries in order: each id is looked up in `cache`; a hit
      is reused as it is, a miss takes the freshly built entity; the chosen
      value is written back to `cache` and published in `out`. Returns the
      final `(cache, out)`; `AbsorbCaches` states what they hold. */
  function Absorb<E>(entries: seq<(string, E)>, cache: map<string, E>, out: map<string, E>)
    : (map<string, E>, map<string, E>)
    decreases |entries|
  {
    if |entries| == 0 then (cache, out)
    else
      var id := entries[0].0;
      var value := if id in cache then cache[id] else entries[0].1;
      Absorb(entries[1..], cache[id := value], out[id := value])
  }

  lemma IdsCons<E>(entries: seq<(string, E)>)
    requires |entries| > 0
    ensures Ids(entries) == {entries[0].0} + Ids(entries[1..])
  {
    var rest := entries[1..];
    assert forall k :: 0 < k < |entries| ==> entries[k] == rest[k - 1];
    assert forall k :: 0 <= k < |rest| ==> rest[k] == entries[k + 1];
  }

  /** After the step the cache holds every id it held before, with its old
      value (a cached entity is never replaced, even by newer upstream
      data), plus every new id, whose value is the one built from its FIRST
      entry; the output gains every id of the entries, each with exactly the
      value now cached, and keeps its other entries. */
  lemma {:induction false} AbsorbCaches<E>(entries: seq<(string, E)>, cache: map<string, E>, out: map<string, E>)
    ensures var (cache', out') := Absorb(entries, cache, out);
      && cache'.Keys == cache.Keys + Ids(entries)
      && out'.Keys == out.Keys + Ids(entries)
      && (forall id :: id in cache ==> cache'[id] == cache[id])
      && (forall id :: id in Ids(entries) && id !in cache ==> FirstBuilt(entries, id) == Some(cache'[id]))
      && (forall id :: id in Ids(entries) ==> out'[id] == cache'[id])
      && (forall id :: id in out && id !in Ids(entries) ==> out'[id] == out[id])
    decreases |entries|
  {
    if |entries| > 0 {
      var id := entries[0].0;
      var value := if id in cache then cache[id] else entries[0].1;
      IdsCons(entries);
      AbsorbCaches(entries[1..], cache[id := value], out[id := value]);
    }
  }

  /** The `(id, entity)` entries that `pick` selects from `items`, in order. */
  function Entries<R, E>(items: seq<R>, pick: R -> Option<(string, E)>): seq<(string, E)>
    decreases |items|
  {
    if |items| == 0 then []
    else
      (if pick(items[0]).Some? then [pick(items[0]).value] else []) + Entries(items[1..], pick)
  }

  /** The entry `pick` selects from one item, if any. */
  function Picked<R, E>(item: R, pick: R -> Option<(string, E)>): seq<(string, E)> {
    if pick(item).Some? then [pick(item).value] else []
  }

  lemma EntriesCons<R, E>(items: seq<R>, pick: R -> Option<(string, E)>)
    requires |items| > 0
    ensures Entries(items, pick) == Picked(items[0], pick) + Entries(items[1..], pick)
  {
  }

  /** Absorbing two runs of entries one after the other is absorbing them
      joined. */
  lemma {:induction false} AbsorbAppend<E>(a: seq<(string, E)>, b: seq<(string, E)>, cache: map<string, E>, out: map<string, E>)
    ensures Absorb(a + b, cache, out) == Absorb(b, Absorb(a, cache, out).0, Absorb(a, cache, out).1)
    decreases |a|
  {
    if |a| > 0 {
      var id := a[0].0;
      var value := if id in cache then cache[id] else a[0].1;
      assert (a + b)[0] == a[0];
      assert (a + b)[1..] == a[1..] + b;
      AbsorbAppend(a[1..], b, cache[id := value], out[id := value]);
    } else {
      assert a + b == b;
    }
  }

  /** The ids of the items `pick` selects. */
  function PickedIds<R, E>(items: seq<R>, pick: R -> Option<(string, E)>): set<string> {
    set k | 0 <= k < |items| && pick(items[k]).Some? :: pick(items[k]).value.0
  }

  lemma {:induction false} EntriesIds<R, E>(items: seq<R>, pick: R -> Option<(string, E)>)
    ensures Ids(Entries(items, pick)) == PickedIds(items, pick)
    decreases |items|
  {
    if |items| > 0 {
      var rest := items[1..];
      EntriesIds(rest, pick);
      var head: seq<(string, E)> := if pick(items[0]).Some? then [pick(items[0]).value] else [];
      var es := Entries(items, pick);
      assert es == head + Entries(rest, pick);
      assert Ids(es) == Ids(head) + Ids(Entries(rest, pick)) by {
        forall x | x in Ids(es) ensures x in Ids(head) + Ids(Entries(rest, pick)) {
          var k :| 0 <= k < |es| && es[k].0 == x;
          if k >= |head| {
            assert es[k] == Entries(rest, pick)[k - |head|];
          }
        }
        forall x | x in Ids(head) + Ids(Entries(rest, pick)) ensures x in Ids(es) {
          if x in Ids(head) {
            assert es[0] == head[0];
          } else {
            var k :| 0 <= k < |Entries(rest, pick)| && Entries(rest, pick)[k].0 == x;
            assert es[k + |head|] == Entries(rest, pick)[k];
          }
        }
      }
      assert PickedIds(items, pick) == PickedIds([items[0]], pick) + PickedIds(rest, pick) by {
        forall x | x in PickedIds(items, pick) ensures x in PickedIds([items[0]], pick) + PickedIds(rest, pick) {
          var k :| 0 <= k < |items| && pick(items[k]).Some? && pick(items[k]).value.0 == x;
          if k == 0 {
            assert [items[0]][0] == items[0];
          } else {
            assert rest[k - 1] == items[k];
          }
        }
        forall x | x in PickedIds([items[0]], pick) + PickedIds(rest, pick) ensures x in PickedIds(items, pick) {
          if x in PickedIds(rest, pick) {
            var k :| 0 <= k < |rest| && pick(rest[k]).Some? && pick(rest[k]).value.0 == x;
            assert items[k + 1] == rest[k];
          } else {
            assert [items[0]][0] == items[0];
          }
        }
      }
    }
  }

  /** The cache step over the entries `pick` selects, from an empty output:
      the output's keys are exactly the selected ids, each with the value now
      cached; old cache values stay; a new id is cached with the entity built
      from its first selected item. */
  lemma AbsorbPicked<R, E>(items: seq<R>, pick: R -> Option<(string, E)>, cache: map<string, E>)
    ensures var (cache', out') := Absorb(Entries(items, pick), cache, map[]);
      && out'.Keys == PickedIds(items, pick)
      && cache'.Keys == cache.Keys + PickedIds(items, pick)
      && (forall id :: id in out' ==> out'[id] == cache'[id])
      && (forall id :: id in cache ==> cache'[id] == cache[id])
      && (forall id :: id in PickedIds(items, pick) && id !in cache ==>
            FirstBuilt(Entries(items, pick), id) == Some(cache'[id]))
  {
    AbsorbCaches(Entries(items, pick), cache, map[]);
    EntriesIds(items, pick);
  }
}
