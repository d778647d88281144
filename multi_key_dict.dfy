/**
 * The duplicate-key dictionary of utils/MultiKeyDict.py.
 *
 * Every insertion gets a fresh id from a counter. `keys` maps a key to the ids inserted
 * under it (oldest first) and `values` maps an id to its (key, value) pair. The two
 * indexes are kept consistent by every operation; `ValidRep` states how.
 */
module MultiKey {
  import opened Wrappers
  import opened Sets

  type Id = nat

  /** The `(key, value)` pair stored under one id. */
  datatype Entry<V> = Entry(key: string, value: V)

  /** `_keys.get(key, [])`: the ids of a key, or none for an absent key. */
  function IdsOf(keys: map<string, seq<Id>>, key: string): (ids: seq<Id>)
    ensures key !in keys ==> ids == []
  {
    if key in keys then keys[key] else []
  }

  predicate Increasing(s: seq<Id>)
  {
    forall i, j :: 0 <= i < j < |s| ==> s[i] < s[j]
  }

  /** Every id was handed out by the counter. */
  ghost predicate IdsIssued<V>(values: map<Id, Entry<V>>, counter: nat)
  {
    forall id :: id in values ==> 1 <= id <= counter
  }

  /** A key is present only while it has entries, listed in insertion order. */
  ghost predicate ListsOrdered(keys: map<string, seq<Id>>)
  {
    forall k :: k in keys ==> |keys[k]| > 0 && Increasing(keys[k])
  }

  /** Each listed id holds an entry of that key. */
  ghost predicate ListedHeld<V>(keys: map<string, seq<Id>>, values: map<Id, Entry<V>>)
  {
    forall k, i :: k in keys && 0 <= i < |keys[k]| ==> keys[k][i] in values && values[keys[k][i]].key == k
  }

  /** Each entry is listed under its key. */
  ghost predicate HeldListed<V>(keys: map<string, seq<Id>>, values: map<Id, Entry<V>>)
  {
    forall id :: id in values ==> values[id].key in keys && id in keys[values[id].key]
  }

  /** The representation invariant linking `_keys`, `_values` and `_counter`. */
  ghost predicate ValidRep<V>(keys: map<string, seq<Id>>, values: map<Id, Entry<V>>, counter: nat)
  {
    IdsIssued(values, counter) && ListsOrdered(keys) && ListedHeld(keys, values) && HeldListed(keys, values)
  }

  /**
   * Python list indexing of a list of length n: a position counted from the front for
   * index >= 0, from the back for index < 0, or None where Python raises IndexError.
   */
  function PyIndex(n: nat, index: int): (p: Option<nat>)
    ensures p.Some? <==> -(n as int) <= index < n
    ensures p.Some? ==> p.value < n && (index >= 0 ==> p.value == index) && (index < 0 ==> p.value == n + index)
  {
    if 0 <= index < n then Some(index)
    else if -(n as int) <= index < 0 then Some(n + index)
    else None
  }

  /** The ids in 1..n that hold an entry, in ascending order: `sorted(self._values)`. */
  function AscendingIds<V>(values: map<Id, Entry<V>>, n: nat): (r: seq<Id>)
    ensures forall i :: 0 <= i < |r| ==> r[i] in values && 1 <= r[i] <= n
    ensures Increasing(r)
    ensures forall id :: id in values && 1 <= id <= n ==> id in r
  {
    if n == 0 then []
    else
      var prev := AscendingIds(values, n - 1);
      if n in values then prev + [n] else prev
  }

  /** The ids in 1..n that hold an entry, as a set. */
  function IdsUpTo<V>(values: map<Id, Entry<V>>, n: nat): (r: set<Id>)
    ensures forall id :: id in r <==> id in values && 1 <= id <= n
  {
    if n == 0 then {}
    else if n in values then IdsUpTo(values, n - 1) + {n}
    else IdsUpTo(values, n - 1)
  }

  /** The ids 1..n the counter has handed out after n insertions. */
  function Range(n: nat): (r: set<Id>)
    ensures forall i :: i in r <==> 1 <= i <= n
    ensures |r| == n
  {
    if n == 0 then {} else Range(n - 1) + {n}
  }

  /** Iteration visits every entry exactly once. */
  lemma {:induction false} AscendingCount<V>(values: map<Id, Entry<V>>, n: nat)
    ensures |AscendingIds(values, n)| == |IdsUpTo(values, n)|
  {
    if n > 0 {
      AscendingCount(values, n - 1);
    }
  }

  /** Ids above n do not affect the iteration order of the ids up to n. */
  lemma {:induction false} AscendingIgnoresLater<V>(values: map<Id, Entry<V>>, m: nat, id: Id, e: Entry<V>)
    requires m < id
    ensures AscendingIds(values[id := e], m) == AscendingIds(values, m)
  {
    if m > 0 {
      AscendingIgnoresLater(values, m - 1, id, e);
    }
  }

  /** A new insertion is yielded last by iteration: iteration order is insertion order. */
  lemma InsertionIteratedLast<V>(values: map<Id, Entry<V>>, counter: nat, e: Entry<V>)
    ensures AscendingIds(values[counter + 1 := e], counter + 1) == AscendingIds(values, counter) + [counter + 1]
  {
    AscendingIgnoresLater(values, counter, counter + 1, e);
  }

  /** Ids are never reused, so there are at most as many entries as insertions. */
  lemma EntriesWithinCounter<V>(keys: map<string, seq<Id>>, values: map<Id, Entry<V>>, counter: nat)
    requires ValidRep(keys, values, counter)
    ensures |values| <= counter
  {
    assert values.Keys <= Range(counter);
    SubsetCard(values.Keys, Range(counter));
  }

  /** There are never more distinct keys than entries: `len(d) <= d.total_entries()`. */
  lemma {:induction false} KeysFewerThanEntries<V>(keys: map<string, seq<Id>>, values: map<Id, Entry<V>>)
    requires forall k :: k in keys ==> |keys[k]| > 0 && keys[k][0] in values && values[keys[k][0]].key == k
    ensures |keys| <= |values|
    decreases |keys|
  {
    if keys != map[] {
      var k :| k in keys;
      var first := keys[k][0];
      var keys', values' := keys - {k}, values - {first};
      forall k' | k' in keys'
        ensures |keys'[k']| > 0 && keys'[k'][0] in values' && values'[keys'[k'][0]].key == k'
      {
        assert values[keys[k'][0]].key == k' != k;
      }
      KeysFewerThanEntries(keys', values');
      assert keys'.Keys == keys.Keys - {k};
      assert values'.Keys == values.Keys - {first};
    }
  }

  /** A dictionary without keys holds no entries. */
  lemma NoKeysNoEntries<V>(keys: map<string, seq<Id>>, values: map<Id, Entry<V>>, counter: nat)
    requires ValidRep(keys, values, counter)
    ensures keys == map[] <==> values == map[]
  {
    if values != map[] {
      var id :| id in values;
      assert values[id].key in keys;
    }
    if keys != map[] {
      var k :| k in keys;
      assert keys[k][0] in values;
    }
  }

  /** The values listed under a key, in the order of its ids. */
  function AllValues<V>(keys: map<string, seq<Id>>, values: map<Id, Entry<V>>, key: string): (r: seq<V>)
    requires forall i :: 0 <= i < |IdsOf(keys, key)| ==> IdsOf(keys, key)[i] in values
    ensures |r| == |IdsOf(keys, key)|
    ensures forall i :: 0 <= i < |r| ==> r[i] == values[IdsOf(keys, key)[i]].value
  {
    var ids := IdsOf(keys, key);
    seq(|ids|, i requires 0 <= i < |ids| => values[ids[i]].value)
  }

  lemma SetKeepsOrder<V>(keys: map<string, seq<Id>>, values: map<Id, Entry<V>>, counter: nat, key: string)
    requires IdsIssued(values, counter) && ListsOrdered(keys) && ListedHeld(keys, values)
    ensures ListsOrdered(keys[key := IdsOf(keys, key) + [counter + 1]])
  {
    var ids := IdsOf(keys, key);
    forall i | 0 <= i < |ids|
      ensures ids[i] < counter + 1
    {
      assert ids[i] in values;
    }
  }

  lemma SetKeepsListedHeld<V>(keys: map<string, seq<Id>>, values: map<Id, Entry<V>>, counter: nat, key: string, value: V)
    requires IdsIssued(values, counter) && ListedHeld(keys, values)
    ensures ListedHeld(keys[key := IdsOf(keys, key) + [counter + 1]], values[counter + 1 := Entry(key, value)])
  {
    var keys', values' := keys[key := IdsOf(keys, key) + [counter + 1]], values[counter + 1 := Entry(key, value)];
    forall k, i | k in keys' && 0 <= i < |keys'[k]|
      ensures keys'[k][i] in values' && values'[keys'[k][i]].key == k
    {
      if k == key && i == |keys'[k]| - 1 {
      } else {
        assert keys'[k][i] == keys[k][i];
        assert keys[k][i] in values;
      }
    }
  }

  lemma SetKeepsHeldListed<V>(keys: map<string, seq<Id>>, values: map<Id, Entry<V>>, counter: nat, key: string, value: V)
    requires HeldListed(keys, values)
    ensures HeldListed(keys[key := IdsOf(keys, key) + [counter + 1]], values[counter + 1 := Entry(key, value)])
  {
    var keys', values' := keys[key := IdsOf(keys, key) + [counter + 1]], values[counter + 1 := Entry(key, value)];
    forall id | id in values'
      ensures values'[id].key in keys' && id in keys'[values'[id].key]
    {
      if id != counter + 1 {
        var k := values[id].key;
        assert id in keys[k];
        var i :| 0 <= i < |keys[k]| && keys[k][i] == id;
        assert keys'[k][i] == id;
      }
    }
  }

  /** The inserted value comes last among its key's values. */
  lemma SetAppendsValue<V>(keys: map<string, seq<Id>>, values: map<Id, Entry<V>>, counter: nat, key: string, value: V)
    requires IdsIssued(values, counter) && ListedHeld(keys, values)
    ensures var keys', values' := keys[key := IdsOf(keys, key) + [counter + 1]], values[counter + 1 := Entry(key, value)];
      && ListedHeld(keys', values')
      && AllValues(keys', values', key) == AllValues(keys, values, key) + [value]
  {
    SetKeepsListedHeld(keys, values, counter, key, value);
    var keys', values' := keys[key := IdsOf(keys, key) + [counter + 1]], values[counter + 1 := Entry(key, value)];
    var ids := IdsOf(keys, key);
    forall i | 0 <= i < |ids|
      ensures values'[ids[i]] == values[ids[i]]
    {
      assert ids[i] in values;
    }
    assert AllValues(keys', values', key) == AllValues(keys, values, key) + [value];
  }

  /** An insertion leaves the values of every other key alone. */
  lemma SetKeepsOtherValues<V>(keys: map<string, seq<Id>>, values: map<Id, Entry<V>>, counter: nat, key: string, value: V)
    requires IdsIssued(values, counter) && ListedHeld(keys, values)
    ensures var keys', values' := keys[key := IdsOf(keys, key) + [counter + 1]], values[counter + 1 := Entry(key, value)];
      && ListedHeld(keys', values')
      && forall k :: k != key ==> AllValues(keys', values', k) == AllValues(keys, values, k)
  {
    SetKeepsListedHeld(keys, values, counter, key, value);
    var keys', values' := keys[key := IdsOf(keys, key) + [counter + 1]], values[counter + 1 := Entry(key, value)];
    forall k | k != key
      ensures AllValues(keys', values', k) == AllValues(keys, values, k)
    {
      var ids := IdsOf(keys, k);
      assert IdsOf(keys', k) == ids;
      forall i | 0 <= i < |ids|
        ensures values'[ids[i]] == values[ids[i]]
      {
        assert ids[i] in values;
      }
    }
  }

  /** `__setitem__` keeps the representation invariant and appends to the key's values only. */
  lemma SetKeepsRep<V>(keys: map<string, seq<Id>>, values: map<Id, Entry<V>>, counter: nat, key: string, value: V)
    requires ValidRep(keys, values, counter)
    ensures var keys', values' := keys[key := IdsOf(keys, key) + [counter + 1]], values[counter + 1 := Entry(key, value)];
      && ValidRep(keys', values', counter + 1)
      && |values'| == |values| + 1
      && AllValues(keys', values', key) == AllValues(keys, values, key) + [value]
      && forall k :: k != key ==> AllValues(keys', values', k) == AllValues(keys, values, k)
  {
    SetKeepsOrder(keys, values, counter, key);
    SetKeepsHeldListed(keys, values, counter, key, value);
    SetAppendsValue(keys, values, counter, key, value);
    SetKeepsOtherValues(keys, values, counter, key, value);
    assert counter + 1 !in values;
  }

  /** The list of a key with position p popped. */
  function Pop(ids: seq<Id>, p: nat): (rest: seq<Id>)
    requires p < |ids|
    ensures |rest| == |ids| - 1
    ensures forall i :: 0 <= i < |rest| ==> rest[i] == (if i < p then ids[i] else ids[i + 1])
    ensures forall i :: 0 <= i < |ids| && i != p ==> ids[i] in rest
  {
    var rest := ids[..p] + ids[p + 1..];
    assert forall i :: 0 <= i < |rest| ==> rest[i] == (if i < p then ids[i] else ids[i + 1]);
    assert forall i :: 0 <= i < |ids| && i != p ==> ids[i] in rest by {
      forall i | 0 <= i < |ids| && i != p
        ensures ids[i] in rest
      {
        if i < p {
          assert rest[i] == ids[i];
        } else {
          assert rest[i - 1] == ids[i];
        }
      }
    }
    rest
  }

  /** `_keys` after popping position p of the key's list, dropping the key once it is empty. */
  function PopKey(keys: map<string, seq<Id>>, key: string, p: nat): map<string, seq<Id>>
    requires key in keys && p < |keys[key]|
  {
    var rest := Pop(keys[key], p);
    if rest == [] then keys - {key} else keys[key := rest]
  }

  lemma RemoveKeepsOrder(keys: map<string, seq<Id>>, key: string, p: nat)
    requires ListsOrdered(keys) && key in keys && p < |keys[key]|
    ensures ListsOrdered(PopKey(keys, key, p))
  {
  }

  lemma RemoveKeepsListedHeld<V>(keys: map<string, seq<Id>>, values: map<Id, Entry<V>>, key: string, p: nat)
    requires ListsOrdered(keys) && ListedHeld(keys, values) && key in keys && p < |keys[key]|
    ensures ListedHeld(PopKey(keys, key, p), values - {keys[key][p]})
  {
    var keys', values' := PopKey(keys, key, p), values - {keys[key][p]};
    forall k, i | k in keys' && 0 <= i < |keys'[k]|
      ensures keys'[k][i] in values' && values'[keys'[k][i]].key == k
    {
      if k != key {
        assert keys'[k][i] == keys[k][i];
        assert values[keys[k][i]].key == k;
        assert values[keys[key][p]].key == key;
      }
    }
  }

  lemma RemoveKeepsHeldListed<V>(keys: map<string, seq<Id>>, values: map<Id, Entry<V>>, key: string, p: nat)
    requires HeldListed(keys, values) && key in keys && p < |keys[key]|
    ensures HeldListed(PopKey(keys, key, p), values - {keys[key][p]})
  {
    var ids := keys[key];
    var keys', values' := PopKey(keys, key, p), values - {ids[p]};
    forall id | id in values'
      ensures values'[id].key in keys' && id in keys'[values'[id].key]
    {
      var k := values[id].key;
      assert id in keys[k];
      if k == key {
        var i :| 0 <= i < |ids| && ids[i] == id;
        assert i != p;
      }
    }
  }

  /** `remove` of the id at position p of the key's list keeps the representation invariant. */
  lemma RemoveKeepsRep<V>(keys: map<string, seq<Id>>, values: map<Id, Entry<V>>, counter: nat, key: string, p: nat)
    requires ValidRep(keys, values, counter)
    requires key in keys && p < |keys[key]|
    ensures var keys', values' := PopKey(keys, key, p), values - {keys[key][p]};
      && ValidRep(keys', values', counter)
      && |values'| == |values| - 1
      && forall k :: k != key ==> AllValues(keys', values', k) == AllValues(keys, values, k)
  {
    RemoveKeepsOrder(keys, key, p);
    RemoveKeepsListedHeld(keys, values, key, p);
    RemoveKeepsHeldListed(keys, values, key, p);
    var keys', values' := PopKey(keys, key, p), values - {keys[key][p]};
    forall k | k != key
      ensures AllValues(keys', values', k) == AllValues(keys, values, k)
    {
      assert IdsOf(keys', k) == IdsOf(keys, k);
    }
  }

  class MultiKeyDict<V> {
    var keys: map<string, seq<Id>>
    var values: map<Id, Entry<V>>
    var counter: nat

    ghost predicate Valid()
      reads this
    {
      ValidRep(keys, values, counter)
    }

    constructor ()
      ensures Valid()
      ensures keys == map[] && values == map[] && counter == 0
    {
      keys := map[];
      values := map[];
      counter := 0;
    }

    /** `d[key] = value`: a fresh id, recorded in both indexes and at the end of the key's list. */
    method Set(key: string, value: V)
      requires Valid()
      modifies this
      ensures Valid()
      ensures counter == old(counter) + 1
      ensures values == old(values)[counter := Entry(key, value)]
      ensures keys == old(keys)[key := IdsOf(old(keys), key) + [counter]]
      ensures TotalEntries() == old(TotalEntries()) + 1
      ensures GetAll(key) == old(GetAll(key)) + [value]
      ensures forall k :: k != key ==> GetAll(k) == old(GetAll(k))
    {
      var id := counter + 1;
      SetKeepsRep(keys, values, counter, key, value);
      counter, values, keys := id, values[id := Entry(key, value)], keys[key := IdsOf(keys, key) + [id]];
    }

    /** `get_all(key)`: the key's values in insertion order; empty for an absent key. */
    function GetAll(key: string): (r: seq<V>)
      reads this
      requires Valid()
      ensures |r| == |IdsOf(keys, key)|
      ensures forall i :: 0 <= i < |r| ==> Entry(key, r[i]) == values[IdsOf(keys, key)[i]]
    {
      AllValues(keys, values, key)
    }

    /** `d[id]` with an integer: the value stored under that id, or KeyError. */
    function GetById(id: Id): (r: Result<V>)
      reads this
      requires Valid()
      ensures r.Ok? <==> id in values
      ensures r.Ok? ==> 1 <= id <= counter && Entry(values[id].key, r.value) == values[id]
      ensures r.Ok? ==> id in IdsOf(keys, values[id].key)
    {
      if id in values then Ok(values[id].value) else Err(KeyError)
    }

    /** `latest(key)`, also `d[key]` with a string: the newest value, or KeyError. */
    function Latest(key: string): (r: Result<V>)
      reads this
      requires Valid()
      ensures r.Err? <==> GetAll(key) == []
      ensures r.Err? ==> r.error == KeyError
      ensures r.Ok? ==> r.value == GetAll(key)[|GetAll(key)| - 1]
    {
      if key !in keys then Err(KeyError)
      else Ok(values[keys[key][|keys[key]| - 1]].value)
    }

    /** `oldest(key)`: the first value inserted under the key, or KeyError. */
    function Oldest(key: string): (r: Result<V>)
      reads this
      requires Valid()
      ensures r.Err? <==> GetAll(key) == []
      ensures r.Err? ==> r.error == KeyError
      ensures r.Ok? ==> r.value == GetAll(key)[0]
    {
      if key !in keys then Err(KeyError)
      else Ok(values[keys[key][0]].value)
    }

    /** `get(key, default)`: the newest value, or the default when `latest` raises KeyError. */
    function Get(key: string, default: V): (r: V)
      reads this
      requires Valid()
      ensures GetAll(key) == [] ==> r == default
      ensures GetAll(key) != [] ==> Latest(key) == Ok(r)
    {
      match Latest(key)
      case Ok(v) => v
      case Err(_) => default
    }

    /** `get_by_index(key, index)`: the index-th value with Python indexing, or IndexError. */
    function GetByIndex(key: string, index: int): (r: Result<V>)
      reads this
      requires Valid()
      ensures r.Ok? <==> -|GetAll(key)| <= index < |GetAll(key)|
      ensures r.Err? ==> r.error == IndexError
      ensures r.Ok? && index >= 0 ==> r.value == GetAll(key)[index]
      ensures r.Ok? && index < 0 ==> r.value == GetAll(key)[|GetAll(key)| + index]
    {
      var ids := IdsOf(keys, key);
      if ids == [] || index >= |ids| then Err(IndexError)
      else match PyIndex(|ids|, index)
        case Some(p) => Ok(values[ids[p]].value)
        case None => Err(IndexError)
    }

    /** `key in d` with a string. */
    function ContainsKey(key: string): (b: bool)
      reads this
      requires Valid()
      ensures b <==> GetAll(key) != []
    {
      key in keys
    }

    /** `id in d` with an integer. */
    function ContainsId(id: Id): (b: bool)
      reads this
      requires Valid()
      ensures b <==> GetById(id).Ok?
      ensures b ==> 1 <= id <= counter && ContainsKey(values[id].key)
    {
      id in values
    }

    /** `len(d)`: the number of distinct keys, never more than the number of entries. */
    function Len(): (n: nat)
      reads this
      requires Valid()
      ensures n <= TotalEntries()
      ensures n == 0 <==> TotalEntries() == 0
    {
      KeysFewerThanEntries(keys, values);
      NoKeysNoEntries(keys, values, counter);
      |keys|
    }

    /** `size_key(key)`: how many entries the key has. */
    function SizeKey(key: string): (n: nat)
      reads this
      requires Valid()
      ensures n == |GetAll(key)|
      ensures n > 0 <==> ContainsKey(key)
    {
      |IdsOf(keys, key)|
    }

    /** `total_entries()`: all entries, duplicates included; at most the number of insertions. */
    function TotalEntries(): (n: nat)
      reads this
      requires Valid()
      ensures n <= counter
    {
      EntriesWithinCounter(keys, values, counter);
      |values|
    }

    /**
     * `remove(key, index=-1)`: KeyError for an absent key, IndexError for an index outside
     * the key's list; otherwise the id at that position leaves both indexes, and the key
     * leaves `keys` with its last entry.
     */
    method Remove(key: string, index: int := -1) returns (r: Result<()>)
      requires Valid()
      modifies this
      ensures Valid()
      ensures counter == old(counter)
      ensures key !in old(keys) ==> r == Err(KeyError) && keys == old(keys) && values == old(values)
      ensures key in old(keys) && PyIndex(|old(keys)[key]|, index).None? ==>
        r == Err(IndexError) && keys == old(keys) && values == old(values)
      ensures key in old(keys) && PyIndex(|old(keys)[key]|, index).Some? ==>
        var ids := old(keys)[key];
        var p := PyIndex(|ids|, index).value;
        && r == Ok(())
        && values == old(values) - {ids[p]}
        && keys == PopKey(old(keys), key, p)
      ensures r.Ok? ==> TotalEntries() == old(TotalEntries()) - 1
      ensures r.Ok? ==> forall k :: k != key ==> GetAll(k) == old(GetAll(k))
    {
      var ids := IdsOf(keys, key);
      if ids == [] {
        return Err(KeyError);
      }
      var pos := PyIndex(|ids|, index);
      if pos.None? {
        return Err(IndexError);
      }
      var p := pos.value;
      RemoveKeepsRep(keys, values, counter, key, p);
      values := values - {ids[p]};
      keys := PopKey(keys, key, p);
      r := Ok(());
    }

    /** `clear()`: both indexes emptied; the counter is kept, so ids are never reused. */
    method Clear()
      requires Valid()
      modifies this
      ensures Valid()
      ensures keys == map[] && values == map[] && counter == old(counter)
    {
      keys := map[];
      values := map[];
    }

    /** `iter(d)`: every `(key, value)` pair once, in ascending id order, i.e. insertion order. */
    method Iterate() returns (r: seq<Entry<V>>)
      requires Valid()
      ensures |r| == TotalEntries()
      ensures var ids := AscendingIds(values, counter);
        |r| == |ids| && forall i :: 0 <= i < |r| ==> r[i] == values[ids[i]]
    {
      var ids := AscendingIds(values, counter);
      r := [];
      for j := 0 to |ids|
        invariant |r| == j
        invariant forall i :: 0 <= i < j ==> r[i] == values[ids[i]]
      {
        r := r + [values[ids[j]]];
      }
      AscendingCount(values, counter);
      assert IdsUpTo(values, counter) == values.Keys;
    }
  }
}
