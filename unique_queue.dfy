/**
 * The duplicate-dropping FIFO queues of utils/UniqueQueue.py.
 *
 * All four queue classes share one discipline: each queued item has a key, a `seen` set
 * holds the keys of the queued items, `_put` drops an item whose key is already seen,
 * and `_get` pops the head and forgets its key. They differ only in the key:
 *   - UniqueQueue and SafeUniqueQueue: `_get_hash`, the item's `str` for primitives, an
 *     MD5 digest of its `str` for other objects, and `str(id(item))` when that fails;
 *   - ObjectIDUniqueQueue: `id(item)`;
 *   - UniversalUniqueQueue: the object itself in a WeakSet, which is its identity for
 *     objects with default equality; ints, strings and bools cannot be weakly referenced
 *     (nor can None, floats, bytes, tuples, lists and dicts; `Obj` stands for an instance
 *     of a user-defined class, which can).
 * So the model is one class, `KeyedQueue`, parameterised by the key function and by which
 * items the seen-set can hold at all.
 */
module Unique {
  import opened Wrappers

  /** A Python value as far as hashing cares: primitives, or an object whose `str` may raise. */
  datatype Value =
    | Str(s: string)
    | Int(i: int)
    | Bool(b: bool)
    | Obj(repr: Option<string>)    // None: `str(item)` raises

  /** An object: its value and its `id()`. */
  datatype Item = Item(value: Value, address: nat)

  // ---------------------------------------------------------------------------------------
  // str() of integers and booleans

  function DigitChar(d: nat): (c: char)
    requires d < 10
    ensures '0' <= c <= '9'
    ensures c as int == '0' as int + d
  {
    ('0' as int + d) as char
  }

  function DigitValue(c: char): (d: nat)
    requires '0' <= c <= '9'
    ensures d < 10 && DigitChar(d) == c
    ensures d == c as int - '0' as int
  {
    (c as int - '0' as int) as nat
  }

  predicate AllDigits(s: string)
  {
    forall k :: 0 <= k < |s| ==> '0' <= s[k] <= '9'
  }

  /** Decimal digits of n without leading zeros, as `str(n)` prints them. */
  function NatToString(n: nat): (s: string)
    ensures |s| >= 1 && AllDigits(s)
  {
    if n < 10 then [DigitChar(n)] else NatToString(n / 10) + [DigitChar(n % 10)]
  }

  /** `str(i)` for a Python int. */
  function IntToString(i: int): (s: string)
    ensures |s| >= 1
    ensures i < 0 <==> s[0] == '-'
  {
    if i < 0 then "-" + NatToString(-i) else NatToString(i)
  }

  function ParseNat(s: string): nat
    requires AllDigits(s)
  {
    if s == [] then 0 else ParseNat(s[..|s| - 1]) * 10 + DigitValue(s[|s| - 1])
  }

  function ParseInt(s: string): int
    requires |s| >= 1
    requires s[0] == '-' ==> AllDigits(s[1..])
    requires s[0] != '-' ==> AllDigits(s)
  {
    if s[0] == '-' then -(ParseNat(s[1..]) as int) else ParseNat(s)
  }

  lemma {:induction false} ParseNatToString(n: nat)
    ensures ParseNat(NatToString(n)) == n
  {
    if n >= 10 {
      var q, r := n / 10, n % 10;
      ParseNatToString(q);
      var s := NatToString(n);
      assert s == NatToString(q) + [DigitChar(r)];
      assert s[..|s| - 1] == NatToString(q);
      assert DigitValue(s[|s| - 1]) == r;
      assert n == q * 10 + r;
    }
  }

  /** `str` of an int can be read back, so distinct ints print differently. */
  lemma IntToStringRoundTrip(i: int)
    ensures var s := IntToString(i);
      (s[0] == '-' ==> AllDigits(s[1..])) && (s[0] != '-' ==> AllDigits(s)) && ParseInt(s) == i
  {
    if i < 0 {
      ParseNatToString(-i);
      assert IntToString(i)[1..] == NatToString(-i);
    } else {
      ParseNatToString(i);
    }
  }

  function BoolToString(b: bool): string
  {
    if b then "True" else "False"
  }

  // ---------------------------------------------------------------------------------------
  // The keys of the four queue classes

  /**
   * `_get_hash(item)`: `str(item)` for primitives, otherwise the hex MD5 digest of
   * `str(item)`, or `str(id(item))` when that raises. MD5 itself is the parameter `md5`.
   */
  function HashOf(x: Item, md5: string -> string): string
  {
    match x.value
    case Str(s) => s
    case Int(i) => IntToString(i)
    case Bool(b) => BoolToString(b)
    case Obj(Some(r)) => md5(r)
    case Obj(None) => IntToString(x.address)
  }

  /** Primitives hash by their text: the int 1 and the string "1" are duplicates of each other. */
  lemma PrimitiveHashConflates(md5: string -> string, a: nat, b: nat)
    ensures HashOf(Item(Int(1), a), md5) == HashOf(Item(Str("1"), b), md5)
    ensures HashOf(Item(Bool(true), a), md5) == HashOf(Item(Str("True"), b), md5)
    ensures HashOf(Item(Int(-7), a), md5) == HashOf(Item(Str("-7"), b), md5)
  {
    assert NatToString(7) == "7";
  }

  /** Every primitive is a duplicate of the string holding its `str`: 1 and "1", True and "True". */
  lemma PrimitiveCollidesWithItsText(x: Item, b: nat, md5: string -> string)
    requires !x.value.Obj?
    ensures HashOf(Item(Str(HashOf(x, md5)), b), md5) == HashOf(x, md5)
  {
  }

  /** Two ints are duplicates only when they are equal, whatever their identities. */
  lemma IntHashesDistinct(i: int, j: int, a: nat, b: nat, md5: string -> string)
    ensures HashOf(Item(Int(i), a), md5) == HashOf(Item(Int(j), b), md5) <==> i == j
  {
    IntToStringRoundTrip(i);
    IntToStringRoundTrip(j);
  }

  /** The key of ObjectIDUniqueQueue: `id(item)`. */
  function ObjectId(x: Item): nat
  {
    x.address
  }

  /**
   * Whether a WeakSet can hold the item: instances of user-defined classes (`Obj`) can;
   * ints, strings and bools cannot.
   */
  predicate WeakReferenceable(x: Item)
  {
    x.value.Obj?
  }

  // ---------------------------------------------------------------------------------------
  // Keys of a queue's contents

  function KeysOf<T, K>(q: seq<T>, key: T -> K): set<K>
  {
    set i | 0 <= i < |q| :: key(q[i])
  }

  predicate UniqueKeys<T, K(==)>(q: seq<T>, key: T -> K)
  {
    forall i, j :: 0 <= i < j < |q| ==> key(q[i]) != key(q[j])
  }

  lemma KeysOfAppend<T, K>(q: seq<T>, x: T, key: T -> K)
    ensures KeysOf(q + [x], key) == KeysOf(q, key) + {key(x)}
  {
    var q' := q + [x];
    assert key(x) == key(q'[|q|]);
    forall k | k in KeysOf(q, key)
      ensures k in KeysOf(q', key)
    {
      var i :| 0 <= i < |q| && key(q[i]) == k;
      assert q'[i] == q[i];
    }
  }

  lemma KeysOfTail<T, K>(q: seq<T>, key: T -> K)
    requires q != [] && UniqueKeys(q, key)
    ensures KeysOf(q[1..], key) == KeysOf(q, key) - {key(q[0])}
  {
    var t := q[1..];
    forall k | k in KeysOf(q, key) - {key(q[0])}
      ensures k in KeysOf(t, key)
    {
      var i :| 0 <= i < |q| && key(q[i]) == k;
      assert t[i - 1] == q[i];
    }
    forall k | k in KeysOf(t, key)
      ensures k in KeysOf(q, key) - {key(q[0])}
    {
      var i :| 0 <= i < |t| && key(t[i]) == k;
      assert t[i] == q[i + 1];
    }
  }

  /**
   * A queue that drops duplicates by key. `admits` says which items the seen-set can hold
   * (everything, except for UniversalUniqueQueue).
   */
  class KeyedQueue<T, K(==)> {
    const key: T -> K
    const admits: T -> bool
    var items: seq<T>
    var seen: set<K>

    /** `seen` holds exactly the keys of the queued items, so no two of them share a key. */
    ghost predicate Valid()
      reads this
    {
      && seen == KeysOf(items, key)
      && UniqueKeys(items, key)
      && forall i :: 0 <= i < |items| ==> admits(items[i])
    }

    constructor (key: T -> K, admits: T -> bool)
      ensures Valid()
      ensures this.key == key && this.admits == admits
      ensures items == [] && seen == {}
    {
      this.key := key;
      this.admits := admits;
      items := [];
      seen := {};
    }

    /**
     * `_put(item)`: a fresh key joins `seen` and the item joins the tail; a seen key
     * leaves the queue as it was. An item the seen-set cannot hold raises TypeError.
     */
    method Put(item: T) returns (r: Result<()>)
      requires Valid()
      modifies this`items, this`seen
      ensures Valid()
      ensures !admits(item) ==> r == Err(TypeError) && items == old(items) && seen == old(seen)
      ensures admits(item) && key(item) in old(seen) ==> r == Ok(()) && items == old(items) && seen == old(seen)
      ensures admits(item) && key(item) !in old(seen) ==>
        r == Ok(()) && items == old(items) + [item] && seen == old(seen) + {key(item)}
    {
      if !admits(item) {
        return Err(TypeError);
      }
      var k := key(item);
      if k !in seen {
        KeysOfAppend(items, item, key);
        seen := seen + {k};
        items := items + [item];
      }
      r := Ok(());
    }

    /** `_get()`: the head leaves the queue and its key leaves `seen`. */
    method Get() returns (item: T)
      requires Valid() && items != []
      modifies this`items, this`seen
      ensures Valid()
      ensures item == old(items)[0]
      ensures items == old(items)[1..]
      ensures seen == old(seen) - {key(item)}
    {
      KeysOfTail(items, key);
      item := items[0];
      items := items[1..];
      seen := seen - {key(item)};
    }

    /** `item in q`: whether some queued item has the same key. */
    method Contains(item: T) returns (b: bool)
      requires Valid()
      ensures b <==> admits(item) && exists i :: 0 <= i < |items| && key(items[i]) == key(item)
    {
      b := admits(item) && key(item) in seen;
    }
  }

  /** UniqueQueue(), and SafeUniqueQueue(), which differs only by a lock. */
  method NewUniqueQueue(md5: string -> string) returns (q: KeyedQueue<Item, string>)
    ensures fresh(q) && q.Valid() && q.items == []
    ensures forall x :: q.key(x) == HashOf(x, md5) && q.admits(x)
  {
    q := new KeyedQueue(x => HashOf(x, md5), x => true);
  }

  /** ObjectIDUniqueQueue(). */
  method NewObjectIdQueue() returns (q: KeyedQueue<Item, nat>)
    ensures fresh(q) && q.Valid() && q.items == []
    ensures forall x :: q.key(x) == ObjectId(x) && q.admits(x)
  {
    q := new KeyedQueue(ObjectId, x => true);
  }

  /** UniversalUniqueQueue(), for objects with default (identity) equality. */
  method NewUniversalQueue() returns (q: KeyedQueue<Item, nat>)
    ensures fresh(q) && q.Valid() && q.items == []
    ensures forall x :: q.key(x) == ObjectId(x) && (q.admits(x) <==> WeakReferenceable(x))
  {
    q := new KeyedQueue(ObjectId, WeakReferenceable);
  }

  /** A UniqueQueue holding the int 1 drops the string "1": `"1" in q` already holds. */
  method HashConflationScenario(md5: string -> string) returns (q: KeyedQueue<Item, string>)
    ensures q.items == [Item(Int(1), 1)]
  {
    q := NewUniqueQueue(md5);
    var r := q.Put(Item(Int(1), 1));
    PrimitiveHashConflates(md5, 2, 1);
    var b := q.Contains(Item(Str("1"), 2));
    assert b;
    r := q.Put(Item(Str("1"), 2));
  }
}
