/**
 * The persistent expense store of lib/indexeddb.ts: one object store whose
 * key path is `id`, modelled as a map from id to record.
 *
 * The semantics follow the Indexed Database API 3.0: `add` is a store
 * operation with the no-overwrite flag (section 6.1), `put` overwrites,
 * `delete` removes the key and succeeds whether or not it was present
 * (section 6.4), and `getAll` yields the records in ascending key order
 * (section 6.2), strings comparing code unit by code unit. `getAllExpenses`
 * then sorts that array in place, newest date first, with the stable
 * `Array.prototype.sort` (ECMA-262, 2023 edition, section 23.1.3.30).
 */
module ExpenseStore {
  import opened Records

  /** Outcome of a write request: success, or the `ConstraintError` of a key collision. */
  datatype Outcome = Success | ConstraintError

  // ---------------------------------------------------------------------------
  // Key order

  /** Strict lexicographic order on string keys. */
  predicate KeyLess(a: string, b: string)
  {
    if a == [] then b != []
    else if b == [] then false
    else a[0] < b[0] || (a[0] == b[0] && KeyLess(a[1..], b[1..]))
  }

  lemma {:induction false} KeyLessIrreflexive(a: string)
    ensures !KeyLess(a, a)
  {
    if a != [] {
      KeyLessIrreflexive(a[1..]);
    }
  }

  lemma {:induction false} KeyLessTransitive(a: string, b: string, c: string)
    requires KeyLess(a, b) && KeyLess(b, c)
    ensures KeyLess(a, c)
  {
    if a != [] && b != [] && c != [] && a[0] == b[0] == c[0] {
      KeyLessTransitive(a[1..], b[1..], c[1..]);
    }
  }

  lemma {:induction false} KeyLessTotal(a: string, b: string)
    ensures a == b || KeyLess(a, b) || KeyLess(b, a)
  {
    if a != [] && b != [] && a[0] == b[0] {
      KeyLessTotal(a[1..], b[1..]);
      if a[1..] == b[1..] {
        assert a == [a[0]] + a[1..] && b == [b[0]] + b[1..];
      }
    }
  }

  lemma KeyLessAsymmetric(a: string, b: string)
    requires KeyLess(a, b)
    ensures !KeyLess(b, a)
  {
    if KeyLess(b, a) {
      KeyLessTransitive(a, b, a);
      KeyLessIrreflexive(a);
    }
  }

  /** Every non-empty finite set of keys has a least key. */
  lemma {:induction false} LeastKeyExists(keys: set<string>)
    requires keys != {}
    ensures exists k :: k in keys && forall k' :: k' in keys && k' != k ==> KeyLess(k, k')
    decreases |keys|
  {
    var x :| x in keys;
    var rest := keys - {x};
    if rest == {} {
      assert keys == {x};
    } else {
      LeastKeyExists(rest);
      var m :| m in rest && forall k' :: k' in rest && k' != m ==> KeyLess(m, k');
      KeyLessTotal(x, m);
      if KeyLess(x, m) {
        forall k' | k' in keys && k' != x
          ensures KeyLess(x, k')
        {
          if k' != m {
            KeyLessTransitive(x, m, k');
          }
        }
      } else {
        assert forall k' :: k' in keys && k' != m ==> KeyLess(m, k');
      }
    }
  }

  /** Records in strictly ascending key order: the order `getAll` yields. */
  predicate KeyAscending(s: seq<Expense>)
  {
    forall p, q :: 0 <= p < q < |s| ==> KeyLess(s[p].id, s[q].id)
  }

  /** Appending the least remaining key keeps a key-ordered prefix below everything left. */
  lemma NextInKeyOrder(r: seq<Expense>, e: Expense, remaining: set<string>)
    requires KeyAscending(r)
    requires forall p, k :: 0 <= p < |r| && k in remaining ==> KeyLess(r[p].id, k)
    requires e.id in remaining
    requires forall k :: k in remaining && k != e.id ==> KeyLess(e.id, k)
    ensures KeyAscending(r + [e])
    ensures forall p, k :: 0 <= p < |r| + 1 && k in remaining - {e.id} ==> KeyLess((r + [e])[p].id, k)
  {
  }

  // ---------------------------------------------------------------------------
  // The order of getAllExpenses

  /**
   * `x` comes before `y` in the result of getAllExpenses: it is newer, or it is
   * equally new and has the smaller key (the stable sort keeps key order).
   */
  predicate Precedes(x: Expense, y: Expense)
  {
    Earlier(y.date, x.date) || (x.date == y.date && KeyLess(x.id, y.id))
  }

  predicate NewestFirst(s: seq<Expense>)
  {
    forall p, q :: 0 <= p < q < |s| ==> Precedes(s[p], s[q])
  }

  lemma PrecedesTransitive(x: Expense, y: Expense, z: Expense)
    requires Precedes(x, y) && Precedes(y, z)
    ensures Precedes(x, z)
  {
    if x.date == y.date == z.date {
      KeyLessTransitive(x.id, y.id, z.id);
    }
  }

  lemma PrecedesAsymmetric(x: Expense, y: Expense)
    requires Precedes(x, y)
    ensures !Precedes(y, x) && x != y
  {
    if x.date == y.date {
      KeyLessAsymmetric(x.id, y.id);
      KeyLessIrreflexive(x.id);
    }
  }

  /**
   * The order getAllExpenses produces is fully determined by the stored
   * records: two newest-first sequences of the same records are equal.
   */
  lemma {:induction false} NewestFirstUnique(r: seq<Expense>, t: seq<Expense>)
    requires NewestFirst(r) && NewestFirst(t)
    requires forall e :: e in r <==> e in t
    ensures r == t
  {
    assert r != [] ==> r[0] in t;
    assert t != [] ==> t[0] in r;
    if r == [] || t == [] {
    } else {
      assert r[0] in t && t[0] in r;
      if r[0] != t[0] {
        var i :| 0 <= i < |r| && r[i] == t[0];
        var j :| 0 <= j < |t| && t[j] == r[0];
        assert Precedes(r[0], r[i]);
        assert Precedes(t[0], t[j]);
        PrecedesAsymmetric(r[0], t[0]);
      }
      forall e
        ensures e in r[1..] <==> e in t[1..]
      {
        if e in r[1..] {
          var i :| 1 <= i < |r| && r[i] == e;
          PrecedesAsymmetric(r[0], r[i]);
          assert e in t;
          if e == t[0] {
            assert false;
          }
          var j :| 0 <= j < |t| && t[j] == e;
          assert t[1..][j - 1] == e;
        }
        if e in t[1..] {
          var j :| 1 <= j < |t| && t[j] == e;
          PrecedesAsymmetric(t[0], t[j]);
          assert e in r;
          var i :| 0 <= i < |r| && r[i] == e;
          assert r[1..][i - 1] == e;
        }
      }
      NewestFirstUnique(r[1..], t[1..]);
      assert r == [r[0]] + r[1..] && t == [t[0]] + t[1..];
    }
  }

  /** Swap two elements of an array; the multiset of its elements is kept. */
  method Swap(a: array<Expense>, i: int, j: int)
    requires 0 <= i < a.Length && 0 <= j < a.Length
    modifies a
    ensures a[i] == old(a[j]) && a[j] == old(a[i])
    ensures forall k :: 0 <= k < a.Length && k != i && k != j ==> a[k] == old(a[k])
    ensures multiset(a[..]) == multiset(old(a[..]))
  {
    a[i], a[j] := a[j], a[i];
  }

  /**
   * The date-descending sort of the array that `getAll` produced: a stable insertion sort that moves a record forward only
   * past records with a strictly earlier date. Since the input is in key order,
   * records of the same date stay in key order.
   */
  method SortNewestFirst(a: array<Expense>)
    requires KeyAscending(a[..])
    modifies a
    ensures NewestFirst(a[..])
    ensures multiset(a[..]) == multiset(old(a[..]))
  {
    var i := 0;
    while i < a.Length
      invariant 0 <= i <= a.Length
      invariant forall p, q :: 0 <= p < q < i ==> Precedes(a[p], a[q])
      invariant forall p, q :: 0 <= p < q < a.Length && i <= q ==> KeyLess(a[p].id, a[q].id)
      invariant multiset(a[..]) == multiset(old(a[..]))
    {
      var j := i;
      while j > 0 && Earlier(a[j - 1].date, a[j].date)
        invariant 0 <= j <= i
        invariant forall p, q :: 0 <= p < q <= i && p != j && q != j ==> Precedes(a[p], a[q])
        invariant forall q :: j < q <= i ==> Earlier(a[q].date, a[j].date)
        invariant forall p :: 0 <= p <= i && p != j ==> KeyLess(a[p].id, a[j].id)
        invariant forall p, q :: 0 <= p < q < a.Length && i < q ==> KeyLess(a[p].id, a[q].id)
        invariant multiset(a[..]) == multiset(old(a[..]))
      {
        Swap(a, j - 1, j);
        j := j - 1;
      }
      InsertedInOrder(a, i, j);
      i := i + 1;
    }
  }

  /** After the inner loop, the record that moved to `j` sits in order in `a[..i+1]`. */
  lemma InsertedInOrder(a: array<Expense>, i: int, j: int)
    requires 0 <= j <= i < a.Length
    requires forall p, q :: 0 <= p < q <= i && p != j && q != j ==> Precedes(a[p], a[q])
    requires forall q :: j < q <= i ==> Earlier(a[q].date, a[j].date)
    requires forall p :: 0 <= p <= i && p != j ==> KeyLess(a[p].id, a[j].id)
    requires j > 0 ==> !Earlier(a[j - 1].date, a[j].date)
    ensures forall p, q :: 0 <= p < q <= i ==> Precedes(a[p], a[q])
  {
    if j > 0 {
      assert Precedes(a[j - 1], a[j]);
      forall p | 0 <= p < j - 1
        ensures Precedes(a[p], a[j])
      {
        PrecedesTransitive(a[p], a[j - 1], a[j]);
      }
    }
  }

  // ---------------------------------------------------------------------------
  // The store

  /** In a store whose records sit under their own ids, a record is stored iff it sits under its id. */
  lemma ValuesByKey(store: map<string, Expense>)
    requires forall k :: k in store ==> store[k].id == k
    ensures forall e :: e in store.Values <==> e.id in store && store[e.id] == e
  {
    forall e | e in store.Values
      ensures e.id in store && store[e.id] == e
    {
      var k :| k in store && store[k] == e;
    }
  }

  /**
   * The state of the getAll scan: `r` lists, in key order, the records under
   * the keys `taken`; every key still `remaining` is above all of them.
   */
  ghost predicate ListedUpTo(store: map<string, Expense>, r: seq<Expense>, taken: set<string>, remaining: set<string>)
  {
    && (forall k :: k in store ==> store[k].id == k)
    && remaining + taken == store.Keys && remaining !! taken
    && |r| == |taken|
    && KeyAscending(r)
    && (forall p :: 0 <= p < |r| ==> r[p].id in taken && store[r[p].id] == r[p])
    && (forall k :: k in taken ==> store[k] in r)
    && (forall p, k :: 0 <= p < |r| && k in remaining ==> KeyLess(r[p].id, k))
  }

  lemma ListedNext(store: map<string, Expense>, r: seq<Expense>, taken: set<string>, remaining: set<string>, k: string)
    requires ListedUpTo(store, r, taken, remaining)
    requires k in remaining && forall k' :: k' in remaining && k' != k ==> KeyLess(k, k')
    ensures ListedUpTo(store, r + [store[k]], taken + {k}, remaining - {k})
  {
    NextInKeyOrder(r, store[k], remaining);
    PartitionNext(store.Keys, taken, remaining, k);
    ListedMembersNext(store, r, taken, k);
  }

  /** Moving one key from the remaining keys to the taken keys keeps the partition of the store's keys. */
  lemma PartitionNext(keys: set<string>, taken: set<string>, remaining: set<string>, k: string)
    requires remaining + taken == keys && remaining !! taken && k in remaining
    ensures (remaining - {k}) + (taken + {k}) == keys && (remaining - {k}) !! (taken + {k})
    ensures |taken + {k}| == |taken| + 1
  {
    assert k !in taken;
  }

  /** Appending the record under `k` keeps the listing and the taken keys in step. */
  lemma ListedMembersNext(store: map<string, Expense>, r: seq<Expense>, taken: set<string>, k: string)
    requires k in store && store[k].id == k
    requires forall p :: 0 <= p < |r| ==> r[p].id in taken && r[p].id in store && store[r[p].id] == r[p]
    requires forall k' :: k' in taken ==> k' in store && store[k'] in r
    ensures forall p :: 0 <= p < |r| + 1 ==>
              (r + [store[k]])[p].id in taken + {k} && store[(r + [store[k]])[p].id] == (r + [store[k]])[p]
    ensures forall k' :: k' in taken + {k} ==> store[k'] in r + [store[k]]
  {
    var r' := r + [store[k]];
    forall p | 0 <= p < |r'|
      ensures r'[p].id in taken + {k} && store[r'[p].id] == r'[p]
    {
      if p < |r| {
        assert r'[p] == r[p];
      }
    }
    forall k' | k' in taken + {k}
      ensures store[k'] in r'
    {
      if k' == k {
        assert r'[|r|] == store[k];
      } else {
        var p :| 0 <= p < |r| && r[p] == store[k'];
        assert r'[p] == store[k'];
      }
    }
  }

  lemma ListedAll(store: map<string, Expense>, r: seq<Expense>, taken: set<string>)
    requires ListedUpTo(store, r, taken, {})
    ensures KeyAscending(r)
    ensures |r| == |store|
    ensures forall e :: e in r <==> e in store.Values
  {
    assert taken == store.Keys;
    assert |store| == |store.Keys|;
    ValuesByKey(store);
    forall e
      ensures e in r <==> e in store.Values
    {
      if e in r {
        var p :| 0 <= p < |r| && r[p] == e;
      }
    }
  }

  class ExpenseDB {
    /** The object store "expenses": each record under its own `id`. */
    var store: map<string, Expense>

    ghost predicate Valid()
      reads this
    {
      forall k :: k in store ==> store[k].id == k
    }

    /** The database as `onupgradeneeded` creates it: an empty store. */
    constructor ()
      ensures Valid() && store == map[]
    {
      store := map[];
    }

    /** `store.add(expense)`: insert, failing with a ConstraintError if the id is taken. */
    method AddExpense(expense: Expense) returns (outcome: Outcome)
      requires Valid()
      modifies this
      ensures Valid()
      ensures outcome == ConstraintError <==> expense.id in old(store)
      ensures outcome == Success ==> store == old(store)[expense.id := expense]
      ensures outcome == ConstraintError ==> store == old(store)
    {
      if expense.id in store {
        outcome := ConstraintError;
      } else {
        store := store[expense.id := expense];
        outcome := Success;
      }
    }

    /** `store.put(expense)`: insert or overwrite the record under `expense.id`. */
    method UpdateExpense(expense: Expense)
      requires Valid()
      modifies this
      ensures Valid()
      ensures expense.id in store && store[expense.id] == expense
      ensures forall k :: k != expense.id ==> (k in store <==> k in old(store))
      ensures forall k :: k != expense.id && k in store ==> store[k] == old(store)[k]
    {
      store := store[expense.id := expense];
    }

    /** `store.delete(id)`: remove the key; an absent key is not an error. */
    method DeleteExpense(id: string)
      requires Valid()
      modifies this
      ensures Valid()
      ensures id !in store
      ensures forall k :: k != id ==> (k in store <==> k in old(store))
      ensures forall k :: k in store ==> store[k] == old(store)[k]
    {
      store := store - {id};
    }

    /** `store.getAll()`: every record once, in ascending key order. */
    method GetAll() returns (r: seq<Expense>)
      requires Valid()
      ensures KeyAscending(r)
      ensures |r| == |store|
      ensures forall e :: e in r <==> e in store.Values
    {
      r := [];
      var remaining := store.Keys;
      ghost var taken: set<string> := {};
      while remaining != {}
        invariant ListedUpTo(store, r, taken, remaining)
        decreases |remaining|
      {
        LeastKeyExists(remaining);
        var k :| k in remaining && forall k' :: k' in remaining && k' != k ==> KeyLess(k, k');
        ListedNext(store, r, taken, remaining, k);
        r := r + [store[k]];
        taken := taken + {k};
        remaining := remaining - {k};
      }
      ListedAll(store, r, taken);
    }

    /**
     * `getAllExpenses`: every stored record exactly once, newest date first,
     * records of the same date in ascending key order. It changes nothing.
     */
    method GetAllExpenses() returns (r: seq<Expense>)
      requires Valid()
      ensures |r| == |store|
      ensures forall e :: e in r <==> e in store.Values
      ensures NewestFirst(r)
      ensures forall p, q :: 0 <= p < q < |r| ==> r[p].id != r[q].id
      ensures forall p, q :: 0 <= p < q < |r| ==> !Earlier(r[p].date, r[q].date)
      ensures forall p, q :: 0 <= p < q < |r| && r[p].date == r[q].date ==> KeyLess(r[p].id, r[q].id)
    {
      var keyed := GetAll();
      var a := new Expense[|keyed|](i requires 0 <= i < |keyed| => keyed[i]);
      assert a[..] == keyed;
      SortNewestFirst(a);
      r := a[..];
      assert forall e :: e in r <==> e in multiset(r);
      assert forall e :: e in keyed <==> e in multiset(keyed);
      forall p, q | 0 <= p < q < |r|
        ensures r[p].id != r[q].id && !Earlier(r[p].date, r[q].date)
      {
        assert Precedes(r[p], r[q]);
        assert r[p] in store.Values && r[q] in store.Values;
        PrecedesAsymmetric(r[p], r[q]);
        if Earlier(r[p].date, r[q].date) {
          EarlierIsStrictOrder();
        }
      }
    }
  }
}
