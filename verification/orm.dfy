/**
 The part of the Django ORM the loader relies on, over one table: rows
 keyed by an auto-increment id, and `Model.objects.get(field=value)`,
 which finds the single row whose field equals the value, reports that
 none does, or raises `MultipleObjectsReturned` when several do.
 */
module Orm {

  /** A table: rows by id, and the id the next created row receives. */
  datatype Table<R> = Table(rows: map<nat, R>, next: nat)

  /** Every row's id is below the next id, so a created row never reuses one. */
  predicate Wf<R>(t: Table<R>) {
    forall id :: id in t.rows ==> id < t.next
  }

  /** No two rows share a key: a `unique=True` column. */
  predicate UniqueKeys<R>(t: Table<R>, keyOf: R -> string) {
    forall i, j :: i in t.rows && j in t.rows && keyOf(t.rows[i]) == keyOf(t.rows[j]) ==> i == j
  }

  /** The ids of the rows whose key is `k`. */
  function Matching<R>(t: Table<R>, keyOf: R -> string, k: string): (s: set<nat>)
    ensures forall id :: id in s <==> id in t.rows && keyOf(t.rows[id]) == k
  {
    set id | id in t.rows && keyOf(t.rows[id]) == k
  }

  datatype Lookup = Found(id: nat) | Missing | Ambiguous

  /** `get(key=k)`: the one matching row, no row, or more than one. */
  function Find<R>(t: Table<R>, keyOf: R -> string, k: string): (r: Lookup)
    ensures r.Missing? <==> forall id :: id in t.rows ==> keyOf(t.rows[id]) != k
    ensures r.Found? ==> && r.id in t.rows && keyOf(t.rows[r.id]) == k
                         && forall id :: id in t.rows && keyOf(t.rows[id]) == k ==> id == r.id
    ensures r.Ambiguous? <==> exists i, j :: && i in t.rows && j in t.rows && i != j
                                             && keyOf(t.rows[i]) == k && keyOf(t.rows[j]) == k
  {
    var s := Matching(t, keyOf, k);
    if |s| >= 2 then
      TwoMembers(s);
      Classify(s)
    else Classify(s)
  }

  /** A set of at least two ids has two distinct members. */
  lemma TwoMembers(s: set<nat>)
    requires |s| >= 2
    ensures exists i, j :: i in s && j in s && i != j
  {
    var i :| i in s;
    assert |s - {i}| >= 1;
    var j :| j in s - {i};
  }

  /** How many rows a set of matching ids stands for. */
  function Classify(s: set<nat>): (r: Lookup)
    ensures r.Missing? <==> s == {}
    ensures r.Found? ==> s == {r.id}
    ensures r.Ambiguous? <==> |s| >= 2
  {
    if |s| == 0 then Missing else if |s| == 1 then Found(Only(s)) else Ambiguous
  }

  /** `get` on a table depends only on which rows match. */
  lemma FindByMatching<R>(t: Table<R>, u: Table<R>, keyOf: R -> string, k: string)
    requires Matching(t, keyOf, k) == Matching(u, keyOf, k)
    ensures Find(t, keyOf, k) == Find(u, keyOf, k)
  {
  }

  /** On a column with unique values `get` never finds more than one row. */
  lemma UniqueNeverAmbiguous<R>(t: Table<R>, keyOf: R -> string, k: string)
    requires UniqueKeys(t, keyOf)
    ensures !Find(t, keyOf, k).Ambiguous?
  {
  }

  /** The element of a one-element set. */
  function Only(s: set<nat>): (r: nat)
    requires |s| == 1
    ensures s == {r}
  {
    SingletonHasOneElement(s);
    var x :| x in s;
    x
  }

  lemma SingletonHasOneElement(s: set<nat>)
    requires |s| == 1
    ensures forall a, b :: a in s && b in s ==> a == b
  {
    forall a, b | a in s && b in s
      ensures a == b
    {
      assert |s - {a}| == 0;
      assert s - {a} == {};
    }
  }

  /** The id `get_or_create` stores a row with key `k` under: the matching row's, or a fresh one. */
  function Slot<R>(t: Table<R>, found: Lookup): nat
  {
    if found.Found? then found.id else t.next
  }

  /** Storing `row` under key `k`: `get_or_create(key=k)` followed by setting every field. */
  function Put<R>(t: Table<R>, found: Lookup, row: R): Table<R>
  {
    Table(t.rows[Slot(t, found) := row], if found.Found? then t.next else t.next + 1)
  }

  /**
   Storing a row with key `k` after `get(key=k)` did not find several rows:
   afterwards `get` finds exactly the stored row, the store created at most
   one row, every other key matches the same rows as before, and no other
   row changed.
   */
  lemma PutFacts<R>(t: Table<R>, keyOf: R -> string, k: string, row: R)
    requires Wf(t) && keyOf(row) == k && !Find(t, keyOf, k).Ambiguous?
    ensures var f := Find(t, keyOf, k);
            var u := Put(t, f, row);
      && Wf(u) && t.next <= u.next
      && u.rows.Keys == t.rows.Keys + {Slot(t, f)}
      && Find(u, keyOf, k) == Found(Slot(t, f))
      && (f.Found? ==> u.next == t.next)
      && (forall k2 :: k2 != k ==> Find(u, keyOf, k2) == Find(t, keyOf, k2))
      && (forall id :: id in t.rows && id != Slot(t, f) ==> u.rows[id] == t.rows[id])
      && (forall id :: id in t.rows && keyOf(t.rows[id]) != k ==> id != Slot(t, f))
  {
    var f := Find(t, keyOf, k);
    var u := Put(t, f, row);
    var j := Slot(t, f);
    forall k2 | k2 != k
      ensures Find(u, keyOf, k2) == Find(t, keyOf, k2)
    {
      assert Matching(u, keyOf, k2) == Matching(t, keyOf, k2);
      FindByMatching(u, t, keyOf, k2);
    }
    assert Matching(u, keyOf, k) == {j};
  }

  /** Overwriting a row with one that has the same key changes no lookup. */
  lemma RewriteSameKey<R>(t: Table<R>, keyOf: R -> string, id: nat, row: R)
    requires id in t.rows && keyOf(t.rows[id]) == keyOf(row)
    ensures forall k :: Find(Table(t.rows[id := row], t.next), keyOf, k) == Find(t, keyOf, k)
  {
    var u := Table(t.rows[id := row], t.next);
    forall k
      ensures Find(u, keyOf, k) == Find(t, keyOf, k)
    {
      assert Matching(u, keyOf, k) == Matching(t, keyOf, k);
      FindByMatching(u, t, keyOf, k);
    }
  }
}
