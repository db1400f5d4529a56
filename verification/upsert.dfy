/**
 The three `for` loops of `handle` share one shape: for each fetched record,
 compute its natural key, `get_or_create` the row with that key, set the
 row's fields (and replace its relation set) from the record, and remember
 the row under the record's `url`. A `Kind` says how one entity kind does
 each of these; `Pass` is the loop.
 */
module Upsert {
  import opened Wrappers
  import opened Values
  import opened Orm
  import opened Errors

  datatype Kind<!R> = Kind(
    model: string,                              // the model's name, for `MultipleObjectsReturned`
    keyOf: R -> string,                         // the natural key of a stored row
    key: Json -> Result<string, LoadError>,     // the natural key a record is looked up by
    row: Json -> Result<R, LoadError>,          // the row a record is stored as
    url: Json -> Result<Option<Key>, LoadError> // the URL key the row is remembered under, if any
  )

  /** A record is stored as a row with the key it was looked up by. */
  ghost predicate Consistent<R>(k: Kind<R>) {
    forall rec :: k.key(rec).Success? && k.row(rec).Success? ==>
      k.keyOf(k.row(rec).value) == k.key(rec).value
  }

  /** One iteration: the key first, then `get_or_create`, then the fields and
      relations, then the URL map entry; the first failure aborts. */
  function Step<R>(k: Kind<R>, t: Table<R>, m: map<Key, nat>, rec: Json): (r: Result<(Table<R>, map<Key, nat>), LoadError>)
    ensures k.key(rec).Failure? ==> r == Failure(k.key(rec).error)
    ensures k.key(rec).Success? && Find(t, k.keyOf, k.key(rec).value).Ambiguous? ==>
              r == Failure(MultipleObjectsReturned(k.model))
    ensures r.Success? ==> && t.rows.Keys <= r.value.0.rows.Keys && t.next <= r.value.0.next
                           && m.Keys <= r.value.1.Keys
  {
    var key :- k.key(rec);
    var found := Find(t, k.keyOf, key);
    if found.Ambiguous? then Failure(MultipleObjectsReturned(k.model))
    else
      var row :- k.row(rec);
      var u :- k.url(rec);
      var id := Slot(t, found);
      Success((Put(t, found, row), if u.Some? then m[u.value := id] else m))
  }

  /** The loop over all records, in order. */
  function Pass<R>(k: Kind<R>, t: Table<R>, m: map<Key, nat>, recs: seq<Json>): (r: Result<(Table<R>, map<Key, nat>), LoadError>)
    ensures recs == [] ==> r == Success((t, m))
    ensures r.Success? ==> && t.rows.Keys <= r.value.0.rows.Keys && t.next <= r.value.0.next
                           && m.Keys <= r.value.1.Keys
    decreases |recs|
  {
    if recs == [] then Success((t, m))
    else
      var next :- Step(k, t, m, recs[0]);
      Pass(k, next.0, next.1, recs[1..])
  }

  /** The keys of the records whose key can be computed. */
  function Keys<R>(k: Kind<R>, recs: seq<Json>): set<string>
    decreases |recs|
  {
    if recs == [] then {}
    else (if k.key(recs[0]).Success? then {k.key(recs[0]).value} else {}) + Keys(k, recs[1..])
  }

  /** The URL keys the records are remembered under. */
  function UrlKeys<R>(k: Kind<R>, recs: seq<Json>): set<Key>
    decreases |recs|
  {
    if recs == [] then {}
    else (if k.url(recs[0]).Success? && k.url(recs[0]).value.Some? then {k.url(recs[0]).value.value} else {})
         + UrlKeys(k, recs[1..])
  }

  lemma KeysIndex<R>(k: Kind<R>, recs: seq<Json>, i: nat)
    requires i < |recs| && k.key(recs[i]).Success?
    ensures k.key(recs[i]).value in Keys(k, recs)
  {
    if i > 0 {
      KeysIndex(k, recs[1..], i - 1);
    }
  }

  /** A key of the loop is the key of one of its records. */
  lemma {:induction false} KeysWitness<R>(k: Kind<R>, recs: seq<Json>, key: string)
    requires key in Keys(k, recs)
    ensures exists j :: 0 <= j < |recs| && k.key(recs[j]) == Success(key)
    decreases |recs|
  {
    if k.key(recs[0]) != Success(key) {
      KeysWitness(k, recs[1..], key);
      var j :| 0 <= j < |recs[1..]| && k.key(recs[1..][j]) == Success(key);
      assert recs[j + 1] == recs[1..][j];
    }
  }

  /** A key no record has is not a key of the loop. */
  lemma NotAKey<R>(k: Kind<R>, recs: seq<Json>, key: string)
    requires forall j :: 0 <= j < |recs| ==> k.key(recs[j]) != Success(key)
    ensures key !in Keys(k, recs)
  {
    if key in Keys(k, recs) {
      KeysWitness(k, recs, key);
    }
  }

  /** The same for URL keys. */
  lemma {:induction false} NotAUrlKey<R>(k: Kind<R>, recs: seq<Json>, u: Key)
    requires forall j :: 0 <= j < |recs| ==> k.url(recs[j]) != Success(Some(u))
    ensures u !in UrlKeys(k, recs)
    decreases |recs|
  {
    if recs != [] {
      assert k.url(recs[0]) != Success(Some(u));
      NotAUrlKey(k, recs[1..], u);
    }
  }

  /** The facts about one successful step that the loop's proofs build on. */
  lemma StepFacts<R>(k: Kind<R>, t: Table<R>, m: map<Key, nat>, rec: Json)
    requires Consistent(k) && Wf(t) && Step(k, t, m, rec).Success?
    ensures k.key(rec).Success? && k.row(rec).Success? && k.url(rec).Success?
    ensures var key := k.key(rec).value;
            var f := Find(t, k.keyOf, key);
            var u := Step(k, t, m, rec).value.0;
            var m' := Step(k, t, m, rec).value.1;
      && !f.Ambiguous?
      && u == Put(t, f, k.row(rec).value)
      && m' == (if k.url(rec).value.Some? then m[k.url(rec).value.value := Slot(t, f)] else m)
      && Wf(u) && t.next <= u.next
      && u.rows.Keys == t.rows.Keys + {Slot(t, f)}
      && Find(u, k.keyOf, key) == Found(Slot(t, f))
      && (f.Found? ==> u.next == t.next)
      && (forall k2 :: k2 != key ==> Find(u, k.keyOf, k2) == Find(t, k.keyOf, k2))
      && (forall id :: id in t.rows && id != Slot(t, f) ==> u.rows[id] == t.rows[id])
      && (forall id :: id in t.rows && k.keyOf(t.rows[id]) != key ==> id != Slot(t, f))
  {
    PutFacts(t, k.keyOf, k.key(rec).value, k.row(rec).value);
  }

  /**
   After a successful loop every record's key has exactly one row, the
   table only grew, and every record could be decoded.
   */
  lemma {:induction false} PassFinds<R>(k: Kind<R>, t: Table<R>, m: map<Key, nat>, recs: seq<Json>)
    requires Consistent(k) && Wf(t) && Pass(k, t, m, recs).Success?
    ensures var u := Pass(k, t, m, recs).value.0;
      && Wf(u) && t.next <= u.next && t.rows.Keys <= u.rows.Keys
      && (forall key :: key in Keys(k, recs) ==> Find(u, k.keyOf, key).Found?)
      && (forall i :: 0 <= i < |recs| ==>
            k.key(recs[i]).Success? && k.row(recs[i]).Success? && k.url(recs[i]).Success?)
    decreases |recs|
  {
    if recs != [] {
      var s := Step(k, t, m, recs[0]).value;
      StepFacts(k, t, m, recs[0]);
      PassFinds(k, s.0, s.1, recs[1..]);
      var key := k.key(recs[0]).value;
      var f := Find(t, k.keyOf, key);
      PassKeepsFound(k, s.0, s.1, recs[1..], key, Slot(t, f));
    }
    PassDecodes(k, t, m, recs);
  }

  /** A loop succeeds only when every record's key, row and URL could be computed. */
  lemma {:induction false} PassDecodes<R>(k: Kind<R>, t: Table<R>, m: map<Key, nat>, recs: seq<Json>)
    requires Pass(k, t, m, recs).Success?
    ensures forall i :: 0 <= i < |recs| ==>
      k.key(recs[i]).Success? && k.row(recs[i]).Success? && k.url(recs[i]).Success?
    decreases |recs|
  {
    if recs != [] {
      var s := Step(k, t, m, recs[0]).value;
      PassDecodes(k, s.0, s.1, recs[1..]);
      forall i | 0 < i < |recs|
        ensures k.key(recs[i]).Success? && k.row(recs[i]).Success? && k.url(recs[i]).Success?
      {
        assert recs[i] == recs[1..][i - 1];
      }
    }
  }

  /**
   A row that `get` finds before the loop is still the one it finds after
   it, and it is left untouched when no record has its key.
   */
  lemma {:induction false} PassKeepsFound<R>(k: Kind<R>, t: Table<R>, m: map<Key, nat>, recs: seq<Json>,
                                            key: string, id: nat)
    requires Consistent(k) && Wf(t) && Pass(k, t, m, recs).Success?
    requires Find(t, k.keyOf, key) == Found(id)
    ensures Find(Pass(k, t, m, recs).value.0, k.keyOf, key) == Found(id)
    ensures key !in Keys(k, recs) ==> Pass(k, t, m, recs).value.0.rows[id] == t.rows[id]
    decreases |recs|
  {
    if recs != [] {
      var s := Step(k, t, m, recs[0]).value;
      StepFacts(k, t, m, recs[0]);
      PassKeepsFound(k, s.0, s.1, recs[1..], key, id);
    }
  }

  /**
   Records that share a key end in one row, and that row holds what the
   last of them says: for the last record with a given key, the row `get`
   finds for that key afterwards is exactly the row the record decodes to,
   whatever the row held before.
   */
  lemma {:induction false} PassLastWins<R>(k: Kind<R>, t: Table<R>, m: map<Key, nat>, recs: seq<Json>, i: nat)
    requires Consistent(k) && Wf(t) && Pass(k, t, m, recs).Success?
    requires i < |recs| && k.key(recs[i]).Success?
    requires k.key(recs[i]).value !in Keys(k, recs[i + 1..])
    ensures var u := Pass(k, t, m, recs).value.0;
            var f := Find(u, k.keyOf, k.key(recs[i]).value);
            f.Found? && k.row(recs[i]).Success? && u.rows[f.id] == k.row(recs[i]).value
    decreases |recs|
  {
    var s := Step(k, t, m, recs[0]).value;
    StepFacts(k, t, m, recs[0]);
    if i == 0 {
      var key := k.key(recs[0]).value;
      PassKeepsFound(k, s.0, s.1, recs[1..], key, Slot(t, Find(t, k.keyOf, key)));
    } else {
      assert recs[1..][i - 1] == recs[i] && recs[1..][i - 1 + 1..] == recs[i + 1..];
      PassLastWins(k, s.0, s.1, recs[1..], i - 1);
    }
  }

  /**
   The URL map is built from the rows: for the last record remembered under
   a URL key, the map sends that key to the id of the row `get` finds for
   the record's key; and the map only sends keys to rows of the table.
   */
  lemma {:induction false} PassUrlMap<R>(k: Kind<R>, t: Table<R>, m: map<Key, nat>, recs: seq<Json>, i: nat)
    requires Consistent(k) && Wf(t) && Pass(k, t, m, recs).Success?
    requires i < |recs| && k.key(recs[i]).Success? && k.url(recs[i]).Success? && k.url(recs[i]).value.Some?
    requires k.url(recs[i]).value.value !in UrlKeys(k, recs[i + 1..])
    ensures var (u, m') := Pass(k, t, m, recs).value;
            var f := Find(u, k.keyOf, k.key(recs[i]).value);
            f.Found? && k.url(recs[i]).value.value in m' && m'[k.url(recs[i]).value.value] == f.id
    decreases |recs|
  {
    var s := Step(k, t, m, recs[0]).value;
    StepFacts(k, t, m, recs[0]);
    if i == 0 {
      var key := k.key(recs[0]).value;
      var id := Slot(t, Find(t, k.keyOf, key));
      PassKeepsFound(k, s.0, s.1, recs[1..], key, id);
      PassKeepsUrl(k, s.0, s.1, recs[1..], k.url(recs[0]).value.value);
    } else {
      assert recs[1..][i - 1] == recs[i] && recs[1..][i - 1 + 1..] == recs[i + 1..];
      PassUrlMap(k, s.0, s.1, recs[1..], i - 1);
    }
  }

  /** A URL key no record is remembered under keeps its entry. */
  lemma {:induction false} PassKeepsUrl<R>(k: Kind<R>, t: Table<R>, m: map<Key, nat>, recs: seq<Json>, u: Key)
    requires Pass(k, t, m, recs).Success? && u in m && u !in UrlKeys(k, recs)
    ensures var m' := Pass(k, t, m, recs).value.1; u in m' && m'[u] == m[u]
    decreases |recs|
  {
    if recs != [] {
      var s := Step(k, t, m, recs[0]).value;
      PassKeepsUrl(k, s.0, s.1, recs[1..], u);
    }
  }

  /**
   What the loop leaves alone: it creates at most one row per record, all
   with fresh ids and a record's key; it never changes a row's key; and a
   row whose key no record has keeps its contents.
   */
  lemma {:induction false} PassFrame<R>(k: Kind<R>, t: Table<R>, m: map<Key, nat>, recs: seq<Json>)
    requires Consistent(k) && Wf(t) && Pass(k, t, m, recs).Success?
    ensures Frame(k.keyOf, t, Pass(k, t, m, recs).value.0, Keys(k, recs), |recs|)
    decreases |recs|
  {
    if recs != [] {
      var s := Step(k, t, m, recs[0]).value;
      StepFacts(k, t, m, recs[0]);
      PassFrame(k, s.0, s.1, recs[1..]);
      var key := k.key(recs[0]).value;
      assert Keys(k, recs) == {key} + Keys(k, recs[1..]);
      var j := Slot(t, Find(t, k.keyOf, key));
      FrameStep(k.keyOf, t, s.0, Pass(k, t, m, recs).value.0, j, key, Keys(k, recs[1..]), |recs| - 1);
    }
  }

  /**
   How `u` relates to `t` after at most `n` stores under the keys `keys`:
   at most `n` rows were created, all with fresh ids and one of the keys;
   no row changed its key; and a row whose key is not one of them is unchanged.
   */
  ghost predicate Frame<R>(keyOf: R -> string, t: Table<R>, u: Table<R>, keys: set<string>, n: nat) {
    && u.next <= t.next + n
    && (forall id :: id in t.rows ==> id in u.rows && keyOf(u.rows[id]) == keyOf(t.rows[id]))
    && (forall id :: id in t.rows && keyOf(t.rows[id]) !in keys ==> u.rows[id] == t.rows[id])
    && (forall id :: id in u.rows && id !in t.rows ==> t.next <= id && keyOf(u.rows[id]) in keys)
  }

  /** One store of `key` at slot `j` followed by a frame is a frame. */
  lemma FrameStep<R>(keyOf: R -> string, t: Table<R>, s: Table<R>, u: Table<R>, j: nat,
                     key: string, keys: set<string>, n: nat)
    requires t.next <= s.next <= t.next + 1 && s.rows.Keys == t.rows.Keys + {j}
    requires j in s.rows && keyOf(s.rows[j]) == key
    requires j in t.rows ==> keyOf(t.rows[j]) == key
    requires j !in t.rows ==> t.next <= j
    requires forall id :: id in t.rows && id != j ==> s.rows[id] == t.rows[id]
    requires forall id :: id in s.rows ==> id < s.next
    requires Frame(keyOf, s, u, keys, n)
    ensures Frame(keyOf, t, u, {key} + keys, n + 1)
  {
  }

  /** Every id the URL map holds is a row of the table. */
  lemma {:induction false} PassUrlTargets<R>(k: Kind<R>, t: Table<R>, m: map<Key, nat>, recs: seq<Json>)
    requires Consistent(k) && Wf(t) && Pass(k, t, m, recs).Success?
    requires forall u :: u in m ==> m[u] in t.rows
    ensures var (t', m') := Pass(k, t, m, recs).value;
            forall u :: u in m' ==> m'[u] in t'.rows
    decreases |recs|
  {
    if recs != [] {
      var s := Step(k, t, m, recs[0]).value;
      StepFacts(k, t, m, recs[0]);
      PassUrlTargets(k, s.0, s.1, recs[1..]);
    }
  }

  /** A property every stored row has survives the loop when every record's row has it. */
  lemma {:induction false} PassRows<R>(k: Kind<R>, t: Table<R>, m: map<Key, nat>, recs: seq<Json>, ok: R -> bool)
    requires Pass(k, t, m, recs).Success?
    requires forall id :: id in t.rows ==> ok(t.rows[id])
    requires forall rec :: k.row(rec).Success? ==> ok(k.row(rec).value)
    ensures var t' := Pass(k, t, m, recs).value.0;
            forall id :: id in t'.rows ==> ok(t'.rows[id])
    decreases |recs|
  {
    if recs != [] {
      var s := Step(k, t, m, recs[0]).value;
      PassRows(k, s.0, s.1, recs[1..], ok);
    }
  }

  /** The loop never stores two rows with one key in a column that had none. */
  lemma {:induction false} PassUnique<R>(k: Kind<R>, t: Table<R>, m: map<Key, nat>, recs: seq<Json>)
    requires Consistent(k) && Wf(t) && UniqueKeys(t, k.keyOf) && Pass(k, t, m, recs).Success?
    ensures UniqueKeys(Pass(k, t, m, recs).value.0, k.keyOf)
    decreases |recs|
  {
    if recs != [] {
      var s := Step(k, t, m, recs[0]).value;
      StepFacts(k, t, m, recs[0]);
      var key := k.key(recs[0]).value;
      var u := s.0;
      forall i, j | i in u.rows && j in u.rows && k.keyOf(u.rows[i]) == k.keyOf(u.rows[j])
        ensures i == j
      {
        var ki := k.keyOf(u.rows[i]);
        var fi := Find(u, k.keyOf, ki);
        if ki == key {
          assert fi.Found?;
        } else {
          assert Find(u, k.keyOf, ki) == Find(t, k.keyOf, ki);
          UniqueNeverAmbiguous(t, k.keyOf, ki);
        }
      }
      PassUnique(k, s.0, s.1, recs[1..]);
    }
  }

  /**
   `b` holds what running the loop produced in `u`, except perhaps in the
   rows of the given keys, and `get` finds the same row in both for each of
   those keys.
   */
  ghost predicate Agrees<R>(k: Kind<R>, u: Table<R>, keys: set<string>, b: Table<R>) {
    && b.next == u.next && b.rows.Keys == u.rows.Keys
    && (forall id :: id in b.rows && k.keyOf(u.rows[id]) !in keys ==> b.rows[id] == u.rows[id])
    && (forall key :: key in keys ==> Find(b, k.keyOf, key) == Find(u, k.keyOf, key))
  }

  /** The first step of a replay stores the record where the original run did, and the rest agrees. */
  lemma ReplayStep<R>(k: Kind<R>, t: Table<R>, m: map<Key, nat>, recs: seq<Json>, b: Table<R>)
    requires Consistent(k) && Wf(t) && Pass(k, t, m, recs).Success? && recs != []
    requires Agrees(k, Pass(k, t, m, recs).value.0, Keys(k, recs), b)
    ensures var s := Step(k, t, m, recs[0]);
            var sb := Step(k, b, m, recs[0]);
      && s.Success? && sb.Success? && sb.value.1 == s.value.1
      && Agrees(k, Pass(k, t, m, recs).value.0, Keys(k, recs[1..]), sb.value.0)
  {
    var u := Pass(k, t, m, recs).value.0;
    var rec := recs[0];
    var s := Step(k, t, m, rec).value;
    StepFacts(k, t, m, rec);
    var key := k.key(rec).value;
    var row := k.row(rec).value;
    var j := Slot(t, Find(t, k.keyOf, key));
    PassKeepsFound(k, s.0, s.1, recs[1..], key, j);
    KeysCons(k, recs);
    StepAt(k, b, m, rec, j);
    AgreesAfterStore(k, u, b, j, row, key, Keys(k, recs[1..]));
  }

  /** Storing the row `u` holds for `key` into an agreeing table keeps it agreeing on the other keys. */
  lemma AgreesAfterStore<R>(k: Kind<R>, u: Table<R>, b: Table<R>, j: nat, row: R, key: string, keys: set<string>)
    requires Agrees(k, u, {key} + keys, b)
    requires Find(u, k.keyOf, key) == Found(j) && k.keyOf(row) == key
    requires key !in keys ==> u.rows[j] == row
    ensures Agrees(k, u, keys, Put(b, Found(j), row))
  {
    assert Find(b, k.keyOf, key) == Found(j);
    RewriteSameKey(b, k.keyOf, j, row);
    RowsAgreeAfterStore(k.keyOf, u, b, j, row, key, keys);
  }

  /** A step whose key `get` finds at `j` rewrites row `j` and maps the record's URL to `j`. */
  lemma StepAt<R>(k: Kind<R>, b: Table<R>, m: map<Key, nat>, rec: Json, j: nat)
    requires k.key(rec).Success? && Find(b, k.keyOf, k.key(rec).value) == Found(j)
    requires k.row(rec).Success? && k.url(rec).Success?
    ensures Step(k, b, m, rec) == Success((Put(b, Found(j), k.row(rec).value),
                                           if k.url(rec).value.Some? then m[k.url(rec).value.value := j] else m))
  {
  }

  lemma KeysCons<R>(k: Kind<R>, recs: seq<Json>)
    requires recs != [] && k.key(recs[0]).Success?
    ensures Keys(k, recs) == {k.key(recs[0]).value} + Keys(k, recs[1..])
  {
  }

  /** Storing a key's one row again leaves every row of other keys as it was. */
  lemma RowsAgreeAfterStore<R>(keyOf: R -> string, u: Table<R>, b: Table<R>, j: nat, row: R,
                               key: string, keys: set<string>)
    requires b.rows.Keys == u.rows.Keys && j in u.rows && keyOf(u.rows[j]) == key
    requires forall id :: id in u.rows && keyOf(u.rows[id]) == key ==> id == j
    requires key !in keys ==> u.rows[j] == row
    requires forall id :: id in b.rows && keyOf(u.rows[id]) !in {key} + keys ==> b.rows[id] == u.rows[id]
    ensures forall id :: id in b.rows[j := row] && keyOf(u.rows[id]) !in keys ==> b.rows[j := row][id] == u.rows[id]
  {
  }

  /**
   Replaying the loop over a table that already holds its outcome: if `b`
   agrees with the outcome `u` of running `recs` from `t` on every row no
   record will overwrite, and `get` finds the same rows in `b` as in `u` for
   every record's key, then running `recs` from `b` also ends in `u`, with
   the same URL map.
   */
  lemma {:induction false} Replay<R>(k: Kind<R>, t: Table<R>, m: map<Key, nat>, recs: seq<Json>, b: Table<R>)
    requires Consistent(k) && Wf(t) && Pass(k, t, m, recs).Success?
    requires Agrees(k, Pass(k, t, m, recs).value.0, Keys(k, recs), b)
    ensures Pass(k, b, m, recs) == Pass(k, t, m, recs)
    decreases |recs|
  {
    if recs == [] {
      assert b.rows == t.rows;
    } else {
      var s := Step(k, t, m, recs[0]).value;
      StepFacts(k, t, m, recs[0]);
      ReplayStep(k, t, m, recs, b);
      Replay(k, s.0, s.1, recs[1..], Step(k, b, m, recs[0]).value.0);
    }
  }

  /** Running the loop a second time over its own outcome changes nothing. */
  lemma PassIdempotent<R>(k: Kind<R>, t: Table<R>, m: map<Key, nat>, recs: seq<Json>)
    requires Consistent(k) && Wf(t) && Pass(k, t, m, recs).Success?
    ensures Pass(k, Pass(k, t, m, recs).value.0, m, recs) == Pass(k, t, m, recs)
  {
    Replay(k, t, m, recs, Pass(k, t, m, recs).value.0);
  }
}
