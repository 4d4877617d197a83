/**
 * A database table as the ORM presents it: a sequence of rows in primary-key
 * order. New rows take the table's next auto-increment key, so keys are
 * strictly increasing and never reused.
 */
module Tables {
  import opened Wrappers

  type Id = nat

  datatype Row<R> = Row(id: Id, val: R)

  /** Keys strictly increase along the table, so each key names one row. */
  ghost predicate Ordered<R>(t: seq<Row<R>>) {
    forall i, j :: 0 <= i < j < |t| ==> t[i].id < t[j].id
  }

  /** The table is ordered and every key is below the next auto-increment value. */
  ghost predicate Keyed<R>(t: seq<Row<R>>, next: Id) {
    Ordered(t) && forall i :: 0 <= i < |t| ==> t[i].id < next
  }

  function Ids<R(==)>(t: seq<Row<R>>): set<Id> {
    set r | r in t :: r.id
  }

  /** `Model.objects.get(pk=id)`: the row with that key, if any. */
  function Find<R(==)>(t: seq<Row<R>>, id: Id): (r: Option<R>)
    ensures r.Some? <==> id in Ids(t)
    ensures r.Some? ==> Row(id, r.value) in t
  {
    if t == [] then None
    else if t[0].id == id then Some(t[0].val)
    else Find(t[1..], id)
  }

  /** An INSERT with the next auto-increment key. */
  function Insert<R(==)>(t: seq<Row<R>>, next: Id, v: R): (r: seq<Row<R>>)
    requires Keyed(t, next)
    ensures Keyed(r, next + 1)
    ensures Ids(r) == Ids(t) + {next} && next !in Ids(t)
    ensures |r| == |t| + 1 && r[..|t|] == t && r[|t|] == Row(next, v)
  {
    t + [Row(next, v)]
  }

  /** An UPDATE of the row keyed `id`: that row holds `v`, every other row is untouched. */
  function Replace<R(==)>(t: seq<Row<R>>, id: Id, v: R): (r: seq<Row<R>>)
    ensures |r| == |t|
    ensures forall i :: 0 <= i < |t| ==> r[i].id == t[i].id
    ensures forall i :: 0 <= i < |t| && t[i].id != id ==> r[i] == t[i]
    ensures forall i :: 0 <= i < |t| && t[i].id == id ==> r[i].val == v
  {
    if t == [] then []
    else [if t[0].id == id then Row(id, v) else t[0]] + Replace(t[1..], id, v)
  }

  /** A DELETE of the row keyed `id`; the other rows keep their order. */
  function Remove<R(==,!new)>(t: seq<Row<R>>, id: Id): (r: seq<Row<R>>)
    ensures forall x :: x in r <==> x in t && x.id != id
    ensures Ordered(t) ==> Ordered(r)
  {
    if t == [] then []
    else if t[0].id == id then Remove(t[1..], id)
    else
      var rest := Remove(t[1..], id);
      assert t == [t[0]] + t[1..];
      OrderedCons(t[0], t[1..], rest);
      [t[0]] + rest
  }

  /** `Model.objects.filter(...)`: the rows whose value passes `keep`, in table order. */
  function Filter<R(==,!new)>(t: seq<Row<R>>, keep: R -> bool): (r: seq<Row<R>>)
    ensures forall x :: x in r <==> x in t && keep(x.val)
    ensures Ordered(t) ==> Ordered(r)
  {
    if t == [] then []
    else
      var rest := Filter(t[1..], keep);
      assert t == [t[0]] + t[1..];
      OrderedCons(t[0], t[1..], rest);
      if keep(t[0].val) then [t[0]] + rest else rest
  }

  /** A filter that every row passes returns the table itself. */
  lemma {:induction false} FilterAll<R(!new)>(t: seq<Row<R>>, keep: R -> bool)
    requires forall i :: 0 <= i < |t| ==> keep(t[i].val)
    ensures Filter(t, keep) == t
  {
    if t != [] {
      FilterAll(t[1..], keep);
    }
  }

  /** Deleting the row just inserted gives back the table as it was. */
  lemma {:induction false} RemoveInserted<R(!new)>(t: seq<Row<R>>, next: Id, v: R)
    requires next !in Ids(t)
    ensures Remove(t + [Row(next, v)], next) == t
  {
    if t == [] {
      assert Remove([Row(next, v)][1..], next) == [];
    } else {
      assert t[0] in t;
      assert (t + [Row(next, v)])[1..] == t[1..] + [Row(next, v)];
      assert next !in Ids(t[1..]) by {
        forall r | r in t[1..] ensures r.id != next { assert r in t; }
      }
      RemoveInserted(t[1..], next, v);
    }
  }

  /** The keys left after a DELETE. */
  lemma RemoveIds<R(!new)>(t: seq<Row<R>>, id: Id, next: Id)
    ensures Ids(Remove(t, id)) == Ids(t) - {id}
    ensures Keyed(t, next) ==> Keyed(Remove(t, id), next)
  {
    var r := Remove(t, id);
    forall k | k in Ids(t) - {id} ensures k in Ids(r) {
      var x :| x in t && x.id == k;
      var i :| 0 <= i < |t| && t[i] == x;
    }
  }

  /** Prepending a row below every key of the tail keeps the order of any sub-table of that tail. */
  lemma OrderedCons<R>(x: Row<R>, tail: seq<Row<R>>, sub: seq<Row<R>>)
    requires forall i :: 0 <= i < |sub| ==> sub[i] in tail
    requires Ordered(tail) ==> Ordered(sub)
    ensures Ordered([x] + tail) ==> Ordered([x] + sub)
  {
    if Ordered([x] + tail) {
      forall i, j | 0 <= i < j < |tail| ensures tail[i].id < tail[j].id {
        assert ([x] + tail)[i + 1] == tail[i] && ([x] + tail)[j + 1] == tail[j];
      }
      assert Ordered(tail);
      assert Ordered(sub);
      var s := [x] + sub;
      forall i, j | 0 <= i < j < |s|
        ensures s[i].id < s[j].id
      {
        assert s[j] == sub[j - 1];
        if i == 0 {
          var k :| 0 <= k < |tail| && tail[k] == sub[j - 1];
          assert ([x] + tail)[0] == x && ([x] + tail)[k + 1] == tail[k];
        } else {
          assert s[i] == sub[i - 1];
        }
      }
    }
  }

  /** On an ordered table a row's key determines the row. */
  lemma {:induction false} FindRow<R>(t: seq<Row<R>>, id: Id, v: R)
    requires Ordered(t) && Row(id, v) in t
    ensures Find(t, id) == Some(v)
  {
    if t[0] != Row(id, v) {
      assert Row(id, v) in t[1..];
      FindRow(t[1..], id, v);
    }
  }

  /** After an UPDATE the key still finds a row, now holding the new value; other keys see no change. */
  lemma {:induction false} FindReplace<R>(t: seq<Row<R>>, id: Id, v: R, k: Id)
    ensures Find(Replace(t, id, v), k) == (if k == id && id in Ids(t) then Some(v) else Find(t, k))
  {
    if t != [] {
      FindReplace(t[1..], id, v, k);
      assert Replace(t, id, v)[1..] == Replace(t[1..], id, v);
    }
  }

  /** An UPDATE keeps the set of keys and the key order. */
  lemma ReplaceKeys<R>(t: seq<Row<R>>, id: Id, v: R, next: Id)
    ensures Ids(Replace(t, id, v)) == Ids(t)
    ensures Keyed(t, next) ==> Keyed(Replace(t, id, v), next)
  {
    var r := Replace(t, id, v);
    forall k | k in Ids(r) ensures k in Ids(t) {
      var x :| x in r && x.id == k;
      var i :| 0 <= i < |r| && r[i] == x;
      assert t[i] in t;
    }
    forall k | k in Ids(t) ensures k in Ids(r) {
      var x :| x in t && x.id == k;
      var i :| 0 <= i < |t| && t[i] == x;
      assert r[i] in r;
    }
  }

  /** After a DELETE the key finds nothing, and every other key finds what it found before. */
  lemma FindRemove<R(!new)>(t: seq<Row<R>>, id: Id, k: Id)
    requires Ordered(t)
    ensures Find(Remove(t, id), k) == (if k == id then None else Find(t, k))
  {
    var r := Remove(t, id);
    if k != id {
      match Find(t, k)
      case None =>
      case Some(v) =>
        assert Row(k, v) in r;
        FindRow(r, k, v);
    }
  }
}
