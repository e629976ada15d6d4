/**
 * The read side of the API: a `$lookup` from a local id field to the `_id`
 * of another collection followed by `$unwind` with
 * `preserveNullAndEmptyArrays: true`. A document with no match comes out
 * once without the joined field (None); a document with several matches
 * comes out once per match.
 */
module Joins {
  import opened Common
  import opened Store

  /** The `$lookup` array: every foreign document whose id is `key`, in collection order. */
  function Matches<F>(key: Id, foreign: seq<(Id, F)>): (r: seq<F>)
    ensures |r| <= |foreign|
    ensures forall i :: 0 <= i < |r| ==> (key, r[i]) in foreign
    ensures |r| == 0 <==> forall j :: 0 <= j < |foreign| ==> foreign[j].0 != key
  {
    if foreign == [] then []
    else (if foreign[0].0 == key then [foreign[0].1] else []) + Matches(key, foreign[1..])
  }

  /** The first foreign document whose id is `key`. */
  function Lookup<F>(key: Id, foreign: seq<(Id, F)>): (r: Option<F>)
    ensures r.None? <==> forall j :: 0 <= j < |foreign| ==> foreign[j].0 != key
    ensures r.Some? ==> (key, r.value) in foreign
  {
    if foreign == [] then None
    else if foreign[0].0 == key then Some(foreign[0].1)
    else Lookup(key, foreign[1..])
  }

  /** Collection ids are pairwise distinct. */
  predicate UniqueKeys<F>(foreign: seq<(Id, F)>) {
    forall i, j :: 0 <= i < j < |foreign| ==> foreign[i].0 != foreign[j].0
  }

  /** `$unwind` of one document's lookup array, keeping a document whose array is empty. */
  function Unwind<D, F>(d: D, ms: seq<F>): (r: seq<(D, Option<F>)>)
    ensures |r| == if ms == [] then 1 else |ms|
    ensures forall i :: 0 <= i < |r| ==> r[i].0 == d
    ensures ms == [] ==> r[0].1 == None
    ensures forall i :: 0 <= i < |ms| ==> r[i].1 == Some(ms[i])
  {
    if ms == [] then [(d, None)] else seq(|ms|, i requires 0 <= i < |ms| => (d, Some(ms[i])))
  }

  /** `$lookup` then `$unwind` (preserving unmatched documents) over a whole collection. */
  function LeftJoin<D, F>(docs: seq<D>, key: D -> Id, foreign: seq<(Id, F)>): (r: seq<(D, Option<F>)>)
    ensures |r| >= |docs|
    ensures forall j :: 0 <= j < |r| ==> r[j].0 in docs
    ensures forall j :: 0 <= j < |r| && r[j].1.Some? ==> (key(r[j].0), r[j].1.value) in foreign
    ensures forall j :: 0 <= j < |r| && r[j].1.None? ==> forall m :: 0 <= m < |foreign| ==> foreign[m].0 != key(r[j].0)
  {
    if docs == [] then []
    else
      var head := Unwind(docs[0], Matches(key(docs[0]), foreign));
      var tail := LeftJoin(docs[1..], key, foreign);
      assert forall j :: 0 <= j < |tail| ==> tail[j].0 in docs;
      head + tail
  }

  /** Every document comes out of the join at least once; the first output is the first document. */
  lemma {:induction false} LeftJoinCovers<D, F>(docs: seq<D>, key: D -> Id, foreign: seq<(Id, F)>, i: nat)
    requires i < |docs|
    ensures exists j :: 0 <= j < |LeftJoin(docs, key, foreign)| && LeftJoin(docs, key, foreign)[j].0 == docs[i]
    ensures LeftJoin(docs, key, foreign)[0].0 == docs[0]
  {
    var head := Unwind(docs[0], Matches(key(docs[0]), foreign));
    var tail := LeftJoin(docs[1..], key, foreign);
    var r := LeftJoin(docs, key, foreign);
    assert r == head + tail;
    assert r[0] == head[0];
    if i > 0 {
      LeftJoinCovers(docs[1..], key, foreign, i - 1);
      var j' :| 0 <= j' < |tail| && tail[j'].0 == docs[1..][i - 1];
      assert r[|head| + j'] == tail[j'];
    }
  }

  /** The join of a concatenation is the concatenation of the joins: output order follows document order. */
  lemma {:induction false} LeftJoinConcat<D, F>(a: seq<D>, b: seq<D>, key: D -> Id, foreign: seq<(Id, F)>)
    ensures LeftJoin(a + b, key, foreign) == LeftJoin(a, key, foreign) + LeftJoin(b, key, foreign)
  {
    if a == [] {
      assert a + b == b;
    } else {
      assert (a + b)[0] == a[0];
      assert (a + b)[1..] == a[1..] + b;
      LeftJoinConcat(a[1..], b, key, foreign);
    }
  }

  /** With distinct ids the lookup array has at most one element, the one `Lookup` finds. */
  lemma {:induction false} MatchesUnique<F>(key: Id, foreign: seq<(Id, F)>)
    requires UniqueKeys(foreign)
    ensures Matches(key, foreign) == if Lookup(key, foreign).Some? then [Lookup(key, foreign).value] else []
  {
    if foreign != [] {
      assert UniqueKeys(foreign[1..]) by {
        forall i, j | 0 <= i < j < |foreign| - 1 ensures foreign[1..][i].0 != foreign[1..][j].0 {
          assert foreign[i + 1].0 != foreign[j + 1].0;
        }
      }
      MatchesUnique(key, foreign[1..]);
      if foreign[0].0 == key {
        assert forall j :: 0 <= j < |foreign[1..]| ==> foreign[1..][j].0 != key by {
          forall j | 0 <= j < |foreign[1..]| ensures foreign[1..][j].0 != key {
            assert foreign[0].0 != foreign[j + 1].0;
          }
        }
      }
    }
  }

  /**
   * With distinct foreign ids the join yields exactly one entry per document,
   * in order, carrying the matching foreign document or None.
   */
  lemma {:induction false} LeftJoinUnique<D, F>(docs: seq<D>, key: D -> Id, foreign: seq<(Id, F)>)
    requires UniqueKeys(foreign)
    ensures |LeftJoin(docs, key, foreign)| == |docs|
    ensures forall i :: 0 <= i < |docs| ==> LeftJoin(docs, key, foreign)[i] == (docs[i], Lookup(key(docs[i]), foreign))
  {
    if docs != [] {
      MatchesUnique(key(docs[0]), foreign);
      LeftJoinUnique(docs[1..], key, foreign);
      var head := Unwind(docs[0], Matches(key(docs[0]), foreign));
      assert head == [(docs[0], Lookup(key(docs[0]), foreign))];
      forall i | 0 <= i < |docs| ensures LeftJoin(docs, key, foreign)[i] == (docs[i], Lookup(key(docs[i]), foreign)) {
        if i > 0 {
          assert LeftJoin(docs, key, foreign)[i] == LeftJoin(docs[1..], key, foreign)[i - 1];
        }
      }
    }
  }
}
