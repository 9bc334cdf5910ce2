// A Go `map[string]any` of query conditions. Go iterates a map in no fixed
// order; the model keeps the entries in a sequence, and every property is
// stated for every sequence, so it holds for whichever order Go picks.
module Conds {
  import opened Wrappers
  import opened Values

  type Entry = (string, Value)

  /** A map holds each key once. */
  predicate DistinctKeys(es: seq<Entry>)
  {
    forall i, j :: 0 <= i < j < |es| ==> es[i].0 != es[j].0
  }

  predicate HasKey(es: seq<Entry>, k: string)
  {
    exists i :: 0 <= i < |es| && es[i].0 == k
  }

  /** m[k], with the `ok` of Go's two-value lookup. */
  function Lookup(es: seq<Entry>, k: string): (r: Option<Value>)
    ensures r.Some? <==> HasKey(es, k)
    ensures r.Some? ==> (k, r.value) in es
  {
    if es == [] then None
    else if es[0].0 == k then Some(es[0].1)
    else
      var r := Lookup(es[1..], k);
      assert HasKey(es[1..], k) ==> HasKey(es, k) by {
        if HasKey(es[1..], k) {
          var i :| 0 <= i < |es[1..]| && es[1..][i].0 == k;
          assert es[i + 1].0 == k;
        }
      }
      assert HasKey(es, k) ==> HasKey(es[1..], k) by {
        if HasKey(es, k) {
          var i :| 0 <= i < |es| && es[i].0 == k;
          assert i > 0 && es[1..][i - 1].0 == k;
        }
      }
      r
  }

  /** The entries left once key `k` is deleted, in their old order. */
  function Without(es: seq<Entry>, k: string): (r: seq<Entry>)
    ensures forall e :: e in r <==> e in es && e.0 != k
    ensures |r| <= |es|
  {
    if es == [] then []
    else (if es[0].0 == k then [] else [es[0]]) + Without(es[1..], k)
  }

  /** Deleting one key does not change the lookup of any other, and removes that key. */
  lemma {:induction false} LookupWithout(es: seq<Entry>, k: string, j: string)
    ensures Lookup(Without(es, k), j) == if j == k then None else Lookup(es, j)
  {
    if es != [] {
      LookupWithout(es[1..], k, j);
      if es[0].0 == k {
        assert Without(es, k) == Without(es[1..], k);
      } else {
        assert Without(es, k) == [es[0]] + Without(es[1..], k);
        assert ([es[0]] + Without(es[1..], k))[1..] == Without(es[1..], k);
      }
    }
  }

  /** Deleting a key that is not there changes nothing. */
  lemma {:induction false} WithoutAbsent(es: seq<Entry>, k: string)
    requires !HasKey(es, k)
    ensures Without(es, k) == es
  {
    if es != [] {
      forall i | 0 <= i < |es[1..]| ensures es[1..][i].0 != k {
        assert es[1..][i] == es[i + 1];
      }
      WithoutAbsent(es[1..], k);
      assert es[0].0 != k;
      assert es == [es[0]] + es[1..];
    }
  }

  lemma {:induction false} WithoutDistinct(es: seq<Entry>, k: string)
    requires DistinctKeys(es)
    ensures DistinctKeys(Without(es, k))
  {
    if es != [] {
      assert DistinctKeys(es[1..]) by {
        forall i, j | 0 <= i < j < |es[1..]| ensures es[1..][i].0 != es[1..][j].0 {
          assert es[1..][i] == es[i + 1] && es[1..][j] == es[j + 1];
        }
      }
      WithoutDistinct(es[1..], k);
      var rest := Without(es[1..], k);
      if es[0].0 != k {
        forall e | e in rest ensures e.0 != es[0].0 {
          var i :| 0 <= i < |es| && es[i] == e;
          assert i > 0;
        }
        assert Without(es, k) == [es[0]] + rest;
      }
    }
  }

  /** Deleting leaves only entries that were there, and no entry for the deleted key. */
  lemma WithoutDropsKey(es: seq<Entry>, k: string)
    ensures !HasKey(Without(es, k), k)
  {
    LookupWithout(es, k, k);
  }

  /** The condition map a builder reads and, for the special keys, deletes from. */
  class CondMap {
    var entries: seq<Entry>

    ghost predicate Valid()
      reads this
    {
      DistinctKeys(entries)
    }

    constructor (es: seq<Entry>)
      requires DistinctKeys(es)
      ensures entries == es && Valid()
    {
      entries := es;
    }

    function Get(k: string): (r: Option<Value>)
      reads this
      ensures r.Some? <==> HasKey(entries, k)
      ensures r.Some? ==> (k, r.value) in entries
    {
      Lookup(entries, k)
    }

    /** Go's delete(m, k). */
    method Delete(k: string)
      modifies this
      ensures entries == Without(old(entries), k)
      ensures old(Valid()) ==> Valid()
    {
      if Valid() {
        WithoutDistinct(entries, k);
      }
      entries := Without(entries, k);
    }
  }
}
