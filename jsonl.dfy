/**
 * The record emitter's selection: which values of the result map become
 * output lines, and in which order. Each line stands for the serialized
 * object; the JSON text itself is not modelled.
 */
module Jsonl {
  import opened Osm
  import opened Filters

  /**
   * The entries of `es` whose values pass `keep`, in map order, as an
   * iterator over the map's values with a filter visits them. There are
   * at most as many as the map has entries.
   */
  function FilterEntries(es: seq<Entry>, keep: OsmObj -> bool): (r: seq<Entry>)
    ensures |r| <= |es|
  {
    if es == [] then []
    else
      var last := es[|es| - 1];
      FilterEntries(es[..|es| - 1], keep) + (if keep(last.value) then [last] else [])
  }

  /** The entries `to_jsonl` emits: those passing the narrow predicate. */
  function Selected(es: seq<Entry>): (r: seq<Entry>)
    ensures |r| <= |es|
    ensures forall e :: e in r ==> e in es && FilterTargetRelations(e.value)
  {
    FilterSound(es, FilterTargetRelations);
    FilterEntries(es, FilterTargetRelations)
  }

  /** Every kept entry is an entry of the map and passes the filter. */
  lemma {:induction false} FilterSound(es: seq<Entry>, keep: OsmObj -> bool)
    ensures forall e :: e in FilterEntries(es, keep) ==> e in es && keep(e.value)
  {
    if es != [] {
      var n := |es| - 1;
      FilterSound(es[..n], keep);
      forall e | e in FilterEntries(es[..n], keep)
        ensures e in es
      {
        var t :| 0 <= t < n && es[..n][t] == e;
        assert es[t] == e;
      }
    }
  }

  /** Every entry passing the filter is kept. */
  lemma {:induction false} FilterComplete(es: seq<Entry>, keep: OsmObj -> bool, i: nat)
    requires i < |es| && keep(es[i].value)
    ensures es[i] in FilterEntries(es, keep)
  {
    var n := |es| - 1;
    if i < n {
      FilterComplete(es[..n], keep, i);
      assert es[..n][i] == es[i];
    }
  }

  /** The kept entries keep the map's ascending key order. */
  lemma {:induction false} FilterSorted(es: seq<Entry>, keep: OsmObj -> bool)
    requires Sorted(es)
    ensures Sorted(FilterEntries(es, keep))
  {
    if es != [] {
      var n := |es| - 1;
      assert Sorted(es[..n]);
      FilterSorted(es[..n], keep);
      FilterSound(es[..n], keep);
      forall e | e in FilterEntries(es[..n], keep)
        ensures IdLess(e.key, es[n].key)
      {
        var i :| 0 <= i < n && es[..n][i] == e;
        assert es[i] == e;
      }
    }
  }

  /** Filtering one more entry adds at most that entry. */
  lemma FilterCountStep(es: seq<Entry>, keep: OsmObj -> bool, x: Entry)
    requires es != []
    ensures multiset(FilterEntries(es, keep))[x] == multiset(FilterEntries(es[..|es| - 1], keep))[x] +
      (if keep(es[|es| - 1].value) && es[|es| - 1] == x then 1 else 0)
  {
    var last := es[|es| - 1];
    var tail := if keep(last.value) then [last] else [];
    assert FilterEntries(es, keep) == FilterEntries(es[..|es| - 1], keep) + tail;
    assert multiset(FilterEntries(es, keep)) == multiset(FilterEntries(es[..|es| - 1], keep)) + multiset(tail);
  }

  /** In an ordered map, the last entry does not occur before it. */
  lemma LastNotInPrefix(es: seq<Entry>)
    requires Sorted(es) && es != []
    ensures es[|es| - 1] !in es[..|es| - 1]
  {
    var n := |es| - 1;
    forall t | 0 <= t < n
      ensures es[..n][t] != es[n]
    {
      IdLessIsStrictTotalOrder(es[t].key, es[n].key, es[n].key);
    }
  }

  /** In an ordered map, the last entry is kept once if it passes the filter, else not at all. */
  lemma FilterOnceLast(es: seq<Entry>, keep: OsmObj -> bool)
    requires Sorted(es) && es != []
    ensures multiset(FilterEntries(es, keep))[es[|es| - 1]] == if keep(es[|es| - 1].value) then 1 else 0
  {
    var n := |es| - 1;
    LastNotInPrefix(es);
    FilterSound(es[..n], keep);
    assert es[n] !in FilterEntries(es[..n], keep);
    FilterCountStep(es, keep, es[n]);
  }

  /**
   * In an ordered map, each entry is kept exactly once when it passes the
   * filter and never otherwise.
   */
  lemma {:induction false} FilterOnce(es: seq<Entry>, keep: OsmObj -> bool, i: nat)
    requires Sorted(es) && i < |es|
    ensures multiset(FilterEntries(es, keep))[es[i]] == if keep(es[i].value) then 1 else 0
  {
    var n := |es| - 1;
    if i < n {
      var prefix := es[..n];
      assert Sorted(prefix);
      FilterOnce(prefix, keep, i);
      assert prefix[i] == es[i];
      assert IdLess(es[i].key, es[n].key);
      FilterCountStep(es, keep, es[i]);
    } else {
      FilterOnceLast(es, keep);
    }
  }

  /**
   * The emitter's selection: in an ordered map, every entry passing the
   * narrow predicate is selected exactly once, no other entry is selected,
   * and the selection comes in ascending key order.
   */
  lemma SelectedExactly(es: seq<Entry>)
    requires Sorted(es)
    ensures forall e :: e in Selected(es) ==> e in es && FilterTargetRelations(e.value)
    ensures forall i :: 0 <= i < |es| ==>
      multiset(Selected(es))[es[i]] == if FilterTargetRelations(es[i].value) then 1 else 0
    ensures Sorted(Selected(es))
  {
    FilterSound(es, FilterTargetRelations);
    forall i | 0 <= i < |es|
      ensures multiset(Selected(es))[es[i]] == if FilterTargetRelations(es[i].value) then 1 else 0
    {
      FilterOnce(es, FilterTargetRelations, i);
    }
    FilterSorted(es, FilterTargetRelations);
  }

  /**
   * `to_jsonl`: one output line per map value passing the narrow
   * predicate, in map order; nothing for any other value.
   */
  method ToJsonl(relations: seq<Entry>) returns (lines: seq<OsmObj>)
    ensures |lines| == |Selected(relations)|
    ensures forall i :: 0 <= i < |lines| ==> lines[i] == Selected(relations)[i].value
    ensures forall obj :: obj in lines ==> FilterTargetRelations(obj)
  {
    lines := [];
    var i := 0;
    while i < |relations|
      invariant 0 <= i <= |relations|
      invariant |lines| == |Selected(relations[..i])|
      invariant forall t :: 0 <= t < |lines| ==> lines[t] == Selected(relations[..i])[t].value
    {
      assert relations[..i + 1][..i] == relations[..i];
      var relation := relations[i].value;
      if FilterTargetRelations(relation) {
        lines := lines + [relation];
      }
      i := i + 1;
    }
    assert relations[..i] == relations;
    FilterSound(relations, FilterTargetRelations);
    forall obj | obj in lines
      ensures FilterTargetRelations(obj)
    {
      var t :| 0 <= t < |lines| && lines[t] == obj;
      assert Selected(relations)[t] in Selected(relations);
    }
  }
}
