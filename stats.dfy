/**
 * The boundary-type histogram: count, per boundary tag value, the
 * relations of the result map that pass the broad predicate, then list the
 * (value, count) pairs by count, largest first.
 */
module Stats {
  import opened Osm
  import opened Filters

  /**
   * What the tally loop takes from one map value: its boundary tag value
   * when it passes the broad predicate and has that tag, None otherwise.
   */
  function BoundaryOf(obj: OsmObj): (r: Option<string>)
    ensures r.Some? <==> FilterAllRelations(obj) && "boundary" in obj.tags
    ensures r.Some? ==> r.value == obj.tags["boundary"]
  {
    if FilterAllRelations(obj) then Get(obj.tags, "boundary") else None
  }

  /**
   * The values that `f` yields for the entries of `es`, in map order, with
   * the entries it yields nothing for dropped.
   */
  function FilterMap(es: seq<Entry>, f: OsmObj -> Option<string>): (bs: seq<string>)
    ensures |bs| <= |es|
  {
    if es == [] then []
    else
      var y := f(es[|es| - 1].value);
      FilterMap(es[..|es| - 1], f) + (if y.Some? then [y.value] else [])
  }

  /** The boundary values the tally loop visits, in map order. */
  function Boundaries(es: seq<Entry>): (bs: seq<string>)
    ensures |bs| <= |es|
  {
    FilterMap(es, BoundaryOf)
  }

  /** A value is produced exactly when some entry yields it. */
  lemma {:induction false} FilterMapMember(es: seq<Entry>, f: OsmObj -> Option<string>, b: string)
    ensures b in FilterMap(es, f) <==> exists i :: 0 <= i < |es| && f(es[i].value) == Some(b)
  {
    if es != [] {
      var n := |es| - 1;
      FilterMapMember(es[..n], f, b);
      if b in FilterMap(es, f) {
        if b !in FilterMap(es[..n], f) {
          assert f(es[n].value) == Some(b);
        } else {
          var i :| 0 <= i < n && f(es[..n][i].value) == Some(b);
          assert es[i] == es[..n][i];
        }
      } else {
        forall i | 0 <= i < |es|
          ensures f(es[i].value) != Some(b)
        {
          if i < n {
            assert es[i] == es[..n][i];
          }
        }
      }
    }
  }

  /** The indices of the entries `f` yields a value for. */
  function YieldingIndices(es: seq<Entry>, f: OsmObj -> Option<string>): set<nat>
  {
    set i: nat | i < |es| && f(es[i].value).Some?
  }

  /** One value is produced per entry that yields one. */
  lemma {:induction false} FilterMapLength(es: seq<Entry>, f: OsmObj -> Option<string>)
    ensures |FilterMap(es, f)| == |YieldingIndices(es, f)|
  {
    if es == [] {
      assert YieldingIndices(es, f) == {};
    } else {
      var n := |es| - 1;
      FilterMapLength(es[..n], f);
      var before := YieldingIndices(es[..n], f);
      var last: set<nat> := if f(es[n].value).Some? then {n} else {};
      forall i: nat
        ensures i in YieldingIndices(es, f) <==> i in before + last
      {
        if i < n {
          assert es[..n][i] == es[i];
        }
      }
      assert YieldingIndices(es, f) == before + last;
      assert n !in before;
    }
  }

  /** The indices of the entries that pass the broad predicate and have a boundary tag. */
  function CountedIndices(es: seq<Entry>): set<nat>
  {
    set i: nat | i < |es| && FilterAllRelations(es[i].value) && "boundary" in es[i].value.tags
  }

  /**
   * A value is visited exactly when some entry passing the broad predicate
   * carries it as its boundary tag; entries without the tag contribute
   * nothing, and there is one visited value per entry that has it.
   */
  lemma BoundariesExactly(es: seq<Entry>)
    ensures forall b :: b in Boundaries(es) <==>
      exists i :: 0 <= i < |es| && FilterAllRelations(es[i].value) &&
        "boundary" in es[i].value.tags && es[i].value.tags["boundary"] == b
    ensures |Boundaries(es)| == |CountedIndices(es)|
  {
    forall b
      ensures b in Boundaries(es) <==>
        exists i :: 0 <= i < |es| && FilterAllRelations(es[i].value) &&
          "boundary" in es[i].value.tags && es[i].value.tags["boundary"] == b
    {
      FilterMapMember(es, BoundaryOf, b);
    }
    FilterMapLength(es, BoundaryOf);
    assert YieldingIndices(es, BoundaryOf) == CountedIndices(es);
  }

  /**
   * The counter update `*entry(b).or_default() += 1`: `b` gains an entry
   * if it had none, its count grows by one from the default zero or from
   * its current value, and every other entry is unchanged.
   */
  function Increment(counts: map<string, nat>, b: string): (r: map<string, nat>)
    ensures r.Keys == counts.Keys + {b}
    ensures r[b] == (if b in counts then counts[b] + 1 else 1)
    ensures forall k :: k in counts && k != b ==> r[k] == counts[k]
  {
    counts[b := (if b in counts then counts[b] else 0) + 1]
  }

  /**
   * The tally map after visiting `bs`, built as the loop builds it: each
   * value's entry is created at zero on first sight and incremented.
   * Its keys are the visited values and each count is the value's number
   * of occurrences, so no count is zero.
   */
  function Tally(bs: seq<string>): (counts: map<string, nat>)
    ensures forall b :: b in counts <==> b in bs
    ensures forall b :: b in counts ==> counts[b] == multiset(bs)[b]
  {
    if bs == [] then map[]
    else
      var n := |bs| - 1;
      assert bs == bs[..n] + [bs[n]];
      Increment(Tally(bs[..n]), bs[n])
  }

  /** The keys of `out` are pairwise distinct. */
  predicate DistinctKeys(out: seq<(string, nat)>)
  {
    forall i, j :: 0 <= i < j < |out| ==> out[i].0 != out[j].0
  }

  /** Some pair of `out` has key `b`. */
  predicate HasKey(out: seq<(string, nat)>, b: string)
  {
    exists i :: 0 <= i < |out| && out[i].0 == b
  }

  /** `out` lists the entries of `counts`, each exactly once, in some order. */
  predicate ListsEntries(out: seq<(string, nat)>, counts: map<string, nat>)
  {
    && DistinctKeys(out)
    && (forall i :: 0 <= i < |out| ==> out[i].0 in counts && counts[out[i].0] == out[i].1)
    && (forall b :: b in counts ==> HasKey(out, b))
  }

  /** Counts never increase along `out`. */
  predicate NonIncreasing(out: seq<(string, nat)>)
  {
    forall i, j :: 0 <= i < j < |out| ==> out[i].1 >= out[j].1
  }

  /** The sum of the counts in `out`. */
  function Total(out: seq<(string, nat)>): nat
  {
    if out == [] then 0 else Total(out[..|out| - 1]) + out[|out| - 1].1
  }

  /** `bs` with every occurrence of `k` removed. */
  function Without(bs: seq<string>, k: string): seq<string>
  {
    if bs == [] then []
    else Without(bs[..|bs| - 1], k) + (if bs[|bs| - 1] == k then [] else [bs[|bs| - 1]])
  }

  lemma {:induction false} WithoutCounts(bs: seq<string>, k: string)
    ensures multiset(Without(bs, k)) == multiset(bs)[k := 0]
    ensures |Without(bs, k)| + multiset(bs)[k] == |bs|
  {
    if bs != [] {
      var n := |bs| - 1;
      var prefix, x := bs[..n], bs[n];
      WithoutCounts(prefix, k);
      assert bs == prefix + [x];
      assert multiset(bs) == multiset(prefix) + multiset{x};
      if x == k {
        assert Without(bs, k) == Without(prefix, k);
      } else {
        assert Without(bs, k) == Without(prefix, k) + [x];
        assert multiset(Without(bs, k)) == multiset(Without(prefix, k)) + multiset{x};
      }
    }
  }

  /**
   * Listing every occurrence count of `bs` once, under distinct keys,
   * accounts for every element of `bs`: the counts add up to its length.
   */
  lemma {:induction false} TotalOfCounts(out: seq<(string, nat)>, bs: seq<string>)
    requires DistinctKeys(out)
    requires forall i :: 0 <= i < |out| ==> out[i].1 == multiset(bs)[out[i].0]
    requires forall b :: b in bs ==> HasKey(out, b)
    ensures Total(out) == |bs|
  {
    if out == [] {
      assert |bs| > 0 ==> HasKey(out, bs[0]);
    } else {
      var n := |out| - 1;
      var k := out[n].0;
      var rest := Without(bs, k);
      WithoutCounts(bs, k);
      forall i | 0 <= i < n
        ensures out[..n][i].1 == multiset(rest)[out[..n][i].0]
      {
        assert out[i].0 != k;
      }
      forall b | b in rest
        ensures HasKey(out[..n], b)
      {
        assert b in multiset(rest);
        assert b != k && b in bs;
        var i :| 0 <= i < |out| && out[i].0 == b;
        assert out[..n][i].0 == b;
      }
      TotalOfCounts(out[..n], rest);
    }
  }

  /**
   * Where a stable sort by count, largest first, places an entry of count
   * `c` that comes after those of `out`: after every entry whose count is
   * at least `c`.
   */
  method FindInsertionPoint(out: seq<(string, nat)>, c: nat) returns (j: nat)
    requires NonIncreasing(out)
    ensures j <= |out|
    ensures forall t :: 0 <= t < j ==> out[t].1 >= c
    ensures forall t :: j <= t < |out| ==> out[t].1 < c
  {
    j := 0;
    while j < |out| && out[j].1 >= c
      invariant j <= |out|
      invariant forall t :: 0 <= t < j ==> out[t].1 >= c
    {
      j := j + 1;
    }
  }

  /** Inserting at the insertion point keeps the counts non-increasing. */
  lemma InsertKeepsOrder(out: seq<(string, nat)>, j: nat, k: string, c: nat)
    requires NonIncreasing(out) && j <= |out|
    requires forall t :: 0 <= t < j ==> out[t].1 >= c
    requires forall t :: j <= t < |out| ==> out[t].1 < c
    ensures NonIncreasing(out[..j] + [(k, c)] + out[j..])
  {
    var r := out[..j] + [(k, c)] + out[j..];
    assert forall t :: 0 <= t < j ==> r[t] == out[t];
    assert forall t :: j < t < |r| ==> r[t] == out[t - 1];
  }

  /** Inserting a fresh key keeps the keys distinct and adds exactly that key. */
  lemma InsertKeepsKeys(out: seq<(string, nat)>, j: nat, k: string, c: nat)
    requires DistinctKeys(out) && j <= |out|
    requires forall t :: 0 <= t < |out| ==> out[t].0 != k
    ensures var r := out[..j] + [(k, c)] + out[j..];
      && DistinctKeys(r)
      && (forall b :: HasKey(r, b) <==> b == k || HasKey(out, b))
      && (forall i :: 0 <= i < |r| ==> r[i] == (k, c) || r[i] in out)
  {
    var r := out[..j] + [(k, c)] + out[j..];
    assert forall t :: 0 <= t < j ==> r[t] == out[t];
    assert r[j] == (k, c);
    assert forall t :: j < t < |r| ==> r[t] == out[t - 1];
    forall b | HasKey(out, b)
      ensures HasKey(r, b)
    {
      var i :| 0 <= i < |out| && out[i].0 == b;
      if i < j {
        assert r[i].0 == b;
      } else {
        assert r[i + 1].0 == b;
      }
    }
  }

  /**
   * The second loop of the histogram: walk the tally's entries in an
   * unspecified order (the hash map's) and stably sort them by count,
   * largest first. Each entry is inserted after every entry already placed
   * whose count is at least as large, which is where a stable sort of the
   * walk puts it. Ties are left in walk order, which is not fixed here.
   */
  method SortByCountDescending(counts: map<string, nat>) returns (out: seq<(string, nat)>)
    ensures ListsEntries(out, counts)
    ensures NonIncreasing(out)
    ensures |out| == |counts|
  {
    out := [];
    var pending := counts.Keys;
    while pending != {}
      invariant pending <= counts.Keys
      invariant |out| + |pending| == |counts.Keys|
      invariant DistinctKeys(out) && NonIncreasing(out)
      invariant forall i :: 0 <= i < |out| ==>
        out[i].0 in counts && counts[out[i].0] == out[i].1 && out[i].0 !in pending
      invariant forall b :: b in counts && b !in pending ==> HasKey(out, b)
      decreases |pending|
    {
      var k :| k in pending;
      var c := counts[k];
      var j := FindInsertionPoint(out, c);
      InsertKeepsOrder(out, j, k, c);
      InsertKeepsKeys(out, j, k, c);
      out := out[..j] + [(k, c)] + out[j..];
      pending := pending - {k};
    }
  }

  /** Visiting one more entry appends its boundary value when it passes the broad predicate and has one. */
  lemma BoundariesStep(es: seq<Entry>, i: nat)
    requires i < |es|
    ensures var obj := es[i].value;
      Boundaries(es[..i + 1]) ==
        if FilterAllRelations(obj) && "boundary" in obj.tags then Boundaries(es[..i]) + [obj.tags["boundary"]]
        else Boundaries(es[..i])
  {
    assert es[..i + 1][..i] == es[..i];
  }

  /** Tallying one more value increments its count, starting from zero. */
  lemma TallyStep(bs: seq<string>, b: string)
    ensures Tally(bs + [b]) == Increment(Tally(bs), b)
  {
    assert (bs + [b])[..|bs|] == bs;
  }

  /** The first loop of the histogram: the tally of the visited boundary values. */
  method CountBoundaries(relations: seq<Entry>) returns (counts: map<string, nat>)
    ensures counts == Tally(Boundaries(relations))
  {
    counts := map[];
    var i := 0;
    while i < |relations|
      invariant 0 <= i <= |relations|
      invariant counts == Tally(Boundaries(relations[..i]))
    {
      var obj := relations[i].value;
      ghost var seen := Boundaries(relations[..i]);
      BoundariesStep(relations, i);
      if FilterAllRelations(obj) {
        match Get(obj.tags, "boundary")
        case Some(boundary) =>
          assert Boundaries(relations[..i + 1]) == seen + [boundary];
          TallyStep(seen, boundary);
          counts := Increment(counts, boundary);
        case None =>
          assert Boundaries(relations[..i + 1]) == seen;
      } else {
        assert Boundaries(relations[..i + 1]) == seen;
      }
      i := i + 1;
    }
    assert relations[..i] == relations;
  }

  /**
   * Any listing of a tally's entries reports, for each value, its number
   * of occurrences, which is at least 1: an entry exists only once it has
   * been incremented.
   */
  lemma TallyListingCounts(out: seq<(string, nat)>, bs: seq<string>)
    requires ListsEntries(out, Tally(bs))
    ensures forall i :: 0 <= i < |out| ==> out[i].1 == multiset(bs)[out[i].0] >= 1
  {
    forall i | 0 <= i < |out|
      ensures out[i].1 == multiset(bs)[out[i].0] >= 1
    {
      assert out[i].0 in bs;
    }
  }

  /**
   * `to_stats`: tally the boundary values of the entries passing the broad
   * predicate and list the (value, count) pairs by count, largest first.
   * The pairs are exactly the tally's entries, one per distinct value (so,
   * by TallyListingCounts, every count is at least 1), and the counts add
   * up to the number of entries passing the broad predicate that have a
   * boundary tag.
   */
  method ToStats(relations: seq<Entry>) returns (out: seq<(string, nat)>)
    ensures ListsEntries(out, Tally(Boundaries(relations)))
    ensures NonIncreasing(out)
    ensures Total(out) == |CountedIndices(relations)|
  {
    var counts := CountBoundaries(relations);
    out := SortByCountDescending(counts);
    ghost var bs := Boundaries(relations);
    TallyListingCounts(out, bs);
    TotalOfCounts(out, bs);
    BoundariesExactly(relations);
  }
}
