/**
 * Sums of real values over finite sets of row ids.
 *
 * The toolbox accumulates values by looping over the rows a query returns
 * (`surface -= obstacle['surface']`, `total_cost += ...`). A query result has
 * no order the code relies on, so these loops are specified by a sum over the
 * SET of matching ids; `SeqSumIsSum` shows that summing the rows in any order
 * gives that same value.
 */
module Sums {

  /** A non-empty set of ids has an element to pick. */
  lemma HasElement(ids: set<int>)
    requires ids != {}
    ensures exists k :: k in ids
  {
    if forall k :: k !in ids {
      assert false;
    }
  }

  /** Sum of `m[k]` for every `k` in `ids`. */
  ghost function Sum(m: map<int, real>, ids: set<int>): real
    requires ids <= m.Keys
    decreases ids
  {
    if ids == {} then 0.0
    else
      HasElement(ids);
      var k :| k in ids;
      m[k] + Sum(m, ids - {k})
  }

  /** Any element can be taken out first: the sum does not depend on the order of the ids. */
  lemma {:induction false} SumRemove(m: map<int, real>, ids: set<int>, k: int)
    requires ids <= m.Keys && k in ids
    ensures Sum(m, ids) == m[k] + Sum(m, ids - {k})
    decreases ids
  {
    var j :| j in ids && Sum(m, ids) == m[j] + Sum(m, ids - {j});
    if j != k {
      SumRemove(m, ids - {j}, k);
      SumRemove(m, ids - {k}, j);
      assert ids - {j} - {k} == ids - {k} - {j};
    }
  }

  /** Adding one new id adds its value. */
  lemma SumAdd(m: map<int, real>, ids: set<int>, k: int)
    requires ids <= m.Keys && k in m && k !in ids
    ensures Sum(m, ids + {k}) == Sum(m, ids) + m[k]
  {
    SumRemove(m, ids + {k}, k);
    assert ids + {k} - {k} == ids;
  }

  /** The sum only reads the values of the ids it sums over. */
  lemma {:induction false} SumFrame(m: map<int, real>, m': map<int, real>, ids: set<int>)
    requires ids <= m.Keys && ids <= m'.Keys
    requires forall k :: k in ids ==> m[k] == m'[k]
    ensures Sum(m, ids) == Sum(m', ids)
    decreases ids
  {
    if ids != {} {
      HasElement(ids);
      var k :| k in ids;
      SumRemove(m, ids, k);
      SumRemove(m', ids, k);
      SumFrame(m, m', ids - {k});
    }
  }

  /** Summing 1 for each id counts the ids. */
  lemma {:induction false} SumCount(m: map<int, real>, ids: set<int>)
    requires ids <= m.Keys
    requires forall k :: k in ids ==> m[k] == 1.0
    ensures Sum(m, ids) == |ids| as real
    decreases ids
  {
    if ids != {} {
      HasElement(ids);
      var k :| k in ids;
      SumRemove(m, ids, k);
      SumCount(m, ids - {k});
    }
  }

  /** A sum over a sequence of ids, front to back: what a loop over query rows computes. */
  function SeqSum(m: map<int, real>, order: seq<int>): real
    requires forall i :: 0 <= i < |order| ==> order[i] in m
  {
    if order == [] then 0.0 else m[order[0]] + SeqSum(m, order[1..])
  }

  /** The elements of a sequence, as a set. */
  function Elements(order: seq<int>): (s: set<int>)
    ensures forall k :: k in s <==> k in order
  {
    set k | k in order
  }

  /** A sequence that lists each id at most once. */
  predicate Distinct(order: seq<int>)
  {
    forall i, j :: 0 <= i < j < |order| ==> order[i] != order[j]
  }

  /**
   * Summing the rows in any order, each row once, gives the set sum: the
   * result of an accumulation loop does not depend on the row order.
   */
  lemma {:induction false} SeqSumIsSum(m: map<int, real>, order: seq<int>)
    requires forall i :: 0 <= i < |order| ==> order[i] in m
    requires Distinct(order)
    ensures Elements(order) <= m.Keys
    ensures SeqSum(m, order) == Sum(m, Elements(order))
  {
    if order != [] {
      var rest := order[1..];
      assert forall i, j :: 0 <= i < j < |rest| ==> rest[i] == order[i + 1] && rest[j] == order[j + 1];
      SeqSumIsSum(m, rest);
      assert order[0] !in rest by {
        forall i | 0 <= i < |rest| ensures rest[i] != order[0] {
          assert rest[i] == order[i + 1];
        }
      }
      assert Elements(order) == Elements(rest) + {order[0]} by {
        assert order == [order[0]] + rest;
      }
      SumAdd(m, Elements(rest), order[0]);
    }
  }

  /** Two orders of the same rows give the same total. */
  lemma SeqSumPermutation(m: map<int, real>, xs: seq<int>, ys: seq<int>)
    requires forall i :: 0 <= i < |xs| ==> xs[i] in m
    requires forall i :: 0 <= i < |ys| ==> ys[i] in m
    requires Distinct(xs) && Distinct(ys) && Elements(xs) == Elements(ys)
    ensures SeqSum(m, xs) == SeqSum(m, ys)
  {
    SeqSumIsSum(m, xs);
    SeqSumIsSum(m, ys);
  }

  /** The ids in `ids` whose tag is `p`. */
  function Fiber(tag: map<int, int>, ids: set<int>, p: int): (f: set<int>)
    requires ids <= tag.Keys
    ensures f <= ids
  {
    set k | k in ids && tag[k] == p
  }

  /** The labels the ids in `ids` carry. */
  function Labels(tag: map<int, int>, ids: set<int>): set<int>
    requires ids <= tag.Keys
  {
    set k | k in ids :: tag[k]
  }

  /** Adding one id to a set: its tag joins the labels, and only its own tag's group grows. */
  lemma FiberAdd(tag: map<int, int>, ids: set<int>, k: int)
    requires ids <= tag.Keys && k in tag && k !in ids
    ensures Labels(tag, ids + {k}) == Labels(tag, ids) + {tag[k]}
    ensures Fiber(tag, ids + {k}, tag[k]) == Fiber(tag, ids, tag[k]) + {k}
    ensures forall p :: p != tag[k] ==> Fiber(tag, ids + {k}, p) == Fiber(tag, ids, p)
    ensures tag[k] !in Labels(tag, ids) ==> Fiber(tag, ids, tag[k]) == {}
  {
    assert tag[k] in Labels(tag, ids + {k}) by { assert k in ids + {k}; }
    forall p | p in Labels(tag, ids) ensures p in Labels(tag, ids + {k}) {
      var j :| j in ids && tag[j] == p;
      assert j in ids + {k};
    }
    if tag[k] !in Labels(tag, ids) {
      forall j | j in ids ensures tag[j] != tag[k] {
        assert tag[j] in Labels(tag, ids);
      }
    }
  }

  /** For each tag, the sum of the values of the ids carrying it. */
  ghost function FiberSums(m: map<int, real>, tag: map<int, int>, ids: set<int>): (r: map<int, real>)
    requires ids <= m.Keys && ids <= tag.Keys
    ensures r.Keys == Labels(tag, ids)
  {
    map p | p in Labels(tag, ids) :: Sum(m, Fiber(tag, ids, p))
  }

  /** `g` holds, for each tag the ids in `ids` carry, the sum of those ids' values. */
  ghost predicate GroupSums(g: map<int, real>, m: map<int, real>, tag: map<int, int>, ids: set<int>)
    requires ids <= m.Keys && ids <= tag.Keys
  {
    && g.Keys == Labels(tag, ids)
    && forall p :: p in g ==> g[p] == Sum(m, Fiber(tag, ids, p))
  }

  /** Adding one id's value to its tag's entry, or opening the entry, keeps the group sums. */
  lemma GroupSumsStep(g: map<int, real>, m: map<int, real>, tag: map<int, int>, ids: set<int>, k: int)
    requires ids <= m.Keys && ids <= tag.Keys && k in m && k in tag && k !in ids
    requires GroupSums(g, m, tag, ids)
    ensures GroupSums(if tag[k] !in g then g[tag[k] := m[k]] else g[tag[k] := g[tag[k]] + m[k]], m, tag, ids + {k})
  {
    FiberAdd(tag, ids, k);
    SumAdd(m, Fiber(tag, ids, tag[k]), k);
  }

  /** The group sums are exactly `FiberSums`. */
  lemma GroupSumsAreFiberSums(g: map<int, real>, m: map<int, real>, tag: map<int, int>, ids: set<int>)
    requires ids <= m.Keys && ids <= tag.Keys
    requires GroupSums(g, m, tag, ids)
    ensures g == FiberSums(m, tag, ids)
  {
  }

  /**
   * Grouping the ids by tag and summing each group, then summing the group
   * totals, gives the sum over all ids.
   */
  lemma {:induction false} SumPartition(m: map<int, real>, tag: map<int, int>, ids: set<int>)
    requires ids <= m.Keys && ids <= tag.Keys
    ensures Sum(FiberSums(m, tag, ids), Labels(tag, ids)) == Sum(m, ids)
    decreases ids
  {
    if ids == {} {
      assert Labels(tag, ids) == {};
    } else {
      HasElement(ids);
      var k :| k in ids;
      var rest := ids - {k};
      var p0 := tag[k];
      SumPartition(m, tag, rest);
      SumRemove(m, ids, k);
      var before := FiberSums(m, tag, rest);
      var after := FiberSums(m, tag, ids);
      var others := Labels(tag, rest) - {p0};
      assert Labels(tag, ids) == others + {p0};
      forall p | p in others ensures after[p] == before[p] {
        assert Fiber(tag, ids, p) == Fiber(tag, rest, p);
      }
      SumFrame(after, before, others);
      assert Fiber(tag, ids, p0) == Fiber(tag, rest, p0) + {k};
      SumAdd(m, Fiber(tag, rest, p0), k);
      SumRemove(after, Labels(tag, ids), p0);
      assert Labels(tag, ids) - {p0} == others;
      if p0 in Labels(tag, rest) {
        SumRemove(before, Labels(tag, rest), p0);
      } else {
        assert Fiber(tag, rest, p0) == {};
        assert others == Labels(tag, rest);
      }
    }
  }
}
