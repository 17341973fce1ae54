/**
 Reciprocal rank fusion of the dense and the keyword half of a hybrid search
 (`src/geek_crawler_rag/llama_engine.py`). Scores are exact; the program's are floats.
 */
module RankFusion {
  import opened Sequences

  /** Node ids are only ever compared. */
  type NodeId = nat

  const RRF_K := 60

  /** What a hit at `index` (rank `index + 1`) of a half is worth. */
  function Weight(index: nat): real {
    1.0 / (RRF_K + 1 + index) as real
  }

  // ---- Stable sorting, best first ----

  /** `a` goes before `b`: a higher score, or the same score and an earlier place. */
  predicate Better(scores: seq<real>, a: nat, b: nat)
    requires a < |scores| && b < |scores|
  {
    scores[a] > scores[b] || (scores[a] == scores[b] && a < b)
  }

  predicate Indices(scores: seq<real>, order: seq<nat>, from: nat) {
    forall k | 0 <= k < |order| :: from <= order[k] < |scores|
  }

  predicate BestFirst(scores: seq<real>, order: seq<nat>)
    requires Indices(scores, order, 0)
  {
    forall i, j | 0 <= i < j < |order| :: Better(scores, order[i], order[j])
  }

  /** Put `index`, which comes before everything in `order`, at its place. */
  function Insert(scores: seq<real>, index: nat, order: seq<nat>): seq<nat>
    requires index < |scores| && Indices(scores, order, 0)
  {
    if order == [] || scores[order[0]] <= scores[index] then [index] + order
    else [order[0]] + Insert(scores, index, order[1..])
  }

  function OrderFrom(scores: seq<real>, from: nat): (order: seq<nat>)
    requires from <= |scores|
    ensures Indices(scores, order, from) && |order| == |scores| - from
    decreases |scores| - from
  {
    if from == |scores| then []
    else
      var rest := OrderFrom(scores, from + 1);
      InsertKeeps(scores, from, rest);
      Insert(scores, from, rest)
  }

  /** The places of `scores`, sorted by score, best first and stably. */
  function StableOrder(scores: seq<real>): seq<nat> {
    OrderFrom(scores, 0)
  }

  lemma {:induction false} InsertKeeps(scores: seq<real>, index: nat, order: seq<nat>)
    requires index < |scores| && Indices(scores, order, index)
    ensures var r := Insert(scores, index, order);
            Indices(scores, r, index) && |r| == |order| + 1 && forall x :: x in r <==> x == index || x in order
    decreases |order|
  {
    if order != [] && scores[order[0]] > scores[index] {
      InsertKeeps(scores, index, order[1..]);
      assert order == [order[0]] + order[1..];
    }
  }

  /** The head of a sorted order goes before all that comes after it, and before anything that scores less. */
  lemma HeadIsBest(scores: seq<real>, order: seq<nat>, index: nat, x: nat)
    requires order != [] && Indices(scores, order, 0) && BestFirst(scores, order)
    requires index < |scores| && scores[order[0]] > scores[index] && (x == index || x in order[1..])
    ensures x < |scores| && Better(scores, order[0], x)
  {
    if x != index {
      var k :| 0 <= k < |order[1..]| && order[1..][k] == x;
      assert Better(scores, order[0], order[k + 1]);
    }
  }

  lemma PrependBest(scores: seq<real>, first: nat, rest: seq<nat>)
    requires first < |scores| && Indices(scores, rest, 0) && BestFirst(scores, rest)
    requires forall i | 0 <= i < |rest| :: Better(scores, first, rest[i])
    ensures Indices(scores, [first] + rest, 0) && BestFirst(scores, [first] + rest)
  {
    hide Better;
  }

  lemma {:induction false} InsertSorts(scores: seq<real>, index: nat, order: seq<nat>)
    requires index < |scores| && Indices(scores, order, index + 1) && BestFirst(scores, order)
    ensures Indices(scores, Insert(scores, index, order), 0) && BestFirst(scores, Insert(scores, index, order))
    decreases |order|
  {
    if order != [] && scores[order[0]] > scores[index] {
      var rest := order[1..];
      assert forall i | 0 <= i < |rest| :: rest[i] == order[i + 1];
      InsertSorts(scores, index, rest);
      InsertKeeps(scores, index, rest);
      var r := Insert(scores, index, rest);
      forall i | 0 <= i < |r| ensures Better(scores, order[0], r[i]) {
        assert r[i] in r;
        HeadIsBest(scores, order, index, r[i]);
      }
      PrependBest(scores, order[0], r);
    } else {
      forall i | 0 <= i < |order| ensures Better(scores, index, order[i]) {
        assert i > 0 ==> Better(scores, order[0], order[i]);
      }
      PrependBest(scores, index, order);
    }
  }

  /** The order is a permutation of the places, best first. */
  lemma {:induction false} OrderFromSorts(scores: seq<real>, from: nat)
    requires from <= |scores|
    ensures BestFirst(scores, OrderFrom(scores, from))
    ensures forall k | from <= k < |scores| :: k in OrderFrom(scores, from)
    decreases |scores| - from
  {
    if from < |scores| {
      OrderFromSorts(scores, from + 1);
      InsertSorts(scores, from, OrderFrom(scores, from + 1));
      InsertKeeps(scores, from, OrderFrom(scores, from + 1));
    }
  }

  // ---- The two halves ----

  /** Where `id` first occurs, or the length. */
  function Place(ids: seq<NodeId>, id: NodeId): nat
    ensures Place(ids, id) <= |ids|
  {
    if ids == [] || ids[0] == id then 0 else 1 + Place(ids[1..], id)
  }

  lemma {:induction false} PlaceIs(ids: seq<NodeId>, id: NodeId)
    ensures var p := Place(ids, id);
            && (p < |ids| <==> id in ids) && (p < |ids| ==> ids[p] == id)
            && forall k | 0 <= k < p :: ids[k] != id
    decreases |ids|
  {
    if ids != [] && ids[0] != id {
      PlaceIs(ids[1..], id);
      assert ids == [ids[0]] + ids[1..];
    }
  }

  lemma PlaceUnique(ids: seq<NodeId>, k: nat)
    requires Distinct(ids) && k < |ids|
    ensures Place(ids, ids[k]) == k
  {
    PlaceIs(ids, ids[k]);
  }

  /** A list read off in its stable order. */
  function Arrange(ids: seq<NodeId>, scores: seq<real>): (r: seq<NodeId>)
    requires |ids| == |scores|
  {
    var order := StableOrder(scores);
    seq(|order|, k requires 0 <= k < |order| => ids[order[k]])
  }

  lemma OrderPlaces(ids: seq<NodeId>, scores: seq<real>, a: nat, b: nat)
    requires Distinct(ids) && |ids| == |scores| && a < |ids| && b < |ids|
    ensures Distinct(Arrange(ids, scores)) && |Arrange(ids, scores)| == |ids|
    ensures ids[a] in Arrange(ids, scores)
    ensures a != b ==>
              (Place(Arrange(ids, scores), ids[a]) < Place(Arrange(ids, scores), ids[b]) <==> Better(scores, a, b))
  {
    OrderFromSorts(scores, 0);
    var order, r := StableOrder(scores), Arrange(ids, scores);
    assert a in order && b in order;
    var i :| 0 <= i < |order| && order[i] == a;
    var j :| 0 <= j < |order| && order[j] == b;
    assert r[i] == ids[a] && r[j] == ids[b];
    forall x, y | 0 <= x < y < |r| ensures r[x] != r[y] {
      assert Better(scores, order[x], order[y]);
    }
    PlaceUnique(r, i);
    PlaceUnique(r, j);
    if i < j {
      assert Better(scores, order[i], order[j]);
    } else if j < i {
      assert Better(scores, order[j], order[i]);
    }
  }

  /** `_ranked_ids`: a half's ids, best raw score first. */
  function RankedIds(ids: seq<NodeId>, sims: seq<real>): seq<NodeId> {
    if |sims| == |ids| then Arrange(ids, sims) else ids
  }

  /** Every hit of the half once, and a hit before another exactly when it scored higher or was listed first. */
  lemma RankedIdsRanks(ids: seq<NodeId>, sims: seq<real>, a: nat, b: nat)
    requires Distinct(ids) && |sims| == |ids| && a < |ids| && b < |ids|
    ensures Distinct(RankedIds(ids, sims)) && |RankedIds(ids, sims)| == |ids|
    ensures ids[a] in RankedIds(ids, sims)
    ensures a != b ==>
              (Place(RankedIds(ids, sims), ids[a]) < Place(RankedIds(ids, sims), ids[b])
               <==> sims[a] > sims[b] || (sims[a] == sims[b] && a < b))
  {
    OrderPlaces(ids, sims, a, b);
  }

  // ---- Fusion ----

  lemma {:induction false} PlaceInPrefix(ids: seq<NodeId>, more: seq<NodeId>, id: NodeId)
    ensures Place(ids + more, id) == if id in ids then Place(ids, id) else |ids| + Place(more, id)
    decreases |ids|
  {
    if ids == [] {
      assert ids + more == more;
    } else {
      assert (ids + more)[1..] == ids[1..] + more;
      assert ids == [ids[0]] + ids[1..];
      PlaceInPrefix(ids[1..], more, id);
    }
  }

  /** Ids keep the order of their first occurrences. */
  lemma {:induction false} DedupKeepsOrder(ids: seq<NodeId>, a: NodeId, b: NodeId)
    requires a in ids && b in ids
    ensures Place(Dedup(ids), a) < Place(Dedup(ids), b) <==> Place(ids, a) < Place(ids, b)
    decreases |ids|
  {
    var front, last := ids[..|ids| - 1], ids[|ids| - 1];
    assert ids == front + [last];
    DedupKeeps(front);
    var seen := Dedup(front);
    PlaceInPrefix(front, [last], a);
    PlaceInPrefix(front, [last], b);
    PlaceInPrefix(seen, [last], a);
    PlaceInPrefix(seen, [last], b);
    PlaceIs(seen, a);
    PlaceIs(seen, b);
    PlaceIs(front, a);
    PlaceIs(front, b);
    if a in front && b in front {
      DedupKeepsOrder(front, a, b);
    }
  }

  /** What one half adds to a node's score. */
  function ScoreIn(ids: seq<NodeId>, id: NodeId): real
    decreases |ids|
  {
    if ids == [] then 0.0
    else ScoreIn(ids[..|ids| - 1], id) + if ids[|ids| - 1] == id then Weight(|ids| - 1) else 0.0
  }

  function Score(dense: seq<NodeId>, sparse: seq<NodeId>, id: NodeId): real {
    ScoreIn(dense, id) + ScoreIn(sparse, id)
  }

  lemma {:induction false} ScoreInIs(ids: seq<NodeId>, id: NodeId)
    requires Distinct(ids)
    ensures ScoreIn(ids, id) == if id in ids then Weight(Place(ids, id)) else 0.0
    decreases |ids|
  {
    if ids != [] {
      var front, last := ids[..|ids| - 1], ids[|ids| - 1];
      assert ids == front + [last];
      ScoreInIs(front, id);
      PlaceInPrefix(front, [last], id);
      assert id == last ==> id !in front;
    }
  }

  function Scores(dense: seq<NodeId>, sparse: seq<NodeId>, keys: seq<NodeId>): seq<real> {
    seq(|keys|, k requires 0 <= k < |keys| => Score(dense, sparse, keys[k]))
  }

  function Cut(ids: seq<NodeId>, topK: int): seq<NodeId> {
    if 0 < topK < |ids| then ids[..topK] else ids
  }

  /** The whole union, best first. */
  function Ranked(dense: seq<NodeId>, sparse: seq<NodeId>): seq<NodeId> {
    var keys := Dedup(dense + sparse);
    Arrange(keys, Scores(dense, sparse, keys))
  }

  /** `_rank_fusion`. */
  function Fused(dense: seq<NodeId>, sparse: seq<NodeId>, topK: int): seq<NodeId> {
    Cut(Ranked(dense, sparse), topK)
  }

  lemma ScoreInStep(ids: seq<NodeId>, last: NodeId, id: NodeId)
    ensures ScoreIn(ids + [last], id) == ScoreIn(ids, id) + if last == id then Weight(|ids|) else 0.0
  {
    assert (ids + [last])[..|ids|] == ids;
  }

  /** The score dictionary holds, for its keys, what it held before and what `done` of a half adds. */
  ghost predicate Tallied(keys: seq<NodeId>, score: map<NodeId, real>, keys0: seq<NodeId>, score0: map<NodeId, real>,
                    done: seq<NodeId>)
    requires forall x :: x in keys0 ==> x in score0
  {
    && (forall x :: x in score <==> x in keys)
    && (forall x :: x in keys0 ==> x in keys)
    && (forall x | x in score :: score[x] == (if x in keys0 then score0[x] else 0.0) + ScoreIn(done, x))
    && (forall x :: x !in keys ==> ScoreIn(done, x) == 0.0)
  }

  lemma TallyStep(keys: seq<NodeId>, score: map<NodeId, real>, keys0: seq<NodeId>, score0: map<NodeId, real>,
                  done: seq<NodeId>, id: NodeId)
    requires forall x :: x in keys0 ==> x in score0
    requires Tallied(keys, score, keys0, score0, done)
    ensures Tallied(if id in score then keys else keys + [id],
                    score[id := (if id in score then score[id] else 0.0) + Weight(|done|)], keys0, score0, done + [id])
  {
    hide ScoreIn, Weight;
    forall x ensures ScoreIn(done + [id], x) == ScoreIn(done, x) + if id == x then Weight(|done|) else 0.0 {
      ScoreInStep(done, id, x);
    }
  }

  /** One pass of the scoring loop, over one half. */
  method ScoreHalf(ids: seq<NodeId>, ghost before: seq<NodeId>, keys0: seq<NodeId>, score0: map<NodeId, real>)
    returns (keys: seq<NodeId>, score: map<NodeId, real>)
    requires keys0 == Dedup(before) && forall x :: x in score0 <==> x in keys0
    ensures keys == Dedup(before + ids) && Tallied(keys, score, keys0, score0, ids)
  {
    hide Tallied, Dedup, Weight;
    keys, score := keys0, score0;
    assert before + ids[..0] == before;
    assert Tallied(keys, score, keys0, score0, ids[..0]) by {
      NothingTallied(keys0, score0);
      assert ids[..0] == [];
    }
    for rank := 0 to |ids|
      invariant keys == Dedup(before + ids[..rank])
      invariant Tallied(keys, score, keys0, score0, ids[..rank])
    {
      var id := ids[rank];
      TallyStep(keys, score, keys0, score0, ids[..rank], id);
      DedupStep(before + ids[..rank], id);
      SameKeys(keys, score, keys0, score0, ids[..rank]);
      assert ids[..rank + 1] == ids[..rank] + [id];
      assert before + ids[..rank + 1] == (before + ids[..rank]) + [id];
      var was := if id in score then score[id] else 0.0;
      if id !in score {
        keys := keys + [id];
      }
      score := score[id := was + Weight(rank)];
    }
    assert ids[..|ids|] == ids;
  }

  lemma NothingTallied(keys: seq<NodeId>, score: map<NodeId, real>)
    requires forall x :: x in score <==> x in keys
    ensures Tallied(keys, score, keys, score, [])
  {
  }

  lemma SameKeys(keys: seq<NodeId>, score: map<NodeId, real>, keys0: seq<NodeId>, score0: map<NodeId, real>,
                 done: seq<NodeId>)
    requires forall x :: x in keys0 ==> x in score0
    requires Tallied(keys, score, keys0, score0, done)
    ensures forall x :: x in score <==> x in keys
  {
  }

  /** `_rank_fusion`. */
  method FuseHalves(dense: seq<NodeId>, sparse: seq<NodeId>, topK: int) returns (ids: seq<NodeId>, sims: seq<real>)
    ensures ids == Fused(dense, sparse, topK)
    ensures |sims| == |ids| && forall k | 0 <= k < |ids| :: sims[k] == Score(dense, sparse, ids[k])
  {
    hide Weight, Dedup, ScoreIn;
    NothingSeen();
    var keys1, score1 := ScoreHalf(dense, [], [], map[]);
    assert [] + dense == dense;
    var keys, score := ScoreHalf(sparse, dense, keys1, score1);
    var scores := seq(|keys|, k requires 0 <= k < |keys| => score[keys[k]]);
    assert scores == Scores(dense, sparse, keys) by {
      TwoTallies(dense, sparse, keys1, score1, keys, score);
    }
    var order := StableOrder(scores);
    ids := seq(|order|, k requires 0 <= k < |order| => keys[order[k]]);
    sims := seq(|order|, k requires 0 <= k < |order| => scores[order[k]]);
    if 0 < topK < |order| {
      ids, sims := ids[..topK], sims[..topK];
    }
  }

  lemma NothingSeen()
    ensures Dedup<NodeId>([]) == []
  {
  }

  lemma TwoTallies(dense: seq<NodeId>, sparse: seq<NodeId>, keys1: seq<NodeId>, score1: map<NodeId, real>,
                   keys: seq<NodeId>, score: map<NodeId, real>)
    requires Tallied(keys1, score1, [], map[], dense) && Tallied(keys, score, keys1, score1, sparse)
    ensures forall k | 0 <= k < |keys| :: keys[k] in score && score[keys[k]] == Score(dense, sparse, keys[k])
  {
    hide ScoreIn;
  }

  // ---- What fusion does ----

  /** `a` is ranked above `b`: it scores higher, or as high and was seen first, dense half first. */
  predicate Outranks(dense: seq<NodeId>, sparse: seq<NodeId>, a: NodeId, b: NodeId) {
    var sa, sb := Score(dense, sparse, a), Score(dense, sparse, b);
    sa > sb || (sa == sb && Place(dense + sparse, a) < Place(dense + sparse, b))
  }

  /** A cut that reaches both halves' total loses no node, and the order is exactly that of the scores. */
  lemma FusionLosesNothing(dense: seq<NodeId>, sparse: seq<NodeId>, topK: int, a: NodeId, b: NodeId)
    requires topK <= 0 || topK >= |dense| + |sparse|
    ensures Distinct(Fused(dense, sparse, topK))
    ensures a in Fused(dense, sparse, topK) <==> a in dense || a in sparse
    ensures (a in dense || a in sparse) && (b in dense || b in sparse) && a != b ==>
              (Place(Fused(dense, sparse, topK), a) < Place(Fused(dense, sparse, topK), b)
               <==> Outranks(dense, sparse, a, b))
  {
    RankedIsWhole(dense, sparse, a);
    RankedIsWhole(dense, sparse, b);
    DedupIsShort(dense + sparse);
    if (a in dense || a in sparse) && (b in dense || b in sparse) && a != b {
      RankedOrder(dense, sparse, a, b);
    }
  }

  lemma RankedIsWhole(dense: seq<NodeId>, sparse: seq<NodeId>, a: NodeId)
    ensures Distinct(Ranked(dense, sparse)) && |Ranked(dense, sparse)| == |Dedup(dense + sparse)|
    ensures a in Ranked(dense, sparse) <==> a in dense || a in sparse
  {
    var keys := Dedup(dense + sparse);
    DedupKeeps(dense + sparse);
    var scores := Scores(dense, sparse, keys);
    if keys != [] {
      var p := Place(keys, a);
      PlaceIs(keys, a);
      OrderPlaces(keys, scores, if p < |keys| then p else 0, 0);
    }
  }

  lemma RankedOrder(dense: seq<NodeId>, sparse: seq<NodeId>, a: NodeId, b: NodeId)
    requires (a in dense || a in sparse) && (b in dense || b in sparse) && a != b
    ensures Place(Ranked(dense, sparse), a) < Place(Ranked(dense, sparse), b) <==> Outranks(dense, sparse, a, b)
  {
    var keys := Dedup(dense + sparse);
    DedupKeeps(dense + sparse);
    PlaceIs(keys, a);
    PlaceIs(keys, b);
    DedupKeepsOrder(dense + sparse, a, b);
    OrderPlaces(keys, Scores(dense, sparse, keys), Place(keys, a), Place(keys, b));
  }

  // ---- Reciprocals ----

  lemma WeightDecreases(r: nat, s: nat)
    ensures r < s ==> Weight(r) > Weight(s)
    ensures Weight(r) >= Weight(s) <==> r <= s
  {
    if r < s {
      WeightOrder(r, s);
    } else if s < r {
      WeightOrder(s, r);
    }
  }

  lemma WeightOrder(r: nat, s: nat)
    requires r < s
    ensures Weight(r) > Weight(s)
  {
    var a, b := (RRF_K + 1 + r) as real, (RRF_K + 1 + s) as real;
    assert 0.0 < a < b;
    assert Weight(r) * a == 1.0 && Weight(s) * b == 1.0;
  }

  lemma FirstIsPositive()
    ensures Weight(0) > 0.0
  {
  }

  lemma {:induction false} RealProduct(r: nat, s: nat)
    ensures r as real * s as real == (r * s) as real
  {
    if r > 0 {
      RealProduct(r - 1, s);
      assert r * s == (r - 1) * s + s;
      assert r as real * s as real == (r - 1) as real * s as real + s as real;
    }
  }

  lemma Scaled(p: real, q: real, t: real)
    requires t > 0.0
    ensures p > q <==> p * t > q * t
  {
  }

  /** Two reciprocal ranks beat a first place exactly while the product of the places is small. */
  lemma PairBeatsFirst(r: nat, s: nat)
    ensures Weight(r) + Weight(s) > Weight(0) <==> r * s < (RRF_K + 1) * (RRF_K + 1)
  {
    var x, y := r as real, s as real;
    var a, b := x + 61.0, y + 61.0;
    assert a == (RRF_K + 1 + r) as real && b == (RRF_K + 1 + s) as real;
    RealProduct(r, s);
    PairOverFirst(a, b, Weight(r), Weight(s), Weight(0));
    assert a * b == x * y + 61.0 * x + 61.0 * y + 3721.0;
  }

  lemma PairOverFirst(a: real, b: real, u: real, v: real, w: real)
    requires a > 0.0 && b > 0.0 && u * a == 1.0 && v * b == 1.0 && w * 61.0 == 1.0
    ensures u + v > w <==> 61.0 * (a + b) > a * b
  {
    var t := 61.0 * (a * b);
    Product(a, b);
    Scaled(u + v, w, t);
    assert u * (a * b) == b by { assert u * (a * b) == (u * a) * b; }
    assert v * (a * b) == a by { assert v * (a * b) == (v * b) * a; }
    assert (u + v) * t == 61.0 * (u * (a * b) + v * (a * b));
    assert w * t == (w * 61.0) * (a * b);
  }

  lemma Product(a: real, b: real)
    requires a > 0.0 && b > 0.0
    ensures a * b > 0.0
  {
  }

  // ---- Nodes one half returned ----

  /** Among the nodes only the dense half returned, its own order is kept. */
  lemma DenseKeepsOrder(dense: seq<NodeId>, sparse: seq<NodeId>, i: nat, j: nat)
    requires Distinct(dense) && Distinct(sparse) && i < j < |dense| && dense[i] !in sparse && dense[j] !in sparse
    ensures Outranks(dense, sparse, dense[i], dense[j])
  {
    hide Weight;
    SingleScores(dense, sparse, i);
    SingleScores(dense, sparse, j);
    WeightDecreases(i, j);
  }

  lemma SparseKeepsOrder(dense: seq<NodeId>, sparse: seq<NodeId>, i: nat, j: nat)
    requires Distinct(dense) && Distinct(sparse) && i < j < |sparse| && sparse[i] !in dense && sparse[j] !in dense
    ensures Outranks(dense, sparse, sparse[i], sparse[j])
  {
    hide Weight;
    SingleScores(sparse, dense, i);
    SingleScores(sparse, dense, j);
    WeightDecreases(i, j);
  }

  /** A node of the dense half alone goes before one of the keyword half alone exactly when its rank is no worse. */
  lemma DenseBeforeSparse(dense: seq<NodeId>, sparse: seq<NodeId>, r: nat, s: nat)
    requires Distinct(dense) && Distinct(sparse) && r < |dense| && s < |sparse|
    requires dense[r] !in sparse && sparse[s] !in dense
    ensures Outranks(dense, sparse, dense[r], sparse[s]) <==> r <= s
    ensures Outranks(dense, sparse, sparse[s], dense[r]) <==> s < r
  {
    hide Weight;
    SingleScores(dense, sparse, r);
    SingleScores(sparse, dense, s);
    WeightDecreases(r, s);
    WeightDecreases(s, r);
    PlaceInPrefix(dense, sparse, dense[r]);
    PlaceInPrefix(dense, sparse, sparse[s]);
    PlaceUnique(dense, r);
  }

  lemma SingleScores(mine: seq<NodeId>, other: seq<NodeId>, r: nat)
    requires Distinct(mine) && Distinct(other) && r < |mine| && mine[r] !in other
    ensures ScoreIn(mine, mine[r]) == Weight(r) && ScoreIn(other, mine[r]) == 0.0
  {
    hide Weight;
    ScoreInIs(mine, mine[r]);
    ScoreInIs(other, mine[r]);
    PlaceUnique(mine, r);
  }

  /** With one half empty, the answer is the other half as it stood. */
  lemma OneHalfAlone(ids: seq<NodeId>, topK: int)
    requires Distinct(ids)
    ensures Fused(ids, [], topK) == Cut(ids, topK) && Fused([], ids, topK) == Cut(ids, topK)
  {
    assert ids + [] == ids && [] + ids == ids;
    AllStaysPut(ids, [], ids);
    AllStaysPut([], ids, ids);
  }

  lemma AllStaysPut(dense: seq<NodeId>, sparse: seq<NodeId>, ids: seq<NodeId>)
    requires Distinct(ids) && dense + sparse == ids && (dense == [] || sparse == [])
    ensures Ranked(dense, sparse) == ids
  {
    hide Weight;
    assert dense == ids || sparse == ids;
    var r := Ranked(dense, sparse);
    AlreadyDistinct(ids);
    forall a, b | 0 <= a < b < |ids| ensures Place(r, ids[a]) < Place(r, ids[b]) {
      if sparse == [] {
        DenseKeepsOrder(dense, sparse, a, b);
      } else {
        SparseKeepsOrder(dense, sparse, a, b);
      }
      RankedOrder(dense, sparse, ids[a], ids[b]);
    }
    forall a | 0 <= a < |ids| ensures ids[a] in r {
      RankedIsWhole(dense, sparse, ids[a]);
    }
    RankedIsWhole(dense, sparse, 0);
    SameOrderSameList(ids, r);
  }

  /** A list whose members come in the order of `ids` is `ids`. */
  lemma SameOrderSameList(ids: seq<NodeId>, r: seq<NodeId>)
    requires Distinct(r) && |r| == |ids| && forall a | 0 <= a < |ids| :: ids[a] in r
    requires forall a, b | 0 <= a < b < |ids| :: Place(r, ids[a]) < Place(r, ids[b])
    ensures r == ids
  {
    forall a | 0 <= a < |ids| ensures r[a] == ids[a] {
      PlacesFromTheEnd(ids, r, a);
      PlacesFromTheStart(ids, r, a);
      PlaceIs(r, ids[a]);
    }
  }

  lemma {:induction false} PlacesFromTheStart(ids: seq<NodeId>, r: seq<NodeId>, a: nat)
    requires a < |ids|
    requires forall a, b | 0 <= a < b < |ids| :: Place(r, ids[a]) < Place(r, ids[b])
    ensures Place(r, ids[a]) >= a
    decreases a
  {
    if a > 0 {
      PlacesFromTheStart(ids, r, a - 1);
    }
  }

  lemma {:induction false} PlacesFromTheEnd(ids: seq<NodeId>, r: seq<NodeId>, a: nat)
    requires a <= |ids| == |r| && forall a | 0 <= a < |ids| :: ids[a] in r
    requires forall a, b | 0 <= a < b < |ids| :: Place(r, ids[a]) < Place(r, ids[b])
    ensures a < |ids| ==> Place(r, ids[a]) <= a
    decreases |ids| - a
  {
    if a + 1 < |ids| {
      PlacesFromTheEnd(ids, r, a + 1);
    } else if a < |ids| {
      PlaceIs(r, ids[a]);
    }
  }

  // ---- Nodes both halves returned ----

  /** Every node both halves returned outscores every node one of them returned alone. */
  predicate Dominates(dense: seq<NodeId>, sparse: seq<NodeId>) {
    forall i, k | 0 <= i < |dense + sparse| && 0 <= k < |dense + sparse| ::
      var both, one := (dense + sparse)[i], (dense + sparse)[k];
      both in dense && both in sparse && !(one in dense && one in sparse) ==>
        Score(dense, sparse, both) > Score(dense, sparse, one)
  }

  /** Over all halves of at most `m` and `n` hits. */
  ghost predicate AlwaysDominates(m: nat, n: nat) {
    forall dense: seq<NodeId>, sparse: seq<NodeId> ::
      Distinct(dense) && Distinct(sparse) && |dense| <= m && |sparse| <= n ==> Dominates(dense, sparse)
  }

  /** Last in both halves still beats first in one. */
  predicate ShortEnough(m: nat, n: nat) {
    (m - 1) * (n - 1) < (RRF_K + 1) * (RRF_K + 1)
  }

  lemma ShorterToo(d: nat, e: nat, m: nat, n: nat)
    requires 0 < d <= m && 0 < e <= n && ShortEnough(m, n)
    ensures (d - 1) * (e - 1) < (RRF_K + 1) * (RRF_K + 1)
  {
    Grows(d - 1, m - 1, e - 1);
    Grows(e - 1, n - 1, m - 1);
  }

  lemma Grows(a: nat, b: nat, t: nat)
    requires a <= b
    ensures a * t <= b * t
  {
  }

  lemma ShortHalvesDominate(dense: seq<NodeId>, sparse: seq<NodeId>, m: nat, n: nat)
    requires Distinct(dense) && Distinct(sparse) && |dense| <= m && |sparse| <= n && ShortEnough(m, n)
    ensures Dominates(dense, sparse)
  {
    var all := dense + sparse;
    forall i, k | 0 <= i < |all| && 0 <= k < |all| && all[i] in dense && all[i] in sparse
                  && !(all[k] in dense && all[k] in sparse)
      ensures Score(dense, sparse, all[i]) > Score(dense, sparse, all[k])
    {
      ShorterToo(|dense|, |sparse|, m, n);
      BothBeatOne(dense, sparse, all[i], all[k]);
    }
  }

  lemma BothBeatOne(dense: seq<NodeId>, sparse: seq<NodeId>, both: NodeId, one: NodeId)
    requires Distinct(dense) && Distinct(sparse)
    requires (|dense| - 1) * (|sparse| - 1) < (RRF_K + 1) * (RRF_K + 1)
    requires both in dense && both in sparse && !(one in dense && one in sparse)
    ensures Score(dense, sparse, both) > Score(dense, sparse, one)
  {
    hide Weight;
    ScoreInIs(dense, both);
    ScoreInIs(sparse, both);
    ScoreInIs(dense, one);
    ScoreInIs(sparse, one);
    PlaceIs(dense, both);
    PlaceIs(sparse, both);
    WeightDecreases(Place(dense, both), |dense| - 1);
    WeightDecreases(Place(sparse, both), |sparse| - 1);
    WeightDecreases(0, Place(dense, one));
    WeightDecreases(0, Place(sparse, one));
    PairBeatsFirst(|dense| - 1, |sparse| - 1);
    FirstIsPositive();
  }

  /** Halves of `m` and `n` hits that share only their last one. */
  function Front(m: nat): seq<NodeId> {
    seq(m, i requires 0 <= i < m => i)
  }

  function Back(m: nat, n: nat): seq<NodeId>
    requires m > 0 && n > 0
  {
    seq(n, i requires 0 <= i < n => if i == n - 1 then m - 1 else m + i)
  }

  /** Beyond that, a node both halves returned last does not outscore one that a half returned first. */
  lemma LongHalvesDoNot(m: nat, n: nat)
    requires m > 1 && n > 1 && !ShortEnough(m, n)
    ensures Distinct(Front(m)) && Distinct(Back(m, n)) && !Dominates(Front(m), Back(m, n))
  {
    hide Weight;
    var dense, sparse := Front(m), Back(m, n);
    var both, one := m - 1, 0;
    assert dense[m - 1] == both && sparse[n - 1] == both && dense[0] == one;
    assert one !in sparse;
    ScoreInIs(dense, both);
    ScoreInIs(sparse, both);
    PlaceUnique(dense, m - 1);
    PlaceUnique(sparse, n - 1);
    SingleScores(dense, sparse, 0);
    PairBeatsFirst(m - 1, n - 1);
    assert Score(dense, sparse, both) <= Score(dense, sparse, one);
    assert (dense + sparse)[m - 1] == both && (dense + sparse)[0] == one;
  }

  lemma LongIsMore(m: nat, n: nat)
    requires !ShortEnough(m, n)
    ensures m > 1 && n > 1
  {
  }

  /**
   The claim that both halves' nodes outrank single ones is true of all halves of `m` and `n` hits exactly while
   `(m - 1) * (n - 1)` is below the square of 61.
   */
  lemma DominanceBound(m: nat, n: nat)
    ensures AlwaysDominates(m, n) <==> (m - 1) * (n - 1) < (RRF_K + 1) * (RRF_K + 1)
  {
    if ShortEnough(m, n) {
      forall dense: seq<NodeId>, sparse: seq<NodeId> |
        Distinct(dense) && Distinct(sparse) && |dense| <= m && |sparse| <= n
        ensures Dominates(dense, sparse)
      {
        ShortHalvesDominate(dense, sparse, m, n);
      }
    } else {
      LongIsMore(m, n);
      LongHalvesDoNot(m, n);
    }
  }

  /** For halves of one size: exactly up to 61 hits each. */
  lemma EvenBound(size: nat)
    ensures AlwaysDominates(size, size) <==> size <= 61
  {
    DominanceBound(size, size);
    if size <= 61 {
      if size > 0 {
        Grows(size - 1, 60, size - 1);
      }
    } else {
      Grows(61, size - 1, size - 1);
    }
  }

  /** How many hits a query asks each half for; `limit` is the configured minimum. */
  function FetchTarget(topK: nat, limit: nat): nat {
    if topK * 2 > limit then topK * 2 else limit
  }

  /** A query's fetch keeps the claim exactly up to a `topK` of 30 and a limit of 61; its cut never drops a node. */
  lemma QueryGuarantee(topK: nat, limit: nat, dense: seq<NodeId>, sparse: seq<NodeId>, id: NodeId)
    requires |dense| <= FetchTarget(topK, limit) && |sparse| <= FetchTarget(topK, limit)
    ensures AlwaysDominates(FetchTarget(topK, limit), FetchTarget(topK, limit)) <==> topK <= 30 && limit <= 61
    ensures id in Fused(dense, sparse, FetchTarget(topK, limit) * 2) <==> id in dense || id in sparse
  {
    EvenBound(FetchTarget(topK, limit));
    FusionLosesNothing(dense, sparse, FetchTarget(topK, limit) * 2, id, id);
  }
}
