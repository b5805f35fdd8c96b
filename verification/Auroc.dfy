// The tie-averaged rank form of the area under the ROC curve, and its definition
// by pairs, over the reals (scripts/unridden/bench_competitor_laya.py).
module Auroc {
  import opened Common

  // -- The definition by pairs ------------------------------------------------------

  function Positives(labels: seq<bool>): nat {
    if labels == [] then 0 else Positives(labels[..|labels| - 1]) + if labels[|labels| - 1] then 1 else 0
  }

  function Negatives(labels: seq<bool>): nat {
    if labels == [] then 0 else Negatives(labels[..|labels| - 1]) + if labels[|labels| - 1] then 0 else 1
  }

  // The pairs of a positive and a negative in which the positive is higher.
  function Wins(scores: seq<real>, labels: seq<bool>): set<(nat, nat)>
    requires |scores| == |labels|
  {
    set i: nat, j: nat | i < |scores| && j < |scores| && labels[i] && !labels[j] && scores[i] > scores[j] :: (i, j)
  }

  function Ties(scores: seq<real>, labels: seq<bool>): set<(nat, nat)>
    requires |scores| == |labels|
  {
    set i: nat, j: nat | i < |scores| && j < |scores| && labels[i] && !labels[j] && scores[i] == scores[j] :: (i, j)
  }

  // Higher pairs and half the tied ones, out of all pairs.
  ghost function PairValue(scores: seq<real>, labels: seq<bool>): real
    requires |scores| == |labels| && Positives(labels) > 0 && Negatives(labels) > 0
  {
    (|Wins(scores, labels)| as real + |Ties(scores,
      labels)| as real / 2.0) / (Positives(labels) * Negatives(labels)) as real
  }

  // -- Sums of wins ------------------------------------------------------------------

  // A win counts one, a tie half.
  function Weight(s: real, t: real): real {
    if t < s then 1.0 else if t == s then 0.5 else 0.0
  }

  // The weights of s against the scores of one class before n.
  function Row(scores: seq<real>, labels: seq<bool>, class_: bool, s: real, n: nat): real
    requires |scores| == |labels| && n <= |scores|
  {
    if n == 0 then 0.0
    else Row(scores, labels, class_, s, n - 1) + if labels[n - 1] == class_ then Weight(s, scores[n - 1]) else 0.0
  }

  // The rows of the positives before n.
  function Rows(scores: seq<real>, labels: seq<bool>, class_: bool, n: nat, m: nat): real
    requires |scores| == |labels| && n <= |scores| && m <= |scores|
  {
    if n == 0 then 0.0
    else Rows(scores, labels, class_, n - 1, m) + if labels[n - 1] then Row(scores, labels, class_, scores[n - 1],
      m) else 0.0
  }

  function Before(labels: seq<bool>, n: nat): nat
    requires n <= |labels|
  {
    Positives(labels[..n])
  }

  lemma BeforeNext(labels: seq<bool>, n: nat)
    requires 0 < n <= |labels|
    ensures Before(labels, n) == Before(labels, n - 1) + if labels[n - 1] then 1 else 0
  {
    assert labels[..n][..n - 1] == labels[..n - 1];
  }

  // What the positives before n together gain against s, seen from s.
  lemma {:induction false} Mirror(scores: seq<real>, labels: seq<bool>, s: real, n: nat)
    requires |scores| == |labels| && n <= |scores|
    ensures Column(scores, labels, s, n) + Row(scores, labels, true, s, n) == Before(labels, n) as real
  {
    if n > 0 {
      Mirror(scores, labels, s, n - 1);
      BeforeNext(labels, n);
    } else {
      assert labels[..0] == [];
    }
  }

  function Column(scores: seq<real>, labels: seq<bool>, s: real, n: nat): real
    requires |scores| == |labels| && n <= |scores|
  {
    if n == 0 then 0.0
    else Column(scores, labels, s, n - 1) + if labels[n - 1] then Weight(scores[n - 1], s) else 0.0
  }

  // Widening every positive's row by one positive column.
  lemma {:induction false} RowsWiden(scores: seq<real>, labels: seq<bool>, n: nat, m: nat)
    requires |scores| == |labels| && n <= |scores| && m < |scores|
    ensures Rows(scores, labels, true, n, m + 1) ==
      Rows(scores, labels, true, n, m) + if labels[m] then Column(scores, labels, scores[m], n) else 0.0
  {
    if n > 0 {
      RowsWiden(scores, labels, n - 1, m);
    }
  }

  // Among the positives themselves every pair is one win in all: half a square.
  lemma {:induction false} PositivesHalve(scores: seq<real>, labels: seq<bool>, n: nat)
    requires |scores| == |labels| && n <= |scores|
    ensures 2.0 * Rows(scores, labels, true, n, n) == (Before(labels, n) * Before(labels, n)) as real
  {
    if n == 0 {
      assert labels[..0] == [];
    } else {
      PositivesHalve(scores, labels, n - 1);
      BeforeNext(labels, n);
      RowsWiden(scores, labels, n - 1, n - 1);
      Mirror(scores, labels, scores[n - 1], n - 1);
      Square(Before(labels, n - 1));
    }
  }

  lemma Square(c: nat)
    ensures (c + 1) * (c + 1) == c * c + 2 * c + 1
  {
  }

  // -- Ranks ---------------------------------------------------------------------------

  // The weights of s against every score before n.
  function All(scores: seq<real>, s: real, n: nat): real
    requires n <= |scores|
  {
    if n == 0 then 0.0 else All(scores, s, n - 1) + Weight(s, scores[n - 1])
  }

  // The averaged rank: every lower score, half the tied ones, itself whole.
  function Rank(scores: seq<real>, i: nat): real
    requires i < |scores|
  {
    All(scores, scores[i], |scores|) + 0.5
  }

  lemma {:induction false} AllSplits(scores: seq<real>, labels: seq<bool>, s: real, n: nat)
    requires |scores| == |labels| && n <= |scores|
    ensures All(scores, s, n) == Row(scores, labels, true, s, n) + Row(scores, labels, false, s, n)
  {
    if n > 0 {
      AllSplits(scores, labels, s, n - 1);
    }
  }

  // The ranks of the positives before n.
  function RankSum(scores: seq<real>, labels: seq<bool>, n: nat): real
    requires |scores| == |labels| && n <= |scores|
  {
    if n == 0 then 0.0 else RankSum(scores, labels, n - 1) + if labels[n - 1] then Rank(scores, n - 1) else 0.0
  }

  lemma {:induction false} RankSumSplits(scores: seq<real>, labels: seq<bool>, n: nat)
    requires |scores| == |labels| && n <= |scores|
    ensures RankSum(scores, labels, n) ==
      Rows(scores, labels, true, n, |scores|) + Rows(scores, labels, false, n, |scores|) + Before(labels,
        n) as real / 2.0
  {
    if n > 0 {
      RankSumSplits(scores, labels, n - 1);
      AllSplits(scores, labels, scores[n - 1], |scores|);
      BeforeNext(labels, n);
    } else {
      assert labels[..0] == [];
    }
  }

  // The rank sum of the positives is their wins over the negatives and what they
  // win among themselves.
  lemma RankSumIsWins(scores: seq<real>, labels: seq<bool>)
    requires |scores| == |labels|
    ensures
      var p := Positives(labels) as real;
      RankSum(scores, labels, |scores|) == Rows(scores, labels, false, |scores|, |scores|) + p * (p + 1.0) / 2.0
  {
    RankSumSplits(scores, labels, |scores|);
    PositivesHalve(scores, labels, |scores|);
    assert labels[..|scores|] == labels;
    var p := Positives(labels);
    SquareReal(p);
  }

  lemma SquareReal(c: nat)
    ensures (c * c) as real == c as real * c as real
  {
  }

  // -- Wins counted as pairs -------------------------------------------------------------

  function WinsOf(scores: seq<real>, labels: seq<bool>, i: nat, m: nat): set<(nat, nat)>
    requires |scores| == |labels| && i < |scores| && m <= |scores|
  {
    set j: nat | j < m && !labels[j] && scores[i] > scores[j] :: (i, j)
  }

  function TiesOf(scores: seq<real>, labels: seq<bool>, i: nat, m: nat): set<(nat, nat)>
    requires |scores| == |labels| && i < |scores| && m <= |scores|
  {
    set j: nat | j < m && !labels[j] && scores[i] == scores[j] :: (i, j)
  }

  lemma {:induction false} RowCounts(scores: seq<real>, labels: seq<bool>, i: nat, m: nat)
    requires |scores| == |labels| && i < |scores| && m <= |scores|
    ensures Row(scores, labels, false, scores[i], m) ==
      |WinsOf(scores, labels, i, m)| as real + |TiesOf(scores, labels, i, m)| as real / 2.0
  {
    if m > 0 {
      hide WinsOf, TiesOf;
      RowCounts(scores, labels, i, m - 1);
      OneMoreWin(scores, labels, i, m);
      OneMoreTie(scores, labels, i, m);
    } else {
      assert WinsOf(scores, labels, i, 0) == {} && TiesOf(scores, labels, i, 0) == {};
    }
  }

  lemma OneMoreWin(scores: seq<real>, labels: seq<bool>, i: nat, m: nat)
    requires |scores| == |labels| && i < |scores| && 0 < m <= |scores|
    ensures |WinsOf(scores, labels, i, m)| ==
      |WinsOf(scores, labels, i, m - 1)| + if !labels[m - 1] && scores[i] > scores[m - 1] then 1 else 0
  {
    var was := WinsOf(scores, labels, i, m - 1);
    if !labels[m - 1] && scores[i] > scores[m - 1] {
      assert WinsOf(scores, labels, i, m) == was + {(i, m - 1)};
    } else {
      assert WinsOf(scores, labels, i, m) == was;
    }
  }

  lemma OneMoreTie(scores: seq<real>, labels: seq<bool>, i: nat, m: nat)
    requires |scores| == |labels| && i < |scores| && 0 < m <= |scores|
    ensures |TiesOf(scores, labels, i, m)| == |TiesOf(scores, labels, i, m - 1)| + if !labels[m - 1] && scores[i] ==
      scores[m - 1] then 1 else 0
  {
    var was := TiesOf(scores, labels, i, m - 1);
    if !labels[m - 1] && scores[i] == scores[m - 1] {
      assert TiesOf(scores, labels, i, m) == was + {(i, m - 1)};
    } else {
      assert TiesOf(scores, labels, i, m) == was;
    }
  }

  function WinsBefore(scores: seq<real>, labels: seq<bool>, n: nat): set<(nat, nat)>
    requires |scores| == |labels| && n <= |scores|
  {
    set i: nat, j: nat | i < n && j < |scores| && labels[i] && !labels[j] && scores[i] > scores[j] :: (i, j)
  }

  function TiesBefore(scores: seq<real>, labels: seq<bool>, n: nat): set<(nat, nat)>
    requires |scores| == |labels| && n <= |scores|
  {
    set i: nat, j: nat | i < n && j < |scores| && labels[i] && !labels[j] && scores[i] == scores[j] :: (i, j)
  }

  lemma {:induction false} RowsCount(scores: seq<real>, labels: seq<bool>, n: nat)
    requires |scores| == |labels| && n <= |scores|
    ensures Rows(scores, labels, false, n, |scores|) ==
      |WinsBefore(scores, labels, n)| as real + |TiesBefore(scores, labels, n)| as real / 2.0
  {
    if n > 0 {
      RowsCount(scores, labels, n - 1);
      RowCounts(scores, labels, n - 1, |scores|);
      MoreWins(scores, labels, n);
      MoreTies(scores, labels, n);
    } else {
      assert WinsBefore(scores, labels, 0) == {} && TiesBefore(scores, labels, 0) == {};
    }
  }

  lemma MoreWins(scores: seq<real>, labels: seq<bool>, n: nat)
    requires |scores| == |labels| && 0 < n <= |scores|
    ensures |WinsBefore(scores, labels, n)| ==
      |WinsBefore(scores, labels, n - 1)| + if labels[n - 1] then |WinsOf(scores, labels, n - 1, |scores|)| else 0
  {
    var was, row := WinsBefore(scores, labels, n - 1), WinsOf(scores, labels, n - 1, |scores|);
    if labels[n - 1] {
      assert WinsBefore(scores, labels, n) == was + row && was !! row;
    } else {
      assert WinsBefore(scores, labels, n) == was;
    }
  }

  lemma MoreTies(scores: seq<real>, labels: seq<bool>, n: nat)
    requires |scores| == |labels| && 0 < n <= |scores|
    ensures |TiesBefore(scores, labels, n)| ==
      |TiesBefore(scores, labels, n - 1)| + if labels[n - 1] then |TiesOf(scores, labels, n - 1, |scores|)| else 0
  {
    var was, row := TiesBefore(scores, labels, n - 1), TiesOf(scores, labels, n - 1, |scores|);
    if labels[n - 1] {
      assert TiesBefore(scores, labels, n) == was + row && was !! row;
    } else {
      assert TiesBefore(scores, labels, n) == was;
    }
  }

  lemma WinsArePairs(scores: seq<real>, labels: seq<bool>)
    requires |scores| == |labels|
    ensures Rows(scores, labels, false, |scores|, |scores|) ==
      |Wins(scores, labels)| as real + |Ties(scores, labels)| as real / 2.0
  {
    RowsCount(scores, labels, |scores|);
    assert WinsBefore(scores, labels, |scores|) == Wins(scores, labels) && TiesBefore(scores, labels, |scores|) ==
      Ties(scores, labels);
  }

  // -- The sorted order -------------------------------------------------------------------

  // sorted(range(n), key=...): stable insertion.
  function Insert(scores: seq<real>, order: seq<nat>, i: nat): seq<nat>
    requires i < |scores| && forall p :: 0 <= p < |order| ==> order[p] < |scores|
  {
    if order == [] then [i]
    else
      var last := order[|order| - 1];
      if scores[last] <= scores[i] then order + [i] else Insert(scores, order[..|order| - 1], i) + [last]
  }

  function Order(scores: seq<real>, n: nat): (order: seq<nat>)
    requires n <= |scores|
    ensures |order| == n && forall p :: 0 <= p < n ==> order[p] < n
  {
    if n == 0 then []
    else
      var rest := Order(scores, n - 1);
      InsertIn(scores, rest, n - 1);
      Insert(scores, rest, n - 1)
  }

  lemma {:induction false} InsertIn(scores: seq<real>, order: seq<nat>, i: nat)
    requires i < |scores| && forall p :: 0 <= p < |order| ==> order[p] < i
    ensures |Insert(scores, order, i)| == |order| + 1
    ensures forall p :: 0 <= p < |order| + 1 ==> Insert(scores, order, i)[p] < i + 1
    decreases |order|
  {
    if order != [] && scores[order[|order| - 1]] > scores[i] {
      InsertIn(scores, order[..|order| - 1], i);
    }
  }

  ghost predicate Sorted(scores: seq<real>, order: seq<nat>) {
    && (forall p :: 0 <= p < |order| ==> order[p] < |scores|)
    && (forall p, q :: 0 <= p < q < |order| ==>
      order[p] < |scores| && order[q] < |scores| && scores[order[p]] <= scores[order[q]])
  }

  // The weights of s against the scores in the given order.
  function AllOver(scores: seq<real>, s: real, order: seq<nat>): real
    requires forall p :: 0 <= p < |order| ==> order[p] < |scores|
  {
    if order == [] then 0.0
    else AllOver(scores, s, order[..|order| - 1]) + Weight(s, scores[order[|order| - 1]])
  }

  ghost predicate Unique(order: seq<nat>) {
    forall p, q :: 0 <= p < q < |order| ==> order[p] != order[q]
  }

  lemma {:induction false} InsertElems(scores: seq<real>, order: seq<nat>, i: nat, x: nat)
    requires i < |scores| && forall p :: 0 <= p < |order| ==> order[p] < |scores|
    ensures x in Insert(scores, order, i) <==> x in order || x == i
    decreases |order|
  {
    if order != [] && scores[order[|order| - 1]] > scores[i] {
      var front, last := order[..|order| - 1], order[|order| - 1];
      assert order == front + [last];
      InsertElems(scores, front, i, x);
    }
  }

  lemma {:induction false} InsertSorted(scores: seq<real>, order: seq<nat>, i: nat)
    requires i < |scores| && Sorted(scores, order) && Unique(order) && i !in order
    ensures Sorted(scores, Insert(scores, order, i)) && Unique(Insert(scores, order, i))
    decreases |order|
  {
    hide Sorted, Unique;
    SortedIn(scores, order);
    if order == [] || scores[order[|order| - 1]] <= scores[i] {
      AppendHigh(scores, order, i);
      assert order == [] ==> order + [i] == [i];
    } else {
      var front := order[..|order| - 1];
      FrontSorted(scores, order);
      InsertSorted(scores, front, i);
      AppendLast(scores, order, Insert(scores, front, i), i);
    }
  }

  lemma SortedIn(scores: seq<real>, order: seq<nat>)
    requires Sorted(scores, order)
    ensures forall p :: 0 <= p < |order| ==> order[p] < |scores|
  {
  }

  lemma FrontSorted(scores: seq<real>, order: seq<nat>)
    requires order != [] && Sorted(scores, order) && Unique(order)
    ensures Sorted(scores, order[..|order| - 1]) && Unique(order[..|order| - 1])
  {
  }

  lemma AppendHigh(scores: seq<real>, order: seq<nat>, i: nat)
    requires i < |scores| && Sorted(scores, order) && Unique(order) && i !in order
    requires order != [] ==> order[|order| - 1] < |scores| && scores[order[|order| - 1]] <= scores[i]
    ensures Sorted(scores, order + [i]) && Unique(order + [i])
  {
    forall p | 0 <= p < |order|
      ensures scores[order[p]] <= scores[i] && order[p] != i
    {
      assert order[p] in order;
      assert p < |order| - 1 ==> scores[order[p]] <= scores[order[|order| - 1]];
    }
  }

  lemma AppendLast(scores: seq<real>, order: seq<nat>, rest: seq<nat>, i: nat)
    requires order != [] && Sorted(scores, order) && Unique(order) && i < |scores| && i !in order
    requires scores[order[|order| - 1]] > scores[i]
    requires rest == Insert(scores, order[..|order| - 1], i) && Sorted(scores, rest) && Unique(rest)
    ensures Sorted(scores, rest + [order[|order| - 1]]) && Unique(rest + [order[|order| - 1]])
  {
    hide Insert;
    var front, last := order[..|order| - 1], order[|order| - 1];
    forall p | 0 <= p < |rest|
      ensures scores[rest[p]] <= scores[last] && rest[p] != last
    {
      InsertElems(scores, front, i, rest[p]);
      if rest[p] != i {
        var q :| 0 <= q < |front| && front[q] == rest[p];
        assert order[q] == rest[p];
      }
    }
  }

  lemma {:induction false} InsertAdds(scores: seq<real>, s: real, order: seq<nat>, i: nat)
    requires i < |scores| && (forall p :: 0 <= p < |order| ==> order[p] < |scores|)
    ensures forall p :: 0 <= p < |Insert(scores, order, i)| ==> Insert(scores, order, i)[p] < |scores|
    ensures AllOver(scores, s, Insert(scores, order, i)) == AllOver(scores, s, order) + Weight(s, scores[i])
    decreases |order|
  {
    if order != [] {
      var front, last := order[..|order| - 1], order[|order| - 1];
      if scores[last] <= scores[i] {
        assert (order + [i])[..|order|] == order;
      } else {
        InsertAdds(scores, s, front, i);
        var rest := Insert(scores, front, i);
        assert (rest + [last])[..|rest|] == rest;
      }
    }
  }

  // The order lists every index once, by score; a sum over it is a sum over all.
  lemma {:induction false} OrderFacts(scores: seq<real>, n: nat)
    requires n <= |scores|
    ensures Sorted(scores, Order(scores, n)) && Unique(Order(scores, n))
    ensures forall j: nat :: j < n ==> j in Order(scores, n)
  {
    hide Insert, Sorted, Unique, Order;
    if n == 0 {
      NoOrder(scores);
    } else {
      OrderFacts(scores, n - 1);
      OrderNext(scores, n);
      var rest := Order(scores, n - 1);
      assert n - 1 !in rest;
      InsertSorted(scores, rest, n - 1);
      forall j: nat | j < n
        ensures j in Order(scores, n)
      {
        InsertElems(scores, rest, n - 1, j);
      }
    }
  }

  lemma NoOrder(scores: seq<real>)
    ensures Sorted(scores, Order(scores, 0)) && Unique(Order(scores, 0))
  {
  }

  lemma OrderNext(scores: seq<real>, n: nat)
    requires 0 < n <= |scores|
    ensures Order(scores, n) == Insert(scores, Order(scores, n - 1), n - 1)
  {
    hide Insert;
  }

  lemma {:induction false} OrderSums(scores: seq<real>, s: real, n: nat)
    requires n <= |scores|
    ensures AllOver(scores, s, Order(scores, n)) == All(scores, s, n)
  {
    if n > 0 {
      hide Insert;
      OrderSums(scores, s, n - 1);
      InsertAdds(scores, s, Order(scores, n - 1), n - 1);
    }
  }

  // Against a group of equal scores: the lower ones win, the group ties, the rest
  // loses.
  lemma {:induction false} GroupSum(scores: seq<real>, order: seq<nat>, s: real, index: nat, stop: nat, q: nat)
    requires Sorted(scores, order) && index <= stop < |order| && q <= |order|
    requires forall p :: 0 <= p < index ==> scores[order[p]] < s
    requires forall p :: index <= p <= stop ==> scores[order[p]] == s
    requires forall p :: stop < p < |order| ==> scores[order[p]] > s
    ensures forall p :: 0 <= p < q ==> order[..q][p] < |scores|
    ensures AllOver(scores, s, order[..q]) ==
      if q <= index then q as real else if q <= stop + 1 then index as real + (q - index) as real / 2.0
        else index as real + (stop + 1 - index) as real / 2.0
  {
    if q > 0 {
      GroupSum(scores, order, s, index, stop, q - 1);
      assert order[..q][..q - 1] == order[..q - 1];
    }
  }

  // The shared rank of a group is the averaged rank of each of its members.
  lemma SharedRank(scores: seq<real>, order: seq<nat>, index: nat, stop: nat, p: nat)
    requires order == Order(scores, |scores|) && Sorted(scores, order) && index <= p <= stop < |order|
    requires forall q :: 0 <= q < index ==> scores[order[q]] < scores[order[p]]
    requires forall q :: index <= q <= stop ==> scores[order[q]] == scores[order[p]]
    requires forall q :: stop < q < |order| ==> scores[order[q]] > scores[order[p]]
    ensures Rank(scores, order[p]) == (index + stop) as real / 2.0 + 1.0
  {
    hide Order, Sorted, All, AllOver, Weight;
    var s := scores[order[p]];
    OrderSums(scores, s, |scores|);
    GroupSum(scores, order, s, index, stop, |order|);
    assert order[..|order|] == order;
  }

  // -- auroc -------------------------------------------------------------------------------

  datatype LengthError = LengthsDiffer

  // The positions before `index` have their ranks, and a group ends there.
  ghost predicate Ranked(scores: seq<real>, order: seq<nat>, ranks: seq<real>, index: nat)
    requires Sorted(scores, order)
  {
    && index <= |order| && |ranks| == |scores|
    && (forall p :: 0 <= p < index ==> ranks[order[p]] == Rank(scores, order[p]))
    && (forall p, q :: 0 <= p < index <= q < |order| ==> scores[order[p]] < scores[order[q]])
  }

  // Nothing without both classes; otherwise the rank-sum formula, which is the
  // pair value.
  method Auroc(scores: seq<real>, labels: seq<bool>) returns (r: Result<Option<real>, LengthError>)
    ensures Positives(labels) == 0 || Negatives(labels) == 0 ==> r == Ok(None)
    ensures Positives(labels) > 0 && Negatives(labels) > 0 ==>
      if |scores| != |labels| then r == Err(LengthsDiffer) else r == Ok(Some(PairValue(scores, labels)))
  {
    hide Rank, Order, Sorted, Unique, Ranked, RankSum, Wins, Ties;
    CountsAll(labels);
    var positives := Positives(labels);
    var negatives := |labels| - positives;
    if positives == 0 || negatives == 0 {
      return Ok(None);
    }
    var order := Order(scores, |scores|);
    OrderFacts(scores, |scores|);
    var ranks := new real[|scores|](_ => 0.0);
    NoneRanked(scores, order, ranks[..]);
    var index: nat := 0;
    while index < |order|
      invariant Ranked(scores, order, ranks[..], index) && index <= |order|
    {
      var stop := GroupEnd(scores, order, index);
      var shared := (index + stop) as real / 2.0 + 1.0;
      GroupShares(scores, order, ranks[..], index, stop);
      RankGroup(scores, order, ranks, index, stop, shared);
      index := stop + 1;
    }
    AllRanked(scores, order, ranks[..]);
    if |scores| != |labels| {
      return Err(LengthsDiffer);
    }
    var sum := PositiveRankSum(scores, labels, ranks);
    RankSumIsWins(scores, labels);
    WinsArePairs(scores, labels);
    Formula(sum, Rows(scores, labels, false, |scores|, |scores|), positives);
    r := Ok(Some((sum - (positives * (positives + 1)) as real / 2.0) / (positives * negatives) as real));
  }

  // The last position whose score equals the one at `index`.
  method GroupEnd(scores: seq<real>, order: seq<nat>, index: nat) returns (stop: nat)
    requires Sorted(scores, order) && index < |order|
    ensures index <= stop < |order|
    ensures forall q :: index <= q <= stop ==> scores[order[q]] == scores[order[index]]
    ensures forall q :: stop < q < |order| ==> scores[order[q]] > scores[order[index]]
  {
    stop := index;
    while stop + 1 < |order| && scores[order[stop + 1]] == scores[order[index]]
      invariant index <= stop < |order|
      invariant forall q :: index <= q <= stop ==> scores[order[q]] == scores[order[index]]
    {
      stop := stop + 1;
    }
    if stop + 1 < |order| {
      assert scores[order[index]] <= scores[order[stop + 1]];
      forall q | stop < q < |order|
        ensures scores[order[q]] > scores[order[index]]
      {
        assert q > stop + 1 ==> scores[order[stop + 1]] <= scores[order[q]];
      }
    }
  }

  method RankGroup(scores: seq<real>, order: seq<nat>, ranks: array<real>, index: nat, stop: nat, shared: real)
    requires Sorted(scores, order) && Unique(order) && ranks.Length == |scores| && index <= stop < |order|
    requires Ranked(scores, order, ranks[..], index)
    requires forall p :: index <= p <= stop ==> shared == Rank(scores, order[p])
    requires forall p, q :: index <= p <= stop < q < |order| ==> scores[order[p]] < scores[order[q]]
    modifies ranks
    ensures Ranked(scores, order, ranks[..], stop + 1)
  {
    hide Rank;
    for position := index to stop + 1
      invariant forall p :: 0 <= p < position ==> ranks[order[p]] == Rank(scores, order[p])
    {
      ranks[order[position]] := shared;
    }
  }

  // math.fsum of the positives' ranks.
  method PositiveRankSum(scores: seq<real>, labels: seq<bool>, ranks: array<real>) returns (sum: real)
    requires |scores| == |labels| == ranks.Length
    requires forall i :: 0 <= i < |scores| ==> ranks[i] == Rank(scores, i)
    ensures sum == RankSum(scores, labels, |scores|)
  {
    hide Rank;
    sum := 0.0;
    for i := 0 to |scores|
      invariant sum == RankSum(scores, labels, i)
    {
      if labels[i] {
        sum := sum + ranks[i];
      }
    }
  }

  lemma NoneRanked(scores: seq<real>, order: seq<nat>, ranks: seq<real>)
    requires Sorted(scores, order) && |ranks| == |scores|
    ensures Ranked(scores, order, ranks, 0)
  {
  }

  lemma GroupShares(scores: seq<real>, order: seq<nat>, ranks: seq<real>, index: nat, stop: nat)
    requires order == Order(scores, |scores|) && Sorted(scores, order) && Ranked(scores, order, ranks, index)
    requires index <= stop < |order|
    requires forall q :: index <= q <= stop ==> scores[order[q]] == scores[order[index]]
    requires forall q :: stop < q < |order| ==> scores[order[q]] > scores[order[index]]
    ensures forall p :: index <= p <= stop ==> (index + stop) as real / 2.0 + 1.0 == Rank(scores, order[p])
    ensures forall p, q :: index <= p <= stop < q < |order| ==> scores[order[p]] < scores[order[q]]
  {
    hide Order, Rank;
    forall p | index <= p <= stop
      ensures (index + stop) as real / 2.0 + 1.0 == Rank(scores, order[p])
    {
      SharedRank(scores, order, index, stop, p);
    }
  }

  lemma AllRanked(scores: seq<real>, order: seq<nat>, ranks: seq<real>)
    requires Sorted(scores, order) && Ranked(scores, order, ranks, |order|)
    requires forall j: nat :: j < |scores| ==> j in order
    ensures |ranks| == |scores| && forall i :: 0 <= i < |scores| ==> ranks[i] == Rank(scores, i)
  {
    hide Rank, Sorted;
    forall i: nat | i < |scores|
      ensures ranks[i] == Rank(scores, i)
    {
      assert i in order;
      var p :| 0 <= p < |order| && order[p] == i;
    }
  }

  lemma {:induction false} CountsAll(labels: seq<bool>)
    ensures Positives(labels) + Negatives(labels) == |labels|
  {
    if labels != [] {
      CountsAll(labels[..|labels| - 1]);
    }
  }

  lemma Formula(sum: real, wins: real, positives: nat)
    requires sum == wins + positives as real * (positives as real + 1.0) / 2.0
    ensures sum - (positives * (positives + 1)) as real / 2.0 == wins
  {
    SquareReal(positives);
    assert (positives * (positives + 1)) as real == (positives * positives) as real + positives as real;
  }

  // -- What it means ---------------------------------------------------------------------------

  // Weights of the positives against the negatives, at most one a pair.
  lemma {:induction false} RowBound(scores: seq<real>, labels: seq<bool>, s: real, n: nat)
    requires |scores| == |labels| && n <= |scores|
    ensures 0.0 <= Row(scores, labels, false, s, n) <= Negatives(labels[..n]) as real
  {
    if n > 0 {
      RowBound(scores, labels, s, n - 1);
      assert labels[..n][..n - 1] == labels[..n - 1];
    } else {
      assert labels[..0] == [];
    }
  }

  lemma {:induction false} RowsBound(scores: seq<real>, labels: seq<bool>, n: nat)
    requires |scores| == |labels| && n <= |scores|
    ensures 0.0 <= Rows(scores, labels, false, n, |scores|) <= Before(labels, n) as real * Negatives(labels) as real
  {
    if n > 0 {
      RowsBound(scores, labels, n - 1);
      BeforeNext(labels, n);
      RowBound(scores, labels, scores[n - 1], |scores|);
      assert labels[..|scores|] == labels;
    } else {
      assert labels[..0] == [];
    }
  }

  lemma InUnitInterval(scores: seq<real>, labels: seq<bool>)
    requires |scores| == |labels| && Positives(labels) > 0 && Negatives(labels) > 0
    ensures 0.0 <= PairValue(scores, labels) <= 1.0
  {
    hide PairValue, Rows, Positives, Negatives;
    RowsBound(scores, labels, |scores|);
    ValueIs(scores, labels);
    assert labels[..|scores|] == labels;
    DivisionBound(Rows(scores, labels, false, |scores|, |scores|), (Positives(labels) * Negatives(labels)) as real);
  }

  // The value as a quotient of sums, its denominator positive.
  lemma ValueIs(scores: seq<real>, labels: seq<bool>)
    requires |scores| == |labels| && Positives(labels) > 0 && Negatives(labels) > 0
    ensures (Positives(labels) * Negatives(labels)) as real ==
      Positives(labels) as real * Negatives(labels) as real > 0.0
    ensures PairValue(scores, labels) ==
      Rows(scores, labels, false, |scores|, |scores|) / (Positives(labels) * Negatives(labels)) as real
  {
    hide Wins, Ties, Rows, Positives, Negatives;
    WinsArePairs(scores, labels);
    Product(Positives(labels), Negatives(labels));
  }

  lemma Product(p: nat, n: nat)
    ensures (p * n) as real == p as real * n as real
    ensures p > 0 && n > 0 ==> p * n > 0
  {
  }

  lemma DivisionBound(x: real, y: real)
    requires 0.0 <= x <= y && y > 0.0
    ensures 0.0 <= x / y <= 1.0
  {
  }

  function Negated(scores: seq<real>): (r: seq<real>)
    ensures |r| == |scores|
  {
    seq(|scores|, i requires 0 <= i < |scores| => -scores[i])
  }

  lemma {:induction false} RowNegated(scores: seq<real>, labels: seq<bool>, s: real, n: nat)
    requires |scores| == |labels| && n <= |scores|
    ensures Row(scores, labels, false, s, n) + Row(Negated(scores), labels, false, -s, n) ==
      Negatives(labels[..n]) as real
  {
    if n > 0 {
      RowNegated(scores, labels, s, n - 1);
      assert labels[..n][..n - 1] == labels[..n - 1];
    } else {
      assert labels[..0] == [];
    }
  }

  lemma {:induction false} RowsNegated(scores: seq<real>, labels: seq<bool>, n: nat)
    requires |scores| == |labels| && n <= |scores|
    ensures Rows(scores, labels, false, n, |scores|) + Rows(Negated(scores), labels, false, n, |scores|) ==
      Before(labels, n) as real * Negatives(labels) as real
  {
    if n > 0 {
      RowsNegated(scores, labels, n - 1);
      BeforeNext(labels, n);
      RowNegated(scores, labels, scores[n - 1], |scores|);
      assert labels[..|scores|] == labels;
    } else {
      assert labels[..0] == [];
    }
  }

  // Negating the scores mirrors the value.
  lemma NegationMirrors(scores: seq<real>, labels: seq<bool>)
    requires |scores| == |labels| && Positives(labels) > 0 && Negatives(labels) > 0
    ensures PairValue(Negated(scores), labels) == 1.0 - PairValue(scores, labels)
  {
    hide PairValue, Rows, Positives, Negatives, Negated;
    RowsNegated(scores, labels, |scores|);
    ValueIs(scores, labels);
    ValueIs(Negated(scores), labels);
    assert labels[..|scores|] == labels;
    DivisionMirror(Rows(scores, labels, false, |scores|, |scores|),
      Rows(Negated(scores), labels, false, |scores|, |scores|), (Positives(labels) * Negatives(labels)) as real);
  }

  lemma DivisionMirror(x: real, y: real, pairs: real)
    requires x + y == pairs && pairs > 0.0
    ensures y / pairs == 1.0 - x / pairs
  {
    Quotients(x, y, pairs);
    assert (x + y) / pairs == 1.0;
  }

  lemma Quotients(x: real, y: real, z: real)
    requires z != 0.0
    ensures x / z + y / z == (x + y) / z
  {
    var a, b := x / z, y / z;
    assert a * z == x && b * z == y;
    Distribute(a, b, z);
    assert (a + b) * z / z == a + b;
  }

  lemma Distribute(a: real, b: real, c: real)
    ensures (a + b) * c == a * c + b * c
  {
  }
}
