/** The arithmetic of smooth weighted round-robin over one chain of n candidates.
    Candidate i has weight n - i. Every call adds each weight to its running value,
    picks the leftmost maximum and charges the sum of the weights to the pick. */
module Swrr {

  // ----- One call

  function Weights(n: nat): seq<int>
  {
    seq(n, i => n - i)
  }

  /** The sum of the weights, n + (n-1) + ... + 1. */
  function Total(n: nat): nat
  {
    if n == 0 then 0 else n + Total(n - 1)
  }

  function Zeros(n: nat): seq<int>
  {
    seq(n, _ => 0)
  }

  function Bumped(cur: seq<int>): seq<int>
  {
    seq(|cur|, i requires 0 <= i < |cur| => cur[i] + (|cur| - i))
  }

  /** The leftmost maximum among the first m entries. */
  function Best(s: seq<int>, m: nat): (b: nat)
    requires 1 <= m <= |s|
    ensures b < m
  {
    if m == 1 then 0
    else
      var b := Best(s, m - 1);
      if s[m - 1] > s[b] then m - 1 else b
  }

  lemma {:induction false} BestIsLeftmostMax(s: seq<int>, m: nat)
    requires 1 <= m <= |s|
    ensures forall j :: 0 <= j < m ==> s[j] <= s[Best(s, m)]
    ensures forall j :: 0 <= j < Best(s, m) ==> s[j] < s[Best(s, m)]
  {
    if m > 1 {
      BestIsLeftmostMax(s, m - 1);
    }
  }

  function Pick(cur: seq<int>): (p: nat)
    requires cur != []
    ensures p < |cur|
  {
    Best(Bumped(cur), |cur|)
  }

  function Advance(cur: seq<int>): (next: seq<int>)
    requires cur != []
    ensures |next| == |cur|
  {
    var b, p := Bumped(cur), Pick(cur);
    b[p := b[p] - Total(|cur|)]
  }

  // ----- Whole runs

  /** The running weights after k calls. */
  function Run(cur: seq<int>, k: nat): (r: seq<int>)
    requires cur != []
    ensures |r| == |cur|
  {
    if k == 0 then cur else Advance(Run(cur, k - 1))
  }

  /** The running weights after k calls from a reset. */
  function State(n: nat, k: nat): (r: seq<int>)
    requires n >= 1
    ensures |r| == n
  {
    Run(Zeros(n), k)
  }

  /** The answer of call number k (from 0) after a reset. */
  function PickAt(n: nat, k: nat): (p: nat)
    requires n >= 1
    ensures p < n
  {
    Pick(State(n, k))
  }

  /** How often candidate i was picked in the first k calls after a reset. */
  function Count(n: nat, i: nat, k: nat): nat
    requires n >= 1
  {
    if k == 0 then 0 else Count(n, i, k - 1) + (if PickAt(n, k - 1) == i then 1 else 0)
  }

  // ----- Sums

  function Sum(s: seq<int>): int
  {
    if s == [] then 0 else s[0] + Sum(s[1..])
  }

  lemma {:induction false} SumUpdate(s: seq<int>, p: nat, v: int)
    requires p < |s|
    ensures Sum(s[p := v]) == Sum(s) - s[p] + v
  {
    if p == 0 {
      assert s[0 := v][1..] == s[1..];
    } else {
      SumUpdate(s[1..], p - 1, v);
      assert s[p := v][1..] == s[1..][p - 1 := v];
    }
  }

  lemma {:induction false} SumAdd(a: seq<int>, b: seq<int>, c: seq<int>)
    requires |a| == |b| == |c|
    requires forall i :: 0 <= i < |a| ==> c[i] == a[i] + b[i]
    ensures Sum(c) == Sum(a) + Sum(b)
  {
    if a != [] {
      SumAdd(a[1..], b[1..], c[1..]);
    }
  }

  lemma {:induction false} SumZeros(n: nat)
    ensures Sum(Zeros(n)) == 0
  {
    if n > 0 {
      SumZeros(n - 1);
      assert Zeros(n)[1..] == Zeros(n - 1);
    }
  }

  lemma {:induction false} SumWeights(n: nat)
    ensures Sum(Weights(n)) == Total(n)
  {
    if n > 0 {
      SumWeights(n - 1);
      assert Weights(n)[1..] == Weights(n - 1);
    }
  }

  lemma {:induction false} SumAbove(s: seq<int>, lo: int)
    requires forall i :: 0 <= i < |s| ==> s[i] >= lo
    ensures Sum(s) >= |s| * lo
  {
    if s != [] {
      SumAbove(s[1..], lo);
      assert |s| * lo == lo + (|s| - 1) * lo;
    }
  }

  /** If no entry is below lo, one entry is at most the sum less lo for each other entry. */
  lemma {:induction false} EntryBelow(s: seq<int>, lo: int, i: nat)
    requires forall j :: 0 <= j < |s| ==> s[j] >= lo
    requires i < |s|
    ensures s[i] <= Sum(s) - (|s| - 1) * lo
  {
    if i == 0 {
      SumAbove(s[1..], lo);
    } else {
      EntryBelow(s[1..], lo, i - 1);
      assert (|s| - 1) * lo == lo + (|s| - 2) * lo;
    }
  }

  lemma {:induction false} SumNotPositive(s: seq<int>)
    requires forall i :: 0 <= i < |s| ==> s[i] <= 0
    ensures Sum(s) <= 0
  {
    if s != [] {
      SumNotPositive(s[1..]);
    }
  }

  /** Entries that are not negative and cancel out are all zero. */
  lemma NonNegativeSumZero(s: seq<int>)
    requires forall i :: 0 <= i < |s| ==> s[i] >= 0
    requires Sum(s) == 0
    ensures s == Zeros(|s|)
  {
    forall i | 0 <= i < |s| ensures s[i] == 0 {
      EntryBelow(s, 0, i);
    }
  }

  // ----- The invariant of every reachable state

  ghost predicate Balanced(cur: seq<int>)
  {
    && Sum(cur) == 0
    && forall i :: 0 <= i < |cur| ==> cur[i] + Total(|cur|) > 0
  }

  lemma AdvanceKeepsBalance(cur: seq<int>)
    requires cur != [] && Balanced(cur)
    ensures Balanced(Advance(cur))
  {
    var n, b, p := |cur|, Bumped(cur), Pick(cur);
    SumAdd(cur, Weights(n), b);
    SumWeights(n);
    SumUpdate(b, p, b[p] - Total(n));
    BestIsLeftmostMax(b, n);
    if b[p] <= 0 {
      SumNotPositive(b);
    }
  }

  lemma {:induction false} StateBalanced(n: nat, k: nat)
    requires n >= 1
    ensures Balanced(State(n, k))
  {
    if k == 0 {
      SumZeros(n);
    } else {
      StateBalanced(n, k - 1);
      AdvanceKeepsBalance(State(n, k - 1));
    }
  }

  /** However many calls were made, the running weights cancel out and each stays
      strictly between -W and (n-1)*W. */
  lemma WeightsStayBounded(n: nat, k: nat, i: nat)
    requires n >= 2 && i < n
    ensures Sum(State(n, k)) == 0
    ensures 0 - Total(n) < State(n, k)[i] < (n - 1) * Total(n)
  {
    hide Advance, Pick;
    var t: int := Total(n);
    StateBalanced(n, k);
    EntryBelow(State(n, k), 1 - t, i);
    assert (n - 1) * (1 - t) == (n - 1) - (n - 1) * t;
  }

  /** The sum of the weights in closed form. */
  lemma {:induction false} TotalFormula(n: nat)
    ensures 2 * Total(n) == n * (n + 1)
  {
    if n > 0 {
      TotalFormula(n - 1);
    }
  }

  lemma {:induction false} TotalPositive(n: nat)
    requires n >= 1
    ensures Total(n) >= n
  {
  }

  // ----- Running weights count the picks

  lemma AdvanceAt(cur: seq<int>, i: nat)
    requires i < |cur|
    ensures Advance(cur)[i] == cur[i] + (|cur| - i) - (if Pick(cur) == i then Total(|cur|) else 0)
  {
  }

  lemma OneMore(k: int, w: int, t: int, c: int)
    ensures k * w == (k - 1) * w + w
    ensures t * (c + 1) == t * c + t
  {
  }

  /** After k calls the running weight of i is k*w_i less W for every pick of i. */
  lemma {:induction false} WeightCountsPicks(n: nat, k: nat, i: nat)
    requires n >= 1 && i < n
    ensures State(n, k)[i] == k * (n - i) - Total(n) * Count(n, i, k)
  {
    hide Advance, Pick;
    if k > 0 {
      WeightCountsPicks(n, k - 1, i);
      AdvanceAt(State(n, k - 1), i);
      OneMore(k, n - i, Total(n), Count(n, i, k - 1));
    }
  }

  lemma QuotaArithmetic(t: int, c: int, m: int)
    ensures t * (c - 1) == t * c - t
    ensures t * (c + m) == t * c + m * t
  {
  }

  /** The picks never run ahead of, nor far behind, the exact proportion k*w_i/W. */
  lemma QuotaHolds(n: nat, k: nat, i: nat)
    requires n >= 2 && i < n
    ensures Total(n) * (Count(n, i, k) - 1) < k * (n - i)
    ensures k * (n - i) < Total(n) * (Count(n, i, k) + (n - 1))
  {
    hide Advance, Pick;
    WeightsStayBounded(n, k, i);
    WeightCountsPicks(n, k, i);
    QuotaArithmetic(Total(n), Count(n, i, k), n - 1);
  }

  lemma Scaled(k: nat, a: int, b: int)
    requires a >= b
    ensures k * a >= k * b
  {
  }

  /** Of two candidates picked equally often so far, the worse-ranked is not next. */
  lemma WorseIsNotNext(n: nat, k: nat, i: nat, j: nat)
    requires i < j < n
    requires Count(n, i, k) == Count(n, j, k)
    ensures PickAt(n, k) != j
  {
    hide Advance;
    var cur := State(n, k);
    WeightCountsPicks(n, k, i);
    WeightCountsPicks(n, k, j);
    Scaled(k, n - i, n - j);
    BestIsLeftmostMax(Bumped(cur), n);
    assert Bumped(cur)[i] > Bumped(cur)[j];
  }

  /** A better-ranked candidate has been picked at least as often at every moment. */
  lemma {:induction false} BetterRankLeads(n: nat, k: nat, i: nat, j: nat)
    requires i < j < n
    ensures Count(n, i, k) >= Count(n, j, k)
  {
    hide Advance, Pick;
    if k > 0 {
      BetterRankLeads(n, k - 1, i, j);
      if Count(n, i, k - 1) == Count(n, j, k - 1) {
        WorseIsNotNext(n, k - 1, i, j);
      }
    }
  }

  // ----- The cycle

  /** A multiple of t above -t is not negative. */
  lemma MultipleAbove(t: int, x: int)
    requires t > 0 && t * x + t > 0
    ensures t * x >= 0
  {
  }

  lemma Cancel(t: int, a: int, b: int)
    requires t > 0 && t * a == t * b
    ensures a == b
  {
    assert t * (a - b) == 0;
  }

  lemma CycleEntry(n: nat, i: nat)
    requires n >= 1 && i < n
    ensures State(n, Total(n))[i] >= 0
  {
    hide State, Count, Total;
    var t := Total(n);
    var c := Count(n, i, t);
    StateBalanced(n, t);
    WeightCountsPicks(n, t, i);
    TotalPositive(n);
    assert t * (n - i) - t * c == t * (n - i - c);
    MultipleAbove(t, n - i - c);
  }

  /** After W calls from a reset every running weight is back to zero. */
  lemma CycleReturns(n: nat)
    requires n >= 1
    ensures State(n, Total(n)) == Zeros(n)
  {
    forall i | 0 <= i < n ensures State(n, Total(n))[i] >= 0 {
      CycleEntry(n, i);
    }
    StateBalanced(n, Total(n));
    NonNegativeSumZero(State(n, Total(n)));
  }

  lemma {:induction false} RunSplit(cur: seq<int>, a: nat, b: nat)
    requires cur != []
    ensures Run(cur, a + b) == Run(Run(cur, a), b)
  {
    hide Advance, Pick;
    if b > 0 {
      RunSplit(cur, a, b - 1);
    }
  }

  /** The running weights, and with them the picks, repeat every W calls. */
  lemma PicksPeriodic(n: nat, k: nat)
    requires n >= 1
    ensures State(n, Total(n) + k) == State(n, k)
    ensures PickAt(n, Total(n) + k) == PickAt(n, k)
  {
    hide Advance, Pick, Total, Run;
    RunSplit(Zeros(n), Total(n), k);
    CycleReturns(n);
  }

  lemma WindowArithmetic(t: int, w: int, k: int, c: int, d: int)
    requires t > 0
    requires (k + t) * w - t * d == k * w - t * c
    ensures d - c == w
  {
    assert (k + t) * w == k * w + t * w;
    assert t * (d - c) == t * d - t * c;
    Cancel(t, d - c, w);
  }

  lemma EqualStates(n: nat, i: nat, k: nat, m: nat)
    requires n >= 1 && i < n
    requires State(n, m) == State(n, k)
    ensures m * (n - i) - Total(n) * Count(n, i, m) == k * (n - i) - Total(n) * Count(n, i, k)
  {
    WeightCountsPicks(n, k, i);
    WeightCountsPicks(n, m, i);
  }

  /** Any W consecutive calls pick candidate i exactly n - i times. */
  lemma WindowIsProportional(n: nat, k: nat, i: nat)
    requires n >= 1 && i < n
    ensures Count(n, i, k + Total(n)) - Count(n, i, k) == n - i
  {
    hide Advance, Pick;
    var t := Total(n);
    TotalPositive(n);
    assert State(n, k + t) == State(n, k) by {
      PicksPeriodic(n, k);
      assert t + k == k + t;
    }
    EqualStates(n, i, k, k + t);
    WindowArithmetic(t, n - i, k, Count(n, i, k), Count(n, i, k + t));
  }
}
