/** The load balancer around the round-robin arithmetic: per-group state keyed by a
    fingerprint of the chain, and rotation of a chain to its pick. */
module Balancer {
  import opened Swrr
  import Text

  // ----- Fingerprints

  const NUL: char := '\0'

  function Fingerprint(ranked: seq<string>): string
  {
    Text.Join(ranked, NUL)
  }

  predicate NulFree(ranked: seq<string>)
  {
    forall i :: 0 <= i < |ranked| ==> NUL !in ranked[i]
  }

  /** Chains of NUL-free names have one fingerprint each. */
  lemma FingerprintInjective(a: seq<string>, b: seq<string>)
    requires a != [] && b != [] && NulFree(a) && NulFree(b)
    requires Fingerprint(a) == Fingerprint(b)
    ensures a == b
  {
    Text.SplitOfJoin(a, NUL);
    Text.SplitOfJoin(b, NUL);
  }

  /** A fingerprint separates at least as many names as its chain has, and exactly as
      many when no name contains the separator. */
  lemma {:induction false} FingerprintLength(c: seq<string>)
    requires c != []
    ensures 1 + Text.Occurrences(Fingerprint(c), NUL) >= |c|
    ensures NulFree(c) <==> 1 + Text.Occurrences(Fingerprint(c), NUL) == |c|
  {
    Text.OccurrencesZero(c[0], NUL);
    if |c| > 1 {
      FingerprintLength(c[1..]);
      assert NulFree(c) <==> NUL !in c[0] && NulFree(c[1..]) by {
        assert c == [c[0]] + c[1..];
      }
      Text.OccurrencesConcat(c[0] + [NUL], Fingerprint(c[1..]), NUL);
      Text.OccurrencesConcat(c[0], [NUL], NUL);
    }
  }

  // ----- One call, on values

  datatype GroupState = GroupState(fingerprint: string, current: seq<int>)

  datatype Call = Call(group: string, ranked: seq<string>)

  type View = map<string, GroupState>

  /** Every stored weight vector has one entry for each name in its fingerprint. */
  ghost predicate Sized(v: View)
  {
    forall g :: g in v ==> |v[g].current| == 1 + Text.Occurrences(v[g].fingerprint, NUL)
  }

  /** The running weights a call starts from: stored for this chain, or fresh. */
  function Current(v: View, call: Call): seq<int>
  {
    if call.group in v && v[call.group].fingerprint == Fingerprint(call.ranked)
    then v[call.group].current
    else Zeros(|call.ranked|)
  }

  /** The chain has more names than the stored weights: indexing past them panics. */
  predicate Overruns(v: View, call: Call)
  {
    |call.ranked| >= 2 && |Current(v, call)| < |call.ranked|
  }

  /** What n names do to the weights: the loop runs over the first n, or over all there
      are before it panics. */
  function NextWeights(cur: seq<int>, n: nat): seq<int>
    requires n > 0
  {
    if |cur| < n then seq(|cur|, i requires 0 <= i < |cur| => cur[i] + (n - i))
    else Advance(cur[..n]) + cur[n..]
  }

  /** The answer to a call that does not panic. */
  function PickOf(v: View, call: Call): nat
  {
    if |call.ranked| <= 1 || Overruns(v, call) then 0 else Pick(Current(v, call)[..|call.ranked|])
  }

  /** The view after a call. */
  function After(v: View, call: Call): View
  {
    if |call.ranked| <= 1 then v
    else v[call.group := GroupState(Fingerprint(call.ranked), NextWeights(Current(v, call), |call.ranked|))]
  }

  /** With one weight for each name the call is a step of the round robin. */
  lemma ExactFit(v: View, call: Call)
    requires |call.ranked| >= 2 && |Current(v, call)| == |call.ranked|
    ensures !Overruns(v, call) && PickOf(v, call) == Pick(Current(v, call))
    ensures After(v, call) == v[call.group := GroupState(Fingerprint(call.ranked), Advance(Current(v, call)))]
  {
    hide Advance, Pick, Current, Fingerprint;
    var cur, n := Current(v, call), |call.ranked|;
    assert cur[..n] == cur && cur[n..] == [] && Advance(cur) + [] == Advance(cur);
  }

  lemma CurrentSized(v: View, call: Call)
    requires Sized(v) && |call.ranked| >= 2 && NulFree(call.ranked)
    ensures |Current(v, call)| == |call.ranked|
  {
    FingerprintLength(call.ranked);
  }

  /** Once a group has served chain c, no later chain can overrun its weights, exactly
      when no name in c contains NUL. */
  lemma ServedNeverOverrunsIff(v: View, g: string, c: seq<string>)
    requires |c| >= 2 && |Current(v, Call(g, c))| == |c|
    ensures NulFree(c) <==> forall d: seq<string> :: !Overruns(After(v, Call(g, c)), Call(g, d))
  {
    hide Advance, Pick, Text.Join, Text.Occurrences, NulFree;
    var w := After(v, Call(g, c));
    FingerprintLength(c);
    ExactFit(v, Call(g, c));
    if NulFree(c) {
      forall d: seq<string> ensures !Overruns(w, Call(g, d)) {
        if d != [] {
          FingerprintLength(d);
        }
      }
    } else {
      var d := Text.Split(Fingerprint(c), NUL);
      Text.JoinOfSplit(Fingerprint(c), NUL);
      Text.SplitCount(Fingerprint(c), NUL);
      assert Overruns(w, Call(g, d));
    }
  }

  // ----- Interleaved calls

  function AfterAll(v: View, calls: seq<Call>): View
    decreases |calls|
  {
    if calls == [] then v else AfterAll(After(v, calls[0]), calls[1..])
  }

  /** The answers given to the calls on group g with chain c, in order. */
  function Answers(v: View, calls: seq<Call>, g: string, c: seq<string>): seq<nat>
    decreases |calls|
  {
    if calls == [] then []
    else (if calls[0] == Call(g, c) then [PickOf(v, calls[0])] else [])
         + Answers(After(v, calls[0]), calls[1..], g, c)
  }

  function CountIn(answers: seq<nat>, i: nat): nat
  {
    if answers == [] then 0
    else CountIn(answers[..|answers|-1], i) + (if answers[|answers|-1] == i then 1 else 0)
  }

  ghost predicate AllNulFree(calls: seq<Call>)
  {
    forall j :: 0 <= j < |calls| ==> NulFree(calls[j].ranked)
  }

  /** Group g sees no chain of two or more candidates other than c. */
  ghost predicate Undisturbed(calls: seq<Call>, g: string, c: seq<string>)
  {
    forall j :: 0 <= j < |calls| && calls[j].group == g && |calls[j].ranked| >= 2 ==> calls[j].ranked == c
  }

  /** The weights are those of chain c after k calls from a reset. */
  ghost predicate IsRun(st: GroupState, c: seq<string>, k: nat)
  {
    |c| >= 2 && NulFree(c) && st == GroupState(Fingerprint(c), State(|c|, k))
  }

  ghost predicate Reached(v: View)
  {
    forall g :: g in v ==> exists c, k :: IsRun(v[g], c, k)
  }

  /** In a reached view the weights for (g, c) are those of some run. */
  lemma CurrentIsRun(v: View, g: string, c: seq<string>) returns (k: nat)
    requires Reached(v) && |c| >= 2 && NulFree(c)
    ensures Current(v, Call(g, c)) == State(|c|, k)
  {
    hide Advance, Pick;
    if g in v && v[g].fingerprint == Fingerprint(c) {
      var d, m :| IsRun(v[g], d, m);
      FingerprintInjective(c, d);
      k := m;
    } else {
      k := 0;
    }
  }

  lemma AfterReached(v: View, call: Call)
    requires Reached(v) && NulFree(call.ranked)
    ensures Reached(After(v, call))
  {
    hide Advance, Pick;
    if |call.ranked| >= 2 {
      var k := CurrentIsRun(v, call.group, call.ranked);
      var w := After(v, call);
      ExactFit(v, call);
      assert State(|call.ranked|, k + 1) == Advance(State(|call.ranked|, k));
      assert IsRun(w[call.group], call.ranked, k + 1);
      forall g | g in w ensures exists c, m :: IsRun(w[g], c, m) {
        if g != call.group {
          assert w[g] == v[g];
        }
      }
    }
  }

  lemma {:induction false} AllReached(v: View, calls: seq<Call>)
    requires Reached(v) && AllNulFree(calls)
    ensures Reached(AfterAll(v, calls))
    decreases |calls|
  {
    hide Advance, Pick, Reached;
    if calls != [] {
      AfterReached(v, calls[0]);
      AllReached(After(v, calls[0]), calls[1..]);
    }
  }

  lemma ReachedSized(v: View)
    requires Reached(v)
    ensures Sized(v)
  {
    forall g | g in v ensures |v[g].current| == 1 + Text.Occurrences(v[g].fingerprint, NUL) {
      var c, k :| IsRun(v[g], c, k);
      FingerprintLength(c);
    }
  }

  /** Among chains of NUL-free names no call ever panics, whatever came before. */
  lemma NeverOverruns(history: seq<Call>, call: Call)
    requires AllNulFree(history) && NulFree(call.ranked)
    ensures !Overruns(AfterAll(map[], history), call)
  {
    hide AfterAll, Current, Reached;
    var v := AfterAll(map[], history);
    assert Reached(map[]) by { NothingReached(); }
    AllReached(map[], history);
    ReachedSized(v);
    if |call.ranked| >= 2 {
      CurrentSized(v, call);
    }
  }

  lemma NothingReached()
    ensures Reached(map[])
  {
  }

  lemma OneCall(v: View, call: Call, g: string, c: seq<string>, k: nat)
    requires |c| >= 2 && Current(v, Call(g, c)) == State(|c|, k)
    requires call.group == g && |call.ranked| >= 2 ==> call.ranked == c
    ensures call == Call(g, c) ==> PickOf(v, call) == PickAt(|c|, k)
    ensures Current(After(v, call), Call(g, c)) == State(|c|, if call == Call(g, c) then k + 1 else k)
  {
    hide Advance, Pick, NextWeights;
    if call == Call(g, c) {
      ExactFit(v, call);
    }
  }

  /** However calls on other groups and one-candidate chains are interleaved, the
      answers on (g, c) are the consecutive picks of one undisturbed run. */
  lemma {:induction false} AnswersFollowRun(v: View, calls: seq<Call>, g: string, c: seq<string>, k: nat)
    requires |c| >= 2 && Current(v, Call(g, c)) == State(|c|, k)
    requires Undisturbed(calls, g, c)
    ensures forall j :: 0 <= j < |Answers(v, calls, g, c)| ==>
              Answers(v, calls, g, c)[j] == PickAt(|c|, k + j)
    decreases |calls|
  {
    hide Advance, Pick, State, PickAt, PickOf, Current;
    if calls != [] {
      var w, hit := After(v, calls[0]), calls[0] == Call(g, c);
      OneCall(v, calls[0], g, c, k);
      AnswersFollowRun(w, calls[1..], g, c, if hit then k + 1 else k);
      var rest := Answers(w, calls[1..], g, c);
      if hit {
        assert Answers(v, calls, g, c) == [PickOf(v, calls[0])] + rest;
        forall j | 0 < j <= |rest| ensures ([PickOf(v, calls[0])] + rest)[j] == PickAt(|c|, k + j) {
          assert rest[j - 1] == PickAt(|c|, (k + 1) + (j - 1));
        }
      } else {
        assert Answers(v, calls, g, c) == rest;
      }
    }
  }

  lemma {:induction false} CountPicks(n: nat, k: nat, answers: seq<nat>, i: nat)
    requires n >= 1
    requires forall j :: 0 <= j < |answers| ==> answers[j] == PickAt(n, k + j)
    ensures CountIn(answers, i) == Count(n, i, k + |answers|) - Count(n, i, k)
  {
    hide PickAt;
    var m := |answers|;
    if m > 0 {
      CountPicks(n, k, answers[..m-1], i);
      assert answers[m - 1] == PickAt(n, k + (m - 1));
      assert Count(n, i, k + m) == Count(n, i, k + m - 1) + (if PickAt(n, k + m - 1) == i then 1 else 0);
    }
  }

  /** Exact proportion for the whole balancer: after any history, any interleaving of
      calls that holds W calls on (g, c) answers candidate i exactly n - i times there. */
  lemma InterleavedProportion(history: seq<Call>, calls: seq<Call>, g: string, c: seq<string>, i: nat)
    requires AllNulFree(history) && |c| >= 2 && NulFree(c) && i < |c|
    requires Undisturbed(calls, g, c)
    requires |Answers(AfterAll(map[], history), calls, g, c)| == Total(|c|)
    ensures CountIn(Answers(AfterAll(map[], history), calls, g, c), i) == |c| - i
  {
    hide Advance, Pick, Answers, CountIn, AfterAll;
    var v := AfterAll(map[], history);
    AllReached(map[], history);
    var k := CurrentIsRun(v, g, c);
    AnswersFollowRun(v, calls, g, c, k);
    CountPicks(|c|, k, Answers(v, calls, g, c), i);
    WindowIsProportional(|c|, k, i);
  }

  /** From a reset of the group, the interleaved answers keep rank order and both quotas. */
  lemma InterleavedFromReset(v: View, calls: seq<Call>, g: string, c: seq<string>, i: nat, j: nat)
    requires i < j < |c|
    requires g !in v || v[g].fingerprint != Fingerprint(c)
    requires Undisturbed(calls, g, c)
    ensures CountIn(Answers(v, calls, g, c), i) >= CountIn(Answers(v, calls, g, c), j)
    ensures Total(|c|) * (CountIn(Answers(v, calls, g, c), i) - 1) < |Answers(v, calls, g, c)| * (|c| - i)
    ensures |Answers(v, calls, g, c)| * (|c| - i) < Total(|c|) * (CountIn(Answers(v, calls, g, c), i) + (|c| - 1))
  {
    hide Advance, Pick, Answers, CountIn, PickAt;
    var answers := Answers(v, calls, g, c);
    AnswersFollowRun(v, calls, g, c, 0);
    CountPicks(|c|, 0, answers, i);
    CountPicks(|c|, 0, answers, j);
    BetterRankLeads(|c|, |answers|, i, j);
    QuotaHolds(|c|, |answers|, i);
  }

  // ----- The balancer object

  class SwrrState {
    const fingerprint: string
    const current: array<int>

    constructor (fingerprint: string, n: nat)
      ensures this.fingerprint == fingerprint
      ensures fresh(current) && current[..] == Zeros(n)
    {
      this.fingerprint := fingerprint;
      this.current := new int[n](_ => 0);
    }
  }

  class WeightedRR {
    var groups: map<string, SwrrState>

    ghost function Arrays(): set<array<int>>
      reads this
    {
      set g | g in groups :: groups[g].current
    }

    ghost function GetView(): View
      reads this, Arrays()
    {
      map g | g in groups :: GroupState(groups[g].fingerprint, groups[g].current[..])
    }

    /** Groups share no weights. */
    ghost predicate Valid()
      reads this
    {
      forall g, h :: g in groups && h in groups && g != h ==> groups[g].current != groups[h].current
    }

    constructor ()
      ensures Valid() && GetView() == map[]
    {
      groups := map[];
    }

    method Next(groupKey: string, ranked: seq<string>) returns (best: nat, panicked: bool)
      requires Valid()
      modifies this, Arrays()
      ensures Valid()
      ensures panicked <==> Overruns(old(GetView()), Call(groupKey, ranked))
      ensures GetView() == After(old(GetView()), Call(groupKey, ranked))
      ensures !panicked ==> best == PickOf(old(GetView()), Call(groupKey, ranked)) && (best < |ranked| || ranked == [])
    {
      hide NextWeights, Pick, Fingerprint;
      var n := |ranked|;
      if n <= 1 {
        return 0, false;
      }
      var fp := Fingerprint(ranked);
      ghost var cur := Current(GetView(), Call(groupKey, ranked));
      if groupKey !in groups || groups[groupKey].fingerprint != fp {
        var created := new SwrrState(fp, n);
        groups := groups[groupKey := created];
      }
      var st := groups[groupKey];
      assert st.current[..] == cur;
      best, panicked := AdvanceInPlace(st.current, n);
      assert GetView() == After(old(GetView()), Call(groupKey, ranked));
    }

    /** The selection loop, in place on one group's weights. */
    static method AdvanceInPlace(current: array<int>, n: nat) returns (best: nat, panicked: bool)
      requires n > 0
      modifies current
      ensures panicked <==> current.Length < n
      ensures current[..] == NextWeights(old(current[..]), n)
      ensures !panicked ==> best == Pick(old(current[..n]))
    {
      hide Best;
      ghost var cur := current[..];
      ghost var raised := Raised(cur, n);
      var total := 0;
      best := 0;
      for i := 0 to n
        invariant i <= current.Length
        invariant best == if i == 0 then 0 else Best(raised, i)
        invariant total + Total(n - i) == Total(n)
        invariant forall j :: 0 <= j < i ==> current[j] == raised[j]
        invariant forall j :: i <= j < current.Length ==> current[j] == cur[j]
      {
        if i == current.Length {
          return 0, true;
        }
        var wi := n - i;
        total := total + wi;
        current[i] := current[i] + wi;
        BestStep(raised, i + 1);
        if current[i] > current[best] {
          best := i;
        }
      }
      assert Bumped(cur[..n]) == raised[..n];
      BestPrefix(raised, n, n);
      current[best] := current[best] - total;
      panicked := false;
      assert current[..] == Advance(cur[..n]) + cur[n..];
    }
  }

  /** The first n weights raised as n names raise them, as far as they go. */
  function Raised(cur: seq<int>, n: nat): seq<int>
  {
    seq(|cur|, i requires 0 <= i < |cur| => if i < n then cur[i] + (n - i) else cur[i])
  }

  lemma BestStep(s: seq<int>, m: nat)
    requires 1 <= m <= |s|
    ensures Best(s, m) == if m == 1 then 0 else if s[m - 1] > s[Best(s, m - 1)] then m - 1 else Best(s, m - 1)
  {
  }

  lemma {:induction false} BestPrefix(s: seq<int>, n: nat, m: nat)
    requires 1 <= m <= n <= |s|
    ensures Best(s[..n], m) == Best(s, m)
  {
    if m > 1 {
      BestPrefix(s, n, m - 1);
    }
  }

  /** Moves the weighted pick to the front; the rest keep their order. */
  method RotateChain(groupKey: string, ranked: seq<string>, w: WeightedRR?)
    returns (out: seq<string>, panicked: bool)
    requires w != null ==> w.Valid()
    modifies w, if w == null then {} else w.Arrays()
    ensures w != null ==> w.Valid() && w.GetView() == After(old(w.GetView()), Call(groupKey, ranked))
    ensures panicked <==> w != null && Overruns(old(w.GetView()), Call(groupKey, ranked))
    ensures w == null || |ranked| <= 1 ==> out == ranked
    ensures w != null && |ranked| > 1 && !panicked ==>
              var i := PickOf(old(w.GetView()), Call(groupKey, ranked));
              i < |ranked| && out == [ranked[i]] + (ranked[..i] + ranked[i+1..])
    ensures !panicked ==> multiset(out) == multiset(ranked)
  {
    hide NextWeights, Pick, Fingerprint, Current;
    if w == null || |ranked| <= 1 {
      if w != null {
        assert w.GetView() == After(old(w.GetView()), Call(groupKey, ranked));
      }
      return ranked, false;
    }
    var i;
    i, panicked := w.Next(groupKey, ranked);
    if panicked {
      return [], true;
    }
    out := [ranked[i]];
    for j := 0 to |ranked|
      invariant out == [ranked[i]] + if j <= i then ranked[..j] else ranked[..i] + ranked[i+1..j]
    {
      if j != i {
        out := out + [ranked[j]];
      }
    }
    assert ranked == ranked[..i] + [ranked[i]] + ranked[i+1..];
  }
}
