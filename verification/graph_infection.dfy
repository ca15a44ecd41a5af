/**
 * `sim(n, edges, pout, pedge, nstep, ntrial)` of scripts/untitled1.py
 * (lines 5-20): a Monte Carlo estimate of how often each node of a graph
 * ends up infected. A trial starts with every node at 0 and runs `nstep`
 * steps. In a step, every edge whose endpoints differ in the state at the
 * start of the step (the snapshot) infects both endpoints when its draw is
 * below `pedge`; then every node whose own draw is below `pout` is infected
 * from outside. The result is, per node, the fraction of trials that end
 * with the node infected.
 *
 * The draws of `np.random.random` are inputs: `edgeDraws[t][k][m]` is the
 * draw of edge m in step k of trial t, `outDraws[t][k][j]` the outside
 * draw of node j.
 */
module GraphInfection {

  /** One entry of igraph's edge list: `x[0]` and `x[1]`. */
  datatype Edge = Edge(a: nat, b: nat)

  predicate EdgesIn(edges: seq<Edge>, n: nat)
  {
    forall m :: 0 <= m < |edges| ==> edges[m].a < n && edges[m].b < n
  }

  /** Line 13-14: the edge is discordant in the snapshot and its draw is
      below `pedge`. */
  predicate Hit(state: seq<int>, e: Edge, d: real, pedge: real)
    requires e.a < |state| && e.b < |state|
  {
    state[e.a] != state[e.b] && d < pedge
  }

  /** `statenew` after the edge loop of lines 11-16. The test reads the
      snapshot `state`, never `statenew`. */
  function Spread(state: seq<int>, edges: seq<Edge>, draws: seq<real>, pedge: real): (s: seq<int>)
    requires EdgesIn(edges, |state|) && |draws| == |edges|
    ensures |s| == |state|
  {
    if |edges| == 0 then state
    else
      var m := |edges| - 1;
      var s := Spread(state, edges[..m], draws[..m], pedge);
      if Hit(state, edges[m], draws[m], pedge) then s[edges[m].a := 1][edges[m].b := 1] else s
  }

  /** Some edge at node j hit in this step. */
  predicate Touched(state: seq<int>, edges: seq<Edge>, draws: seq<real>, pedge: real, j: nat)
    requires EdgesIn(edges, |state|) && |draws| == |edges|
  {
    exists m :: 0 <= m < |edges| && Hit(state, edges[m], draws[m], pedge) && (edges[m].a == j || edges[m].b == j)
  }

  /** Line 18: `np.where(rans < pout, 1, statenew)`. */
  function Outside(statenew: seq<int>, rans: seq<real>, pout: real): (s: seq<int>)
    requires |rans| == |statenew|
    ensures |s| == |statenew|
  {
    seq(|statenew|, j requires 0 <= j < |statenew| => if rans[j] < pout then 1 else statenew[j])
  }

  /** One pass of the loop body of lines 10-18. */
  function Step(state: seq<int>, edges: seq<Edge>, draws: seq<real>, rans: seq<real>, pedge: real, pout: real): (s: seq<int>)
    requires EdgesIn(edges, |state|) && |draws| == |edges| && |rans| == |state|
    ensures |s| == |state|
  {
    Outside(Spread(state, edges, draws, pedge), rans, pout)
  }

  /** The draws of one trial have the right shape. */
  predicate TrialDraws(n: nat, edges: seq<Edge>, ed: seq<seq<real>>, od: seq<seq<real>>)
  {
    |ed| == |od| && forall k :: 0 <= k < |ed| ==> |ed[k]| == |edges| && |od[k]| == n
  }

  /** The state of a trial after k steps, from all zeros (line 8). */
  function Run(n: nat, edges: seq<Edge>, ed: seq<seq<real>>, od: seq<seq<real>>, pedge: real, pout: real, k: nat): (s: seq<int>)
    requires EdgesIn(edges, n) && TrialDraws(n, edges, ed, od) && k <= |ed|
    ensures |s| == n
  {
    if k == 0 then seq(n, _ => 0)
    else Step(Run(n, edges, ed, od, pedge, pout, k - 1), edges, ed[k - 1], od[k - 1], pedge, pout)
  }

  predicate AllDraws(n: nat, edges: seq<Edge>, nstep: nat, edgeDraws: seq<seq<seq<real>>>, outDraws: seq<seq<seq<real>>>)
  {
    |edgeDraws| == |outDraws|
    && forall t :: 0 <= t < |edgeDraws| ==>
      TrialDraws(n, edges, edgeDraws[t], outDraws[t]) && |edgeDraws[t]| == nstep
  }

  /** `statesum` after t trials (line 19): per node, the sum of the final
      states. */
  function Totals(n: nat, edges: seq<Edge>, nstep: nat, edgeDraws: seq<seq<seq<real>>>, outDraws: seq<seq<seq<real>>>,
                  pedge: real, pout: real, t: nat): (s: seq<int>)
    requires EdgesIn(edges, n) && AllDraws(n, edges, nstep, edgeDraws, outDraws) && t <= |edgeDraws|
    ensures |s| == n
  {
    if t == 0 then seq(n, _ => 0)
    else
      var before := Totals(n, edges, nstep, edgeDraws, outDraws, pedge, pout, t - 1);
      var last := Run(n, edges, edgeDraws[t - 1], outDraws[t - 1], pedge, pout, nstep);
      seq(n, j requires 0 <= j < n => before[j] + last[j])
  }

  predicate Binary(s: seq<int>)
  {
    forall j :: 0 <= j < |s| ==> s[j] == 0 || s[j] == 1
  }

  /** The edge loop changes exactly the endpoints of the edges that hit,
      and sets them to 1: it reads only the snapshot, so a node infected
      earlier in the same loop does not pass the infection on. */
  lemma {:induction false} SpreadChanges(state: seq<int>, edges: seq<Edge>, draws: seq<real>, pedge: real)
    requires EdgesIn(edges, |state|) && |draws| == |edges|
    ensures forall j :: 0 <= j < |state| ==>
      Spread(state, edges, draws, pedge)[j] == if Touched(state, edges, draws, pedge, j) then 1 else state[j]
  {
    if |edges| > 0 {
      var m := |edges| - 1;
      SpreadChanges(state, edges[..m], draws[..m], pedge);
      TouchedLast(state, edges, draws, pedge);
    }
  }

  /** Node j is touched by the first m + 1 edges when it is touched by the
      first m or by edge m. */
  lemma TouchedLast(state: seq<int>, edges: seq<Edge>, draws: seq<real>, pedge: real)
    requires EdgesIn(edges, |state|) && |draws| == |edges| && |edges| > 0
    ensures var m := |edges| - 1;
      forall j :: 0 <= j < |state| ==>
        (Touched(state, edges, draws, pedge, j) <==>
          (Touched(state, edges[..m], draws[..m], pedge, j)
           || (Hit(state, edges[m], draws[m], pedge) && (edges[m].a == j || edges[m].b == j))))
  {
    var m := |edges| - 1;
    assert forall i :: 0 <= i < m ==> edges[..m][i] == edges[i] && draws[..m][i] == draws[i];
    forall j | 0 <= j < |state| && Touched(state, edges, draws, pedge, j)
      ensures Touched(state, edges[..m], draws[..m], pedge, j)
        || (Hit(state, edges[m], draws[m], pedge) && (edges[m].a == j || edges[m].b == j))
    {
      var i :| 0 <= i < |edges| && Hit(state, edges[i], draws[i], pedge) && (edges[i].a == j || edges[i].b == j);
      if i < m {
        assert Hit(state, edges[..m][i], draws[..m][i], pedge);
      }
    }
  }

  /** A step infects node j exactly when j was infected, or its outside
      draw is below `pout`, or an edge at j hit; every edge that hits
      infects both its endpoints. */
  lemma StepChanges(state: seq<int>, edges: seq<Edge>, draws: seq<real>, rans: seq<real>, pedge: real, pout: real)
    requires EdgesIn(edges, |state|) && |draws| == |edges| && |rans| == |state| && Binary(state)
    ensures Binary(Step(state, edges, draws, rans, pedge, pout))
    ensures forall j :: 0 <= j < |state| ==>
      (Step(state, edges, draws, rans, pedge, pout)[j] == 1 <==>
        (state[j] == 1 || rans[j] < pout || Touched(state, edges, draws, pedge, j)))
    ensures forall m :: 0 <= m < |edges| && Hit(state, edges[m], draws[m], pedge) ==>
      Step(state, edges, draws, rans, pedge, pout)[edges[m].a] == 1
      && Step(state, edges, draws, rans, pedge, pout)[edges[m].b] == 1
  {
    SpreadChanges(state, edges, draws, pedge);
  }

  /** An edge from a node to itself is never discordant, so it changes
      nothing. */
  lemma SelfLoop(state: seq<int>, edges: seq<Edge>, draws: seq<real>, pedge: real, v: nat, d: real)
    requires EdgesIn(edges, |state|) && |draws| == |edges| && v < |state|
    ensures EdgesIn(edges + [Edge(v, v)], |state|)
    ensures Spread(state, edges + [Edge(v, v)], draws + [d], pedge) == Spread(state, edges, draws, pedge)
  {
    assert (edges + [Edge(v, v)])[..|edges|] == edges;
    assert (draws + [d])[..|edges|] == draws;
  }

  /** Every state of every trial is 0 or 1, and a node once infected stays
      infected for the rest of the trial. */
  lemma {:induction false} RunMonotone(n: nat, edges: seq<Edge>, ed: seq<seq<real>>, od: seq<seq<real>>,
                                       pedge: real, pout: real, k: nat, k': nat)
    requires EdgesIn(edges, n) && TrialDraws(n, edges, ed, od) && k <= k' <= |ed|
    ensures Binary(Run(n, edges, ed, od, pedge, pout, k'))
    ensures forall j :: 0 <= j < n && Run(n, edges, ed, od, pedge, pout, k)[j] == 1 ==>
      Run(n, edges, ed, od, pedge, pout, k')[j] == 1
    decreases k'
  {
    if k' > 0 {
      RunMonotone(n, edges, ed, od, pedge, pout, if k == k' then k' - 1 else k, k' - 1);
      StepChanges(Run(n, edges, ed, od, pedge, pout, k' - 1), edges, ed[k' - 1], od[k' - 1], pedge, pout);
    }
  }

  /** Each node's `statesum` counts the trials that ended with it infected,
      so it lies between 0 and the number of trials. */
  lemma {:induction false} TotalsBounded(n: nat, edges: seq<Edge>, nstep: nat, edgeDraws: seq<seq<seq<real>>>,
                                         outDraws: seq<seq<seq<real>>>, pedge: real, pout: real, t: nat)
    requires EdgesIn(edges, n) && AllDraws(n, edges, nstep, edgeDraws, outDraws) && t <= |edgeDraws|
    ensures forall j :: 0 <= j < n ==> 0 <= Totals(n, edges, nstep, edgeDraws, outDraws, pedge, pout, t)[j] <= t
  {
    if t > 0 {
      TotalsBounded(n, edges, nstep, edgeDraws, outDraws, pedge, pout, t - 1);
      RunMonotone(n, edges, edgeDraws[t - 1], outDraws[t - 1], pedge, pout, nstep, nstep);
    }
  }

  /** With both probabilities 0 (and draws from [0, 1)), nobody is ever
      infected. */
  lemma {:induction false} NoInfection(n: nat, edges: seq<Edge>, ed: seq<seq<real>>, od: seq<seq<real>>, k: nat)
    requires EdgesIn(edges, n) && TrialDraws(n, edges, ed, od) && k <= |ed|
    requires forall i :: 0 <= i < |ed| ==>
      (forall m :: 0 <= m < |ed[i]| ==> ed[i][m] >= 0.0) && (forall j :: 0 <= j < |od[i]| ==> od[i][j] >= 0.0)
    ensures forall j :: 0 <= j < n ==> Run(n, edges, ed, od, 0.0, 0.0, k)[j] == 0
  {
    if k > 0 {
      var prev := Run(n, edges, ed, od, 0.0, 0.0, k - 1);
      NoInfection(n, edges, ed, od, k - 1);
      SpreadChanges(prev, edges, ed[k - 1], 0.0);
      assert forall m :: 0 <= m < |edges| ==> !Hit(prev, edges[m], ed[k - 1][m], 0.0);
    }
  }

  /** The same at the level of `sim`: with both probabilities 0 every
      node's total over the trials is 0, so every returned frequency
      (`Sim`'s `freq[j]`, the total divided by `ntrial`) is 0. */
  lemma {:induction false} NoOutbreak(n: nat, edges: seq<Edge>, nstep: nat, edgeDraws: seq<seq<seq<real>>>,
                                      outDraws: seq<seq<seq<real>>>, t: nat)
    requires EdgesIn(edges, n) && AllDraws(n, edges, nstep, edgeDraws, outDraws) && 0 < t <= |edgeDraws|
    requires forall i, k, m :: 0 <= i < |edgeDraws| && 0 <= k < |edgeDraws[i]| && 0 <= m < |edgeDraws[i][k]| ==>
      edgeDraws[i][k][m] >= 0.0
    requires forall i, k, j :: 0 <= i < |outDraws| && 0 <= k < |outDraws[i]| && 0 <= j < |outDraws[i][k]| ==>
      outDraws[i][k][j] >= 0.0
    ensures forall j :: 0 <= j < n ==> Totals(n, edges, nstep, edgeDraws, outDraws, 0.0, 0.0, t)[j] as real / t as real == 0.0
  {
    NoneInfected(n, edges, nstep, edgeDraws, outDraws, t);
  }

  lemma {:induction false} NoneInfected(n: nat, edges: seq<Edge>, nstep: nat, edgeDraws: seq<seq<seq<real>>>,
                                        outDraws: seq<seq<seq<real>>>, t: nat)
    requires EdgesIn(edges, n) && AllDraws(n, edges, nstep, edgeDraws, outDraws) && t <= |edgeDraws|
    requires forall i, k, m :: 0 <= i < |edgeDraws| && 0 <= k < |edgeDraws[i]| && 0 <= m < |edgeDraws[i][k]| ==>
      edgeDraws[i][k][m] >= 0.0
    requires forall i, k, j :: 0 <= i < |outDraws| && 0 <= k < |outDraws[i]| && 0 <= j < |outDraws[i][k]| ==>
      outDraws[i][k][j] >= 0.0
    ensures forall j :: 0 <= j < n ==> Totals(n, edges, nstep, edgeDraws, outDraws, 0.0, 0.0, t)[j] == 0
  {
    if t > 0 {
      NoneInfected(n, edges, nstep, edgeDraws, outDraws, t - 1);
      var i := t - 1;
      assert TrialDraws(n, edges, edgeDraws[i], outDraws[i]) && |edgeDraws[i]| == nstep;
      NoInfection(n, edges, edgeDraws[i], outDraws[i], nstep);
    }
  }

  /** Line 11: `statenew = state.copy()`. */
  method Copy(state: array<int>) returns (statenew: array<int>)
    ensures fresh(statenew)
    ensures statenew[..] == state[..]
  {
    statenew := new int[state.Length];
    forall j | 0 <= j < state.Length {
      statenew[j] := state[j];
    }
  }

  /** Lines 12-16 on `statenew`, reading `state`. */
  method SpreadEdges(state: array<int>, statenew: array<int>, edges: seq<Edge>, draws: seq<real>, pedge: real)
    requires state != statenew && statenew[..] == state[..]
    requires EdgesIn(edges, state.Length) && |draws| == |edges|
    modifies statenew
    ensures statenew[..] == Spread(state[..], edges, draws, pedge)
  {
    for i := 0 to |edges|
      invariant statenew[..] == Spread(state[..], edges[..i], draws[..i], pedge)
    {
      assert edges[..i + 1][..i] == edges[..i] && draws[..i + 1][..i] == draws[..i];
      var x := edges[i];
      if state[x.a] != state[x.b] {
        if draws[i] < pedge {
          statenew[x.a] := 1;
          statenew[x.b] := 1;
        }
      }
    }
    assert edges[..|edges|] == edges && draws[..|edges|] == draws;
  }

  /** Lines 11-18: one step, producing the next state as a new array. */
  method StepOnce(state: array<int>, edges: seq<Edge>, draws: seq<real>, rans: seq<real>, pedge: real, pout: real)
    returns (next: array<int>)
    requires EdgesIn(edges, state.Length) && |draws| == |edges| && |rans| == state.Length
    ensures next[..] == Step(state[..], edges, draws, rans, pedge, pout)
  {
    var statenew := Copy(state);
    SpreadEdges(state, statenew, edges, draws, pedge);
    ghost var spread := statenew[..];
    ghost var before := state[..];
    assert Step(before, edges, draws, rans, pedge, pout) == Outside(spread, rans, pout);
    next := new int[state.Length];
    forall j | 0 <= j < state.Length {
      next[j] := if rans[j] < pout then 1 else statenew[j];
    }
    assert forall j :: 0 <= j < state.Length ==> next[j] == Outside(spread, rans, pout)[j];
    assert next[..] == Outside(spread, rans, pout);
    assert state[..] == before;
  }

  /** Lines 8-18: one trial of `nstep` steps. */
  method Trial(n: nat, edges: seq<Edge>, ed: seq<seq<real>>, od: seq<seq<real>>, pedge: real, pout: real)
    returns (state: array<int>)
    requires EdgesIn(edges, n) && TrialDraws(n, edges, ed, od)
    ensures state[..] == Run(n, edges, ed, od, pedge, pout, |ed|)
  {
    state := new int[n](_ => 0);
    assert state[..] == Run(n, edges, ed, od, pedge, pout, 0);
    for k := 0 to |ed|
      invariant state.Length == n && state[..] == Run(n, edges, ed, od, pedge, pout, k)
    {
      state := StepOnce(state, edges, ed[k], od[k], pedge, pout);
    }
  }

  /** Lines 5-20: the fraction of trials ending with each node infected. */
  method Sim(n: nat, edges: seq<Edge>, pout: real, pedge: real, nstep: nat, ntrial: nat,
             edgeDraws: seq<seq<seq<real>>>, outDraws: seq<seq<seq<real>>>)
    returns (freq: array<real>)
    requires ntrial > 0 && |edgeDraws| == ntrial
    requires EdgesIn(edges, n) && AllDraws(n, edges, nstep, edgeDraws, outDraws)
    ensures freq.Length == n
    ensures forall j :: 0 <= j < n ==>
      freq[j] == Totals(n, edges, nstep, edgeDraws, outDraws, pedge, pout, ntrial)[j] as real / ntrial as real
    ensures forall j :: 0 <= j < n ==> 0.0 <= freq[j] <= 1.0
  {
    var statesum := Accumulate(n, edges, pout, pedge, nstep, edgeDraws, outDraws);
    TotalsBounded(n, edges, nstep, edgeDraws, outDraws, pedge, pout, ntrial);
    freq := new real[n];
    forall j | 0 <= j < n {
      freq[j] := statesum[j] as real / ntrial as real;
    }
    forall j | 0 <= j < n
      ensures 0.0 <= freq[j] <= 1.0
    {
      Fraction(statesum[j], ntrial);
    }
  }

  /** Lines 6-19: `statesum` summed over every trial. */
  method Accumulate(n: nat, edges: seq<Edge>, pout: real, pedge: real, nstep: nat,
                    edgeDraws: seq<seq<seq<real>>>, outDraws: seq<seq<seq<real>>>)
    returns (statesum: seq<int>)
    requires EdgesIn(edges, n) && AllDraws(n, edges, nstep, edgeDraws, outDraws)
    ensures statesum == Totals(n, edges, nstep, edgeDraws, outDraws, pedge, pout, |edgeDraws|)
  {
    var sums := new int[n](_ => 0);
    assert sums[..] == Totals(n, edges, nstep, edgeDraws, outDraws, pedge, pout, 0);
    for it := 0 to |edgeDraws|
      invariant sums[..] == Totals(n, edges, nstep, edgeDraws, outDraws, pedge, pout, it)
    {
      assert TrialDraws(n, edges, edgeDraws[it], outDraws[it]) && |edgeDraws[it]| == nstep;
      var state := Trial(n, edges, edgeDraws[it], outDraws[it], pedge, pout);
      var last := state[..];
      ghost var before := sums[..];
      AddInto(sums, last);
      TotalsNext(n, edges, nstep, edgeDraws, outDraws, pedge, pout, it, before, last, sums[..]);
    }
    statesum := sums[..];
  }

  /** Line 19: `statesum += state`. */
  method AddInto(sums: array<int>, last: seq<int>)
    requires sums.Length == |last|
    modifies sums
    ensures forall j :: 0 <= j < |last| ==> sums[j] == old(sums[j]) + last[j]
  {
    forall j | 0 <= j < |last| {
      sums[j] := sums[j] + last[j];
    }
  }

  /** One more trial adds its final states to the totals. */
  lemma TotalsNext(n: nat, edges: seq<Edge>, nstep: nat, edgeDraws: seq<seq<seq<real>>>,
                   outDraws: seq<seq<seq<real>>>, pedge: real, pout: real, t: nat,
                   before: seq<int>, last: seq<int>, after: seq<int>)
    requires EdgesIn(edges, n) && AllDraws(n, edges, nstep, edgeDraws, outDraws) && t < |edgeDraws|
    requires before == Totals(n, edges, nstep, edgeDraws, outDraws, pedge, pout, t)
    requires last == Run(n, edges, edgeDraws[t], outDraws[t], pedge, pout, nstep)
    requires |after| == n && forall j :: 0 <= j < n ==> after[j] == before[j] + last[j]
    ensures after == Totals(n, edges, nstep, edgeDraws, outDraws, pedge, pout, t + 1)
  {
  }

  lemma Fraction(x: int, t: nat)
    requires 0 <= x <= t && t > 0
    ensures 0.0 <= x as real / t as real <= 1.0
  {
  }
}
