/**
 * The five-state, day-stepped epidemic engine `sim` of scripts/coronalib.py
 * (lines 61-147). Each individual is in one of the states 0 (not infected),
 * 1 (immune), 2 (infected), 3 (identified, never assigned) or 4 (dead).
 * Day 0 seeds the infected; every later day copies the previous row of the
 * state matrix and applies, in order, background death, recovery after 27
 * days and new infections, then counts the states and, once the infected
 * count passes `cutdown`, rescales the contact vector `r` to mean `cutr`.
 *
 * The uniform draws of each day (`rans`), the seeding indices of
 * `np.random.choice` and the gamma CDF are inputs.
 */
module Engine {
  import opened Sums
  import opened DelayKernel

  const NotInfected: int := 0
  const Immune: int := 1
  const Infected: int := 2
  const Identified: int := 3
  const Dead: int := 4
  /** Number of states counted per day (`nstate`, `np.bincount(..., minlength=5)`). */
  const NState: nat := 5
  /** An infected individual is set to immune once more than 27 days have passed. */
  const RecoveryDays: int := 27
  /** Initial `firstdayinfected` of everyone not seeded. */
  const NeverInfected: int := 1000

  /** The states the engine ever assigns. */
  predicate IsState(s: int)
  {
    s == NotInfected || s == Immune || s == Infected || s == Dead
  }

  /** What one day does to one individual: the new state, the new
      `firstdayinfected`, and whether the individual was newly infected. */
  datatype Update = Update(state: int, first: int, infected: bool)

  /** One day for one individual. The same uniform draw `ran` decides the
      background death (`ran < dr`) and the infection (`ran < pinf`), as the
      vector `rans` is used for both. */
  function Advance(s: int, first: int, day: int, ran: real, dr: real, pinf: real): (u: Update)
    ensures IsState(s) ==> IsState(u.state)
    // death is absorbing, the draw below the mortality rate kills, and
    // nothing else does
    ensures s == Dead ==> u.state == Dead
    ensures ran < dr ==> u.state == Dead
    ensures u.state == Dead ==> s == Dead || ran < dr
    // no rule assigns state 0
    ensures u.state == NotInfected ==> s == NotInfected
    // only individuals still at 0 after death and recovery are infected
    ensures u.infected <==> s == NotInfected && dr <= ran < pinf && day - first <= RecoveryDays
    ensures u.infected ==> u.state == Infected && u.first == day
    ensures !u.infected ==> u.first == first
    ensures u.state == Infected && !u.infected ==> s == Infected && day - first <= RecoveryDays
    // recovery after more than 27 days, for everyone not dead
    ensures dr <= ran && s != Dead && day - first > RecoveryDays ==> u.state == Immune
    ensures u.state == Immune ==> s == Immune || day - first > RecoveryDays
  {
    var afterDeath := if ran < dr then Dead else s;
    var afterRecovery := if day - first > RecoveryDays && afterDeath != Dead then Immune else afterDeath;
    var infected := ran < pinf && afterRecovery == NotInfected;
    Update(if infected then Infected else afterRecovery, if infected then day else first, infected)
  }

  /** The whole population on one day. */
  function Updates(prev: seq<int>, first: seq<int>, day: int, rans: seq<real>, dr: seq<real>, pinf: seq<real>): (us: seq<Update>)
    requires |first| == |rans| == |dr| == |pinf| == |prev|
    ensures |us| == |prev|
    ensures forall j {:trigger us[j]} :: 0 <= j < |prev| ==> us[j] == Advance(prev[j], first[j], day, rans[j], dr[j], pinf[j])
  {
    seq(|prev|, j requires 0 <= j < |prev| => Advance(prev[j], first[j], day, rans[j], dr[j], pinf[j]))
  }

  function States(us: seq<Update>): (row: seq<int>)
    ensures |row| == |us| && forall j :: 0 <= j < |us| ==> row[j] == us[j].state
  {
    seq(|us|, j requires 0 <= j < |us| => us[j].state)
  }

  function Firsts(us: seq<Update>): (first: seq<int>)
    ensures |first| == |us| && forall j :: 0 <= j < |us| ==> first[j] == us[j].first
  {
    seq(|us|, j requires 0 <= j < |us| => us[j].first)
  }

  /** `np.sum(filt)`: the number of new infections. */
  function CountInfected(us: seq<Update>): (c: nat)
    ensures c <= |us|
  {
    if |us| == 0 then 0 else CountInfected(us[..|us| - 1]) + (if us[|us| - 1].infected then 1 else 0)
  }

  /** How many entries of a row hold state v (one bin of `np.bincount`). */
  function Count(row: seq<int>, v: int): (c: nat)
    ensures c <= |row|
  {
    if |row| == 0 then 0 else Count(row[..|row| - 1], v) + (if row[|row| - 1] == v then 1 else 0)
  }

  /** How many individuals went from state a to state b between two rows. */
  function Transitions(prev: seq<int>, next: seq<int>, a: int, b: int): (c: nat)
    requires |prev| == |next|
    ensures c <= Count(prev, a)
  {
    if |prev| == 0 then 0
    else
      var k := |prev| - 1;
      Transitions(prev[..k], next[..k], a, b) + (if prev[k] == a && next[k] == b then 1 else 0)
  }

  /** The sum of one column of `statesum`. */
  function ColumnTotal(row: seq<int>): int
  {
    Count(row, NotInfected) + Count(row, Immune) + Count(row, Infected) + Count(row, Identified) + Count(row, Dead)
  }

  /** Mass conservation: every individual is in exactly one counted state,
      and the state 3 is never counted. */
  lemma {:induction false} CountsPartition(row: seq<int>)
    requires forall j :: 0 <= j < |row| ==> IsState(row[j])
    ensures ColumnTotal(row) == |row|
    ensures Count(row, Identified) == 0
  {
    if |row| > 0 {
      CountsPartition(row[..|row| - 1]);
    }
  }

  /** The count of new infections is the number of 0 -> 2 transitions. */
  lemma {:induction false} InfectionsAreTransitions(prev: seq<int>, us: seq<Update>)
    requires |prev| == |us|
    requires forall j :: 0 <= j < |us| ==>
      (us[j].infected <==> prev[j] == NotInfected && us[j].state == Infected)
    ensures CountInfected(us) == Transitions(prev, States(us), NotInfected, Infected)
  {
    if |us| > 0 {
      var k := |us| - 1;
      assert States(us)[..k] == States(us[..k]);
      InfectionsAreTransitions(prev[..k], us[..k]);
    }
  }

  // ---------------------------------------------------------------- day 0

  /** `state[0, np.random.choice(n, ni)] = 2`, one seed index after the other. */
  function Seeded(n: nat, seeds: seq<int>): (row: seq<int>)
    requires forall k :: 0 <= k < |seeds| ==> 0 <= seeds[k] < n
    ensures |row| == n
    ensures forall j :: 0 <= j < n ==> row[j] == if j in seeds then Infected else NotInfected
  {
    if |seeds| == 0 then seq(n, j => NotInfected)
    else
      var init := seeds[..|seeds| - 1];
      assert forall j :: j in seeds <==> j in init || j == seeds[|seeds| - 1];
      Seeded(n, init)[seeds[|seeds| - 1] := Infected]
  }

  /** `firstdayinfected` after seeding: 0 for the infected, the sentinel 1000 otherwise. */
  function SeedFirst(row: seq<int>): (first: seq<int>)
    ensures |first| == |row|
    ensures forall j :: 0 <= j < |row| ==> first[j] == if row[j] == Infected then 0 else NeverInfected
  {
    seq(|row|, j requires 0 <= j < |row| => if row[j] == Infected then 0 else NeverInfected)
  }

  lemma {:induction false} CountAfterSet(row: seq<int>, p: nat, v: int)
    requires p < |row|
    ensures Count(row[p := v], v) <= Count(row, v) + 1
  {
    var k := |row| - 1;
    if p < k {
      assert row[p := v][..k] == row[..k][p := v];
      CountAfterSet(row[..k], p, v);
    } else {
      assert row[p := v][..k] == row[..k];
    }
  }

  /** Seeding samples with replacement, so at most `ni` individuals start infected. */
  lemma {:induction false} SeededCount(n: nat, seeds: seq<int>)
    requires forall k :: 0 <= k < |seeds| ==> 0 <= seeds[k] < n
    ensures Count(Seeded(n, seeds), Infected) <= |seeds|
  {
    if |seeds| == 0 {
      var row := Seeded(n, seeds);
      assert forall j :: 0 <= j < n ==> row[j] == NotInfected;
      ZeroCount(row, Infected);
    } else {
      var init := seeds[..|seeds| - 1];
      SeededCount(n, init);
      CountAfterSet(Seeded(n, init), seeds[|seeds| - 1], Infected);
    }
  }

  lemma {:induction false} ZeroCount(row: seq<int>, v: int)
    requires forall j :: 0 <= j < |row| ==> row[j] != v
    ensures Count(row, v) == 0
  {
    if |row| > 0 {
      ZeroCount(row[..|row| - 1], v);
    }
  }

  // ------------------------------------------------------- contact policy

  /** `r / np.mean(r) * cutr`. */
  function Rescale(r: seq<real>, cutr: real): (r': seq<real>)
    requires |r| > 0 && Sum(r) != 0.0
    ensures |r'| == |r|
  {
    MeanNonZero(r);
    DivTimes(r, Mean(r), cutr)
  }

  lemma OverMean(s: real, n: real, c: real)
    requires s != 0.0 && n > 0.0
    ensures s / (s / n) * c == n * c
    ensures (n * c) / n == c
  {
    var m := s / n;
    assert m * n == s;
    assert s / m == n;
  }

  /** After the rescale the contact vector has mean `cutr`. */
  lemma RescaleMean(r: seq<real>, cutr: real)
    requires |r| > 0 && Sum(r) != 0.0
    ensures Sum(Rescale(r, cutr)) == (|r| as real) * cutr
    ensures Mean(Rescale(r, cutr)) == cutr
  {
    MeanNonZero(r);
    SumDivTimes(r, Mean(r), cutr);
    OverMean(Sum(r), |r| as real, cutr);
  }

  /** A non-zero target mean keeps the sum non-zero, so the policy can be
      applied again on a later day. */
  lemma RescaleSumNonZero(r: seq<real>, cutr: real)
    requires |r| > 0 && Sum(r) != 0.0 && cutr != 0.0
    ensures Sum(Rescale(r, cutr)) != 0.0
  {
    RescaleMean(r, cutr);
    var n := |r| as real;
    if cutr > 0.0 {
      assert n * cutr > 0.0;
    } else {
      assert n * (-cutr) > 0.0;
    }
  }

  /** Rescaling an already rescaled vector changes nothing, so repeating
      the policy on later days keeps the same contact vector. */
  lemma RescaleIdempotent(r: seq<real>, cutr: real)
    requires |r| > 0 && Sum(r) != 0.0 && cutr != 0.0
    ensures Sum(Rescale(r, cutr)) != 0.0
    ensures Rescale(Rescale(r, cutr), cutr) == Rescale(r, cutr)
  {
    var r' := Rescale(r, cutr);
    RescaleMean(r, cutr);
    forall j | 0 <= j < |r| ensures Rescale(r', cutr)[j] == r'[j] {
      assert r'[j] / cutr * cutr == r'[j];
    }
  }

  /** `pinf = r * newinf / n`. */
  function InfectionProbabilities(r: seq<real>, newinf: real, n: nat): (pinf: seq<real>)
    requires n > 0
    ensures |pinf| == |r|
  {
    seq(|r|, j requires 0 <= j < |r| => r[j] * newinf / (n as real))
  }

  /** Non-negative contacts and a non-negative expected number of new
      infections give non-negative infection probabilities. */
  lemma ProbabilitiesNonNegative(r: seq<real>, newinf: real, n: nat)
    requires n > 0 && newinf >= 0.0
    requires forall j :: 0 <= j < |r| ==> r[j] >= 0.0
    ensures forall j :: 0 <= j < |r| ==> InfectionProbabilities(r, newinf, n)[j] >= 0.0
  {
    forall j | 0 <= j < |r|
      ensures r[j] * newinf / (n as real) >= 0.0
    {
      assert r[j] * newinf >= 0.0;
    }
  }

  /** Over the whole population (n == |r|) the infection probabilities add
      up to mean(r) times the expected new infections: `newinf` is spread in
      proportion to the contact vector. */
  lemma ExpectedInfections(r: seq<real>, newinf: real)
    requires |r| > 0
    ensures Sum(InfectionProbabilities(r, newinf, |r|)) == Mean(r) * newinf
  {
    var n := |r| as real;
    var pinf := InfectionProbabilities(r, newinf, |r|);
    forall j | 0 <= j < |r| ensures pinf[j] == DivTimes(r, n, newinf)[j] {
      Reorder(r[j], newinf, n);
    }
    assert pinf == DivTimes(r, n, newinf);
    SumDivTimes(r, n, newinf);
  }

  lemma Reorder(a: real, c: real, n: real)
    requires n != 0.0
    ensures a * c / n == a / n * c
  {
  }

  // ----------------------------------------------------- the whole run

  /** The inputs of `sim`: the daily mortality rates `dr` (their length is
      the population size n), the contact vector `r`, the CDF samples at
      days 0..28, the seeding indices, one vector of draws per day from day
      1 on, and the policy parameters. */
  datatype Config = Config(
    dr: seq<real>, r: seq<real>, y: seq<real>, seeds: seq<int>,
    rans: seq<seq<real>>, nday: nat, cutdown: real, cutr: real)
  {
    function N(): nat { |dr| }

    predicate Valid()
    {
      && |dr| > 0 && |r| == |dr|
      && |y| == Window + 1
      && nday >= 1
      && (forall k :: 0 <= k < |seeds| ==> 0 <= seeds[k] < |dr|)
      && |rans| == nday - 1
      && (forall k :: 0 <= k < |rans| ==> |rans[k]| == |dr|)
      && Sum(r) != 0.0 && cutr != 0.0
    }
  }

  /** The `r` in force on the day after a day whose rows are `row`. */
  function NextR(c: Config, r: seq<real>, row: seq<int>): (r': seq<real>)
    requires |r| > 0 && Sum(r) != 0.0
    ensures |r'| == |r|
    ensures Count(row, Infected) as real > c.cutdown ==> Mean(r') == c.cutr
    ensures Count(row, Infected) as real <= c.cutdown ==> r' == r
  {
    if Count(row, Infected) as real > c.cutdown then RescaleMean(r, c.cutr); Rescale(r, c.cutr) else r
  }

  /** Day i of a run: `row`, `first` and `count` are the state row, the
      `firstdayinfected` vector and the infection count of day i, computed
      from the day before (`prevRow`, `prevFirst`) and the infection counts
      of days 0..i-1 (`past`); `r` is the contact vector used on day i,
      `prevR` the one used on day i - 1. */
  predicate DayFollows(c: Config, i: nat, prevRow: seq<int>, prevFirst: seq<int>, prevR: seq<real>,
                       past: seq<int>, row: seq<int>, first: seq<int>, count: int, r: seq<real>)
    requires c.Valid() && 1 <= i < c.nday && |past| == i
    requires |prevRow| == |prevFirst| == |prevR| == |r| == c.N() && Sum(prevR) != 0.0
  {
    && r == (if i == 1 then prevR else NextR(c, prevR, prevRow))
    && var us := Updates(prevRow, prevFirst, i, c.rans[i - 1], c.dr,
                         InfectionProbabilities(r, NewInfections(past, i, SimKernel(c.y)), c.N()));
       && row == States(us)
       && first == Firsts(us)
       && count == CountInfected(us)
  }

  /** The lengths a run of |rows| days has on the inputs `c`. */
  ghost predicate Shaped(c: Config, rows: seq<seq<int>>, firsts: seq<seq<int>>,
                         infections: seq<int>, rs: seq<seq<real>>)
  {
    && c.Valid()
    && 1 <= |rows| <= c.nday
    && |firsts| == |infections| == |rs| == |rows|
    && (forall k :: 0 <= k < |rows| ==> |rows[k]| == |firsts[k]| == |rs[k]| == c.N())
    && (forall k :: 0 <= k < |rs| ==> Sum(rs[k]) != 0.0)
  }

  /** Day i of the run follows from the days before it. */
  ghost predicate DayOK(c: Config, rows: seq<seq<int>>, firsts: seq<seq<int>>,
                        infections: seq<int>, rs: seq<seq<real>>, i: nat)
    requires Shaped(c, rows, firsts, infections, rs) && 1 <= i < |rows|
  {
    DayFollows(c, i, rows[i - 1], firsts[i - 1], rs[i - 1], infections[..i],
               rows[i], firsts[i], infections[i], rs[i])
  }

  /** The first |rows| days of `sim` on the inputs `c`. */
  ghost predicate IsRun(c: Config, rows: seq<seq<int>>, firsts: seq<seq<int>>,
                        infections: seq<int>, rs: seq<seq<real>>)
  {
    && Shaped(c, rows, firsts, infections, rs)
    && rows[0] == Seeded(c.N(), c.seeds)
    && firsts[0] == SeedFirst(rows[0])
    && infections[0] == Count(rows[0], Infected)
    && rs[0] == c.r
    && forall i :: 1 <= i < |rows| ==> DayOK(c, rows, firsts, infections, rs, i)
  }

  /** What holds of every individual on day k of a run: the state is one of
      0, 1, 2, 4; an infected individual was infected at most 27 days ago;
      an immune one more than 27 days ago. */
  lemma {:induction false} RunInvariant(c: Config, rows: seq<seq<int>>, firsts: seq<seq<int>>,
                                        infections: seq<int>, rs: seq<seq<real>>, k: nat)
    requires IsRun(c, rows, firsts, infections, rs)
    requires k < |rows|
    ensures forall j :: 0 <= j < c.N() ==> IsState(rows[k][j])
    ensures forall j :: 0 <= j < c.N() && rows[k][j] == Infected ==>
      firsts[k][j] <= k && k - firsts[k][j] <= RecoveryDays
    ensures forall j :: 0 <= j < c.N() && rows[k][j] == Immune ==> k - firsts[k][j] > RecoveryDays
  {
    if k > 0 {
      RunInvariant(c, rows, firsts, infections, rs, k - 1);
      assert DayOK(c, rows, firsts, infections, rs, k);
    }
  }

  /** The properties of a run that the source promises for every day:
      death is absorbing, state 0 is never re-entered, the day's infection
      count is the number of 0 -> 2 transitions and never exceeds the
      previous day's susceptibles, the newly infected are stamped with the
      day, and at most `ni` individuals are seeded. */
  lemma RunProperties(c: Config, rows: seq<seq<int>>, firsts: seq<seq<int>>,
                      infections: seq<int>, rs: seq<seq<real>>)
    requires IsRun(c, rows, firsts, infections, rs)
    ensures forall k, j :: 0 <= k < |rows| && 0 <= j < c.N() ==> IsState(rows[k][j])
    ensures forall k :: 0 <= k < |rows| ==> ColumnTotal(rows[k]) == c.N() && Count(rows[k], Identified) == 0
    ensures forall k, j {:trigger rows[k][j]} :: 1 <= k < |rows| && 0 <= j < c.N() && rows[k - 1][j] == Dead ==>
      rows[k][j] == Dead
    ensures forall k, j {:trigger rows[k][j]} :: 1 <= k < |rows| && 0 <= j < c.N() && rows[k][j] == NotInfected ==>
      rows[k - 1][j] == NotInfected
    ensures forall k, j {:trigger rows[k][j]} :: 1 <= k < |rows| && 0 <= j < c.N() &&
                                                 rows[k - 1][j] == NotInfected && rows[k][j] == Infected ==>
      firsts[k][j] == k
    ensures forall k :: 1 <= k < |rows| ==>
      infections[k] == Transitions(rows[k - 1], rows[k], NotInfected, Infected) <= Count(rows[k - 1], NotInfected)
    ensures forall k, j {:trigger rows[k][j]} :: 1 <= k < |rows| && 0 <= j < c.N() ==>
      (rows[k][j] == Dead <==> rows[k - 1][j] == Dead || c.rans[k - 1][j] < c.dr[j])
    ensures infections[0] <= |c.seeds|
    ensures forall k, j ::
              0 <= k < |rows| && 0 <= j < c.N() && k <= NeverInfected + RecoveryDays && firsts[k][j] == NeverInfected
              ==> rows[k][j] != Immune
  {
    RunStates(c, rows, firsts, infections, rs);
    RunTransitions(c, rows, firsts, infections, rs);
    RunDeaths(c, rows, firsts, infections, rs);
    SeededCount(c.N(), c.seeds);
  }

  /** The per-day part of `RunProperties`. */
  lemma RunStates(c: Config, rows: seq<seq<int>>, firsts: seq<seq<int>>,
                  infections: seq<int>, rs: seq<seq<real>>)
    requires IsRun(c, rows, firsts, infections, rs)
    ensures forall k, j :: 0 <= k < |rows| && 0 <= j < c.N() ==> IsState(rows[k][j])
    ensures forall k :: 0 <= k < |rows| ==> ColumnTotal(rows[k]) == c.N() && Count(rows[k], Identified) == 0
    ensures forall k, j ::
              0 <= k < |rows| && 0 <= j < c.N() && k <= NeverInfected + RecoveryDays && firsts[k][j] == NeverInfected
              ==> rows[k][j] != Immune
  {
    forall k | 0 <= k < |rows|
      ensures forall j :: 0 <= j < c.N() ==> IsState(rows[k][j])
      ensures ColumnTotal(rows[k]) == c.N() && Count(rows[k], Identified) == 0
      ensures forall j :: 0 <= j < c.N() && k <= NeverInfected + RecoveryDays && firsts[k][j] == NeverInfected ==>
        rows[k][j] != Immune
    {
      RunInvariant(c, rows, firsts, infections, rs, k);
      CountsPartition(rows[k]);
    }
  }

  /** The day-to-day part of `RunProperties`. */
  lemma RunTransitions(c: Config, rows: seq<seq<int>>, firsts: seq<seq<int>>,
                       infections: seq<int>, rs: seq<seq<real>>)
    requires IsRun(c, rows, firsts, infections, rs)
    ensures forall k, j {:trigger rows[k][j]} :: 1 <= k < |rows| && 0 <= j < c.N() && rows[k - 1][j] == Dead ==>
      rows[k][j] == Dead
    ensures forall k, j {:trigger rows[k][j]} :: 1 <= k < |rows| && 0 <= j < c.N() && rows[k][j] == NotInfected ==>
      rows[k - 1][j] == NotInfected
    ensures forall k, j {:trigger rows[k][j]} :: 1 <= k < |rows| && 0 <= j < c.N() &&
                                                 rows[k - 1][j] == NotInfected && rows[k][j] == Infected ==>
      firsts[k][j] == k
    ensures forall k :: 1 <= k < |rows| ==>
      infections[k] == Transitions(rows[k - 1], rows[k], NotInfected, Infected) <= Count(rows[k - 1], NotInfected)
  {
    forall k | 1 <= k < |rows|
      ensures forall j :: 0 <= j < c.N() && rows[k - 1][j] == Dead ==> rows[k][j] == Dead
      ensures forall j :: 0 <= j < c.N() && rows[k][j] == NotInfected ==> rows[k - 1][j] == NotInfected
      ensures forall j :: 0 <= j < c.N() && rows[k - 1][j] == NotInfected && rows[k][j] == Infected ==>
        firsts[k][j] == k
      ensures infections[k] == Transitions(rows[k - 1], rows[k], NotInfected, Infected)
    {
      assert DayOK(c, rows, firsts, infections, rs, k);
      var newinf := NewInfections(infections[..k], k, SimKernel(c.y));
      var us := Updates(rows[k - 1], firsts[k - 1], k, c.rans[k - 1], c.dr,
                        InfectionProbabilities(rs[k], newinf, c.N()));
      InfectionsAreTransitions(rows[k - 1], us);
    }
  }

  /** Who dies on day k: exactly the individuals already dead and those
      whose draw of day k falls below their mortality rate. */
  lemma RunDeaths(c: Config, rows: seq<seq<int>>, firsts: seq<seq<int>>,
                  infections: seq<int>, rs: seq<seq<real>>)
    requires IsRun(c, rows, firsts, infections, rs)
    ensures forall k, j {:trigger rows[k][j]} :: 1 <= k < |rows| && 0 <= j < c.N() ==>
      (rows[k][j] == Dead <==> rows[k - 1][j] == Dead || c.rans[k - 1][j] < c.dr[j])
  {
    forall k | 1 <= k < |rows|
      ensures forall j :: 0 <= j < c.N() ==>
        (rows[k][j] == Dead <==> rows[k - 1][j] == Dead || c.rans[k - 1][j] < c.dr[j])
    {
      assert DayOK(c, rows, firsts, infections, rs, k);
    }
  }

  /** Once the infected count of day k - 1 exceeds `cutdown`, the contact
      vector of day k is `r / mean(r) * cutr`, and every later day keeps
      that same vector: a further rescale changes nothing and no rule
      restores the old `r`. */
  lemma {:induction false} PolicySticks(c: Config, rows: seq<seq<int>>, firsts: seq<seq<int>>,
                                        infections: seq<int>, rs: seq<seq<real>>, k: nat, k': nat)
    requires IsRun(c, rows, firsts, infections, rs)
    requires 2 <= k <= k' < |rows|
    requires Count(rows[k - 1], Infected) as real > c.cutdown
    ensures rs[k'] == Rescale(rs[k - 1], c.cutr)
    decreases k'
  {
    assert DayOK(c, rows, firsts, infections, rs, k');
    if k' > k {
      PolicySticks(c, rows, firsts, infections, rs, k, k' - 1);
      RescaleIdempotent(rs[k - 1], c.cutr);
    }
  }

  /** Appending a day keeps the days already in the run. */
  lemma EarlierDaysKept(c: Config, rows: seq<seq<int>>, firsts: seq<seq<int>>, infections: seq<int>,
                        rs: seq<seq<real>>, row: seq<int>, first: seq<int>, count: int, r: seq<real>)
    requires IsRun(c, rows, firsts, infections, rs) && |rows| < c.nday
    requires |row| == |first| == |r| == c.N() && Sum(r) != 0.0
    ensures Shaped(c, rows + [row], firsts + [first], infections + [count], rs + [r])
    ensures forall k :: 1 <= k < |rows| ==>
      DayOK(c, rows + [row], firsts + [first], infections + [count], rs + [r], k)
  {
    var rows', firsts', infections', rs' := rows + [row], firsts + [first], infections + [count], rs + [r];
    ShapedExtend(c, rows, firsts, infections, rs, row, first, count, r);
    forall k | 1 <= k < |rows|
      ensures DayOK(c, rows', firsts', infections', rs', k)
    {
      assert DayOK(c, rows, firsts, infections, rs, k);
      assert infections'[..k] == infections[..k] && infections'[k] == infections[k];
      assert rows'[k - 1] == rows[k - 1] && rows'[k] == rows[k];
      assert firsts'[k - 1] == firsts[k - 1] && firsts'[k] == firsts[k];
      assert rs'[k - 1] == rs[k - 1] && rs'[k] == rs[k];
    }
  }

  lemma ShapedExtend(c: Config, rows: seq<seq<int>>, firsts: seq<seq<int>>, infections: seq<int>,
                     rs: seq<seq<real>>, row: seq<int>, first: seq<int>, count: int, r: seq<real>)
    requires Shaped(c, rows, firsts, infections, rs) && |rows| < c.nday
    requires |row| == |first| == |r| == c.N() && Sum(r) != 0.0
    ensures Shaped(c, rows + [row], firsts + [first], infections + [count], rs + [r])
  {
    var rows', firsts', rs' := rows + [row], firsts + [first], rs + [r];
    forall k | 0 <= k < |rows'|
      ensures |rows'[k]| == |firsts'[k]| == |rs'[k]| == c.N() && Sum(rs'[k]) != 0.0
    {
      if k < |rows| {
        assert rows'[k] == rows[k] && firsts'[k] == firsts[k] && rs'[k] == rs[k];
      }
    }
  }

  /** Extending a run by one day that follows from the days before. */
  lemma IsRunExtend(c: Config, rows: seq<seq<int>>, firsts: seq<seq<int>>, infections: seq<int>,
                    rs: seq<seq<real>>, row: seq<int>, first: seq<int>, count: int, r: seq<real>)
    requires IsRun(c, rows, firsts, infections, rs) && |rows| < c.nday
    requires |row| == |first| == |r| == c.N() && Sum(r) != 0.0
    requires var i := |rows|;
      DayFollows(c, i, rows[i - 1], firsts[i - 1], rs[i - 1], infections, row, first, count, r)
    ensures IsRun(c, rows + [row], firsts + [first], infections + [count], rs + [r])
  {
    var i := |rows|;
    var rows', firsts', infections', rs' := rows + [row], firsts + [first], infections + [count], rs + [r];
    EarlierDaysKept(c, rows, firsts, infections, rs, row, first, count, r);
    assert infections'[..i] == infections;
    assert DayOK(c, rows', firsts', infections', rs', i);
  }

  // ------------------------------------------------- the imperative engine

  /** Row i of a matrix, as a sequence. */
  function Row(m: array2<int>, i: nat): (row: seq<int>)
    requires i < m.Length0
    reads m
    ensures |row| == m.Length1 && forall j :: 0 <= j < m.Length1 ==> row[j] == m[i, j]
  {
    seq(m.Length1, j requires 0 <= j < m.Length1 reads m => m[i, j])
  }

  lemma RowIs(m: array2<int>, k: nat, row: seq<int>)
    requires k < m.Length0 && |row| == m.Length1
    requires forall j :: 0 <= j < m.Length1 ==> m[k, j] == row[j]
    ensures Row(m, k) == row
  {
  }

  /** Day i (lines 111-138): row i starts as a copy of row i - 1 and every
      individual then goes through death, recovery and infection; the
      vectorised masks act on each individual independently, so they are
      applied here one individual at a time. Returns `np.sum(filt)`. */
  method StepDay(state: array2<int>, first: array<int>, i: nat, rans: seq<real>, dr: seq<real>, pinf: seq<real>)
    returns (count: nat)
    requires 1 <= i < state.Length0
    requires state.Length1 == first.Length == |rans| == |dr| == |pinf|
    modifies state, first
    ensures var us := Updates(old(Row(state, i - 1)), old(first[..]), i, rans, dr, pinf);
      Row(state, i) == States(us) && first[..] == Firsts(us) && count == CountInfected(us)
    ensures forall k, j :: 0 <= k < state.Length0 && k != i && 0 <= j < state.Length1 ==>
      state[k, j] == old(state[k, j])
  {
    var prev := Row(state, i - 1);
    count := WriteStates(state, i, prev, first[..], rans, dr, pinf);
    WriteFirsts(first, i, prev, rans, dr, pinf);
  }

  /** Row i of the state matrix after the day's transitions, and the number
      of new infections. */
  method WriteStates(state: array2<int>, i: nat, prev: seq<int>, first: seq<int>,
                     rans: seq<real>, dr: seq<real>, pinf: seq<real>)
    returns (count: nat)
    requires i < state.Length0
    requires state.Length1 == |prev| == |first| == |rans| == |dr| == |pinf|
    modifies state
    ensures var us := Updates(prev, first, i, rans, dr, pinf);
      Row(state, i) == States(us) && count == CountInfected(us)
    ensures forall k, j :: 0 <= k < state.Length0 && k != i && 0 <= j < state.Length1 ==>
      state[k, j] == old(state[k, j])
  {
    ghost var us := Updates(prev, first, i, rans, dr, pinf);
    count := 0;
    for j := 0 to state.Length1
      invariant count == CountInfected(us[..j])
      invariant forall jj :: 0 <= jj < j ==> state[i, jj] == us[jj].state
      invariant forall k, jj :: 0 <= k < state.Length0 && k != i && 0 <= jj < state.Length1 ==>
        state[k, jj] == old(state[k, jj])
    {
      var u := Advance(prev[j], first[j], i, rans[j], dr[j], pinf[j]);
      state[i, j] := u.state;
      if u.infected {
        count := count + 1;
      }
      assert us[..j + 1][..j] == us[..j];
    }
    assert us[..state.Length1] == us;
    assert Row(state, i) == States(us);
  }

  /** `firstdayinfected` after day i: the newly infected are stamped with i. */
  method WriteFirsts(first: array<int>, i: nat, prev: seq<int>, rans: seq<real>, dr: seq<real>, pinf: seq<real>)
    requires first.Length == |prev| == |rans| == |dr| == |pinf|
    modifies first
    ensures first[..] == Firsts(Updates(prev, old(first[..]), i, rans, dr, pinf))
  {
    ghost var us := Updates(prev, first[..], i, rans, dr, pinf);
    for j := 0 to first.Length
      invariant forall jj :: 0 <= jj < j ==> first[jj] == us[jj].first
      invariant forall jj :: j <= jj < first.Length ==> first[jj] == old(first[jj])
    {
      first[j] := Advance(prev[j], first[j], i, rans[j], dr[j], pinf[j]).first;
    }
    assert first[..] == Firsts(us);
  }

  /** `statesum[:, i] = np.bincount(state[i, :], minlength=nstate)`. */
  method Tally(state: array2<int>, statesum: array2<int>, i: nat)
    requires i < state.Length0 && statesum.Length0 == NState && i < statesum.Length1 && state != statesum
    requires forall j :: 0 <= j < state.Length1 ==> 0 <= state[i, j] < NState
    modifies statesum
    ensures forall v :: 0 <= v < NState ==> statesum[v, i] == Count(Row(state, i), v)
    ensures forall v, k :: 0 <= v < NState && 0 <= k < statesum.Length1 && k != i ==>
      statesum[v, k] == old(statesum[v, k])
  {
    for v := 0 to NState
      invariant forall w :: 0 <= w < v ==> statesum[w, i] == 0
      invariant forall w, k :: 0 <= w < NState && 0 <= k < statesum.Length1 && k != i ==>
        statesum[w, k] == old(statesum[w, k])
    {
      statesum[v, i] := 0;
    }
    ghost var row := Row(state, i);
    for j := 0 to state.Length1
      invariant forall v :: 0 <= v < NState ==> statesum[v, i] == Count(row[..j], v)
      invariant forall w, k :: 0 <= w < NState && 0 <= k < statesum.Length1 && k != i ==>
        statesum[w, k] == old(statesum[w, k])
    {
      assert row[..j + 1][..j] == row[..j];
      statesum[state[i, j], i] := statesum[state[i, j], i] + 1;
    }
    assert row[..state.Length1] == row;
  }

  /** Day 0 (lines 90-92): `state[0, np.random.choice(n, ni)] = 2` on a
      matrix of zeros. */
  method SeedInfected(state: array2<int>, seeds: seq<int>)
    requires state.Length0 >= 1
    requires forall k :: 0 <= k < |seeds| ==> 0 <= seeds[k] < state.Length1
    requires forall i, j :: 0 <= i < state.Length0 && 0 <= j < state.Length1 ==> state[i, j] == NotInfected
    modifies state
    ensures Row(state, 0) == Seeded(state.Length1, seeds)
  {
    for k := 0 to |seeds|
      invariant forall j :: 0 <= j < state.Length1 ==> state[0, j] == Seeded(state.Length1, seeds[..k])[j]
    {
      assert seeds[..k + 1][..k] == seeds[..k];
      state[0, seeds[k]] := Infected;
    }
    assert seeds[..|seeds|] == seeds;
  }

  /** Lines 108-109: `firstdayinfected` is 1000 everywhere, then 0 for the
      individuals infected on day 0. */
  method InitialFirstDays(state: array2<int>) returns (first: array<int>)
    requires state.Length0 >= 1
    ensures fresh(first)
    ensures first[..] == SeedFirst(Row(state, 0))
  {
    first := new int[state.Length1](_ => NeverInfected);
    for j := 0 to state.Length1
      invariant forall jj :: 0 <= jj < j ==> first[jj] == SeedFirst(Row(state, 0))[jj]
      invariant forall jj :: j <= jj < state.Length1 ==> first[jj] == NeverInfected
    {
      if state[0, j] == Infected {
        first[j] := 0;
      }
    }
  }

  /** What the engine's arrays hold after days 0..i-1: the rows of the state
      matrix, the infection numbers of a run of i days and `first` as on
      day i - 1; the first `tallied` columns of the counts. */
  ghost predicate Holds(c: Config, state: array2<int>, statesum: array2<int>, infections: array<int>,
                        first: array<int>, rows: seq<seq<int>>, firsts: seq<seq<int>>,
                        rs: seq<seq<real>>, i: nat, tallied: nat)
    reads state, statesum, infections, first
  {
    && c.Valid()
    && state.Length0 == c.nday && state.Length1 == c.N()
    && statesum.Length0 == NState && statesum.Length1 == c.nday
    && infections.Length == c.nday && first.Length == c.N()
    && state != statesum && first != infections
    && 1 <= i <= c.nday && |rows| == i && tallied <= i
    && IsRun(c, rows, firsts, infections[..i], rs)
    && first[..] == firsts[i - 1]
    && (forall k, j :: 0 <= k < i && 0 <= j < c.N() ==> state[k, j] == rows[k][j])
    && (forall v, k :: 0 <= v < NState && 0 <= k < tallied ==> statesum[v, k] == Count(rows[k], v))
  }

  /** The engine's arrays after days 0..i-1, all counted, with `r` as it
      will be used on day i. */
  ghost predicate Mirrors(c: Config, state: array2<int>, statesum: array2<int>, infections: array<int>,
                          first: array<int>, r: seq<real>, rows: seq<seq<int>>, firsts: seq<seq<int>>,
                          rs: seq<seq<real>>, i: nat)
    reads state, statesum, infections, first
  {
    && Holds(c, state, statesum, infections, first, rows, firsts, rs, i, i)
    && r == (if i == 1 then c.r else NextR(c, rs[i - 1], rows[i - 1]))
    && |r| == c.N() && Sum(r) != 0.0
  }

  /** One pass of the loop of lines 111-145: day i of the run. */
  method RunDay(c: Config, state: array2<int>, statesum: array2<int>, infections: array<int>,
                first: array<int>, r: seq<real>, ghost rows: seq<seq<int>>, ghost firsts: seq<seq<int>>,
                ghost rs: seq<seq<real>>, i: nat)
    returns (r': seq<real>, ghost rows': seq<seq<int>>, ghost firsts': seq<seq<int>>, ghost rs': seq<seq<real>>)
    requires Mirrors(c, state, statesum, infections, first, r, rows, firsts, rs, i) && i < c.nday
    modifies state, statesum, infections, first
    ensures Mirrors(c, state, statesum, infections, first, r', rows', firsts', rs', i + 1)
  {
    rows', firsts', rs' := Transmit(c, state, statesum, infections, first, r, rows, firsts, rs, i);
    CountDay(c, state, statesum, infections, first, rows', firsts', rs', i);
    r' := r;
    if statesum[Infected, i] as real > c.cutdown {
      RescaleSumNonZero(r, c.cutr);
      r' := Rescale(r, c.cutr);
    }
  }

  /** Lines 116-138 of day i: the new infections, the transitions of every
      individual and the day's infection count. */
  method Transmit(c: Config, state: array2<int>, statesum: array2<int>, infections: array<int>,
                  first: array<int>, r: seq<real>, ghost rows: seq<seq<int>>, ghost firsts: seq<seq<int>>,
                  ghost rs: seq<seq<real>>, i: nat)
    returns (ghost rows': seq<seq<int>>, ghost firsts': seq<seq<int>>, ghost rs': seq<seq<real>>)
    requires Mirrors(c, state, statesum, infections, first, r, rows, firsts, rs, i) && i < c.nday
    modifies state, infections, first
    ensures Holds(c, state, statesum, infections, first, rows', firsts', rs', i + 1, i)
    ensures rs' == rs + [r]
  {
    var n := c.N();
    ghost var prefix, prevRow, prevFirst := infections[..i], rows[i - 1], firsts[i - 1];
    assert r == (if i == 1 then rs[i - 1] else NextR(c, rs[i - 1], prevRow));
    RowIs(state, i - 1, prevRow);
    var count := AdvanceDay(c, state, first, i, infections[..i], rs[i - 1], r);
    infections[i] := count;
    assert infections[..i + 1] == prefix + [count];
    ghost var row := Row(state, i);
    forall k, j | 0 <= k < i && 0 <= j < n
      ensures state[k, j] == rows[k][j]
    {
    }
    IsRunExtend(c, rows, firsts, prefix, rs, row, first[..], count, r);
    rows', firsts', rs' := rows + [row], firsts + [first[..]], rs + [r];
    HoldsExtend(c, state, statesum, infections, first, rows, firsts', rs', row, i);
  }

  /** `Holds` for the arrays after day i is written, from the run extended
      by that day and the rows the arrays kept. */
  lemma HoldsExtend(c: Config, state: array2<int>, statesum: array2<int>, infections: array<int>,
                    first: array<int>, rows: seq<seq<int>>, firsts: seq<seq<int>>, rs: seq<seq<real>>,
                    row: seq<int>, i: nat)
    requires c.Valid()
    requires state.Length0 == c.nday && state.Length1 == c.N()
    requires statesum.Length0 == NState && statesum.Length1 == c.nday
    requires infections.Length == c.nday && first.Length == c.N()
    requires state != statesum && first != infections
    requires 1 <= i < c.nday && |rows| == i
    requires forall k :: 0 <= k < i ==> |rows[k]| == c.N()
    requires IsRun(c, rows + [row], firsts, infections[..i + 1], rs)
    requires first[..] == firsts[i]
    requires forall k, j :: 0 <= k < i && 0 <= j < c.N() ==> state[k, j] == rows[k][j]
    requires Row(state, i) == row
    requires forall v, k :: 0 <= v < NState && 0 <= k < i ==> statesum[v, k] == Count(rows[k], v)
    ensures Holds(c, state, statesum, infections, first, rows + [row], firsts, rs, i + 1, i)
  {
    var rows' := rows + [row];
    forall k, j | 0 <= k <= i && 0 <= j < c.N()
      ensures state[k, j] == rows'[k][j]
    {
      if k < i {
        assert rows'[k] == rows[k];
      }
    }
    forall v, k | 0 <= v < NState && 0 <= k < i
      ensures statesum[v, k] == Count(rows'[k], v)
    {
      assert rows'[k] == rows[k];
    }
  }

  /** Lines 116-138 of day i on the arrays: `newinf` from the infection
      counts of the days before (`past`), `pinf` from the contact vector
      `r`, then the day's transitions. Row i and `firstdayinfected` become
      the day `DayFollows` describes; no other row changes. */
  method AdvanceDay(c: Config, state: array2<int>, first: array<int>, i: nat, past: seq<int>,
                    ghost prevR: seq<real>, r: seq<real>)
    returns (count: nat)
    requires c.Valid() && 1 <= i < c.nday && |past| == i
    requires state.Length0 == c.nday && state.Length1 == first.Length == c.N()
    requires |prevR| == |r| == c.N() && Sum(prevR) != 0.0
    requires r == (if i == 1 then prevR else NextR(c, prevR, Row(state, i - 1)))
    modifies state, first
    ensures DayFollows(c, i, old(Row(state, i - 1)), old(first[..]), prevR, past, Row(state, i), first[..], count, r)
    ensures forall k, j :: 0 <= k < state.Length0 && k != i && 0 <= j < state.Length1 ==>
      state[k, j] == old(state[k, j])
  {
    var newinf := NewInfections(past, i, SimKernel(c.y));
    var pinf := InfectionProbabilities(r, newinf, c.N());
    count := StepDay(state, first, i, c.rans[i - 1], c.dr, pinf);
  }

  /** Line 140 of day i: the counts of the day's states. */
  method CountDay(c: Config, state: array2<int>, statesum: array2<int>, infections: array<int>,
                  first: array<int>, ghost rows: seq<seq<int>>, ghost firsts: seq<seq<int>>,
                  ghost rs: seq<seq<real>>, i: nat)
    requires Holds(c, state, statesum, infections, first, rows, firsts, rs, i + 1, i)
    modifies statesum
    ensures Holds(c, state, statesum, infections, first, rows, firsts, rs, i + 1, i + 1)
  {
    RunInvariant(c, rows, firsts, infections[..i + 1], rs, i);
    RowIs(state, i, rows[i]);
    Tally(state, statesum, i);
  }

  /** Lines 88-109: the arrays after day 0. */
  method StartRun(c: Config)
    returns (state: array2<int>, statesum: array2<int>, infections: array<int>, first: array<int>,
             ghost rows: seq<seq<int>>, ghost firsts: seq<seq<int>>, ghost rs: seq<seq<real>>)
    requires c.Valid()
    ensures fresh(state) && fresh(statesum) && fresh(infections) && fresh(first)
    ensures Mirrors(c, state, statesum, infections, first, c.r, rows, firsts, rs, 1)
  {
    var n := c.N();
    state := new int[c.nday, n]((_, _) => NotInfected);
    SeedInfected(state, c.seeds);
    statesum := new int[NState, c.nday]((_, _) => 0);
    Tally(state, statesum, 0);
    infections := new int[c.nday](_ => 0);
    infections[0] := Count(Row(state, 0), Infected);
    first := InitialFirstDays(state);
    rows, firsts, rs := [Row(state, 0)], [first[..]], [c.r];
    assert infections[..1] == [infections[0]];
  }

  /** `sim(age, gender, dr, r, gmean, gsd, nday, ni, cutdown, cutr)`: the
      state matrix, the daily state counts and the daily infection counts
      are those of the run `IsRun` describes on the same inputs, so every
      property `RunProperties` proves of a run holds of them. The population
      size is `|dr|`; `seeds` are the `ni` indices drawn by
      `np.random.choice(n, ni)`, `rans[i - 1]` the draws of day i. */
  method Sim(dr: seq<real>, r: seq<real>, gmean: real, gsd: real, cdf: Cdf, nday: nat,
             seeds: seq<int>, rans: seq<seq<real>>, cutdown: real, cutr: real)
    returns (state: array2<int>, statesum: array2<int>, infections: array<int>,
             ghost c: Config, ghost rows: seq<seq<int>>, ghost firsts: seq<seq<int>>, ghost rs: seq<seq<real>>)
    requires gmean != 0.0 && gsd != 0.0
    requires |dr| > 0 && |r| == |dr| && nday >= 1
    requires forall k :: 0 <= k < |seeds| ==> 0 <= seeds[k] < |dr|
    requires |rans| == nday - 1 && forall k :: 0 <= k < |rans| ==> |rans[k]| == |dr|
    requires Sum(r) != 0.0 && cutr != 0.0
    ensures c == Config(dr, r, Samples(cdf, Gamma(gmean * gmean / (gsd * gsd), gsd * gsd / gmean), Window),
                        seeds, rans, nday, cutdown, cutr)
    ensures IsRun(c, rows, firsts, infections[..], rs) && |rows| == nday
    ensures state.Length0 == nday && state.Length1 == |dr|
    ensures statesum.Length0 == NState && statesum.Length1 == nday && infections.Length == nday
    ensures forall i, j :: 0 <= i < nday && 0 <= j < |dr| ==> state[i, j] == rows[i][j]
    ensures forall v, i :: 0 <= v < NState && 0 <= i < nday ==> statesum[v, i] == Count(rows[i], v)
  {
    var g := Gamma(gmean * gmean / (gsd * gsd), gsd * gsd / gmean);
    var cfg := Config(dr, r, Samples(cdf, g, Window), seeds, rans, nday, cutdown, cutr);
    c := cfg;
    var first;
    state, statesum, infections, first, rows, firsts, rs := StartRun(cfg);
    var rcur := r;
    var i := 1;
    while i < nday
      invariant Mirrors(c, state, statesum, infections, first, rcur, rows, firsts, rs, i)
    {
      rcur, rows, firsts, rs := RunDay(cfg, state, statesum, infections, first, rcur, rows, firsts, rs, i);
      i := i + 1;
    }
    assert infections[..nday] == infections[..];
  }
}
