/**
 * The numeric steps of scripts/transform_stats.py once the population table
 * has been expanded to one row per age (lines 42-52 and 60): a survival
 * weighting per (gender, family status) group, and the share of every row
 * in the total count.
 *
 * Columns of the table are sequences indexed by row. Inside a group,
 * `deathrate` is the yearly death rate of each age and `nrep` the width of
 * the age band the row was expanded from.
 */
module TransformStats {
  import opened Sums

  /** The genders the factor loop visits (line 42). */
  const Genders: seq<string> := ["m", "f"]

  /** `new` after the loop of lines 48-50: it starts as `np.ones` and, at
      every i >= 1 whose row comes from a band wider than one year, takes the
      previous factor times the survival `1 - xm[i-1]` of the previous age. */
  function Chain(xm: seq<real>, nrep: seq<int>): (c: seq<real>)
    requires |xm| == |nrep|
    ensures |c| == |xm|
    decreases |xm|
  {
    if |xm| <= 1 then seq(|xm|, _ => 1.0)
    else
      var n := |xm| - 1;
      var p := Chain(xm[..n], nrep[..n]);
      p + [if nrep[n] > 1 then p[n - 1] * (1.0 - xm[n - 1]) else 1.0]
  }

  /** `np.sum(v[nrep > 1])`: the sum over the banded entries. */
  function BandedSum(v: seq<real>, nrep: seq<int>): real
    requires |v| == |nrep|
  {
    if |v| == 0 then 0.0
    else
      var n := |v| - 1;
      BandedSum(v[..n], nrep[..n]) + (if nrep[n] > 1 then v[n] else 0.0)
  }

  predicate HasBanded(nrep: seq<int>)
  {
    exists j :: 0 <= j < |nrep| && nrep[j] > 1
  }

  /** What line 51 needs to be well defined: a non-empty selection whose sum
      is zero would divide by zero. */
  predicate Normalizable(xm: seq<real>, nrep: seq<int>)
    requires |xm| == |nrep|
  {
    HasBanded(nrep) ==> BandedSum(Chain(xm, nrep), nrep) != 0.0
  }

  /** `new` after line 51: the banded entries divided by their sum, the
      others left as they are. */
  function Factors(xm: seq<real>, nrep: seq<int>): (f: seq<real>)
    requires |xm| == |nrep| && Normalizable(xm, nrep)
    ensures |f| == |xm|
  {
    var c := Chain(xm, nrep);
    var s := BandedSum(c, nrep);
    seq(|c|, j requires 0 <= j < |c| => if nrep[j] > 1 then c[j] / s else c[j])
  }

  /** The recurrence, element by element: the first factor is 1, a factor
      outside a band is 1, and a banded factor carries the previous one
      forward times the survival of the previous age. */
  lemma {:induction false} ChainRule(xm: seq<real>, nrep: seq<int>, i: nat)
    requires |xm| == |nrep| && i < |xm|
    ensures i == 0 ==> Chain(xm, nrep)[i] == 1.0
    ensures nrep[i] <= 1 ==> Chain(xm, nrep)[i] == 1.0
    ensures i >= 1 && nrep[i] > 1 ==> Chain(xm, nrep)[i] == Chain(xm, nrep)[i - 1] * (1.0 - xm[i - 1])
    decreases |xm|
  {
    if |xm| > 1 {
      var n := |xm| - 1;
      if i < n {
        ChainRule(xm[..n], nrep[..n], i);
      }
    }
  }

  lemma Shrink(a: real, x: real)
    requires 0.0 <= a <= 1.0 && 0.0 <= x <= 1.0
    ensures 0.0 <= a * (1.0 - x) <= a
  {
  }

  /** With every death rate a probability, the factors stay in [0, 1] and
      never grow from one banded age to the next. */
  lemma ChainBounds(xm: seq<real>, nrep: seq<int>, i: nat)
    requires |xm| == |nrep| && i < |xm|
    requires forall j :: 0 <= j < |xm| ==> 0.0 <= xm[j] <= 1.0
    ensures 0.0 <= Chain(xm, nrep)[i] <= 1.0
    ensures i >= 1 && nrep[i] > 1 ==> Chain(xm, nrep)[i] <= Chain(xm, nrep)[i - 1]
  {
    var c := Chain(xm, nrep);
    forall j | 0 <= j < |xm| ensures Recurrence(c, xm, nrep, j) {
      ChainRecurrence(xm, nrep, j);
    }
    RecurrenceBounds(c, xm, nrep, i);
  }

  lemma ChainRecurrence(xm: seq<real>, nrep: seq<int>, j: nat)
    requires |xm| == |nrep| && j < |xm|
    ensures Recurrence(Chain(xm, nrep), xm, nrep, j)
  {
    ChainRule(xm, nrep, j);
  }

  /** The step of the loop of lines 48-50 at index j, read off a finished
      vector `c`. */
  predicate Recurrence(c: seq<real>, xm: seq<real>, nrep: seq<int>, j: nat)
    requires |c| == |xm| == |nrep| && j < |c|
  {
    if j >= 1 && nrep[j] > 1 then c[j] == c[j - 1] * (1.0 - xm[j - 1]) else c[j] == 1.0
  }

  lemma {:induction false} RecurrenceBounds(c: seq<real>, xm: seq<real>, nrep: seq<int>, i: nat)
    requires |c| == |xm| == |nrep| && i < |c|
    requires forall j :: 0 <= j < |xm| ==> 0.0 <= xm[j] <= 1.0
    requires forall j :: 0 <= j < |c| ==> Recurrence(c, xm, nrep, j)
    ensures 0.0 <= c[i] <= 1.0
    ensures i >= 1 && nrep[i] > 1 ==> c[i] <= c[i - 1]
  {
    assert Recurrence(c, xm, nrep, i);
    if i >= 1 && nrep[i] > 1 {
      RecurrenceBounds(c, xm, nrep, i - 1);
      Shrink(c[i - 1], xm[i - 1]);
    }
  }

  lemma AddQuotient(a: real, b: real, s: real)
    requires s != 0.0
    ensures a / s + b / s == (a + b) / s
  {
  }

  lemma {:induction false} BandedSumDivided(v: seq<real>, w: seq<real>, nrep: seq<int>, s: real)
    requires |v| == |w| == |nrep| && s != 0.0
    requires forall j :: 0 <= j < |v| && nrep[j] > 1 ==> w[j] == v[j] / s
    ensures BandedSum(w, nrep) == BandedSum(v, nrep) / s
  {
    if |v| > 0 {
      var n := |v| - 1;
      BandedSumDivided(v[..n], w[..n], nrep[..n], s);
      if nrep[n] > 1 {
        AddQuotient(BandedSum(v[..n], nrep[..n]), v[n], s);
      } else {
        AddQuotient(BandedSum(v[..n], nrep[..n]), 0.0, s);
      }
    }
  }

  /** After line 51 every factor outside a band is still exactly 1. */
  lemma FactorsUnbanded(xm: seq<real>, nrep: seq<int>)
    requires |xm| == |nrep| && Normalizable(xm, nrep)
    ensures forall j :: 0 <= j < |xm| && nrep[j] <= 1 ==> Factors(xm, nrep)[j] == 1.0
  {
    forall j | 0 <= j < |xm| && nrep[j] <= 1
      ensures Factors(xm, nrep)[j] == 1.0
    {
      ChainRule(xm, nrep, j);
    }
  }

  /** After line 51 the banded factors sum to one. */
  lemma FactorsNormalized(xm: seq<real>, nrep: seq<int>)
    requires |xm| == |nrep| && Normalizable(xm, nrep) && HasBanded(nrep)
    ensures BandedSum(Factors(xm, nrep), nrep) == 1.0
  {
    var c := Chain(xm, nrep);
    var s := BandedSum(c, nrep);
    var f := Factors(xm, nrep);
    assert forall j :: 0 <= j < |c| && nrep[j] > 1 ==> f[j] == c[j] / s;
    BandedSumDivided(c, f, nrep, s);
    DivSelf(s);
  }

  lemma DivSelf(s: real)
    requires s != 0.0
    ensures s / s == 1.0
  {
  }

  /** Lines 47-50: `np.ones`, then the recurrence element by element. */
  method FillChain(xm: seq<real>, nrep: seq<int>) returns (factors: array<real>)
    requires |xm| == |nrep|
    ensures fresh(factors)
    ensures factors.Length == |xm| && factors[..] == Chain(xm, nrep)
  {
    factors := new real[|xm|](_ => 1.0);
    ghost var c := Chain(xm, nrep);
    if |xm| > 0 {
      ChainRule(xm, nrep, 0);
    }
    var i := 1;
    while i < |xm|
      invariant 1 <= i && (|xm| > 0 ==> i <= |xm|)
      invariant forall j :: 0 <= j < i && j < |xm| ==> factors[j] == c[j]
      invariant forall j :: i <= j < |xm| ==> factors[j] == 1.0
    {
      ChainRule(xm, nrep, i);
      if nrep[i] > 1 {
        factors[i] := factors[i - 1] * (1.0 - xm[i - 1]);
      }
      i := i + 1;
    }
  }

  /** `np.sum(new[nrep > 1])`. */
  method BandedTotal(v: array<real>, nrep: seq<int>) returns (s: real)
    requires v.Length == |nrep|
    ensures s == BandedSum(v[..], nrep)
  {
    s := 0.0;
    for j := 0 to |nrep|
      invariant s == BandedSum(v[..j], nrep[..j])
    {
      assert v[..j + 1][..j] == v[..j] && nrep[..j + 1][..j] == nrep[..j];
      if nrep[j] > 1 {
        s := s + v[j];
      }
    }
    assert v[..|nrep|] == v[..] && nrep[..|nrep|] == nrep;
  }

  /** Lines 47-51 for one group: the recurrence, then the banded entries
      divided in place by their sum. */
  method SurvivalFactors(xm: seq<real>, nrep: seq<int>) returns (factors: array<real>)
    requires |xm| == |nrep| && Normalizable(xm, nrep)
    ensures factors.Length == |xm| && factors[..] == Factors(xm, nrep)
  {
    factors := FillChain(xm, nrep);
    var s := BandedTotal(factors, nrep);
    DivideBanded(factors, nrep, s);
    ghost var f := Factors(xm, nrep);
    assert forall k :: 0 <= k < |xm| ==> factors[k] == f[k];
  }

  /** `new[nrep > 1] = new[nrep > 1] / s`, in place. */
  method DivideBanded(a: array<real>, nrep: seq<int>, s: real)
    requires a.Length == |nrep| && (HasBanded(nrep) ==> s != 0.0)
    modifies a
    ensures forall k :: 0 <= k < a.Length ==> a[k] == if nrep[k] > 1 then old(a[k]) / s else old(a[k])
  {
    for j := 0 to a.Length
      invariant forall k :: 0 <= k < j ==> a[k] == if nrep[k] > 1 then old(a[k]) / s else old(a[k])
      invariant forall k :: j <= k < a.Length ==> a[k] == old(a[k])
    {
      if nrep[j] > 1 {
        assert HasBanded(nrep);
        a[j] := a[j] / s;
      }
    }
  }

  /** The rows `(aux.gender == g) & (aux.family == f)` selects, in table
      order. */
  function Members(gender: seq<string>, family: seq<string>, g: string, f: string): (sel: seq<nat>)
    requires |gender| == |family|
    ensures forall k :: 0 <= k < |sel| ==> sel[k] < |gender| && gender[sel[k]] == g && family[sel[k]] == f
    ensures forall k, k' :: 0 <= k < k' < |sel| ==> sel[k] < sel[k']
    ensures forall j :: 0 <= j < |gender| && gender[j] == g && family[j] == f ==> j in sel
  {
    if |gender| == 0 then []
    else
      var n := |gender| - 1;
      Members(gender[..n], family[..n], g, f) + (if gender[n] == g && family[n] == f then [n] else [])
  }

  /** A column restricted to the selected rows, `np.array(aux[filt][col])`. */
  function Select<T>(col: seq<T>, sel: seq<nat>): (v: seq<T>)
    requires forall k :: 0 <= k < |sel| ==> sel[k] < |col|
    ensures |v| == |sel| && forall k :: 0 <= k < |sel| ==> v[k] == col[sel[k]]
  {
    seq(|sel|, k requires 0 <= k < |sel| => col[sel[k]])
  }

  /** The table the factor loop works on. */
  predicate Table(gender: seq<string>, family: seq<string>, deathrate: seq<real>, nrep: seq<int>)
  {
    |gender| == |family| == |deathrate| == |nrep|
  }

  predicate GroupOK(gender: seq<string>, family: seq<string>, deathrate: seq<real>, nrep: seq<int>,
                    g: string, f: string)
    requires Table(gender, family, deathrate, nrep)
  {
    var sel := Members(gender, family, g, f);
    Normalizable(Select(deathrate, sel), Select(nrep, sel))
  }

  function GroupFactors(gender: seq<string>, family: seq<string>, deathrate: seq<real>, nrep: seq<int>,
                        g: string, f: string): (v: seq<real>)
    requires Table(gender, family, deathrate, nrep) && GroupOK(gender, family, deathrate, nrep, g, f)
    ensures |v| == |Members(gender, family, g, f)|
  {
    var sel := Members(gender, family, g, f);
    Factors(Select(deathrate, sel), Select(nrep, sel))
  }

  /** `aux.loc[filt, "faktor"] = new` has happened for the group (g, f):
      the k-th selected row holds the k-th factor of the group. */
  predicate Written(faktor: seq<real>, gender: seq<string>, family: seq<string>, deathrate: seq<real>,
                    nrep: seq<int>, g: string, f: string)
    requires Table(gender, family, deathrate, nrep) && |faktor| == |gender|
  {
    GroupOK(gender, family, deathrate, nrep, g, f)
    && var sel := Members(gender, family, g, f);
    forall k :: 0 <= k < |sel| ==> faktor[sel[k]] == GroupFactors(gender, family, deathrate, nrep, g, f)[k]
  }

  /** `aux["family"].unique()`: the distinct values in order of first
      appearance. */
  function Unique(s: seq<string>): (u: seq<string>)
    ensures forall x :: x in s <==> x in u
    ensures forall k, k' :: 0 <= k < k' < |u| ==> u[k] != u[k']
  {
    if |s| == 0 then []
    else
      var n := |s| - 1;
      var p := Unique(s[..n]);
      assert forall x :: x in s <==> x in s[..n] || x == s[n];
      if s[n] in p then p else p + [s[n]]
  }

  /** The row indices of the mask `(aux.gender == g) & (aux.family == f)`. */
  method SelectRows(gender: seq<string>, family: seq<string>, g: string, f: string) returns (sel: seq<nat>)
    requires |gender| == |family|
    ensures sel == Members(gender, family, g, f)
  {
    sel := [];
    for j := 0 to |gender|
      invariant sel == Members(gender[..j], family[..j], g, f)
    {
      assert gender[..j + 1][..j] == gender[..j] && family[..j + 1][..j] == family[..j];
      if gender[j] == g && family[j] == f {
        sel := sel + [j];
      }
    }
    assert gender[..|gender|] == gender && family[..|family|] == family;
  }

  /** `aux.loc[filt, "faktor"] = new`: the k-th selected row receives the
      k-th value; no other row changes. */
  method Scatter(faktor: array<real>, sel: seq<nat>, values: seq<real>)
    requires |values| == |sel|
    requires forall k :: 0 <= k < |sel| ==> sel[k] < faktor.Length
    requires forall k, k' :: 0 <= k < k' < |sel| ==> sel[k] < sel[k']
    modifies faktor
    ensures forall k :: 0 <= k < |sel| ==> faktor[sel[k]] == values[k]
    ensures forall j :: 0 <= j < faktor.Length && j !in sel ==> faktor[j] == old(faktor[j])
  {
    for k := 0 to |sel|
      invariant forall k' :: 0 <= k' < k ==> faktor[sel[k']] == values[k']
      invariant forall j :: 0 <= j < faktor.Length && j !in sel[..k] ==> faktor[j] == old(faktor[j])
    {
      assert forall k' :: 0 <= k' < k ==> sel[k'] != sel[k];
      faktor[sel[k]] := values[k];
      assert sel[..k + 1] == sel[..k] + [sel[k]];
    }
    assert sel[..|sel|] == sel;
  }

  /** One pass of the body of lines 44-52: select the group, compute its
      factors and write them back to the selected rows. */
  method WriteGroup(faktor: array<real>, gender: seq<string>, family: seq<string>, deathrate: seq<real>,
                    nrep: seq<int>, g: string, f: string)
    requires Table(gender, family, deathrate, nrep) && faktor.Length == |gender|
    requires GroupOK(gender, family, deathrate, nrep, g, f)
    modifies faktor
    ensures Written(faktor[..], gender, family, deathrate, nrep, g, f)
    ensures forall j :: 0 <= j < |gender| && (gender[j] != g || family[j] != f) ==> faktor[j] == old(faktor[j])
  {
    var sel := SelectRows(gender, family, g, f);
    var xm := Select(deathrate, sel);
    var nr := Select(nrep, sel);
    var factors := SurvivalFactors(xm, nr);
    Scatter(faktor, sel, factors[..]);
    forall j | 0 <= j < |gender| && (gender[j] != g || family[j] != f)
      ensures j !in sel
    {
    }
  }

  /** Writing another group leaves a group already written intact. */
  lemma WrittenKept(old_: seq<real>, now: seq<real>, gender: seq<string>, family: seq<string>,
                    deathrate: seq<real>, nrep: seq<int>, g: string, f: string, p: (string, string))
    requires Table(gender, family, deathrate, nrep) && |old_| == |now| == |gender|
    requires Written(old_, gender, family, deathrate, nrep, p.0, p.1)
    requires forall j :: 0 <= j < |gender| && (gender[j] != g || family[j] != f) ==> now[j] == old_[j]
    requires p != (g, f)
    ensures Written(now, gender, family, deathrate, nrep, p.0, p.1)
  {
    var sel := Members(gender, family, p.0, p.1);
    forall k | 0 <= k < |sel|
      ensures now[sel[k]] == old_[sel[k]]
    {
    }
  }

  /** Lines 40-52: `faktor` starts at 1 for every row; every (gender,
      family) group with gender "m" or "f" then receives its normalised
      survival factors, row by row in table order. Rows of any other
      gender keep 1. */
  method FamilyFactors(gender: seq<string>, family: seq<string>, deathrate: seq<real>, nrep: seq<int>)
    returns (faktor: array<real>)
    requires Table(gender, family, deathrate, nrep)
    requires forall g, f :: g in Genders && f in family ==> GroupOK(gender, family, deathrate, nrep, g, f)
    ensures faktor.Length == |gender|
    ensures forall g, f :: g in Genders && f in family ==> Written(faktor[..], gender, family, deathrate, nrep, g, f)
    ensures forall j :: 0 <= j < |gender| && gender[j] !in Genders ==> faktor[j] == 1.0
  {
    faktor := new real[|gender|](_ => 1.0);
    ghost var done: set<(string, string)> := {};
    var families := Unique(family);
    for gi := 0 to |Genders|
      invariant Progress(faktor[..], gender, family, deathrate, nrep, done)
      invariant forall gj :: 0 <= gj < gi ==> Pairs(Genders[gj], families) <= done
    {
      done := WriteGender(faktor, gender, family, deathrate, nrep, Genders[gi], families, done);
    }
    AllWritten(faktor[..], gender, family, deathrate, nrep, families, done);
  }

  /** Once every (gender, family) pair is done, every group holds its
      factors and the rows of any other gender still hold 1. */
  lemma AllWritten(faktor: seq<real>, gender: seq<string>, family: seq<string>, deathrate: seq<real>,
                   nrep: seq<int>, families: seq<string>, done: set<(string, string)>)
    requires Table(gender, family, deathrate, nrep) && |faktor| == |gender|
    requires Progress(faktor, gender, family, deathrate, nrep, done)
    requires forall f :: f in family ==> f in families
    requires forall gj :: 0 <= gj < |Genders| ==> Pairs(Genders[gj], families) <= done
    ensures forall g, f :: g in Genders && f in family ==> Written(faktor, gender, family, deathrate, nrep, g, f)
    ensures forall j :: 0 <= j < |gender| && gender[j] !in Genders ==> faktor[j] == 1.0
  {
    forall g, f | g in Genders && f in family
      ensures Written(faktor, gender, family, deathrate, nrep, g, f)
    {
      assert g == Genders[0] || g == Genders[1];
      assert (g, f) in done;
    }
  }

  /** The groups written so far hold their factors; the rows of every other
      group still hold the initial 1. */
  ghost predicate Progress(faktor: seq<real>, gender: seq<string>, family: seq<string>, deathrate: seq<real>,
                           nrep: seq<int>, done: set<(string, string)>)
    requires Table(gender, family, deathrate, nrep) && |faktor| == |gender|
  {
    && (forall p :: p in done ==> p.0 in Genders)
    && (forall g, f {:trigger Written(faktor, gender, family, deathrate, nrep, g, f)} ::
          (g, f) in done ==> Written(faktor, gender, family, deathrate, nrep, g, f))
    && (forall j :: 0 <= j < |gender| && (gender[j], family[j]) !in done ==> faktor[j] == 1.0)
  }

  /** The inner loop of lines 43-52 for one gender: every family's group in
      turn. */
  method WriteGender(faktor: array<real>, gender: seq<string>, family: seq<string>, deathrate: seq<real>,
                     nrep: seq<int>, g: string, families: seq<string>, ghost done: set<(string, string)>)
    returns (ghost done': set<(string, string)>)
    requires Table(gender, family, deathrate, nrep) && faktor.Length == |gender| && g in Genders
    requires forall f :: f in families ==> f in family
    requires forall f :: f in family ==> GroupOK(gender, family, deathrate, nrep, g, f)
    requires Progress(faktor[..], gender, family, deathrate, nrep, done)
    modifies faktor
    ensures Progress(faktor[..], gender, family, deathrate, nrep, done')
    ensures done' == done + Pairs(g, families)
  {
    done' := done;
    for fi := 0 to |families|
      invariant Progress(faktor[..], gender, family, deathrate, nrep, done')
      invariant done' == done + Pairs(g, families[..fi])
    {
      assert families[..fi + 1] == families[..fi] + [families[fi]];
      done' := WriteNext(faktor, gender, family, deathrate, nrep, g, families[fi], done');
    }
    assert families[..|families|] == families;
  }

  /** The groups of gender `g` with the families `fs`. */
  function Pairs(g: string, fs: seq<string>): (ps: set<(string, string)>)
    ensures forall f :: f in fs ==> (g, f) in ps
  {
    if |fs| == 0 then {} else Pairs(g, fs[..|fs| - 1]) + {(g, fs[|fs| - 1])}
  }

  /** One pass of the inner loop, with the bookkeeping of the groups done. */
  method WriteNext(faktor: array<real>, gender: seq<string>, family: seq<string>, deathrate: seq<real>,
                   nrep: seq<int>, g: string, f: string, ghost done: set<(string, string)>)
    returns (ghost done': set<(string, string)>)
    requires Table(gender, family, deathrate, nrep) && faktor.Length == |gender| && g in Genders
    requires GroupOK(gender, family, deathrate, nrep, g, f)
    requires Progress(faktor[..], gender, family, deathrate, nrep, done)
    modifies faktor
    ensures done' == done + {(g, f)}
    ensures Progress(faktor[..], gender, family, deathrate, nrep, done')
  {
    ghost var before := faktor[..];
    WriteGroup(faktor, gender, family, deathrate, nrep, g, f);
    ProgressStep(before, faktor[..], gender, family, deathrate, nrep, done, g, f);
    done' := done + {(g, f)};
  }

  /** Writing one more group keeps the groups done so far intact and adds
      that group to them. */
  lemma ProgressStep(before: seq<real>, now: seq<real>, gender: seq<string>, family: seq<string>,
                     deathrate: seq<real>, nrep: seq<int>, done: set<(string, string)>, g: string, f: string)
    requires Table(gender, family, deathrate, nrep) && |before| == |now| == |gender| && g in Genders
    requires Progress(before, gender, family, deathrate, nrep, done)
    requires Written(now, gender, family, deathrate, nrep, g, f)
    requires forall j :: 0 <= j < |gender| && (gender[j] != g || family[j] != f) ==> now[j] == before[j]
    ensures Progress(now, gender, family, deathrate, nrep, done + {(g, f)})
  {
    forall g', f' | (g', f') in done + {(g, f)}
      ensures Written(now, gender, family, deathrate, nrep, g', f')
    {
      if (g', f') != (g, f) {
        assert Written(before, gender, family, deathrate, nrep, g', f');
        WrittenKept(before, now, gender, family, deathrate, nrep, g, f, (g', f'));
      }
    }
  }

  /** Line 60: every row's share of the total count. The shares sum to 1. */
  method Portion(cnt: seq<real>) returns (portion: array<real>)
    requires Sum(cnt) != 0.0
    ensures portion.Length == |cnt|
    ensures forall j :: 0 <= j < |cnt| ==> portion[j] == cnt[j] / Sum(cnt)
    ensures Sum(portion[..]) == 1.0
  {
    var total := SumOf(cnt);
    portion := new real[|cnt|];
    for j := 0 to |cnt|
      invariant forall k :: 0 <= k < j ==> portion[k] == cnt[k] / total
    {
      portion[j] := cnt[j] / total;
    }
    PortionsSumToOne(cnt, portion[..]);
  }

  /** `np.sum`, left to right. */
  method SumOf(cnt: seq<real>) returns (total: real)
    ensures total == Sum(cnt)
  {
    total := 0.0;
    for j := 0 to |cnt|
      invariant total == Sum(cnt[..j])
    {
      assert cnt[..j + 1][..j] == cnt[..j];
      total := total + cnt[j];
    }
    assert cnt[..|cnt|] == cnt;
  }

  /** Shares of a non-zero total add up to one. */
  lemma PortionsSumToOne(cnt: seq<real>, portion: seq<real>)
    requires Sum(cnt) != 0.0 && |portion| == |cnt|
    requires forall j :: 0 <= j < |cnt| ==> portion[j] == cnt[j] / Sum(cnt)
    ensures Sum(portion) == 1.0
  {
    SumDivided(cnt, portion, Sum(cnt));
    DivSelf(Sum(cnt));
  }
}
