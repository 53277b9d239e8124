/** Sharing a message's text budget between its content and its attachments
    (`recency_weighted_token_allocations`, src-tauri/src/context_manager.rs, lines 458-495).
    Part 0 is the message content, part i > 0 is attachment i - 1. */
module TokenAllocation {
  import opened Basics

  /** Later parts weigh more. */
  function Weight(index: nat): (w: nat)
    ensures w >= 100
  {
    SatAdd(100, SatMul(index, 5))
  }

  /** The total weight of the first `k` parts of `todo`. */
  function WeightUpTo(todo: seq<nat>, k: nat): (w: nat)
    requires k <= |todo|
    ensures w >= 100 * k
  {
    if k == 0 then 0 else WeightUpTo(todo, k - 1) + Weight(todo[k - 1])
  }

  function TotalWeight(todo: seq<nat>): (w: nat)
    ensures w >= 100 * |todo|
  {
    WeightUpTo(todo, |todo|)
  }

  /** A part's share of `remaining`, rounded up; the product saturates as in the code. */
  function Share(remaining: nat, weight: nat, total: nat): (s: nat)
    requires total > 0
    ensures s >= 1
  {
    Max(DivCeil(SatMul(remaining, weight), total), 1)
  }

  function Shares(todo: seq<nat>, remaining: nat): (s: seq<nat>)
    ensures |s| == |todo| && forall k :: 0 <= k < |s| ==> s[k] >= 1
  {
    seq(|todo|, k requires 0 <= k < |todo| => Share(remaining, Weight(todo[k]), TotalWeight(todo)))
  }

  function Granted(outstanding: nat, share: nat, left: nat): nat {
    Min(Min(outstanding, share), left)
  }

  /** One pass of `retain`: the needs, the unsatisfied parts it visits, their shares, the budget. */
  datatype Turn = Turn(needs: seq<nat>, todo: seq<nat>, shares: seq<nat>, remaining: nat) {
    ghost predicate Valid() {
      && |todo| == |shares|
      && (forall k :: 0 <= k < |todo| ==> todo[k] < |needs| && shares[k] >= 1)
      && (forall j, k :: 0 <= j < k < |todo| ==> todo[j] != todo[k])
    }
  }

  predicate AtMost(a: seq<nat>, b: seq<nat>) {
    |a| == |b| && forall i :: 0 <= i < |a| ==> a[i] <= b[i]
  }

  datatype Pass = Pass(allocations: seq<nat>, spent: nat, unsatisfied: seq<nat>)

  /** What holds between passes: `todo` lists, without repetition, exactly the parts whose need
      is not met, and nobody has more than they need. */
  predicate Balanced(needs: seq<nat>, have: seq<nat>, todo: seq<nat>) {
    && AtMost(have, needs)
    && (forall k :: 0 <= k < |todo| ==> todo[k] < |needs|)
    && (forall j, k :: 0 <= j < k < |todo| ==> todo[j] != todo[k])
    && (forall i :: 0 <= i < |needs| ==> (i in todo <==> have[i] < needs[i]))
  }

  /** The state of a pass after its first `k` parts. */
  function After(t: Turn, have: seq<nat>, k: nat): (p: Pass)
    requires t.Valid() && AtMost(have, t.needs) && k <= |t.todo|
    ensures |p.allocations| == |have| == |t.needs|
    ensures AtMost(have, p.allocations) && AtMost(p.allocations, t.needs)
    ensures p.spent <= t.remaining && |p.unsatisfied| <= k
  {
    if k == 0 then Pass(have, 0, [])
    else
      var p := After(t, have, k - 1);
      var i := t.todo[k - 1];
      var g := Granted(t.needs[i] - p.allocations[i], t.shares[k - 1], t.remaining - p.spent);
      var now := p.allocations[i] + g;
      Pass(p.allocations[i := now], p.spent + g, if now < t.needs[i] then p.unsatisfied + [i] else p.unsatisfied)
  }

  lemma AfterNone(t: Turn, have: seq<nat>)
    requires t.Valid() && AtMost(have, t.needs)
    ensures |have| == |t.needs| && After(t, have, 0) == Pass(have, 0, [])
  {
  }

  lemma AfterStep(t: Turn, have: seq<nat>, k: nat)
    requires t.Valid() && AtMost(have, t.needs) && k < |t.todo|
    ensures t.todo[k] < |t.needs| == |have|
    ensures var p, i := After(t, have, k), t.todo[k];
      var g := Granted(Monus(t.needs[i], p.allocations[i]), t.shares[k], Monus(t.remaining, p.spent));
      var a := p.allocations[i := p.allocations[i] + g];
      After(t, have, k + 1) == Pass(a, p.spent + g, if a[i] < t.needs[i] then p.unsatisfied + [i] else p.unsatisfied)
  {
  }

  /** Parts not yet visited keep what they had. */
  lemma {:induction false} UntouchedYet(t: Turn, have: seq<nat>, k: nat, i: nat)
    requires t.Valid() && AtMost(have, t.needs) && k <= |t.todo| && i < |have|
    requires i !in t.todo[..k]
    ensures After(t, have, k).allocations[i] == have[i]
  {
    if k > 0 {
      assert t.todo[k - 1] in t.todo[..k];
      assert t.todo[..k - 1] == t.todo[..k][..k - 1];
      UntouchedYet(t, have, k - 1, i);
    }
  }

  /** Conservation within a pass: what was spent is what the allocations gained. */
  lemma {:induction false} PassSum(t: Turn, have: seq<nat>, k: nat)
    requires t.Valid() && AtMost(have, t.needs) && k <= |t.todo|
    ensures Sum(After(t, have, k).allocations) == Sum(have) + After(t, have, k).spent
  {
    hide After, Sum;
    if k == 0 {
      AfterNone(t, have);
    } else {
      PassSum(t, have, k - 1);
      GainStep(t, have, k - 1);
      var p, q, i := After(t, have, k - 1), After(t, have, k), t.todo[k - 1];
      SumUpdate(p.allocations, i, q.allocations[i]);
    }
  }

  /** One more part visited: what it gains is spent, and nobody else is affected. */
  lemma GainStep(t: Turn, have: seq<nat>, k: nat)
    requires t.Valid() && AtMost(have, t.needs) && k < |t.todo|
    ensures t.todo[k] < |have|
    ensures var p, q, i := After(t, have, k), After(t, have, k + 1), t.todo[k];
      && q.allocations == p.allocations[i := q.allocations[i]]
      && q.allocations[i] - p.allocations[i] == q.spent - p.spent
      && q.spent - p.spent == Granted(t.needs[i] - p.allocations[i], t.shares[k], t.remaining - p.spent)
  {
    hide After, Granted;
    AfterStep(t, have, k);
  }

  /** One more part visited: whether it is retained, and that nobody else is affected. */
  lemma RetainStep(t: Turn, have: seq<nat>, k: nat)
    requires t.Valid() && AtMost(have, t.needs) && k < |t.todo|
    ensures t.todo[k] < |have|
    ensures var p, q, i := After(t, have, k), After(t, have, k + 1), t.todo[k];
      && q.unsatisfied == (if q.allocations[i] < t.needs[i] then p.unsatisfied + [i] else p.unsatisfied)
      && (forall x :: 0 <= x < |have| && x != i ==> q.allocations[x] == p.allocations[x])
  {
  }

  lemma {:induction false} RetainedAt(t: Turn, have: seq<nat>, k: nat, i: nat)
    requires t.Valid() && AtMost(have, t.needs) && k <= |t.todo| && i < |have|
    ensures var p := After(t, have, k); i in p.unsatisfied <==> i in t.todo[..k] && p.allocations[i] < t.needs[i]
  {
    hide After;
    if k == 0 {
      AfterNone(t, have);
    } else {
      RetainedAt(t, have, k - 1, i);
      RetainStep(t, have, k - 1);
      assert t.todo[..k] == t.todo[..k - 1] + [t.todo[k - 1]];
      assert t.todo[k - 1] !in t.todo[..k - 1];
    }
  }

  lemma {:induction false} RetainedVisited(t: Turn, have: seq<nat>, k: nat, x: nat)
    requires t.Valid() && AtMost(have, t.needs) && k <= |t.todo| && x in After(t, have, k).unsatisfied
    ensures x in t.todo[..k]
  {
    hide After, AtMost;
    if k == 0 {
      AfterNone(t, have);
    } else {
      RetainStep(t, have, k - 1);
      assert t.todo[..k] == t.todo[..k - 1] + [t.todo[k - 1]];
      if x != t.todo[k - 1] { RetainedVisited(t, have, k - 1, x); }
    }
  }

  lemma {:induction false} RetainedOnce(t: Turn, have: seq<nat>, k: nat)
    requires t.Valid() && AtMost(have, t.needs) && k <= |t.todo|
    ensures var r := After(t, have, k).unsatisfied; forall j, l :: 0 <= j < l < |r| ==> r[j] != r[l]
  {
    hide After, AtMost;
    if k == 0 {
      AfterNone(t, have);
    } else {
      RetainedOnce(t, have, k - 1);
      RetainStep(t, have, k - 1);
      var i := t.todo[k - 1];
      NotBefore(t, k - 1);
      if i in After(t, have, k - 1).unsatisfied { RetainedVisited(t, have, k - 1, i); }
    }
  }

  /** No part is listed twice. */
  lemma NotBefore(t: Turn, k: nat)
    requires t.Valid() && k < |t.todo|
    ensures t.todo[k] !in t.todo[..k]
  {
  }

  /** The retained parts are those visited and still short of their need, in order, once each. */
  lemma PassRetains(t: Turn, have: seq<nat>, k: nat)
    requires t.Valid() && AtMost(have, t.needs) && k <= |t.todo|
    ensures var p := After(t, have, k);
      && (forall i :: 0 <= i < |have| ==> (i in p.unsatisfied <==> i in t.todo[..k] && p.allocations[i] < t.needs[i]))
      && (forall j, l :: 0 <= j < l < |p.unsatisfied| ==> p.unsatisfied[j] != p.unsatisfied[l])
      && (forall j :: 0 <= j < |p.unsatisfied| ==> p.unsatisfied[j] < |have|)
  {
    hide After;
    RetainedOnce(t, have, k);
    var p := After(t, have, k);
    forall j | 0 <= j < |p.unsatisfied| ensures p.unsatisfied[j] < |have| {
      RetainedVisited(t, have, k, p.unsatisfied[j]);
    }
    forall i | 0 <= i < |have| ensures i in p.unsatisfied <==> i in t.todo[..k] && p.allocations[i] < t.needs[i] {
      RetainedAt(t, have, k, i);
    }
  }

  /** A pass over all unsatisfied parts hands the next pass a balanced state. */
  lemma PassBalanced(t: Turn, have: seq<nat>)
    requires t.Valid() && Balanced(t.needs, have, t.todo)
    ensures var p := After(t, have, |t.todo|); Balanced(t.needs, p.allocations, p.unsatisfied)
  {
    var n := |t.todo|;
    var p := After(t, have, n);
    PassRetains(t, have, n);
    assert t.todo[..n] == t.todo;
    forall i | 0 <= i < |have| ensures i in p.unsatisfied <==> p.allocations[i] < t.needs[i] {
      if i !in t.todo { UntouchedYet(t, have, n, i); }
    }
  }

  /** The first unsatisfied part always receives something, so no pass spends nothing. */
  lemma {:induction false} PassSpends(t: Turn, have: seq<nat>, k: nat)
    requires t.Valid() && Balanced(t.needs, have, t.todo)
    requires 1 <= k <= |t.todo| && t.remaining > 0
    ensures After(t, have, k).spent > 0
  {
    if k > 1 {
      PassSpends(t, have, k - 1);
    } else {
      assert t.todo[0] in t.todo;
      assert After(t, have, 0) == Pass(have, 0, []);
    }
  }

  function TurnOf(needs: seq<nat>, have: seq<nat>, todo: seq<nat>, remaining: nat): (t: Turn)
    requires Balanced(needs, have, todo)
    ensures t.Valid() && t.needs == needs && t.todo == todo && t.remaining == remaining
  {
    Turn(needs, todo, Shares(todo, remaining), remaining)
  }

  /** A full pass, with what the next one needs to know. */
  function FullPass(needs: seq<nat>, have: seq<nat>, todo: seq<nat>, remaining: nat): (p: Pass)
    requires Balanced(needs, have, todo) && todo != [] && remaining > 0
    ensures Balanced(needs, p.allocations, p.unsatisfied)
    ensures 0 < p.spent <= remaining
    ensures Sum(p.allocations) == Sum(have) + p.spent
  {
    var t := TurnOf(needs, have, todo, remaining);
    PassBalanced(t, have);
    PassSpends(t, have, |todo|);
    PassSum(t, have, |todo|);
    After(t, have, |todo|)
  }

  /** The whole allocation: passes repeat until the budget is spent or every need is met.
      The second component is the number of passes. */
  function Settle(needs: seq<nat>, have: seq<nat>, todo: seq<nat>, remaining: nat): (r: (seq<nat>, nat))
    requires Balanced(needs, have, todo)
    ensures |r.0| == |needs|
    decreases remaining
  {
    if remaining == 0 || todo == [] then (have, 0)
    else
      var p := FullPass(needs, have, todo, remaining);
      var rest := Settle(needs, p.allocations, p.unsatisfied, remaining - p.spent);
      (rest.0, rest.1 + 1)
  }

  function PositiveFrom(needs: seq<nat>, i: nat): (r: seq<nat>)
    requires i <= |needs|
    ensures forall j, k :: 0 <= j < k < |r| ==> r[j] != r[k]
    ensures forall k :: 0 <= k < |r| ==> i <= r[k] < |needs|
    ensures forall j :: i <= j < |needs| ==> (j in r <==> needs[j] > 0)
    decreases |needs| - i
  {
    if i == |needs| then []
    else if needs[i] > 0 then [i] + PositiveFrom(needs, i + 1)
    else PositiveFrom(needs, i + 1)
  }

  function Zeros(n: nat): (r: seq<nat>)
    ensures |r| == n && forall i :: 0 <= i < n ==> r[i] == 0
  {
    seq(n, i => 0)
  }

  lemma StartBalanced(needs: seq<nat>)
    ensures Balanced(needs, Zeros(|needs|), PositiveFrom(needs, 0))
  {
  }

  /** The allocations for a list of needs under a budget. */
  function Allocations(needs: seq<nat>, budget: nat): (r: seq<nat>)
    ensures |r| == |needs|
  {
    StartBalanced(needs);
    Settle(needs, Zeros(|needs|), PositiveFrom(needs, 0), budget).0
  }

  /** The number of passes the allocation takes. */
  function Rounds(needs: seq<nat>, budget: nat): nat {
    StartBalanced(needs);
    Settle(needs, Zeros(|needs|), PositiveFrom(needs, 0), budget).1
  }

  lemma {:induction false} SettleConserves(needs: seq<nat>, have: seq<nat>, todo: seq<nat>, remaining: nat)
    requires Balanced(needs, have, todo)
    ensures var a := Settle(needs, have, todo, remaining).0;
      && (forall i :: 0 <= i < |needs| ==> a[i] <= needs[i])
      && Sum(a) == Min(Sum(have) + remaining, Sum(needs))
    decreases remaining
  {
    hide FullPass;
    SumMonotone(have, needs);
    if remaining == 0 {
    } else if todo == [] {
      assert have == needs;
    } else {
      var p := FullPass(needs, have, todo, remaining);
      SettleConserves(needs, p.allocations, p.unsatisfied, remaining - p.spent);
    }
  }

  /** Work conservation, for every list of needs and every budget, saturation included: nobody
      gets more than they need, and together they get all of the budget or all they need. */
  lemma WorkConserving(needs: seq<nat>, budget: nat)
    ensures forall i :: 0 <= i < |needs| ==> Allocations(needs, budget)[i] <= needs[i]
    ensures Sum(Allocations(needs, budget)) == Min(budget, Sum(needs))
  {
    hide Settle, PositiveFrom, Zeros, Balanced, Sum;
    StartBalanced(needs);
    SumZeros(Zeros(|needs|));
    SettleConserves(needs, Zeros(|needs|), PositiveFrom(needs, 0), budget);
  }

  /** A budget that covers every need is spent on exactly the needs. */
  lemma AmpleBudget(needs: seq<nat>, budget: nat)
    requires Sum(needs) <= budget
    ensures Allocations(needs, budget) == needs
  {
    WorkConserving(needs, budget);
    EqualSums(Allocations(needs, budget), needs);
  }

  lemma {:induction false} EqualSums(a: seq<nat>, b: seq<nat>)
    requires |a| == |b| && Sum(a) == Sum(b)
    requires forall i :: 0 <= i < |a| ==> a[i] <= b[i]
    ensures a == b
  {
    if |a| > 0 {
      var n := |a| - 1;
      SumMonotone(a[..n], b[..n]);
      EqualSums(a[..n], b[..n]);
      assert a == a[..n] + [a[n]] && b == b[..n] + [b[n]];
    }
  }

  // ---------------------------------------------------------------------------------------
  // Fairness of a single pass
  // ---------------------------------------------------------------------------------------

  /** A share covers its proportion, as far as the saturating product goes, and by less than one token. */
  lemma ShareBounds(remaining: nat, weight: nat, total: nat)
    requires total > 0 && weight > 0 && remaining > 0
    ensures SatMul(remaining, weight) <= Share(remaining, weight, total) * total < SatMul(remaining, weight) + total
  {
    var product := SatMul(remaining, weight);
    assert product > 0 by { assert remaining * weight > 0; }
    DivCeilBounds(product, total);
    assert DivCeil(product, total) >= 1;
  }

  /** Every share covers its proportion of the budget within one token. */
  ghost predicate Proportional(t: Turn, total: nat)
    requires t.Valid()
  {
    forall k :: 0 <= k < |t.todo| ==>
      var product := SatMul(t.remaining, Weight(t.todo[k]));
      product <= t.shares[k] * total < product + total
  }

  lemma SharesProportional(needs: seq<nat>, have: seq<nat>, todo: seq<nat>, remaining: nat)
    requires Balanced(needs, have, todo) && todo != [] && remaining > 0
    ensures Proportional(TurnOf(needs, have, todo, remaining), TotalWeight(todo))
  {
    hide SatMul, Share;
    var t, total := TurnOf(needs, have, todo, remaining), TotalWeight(todo);
    forall k | 0 <= k < |todo|
      ensures var product := SatMul(remaining, Weight(todo[k])); product <= t.shares[k] * total < product + total
    {
      ShareBounds(remaining, Weight(todo[k]), total);
    }
  }

  /** The first `k` parts cannot have taken more than their rounded-up proportions. */
  lemma {:induction false} SpentBefore(t: Turn, have: seq<nat>, k: nat, total: nat)
    requires t.Valid() && AtMost(have, t.needs) && k <= |t.todo| && Proportional(t, total)
    ensures total * After(t, have, k).spent <= t.remaining * WeightUpTo(t.todo, k) + total * k
  {
    if k > 0 {
      SpentBefore(t, have, k - 1, total);
      var spent := After(t, have, k - 1).spent;
      var g := After(t, have, k).spent - spent;
      assert g <= t.shares[k - 1];
      assert SatMul(t.remaining, Weight(t.todo[k - 1])) <= t.remaining * Weight(t.todo[k - 1]);
      SpentStep(total, spent, g, t.shares[k - 1], t.remaining, Weight(t.todo[k - 1]), WeightUpTo(t.todo, k - 1), k);
    }
  }

  lemma SpentStep(total: nat, spent: nat, g: nat, share: nat, remaining: nat, w: nat, before: nat, k: nat)
    requires k >= 1 && g <= share && share * total < remaining * w + total
    requires total * spent <= remaining * before + total * (k - 1)
    ensures total * (spent + g) <= remaining * (before + w) + total * k
  {
    assert total * g <= total * share;
    assert total * (spent + g) == total * spent + total * g;
    assert remaining * (before + w) == remaining * before + remaining * w;
    assert total * (k - 1) == total * k - total;
  }

  lemma {:induction false} WeightMonotone(todo: seq<nat>, j: nat, k: nat)
    requires j <= k <= |todo|
    ensures WeightUpTo(todo, j) <= WeightUpTo(todo, k)
  {
    if j < k { WeightMonotone(todo, j, k - 1); }
  }

  /** Once visited in a pass, a part is not touched again. */
  lemma {:induction false} SettledAfter(t: Turn, have: seq<nat>, p: nat, k: nat)
    requires t.Valid() && AtMost(have, t.needs) && p < k <= |t.todo|
    ensures After(t, have, k).allocations[t.todo[p]] == After(t, have, p + 1).allocations[t.todo[p]]
  {
    if p + 1 < k { SettledAfter(t, have, p, k - 1); }
  }

  /** What the part at position `p` gains in a pass that leaves it short of its need. */
  lemma GainAt(t: Turn, have: seq<nat>, p: nat)
    requires t.Valid() && AtMost(have, t.needs) && p < |t.todo|
    ensures var i, a := t.todo[p], After(t, have, |t.todo|).allocations;
      || a[i] == t.needs[i]
      || a[i] == have[i] + t.shares[p]
      || a[i] == have[i] + t.remaining - After(t, have, p).spent
  {
    var i := t.todo[p];
    assert i !in t.todo[..p];
    UntouchedYet(t, have, p, i);
    SettledAfter(t, have, p, |t.todo|);
    hide Sum;
    assert After(t, have, p + 1).allocations[i]
      == have[i] + Granted(t.needs[i] - have[i], t.shares[p], t.remaining - After(t, have, p).spent);
  }

  /** Proportional fairness. In a pass with `remaining` tokens over the unsatisfied parts `todo`,
      the part at position `p` either has its whole need met or gains `g` tokens with
      W * (g + p) >= remaining * weight, where W is the total weight and the product saturates. */
  lemma ProportionalShare(needs: seq<nat>, have: seq<nat>, todo: seq<nat>, remaining: nat, p: nat)
    requires Balanced(needs, have, todo) && p < |todo| && remaining > 0
    ensures var after := FullPass(needs, have, todo, remaining).allocations;
      var i := todo[p];
      || after[i] == needs[i]
      || TotalWeight(todo) * (after[i] - have[i] + p) >= SatMul(remaining, Weight(i))
  {
    hide After, Weight, Shares, WeightUpTo;
    var total := TotalWeight(todo);
    var t := TurnOf(needs, have, todo, remaining);
    SharesProportional(needs, have, todo, remaining);
    GainAt(t, have, p);
    var i := todo[p];
    var after := FullPass(needs, have, todo, remaining).allocations;
    if after[i] < needs[i] {
      var g := after[i] - have[i];
      SpentBefore(t, have, p, total);
      WeightStep(todo, p);
      FairnessArithmetic(total, g, t.shares[p], p, remaining, After(t, have, p).spent, Weight(i), WeightUpTo(todo, p),
                         SatMul(remaining, Weight(i)));
    }
  }

  lemma WeightStep(todo: seq<nat>, p: nat)
    requires p < |todo|
    ensures WeightUpTo(todo, p) + Weight(todo[p]) <= TotalWeight(todo)
  {
    WeightMonotone(todo, p + 1, |todo|);
  }

  lemma FairnessArithmetic(total: nat, g: nat, share: nat, p: nat, remaining: nat, spent: nat, w: nat, before: nat,
                           product: nat)
    requires g == share || g == remaining - spent
    requires product <= share * total && product <= remaining * w
    requires total * spent <= remaining * before + total * p
    requires before + w <= total
    ensures total * (g + p) >= product
  {
    assert total * (g + p) == total * g + total * p;
    if g == remaining - spent {
      assert total * g == total * remaining - total * spent;
      assert remaining * (before + w) <= remaining * total;
      assert remaining * (before + w) == remaining * before + remaining * w;
    }
  }

  // ---------------------------------------------------------------------------------------
  // Progress
  // ---------------------------------------------------------------------------------------

  /** The shares of the first `k` parts together. */
  function ShareSum(t: Turn, k: nat): nat
    requires k <= |t.shares|
  {
    if k == 0 then 0 else ShareSum(t, k - 1) + t.shares[k - 1]
  }

  lemma {:induction false} ShareSumGrows(t: Turn, j: nat, k: nat)
    requires j <= k <= |t.shares|
    ensures ShareSum(t, j) <= ShareSum(t, k)
  {
    if j < k { ShareSumGrows(t, j, k - 1); }
  }

  /** The share of each of the first `k` parts is short of what it is missing. */
  predicate SharesShort(t: Turn, have: seq<nat>, k: nat)
    requires t.Valid() && |have| == |t.needs| && k <= |t.todo|
  {
    forall j :: 0 <= j < k ==> have[t.todo[j]] + t.shares[j] < t.needs[t.todo[j]]
  }

  /** Shares that are all short, and together do not use up the budget, are handed out in full. */
  lemma {:induction false} ShortSharesAreSpent(t: Turn, have: seq<nat>, k: nat)
    requires t.Valid() && AtMost(have, t.needs) && k <= |t.todo|
    requires SharesShort(t, have, k) && ShareSum(t, k) < t.remaining
    ensures After(t, have, k).spent == ShareSum(t, k) && |After(t, have, k).unsatisfied| == k
  {
    if k > 0 {
      ShortSharesAreSpent(t, have, k - 1);
      assert t.todo[k - 1] !in t.todo[..k - 1];
      UntouchedYet(t, have, k - 1, t.todo[k - 1]);
    }
  }

  /** A pass that satisfies nobody and does not use up the budget handed out full, short shares. */
  lemma {:induction false} StalledPass(t: Turn, have: seq<nat>, k: nat)
    requires t.Valid() && AtMost(have, t.needs) && k <= |t.todo|
    requires After(t, have, k).spent < t.remaining && |After(t, have, k).unsatisfied| == k
    ensures SharesShort(t, have, k) && After(t, have, k).spent == ShareSum(t, k)
  {
    hide After, AtMost;
    if k == 0 {
      AfterNone(t, have);
    } else {
      RetainStep(t, have, k - 1);
      GainStep(t, have, k - 1);
      StalledPass(t, have, k - 1);
      NotBefore(t, k - 1);
      UntouchedYet(t, have, k - 1, t.todo[k - 1]);
    }
  }

  /** Exactly when a pass makes no progress, for every input, saturation included: it leaves budget over
      and satisfies nobody if and only if every share is short of what its part is missing and the
      shares together are short of the budget. */
  lemma PassStallsIff(needs: seq<nat>, have: seq<nat>, todo: seq<nat>, remaining: nat)
    requires Balanced(needs, have, todo) && todo != [] && remaining > 0
    ensures var p, t := FullPass(needs, have, todo, remaining), TurnOf(needs, have, todo, remaining);
      (p.spent < remaining && |p.unsatisfied| == |todo|) <==>
      (SharesShort(t, have, |todo|) && ShareSum(t, |todo|) < remaining)
  {
    hide After, ShareSum, SharesShort, Shares;
    var t := TurnOf(needs, have, todo, remaining);
    var p := After(t, have, |todo|);
    if SharesShort(t, have, |todo|) && ShareSum(t, |todo|) < remaining { ShortSharesAreSpent(t, have, |todo|); }
    if p.spent < remaining && |p.unsatisfied| == |todo| { StalledPass(t, have, |todo|); }
  }

  /** No product of the budget less one with a weight reaches the `usize` maximum. */
  predicate Narrow(budget: nat, weight: nat) { budget == 0 || (budget - 1) * weight < USIZE_MAX }

  lemma NarrowProduct(remaining: nat, weight: nat)
    requires remaining > 0 && weight > 0 && Narrow(remaining, weight)
    ensures SatMul(remaining, weight) > (remaining - 1) * weight
  {
    assert remaining * weight == (remaining - 1) * weight + weight;
  }

  lemma {:induction false} SharesCover(t: Turn, total: nat, k: nat)
    requires t.Valid() && k <= |t.todo| && t.remaining > 0 && Proportional(t, total)
    requires forall j :: 0 <= j < |t.todo| ==> Narrow(t.remaining, Weight(t.todo[j]))
    ensures total * ShareSum(t, k) >= (t.remaining - 1) * WeightUpTo(t.todo, k) + k
  {
    hide Weight, SatMul, Narrow;
    if k > 0 {
      SharesCover(t, total, k - 1);
      var w := Weight(t.todo[k - 1]);
      NarrowProduct(t.remaining, w);
      CoverStep(total, ShareSum(t, k - 1), t.shares[k - 1], t.remaining - 1, WeightUpTo(t.todo, k - 1), w, k);
    }
  }

  lemma CoverStep(total: nat, sum: nat, share: nat, r: nat, before: nat, w: nat, k: nat)
    requires k >= 1 && total * sum >= r * before + (k - 1) && share * total > r * w
    ensures total * (sum + share) >= r * (before + w) + k
  {
    assert total * (sum + share) == total * sum + share * total;
    assert r * (before + w) == r * before + r * w;
  }

  /** While the budget is narrow for every part's weight, a pass exhausts it or fully satisfies some
      part, because the shares then cover the budget. */
  lemma PassProgress(needs: seq<nat>, have: seq<nat>, todo: seq<nat>, remaining: nat)
    requires Balanced(needs, have, todo) && todo != [] && remaining > 0
    requires forall k :: 0 <= k < |todo| ==> Narrow(remaining, Weight(todo[k]))
    ensures var p := FullPass(needs, have, todo, remaining);
      p.spent == remaining || |p.unsatisfied| < |todo|
  {
    hide After, Weight, Shares, ShareSum, SharesShort, Narrow;
    var t, total := TurnOf(needs, have, todo, remaining), TotalWeight(todo);
    PassStallsIff(needs, have, todo, remaining);
    SharesProportional(needs, have, todo, remaining);
    SharesCover(t, total, |todo|);
    MulCancel(remaining - 1, ShareSum(t, |todo|), total);
  }

  lemma MulMonotone(a: nat, b: nat, w: nat)
    requires a <= b
    ensures a * w <= b * w
  {
  }

  lemma WeightsGrow(i: nat, j: nat)
    requires i <= j
    ensures Weight(i) <= Weight(j)
  {
  }

  lemma NarrowBelow(budget: nat, remaining: nat, w: nat, v: nat)
    requires Narrow(budget, w) && remaining <= budget && v <= w
    ensures Narrow(remaining, v)
  {
    if remaining > 0 {
      MulMonotone(remaining - 1, budget - 1, v);
      MulMonotone(v, w, budget - 1);
    }
  }

  lemma {:induction false} SettleRounds(needs: seq<nat>, have: seq<nat>, todo: seq<nat>, remaining: nat)
    requires Balanced(needs, have, todo) && (needs != [] ==> Narrow(remaining, Weight(|needs| - 1)))
    ensures Settle(needs, have, todo, remaining).1 <= |todo|
    decreases remaining
  {
    hide FullPass, Weight, Narrow;
    if remaining > 0 && todo != [] {
      assert todo[0] < |needs|;
      var w := Weight(|needs| - 1);
      forall k | 0 <= k < |todo| ensures Narrow(remaining, Weight(todo[k])) {
        WeightsGrow(todo[k], |needs| - 1);
        NarrowBelow(remaining, remaining, w, Weight(todo[k]));
      }
      PassProgress(needs, have, todo, remaining);
      var p := FullPass(needs, have, todo, remaining);
      NarrowBelow(remaining, remaining - p.spent, w, w);
      SettleRounds(needs, p.allocations, p.unsatisfied, remaining - p.spent);
    }
  }

  /** With a budget narrow for the last part's weight, the heaviest, the number of passes never exceeds
      the number of positive needs. */
  lemma RoundsBound(needs: seq<nat>, budget: nat)
    requires needs != [] ==> Narrow(budget, Weight(|needs| - 1))
    ensures Rounds(needs, budget) <= |PositiveFrom(needs, 0)|
  {
    hide Settle, PositiveFrom, Zeros, Balanced, Narrow;
    StartBalanced(needs);
    SettleRounds(needs, Zeros(|needs|), PositiveFrom(needs, 0), budget);
  }

  /** `n` parts of which only the last needs anything. */
  function Lone(n: nat, need: nat): (needs: seq<nat>)
    requires n > 0
    ensures |needs| == n
  {
    Zeros(n - 1) + [need]
  }

  lemma {:induction false} LonePositive(n: nat, need: nat, i: nat)
    requires 0 < n && i < n && need > 0
    ensures PositiveFrom(Lone(n, need), i) == [n - 1]
    decreases n - i
  {
    var needs := Lone(n, need);
    if i == n - 1 {
      assert needs[i] == need && PositiveFrom(needs, n) == [];
    } else {
      LonePositive(n, need, i + 1);
    }
  }

  /** The first pass over a lone part. */
  lemma LonePass(n: nat, need: nat, budget: nat)
    requires n > 0 && need > 0 && budget > 0
    ensures var needs, have, w := Lone(n, need), Zeros(n), Weight(n - 1);
      && PositiveFrom(needs, 0) == [n - 1] && Balanced(needs, have, [n - 1])
      && var p := FullPass(needs, have, [n - 1], budget);
      var g := Granted(need, Share(budget, w, w), budget);
      p.spent == g && |p.unsatisfied| == if g < need then 1 else 0
  {
    hide Share, Weight;
    var needs, have, todo := Lone(n, need), Zeros(n), [n - 1];
    LonePositive(n, need, 0);
    StartBalanced(needs);
    assert TotalWeight(todo) == Weight(n - 1) by { assert WeightUpTo(todo, 0) == 0; }
    var t := TurnOf(needs, have, todo, budget);
    assert After(t, have, 0) == Pass(have, 0, []);
    assert t.shares[0] == Share(budget, Weight(n - 1), Weight(n - 1));
    assert have[n - 1] == 0 && needs[n - 1] == need;
  }

  /** How much a lone part gets in the first pass: everything, unless the product saturates. */
  lemma LoneShare(budget: nat, w: nat)
    requires w > 0 && budget > 0
    ensures Share(budget, w, w) == Min(budget, DivCeil(USIZE_MAX, w))
    ensures budget <= DivCeil(USIZE_MAX, w) <==> Narrow(budget, w)
  {
    DivCeilBounds(USIZE_MAX, w);
    DivCeilBounds(budget * w, w);
    var c := DivCeil(USIZE_MAX, w);
    if budget * w <= USIZE_MAX {
      CeilOfMultiple(budget, w);
      if c < budget { MulMonotone(c + 1, budget, w); }
      assert (budget - 1) * w == budget * w - w;
    } else {
      assert (c - 1) * w == c * w - w;
      if budget < c { MulMonotone(budget, c - 1, w); }
      if budget <= c { MulMonotone(budget - 1, c - 1, w); } else { MulMonotone(c, budget - 1, w); }
    }
  }

  lemma CeilOfMultiple(a: nat, w: nat)
    requires w > 0
    ensures DivCeil(a * w, w) == a
  {
    DivCeilBounds(a * w, w);
    var c := DivCeil(a * w, w);
    if c < a { MulMonotone(c + 1, a, w); }
    if c > a { MulMonotone(a + 1, c, w); }
  }

  /** A lone need is served in one pass if and only if it, or the budget, is within the share that the
      saturated product still allows. */
  lemma LonePartRounds(n: nat, need: nat, budget: nat)
    requires n > 0 && need > 0 && budget > 0
    ensures Rounds(Lone(n, need), budget) <= 1 <==> Min(need, budget) <= DivCeil(USIZE_MAX, Weight(n - 1))
  {
    hide Weight, Share, Lone, Balanced, FullPass;
    LonePass(n, need, budget);
    LoneShare(budget, Weight(n - 1));
    var needs := Lone(n, need);
    StartBalanced(needs);
    var p := FullPass(needs, Zeros(n), [n - 1], budget);
    assert Rounds(needs, budget) == Settle(needs, p.allocations, p.unsatisfied, budget - p.spent).1 + 1;
  }

  /** The exact condition on the budget: lists of `n` needs never take more passes than they have
      positive needs if and only if the budget is narrow for the weight of the last part. */
  lemma RoundsBoundIff(n: nat, budget: nat)
    requires n > 0
    ensures (forall needs: seq<nat> :: |needs| == n ==> Rounds(needs, budget) <= |PositiveFrom(needs, 0)|) <==>
            Narrow(budget, Weight(n - 1))
  {
    hide Weight, Lone, Narrow, Rounds, PositiveFrom;
    if Narrow(budget, Weight(n - 1)) {
      forall needs: seq<nat> | |needs| == n ensures Rounds(needs, budget) <= |PositiveFrom(needs, 0)| {
        RoundsBound(needs, budget);
      }
    } else {
      NarrowZero(Weight(n - 1));
      LoneShare(budget, Weight(n - 1));
      LonePartRounds(n, budget, budget);
      LonePositive(n, budget, 0);
      assert |Lone(n, budget)| == n;
    }
  }

  lemma NarrowZero(w: nat)
    ensures Narrow(0, w)
  {
  }

  // ---------------------------------------------------------------------------------------
  // The numbers, where no need is met
  // ---------------------------------------------------------------------------------------

  /** The content weighs 100 and each attachment 5 more than the one before, up to saturation. */
  lemma WeightIs(i: nat)
    ensures 100 + 5 * i <= USIZE_MAX ==> Weight(i) == 100 + 5 * i
    ensures 100 + 5 * i > USIZE_MAX ==> Weight(i) == USIZE_MAX
  {
  }

  /** The positions 0, 1, 2, … below `n`. */
  function Positions(n: nat): (r: seq<nat>)
    ensures |r| == n && forall i :: 0 <= i < n ==> r[i] == i
  {
    seq(n, i => i)
  }

  lemma {:induction false} AllPositive(needs: seq<nat>, i: nat)
    requires i <= |needs| && forall j :: 0 <= j < |needs| ==> needs[j] > 0
    ensures PositiveFrom(needs, i) == Positions(|needs|)[i..]
    decreases |needs| - i
  {
    if i < |needs| {
      AllPositive(needs, i + 1);
      assert Positions(|needs|)[i..] == [i] + Positions(|needs|)[i + 1..];
    }
  }

  /** The weight of `k` parts in closed form. */
  lemma {:induction false} WeightOfAll(n: nat, k: nat)
    requires k <= n && 100 + 5 * n <= USIZE_MAX
    ensures 2 * WeightUpTo(Positions(n), k) == 200 * k + 5 * k * (k - 1)
  {
    if k > 0 {
      WeightOfAll(n, k - 1);
      WeightIs(k - 1);
      assert 5 * k * (k - 1) == 5 * (k - 1) * (k - 2) + 10 * (k - 1);
    }
  }

  /** A pass over needs that are all at least the budget hands out full shares while they last. */
  lemma {:induction false} LargeSpent(t: Turn, have: seq<nat>, k: nat)
    requires t.Valid() && t.todo == Positions(|t.needs|) && have == Zeros(|t.needs|) && k <= |t.todo|
    requires AtMost(have, t.needs) && forall i :: 0 <= i < |t.needs| ==> t.needs[i] >= t.remaining
    ensures After(t, have, k).spent == Min(t.remaining, ShareSum(t, k))
  {
    hide After, AtMost;
    if k == 0 {
      AfterNone(t, have);
    } else {
      LargeSpent(t, have, k - 1);
      GainStep(t, have, k - 1);
      NotBefore(t, k - 1);
      UntouchedYet(t, have, k - 1, k - 1);
    }
  }

  lemma LargeAt(t: Turn, have: seq<nat>, j: nat)
    requires t.Valid() && t.todo == Positions(|t.needs|) && have == Zeros(|t.needs|) && j < |t.todo|
    requires AtMost(have, t.needs) && forall i :: 0 <= i < |t.needs| ==> t.needs[i] >= t.remaining
    ensures After(t, have, |t.todo|).allocations[j] == Min(t.shares[j], Monus(t.remaining, ShareSum(t, j)))
  {
    hide After, AtMost;
    LargeSpent(t, have, j);
    GainStep(t, have, j);
    NotBefore(t, j);
    UntouchedYet(t, have, j, j);
    SettledAfter(t, have, j, |t.todo|);
  }

  /** The budget allows exact products with every weight of `n` parts, whose weights sum to `total`. */
  predicate ExactFor(n: nat, budget: nat, total: nat) {
    && n > 0 && budget > 0 && total > 0
    && budget * (95 + 5 * n) <= USIZE_MAX && 100 + 5 * n <= USIZE_MAX
    && 2 * total == 200 * n + 5 * n * (n - 1)
  }

  /** The proportion of the part at position `k`, rounded up. */
  function Proportion(budget: nat, total: nat, k: nat): nat
    requires total > 0
  {
    DivCeil(budget * (100 + 5 * k), total)
  }

  /** The proportions of the first `k` parts together. */
  function Proportions(budget: nat, total: nat, k: nat): nat
    requires total > 0
  {
    if k == 0 then 0 else Proportions(budget, total, k - 1) + Proportion(budget, total, k - 1)
  }

  /** When every part needs at least the whole budget and no product saturates, the part at position k
      gets its proportion rounded up, or what the earlier ones left: with n parts the proportion is
      budget * (100 + 5k) out of the sum 100n + 5n(n-1)/2 of all weights. */
  lemma LargeNeedsShares(needs: seq<nat>, budget: nat, k: nat, total: nat)
    requires k < |needs| && total > 0 && ExactFor(|needs|, budget, total)
    requires forall i :: 0 <= i < |needs| ==> needs[i] >= budget
    ensures Allocations(needs, budget)[k]
            == Min(Proportion(budget, total, k), Monus(budget, Proportions(budget, total, k)))
  {
    hide After, Weight, Narrow, ShareSum, Shares, PositiveFrom, ExactFor, AtMost, Proportion, Proportional, Balanced;
    var n, todo, have := |needs|, Positions(|needs|), Zeros(|needs|);
    StartsWithAll(needs, budget, total);
    var t := TurnOf(needs, have, todo, budget);
    LargeShares(needs, budget, total, t);
    SumOfShares(t, budget, total, k);
    LargeAt(t, have, k);
    LargeSpent(t, have, n);
    SharesReach(t, total);
    assert budget > 0 by { ExactBudget(n, budget, total); }
    SettledInOne(needs, have, todo, budget);
  }

  lemma ExactBudget(n: nat, budget: nat, total: nat)
    requires ExactFor(n, budget, total)
    ensures n > 0 && budget > 0
  {
  }

  lemma LargeShares(needs: seq<nat>, budget: nat, total: nat, t: Turn)
    requires total > 0 && ExactFor(|needs|, budget, total) && Balanced(needs, Zeros(|needs|), Positions(|needs|))
    requires TotalWeight(Positions(|needs|)) == total && t == TurnOf(needs, Zeros(|needs|), Positions(|needs|), budget)
    ensures |t.shares| == |needs| && t.remaining > 0 && t.todo != []
    ensures forall j :: 0 <= j < |needs| ==> t.shares[j] == Proportion(budget, total, j)
    ensures forall j :: 0 <= j < |t.todo| ==> Narrow(t.remaining, Weight(t.todo[j]))
  {
    hide Weight, Narrow, Balanced, ExactFor, Proportion, Share;
    ExactBudget(|needs|, budget, total);
    forall j | 0 <= j < |needs| ensures t.shares[j] == Proportion(budget, total, j) && Narrow(budget, Weight(j)) {
      ExactShare(needs, budget, total, j);
    }
  }

  lemma StartsWithAll(needs: seq<nat>, budget: nat, total: nat)
    requires ExactFor(|needs|, budget, total) && forall i :: 0 <= i < |needs| ==> needs[i] >= budget
    ensures PositiveFrom(needs, 0) == Positions(|needs|) && TotalWeight(Positions(|needs|)) == total
    ensures AtMost(Zeros(|needs|), needs) && Balanced(needs, Zeros(|needs|), Positions(|needs|))
    ensures Proportional(TurnOf(needs, Zeros(|needs|), Positions(|needs|), budget), total)
  {
    hide Weight, Shares, Proportional, WeightUpTo;
    AllPositive(needs, 0);
    assert Positions(|needs|)[0..] == Positions(|needs|);
    StartBalanced(needs);
    WeightOfAll(|needs|, |needs|);
    SharesProportional(needs, Zeros(|needs|), Positions(|needs|), budget);
  }

  /** Proportional shares reach the budget. */
  lemma SharesReach(t: Turn, total: nat)
    requires t.Valid() && t.remaining > 0 && t.todo != [] && total == TotalWeight(t.todo) && Proportional(t, total)
    requires forall j :: 0 <= j < |t.todo| ==> Narrow(t.remaining, Weight(t.todo[j]))
    ensures ShareSum(t, |t.todo|) >= t.remaining
  {
    hide Weight, Narrow, ShareSum, Proportional;
    SharesCover(t, total, |t.todo|);
    MulCancel(t.remaining - 1, ShareSum(t, |t.todo|), total);
  }

  lemma {:induction false} SumOfShares(t: Turn, budget: nat, total: nat, k: nat)
    requires total > 0 && k <= |t.shares|
    requires forall j :: 0 <= j < |t.shares| ==> t.shares[j] == Proportion(budget, total, j)
    ensures ShareSum(t, k) == Proportions(budget, total, k)
  {
    hide Proportion;
    if k > 0 { SumOfShares(t, budget, total, k - 1); }
  }

  lemma ExactShare(needs: seq<nat>, budget: nat, total: nat, j: nat)
    requires j < |needs| && total > 0 && ExactFor(|needs|, budget, total)
    ensures Share(budget, Weight(j), total) == Proportion(budget, total, j)
    ensures Narrow(budget, Weight(j))
  {
    WeightIs(j);
    var w := 100 + 5 * j;
    MulMonotone(w, 95 + 5 * |needs|, budget);
    assert budget * w <= USIZE_MAX;
    assert budget * w > 0;
    assert (budget - 1) * w == budget * w - w;
    DivCeilBounds(budget * w, total);
    assert DivCeil(budget * w, total) > 0;
  }

  /** A pass that uses up the budget is the last one. */
  lemma SettledInOne(needs: seq<nat>, have: seq<nat>, todo: seq<nat>, budget: nat)
    requires Balanced(needs, have, todo) && todo != [] && budget > 0
    requires FullPass(needs, have, todo, budget).spent == budget
    ensures Settle(needs, have, todo, budget).0 == FullPass(needs, have, todo, budget).allocations
  {
    hide FullPass;
  }

  /** For two such parts: the content gets 100 of 205 of the budget, rounded up, the attachment the rest. */
  lemma TwoLargeNeeds(x: nat, y: nat, budget: nat)
    requires 0 < budget <= x && budget <= y && 105 * budget <= USIZE_MAX
    ensures Allocations([x, y], budget) == [DivCeil(100 * budget, 205), budget - DivCeil(100 * budget, 205)]
  {
    hide Allocations;
    LargeNeedsShares([x, y], budget, 0, 205);
    LargeNeedsShares([x, y], budget, 1, 205);
    WorkConserving([x, y], budget);
    var a, c := Allocations([x, y], budget), DivCeil(100 * budget, 205);
    DivCeilBounds(100 * budget, 205);
    assert Proportions(budget, 205, 0) == 0;
    assert a == [a[0], a[1]] && [x, y] == [x] + [y];
    assert Sum(a) == a[0] + a[1] by { TwoSum(a[0], a[1]); }
    TwoSum(x, y);
  }

  lemma TwoSum(p: nat, q: nat)
    ensures Sum([p, q]) == p + q
  {
    assert [p, q][..1] == [p] && [p][..0] == [];
    assert Sum([p][..0]) == 0;
  }

  // ---------------------------------------------------------------------------------------
  // The loops
  // ---------------------------------------------------------------------------------------

  /** The pass of `retain` as a loop over the unsatisfied parts (lines 473-487). */
  method PassLoop(needs: seq<nat>, have: seq<nat>, todo: seq<nat>, remaining: nat, total: nat, ghost t: Turn)
    returns (allocations: seq<nat>, spent: nat, unsatisfied: seq<nat>)
    requires t.Valid() && t.needs == needs && t.todo == todo && t.remaining == remaining && total > 0
    requires AtMost(have, needs)
    requires forall k :: 0 <= k < |todo| ==> t.shares[k] == Share(remaining, Weight(todo[k]), total)
    ensures Pass(allocations, spent, unsatisfied) == After(t, have, |todo|)
  {
    hide After, Share, Weight, Granted, AtMost;
    AfterNone(t, have);
    allocations, spent, unsatisfied := have, 0, [];
    for k := 0 to |todo|
      invariant Pass(allocations, spent, unsatisfied) == After(t, have, k)
    {
      AfterStep(t, have, k);
      var i := todo[k];
      var share := Share(remaining, Weight(i), total);
      var granted := Granted(Monus(needs[i], allocations[i]), share, Monus(remaining, spent));
      allocations := allocations[i := allocations[i] + granted];
      spent := spent + granted;
      if allocations[i] < needs[i] {
        unsatisfied := unsatisfied + [i];
      }
    }
  }

  lemma PassReady(needs: seq<nat>, have: seq<nat>, todo: seq<nat>, remaining: nat)
    requires Balanced(needs, have, todo) && todo != []
    ensures AtMost(have, needs) && TotalWeight(todo) > 0
    ensures var t := TurnOf(needs, have, todo, remaining);
      |t.shares| == |todo| &&
      forall k :: 0 <= k < |todo| ==> t.shares[k] == Share(remaining, Weight(todo[k]), TotalWeight(todo))
  {
    hide Share, Weight, WeightUpTo;
  }

  /** `recency_weighted_token_allocations`. The early exit on `spent == 0` (lines 488-490) is never
      taken: every pass is shown to spend something. */
  method RecencyWeightedAllocations(needs: seq<nat>, budget: nat) returns (allocations: seq<nat>)
    ensures allocations == Allocations(needs, budget)
    ensures forall i :: 0 <= i < |needs| ==> allocations[i] <= needs[i]
    ensures Sum(allocations) == Min(budget, Sum(needs))
  {
    hide Share, Weight, WeightUpTo, Balanced, After, AtMost, Shares, Sum, PositiveFrom, Zeros;
    StartBalanced(needs);
    allocations := Zeros(|needs|);
    var unsatisfied := PositiveFrom(needs, 0);
    var remaining := budget;
    while remaining > 0 && unsatisfied != []
      invariant Balanced(needs, allocations, unsatisfied)
      invariant Settle(needs, allocations, unsatisfied, remaining).0 == Allocations(needs, budget)
      decreases remaining
    {
      ghost var p := FullPass(needs, allocations, unsatisfied, remaining);
      ghost var t := TurnOf(needs, allocations, unsatisfied, remaining);
      PassReady(needs, allocations, unsatisfied, remaining);
      var spent;
      allocations, spent, unsatisfied :=
        PassLoop(needs, allocations, unsatisfied, remaining, TotalWeight(unsatisfied), t);
      assert spent == p.spent > 0;
      remaining := Monus(remaining, spent);
    }
    WorkConserving(needs, budget);
  }
}
