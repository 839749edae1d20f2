/** Generalized advantage estimation: the backward loop, its closed form as discounted sums cut at episode
    ends, and the reward-to-go it becomes without smoothing. */
module Gae {
  import opened Prelude

  /** A rollout: one reward, value and done flag per step; one more value, if present, bootstraps the tail. */
  datatype Rollout = Rollout(rewards: seq<real>, values: seq<real>, dones: seq<real>) {
    predicate Valid() { |values| >= |rewards| && |dones| >= |rewards| }

    /** Done flags are zero or one. */
    predicate Flagged() { forall i :: 0 <= i < |dones| ==> dones[i] in {0.0, 1.0} }

    function Next(t: nat): real { if t + 1 < |values| then values[t + 1] else 0.0 }
  }


  /** One step's temporal-difference error; the next value does not count past an episode's end. */
  function Delta(r: Rollout, gamma: real, t: nat): real
    requires r.Valid() && t < |r.rewards|
  {
    r.rewards[t] + Times(Times(gamma, r.Next(t)), 1.0 - r.dones[t]) - r.values[t]
  }

  /** The recurrence the loop runs backwards. */
  function Advantage(r: Rollout, gamma: real, lam: real, t: nat): real
    requires r.Valid() && t <= |r.rewards|
    decreases |r.rewards| - t
  {
    if t == |r.rewards| then 0.0
    else Delta(r, gamma, t) + Times(Times(Times(gamma, lam), 1.0 - r.dones[t]), Advantage(r, gamma, lam, t + 1))
  }

  method ComputeGae(r: Rollout, gamma: real, lam: real) returns (result: Result<(seq<real>, seq<real>)>)
    ensures result.Ok? <==> r.rewards == [] || r.Valid()
    ensures result.Ok? ==>
              var (adv, returns_) := result.value;
              && |adv| == |returns_| == |r.rewards|
              && forall t :: 0 <= t < |r.rewards| ==>
                   adv[t] == Advantage(r, gamma, lam, t) && returns_[t] == adv[t] + r.values[t]
  {
    var n := |r.rewards|;
    if n > 0 && !r.Valid() {
      return Err("list index out of range");
    }
    var adv := seq(n, _ => 0.0);
    var last := 0.0;
    var t := n;
    while t > 0
      invariant 0 <= t <= n && |adv| == n
      invariant n > 0 ==> last == Advantage(r, gamma, lam, t)
      invariant forall k :: t <= k < n ==> adv[k] == Advantage(r, gamma, lam, k)
    {
      t := t - 1;
      var nonterminal := 1.0 - r.dones[t];
      var delta := r.rewards[t] + Times(Times(gamma, r.Next(t)), nonterminal) - r.values[t];
      last := delta + Times(Times(Times(gamma, lam), nonterminal), last);
      adv := adv[t := last];
    }
    var returns_ := seq(n, i requires 0 <= i < n => adv[i] + r.values[i]);
    result := Ok((adv, returns_));
  }

  // ---------------------------------------------------------------- the closed form


  /** The end of the episode that step `t` belongs to: one past the first done, or the rollout's end. */
  function EpisodeEnd(r: Rollout, t: nat): (e: nat)
    requires r.Valid() && t <= |r.rewards|
    ensures t <= e <= |r.rewards| && (t < |r.rewards| ==> t < e)
    decreases |r.rewards| - t
  {
    if t == |r.rewards| then t
    else if r.dones[t] == 1.0 then t + 1
    else EpisodeEnd(r, t + 1)
  }

  /** The sum over `k` in `[t, e)` of `x` to the power `k - t` times `s[k]`. */
  function Discounted(x: real, s: seq<real>, t: nat, e: nat): real
    requires t <= e <= |s|
  {
    if e == t then 0.0 else Discounted(x, s, t, e - 1) + Times(Power(x, e - 1 - t), s[e - 1])
  }

  function Deltas(r: Rollout, gamma: real): (d: seq<real>)
    requires r.Valid()
    ensures |d| == |r.rewards|
  {
    seq(|r.rewards|, t requires 0 <= t < |r.rewards| => Delta(r, gamma, t))
  }

  lemma TimesOverSum(a: real, b: real, c: real)
    ensures Times(a, b + c) == Times(a, b) + Times(a, c)
  {
  }

  lemma TimesAssociates(a: real, b: real, c: real)
    ensures Times(Times(a, b), c) == Times(a, Times(b, c))
  {
  }

  lemma TimesUnits(a: real)
    ensures Times(a, 1.0) == a == Times(1.0, a) && Times(a, 0.0) == 0.0 == Times(0.0, a)
  {
  }

  /** A discounted sum from its front. */
  lemma {:induction false} DiscountedFromFront(x: real, s: seq<real>, t: nat, e: nat)
    requires t < e <= |s|
    ensures Discounted(x, s, t, e) == s[t] + Times(x, Discounted(x, s, t + 1, e))
  {
    hide Times;
    if e == t + 1 {
      TimesUnits(s[t]);
      TimesUnits(x);
      assert Discounted(x, s, t, e - 1) == 0.0;
    } else {
      DiscountedFromFront(x, s, t, e - 1);
      var rest := Discounted(x, s, t + 1, e - 1);
      TimesAssociates(x, Power(x, e - 2 - t), s[e - 1]);
      TimesOverSum(x, rest, Times(Power(x, e - 2 - t), s[e - 1]));
    }
  }

  /** The loop's advantage is the sum of the temporal-difference errors to the end of the episode, each
      discounted by gamma times lambda a step. */
  lemma {:induction false} AdvantageIsDiscountedErrors(r: Rollout, gamma: real, lam: real, t: nat)
    requires r.Valid() && r.Flagged() && t <= |r.rewards|
    ensures Advantage(r, gamma, lam, t) == Discounted(Times(gamma, lam), Deltas(r, gamma), t, EpisodeEnd(r, t))
    decreases |r.rewards| - t
  {
    hide Times, Delta;
    if t < |r.rewards| {
      var x := Times(gamma, lam);
      var e := EpisodeEnd(r, t);
      DiscountedFromFront(x, Deltas(r, gamma), t, e);
      AdvantageIsDiscountedErrors(r, gamma, lam, t + 1);
      TimesUnits(x);
      TimesUnits(Advantage(r, gamma, lam, t + 1));
      if r.dones[t] == 1.0 {
        assert Discounted(x, Deltas(r, gamma), t + 1, e) == 0.0;
      } else {
        assert r.dones[t] == 0.0;
      }
    }
  }

  /** Nothing after a done step reaches back before it: two rollouts alike up to a done step have the same
      advantages up to it, whatever follows, however long. */
  lemma {:induction false} DoneCutsTheFuture(r: Rollout, q: Rollout, gamma: real, lam: real, d: nat, t: nat)
    requires r.Valid() && q.Valid() && t <= d < |r.rewards| && d < |q.rewards|
    requires r.rewards[..d + 1] == q.rewards[..d + 1] && r.values[..d + 1] == q.values[..d + 1]
    requires r.dones[..d + 1] == q.dones[..d + 1] && r.dones[d] == 1.0
    ensures Advantage(r, gamma, lam, t) == Advantage(q, gamma, lam, t)
    decreases d - t
  {
    hide Times;
    assert r.rewards[t] == r.rewards[..d + 1][t] == q.rewards[t];
    assert r.values[t] == r.values[..d + 1][t] == q.values[t];
    assert r.dones[t] == r.dones[..d + 1][t] == q.dones[t];
    if t < d {
      DoneCutsTheFuture(r, q, gamma, lam, d, t + 1);
      assert r.values[t + 1] == r.values[..d + 1][t + 1] == q.values[t + 1];
    } else {
      TimesUnits(Times(gamma, r.Next(t)));
      TimesUnits(Times(gamma, q.Next(t)));
      TimesUnits(Times(gamma, lam));
      TimesUnits(Advantage(r, gamma, lam, t + 1));
      TimesUnits(Advantage(q, gamma, lam, t + 1));
    }
  }

  /** The value bootstrapped behind an episode: none past a done step. */
  function Tail(r: Rollout, t: nat): real
    requires r.Valid() && t <= |r.rewards|
  {
    var e := EpisodeEnd(r, t);
    if t < e && r.dones[e - 1] == 1.0 then 0.0 else if e < |r.values| then r.values[e] else 0.0
  }

  /** With lambda one the values telescope: a return is the discounted reward-to-go of its episode, plus the
      discounted bootstrap value when the rollout stops inside it. */
  lemma {:induction false} ReturnsTelescope(r: Rollout, gamma: real, t: nat)
    requires r.Valid() && r.Flagged() && t < |r.rewards|
    ensures var e := EpisodeEnd(r, t);
            Advantage(r, gamma, 1.0, t) + r.values[t]
              == Discounted(gamma, r.rewards, t, e) + Times(Power(gamma, e - t), Tail(r, t))
    decreases |r.rewards| - t
  {
    hide Times;
    var e := EpisodeEnd(r, t);
    var after := Advantage(r, gamma, 1.0, t + 1);
    DiscountedFromFront(gamma, r.rewards, t, e);
    TimesUnits(gamma);
    TimesUnits(Times(gamma, r.Next(t)));
    TimesUnits(after);
    if r.dones[t] == 1.0 {
      TimesUnits(Power(gamma, e - t));
      assert Discounted(gamma, r.rewards, t + 1, e) == 0.0;
    } else if t + 1 == |r.rewards| {
      assert r.dones[t] == 0.0;
      assert Power(gamma, 0) == 1.0 && Power(gamma, 1) == Times(gamma, 1.0);
      assert Discounted(gamma, r.rewards, t + 1, e) == 0.0;
    } else {
      assert r.dones[t] == 0.0;
      ReturnsTelescope(r, gamma, t + 1);
      var togo, tail := Discounted(gamma, r.rewards, t + 1, e), Tail(r, t + 1);
      TimesOverSum(gamma, after, r.values[t + 1]);
      TimesOverSum(gamma, togo, Times(Power(gamma, e - t - 1), tail));
      TimesAssociates(gamma, Power(gamma, e - t - 1), tail);
    }
  }
}
