/**
 A lock-free counter: many threads add, one sampler reads and ships. Every step
 here is one atomic operation, and steps of different threads may alternate in
 any way.
 */
module Counters {
  import opened Wrappers
  import opened Bytes

  /** `values` is never empty: an unlabelled counter has the one value "". */
  datatype Config = Config(values: seq<string>, cumulative: bool)

  /** Where the sampler is: between a load and the swap, other threads may add. */
  datatype Sampler = Resting | Loading(row: nat) | Loaded(row: nat, now: nat, seen: nat)

  /**
   The atomic cells, and beside them what the cells cannot show: everything ever
   added, how much of that the last swap had seen, and the points shipped.
   */
  datatype State = State(totals: seq<nat>, shipped: seq<nat>, sampler: Sampler,
                         added: seq<nat>, seen: seq<nat>, points: seq<seq<nat>>)

  datatype Action = Add(value: string, n: u64) | Inc(n: u64) | StartSample | Load | Ship

  function Rows(c: Config): nat {
    |c.values|
  }

  function Init(c: Config): State {
    var zero := seq(Rows(c), _ => 0);
    State(zero, zero, Resting, zero, zero, seq(Rows(c), _ => []))
  }

  /** The first series registered for `value`, if any. */
  function IndexOf(values: seq<string>, value: string): Option<nat> {
    if values == [] then None
    else if values[0] == value then Some(0)
    else
      var i :- IndexOf(values[1..], value);
      Some(i + 1)
  }

  /** `fetch_add`: wraps at 2^64. */
  function FetchAdd(s: State, i: nat, n: u64): State
    requires i < |s.totals| == |s.added|
  {
    s.(totals := s.totals[i := (s.totals[i] + n) % TWO_64], added := s.added[i := s.added[i] + n])
  }

  function SaturatingSub(a: nat, b: nat): nat {
    if a >= b then a - b else 0
  }

  predicate Shaped(c: Config, s: State) {
    && |s.totals| == |s.shipped| == |s.added| == |s.seen| == |s.points| == Rows(c)
    && (!s.sampler.Resting? ==> s.sampler.row < Rows(c))
  }

  function Next(c: Config, s: State, a: Action): State
    requires Shaped(c, s)
  {
    match a
    case Add(value, n) =>
      var i := IndexOf(c.values, value);
      if i.Some? && i.value < Rows(c) then FetchAdd(s, i.value, n) else s
    case Inc(n) =>
      if Rows(c) > 0 then FetchAdd(s, 0, n) else s
    case StartSample =>
      if s.sampler.Resting? && Rows(c) > 0 then s.(sampler := Loading(0)) else s
    case Load =>
      if s.sampler.Loading? then
        var r := s.sampler.row;
        s.(sampler := Loaded(r, s.totals[r], s.added[r]))
      else s
    case Ship =>
      if s.sampler.Loaded? then
        var Loaded(r, now, seen) := s.sampler;
        var next := if r + 1 < Rows(c) then Loading(r + 1) else Resting;
        if c.cumulative then s.(points := s.points[r := s.points[r] + [now]], sampler := next)
        else
          s.(points := s.points[r := s.points[r] + [SaturatingSub(now, s.shipped[r])]],
             shipped := s.shipped[r := now], seen := s.seen[r := seen], sampler := next)
      else s
  }

  function Run(c: Config, s: State, acts: seq<Action>): (r: State)
    requires Shaped(c, s)
    ensures Shaped(c, r)
  {
    if acts == [] then s else Next(c, Run(c, s, acts[..|acts| - 1]), acts[|acts| - 1])
  }

  function Sum(ps: seq<nat>): nat {
    if ps == [] then 0 else Sum(ps[..|ps| - 1]) + ps[|ps| - 1]
  }

  lemma SumOneMore(ps: seq<nat>, p: nat)
    ensures Sum(ps + [p]) == Sum(ps) + p
  {
    assert (ps + [p])[..|ps|] == ps;
  }

  /** What holds of series `i` whatever the threads do, wrap-around included. */
  predicate Row(c: Config, s: State, i: nat)
    requires Shaped(c, s) && i < Rows(c)
  {
    && s.totals[i] == s.added[i] % TWO_64
    && s.shipped[i] == s.seen[i] % TWO_64
    && s.seen[i] <= s.added[i]
    && (s.sampler.Loaded? && s.sampler.row == i ==>
          s.sampler.now == s.sampler.seen % TWO_64 && s.seen[i] <= s.sampler.seen <= s.added[i])
    && (c.cumulative ==> s.seen[i] == 0)
    && (!c.cumulative ==> Sum(s.points[i]) <= s.seen[i] && (Sum(s.points[i]) == s.seen[i] <==> s.seen[i] < TWO_64))
  }

  ghost predicate Inv(c: Config, s: State) {
    Shaped(c, s) && forall i :: 0 <= i < Rows(c) ==> Row(c, s, i)
  }

  /** Adding to a wrapped total wraps the same way. */
  lemma AddWraps(a: nat, n: u64)
    ensures (a % TWO_64 + n) % TWO_64 == (a + n) % TWO_64
  {
    var q := a / TWO_64;
    assert a == TWO_64 * q + a % TWO_64;
    if a % TWO_64 + n < TWO_64 {
      assert (a + n) / TWO_64 == q;
    } else {
      assert (a + n) / TWO_64 == q + 1;
    }
  }

  /** What one delta point adds falls short exactly when the total wrapped in between. */
  lemma DeltaPoint(before: nat, now: nat, sum: nat)
    requires before <= now && sum <= before && (sum == before <==> before < TWO_64)
    ensures var point := SaturatingSub(now % TWO_64, before % TWO_64);
      && sum + point <= now
      && (sum + point == now <==> now < TWO_64)
  {
    assert before % TWO_64 <= before && now % TWO_64 <= now;
    if before < TWO_64 {
      assert before % TWO_64 == before;
    } else {
      var q, p := before / TWO_64, now / TWO_64;
      assert before == TWO_64 * q + before % TWO_64 && now == TWO_64 * p + now % TWO_64;
      assert p >= q;
      assert TWO_64 * p >= TWO_64 * q;
    }
  }

  /** What a sample ships: the total, or the change since the last sample, or nothing once the total has wrapped. */
  lemma ShippedPoint(c: Config, s: State)
    requires Shaped(c, s) && s.sampler.Loaded?
    ensures var r, now := s.sampler.row, s.sampler.now;
      var points := Next(c, s, Ship).points[r];
      && points[..|points| - 1] == s.points[r] && |points| == |s.points[r]| + 1
      && (c.cumulative ==> points[|points| - 1] == now)
      && (!c.cumulative && now >= s.shipped[r] ==> points[|points| - 1] == now - s.shipped[r])
      && (!c.cumulative && now < s.shipped[r] ==> points[|points| - 1] == 0)
  {
  }

  lemma ShipKeeps(c: Config, s: State, i: nat)
    requires Inv(c, s) && s.sampler.Loaded? && i < Rows(c)
    ensures Row(c, Next(c, s, Ship), i)
  {
    assert Row(c, s, i);
    var t := Next(c, s, Ship);
    var r := s.sampler.row;
    if i == r && !c.cumulative {
      SumOneMore(s.points[r], SaturatingSub(s.sampler.now, s.shipped[r]));
      DeltaPoint(s.seen[r], s.sampler.seen, Sum(s.points[r]));
    }
  }

  lemma StepKeeps(c: Config, s: State, a: Action)
    requires Inv(c, s)
    ensures Inv(c, Next(c, s, a))
  {
    var t := Next(c, s, a);
    forall i | 0 <= i < Rows(c)
      ensures Row(c, t, i)
    {
      assert Row(c, s, i);
      match a
      case Add(_, n) => AddWraps(s.added[i], n);
      case Inc(n) => AddWraps(s.added[i], n);
      case Ship =>
        if s.sampler.Loaded? {
          ShipKeeps(c, s, i);
        }
      case _ =>
    }
  }

  /** Every state any interleaving can reach. */
  lemma {:induction false} EveryRun(c: Config, acts: seq<Action>)
    ensures Inv(c, Run(c, Init(c), acts))
  {
    if acts != [] {
      EveryRun(c, acts[..|acts| - 1]);
      StepKeeps(c, Run(c, Init(c), acts[..|acts| - 1]), acts[|acts| - 1]);
    }
  }

  lemma ModBelow(x: nat)
    ensures x < TWO_64 ==> x % TWO_64 == x
  {
  }

  lemma RowBelow(c: Config, s: State, i: nat)
    requires Shaped(c, s) && i < Rows(c) && Row(c, s, i) && !c.cumulative && s.added[i] < TWO_64
    ensures s.totals[i] == s.added[i] && Sum(s.points[i]) == s.shipped[i] <= s.totals[i]
    ensures s.sampler.Loaded? && s.sampler.row == i ==> s.shipped[i] <= s.sampler.now <= s.totals[i]
  {
    hide Sum;
    assert s.seen[i] % TWO_64 == s.seen[i];
    if s.sampler.Loaded? {
      ModBelow(s.sampler.seen);
    }
  }

  /**
   While less than 2^64 was added to a delta series: its points sum to its
   shipped cell, that never exceeds the total, and the subtraction never saturates.
   */
  lemma DeltaConserves(c: Config, acts: seq<Action>, i: nat)
    requires !c.cumulative && i < Rows(c)
    ensures var s := Run(c, Init(c), acts);
      s.added[i] < TWO_64 ==>
        && s.totals[i] == s.added[i]
        && Sum(s.points[i]) == s.shipped[i] <= s.totals[i]
        && (s.sampler.Loaded? && s.sampler.row == i ==> s.shipped[i] <= s.sampler.now <= s.totals[i])
  {
    hide Run, Next;
    EveryRun(c, acts);
    var s := Run(c, Init(c), acts);
    assert Row(c, s, i);
    if s.added[i] < TWO_64 {
      RowBelow(c, s, i);
    }
  }

  // ---- A whole pass of the sampler, nobody adding ----

  function PassFrom(c: Config, r: nat): seq<Action>
    requires r <= Rows(c)
    decreases Rows(c) - r
  {
    if r == Rows(c) then [] else [Load, Ship] + PassFrom(c, r + 1)
  }

  function Pass(c: Config): seq<Action> {
    [StartSample] + PassFrom(c, 0)
  }

  lemma {:induction false} RunConcat(c: Config, s: State, a: seq<Action>, b: seq<Action>)
    requires Shaped(c, s)
    ensures Run(c, s, a + b) == Run(c, Run(c, s, a), b)
  {
    hide Next;
    if b == [] {
      assert a + b == a;
    } else {
      RunConcat(c, s, a, b[..|b| - 1]);
      assert (a + b)[..|a + b| - 1] == a + b[..|b| - 1];
    }
  }

  lemma RunTwo(c: Config, s: State, a: Action, b: Action)
    requires Shaped(c, s)
    ensures Run(c, s, [a]) == Next(c, s, a)
    ensures Shaped(c, Next(c, s, a))
    ensures Run(c, s, [a, b]) == Next(c, Next(c, s, a), b)
  {
    assert Run(c, s, [a]) == Next(c, Run(c, s, []), a) by {
      assert [a][..0] == [];
    }
    assert [a, b][..1] == [a];
  }

  lemma RunNothing(c: Config, s: State)
    requires Shaped(c, s)
    ensures Run(c, s, []) == s
  {
  }

  lemma OneRow(c: Config, s: State, i: nat)
    requires Shaped(c, s) && s.sampler.Loading? && i < Rows(c)
    ensures var r, t := s.sampler.row, Run(c, s, [Load, Ship]);
      && t.sampler == (if r + 1 < Rows(c) then Loading(r + 1) else Resting)
      && t.totals == s.totals && t.added == s.added
      && (i != r ==> t.points[i] == s.points[i] && t.seen[i] == s.seen[i])
      && (i == r ==> |t.points[i]| == |s.points[i]| + 1)
      && (i == r && !c.cumulative ==> t.seen[i] == s.added[i])
      && (i == r && c.cumulative ==> t.points[i] == s.points[i] + [s.totals[i]])
  {
    hide Run;
    RunTwo(c, s, Load, Ship);
  }

  /** Series `i` after the pass from row `r` on: shipped once if still ahead, untouched if done. */
  lemma {:induction false} PassRow(c: Config, s: State, r: nat, i: nat)
    requires Shaped(c, s) && r <= Rows(c) && i < Rows(c)
    requires s.sampler == if r < Rows(c) then Loading(r) else Resting
    ensures var t := Run(c, s, PassFrom(c, r));
      && t.sampler == Resting && t.totals == s.totals && t.added == s.added
      && |t.points[i]| == |s.points[i]| + (if i >= r then 1 else 0)
      && (i < r ==> t.points[i] == s.points[i] && t.seen[i] == s.seen[i])
      && (i >= r && !c.cumulative ==> t.seen[i] == s.added[i])
      && (i >= r && c.cumulative ==> t.points[i] == s.points[i] + [s.totals[i]])
    decreases Rows(c) - r
  {
    hide Next, Run;
    if r == Rows(c) {
      assert Run(c, s, []) == s by {
        RunNothing(c, s);
      }
    } else {
      OneRow(c, s, i);
      var u := Run(c, s, [Load, Ship]);
      RunConcat(c, s, [Load, Ship], PassFrom(c, r + 1));
      PassRow(c, u, r + 1, i);
    }
  }

  /**
   A sample after the last add ships one point per series. A delta series then has
   shipped exactly what was added if and only if that stayed below 2^64; a
   cumulative series ships its total.
   */
  lemma LastSampleShipsAll(c: Config, acts: seq<Action>, i: nat)
    requires i < Rows(c)
    requires Run(c, Init(c), acts).sampler.Resting?
    ensures var s, t := Run(c, Init(c), acts), Run(c, Init(c), acts + Pass(c));
      && |t.points[i]| == |s.points[i]| + 1
      && t.added == s.added
      && (!c.cumulative ==> (Sum(t.points[i]) == t.added[i] <==> t.added[i] < TWO_64))
      && (c.cumulative ==> t.points[i] == s.points[i] + [t.added[i] % TWO_64])
  {
    var s := Run(c, Init(c), acts);
    RunConcat(c, Init(c), acts, Pass(c));
    RunTwo(c, s, StartSample, Load);
    RunConcat(c, s, [StartSample], PassFrom(c, 0));
    PassRow(c, Next(c, s, StartSample), 0, i);
    EveryRun(c, acts);
    EveryRun(c, acts + Pass(c));
    assert Row(c, s, i);
    assert Row(c, Run(c, Init(c), acts + Pass(c)), i);
  }

  // ---- What calls reach which series ----

  /** What the calls among `acts` meant for series `i`. */
  function Meant(c: Config, acts: seq<Action>, i: nat): nat {
    if acts == [] then 0
    else
      var a := acts[|acts| - 1];
      Meant(c, acts[..|acts| - 1], i)
      + match a
        case Add(value, n) => if IndexOf(c.values, value) == Some(i) then n else 0
        case Inc(n) => if i == 0 then n else 0
        case _ => 0
  }

  /** The label lookup finds a registered value at its first place, and nothing else. */
  lemma {:induction false} IndexOfFinds(values: seq<string>, value: string)
    ensures match IndexOf(values, value)
      case Some(i) => i < |values| && values[i] == value && value !in values[..i]
      case None => value !in values
  {
    if values != [] && values[0] != value {
      IndexOfFinds(values[1..], value);
      var i := IndexOf(values[1..], value);
      if i.Some? {
        assert values[..i.value + 1] == [values[0]] + values[1..][..i.value];
      } else {
        assert values == [values[0]] + values[1..];
      }
    }
  }

  /** No add is lost or counted for another series; adds under unknown labels are dropped. */
  lemma {:induction false} AddsArrive(c: Config, acts: seq<Action>, i: nat)
    requires i < Rows(c)
    ensures Run(c, Init(c), acts).added[i] == Meant(c, acts, i)
  {
    if acts != [] {
      var before := acts[..|acts| - 1];
      AddsArrive(c, before, i);
      var a := acts[|acts| - 1];
      if a.Add? {
        IndexOfFinds(c.values, a.value);
      }
    }
  }

  // ---- The handle ----

  lemma StepOfRow(c: Config, s: State, r: nat)
    requires Shaped(c, s) && r < Rows(c) && s.sampler == Loading(r)
    ensures var now := s.totals[r];
      var point := if c.cumulative then now else SaturatingSub(now, s.shipped[r]);
      var t := Next(c, Next(c, s, Load), Ship);
      && t.totals == s.totals && t.points == s.points[r := s.points[r] + [point]]
      && t.shipped == (if c.cumulative then s.shipped else s.shipped[r := now])
      && t.sampler == (if r + 1 < Rows(c) then Loading(r + 1) else Resting)
  {
  }

  function RowSteps(n: nat): seq<Action> {
    if n == 0 then [] else RowSteps(n - 1) + [Load, Ship]
  }

  lemma StartRun(c: Config, s: State)
    requires Shaped(c, s) && s.sampler.Resting? && Rows(c) > 0
    ensures Run(c, s, [StartSample] + RowSteps(0)) == s.(sampler := Loading(0))
  {
    assert [StartSample] + RowSteps(0) == [StartSample];
    RunTwo(c, s, StartSample, Load);
  }

  lemma RowMore(c: Config, s: State, r: nat)
    requires Shaped(c, s)
    ensures var t := Run(c, s, [StartSample] + RowSteps(r));
      && Shaped(c, Next(c, t, Load))
      && Run(c, s, [StartSample] + RowSteps(r + 1)) == Next(c, Next(c, t, Load), Ship)
  {
    hide Next;
    var before := [StartSample] + RowSteps(r);
    var t := Run(c, s, before);
    assert [StartSample] + RowSteps(r + 1) == before + [Load, Ship];
    RunConcat(c, s, before, [Load, Ship]);
    RunTwo(c, t, Load, Ship);
  }

  /** The steps of `Sample` are the pass of the whole-run theorems. */
  lemma {:induction false} RowStepsArePass(c: Config, r: nat)
    requires r <= Rows(c)
    ensures RowSteps(r) + PassFrom(c, r) == RowSteps(Rows(c))
    decreases Rows(c) - r
  {
    if r < Rows(c) {
      RowStepsArePass(c, r + 1);
      assert RowSteps(r) + ([Load, Ship] + PassFrom(c, r + 1)) == (RowSteps(r) + [Load, Ship]) + PassFrom(c, r + 1);
    }
  }

  lemma SampleIsPass(c: Config)
    ensures [StartSample] + RowSteps(Rows(c)) == Pass(c)
  {
    RowStepsArePass(c, 0);
    assert RowSteps(0) + PassFrom(c, 0) == PassFrom(c, 0);
  }

  /** The counter itself. A call that nobody interrupts is a run of the steps above. */
  class Counter {
    const c: Config
    var totals: seq<nat>
    var shipped: seq<nat>
    ghost var state: State

    ghost predicate Valid()
      reads this
    {
      Shaped(c, state) && totals == state.totals && shipped == state.shipped && state.sampler.Resting?
    }

    constructor (values: seq<string>, cumulative: bool)
      ensures Valid() && c == Config(if values == [] then [""] else values, cumulative) && state == Init(c)
    {
      c := Config(if values == [] then [""] else values, cumulative);
      var n := if |values| >= 1 then |values| else 1;
      totals := seq(n, _ => 0);
      shipped := seq(n, _ => 0);
      state := Init(Config(if values == [] then [""] else values, cumulative));
    }

    method AddTo(value: string, n: u64)
      requires Valid()
      modifies this
      ensures Valid() && state == Next(c, old(state), Add(value, n))
    {
      var i := IndexOf(c.values, value);
      if i.Some? && i.value < |totals| {
        totals := totals[i.value := (totals[i.value] + n) % TWO_64];
      }
      state := Next(c, state, Add(value, n));
    }

    method Increase(n: u64)
      requires Valid()
      modifies this
      ensures Valid() && state == Next(c, old(state), Inc(n))
    {
      if |totals| > 0 {
        totals := totals[0 := (totals[0] + n) % TWO_64];
      }
      state := Next(c, state, Inc(n));
    }

    /** One point per series: the change since the last sample, or the total. */
    method Sample() returns (points: seq<nat>)
      requires Valid() && Rows(c) > 0
      modifies this
      ensures Valid() && |points| == Rows(c)
      ensures state == Run(c, old(state), Pass(c))
      ensures forall i :: 0 <= i < |points| ==> state.points[i] == old(state.points)[i] + [points[i]]
    {
      hide Next, Run;
      ghost var before := state;
      points := [];
      StartRun(c, before);
      state := Run(c, before, [StartSample] + RowSteps(0));
      var r := 0;
      while r < |totals|
        invariant r <= |totals| == Rows(c) && Shaped(c, state) && |points| == r
        invariant totals == state.totals && shipped == state.shipped
        invariant state == Run(c, before, [StartSample] + RowSteps(r))
        invariant state.sampler == if r < Rows(c) then Loading(r) else Resting
        invariant forall i :: 0 <= i < r ==> state.points[i] == before.points[i] + [points[i]]
        invariant forall i :: r <= i < Rows(c) ==> state.points[i] == before.points[i]
      {
        StepOfRow(c, state, r);
        var now := totals[r];
        var point := if c.cumulative then now else SaturatingSub(now, shipped[r]);
        if !c.cumulative {
          shipped := shipped[r := now];
        }
        points := points + [point];
        RowMore(c, before, r);
        state := Run(c, before, [StartSample] + RowSteps(r + 1));
        r := r + 1;
      }
      SampleIsPass(c);
    }
  }
}
