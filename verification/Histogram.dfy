/**
 A lock-free histogram: many threads observe values. Counters move by
 `fetch_add`, the sum and the extremes by compare-and-swap with retry. Every
 step here is one atomic operation, and steps of different threads alternate
 in any way.
 */
module Histograms {
  import opened Wrappers
  import opened Bytes
  import opened Counting

  // ---- Doubles ----

  /** Doubles as extended reals; negative zero equals zero but sorts before it. */
  datatype F64 = NaN | NegInf | NegZero | Finite(v: real) | PosInf

  function Real(x: F64): real {
    if x.Finite? then x.v else 0.0
  }

  predicate IsFinite(x: F64) {
    x.Finite? || x.NegZero?
  }

  /** `<=` of doubles: false as soon as one is NaN. */
  predicate Le(a: F64, b: F64) {
    if a.NaN? || b.NaN? then false
    else if a.NegInf? || b.PosInf? then true
    else if a.PosInf? || b.NegInf? then false
    else Real(a) <= Real(b)
  }

  /** The order of doubles: of reals when finite, infinities outside, zeros equal, NaN beside all. */
  lemma OrderOfDoubles(a: real, b: real, x: F64)
    ensures Le(Finite(a), Finite(b)) <==> a <= b
    ensures !x.NaN? <==> Le(NegInf, x) && Le(x, PosInf)
    ensures !Le(NaN, x) && !Le(x, NaN)
    ensures !Le(PosInf, Finite(a)) && !Le(Finite(a), NegInf) && !Le(PosInf, NegInf)
    ensures Le(NegZero, Finite(a)) <==> 0.0 <= a
    ensures Le(Finite(a), NegZero) <==> a <= 0.0
  {
  }

  predicate Lt(a: F64, b: F64) {
    Le(a, b) && !Le(b, a)
  }

  /** `==` of doubles. */
  predicate Eq(a: F64, b: F64) {
    Le(a, b) && Le(b, a)
  }

  /** `total_cmp`, for what is not NaN. */
  predicate TotalLe(a: F64, b: F64) {
    Lt(a, b) || (Eq(a, b) && (a == b || a.NegZero?))
  }

  /** `f64::min`: ignores NaN unless both are. */
  function Min(a: F64, b: F64): F64 {
    if a.NaN? then b else if b.NaN? || Le(a, b) then a else b
  }

  function Max(a: F64, b: F64): F64 {
    if a.NaN? then b else if b.NaN? || Le(b, a) then a else b
  }

  // ---- Bounds ----

  function WithoutNaN(xs: seq<F64>): seq<F64> {
    if xs == [] then []
    else WithoutNaN(xs[..|xs| - 1]) + (if xs[|xs| - 1].NaN? then [] else [xs[|xs| - 1]])
  }

  function Insert(xs: seq<F64>, x: F64): seq<F64> {
    if xs == [] || TotalLe(xs[|xs| - 1], x) then xs + [x] else Insert(xs[..|xs| - 1], x) + [xs[|xs| - 1]]
  }

  /** What `sort_by(f64::total_cmp)` leaves. */
  function Sort(xs: seq<F64>): seq<F64> {
    if xs == [] then [] else Insert(Sort(xs[..|xs| - 1]), xs[|xs| - 1])
  }

  /** What `dedup` leaves: the first of every run of equals. */
  function Dedup(xs: seq<F64>): seq<F64> {
    if xs == [] then []
    else
      var before, x := Dedup(xs[..|xs| - 1]), xs[|xs| - 1];
      if before != [] && Eq(before[|before| - 1], x) then before else before + [x]
  }

  ghost predicate Ascending(xs: seq<F64>) {
    forall i, j :: 0 <= i < j < |xs| ==> Lt(xs[i], xs[j])
  }

  ghost predicate Among(xs: seq<F64>, x: F64) {
    exists i :: 0 <= i < |xs| && Eq(xs[i], x)
  }

  /** The one case without a catch-all bucket: there are bounds, and they are all negative infinity. */
  ghost predicate OnlyNegInf(bounds: seq<F64>) {
    Among(bounds, NegInf) && forall i :: 0 <= i < |bounds| ==> bounds[i].NaN? || bounds[i].NegInf?
  }

  ghost predicate Numbers(xs: seq<F64>) {
    forall i :: 0 <= i < |xs| ==> !xs[i].NaN?
  }

  lemma {:induction false} KeptAreNumbers(xs: seq<F64>)
    ensures Numbers(WithoutNaN(xs))
    ensures forall x: F64 :: x in WithoutNaN(xs) <==> x in xs && !x.NaN?
  {
    if xs != [] {
      KeptAreNumbers(xs[..|xs| - 1]);
      assert xs == xs[..|xs| - 1] + [xs[|xs| - 1]];
    }
  }

  ghost predicate Sorted(xs: seq<F64>) {
    forall i, j :: 0 <= i < j < |xs| ==> Le(xs[i], xs[j])
  }

  lemma TotalIsNumeric(a: F64, b: F64)
    requires !a.NaN? && !b.NaN?
    ensures if TotalLe(a, b) then Le(a, b) else Le(b, a)
  {
  }

  lemma LeTransitive(a: F64, b: F64, c: F64)
    requires Le(a, b) && Le(b, c)
    ensures Le(a, c)
  {
  }

  lemma AtEndSorted(xs: seq<F64>, x: F64)
    requires Sorted(xs) && forall i :: 0 <= i < |xs| ==> Le(xs[i], x)
    ensures Sorted(xs + [x])
  {
    hide Le;
  }

  lemma {:induction false} InsertSorts(xs: seq<F64>, x: F64)
    requires Sorted(xs) && Numbers(xs) && !x.NaN?
    ensures Sorted(Insert(xs, x)) && Numbers(Insert(xs, x))
    ensures forall y: F64 :: y in Insert(xs, x) <==> y in xs || y == x
  {
    hide Le, TotalLe;
    if xs != [] {
      var n := |xs| - 1;
      var last := xs[n];
      TotalIsNumeric(last, x);
      if TotalLe(last, x) {
        forall i | 0 <= i < n
          ensures Le(xs[i], x)
        {
          LeTransitive(xs[i], last, x);
        }
        AtEndSorted(xs, x);
      } else {
        var r := Insert(xs[..n], x);
        InsertSorts(xs[..n], x);
        assert xs == xs[..n] + [last];
        forall i | 0 <= i < |r|
          ensures Le(r[i], last)
        {
          assert r[i] in r;
          assert r[i] in xs[..n] || r[i] == x;
        }
        AtEndSorted(r, last);
      }
    }
  }

  lemma {:induction false} SortSorts(xs: seq<F64>)
    requires Numbers(xs)
    ensures Sorted(Sort(xs)) && Numbers(Sort(xs))
    ensures forall y: F64 :: y in Sort(xs) <==> y in xs
  {
    if xs != [] {
      var n := |xs| - 1;
      SortSorts(xs[..n]);
      InsertSorts(Sort(xs[..n]), xs[n]);
      assert xs == xs[..n] + [xs[n]];
    }
  }

  lemma NothingAscends()
    ensures Ascending([])
  {
  }

  lemma EqualToItself(x: F64)
    requires !x.NaN?
    ensures Eq(x, x)
  {
  }

  lemma AfterEqual(kept: F64, dropped: F64, x: F64)
    requires Eq(kept, dropped) && Le(dropped, x)
    ensures Eq(kept, x) || Lt(kept, x)
  {
  }

  lemma LtTransitive(a: F64, b: F64, c: F64)
    requires Lt(a, b) && Lt(b, c)
    ensures Lt(a, c)
  {
  }

  lemma AppendAscends(xs: seq<F64>, x: F64)
    requires Ascending(xs) && (xs == [] || Lt(xs[|xs| - 1], x))
    ensures Ascending(xs + [x])
  {
    hide Le;
    forall i | 0 <= i < |xs|
      ensures Lt(xs[i], x)
    {
      if i < |xs| - 1 {
        LtTransitive(xs[i], xs[|xs| - 1], x);
      }
    }
  }

  lemma {:induction false} DedupAscends(xs: seq<F64>)
    requires Sorted(xs) && Numbers(xs)
    ensures Ascending(Dedup(xs)) && Numbers(Dedup(xs))
    ensures xs != [] ==> Dedup(xs) != [] && Eq(Dedup(xs)[|Dedup(xs)| - 1], xs[|xs| - 1])
  {
    hide Le, Ascending, Lt;
    if xs == [] {
      NothingAscends();
    } else {
      var n := |xs| - 1;
      var before := Dedup(xs[..n]);
      DedupAscends(xs[..n]);
      EqualToItself(xs[n]);
      if before != [] {
        AfterEqual(before[|before| - 1], xs[n - 1], xs[n]);
      }
      if before == [] || Lt(before[|before| - 1], xs[n]) {
        AppendAscends(before, xs[n]);
      }
    }
  }

  lemma AmongKept(xs: seq<F64>, x: F64)
    requires !x.NaN?
    ensures Among(WithoutNaN(xs), x) <==> Among(xs, x)
  {
    KeptAreNumbers(xs);
    if Among(xs, x) {
      var i :| 0 <= i < |xs| && Eq(xs[i], x);
      assert xs[i] in WithoutNaN(xs);
    }
    if Among(WithoutNaN(xs), x) {
      var i :| 0 <= i < |WithoutNaN(xs)| && Eq(WithoutNaN(xs)[i], x);
      assert WithoutNaN(xs)[i] in xs;
    }
  }

  lemma AmongSame(xs: seq<F64>, ys: seq<F64>, x: F64)
    requires forall y: F64 :: y in xs <==> y in ys
    ensures Among(xs, x) <==> Among(ys, x)
  {
    if Among(xs, x) {
      var i :| 0 <= i < |xs| && Eq(xs[i], x);
      assert xs[i] in ys;
    }
    if Among(ys, x) {
      var i :| 0 <= i < |ys| && Eq(ys[i], x);
      assert ys[i] in xs;
    }
  }

  lemma AmongMore(xs: seq<F64>, y: F64, x: F64)
    ensures Among(xs + [y], x) <==> Among(xs, x) || Eq(y, x)
  {
    if Among(xs, x) {
      var i :| 0 <= i < |xs| && Eq(xs[i], x);
      assert (xs + [y])[i] == xs[i];
    }
    assert (xs + [y])[|xs|] == y;
  }

  lemma {:induction false} AmongDedup(xs: seq<F64>, x: F64)
    requires Numbers(xs)
    ensures Among(Dedup(xs), x) <==> Among(xs, x)
  {
    if xs != [] {
      var n := |xs| - 1;
      AmongDedup(xs[..n], x);
      var before := Dedup(xs[..n]);
      AmongMore(xs[..n], xs[n], x);
      AmongMore(before, xs[n], x);
      assert xs == xs[..n] + [xs[n]];
      if before != [] && Eq(before[|before| - 1], xs[n]) && Eq(xs[n], x) {
        assert Eq(before[|before| - 1], x);
      }
    }
  }

  /** Without NaN, sorted and without duplicates, the bounds ascend strictly and none is lost. */
  lemma DedupedBounds(bounds: seq<F64>)
    ensures var r := Dedup(Sort(WithoutNaN(bounds)));
      && Ascending(r) && Numbers(r)
      && forall x: F64 :: !x.NaN? ==> (Among(r, x) <==> Among(bounds, x))
  {
    hide Among, Le, Ascending;
    var kept := WithoutNaN(bounds);
    KeptAreNumbers(bounds);
    SortSorts(kept);
    DedupAscends(Sort(kept));
    forall x: F64 | !x.NaN?
      ensures Among(Dedup(Sort(kept)), x) <==> Among(bounds, x)
    {
      AmongKept(bounds, x);
      AmongSame(kept, Sort(kept), x);
      AmongDedup(Sort(kept), x);
    }
  }

  lemma Appended(xs: seq<F64>)
    requires Ascending(xs) && Numbers(xs) && (xs == [] || IsFinite(xs[|xs| - 1]))
    ensures Ascending(xs + [PosInf])
    ensures forall x: F64 :: !x.NaN? && !x.PosInf? ==> (Among(xs + [PosInf], x) <==> Among(xs, x))
  {
    forall i | 0 <= i < |xs|
      ensures Lt(xs[i], PosInf)
    {
      assert i < |xs| - 1 ==> Lt(xs[i], xs[|xs| - 1]);
    }
    forall x: F64 | !x.NaN? && !x.PosInf?
      ensures Among(xs + [PosInf], x) <==> Among(xs, x)
    {
      AmongMore(xs, PosInf, x);
    }
  }

  lemma AmongAt(xs: seq<F64>, i: nat)
    requires i < |xs|
    ensures !xs[i].NaN? ==> Among(xs, xs[i])
    ensures Numbers(xs) ==> !xs[i].NaN?
  {
  }

  lemma BelowLast(xs: seq<F64>, x: F64)
    requires Ascending(xs) && Among(xs, x)
    ensures Le(x, xs[|xs| - 1])
  {
    var k :| 0 <= k < |xs| && Eq(xs[k], x);
    assert k < |xs| - 1 ==> Lt(xs[k], xs[|xs| - 1]);
  }

  lemma AmongWhere(xs: seq<F64>, x: F64) returns (i: nat)
    requires Among(xs, x)
    ensures i < |xs| && Eq(xs[i], x)
  {
    i :| 0 <= i < |xs| && Eq(xs[i], x);
  }

  /** The largest bound tells whether all of them are negative infinity. */
  lemma LastIsNegInf(bounds: seq<F64>, deduped: seq<F64>)
    requires Ascending(deduped) && Numbers(deduped) && deduped != []
    requires forall x: F64 :: !x.NaN? ==> (Among(deduped, x) <==> Among(bounds, x))
    ensures deduped[|deduped| - 1].NegInf? <==> OnlyNegInf(bounds)
  {
    hide Among, Numbers;
    var last := deduped[|deduped| - 1];
    AmongAt(deduped, |deduped| - 1);
    if last.NegInf? {
      forall i | 0 <= i < |bounds| && !bounds[i].NaN?
        ensures bounds[i].NegInf?
      {
        AmongAt(bounds, i);
        BelowLast(deduped, bounds[i]);
      }
    } else {
      assert Among(bounds, last);
      var i := AmongWhere(bounds, last);
      assert !bounds[i].NegInf? && !bounds[i].NaN?;
    }
  }

  lemma EndsInInfinity(bounds: seq<F64>, deduped: seq<F64>, r: seq<F64>)
    requires Ascending(deduped) && Numbers(deduped)
    requires forall x: F64 :: !x.NaN? ==> (Among(deduped, x) <==> Among(bounds, x))
    requires r == if deduped == [] || IsFinite(deduped[|deduped| - 1]) then deduped + [PosInf] else deduped
    ensures r[|r| - 1] == PosInf <==> !OnlyNegInf(bounds)
  {
    if deduped == [] {
      assert !Among(deduped, NegInf);
    } else {
      hide Among, OnlyNegInf, Ascending;
      LastIsNegInf(bounds, deduped);
    }
  }

  /** The bounds a histogram works with. */
  method NormaliseBounds(bounds: seq<F64>) returns (r: seq<F64>)
    ensures Ascending(r) && r != []
    ensures r[|r| - 1] == PosInf <==> !OnlyNegInf(bounds)
    ensures forall x: F64 :: !x.NaN? && !x.PosInf? ==> (Among(r, x) <==> Among(bounds, x))
  {
    hide Among, Ascending, OnlyNegInf, Numbers, Le;
    var kept := WithoutNaN(bounds);
    var sorted := Sort(kept);
    r := Dedup(sorted);
    DedupedBounds(bounds);
    var deduped := r;
    if r == [] || IsFinite(r[|r| - 1]) {
      r := r + [PosInf];
      Appended(deduped);
    }
    EndsInInfinity(bounds, deduped, r);
  }

  // ---- One series, many observers ----

  /** Where an observation is. A compare-and-swap carries the bits it last read. */
  datatype Pc =
    | Start | LoadSum | SwapSum(current: F64) | LoadMin | SwapMin(current: F64)
    | LoadMax | SwapMax(current: F64) | Bucket(b: nat)

  datatype Call = Call(value: F64, pc: Pc)

  /** The cells, the observations under way or done, and the order in which sums were swapped in. */
  datatype State = State(count: nat, sum: F64, min: F64, max: F64, buckets: seq<nat>,
                         calls: seq<Call>, order: seq<F64>)

  /** The bounds, and how doubles add up. */
  datatype Config = Config(bounds: seq<F64>, add: (F64, F64) -> F64)

  /** A new observation, or the next atomic step of one; a weak swap may fail for no reason. */
  datatype Action = Observe(value: F64) | Advance(call: nat, spurious: bool)

  function Init(c: Config): State {
    State(0, Finite(0.0), PosInf, NegInf, seq(|c.bounds|, _ => 0), [], [])
  }

  function Moved(s: State, i: nat, pc: Pc): seq<Call>
    requires i < |s.calls|
  {
    s.calls[i := s.calls[i].(pc := pc)]
  }

  function Step(c: Config, s: State, i: nat, spurious: bool): State
    requires i < |s.calls| && |s.buckets| == |c.bounds|
  {
    var v := s.calls[i].value;
    match s.calls[i].pc
    case Start => s.(count := (s.count + 1) % TWO_64, calls := Moved(s, i, LoadSum))
    case LoadSum => s.(calls := Moved(s, i, SwapSum(s.sum)))
    case SwapSum(current) =>
      if s.sum == current && !spurious then
        s.(sum := c.add(current, v), order := s.order + [v], calls := Moved(s, i, LoadMin))
      else s.(calls := Moved(s, i, SwapSum(s.sum)))
    case LoadMin => s.(calls := Moved(s, i, SwapMin(s.min)))
    case SwapMin(current) =>
      if s.min == current && !spurious then s.(min := Min(current, v), calls := Moved(s, i, LoadMax))
      else s.(calls := Moved(s, i, SwapMin(s.min)))
    case LoadMax => s.(calls := Moved(s, i, SwapMax(s.max)))
    case SwapMax(current) =>
      if s.max == current && !spurious then s.(max := Max(current, v), calls := Moved(s, i, Bucket(0)))
      else s.(calls := Moved(s, i, SwapMax(s.max)))
    case Bucket(b) =>
      if b >= |c.bounds| then s
      else
        var t := s.(calls := Moved(s, i, Bucket(b + 1)));
        if Le(v, c.bounds[b]) then t.(buckets := s.buckets[b := (s.buckets[b] + 1) % TWO_64]) else t
  }

  function Next(c: Config, s: State, a: Action): State
    requires |s.buckets| == |c.bounds|
  {
    match a
    case Observe(v) => s.(calls := s.calls + [Call(v, Start)])
    case Advance(i, spurious) => if i < |s.calls| then Step(c, s, i, spurious) else s
  }

  function Run(c: Config, acts: seq<Action>): (s: State)
    ensures |s.buckets| == |c.bounds|
  {
    if acts == [] then Init(c) else Next(c, Run(c, acts[..|acts| - 1]), acts[|acts| - 1])
  }

  /** How far an observation is. */
  function Rank(pc: Pc): nat {
    match pc
    case Start => 0
    case LoadSum => 1
    case SwapSum(_) => 1
    case LoadMin => 2
    case SwapMin(_) => 2
    case LoadMax => 3
    case SwapMax(_) => 3
    case Bucket(b) => 4 + b
  }

  function Past(k: nat): Call -> bool {
    (c: Call) => Rank(c.pc) >= k
  }

  function PastBucket(bound: F64, b: nat): Call -> bool {
    (c: Call) => Rank(c.pc) >= 5 + b && Le(c.value, bound)
  }

  function Is(v: F64): F64 -> bool {
    (x: F64) => x == v
  }

  /** The calls that have swapped `v` into the sum. */
  function SummedAs(v: F64): Call -> bool {
    (c: Call) => Rank(c.pc) >= 2 && c.value == v
  }

  function Fold(add: (F64, F64) -> F64, xs: seq<F64>): F64 {
    if xs == [] then Finite(0.0) else add(Fold(add, xs[..|xs| - 1]), xs[|xs| - 1])
  }

  ghost predicate Counted(c: Config, s: State) {
    && |s.buckets| == |c.bounds|
    && s.count == Count(s.calls, Past(1)) % TWO_64
    && forall b :: 0 <= b < |c.bounds| ==> s.buckets[b] == Count(s.calls, PastBucket(c.bounds[b], b)) % TWO_64
  }

  ghost predicate SumIsFold(c: Config, s: State) {
    && s.sum == Fold(c.add, s.order)
    && forall v: F64 :: Count(s.order, Is(v)) == Count(s.calls, SummedAs(v))
  }

  ghost predicate Observed(calls: seq<Call>, v: F64) {
    exists i :: 0 <= i < |calls| && calls[i].value == v
  }

  ghost predicate MinSound(s: State) {
    && !s.min.NaN?
    && (forall i :: 0 <= i < |s.calls| && Rank(s.calls[i].pc) >= 3 && !s.calls[i].value.NaN? ==>
        Le(s.min, s.calls[i].value))
    && (s.min == PosInf || Observed(s.calls, s.min))
  }

  ghost predicate MaxSound(s: State) {
    && !s.max.NaN?
    && (forall i :: 0 <= i < |s.calls| && Rank(s.calls[i].pc) >= 4 && !s.calls[i].value.NaN? ==>
        Le(s.calls[i].value, s.max))
    && (s.max == NegInf || Observed(s.calls, s.max))
  }

  ghost predicate Extremes(s: State) {
    MinSound(s) && MaxSound(s)
  }

  lemma OneMoreWraps(a: nat)
    ensures (a % TWO_64 + 1) % TWO_64 == (a + 1) % TWO_64
  {
  }

  lemma CountedStep(c: Config, s: State, i: nat, spurious: bool)
    requires Counted(c, s) && i < |s.calls|
    ensures Counted(c, Step(c, s, i, spurious))
  {
    hide Count;
    var t := Step(c, s, i, spurious);
    var call := t.calls[i];
    assert t.calls == s.calls[i := call];
    CountUpdate(s.calls, i, call, Past(1));
    OneMoreWraps(Count(s.calls, Past(1)));
    forall b | 0 <= b < |c.bounds|
      ensures t.buckets[b] == Count(t.calls, PastBucket(c.bounds[b], b)) % TWO_64
    {
      CountUpdate(s.calls, i, call, PastBucket(c.bounds[b], b));
      OneMoreWraps(Count(s.calls, PastBucket(c.bounds[b], b)));
    }
  }

  lemma CountedNext(c: Config, s: State, a: Action)
    requires Counted(c, s)
    ensures Counted(c, Next(c, s, a))
  {
    match a
    case Observe(v) =>
      CountMore(s.calls, Call(v, Start), Past(1));
      forall b | 0 <= b < |c.bounds|
        ensures Count(s.calls + [Call(v, Start)], PastBucket(c.bounds[b], b))
            == Count(s.calls, PastBucket(c.bounds[b], b))
      {
        CountMore(s.calls, Call(v, Start), PastBucket(c.bounds[b], b));
      }
    case Advance(i, spurious) =>
      if i < |s.calls| {
        CountedStep(c, s, i, spurious);
      }
  }

  lemma NotYet()
    ensures Rank(Start) == 0
  {
  }

  /** Only the step that wins the swap moves a call past its sum, and it appends the call's value. */
  lemma OrderStep(c: Config, s: State, i: nat, spurious: bool)
    requires |s.buckets| == |c.bounds| && i < |s.calls|
    ensures var t := Step(c, s, i, spurious);
      && t.calls == s.calls[i := t.calls[i]] && t.calls[i].value == s.calls[i].value
      && (Rank(t.calls[i].pc) >= 2 <==> Rank(s.calls[i].pc) >= 2 || t.order != s.order)
      && (t.order != s.order ==> Rank(s.calls[i].pc) < 2)
      && (t.order == s.order || t.order == s.order + [s.calls[i].value])
  {
  }

  lemma SumNextAt(c: Config, s: State, a: Action, v: F64)
    requires |s.buckets| == |c.bounds| && Count(s.order, Is(v)) == Count(s.calls, SummedAs(v))
    ensures Count(Next(c, s, a).order, Is(v)) == Count(Next(c, s, a).calls, SummedAs(v))
  {
    hide Count, Step, Rank;
    if a.Observe? {
      CountMore(s.calls, Call(a.value, Start), SummedAs(v));
      NotYet();
    } else if a.call < |s.calls| {
      OrderStep(c, s, a.call, a.spurious);
      var t := Step(c, s, a.call, a.spurious);
      CountUpdate(s.calls, a.call, t.calls[a.call], SummedAs(v));
      CountMore(s.order, s.calls[a.call].value, Is(v));
    }
  }

  lemma SumNext(c: Config, s: State, a: Action)
    requires |s.buckets| == |c.bounds| && SumIsFold(c, s)
    ensures SumIsFold(c, Next(c, s, a))
  {
    hide Count;
    var t := Next(c, s, a);
    if t.order != s.order {
      assert t.order[..|s.order|] == s.order;
    }
    forall v: F64
      ensures Count(t.order, Is(v)) == Count(t.calls, SummedAs(v))
    {
      SumNextAt(c, s, a, v);
    }
  }

  lemma ObservedStays(c: Config, s: State, a: Action, v: F64)
    requires |s.buckets| == |c.bounds| && Observed(s.calls, v)
    ensures Observed(Next(c, s, a).calls, v)
  {
    var i :| 0 <= i < |s.calls| && s.calls[i].value == v;
    assert Next(c, s, a).calls[i].value == v;
  }

  lemma MinIs(m: F64, v: F64)
    requires !m.NaN?
    ensures Min(m, v) == m || Min(m, v) == v
    ensures !Min(m, v).NaN? && (!v.NaN? ==> Le(Min(m, v), v)) && (v.NaN? ==> Min(m, v) == m)
  {
  }

  lemma MinBelow(m: F64, v: F64, x: F64)
    requires !m.NaN? && Le(m, x)
    ensures Le(Min(m, v), x)
  {
  }

  lemma MinNext(c: Config, s: State, a: Action)
    requires |s.buckets| == |c.bounds| && MinSound(s)
    ensures MinSound(Next(c, s, a))
  {
    var t := Next(c, s, a);
    if Observed(s.calls, s.min) {
      ObservedStays(c, s, a, s.min);
    }
    if a.Advance? && a.call < |s.calls| {
      var v := s.calls[a.call].value;
      assert t.calls[a.call].value == v;
      hide Le;
      MinIs(s.min, v);
      forall i | 0 <= i < |t.calls| && Rank(t.calls[i].pc) >= 3 && !t.calls[i].value.NaN?
        ensures Le(t.min, t.calls[i].value)
      {
        if i != a.call && t.min != s.min {
          MinBelow(s.min, v, s.calls[i].value);
        }
      }
    }
  }

  lemma MaxIs(m: F64, v: F64)
    requires !m.NaN?
    ensures Max(m, v) == m || Max(m, v) == v
    ensures !Max(m, v).NaN? && (!v.NaN? ==> Le(v, Max(m, v))) && (v.NaN? ==> Max(m, v) == m)
  {
  }

  lemma MaxAbove(m: F64, v: F64, x: F64)
    requires !m.NaN? && Le(x, m)
    ensures Le(x, Max(m, v))
  {
  }

  lemma MaxNext(c: Config, s: State, a: Action)
    requires |s.buckets| == |c.bounds| && MaxSound(s)
    ensures MaxSound(Next(c, s, a))
  {
    var t := Next(c, s, a);
    if Observed(s.calls, s.max) {
      ObservedStays(c, s, a, s.max);
    }
    if a.Advance? && a.call < |s.calls| {
      var v := s.calls[a.call].value;
      assert t.calls[a.call].value == v;
      hide Le;
      MaxIs(s.max, v);
      forall i | 0 <= i < |t.calls| && Rank(t.calls[i].pc) >= 4 && !t.calls[i].value.NaN?
        ensures Le(t.calls[i].value, t.max)
      {
        if i != a.call && t.max != s.max {
          MaxAbove(s.max, v, s.calls[i].value);
        }
      }
    }
  }

  /** What every interleaving keeps. */
  lemma {:induction false} EveryRun(c: Config, acts: seq<Action>)
    ensures Counted(c, Run(c, acts)) && SumIsFold(c, Run(c, acts)) && Extremes(Run(c, acts))
  {
    if acts != [] {
      var s, a := Run(c, acts[..|acts| - 1]), acts[|acts| - 1];
      EveryRun(c, acts[..|acts| - 1]);
      CountedNext(c, s, a);
      SumNext(c, s, a);
      MinNext(c, s, a);
      MaxNext(c, s, a);
    }
  }

  // ---- Once nobody is observing ----

  ghost predicate Quiet(c: Config, s: State) {
    forall i :: 0 <= i < |s.calls| ==> s.calls[i].pc.Bucket? && s.calls[i].pc.b >= |c.bounds|
  }

  function Values(calls: seq<Call>): (vs: seq<F64>)
    ensures |vs| == |calls|
    ensures forall i :: 0 <= i < |calls| ==> vs[i] == calls[i].value
  {
    seq(|calls|, i requires 0 <= i < |calls| => calls[i].value)
  }

  /** How many of `xs` lie at or below a bound. */
  function AtMost(xs: seq<F64>, bound: F64): nat {
    Count(xs, (x: F64) => Le(x, bound))
  }

  /** The same values, each as often. */
  ghost predicate Permutes(xs: seq<F64>, ys: seq<F64>) {
    forall v: F64 :: Count(xs, Is(v)) == Count(ys, Is(v))
  }

  ghost predicate IsMin(xs: seq<F64>, m: F64) {
    && (forall i :: 0 <= i < |xs| && !xs[i].NaN? ==> Le(m, xs[i]))
    && (if exists i :: 0 <= i < |xs| && !xs[i].NaN? then m in xs else m == PosInf)
  }

  ghost predicate IsMax(xs: seq<F64>, m: F64) {
    && (forall i :: 0 <= i < |xs| && !xs[i].NaN? ==> Le(xs[i], m))
    && (if exists i :: 0 <= i < |xs| && !xs[i].NaN? then m in xs else m == NegInf)
  }

  /** Counting calls by their values is counting the values. */
  lemma {:induction false} CountValues(calls: seq<Call>, p: Call -> bool, q: F64 -> bool)
    requires forall i :: 0 <= i < |calls| ==> p(calls[i]) == q(calls[i].value)
    ensures Count(calls, p) == Count(Values(calls), q)
  {
    if calls != [] {
      var n := |calls| - 1;
      CountValues(calls[..n], p, q);
      assert Values(calls)[..n] == Values(calls[..n]);
    }
  }

  lemma {:induction false} CountAll<T>(xs: seq<T>, p: T -> bool)
    requires forall i :: 0 <= i < |xs| ==> p(xs[i])
    ensures Count(xs, p) == |xs|
  {
    if xs != [] {
      CountAll(xs[..|xs| - 1], p);
    }
  }

  lemma QuiescentExtremes(c: Config, s: State)
    requires Quiet(c, s) && Extremes(s)
    ensures IsMin(Values(s.calls), s.min) && IsMax(Values(s.calls), s.max)
  {
    var obs := Values(s.calls);
    if i :| 0 <= i < |obs| && !obs[i].NaN? {
      assert Le(s.min, obs[i]) && Le(obs[i], s.max);
    }
  }

  /**
   Once every observation has finished, whatever the interleaving and however
   often swaps were lost: the count is that of the observations, every bucket
   counts those at or below its bound, the sum is a fold over all of them in the
   order of the swaps, and the extremes are those of what is not NaN.
   */
  lemma QuiescentCells(c: Config, acts: seq<Action>)
    requires Quiet(c, Run(c, acts))
    ensures var s := Run(c, acts);
      var obs := Values(s.calls);
      && s.count == |obs| % TWO_64
      && (forall b :: 0 <= b < |c.bounds| ==> s.buckets[b] == AtMost(obs, c.bounds[b]) % TWO_64)
      && s.sum == Fold(c.add, s.order) && Permutes(s.order, obs)
      && IsMin(obs, s.min) && IsMax(obs, s.max)
  {
    hide Count, Run;
    EveryRun(c, acts);
    var s := Run(c, acts);
    var obs := Values(s.calls);
    CountAll(s.calls, Past(1));
    forall v: F64
      ensures Count(s.order, Is(v)) == Count(obs, Is(v))
    {
      CountValues(s.calls, SummedAs(v), Is(v));
    }
    forall b | 0 <= b < |c.bounds|
      ensures s.buckets[b] == AtMost(obs, c.bounds[b]) % TWO_64
    {
      CountValues(s.calls, PastBucket(c.bounds[b], b), (x: F64) => Le(x, c.bounds[b]));
    }
    QuiescentExtremes(c, s);
  }

  lemma {:induction false} AtMostGrows(xs: seq<F64>, a: F64, b: F64)
    requires Le(a, b)
    ensures AtMost(xs, a) <= AtMost(xs, b)
  {
    if xs != [] {
      AtMostGrows(xs[..|xs| - 1], a, b);
    }
  }

  lemma {:induction false} AllButNaN(xs: seq<F64>)
    ensures AtMost(xs, PosInf) <= |xs|
    ensures AtMost(xs, PosInf) == |xs| <==> Numbers(xs)
  {
    if xs != [] {
      var n := |xs| - 1;
      AllButNaN(xs[..n]);
      assert xs == xs[..n] + [xs[n]];
      assert Numbers(xs) <==> Numbers(xs[..n]) && !xs[n].NaN?;
    }
  }

  lemma {:induction false} AtMostBelow(xs: seq<F64>, b: F64)
    ensures AtMost(xs, b) <= |xs|
  {
    if xs != [] {
      AtMostBelow(xs[..|xs| - 1], b);
    }
  }

  /** Buckets are cumulative; the catch-all bucket equals the count exactly when nothing observed was NaN. */
  lemma QuiescentBuckets(c: Config, acts: seq<Action>)
    requires Quiet(c, Run(c, acts)) && Ascending(c.bounds) && |Run(c, acts).calls| < TWO_64
    ensures var s := Run(c, acts);
      && (forall i, j :: 0 <= i < j < |c.bounds| ==> s.buckets[i] <= s.buckets[j])
      && (c.bounds != [] && c.bounds[|c.bounds| - 1] == PosInf ==>
            (s.buckets[|c.bounds| - 1] == s.count <==> Numbers(Values(s.calls))))
  {
    hide Run, AtMost, Count, Quiet;
    QuiescentCells(c, acts);
    var s := Run(c, acts);
    var obs := Values(s.calls);
    AllButNaN(obs);
    forall b | 0 <= b < |c.bounds|
      ensures s.buckets[b] == AtMost(obs, c.bounds[b])
    {
      AtMostBelow(obs, c.bounds[b]);
    }
    forall i, j | 0 <= i < j < |c.bounds|
      ensures s.buckets[i] <= s.buckets[j]
    {
      AtMostGrows(obs, c.bounds[i], c.bounds[j]);
    }
  }

  /** What a sample ships: nothing until the first observation. */
  datatype Snapshot = Snapshot(count: nat, sum: F64, min: F64, max: F64, buckets: seq<(F64, nat)>)

  function Snap(c: Config, s: State): Option<Snapshot>
    requires |s.buckets| == |c.bounds|
  {
    if s.count == 0 then None
    else Some(Snapshot(s.count, s.sum, s.min, s.max,
        seq(|c.bounds|, b requires 0 <= b < |c.bounds| => (c.bounds[b], s.buckets[b]))))
  }

  /**
   A sample taken when nobody is observing: nothing before the first observation,
   afterwards the count, the bounds with the observations at or below them, the true
   extremes, and the sum of all observations in some order.
   */
  lemma QuiescentSnapshot(c: Config, acts: seq<Action>)
    requires Quiet(c, Run(c, acts)) && |Run(c, acts).calls| < TWO_64
    ensures var s := Run(c, acts);
      var obs := Values(s.calls);
      && (Snap(c, s).None? <==> obs == [])
      && (obs != [] ==>
            var v := Snap(c, s).value;
            && v.count == |obs|
            && |v.buckets| == |c.bounds|
            && (forall b :: 0 <= b < |c.bounds| ==> v.buckets[b] == (c.bounds[b], AtMost(obs, c.bounds[b])))
            && IsMin(obs, v.min) && IsMax(obs, v.max)
            && v.sum == Fold(c.add, s.order) && Permutes(s.order, obs))
  {
    hide Run, AtMost, IsMin, IsMax, Permutes, Fold;
    QuiescentCells(c, acts);
    forall b | 0 <= b < |c.bounds|
      ensures AtMost(Values(Run(c, acts).calls), c.bounds[b]) < TWO_64
    {
      AtMostBelow(Values(Run(c, acts).calls), c.bounds[b]);
    }
  }

  // ---- The sum, where adding is exact ----

  /** The exact sum of finite values. */
  function Total(xs: seq<F64>): real {
    if xs == [] then 0.0 else Total(xs[..|xs| - 1]) + Real(xs[|xs| - 1])
  }

  ghost predicate AllFinite(xs: seq<F64>) {
    forall i :: 0 <= i < |xs| ==> xs[i].Finite?
  }

  /** Adding without rounding. */
  ghost predicate Exact(add: (F64, F64) -> F64) {
    forall a: real, b: real :: add(Finite(a), Finite(b)) == Finite(a + b)
  }

  lemma {:induction false} FoldIsTotal(add: (F64, F64) -> F64, xs: seq<F64>)
    requires Exact(add) && AllFinite(xs)
    ensures Fold(add, xs) == Finite(Total(xs))
  {
    if xs != [] {
      var n := |xs| - 1;
      FoldIsTotal(add, xs[..n]);
      assert xs[n] == Finite(xs[n].v);
    }
  }

  lemma {:induction false} TotalRemove(xs: seq<F64>, i: nat)
    requires i < |xs|
    ensures Total(xs) == Total(xs[..i] + xs[i + 1..]) + Real(xs[i])
  {
    var n := |xs| - 1;
    if i == n {
      assert xs[..i] + xs[i + 1..] == xs[..n];
    } else {
      var rest := xs[..i] + xs[i + 1..];
      TotalRemove(xs[..n], i);
      assert rest[..n - 1] == xs[..n][..i] + xs[..n][i + 1..];
      assert rest[n - 1] == xs[n];
    }
  }

  /** A value that occurs is found. */
  lemma Occurs(xs: seq<F64>, ys: seq<F64>, i: nat) returns (k: nat)
    requires Permutes(xs, ys) && i < |xs|
    ensures k < |ys| && ys[k] == xs[i]
  {
    CountRemove(xs, i, Is(xs[i]));
    assert Count(xs, Is(xs[i])) == Count(ys, Is(xs[i]));
    k := SomeCounted(ys, Is(xs[i]));
  }

  lemma SomeoneOccurs(ys: seq<F64>)
    requires ys != []
    ensures !Permutes([], ys)
  {
    CountRemove(ys, 0, Is(ys[0]));
    assert Count([], Is(ys[0])) != Count(ys, Is(ys[0]));
  }

  /** The order does not matter. */
  lemma {:induction false} TotalPermutes(xs: seq<F64>, ys: seq<F64>)
    requires Permutes(xs, ys)
    ensures Total(xs) == Total(ys)
    ensures AllFinite(ys) ==> AllFinite(xs)
    decreases |xs|
  {
    if xs == [] {
      if ys != [] {
        SomeoneOccurs(ys);
      }
    } else {
      var n := |xs| - 1;
      var k := Occurs(xs, ys, n);
      var rest := ys[..k] + ys[k + 1..];
      forall v: F64
        ensures Count(xs[..n], Is(v)) == Count(rest, Is(v))
      {
        CountRemove(ys, k, Is(v));
      }
      TotalPermutes(xs[..n], rest);
      TotalRemove(ys, k);
    }
  }

  /** Where adding is exact, the sum cell holds the sum of all observations, whatever the interleaving. */
  lemma ExactSum(c: Config, acts: seq<Action>)
    requires Quiet(c, Run(c, acts)) && Exact(c.add) && AllFinite(Values(Run(c, acts).calls))
    ensures Run(c, acts).sum == Finite(Total(Values(Run(c, acts).calls)))
  {
    hide Run, Permutes, IsMin, IsMax, AtMost, Exact, Fold, Total;
    var s := Run(c, acts);
    QuiescentCells(c, acts);
    TotalPermutes(s.order, Values(s.calls));
    FoldIsTotal(c.add, s.order);
  }

  // ---- The cells ----

  /** A double in an atomic cell. */
  class Cell {
    var bits: F64

    constructor (v: F64)
      ensures bits == v
    {
      bits := v;
    }

    /** May fail although the cell is as expected; says what the cell held. */
    method CompareExchangeWeak(expected: F64, next: F64, spurious: bool) returns (ok: bool, actual: F64)
      modifies this
      ensures actual == old(bits) && (ok <==> old(bits) == expected && !spurious)
      ensures bits == if ok then next else old(bits)
    {
      actual := bits;
      ok := bits == expected && !spurious;
      if ok {
        bits := next;
      }
    }

    /** Retries until the swap succeeds, however often it fails before: `f` is applied exactly once. */
    method Update(f: F64 -> F64, failures: nat)
      modifies this
      ensures bits == f(old(bits))
    {
      var current := bits;
      var left := failures;
      while true
        invariant bits == old(bits) && current == bits
        decreases left
      {
        var ok, actual := CompareExchangeWeak(current, f(current), left > 0);
        if ok {
          return;
        }
        current := actual;
        left := left - 1;
      }
    }
  }

  // ---- One observation alone ----

  /** `n` steps of call `i`, no swap failing. */
  function Solo(i: nat, n: nat): seq<Action> {
    if n == 0 then [] else Solo(i, n - 1) + [Advance(i, false)]
  }

  function AfterSolo(c: Config, s: State, i: nat, n: nat): (t: State)
    requires |s.buckets| == |c.bounds|
    ensures |t.buckets| == |c.bounds|
  {
    if n == 0 then s else Next(c, AfterSolo(c, s, i, n - 1), Advance(i, false))
  }

  lemma {:induction false} RunSolo(c: Config, acts: seq<Action>, i: nat, n: nat)
    ensures Run(c, acts + Solo(i, n)) == AfterSolo(c, Run(c, acts), i, n)
  {
    hide Next;
    if n == 0 {
      assert acts + [] == acts;
    } else {
      RunSolo(c, acts, i, n - 1);
      var before, now := acts + Solo(i, n - 1), acts + Solo(i, n);
      assert now == before + [Advance(i, false)];
      assert now[..|now| - 1] == before;
    }
  }

  /** What an observation of `v` makes of the cells when `n` buckets are done. */
  predicate Moves(c: Config, s: State, t: State, v: F64, n: nat)
    requires |s.buckets| == |t.buckets| == |c.bounds|
  {
    && t.count == (s.count + 1) % TWO_64
    && t.sum == c.add(s.sum, v) && t.min == Min(s.min, v) && t.max == Max(s.max, v)
    && t.order == s.order + [v]
    && forall b :: 0 <= b < |c.bounds| ==>
         t.buckets[b] == if b < n && Le(v, c.bounds[b]) then (s.buckets[b] + 1) % TWO_64 else s.buckets[b]
  }

  lemma NoSolo(c: Config, s: State, i: nat)
    requires |s.buckets| == |c.bounds|
    ensures AfterSolo(c, s, i, 0) == s
  {
  }

  /** One more step of the last call, which goes from `pc` to `next`. */
  lemma SoloStep(c: Config, s: State, i: nat, n: nat, others: seq<Call>, v: F64, pc: Pc, next: Pc) returns (t: State)
    requires |s.buckets| == |c.bounds| && i == |others|
    requires AfterSolo(c, s, i, n).calls == others + [Call(v, pc)]
    requires Step(c, AfterSolo(c, s, i, n), i, false).calls[i] == Call(v, next)
    ensures t == AfterSolo(c, s, i, n + 1) == Step(c, AfterSolo(c, s, i, n), i, false)
    ensures t.calls == others + [Call(v, next)]
  {
    t := AfterSolo(c, s, i, n + 1);
  }

  /** Three swaps, each preceded by its load, after the count. */
  lemma SoloSwaps(c: Config, s: State, v: F64)
    requires |s.buckets| == |c.bounds|
    ensures var i := |s.calls|;
      var t := AfterSolo(c, s.(calls := s.calls + [Call(v, Start)]), i, 7);
      t.calls == s.calls + [Call(v, Bucket(0))] && Moves(c, s, t, v, 0)
  {
    hide Le, Min, Max, AfterSolo;
    var i := |s.calls|;
    var s0 := s.(calls := s.calls + [Call(v, Start)]);
    NoSolo(c, s0, i);
    var s1 := SoloStep(c, s0, i, 0, s.calls, v, Start, LoadSum);
    var s2 := SoloStep(c, s0, i, 1, s.calls, v, LoadSum, SwapSum(s1.sum));
    var s3 := SoloStep(c, s0, i, 2, s.calls, v, SwapSum(s1.sum), LoadMin);
    var s4 := SoloStep(c, s0, i, 3, s.calls, v, LoadMin, SwapMin(s3.min));
    var s5 := SoloStep(c, s0, i, 4, s.calls, v, SwapMin(s3.min), LoadMax);
    var s6 := SoloStep(c, s0, i, 5, s.calls, v, LoadMax, SwapMax(s5.max));
    var s7 := SoloStep(c, s0, i, 6, s.calls, v, SwapMax(s5.max), Bucket(0));
  }

  lemma {:induction false} SoloBuckets(c: Config, s: State, v: F64, n: nat)
    requires |s.buckets| == |c.bounds| && n <= |c.bounds|
    ensures var i := |s.calls|;
      var t := AfterSolo(c, s.(calls := s.calls + [Call(v, Start)]), i, 7 + n);
      t.calls == s.calls + [Call(v, Bucket(n))] && Moves(c, s, t, v, n)
  {
    hide Le, Min, Max;
    if n == 0 {
      SoloSwaps(c, s, v);
    } else {
      SoloBuckets(c, s, v, n - 1);
    }
  }

  /** The steps of a whole observation that nobody interrupts. */
  function Alone(c: Config, i: nat, v: F64): seq<Action> {
    [Action.Observe(v)] + Solo(i, 7 + |c.bounds|)
  }

  lemma RunAlone(c: Config, acts: seq<Action>, v: F64)
    ensures var s := Run(c, acts);
      var t := Run(c, acts + Alone(c, |s.calls|, v));
      t.calls == s.calls + [Call(v, Bucket(|c.bounds|))] && Moves(c, s, t, v, |c.bounds|)
  {
    hide AfterSolo, Moves, Step;
    var s := Run(c, acts);
    var first := acts + [Action.Observe(v)];
    assert first[..|acts|] == acts;
    assert acts + Alone(c, |s.calls|, v) == first + Solo(|s.calls|, 7 + |c.bounds|);
    RunSolo(c, first, |s.calls|, 7 + |c.bounds|);
    SoloBuckets(c, s, v, |c.bounds|);
  }

  /** One series. Its history is a run of the protocol in which every observation is alone. */
  class Series {
    const c: Config
    const sum: Cell
    const min: Cell
    const max: Cell
    var count: nat
    var buckets: seq<nat>
    ghost var acts: seq<Action>

    /** The cells hold what the protocol says. */
    ghost predicate Shows(s: State)
      reads this, sum, min, max
    {
      count == s.count && sum.bits == s.sum && min.bits == s.min && max.bits == s.max && buckets == s.buckets
    }

    ghost predicate Valid()
      reads this, sum, min, max
    {
      && sum != min && sum != max && min != max
      && Shows(Run(c, acts)) && Quiet(c, Run(c, acts))
      && Run(c, acts).order == Values(Run(c, acts).calls)
    }

    /** What has been observed, in order. */
    ghost function Observations(): seq<F64>
      reads this
    {
      Values(Run(c, acts).calls)
    }

    constructor (c: Config)
      ensures Valid() && this.c == c && acts == [] && Observations() == [] && fresh({sum, min, max})
    {
      this.c := c;
      sum := new Cell(Finite(0.0));
      min := new Cell(PosInf);
      max := new Cell(NegInf);
      count := 0;
      buckets := seq(|c.bounds|, _ => 0);
      acts := [];
    }

    method Observe(value: F64, failures: nat)
      requires Valid()
      modifies this, sum, min, max
      ensures Valid()
      ensures acts == old(acts) + Alone(c, |Run(c, old(acts)).calls|, value)
      ensures Observations() == old(Observations()) + [value]
    {
      hide Le, Min, Max, Run, Alone;
      RunAlone(c, acts, value);
      ghost var s := Run(c, acts);
      acts := acts + Alone(c, |s.calls|, value);
      ghost var t := Run(c, acts);
      count := (count + 1) % TWO_64;
      sum.Update(x => c.add(x, value), failures);
      min.Update(m => Min(m, value), failures);
      max.Update(m => Max(m, value), failures);
      var b := 0;
      while b < |c.bounds|
        modifies this`buckets
        invariant b <= |c.bounds| == |buckets|
        invariant forall k :: 0 <= k < |buckets| ==>
          buckets[k] == if k < b && Le(value, c.bounds[k]) then (s.buckets[k] + 1) % TWO_64 else s.buckets[k]
      {
        if Le(value, c.bounds[b]) {
          buckets := buckets[b := (buckets[b] + 1) % TWO_64];
        }
        b := b + 1;
      }
      assert buckets == t.buckets;
    }

    /** What a sample ships: nothing until the first observation. */
    method SnapshotNow() returns (r: Option<Snapshot>)
      requires Valid()
      ensures r == Snap(c, Run(c, acts))
      ensures var obs := Observations();
        |obs| < TWO_64 ==>
          && (r.None? <==> obs == [])
          && (obs != [] ==>
                && r.value.count == |obs| && r.value.sum == Fold(c.add, obs)
                && IsMin(obs, r.value.min) && IsMax(obs, r.value.max)
                && |r.value.buckets| == |c.bounds|
                && forall b :: 0 <= b < |c.bounds| ==> r.value.buckets[b] == (c.bounds[b], AtMost(obs, c.bounds[b])))
    {
      hide Run, IsMin, IsMax, AtMost, Fold, Permutes;
      if |Observations()| < TWO_64 {
        QuiescentSnapshot(c, acts);
      }
      if count == 0 {
        return None;
      }
      var bounds, counts := c.bounds, buckets;
      r := Some(Snapshot(count, sum.bits, min.bits, max.bits,
                         seq(|bounds|, b requires 0 <= b < |bounds| == |counts| => (bounds[b], counts[b]))));
      assert r.value.buckets == Snap(c, Run(c, acts)).value.buckets;
    }
  }
}
