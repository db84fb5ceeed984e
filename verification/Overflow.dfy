/**
 What happens when the queue is full: callers of `enqueue` count drops and share
 one flag so that a full episode is reported once. Each step here is one atomic
 operation of one call, and the calls' steps alternate in any way.
 */
module Overflow {
  import opened Wrappers
  import opened Counting

  /** Where a call is. `Counted` holds the number its drop was given. */
  datatype Call =
    | Accepted                  // the queue took the message; the flag is not looked at yet
    | Clearing                  // saw the flag set and is about to clear it
    | Refused                   // the queue was full; the drop is not counted yet
    | Counted(drop: nat)        // about to load the flag
    | Unset(drop: nat)          // saw the flag unset and is about to swap it
    | Winner(drop: nat)         // the swap found the flag unset: about to report
    | Returned(taken: bool)

  /** The history of the flag and of the reports. */
  datatype Event = Clear(call: nat) | Win(call: nat, drop: nat) | Report(call: nat, drop: nat)

  datatype State = State(full: bool, drops: nat, calls: seq<Call>, events: seq<Event>)

  const START := State(false, 0, [], [])

  /** A new call, whose `try_send` succeeds or not; or the next step of a call under way. */
  datatype Action = Enqueue(taken: bool) | Advance(call: nat)

  function Next(s: State, a: Action): State {
    match a
    case Enqueue(taken) => s.(calls := s.calls + [if taken then Accepted else Refused])
    case Advance(i) =>
      if i >= |s.calls| then s
      else
        match s.calls[i]
        case Accepted => s.(calls := s.calls[i := if s.full then Clearing else Returned(true)])
        case Clearing => s.(full := false, calls := s.calls[i := Returned(true)], events := s.events + [Clear(i)])
        case Refused => s.(drops := s.drops + 1, calls := s.calls[i := Counted(s.drops + 1)])
        case Counted(d) => s.(calls := s.calls[i := if s.full then Returned(false) else Unset(d)])
        case Unset(d) =>
          if s.full then s.(calls := s.calls[i := Returned(false)])
          else s.(full := true, calls := s.calls[i := Winner(d)], events := s.events + [Win(i, d)])
        case Winner(d) => s.(calls := s.calls[i := Returned(false)], events := s.events + [Report(i, d)])
        case Returned(_) => s
  }

  function Run(acts: seq<Action>): State {
    if acts == [] then START else Next(Run(acts[..|acts| - 1]), acts[|acts| - 1])
  }

  // ---- Episodes ----

  ghost predicate ClearedBetween(events: seq<Event>, i: nat, j: nat) {
    exists k :: i < k < j <= |events| && events[k].Clear?
  }

  /** Between any two winning swaps some successful call cleared the flag; while it is unset, since the last one too. */
  ghost predicate Episodes(s: State) {
    && (forall i, j :: 0 <= i < j < |s.events| && s.events[i].Win? && s.events[j].Win? ==>
        ClearedBetween(s.events, i, j))
    && (!s.full ==> forall i :: 0 <= i < |s.events| && s.events[i].Win? ==> ClearedBetween(s.events, i, |s.events|))
  }

  lemma ClearedMore(events: seq<Event>, e: Event, i: nat, j: nat)
    requires ClearedBetween(events, i, j)
    ensures ClearedBetween(events + [e], i, j)
  {
    var k :| i < k < j <= |events| && events[k].Clear?;
    assert (events + [e])[k] == events[k];
  }

  lemma EventKeeps(s: State, t: State, e: Event)
    requires Episodes(s) && t.events == s.events + [e]
    requires match e
      case Clear(_) => !t.full
      case Win(_, _) => !s.full && t.full
      case Report(_, _) => t.full == s.full
    ensures Episodes(t)
  {
    var n := |s.events|;
    forall i, j | 0 <= i < j < |t.events| && t.events[i].Win? && t.events[j].Win?
      ensures ClearedBetween(t.events, i, j)
    {
      assert ClearedBetween(s.events, i, j);
      ClearedMore(s.events, e, i, j);
    }
    if !t.full {
      forall i | 0 <= i < |t.events| && t.events[i].Win?
        ensures ClearedBetween(t.events, i, |t.events|)
      {
        if e.Clear? {
          assert t.events[n].Clear?;
        } else {
          assert ClearedBetween(s.events, i, n);
          var k :| i < k < n && s.events[k].Clear?;
          assert t.events[k].Clear?;
        }
      }
    }
  }

  lemma EpisodesStep(s: State, a: Action)
    requires Episodes(s)
    ensures Episodes(Next(s, a))
  {
    var t := Next(s, a);
    if t.events != s.events {
      EventKeeps(s, t, t.events[|s.events|]);
    }
  }

  /** In every run, two winning swaps have a clear between them. */
  lemma {:induction false} WinsAreSeparated(acts: seq<Action>)
    ensures Episodes(Run(acts))
  {
    if acts != [] {
      WinsAreSeparated(acts[..|acts| - 1]);
      EpisodesStep(Run(acts[..|acts| - 1]), acts[|acts| - 1]);
    }
  }

  // ---- Counts ----

  function IsWinner(c: Call): bool { c.Winner? }

  function WasDropped(c: Call): bool { c.Counted? || c.Unset? || c.Winner? || c == Returned(false) }

  function WasCleared(e: Event): bool { e.Clear? }

  function WasWon(e: Event): bool { e.Win? }

  function WasReported(e: Event): bool { e.Report? }

  /**
   Counted drops are the calls past the counter; wins are reported or about to be;
   wins lead clears by at most one.
   */
  ghost predicate Balanced(s: State) {
    && s.drops == Count(s.calls, WasDropped)
    && Count(s.events, WasWon) == Count(s.events, WasReported) + Count(s.calls, IsWinner)
    && Count(s.events, WasWon) <= Count(s.events, WasCleared) + (if s.full then 1 else 0)
  }

  /** Call `i` moves on without an event. */
  lemma CallMoves(s: State, i: nat, c: Call)
    requires i < |s.calls|
    ensures Count(s.calls[i := c], WasDropped)
         == Count(s.calls, WasDropped) + (if WasDropped(c) then 1 else 0) - (if WasDropped(s.calls[i]) then 1 else 0)
    ensures Count(s.calls[i := c], IsWinner)
         == Count(s.calls, IsWinner) + (if IsWinner(c) then 1 else 0) - (if IsWinner(s.calls[i]) then 1 else 0)
  {
    CountUpdate(s.calls, i, c, WasDropped);
    CountUpdate(s.calls, i, c, IsWinner);
  }

  lemma EventHappens(events: seq<Event>, e: Event)
    ensures Count(events + [e], WasWon) == Count(events, WasWon) + (if e.Win? then 1 else 0)
    ensures Count(events + [e], WasReported) == Count(events, WasReported) + (if e.Report? then 1 else 0)
    ensures Count(events + [e], WasCleared) == Count(events, WasCleared) + (if e.Clear? then 1 else 0)
  {
    CountMore(events, e, WasWon);
    CountMore(events, e, WasReported);
    CountMore(events, e, WasCleared);
  }

  lemma AdvanceBalanced(s: State, i: nat)
    requires Balanced(s) && i < |s.calls|
    ensures Balanced(Next(s, Advance(i)))
  {
    hide Count;
    var t := Next(s, Advance(i));
    match s.calls[i]
    case Accepted => CallMoves(s, i, if s.full then Clearing else Returned(true));
    case Clearing =>
      CallMoves(s, i, Returned(true));
      EventHappens(s.events, Clear(i));
    case Refused => CallMoves(s, i, Counted(s.drops + 1));
    case Counted(d) => CallMoves(s, i, if s.full then Returned(false) else Unset(d));
    case Unset(d) =>
      CallMoves(s, i, if s.full then Returned(false) else Winner(d));
      EventHappens(s.events, Win(i, d));
    case Winner(d) =>
      CallMoves(s, i, Returned(false));
      EventHappens(s.events, Report(i, d));
    case Returned(_) =>
  }

  lemma BalancedStep(s: State, a: Action)
    requires Balanced(s)
    ensures Balanced(Next(s, a))
  {
    hide Count;
    match a
    case Enqueue(taken) =>
      var c := if taken then Accepted else Refused;
      CountMore(s.calls, c, WasDropped);
      CountMore(s.calls, c, IsWinner);
    case Advance(i) =>
      if i < |s.calls| {
        AdvanceBalanced(s, i);
      }
  }

  lemma {:induction false} AlwaysBalanced(acts: seq<Action>)
    ensures Balanced(Run(acts))
  {
    if acts != [] {
      AlwaysBalanced(acts[..|acts| - 1]);
      BalancedStep(Run(acts[..|acts| - 1]), acts[|acts| - 1]);
    }
  }

  /** At any moment there is at most one report more than there were clears. */
  lemma ReportsAtMostClearsPlusOne(acts: seq<Action>)
    ensures var s := Run(acts);
      Count(s.events, WasReported) <= Count(s.events, WasCleared) + 1
  {
    AlwaysBalanced(acts);
  }

  ghost predicate Quiet(s: State) {
    forall i :: 0 <= i < |s.calls| ==> s.calls[i].Returned?
  }

  function ReturnedFalse(c: Call): bool { c == Returned(false) }

  /** Once every call has returned: the drop counter is the number of refusals, and every win was reported. */
  lemma DropsAreRefusals(acts: seq<Action>)
    requires Quiet(Run(acts))
    ensures var s := Run(acts);
      && s.drops == Count(s.calls, ReturnedFalse)
      && Count(s.events, WasReported) == Count(s.events, WasWon)
  {
    var s := Run(acts);
    AlwaysBalanced(acts);
    CountSame(s.calls, WasDropped, ReturnedFalse);
    CountNone(s.calls, IsWinner);
  }

  // ---- Drop numbers ----

  function DropOf(c: Call): Option<nat> {
    if c.Counted? || c.Unset? || c.Winner? then Some(c.drop) else None
  }

  /** Drop numbers in use are below the counter and distinct, also from those already reported. */
  ghost predicate Numbered(s: State) {
    && (forall i :: 0 <= i < |s.calls| && DropOf(s.calls[i]).Some? ==> 1 <= s.calls[i].drop <= s.drops)
    && (forall i, j :: 0 <= i < j < |s.calls| && DropOf(s.calls[i]).Some? && DropOf(s.calls[j]).Some? ==>
        s.calls[i].drop != s.calls[j].drop)
    && (forall k :: 0 <= k < |s.events| && s.events[k].Report? ==> 1 <= s.events[k].drop <= s.drops)
    && (forall k, i :: 0 <= k < |s.events| && s.events[k].Report? && 0 <= i < |s.calls| && DropOf(s.calls[i]).Some? ==>
        s.events[k].drop != s.calls[i].drop)
    && (forall k, m :: 0 <= k < m < |s.events| && s.events[k].Report? && s.events[m].Report? ==>
        s.events[k].drop != s.events[m].drop)
  }

  /** Call `i` keeps or gives up its number. */
  lemma NumberKept(s: State, t: State, i: nat)
    requires Numbered(s) && i < |s.calls| == |t.calls| && t.drops == s.drops && t.calls == s.calls[i := t.calls[i]]
    requires DropOf(t.calls[i]).None? || DropOf(t.calls[i]) == DropOf(s.calls[i])
    requires
      || t.events == s.events
      || (|t.events| == |s.events| + 1 && t.events[..|s.events|] == s.events && !t.events[|s.events|].Report?)
    ensures Numbered(t)
  {
    forall k | 0 <= k < |t.events| && t.events[k].Report?
      ensures k < |s.events| && t.events[k] == s.events[k]
    {
      if k < |s.events| {
        assert t.events[k] == t.events[..|s.events|][k];
      }
    }
  }

  lemma NumberTaken(s: State, i: nat)
    requires Numbered(s) && i < |s.calls| && s.calls[i].Refused?
    ensures Numbered(Next(s, Advance(i)))
  {
  }

  lemma NumberReported(s: State, i: nat)
    requires Numbered(s) && i < |s.calls| && s.calls[i].Winner?
    ensures Numbered(Next(s, Advance(i)))
  {
    var t := Next(s, Advance(i));
    var e := t.events[|s.events|];
    assert DropOf(s.calls[i]) == Some(e.drop);
    forall j | 0 <= j < |t.calls| && DropOf(t.calls[j]).Some?
      ensures t.calls[j] == s.calls[j] && t.calls[j].drop != e.drop
    {
    }
  }

  lemma NumberedStep(s: State, a: Action)
    requires Numbered(s)
    ensures Numbered(Next(s, a))
  {
    if a.Advance? && a.call < |s.calls| {
      var i := a.call;
      hide Numbered;
      match s.calls[i]
      case Refused => NumberTaken(s, i);
      case Winner(_) => NumberReported(s, i);
      case Returned(_) =>
      case _ => NumberKept(s, Next(s, a), i);
    }
  }

  /** No two reports carry the same drop number. */
  lemma {:induction false} ReportsAreDistinct(acts: seq<Action>)
    ensures Numbered(Run(acts))
  {
    if acts != [] {
      ReportsAreDistinct(acts[..|acts| - 1]);
      NumberedStep(Run(acts[..|acts| - 1]), acts[|acts| - 1]);
    }
  }

  // ---- The order of the callbacks ----

  ghost predicate WonBefore(events: seq<Event>, k: nat, call: nat, drop: nat) {
    exists m :: 0 <= m < k <= |events| && events[m] == Win(call, drop)
  }

  /** Whoever reports, or is about to, has won the swap before. */
  ghost predicate Earned(s: State) {
    && (forall k :: 0 <= k < |s.events| && s.events[k].Report? ==>
        WonBefore(s.events, k, s.events[k].call, s.events[k].drop))
    && (forall i :: 0 <= i < |s.calls| && s.calls[i].Winner? ==> WonBefore(s.events, |s.events|, i, s.calls[i].drop))
  }

  lemma WonMore(events: seq<Event>, e: Event, k: nat, call: nat, drop: nat)
    requires WonBefore(events, k, call, drop)
    ensures WonBefore(events + [e], k, call, drop)
    ensures WonBefore(events + [e], |events| + 1, call, drop)
  {
    var m :| 0 <= m < k <= |events| && events[m] == Win(call, drop);
    assert (events + [e])[m] == events[m];
  }

  lemma EarnedStep(s: State, a: Action)
    requires Earned(s)
    ensures Earned(Next(s, a))
  {
    var t := Next(s, a);
    if t.events != s.events {
      var e := t.events[|s.events|];
      forall k | 0 <= k < |t.events| && t.events[k].Report?
        ensures WonBefore(t.events, k, t.events[k].call, t.events[k].drop)
      {
        var n := |s.events|;
        WonMore(s.events, e, if k < n then k else n, t.events[k].call, t.events[k].drop);
      }
      forall i | 0 <= i < |t.calls| && t.calls[i].Winner?
        ensures WonBefore(t.events, |t.events|, i, t.calls[i].drop)
      {
        if i < |s.calls| && s.calls[i].Winner? {
          WonMore(s.events, e, |s.events|, i, t.calls[i].drop);
        } else {
          assert t.events[|s.events|] == Win(i, t.calls[i].drop);
        }
      }
    }
  }

  lemma {:induction false} ReportsAreEarned(acts: seq<Action>)
    ensures Earned(Run(acts))
  {
    if acts != [] {
      ReportsAreEarned(acts[..|acts| - 1]);
      EarnedStep(Run(acts[..|acts| - 1]), acts[|acts| - 1]);
    }
  }

  /** Between any two reports some call cleared the flag. */
  ghost predicate ReportsSeparated(events: seq<Event>) {
    forall i, j :: 0 <= i < j < |events| && events[i].Report? && events[j].Report? ==> ClearedBetween(events, i, j)
  }

  /** No clear comes between a win and its own report. */
  ghost predicate Prompt(events: seq<Event>) {
    forall m, k :: 0 <= m < k < |events| && events[k].Report? && events[m] == Win(events[k].call, events[k].drop)
      ==> !ClearedBetween(events, m, k)
  }

  lemma InWinOrder(events: seq<Event>, m: nat, i: nat, w: nat, j: nat)
    requires m < i < j < |events| && w < j && m != w && events[i].Report?
    requires ClearedBetween(events, if m < w then m else w, if m < w then w else m)
    requires !ClearedBetween(events, m, i) && !ClearedBetween(events, w, j)
    ensures ClearedBetween(events, i, j)
  {
    var k :| (if m < w then m else w) < k < (if m < w then w else m) && events[k].Clear?;
    assert k != i;
  }

  lemma PromptPair(s: State, i: nat, j: nat)
    requires Episodes(s) && Numbered(s) && Earned(s) && Prompt(s.events)
    requires i < j < |s.events| && s.events[i].Report? && s.events[j].Report?
    ensures ClearedBetween(s.events, i, j)
  {
    hide ClearedBetween;
    var events := s.events;
    assert events[i].drop != events[j].drop;
    assert WonBefore(events, i, events[i].call, events[i].drop);
    assert WonBefore(events, j, events[j].call, events[j].drop);
    var m :| 0 <= m < i && events[m] == Win(events[i].call, events[i].drop);
    var w :| 0 <= w < j && events[w] == Win(events[j].call, events[j].drop);
    InWinOrder(events, m, i, w, j);
  }

  /** Reports that are not overtaken by a clear keep the order of the wins, so a clear lies between any two. */
  lemma PromptReportsAreSeparated(acts: seq<Action>)
    requires Prompt(Run(acts).events)
    ensures ReportsSeparated(Run(acts).events)
  {
    hide Run;
    var events := Run(acts).events;
    WinsAreSeparated(acts);
    ReportsAreDistinct(acts);
    ReportsAreEarned(acts);
    forall i, j | 0 <= i < j < |events| && events[i].Report? && events[j].Report?
      ensures ClearedBetween(events, i, j)
    {
      PromptPair(Run(acts), i, j);
    }
  }

  /** A run in which the winner is overtaken between its swap and its callback. */
  const OVERTAKEN: seq<Action> := [
    Enqueue(false), Advance(0), Advance(0), Advance(0),  // refused, counted, flag unset, swap won
    Enqueue(true), Advance(1), Advance(1),               // accepted, flag seen, cleared
    Enqueue(false), Advance(2), Advance(2), Advance(2),  // a second winner
    Advance(0), Advance(2)                               // both report, nothing in between
  ]

  lemma RunMore(acts: seq<Action>, n: nat)
    requires n < |acts|
    ensures Run(acts[..n + 1]) == Next(Run(acts[..n]), acts[n])
  {
    assert acts[..n + 1][..n] == acts[..n];
  }

  lemma OvertakenHalf()
    ensures Run(OVERTAKEN[..7]) == State(false, 1, [Winner(1), Returned(true)], [Win(0, 1), Clear(1)])
  {
    var a := OVERTAKEN;
    RunMore(a, 0); RunMore(a, 1); RunMore(a, 2); RunMore(a, 3); RunMore(a, 4); RunMore(a, 5); RunMore(a, 6);
    hide Run;
    assert Run(a[..0]) == START by {
      assert a[..0] == [];
    }
    assert Run(a[..4]) == State(true, 1, [Winner(1)], [Win(0, 1)]);
  }

  /**
   Without that condition two reports can be adjacent, so the documented "one per
   episode" holds of swaps, not of callbacks.
   */
  lemma CallbacksCanBeAdjacent()
    ensures var events := Run(OVERTAKEN).events;
      && events == [Win(0, 1), Clear(1), Win(2, 2), Report(0, 1), Report(2, 2)]
      && !ReportsSeparated(events) && !Prompt(events)
  {
    var a := OVERTAKEN;
    OvertakenHalf();
    RunMore(a, 7); RunMore(a, 8); RunMore(a, 9); RunMore(a, 10); RunMore(a, 11); RunMore(a, 12);
    hide Run;
    assert Run(a[..11]) == State(true, 2, [Winner(1), Returned(true), Winner(2)], [Win(0, 1), Clear(1), Win(2, 2)]);
    assert a[..13] == a;
    var events := Run(a).events;
    assert events == [Win(0, 1), Clear(1), Win(2, 2), Report(0, 1), Report(2, 2)];
    assert !ClearedBetween(events, 3, 4);
    assert events[1].Clear?;
    assert ClearedBetween(events, 0, 3);
    assert events[0] == Win(events[3].call, events[3].drop);
  }

  // ---- One report per episode: the exact condition ----

  /** Any continuation of a run. */
  function Extend(s: State, acts: seq<Action>): State {
    if acts == [] then s else Next(Extend(s, acts[..|acts| - 1]), acts[|acts| - 1])
  }

  function Clears(s: State): nat {
    Count(s.events, WasCleared)
  }

  function Reports(s: State): nat {
    Count(s.events, WasReported)
  }

  /** Winners that are still to report. */
  function Pending(s: State): nat {
    Count(s.calls, IsWinner)
  }

  /** The reports so far, those still to come, and one more while the flag is unset. */
  function Potential(s: State): nat {
    Reports(s) + Pending(s) + if s.full then 0 else 1
  }

  lemma AdvancePotential(s: State, i: nat)
    requires i < |s.calls|
    ensures var t := Next(s, Advance(i));
      if s.calls[i].Clearing? then
        Clears(t) == Clears(s) + 1 && Reports(t) == Reports(s) && Pending(t) == Pending(s) && !t.full
      else Clears(t) == Clears(s) && Potential(t) == Potential(s)
  {
    hide Count;
    match s.calls[i]
    case Accepted => CallMoves(s, i, if s.full then Clearing else Returned(true));
    case Clearing =>
      CallMoves(s, i, Returned(true));
      EventHappens(s.events, Clear(i));
    case Refused => CallMoves(s, i, Counted(s.drops + 1));
    case Counted(d) => CallMoves(s, i, if s.full then Returned(false) else Unset(d));
    case Unset(d) =>
      CallMoves(s, i, if s.full then Returned(false) else Winner(d));
      EventHappens(s.events, Win(i, d));
    case Winner(d) =>
      CallMoves(s, i, Returned(false));
      EventHappens(s.events, Report(i, d));
    case Returned(_) =>
  }

  /** Steps that clear nothing leave the potential alone; clears only add up. */
  lemma PotentialStep(s: State, a: Action)
    ensures Clears(Next(s, a)) >= Clears(s)
    ensures Clears(Next(s, a)) == Clears(s) ==> Potential(Next(s, a)) == Potential(s)
  {
    hide Count;
    match a
    case Enqueue(taken) => CountMore(s.calls, if taken then Accepted else Refused, IsWinner);
    case Advance(i) =>
      if i < |s.calls| {
        AdvancePotential(s, i);
      }
  }

  /** The potential bounds the reports of every continuation that clears nothing. */
  lemma {:induction false} PotentialBounds(s: State, acts: seq<Action>)
    ensures Clears(Extend(s, acts)) >= Clears(s)
    ensures Clears(Extend(s, acts)) == Clears(s) ==> Potential(Extend(s, acts)) == Potential(s)
  {
    hide Next, Clears, Potential;
    if acts != [] {
      var n := |acts| - 1;
      PotentialBounds(s, acts[..n]);
      PotentialStep(Extend(s, acts[..n]), acts[n]);
    }
  }

  /** Before the first clear there is at most one report. */
  lemma FirstEpisode(acts: seq<Action>)
    requires Clears(Extend(START, acts)) == 0
    ensures Reports(Extend(START, acts)) <= 1
  {
    PotentialBounds(START, acts);
  }

  /** However a run goes on after `t` without a clear, at most one more report comes. */
  ghost predicate OneMoreReport(t: State) {
    forall acts: seq<Action> :: Clears(Extend(t, acts)) == Clears(t) ==> Reports(Extend(t, acts)) <= Reports(t) + 1
  }

  /** A pending winner reports, and after the clear another refused call wins and reports too. */
  function TwoReports(winner: nat, next: nat): seq<Action> {
    [Advance(winner), Enqueue(false), Advance(next), Advance(next), Advance(next), Advance(next)]
  }

  lemma ExtendMore(s: State, acts: seq<Action>, n: nat)
    requires n < |acts|
    ensures Extend(s, acts[..n + 1]) == Next(Extend(s, acts[..n]), acts[n])
  {
    assert acts[..n + 1][..n] == acts[..n];
  }

  lemma NoExtension(t: State, acts: seq<Action>)
    requires acts == []
    ensures Extend(t, acts) == t
  {
  }

  lemma TwoReportsHappen(t: State, w: nat)
    requires w < |t.calls| && t.calls[w].Winner? && !t.full
    ensures var d, k := t.calls[w].drop, |t.calls|;
      Extend(t, TwoReports(w, k)).events
      == t.events + [Report(w, d), Win(k, t.drops + 1), Report(k, t.drops + 1)]
  {
    var k := |t.calls|;
    var a := TwoReports(w, k);
    ExtendMore(t, a, 0); ExtendMore(t, a, 1); ExtendMore(t, a, 2);
    ExtendMore(t, a, 3); ExtendMore(t, a, 4); ExtendMore(t, a, 5);
    hide Extend;
    assert Extend(t, a[..0]) == t by {
      NoExtension(t, a[..0]);
    }
    var s1 := Extend(t, a[..1]);
    assert s1.events == t.events + [Report(w, t.calls[w].drop)] && |s1.calls| == k && !s1.full;
    var s3 := Extend(t, a[..3]);
    assert s3.calls[k] == Counted(t.drops + 1) && !s3.full && s3.events == s1.events;
    var s5 := Extend(t, a[..5]);
    assert s5.calls[k] == Winner(t.drops + 1) && s5.events == s1.events + [Win(k, t.drops + 1)];
    assert a[..6] == a;
  }

  lemma ThreeMoreEvents(events: seq<Event>, a: Event, b: Event, c: Event)
    requires a.Report? && b.Win? && c.Report?
    ensures Count(events + [a, b, c], WasReported) == Count(events, WasReported) + 2
    ensures Count(events + [a, b, c], WasCleared) == Count(events, WasCleared)
  {
    hide Count;
    EventHappens(events, a);
    EventHappens(events + [a], b);
    EventHappens(events + [a] + [b], c);
    assert events + [a] + [b] + [c] == events + [a, b, c];
  }

  /**
   When call `i` clears the flag: at most one report comes before the next clear,
   however the run goes on, if and only if no earlier winner is still to report.
   */
  lemma OneReportPerClear(s: State, i: nat)
    requires i < |s.calls| && s.calls[i].Clearing?
    ensures OneMoreReport(Next(s, Advance(i))) <==> Pending(s) == 0
  {
    var t := Next(s, Advance(i));
    AdvancePotential(s, i);
    if Pending(s) == 0 {
      forall acts: seq<Action> | Clears(Extend(t, acts)) == Clears(t)
        ensures Reports(Extend(t, acts)) <= Reports(t) + 1
      {
        PotentialBounds(t, acts);
      }
    } else {
      var w := SomeCounted(t.calls, IsWinner);
      var k := |t.calls|;
      TwoReportsHappen(t, w);
      ThreeMoreEvents(t.events, Report(w, t.calls[w].drop), Win(k, t.drops + 1), Report(k, t.drops + 1));
      assert Clears(Extend(t, TwoReports(w, k))) == Clears(t);
    }
  }

  // ---- The call ----

  /** A new call and all its steps, nobody else moving. */
  function Whole(s: State, taken: bool): State {
    var n := |s.calls|;
    var step := Advance(n);
    Next(Next(Next(Next(Next(s, Enqueue(taken)), step), step), step), step)
  }

  /** The flag and the drop counter; a call that nobody interrupts is a run of the steps above. */
  class Client {
    var full: bool
    var drops: nat
    ghost var state: State

    ghost predicate Valid()
      reads this
    {
      full == state.full && drops == state.drops
    }

    constructor ()
      ensures Valid() && state == START
    {
      full := false;
      drops := 0;
      state := START;
    }

    /** Returns whether the message was taken, and what is reported, if anything. */
    method Enqueue(taken: bool) returns (ok: bool, report: Option<nat>)
      requires Valid()
      modifies this
      ensures Valid() && ok == taken && full == !taken
      ensures drops == old(drops) + (if taken then 0 else 1)
      ensures report == if !taken && !old(full) then Some(drops) else None
      ensures var n := |old(state).calls|;
        && state.calls == old(state).calls + [Returned(taken)]
        && state == Whole(old(state), taken)
      ensures report.Some? ==>
        var n := |old(state).calls|;
        state.events == old(state).events + [Win(n, drops), Report(n, drops)]
    {
      report := None;
      state := Whole(state, taken);
      if taken {
        if full {
          full := false;
        }
        return true, None;
      }
      drops := drops + 1;
      if !full {
        full := true;
        report := Some(drops);
      }
      ok := false;
    }
  }
}
