/**
 What the worker's log operations mean for the frames: a drain pass conserves
 them, and a shutdown that is cut off accounts for every one.
 */
module Delivery {
  import opened Bytes
  import opened Frames
  import opened Log
  import opened Fifo
  import opened Crash
  import opened Network
  import H = History

  lemma {:induction false} QueueDrains(q: Queue, n: nat)
    ensures n <= |q.live| ==>
      && QueueRun(q, Drains(n)) == Queue(q.kept + q.live[..n], q.live[n..], q.max)
      && QueueOutputs(q, Drains(n)) == q.live[..n]
    ensures n > |q.live| ==>
      && QueueRun(q, Drains(n)) == Queue(q.kept + q.live, [], q.max)
      && QueueOutputs(q, Drains(n)) == q.live
  {
    if n == 0 {
      assert q.kept + q.live[..0] == q.kept;
    } else {
      assert Drains(n)[..n - 1] == Drains(n - 1);
      QueueDrains(q, n - 1);
      if n <= |q.live| {
        TakeOne(q.live, n);
        Assoc(q.kept, q.live[..n - 1], [q.live[n - 1..][0]]);
      } else {
        assert n - 1 == |q.live| ==> q.live[..n - 1] == q.live;
      }
    }
  }

  lemma LiveIsSmall(l: Log)
    requires WellFormed(l)
    ensures AllSmall(l.Live())
  {
    var dead := Taken(l);
  }

  /** After `n` drain steps: the first `n` frames are out, the rest is live. */
  lemma AfterDrains(l: Log, n: nat)
    requires WellFormed(l)
    ensures WellFormed(Run(l, Drains(n)))
    ensures n <= |l.Live()| ==>
      && View(Run(l, Drains(n))) == Queue(l.Kept() + l.Live()[..n], l.Live()[n..], l.max)
      && Outputs(l, Drains(n)) == l.Live()[..n]
    ensures n > |l.Live()| ==>
      && View(Run(l, Drains(n))) == Queue(l.Kept() + l.Live(), [], l.max)
      && Outputs(l, Drains(n)) == l.Live()
  {
    hide WellFormed;
    SmallDrains(n);
    LogRefinesQueue(l, Drains(n));
    QueueDrains(View(l), n);
  }

  /** How far a pass can have got, and which frame stopped it. */
  lemma PassReach(l: Log, n: nat)
    requires WellFormed(l) && n == |Outputs(l, Drains(n))|
    ensures n <= |l.Live()|
    ensures DrainResult(Run(l, Drains(n))) == if n < |l.Live()| then Got(l.Live()[n]) else Empty
  {
    hide WellFormed;
    AfterDrains(l, n);
    DrainFrames(Run(l, Drains(n)));
  }

  /** A bounded queue takes a frame of its own back without evicting another. */
  lemma PutBackFits(q: Queue, n: nat)
    requires Bounded(q) && n < |q.live|
    ensures var r := Queue(q.kept + q.live[..n + 1], q.live[n + 1..], q.max);
      && QueueStep(r, OpAppend(q.live[n])).live == q.live[n + 1..] + [q.live[n]]
      && Bounded(QueueStep(r, OpAppend(q.live[n])))
  {
    var f: Frame := q.live[n];
    var r := Queue(q.kept + q.live[..n + 1], q.live[n + 1..], q.max);
    SizeSplit(q.live, n);
    SizeSplit(q.live[n..], 1);
    assert q.live[n..][..1] == [f] && q.live[n..][1..] == q.live[n + 1..];
    assert Size([f]) == FRAME_HEADER_LEN + |f| by {
      assert |[f][1..]| == 0;
    }
    EncodeAllConcat(r.live, [f]);
    if Size(q.live) > q.max {
      assert |r.live| == 0;
      assert |Survivors(r, f)| == 0;
      assert r.live + [f] == [f];
    }
  }

  lemma FinishedPass(l: Log, sent: seq<Frame>)
    requires WellFormed(l) && Bounded(View(l)) && H.PassOf(H.Finished(sent), l)
    ensures var l' := Run(l, Drains(|sent| + 1) + [OpCommit]);
      WellFormed(l') && Bounded(View(l')) && sent == l.Live() && View(l') == Queue([], [], l.max)
  {
    hide WellFormed, Commit, DrainResult;
    PassReach(l, |sent|);
    AfterDrains(l, |sent|);
    AfterDrains(l, |sent| + 1);
    var m := Run(l, Drains(|sent| + 1));
    RunConcat(l, Drains(|sent| + 1), [OpCommit]);
    RunOne(m, OpCommit);
    CommitFrames(m);
    assert l.Live()[..|sent|] == l.Live();
  }

  lemma PutBackPass(l: Log, sent: seq<Frame>, f: Frame)
    requires WellFormed(l) && Bounded(View(l)) && H.PassOf(H.PutBack(sent, f), l)
    ensures var live, l', n := l.Live(), Run(l, Drains(|sent| + 1) + [OpAppend(f), OpCommit]), |sent|;
      && WellFormed(l') && Bounded(View(l'))
      && n < |live| && sent == live[..n] && f == live[n]
      && View(l') == Queue([], live[n + 1..] + [live[n]], l.max)
  {
    hide WellFormed, Bounded, Append, Commit, DrainResult, Parse, Run;
    var n := |sent|;
    PassReach(l, n);
    AfterDrains(l, n);
    AfterDrains(l, n + 1);
    var m := Run(l, Drains(n + 1));
    LiveIsSmall(l);
    PutBackFits(View(l), n);
    AppendFrames(m, f);
    CommitFrames(Append(m, f));
    H.PutBackRun(l, n + 1, f);
    StepBounded(View(Append(m, f)), OpCommit);
  }

  lemma DrainsBounded(l: Log, n: nat)
    requires WellFormed(l) && Bounded(View(l))
    ensures Bounded(View(Run(l, Drains(n))))
  {
    hide WellFormed, Bounded;
    SmallDrains(n);
    LogRefinesQueue(l, Drains(n));
    QueueBounded(View(l), Drains(n));
  }

  /**
   Conservation over a drain pass: what was sent is a prefix of the log; the rest
   stays. A frame whose send failed is moved to the end, and evicts nothing.
   */
  lemma PassConserves(l: Log, p: H.Pass)
    requires WellFormed(l) && Bounded(View(l)) && H.PassOf(p, l)
    ensures var live, l' := l.Live(), Run(l, H.PassOps(p));
      && WellFormed(l') && Bounded(View(l'))
      && match p
         case Idle => l' == l && live == []
         case Finished(sent) => sent == live && View(l') == Queue([], [], l.max)
         case PutBack(sent, f) =>
           var n := |sent|;
           && n < |live| && sent == live[..n] && f == live[n]
           && View(l') == Queue([], live[n + 1..] + [live[n]], l.max)
         case CutShort(sent, f) =>
           var n := |sent|;
           && n < |live| && sent == live[..n] && f == live[n]
           && View(l') == Queue(l.Kept() + live[..n + 1], live[n + 1..], l.max)
  {
    hide WellFormed, Bounded, Append, Commit, DrainResult;
    match p {
      case Idle =>
        assert Run(l, []) == l;
      case Finished(sent) => FinishedPass(l, sent);
      case PutBack(sent, f) => PutBackPass(l, sent, f);
      case CutShort(sent, f) =>
        PassReach(l, |sent|);
        AfterDrains(l, |sent|);
        AfterDrains(l, |sent| + 1);
        DrainsBounded(l, |sent| + 1);
    }
  }

  // ---- Shutdown ----

  /** The frames that hand-offs put into the log. */
  function LoggedFrames<E>(evs: seq<H.Event<E>>): seq<Frame> {
    if evs == [] then []
    else
      var e := evs[|evs| - 1];
      LoggedFrames(evs[..|evs| - 1]) + if e.HandOff? && e.fate == H.Logged then [e.frame] else []
  }

  // ---- Appends: nothing disappears but what is evicted ----

  /** The frames that appending `f` evicts. */
  function Evictions(q: Queue, f: Frame): seq<Frame> {
    if MustFree(q, f) <= 0 then [] else q.live[..Shortest(q.live, MustFree(q, f))]
  }

  /** The frames that logging the chunks of `evs` evicts. */
  function EvictedBy<E>(l: Log, evs: seq<H.Event<E>>): seq<Frame> {
    if evs == [] then []
    else
      var before, e := evs[..|evs| - 1], evs[|evs| - 1];
      EvictedBy(l, before)
      + if e.HandOff? && e.fate == H.Logged then Evictions(View(H.LogAfter(l, before)), e.frame) else []
  }

  /** A log that the theorems of a run keep: whole frames, within its bound. */
  ghost predicate Healthy(l: Log) {
    WellFormed(l) && Bounded(View(l))
  }

  lemma AppendBalance(l: Log, f: Frame)
    requires Healthy(l) && Small(f)
    ensures Healthy(Append(l, f)) && Append(l, f).max == l.max
    ensures l.Live() + [f] == Evictions(View(l), f) + Append(l, f).Live()
  {
    hide WellFormed, Bounded, Append, Parse;
    AppendFrames(l, f);
    StepBounded(View(l), OpAppend(f));
    var q := View(l);
    if MustFree(q, f) <= 0 {
      assert [] + (q.live + [f]) == q.live + [f];
    } else {
      var k := Shortest(q.live, MustFree(q, f));
      assert q.live == q.live[..k] + q.live[k..];
      Assoc(q.live[..k], q.live[k..], [f]);
    }
  }

  lemma PrefixSmall(a: seq<Frame>, b: seq<Frame>)
    requires AllSmall(b) && a <= b
    ensures AllSmall(a)
  {
    forall i | 0 <= i < |a|
      ensures Small(a[i])
    {
      assert a[i] == b[i];
    }
  }

  lemma Balanced<T>(live: seq<T>, fs: seq<T>, f: seq<T>, evicted: seq<T>, mid: seq<T>, more: seq<T>, after: seq<T>)
    requires live + fs == evicted + mid && mid + f == more + after
    ensures live + (fs + f) == (evicted + more) + after
  {
    Assoc(live, fs, f);
    Assoc(evicted, mid, f);
    Assoc(evicted, more, after);
  }

  lemma NoEvictions(q: Queue, f: Frame)
    requires MustFree(q, f) <= 0
    ensures Evictions(q, f) == []
  {
  }

  lemma FitsStill(l: Log, all: seq<Frame>, f: Frame, m: Log, evicted: seq<Frame>)
    requires Healthy(m) && m.max == l.max && all == evicted + m.Live()
    requires Size(all) <= l.max ==> evicted == []
    ensures Size(all + [f]) <= l.max ==> Size(all) <= l.max && evicted == [] && Evictions(View(m), f) == []
  {
    hide WellFormed, Bounded, Parse, Evictions;
    EncodeAllConcat(all, [f]);
    assert Size([f]) == FRAME_HEADER_LEN + |f| by {
      assert |[f][1..]| == 0;
    }
    if Size(all + [f]) <= l.max {
      assert all == m.Live();
      NoEvictions(View(m), f);
    }
  }

  /**
   Logging the chunks of `evs`: what was live, then their frames in order, is what
   was evicted, then what is live; nothing is evicted when everything fits.
   */
  lemma {:induction false} LogAfterFrames<E>(l: Log, evs: seq<H.Event<E>>)
    requires Healthy(l) && AllSmall(LoggedFrames(evs))
    ensures Healthy(H.LogAfter(l, evs)) && H.LogAfter(l, evs).max == l.max
    ensures l.Live() + LoggedFrames(evs) == EvictedBy(l, evs) + H.LogAfter(l, evs).Live()
    ensures Size(l.Live() + LoggedFrames(evs)) <= l.max ==> EvictedBy(l, evs) == []
  {
    hide Healthy, Append, Size, Evictions, Parse;
    if evs == [] {
      assert l.Live() + [] == [] + l.Live();
    } else {
      var n := |evs| - 1;
      var before, e := evs[..n], evs[n];
      var fs := LoggedFrames(before);
      PrefixSmall(fs, LoggedFrames(evs));
      LogAfterFrames(l, before);
      if e.HandOff? && e.fate == H.Logged {
        assert Small(e.frame) by {
          assert LoggedFrames(evs)[|fs|] == e.frame;
        }
        var m := H.LogAfter(l, before);
        AppendBalance(m, e.frame);
        Balanced(l.Live(), fs, [e.frame], EvictedBy(l, before), m.Live(), Evictions(View(m), e.frame),
            Append(m, e.frame).Live());
        Assoc(l.Live(), fs, [e.frame]);
        FitsStill(l, l.Live() + fs, e.frame, m, EvictedBy(l, before));
      } else {
        assert LoggedFrames(evs) == fs + [] == fs;
        assert EvictedBy(l, evs) == EvictedBy(l, before) + [] == EvictedBy(l, before);
      }
    }
  }

  lemma BagOfTwo<T>(a: seq<T>, b: seq<T>)
    ensures multiset(a + b) == multiset(a) + multiset(b)
  {
  }

  /** Frame `n` moved to the end, or taken out: as a bag of frames. */
  lemma RotatedMultiset(fs: seq<Frame>, n: nat)
    requires n < |fs|
    ensures multiset(fs) == multiset(fs[..n]) + multiset(fs[n + 1..] + [fs[n]])
    ensures multiset(fs) == multiset(fs[..n]) + multiset(fs[n + 1..]) + multiset{fs[n]}
  {
    var f: Frame, before, after := fs[n], fs[..n], fs[n + 1..];
    assert fs == before + ([f] + after);
    BagOfTwo(before, [f] + after);
    BagOfTwo([f], after);
    BagOfTwo(after, [f]);
    assert multiset([f]) == multiset{f};
  }

  function SentOf(p: H.Pass): seq<Frame> {
    match p
    case Idle => []
    case Finished(sent) => sent
    case PutBack(sent, _) => sent
    case CutShort(sent, _) => sent
  }

  lemma BagOfPass(p: H.Pass, live: seq<Frame>, after: seq<Frame>)
    requires match p
      case Idle => live == [] && after == []
      case Finished(sent) => sent == live && after == []
      case PutBack(sent, f) =>
        |sent| < |live| && sent == live[..|sent|] && f == live[|sent|] && after == live[|sent| + 1..] + [live[|sent|]]
      case CutShort(sent, f) =>
        |sent| < |live| && sent == live[..|sent|] && f == live[|sent|] && after == live[|sent| + 1..]
    ensures multiset(live) == multiset(SentOf(p)) + multiset(after)
                            + if p.CutShort? then multiset{p.frame} else multiset{}
  {
    if p.PutBack? || p.CutShort? {
      RotatedMultiset(live, |p.sent|);
    }
  }

  /** Every frame of the log is sent or still live, but for the one in flight when a pass is cut. */
  lemma PassLosesAtMostTheFrameInFlight(l: Log, p: H.Pass)
    requires WellFormed(l) && Bounded(View(l)) && H.PassOf(p, l)
    ensures multiset(l.Live()) == multiset(SentOf(p)) + multiset(Run(l, H.PassOps(p)).Live())
                                + if p.CutShort? then multiset{p.frame} else multiset{}
  {
    hide WellFormed, Bounded, H.PassOf, H.PassOps, Run, Parse;
    PassConserves(l, p);
    BagOfPass(p, l.Live(), Run(l, H.PassOps(p)).Live());
  }

  // ---- A send from the log that is cut off ----

  /** Whether some append of `evs` has to evict. */
  function Overflows<E>(l: Log, evs: seq<H.Event<E>>): bool {
    evs != [] &&
    var before, e := evs[..|evs| - 1], evs[|evs| - 1];
    Overflows(l, before) || (e.HandOff? && e.fate == H.Logged && MustFree(View(H.LogAfter(l, before)), e.frame) > 0)
  }

  lemma KeptByAppend(l: Log, f: Frame)
    requires Healthy(l) && Small(f)
    ensures Append(l, f).Kept() == if MustFree(View(l), f) > 0 then [] else l.Kept()
  {
    hide WellFormed, Bounded, Append, Parse;
    AppendFrames(l, f);
    assert View(Append(l, f)).kept == Append(l, f).Kept();
  }

  /** Frames handed out but not committed stay on disk behind the cursor until an append evicts. */
  lemma {:induction false} KeptAfter<E>(l: Log, evs: seq<H.Event<E>>)
    requires Healthy(l) && AllSmall(LoggedFrames(evs))
    ensures Healthy(H.LogAfter(l, evs))
    ensures H.LogAfter(l, evs).Kept() == if Overflows(l, evs) then [] else l.Kept()
  {
    hide Healthy, Append, Parse;
    if evs != [] {
      var n := |evs| - 1;
      var before, e := evs[..n], evs[n];
      PrefixSmall(LoggedFrames(before), LoggedFrames(evs));
      KeptAfter(l, before);
      if e.HandOff? && e.fate == H.Logged {
        assert Small(e.frame) by {
          assert LoggedFrames(evs)[|LoggedFrames(before)|] == e.frame;
        }
        var m := H.LogAfter(l, before);
        AppendBalance(m, e.frame);
        KeptByAppend(m, e.frame);
      }
    }
  }

  /** What a restart finds: after a clean stop the cursor was persisted, after a crash it was not. */
  function Restart(l: Log, clean: bool): seq<Frame> {
    Recovered(if clean then Persist(l).Durable() else l.Durable())
  }

  lemma RestartFinds(l: Log, clean: bool)
    requires WellFormed(l)
    ensures Restart(l, clean) == (if clean then [] else l.Kept()) + l.Live()
  {
    hide WellFormed, Recovered, Parse;
    var dead := Taken(l);
    RecoveredMade(dead, l.Kept(), l.Live(), l.max);
    var d := PersistFrames(l);
    RecoveredMade(d, [], l.Live(), l.max);
  }

  lemma FoundOrLost<T>(kept: seq<T>, live: seq<T>, found: seq<T>, lost: bool)
    requires kept != [] && found == (if lost then [] else kept) + live
    ensures if lost then found == live else found == kept + live && found != live
  {
  }

  /**
   A pass cut off in a send, then anything logged. The frame in flight, and those
   sent before it, are found again by a restart if and only if the worker did not
   stop cleanly and no append had to evict.
   */
  lemma CutFrameIsLostIff<E>(l: Log, sent: seq<Frame>, f: Frame, evs: seq<H.Event<E>>, clean: bool)
    requires Healthy(l) && H.PassOf(H.CutShort(sent, f), l) && AllSmall(LoggedFrames(evs))
    ensures var cut := Run(l, H.PassOps(H.CutShort(sent, f)));
      var after := H.LogAfter(cut, evs);
      && (clean || Overflows(cut, evs) ==> Restart(after, clean) == after.Live())
      && (!clean && !Overflows(cut, evs) ==> Restart(after, clean) == l.Kept() + sent + [f] + after.Live())
      && (Restart(after, clean) == after.Live() <==> clean || Overflows(cut, evs))
  {
    hide WellFormed, Bounded, H.PassOf, H.PassOps, Parse, Restart, Run, H.LogAfter, Overflows, LoggedFrames, AllSmall;
    var cut := Run(l, H.PassOps(H.CutShort(sent, f)));
    var after := H.LogAfter(cut, evs);
    PassConserves(l, H.CutShort(sent, f));
    KeptAfter(cut, evs);
    RestartFinds(after, clean);
    var n := |sent|;
    assert l.Live()[..n + 1] == sent + [f];
    Assoc(l.Kept(), sent, [f]);
    assert View(cut).kept == cut.Kept();
    FoundOrLost(l.Kept() + sent + [f], after.Live(), Restart(after, clean), clean || Overflows(cut, evs));
  }

  /** A new log, and one that a restart has drained to its end, are healthy. */
  lemma StartsHealthy(d: Disk, max: nat)
    requires Torn(Unrecoverable(d))
    ensures Healthy(Open(Disk([], 0), max))
    ensures Healthy(Run(Open(d, max), Drains(|Recovered(d)| + 1)))
  {
    hide Torn, Unrecoverable, Recovered, Run;
    FreshIsWellFormed(max);
    RestartIsWellFormed(d, max);
  }

  // ---- Turns and runs of the worker ----

  /** The frames a pass got accepted. */
  function AcceptedIn<E>(t: H.Turn<E>): seq<Frame> {
    if t.pass.None? then [] else SentOf(t.pass.value)
  }

  /** The frame in flight when a pass was cut off. */
  function InFlightIn<E>(t: H.Turn<E>): seq<Frame> {
    if t.pass.Some? && t.pass.value.CutShort? then [t.pass.value.frame] else []
  }

  function LoggedIn<E>(t: H.Turn<E>): seq<Frame> {
    LoggedFrames(t.work) + LoggedFrames(t.saved)
  }

  function EvictedIn<E>(l: Log, t: H.Turn<E>): seq<Frame> {
    EvictedBy(H.Passed(l, t.pass), t.work) + EvictedBy(H.LogAtCut(l, t), t.saved)
  }

  lemma SuffixSmall(a: seq<Frame>, b: seq<Frame>)
    requires AllSmall(a + b)
    ensures AllSmall(b)
  {
    forall i | 0 <= i < |b|
      ensures Small(b[i])
    {
      assert (a + b)[|a| + i] == b[i];
    }
  }

  /**
   A turn, cut off or not, from a healthy log: what the pass left, then the frames
   logged while flushing, then the saved ones, is what was evicted, then what is live.
   */
  lemma ShutdownAccounts<E>(c: H.Setup<E>, s: H.Stand<E>, t: H.Turn<E>)
    requires Healthy(s.wal) && H.TurnOf(c, s, t) && AllSmall(LoggedIn(t))
    ensures Healthy(H.Passed(s.wal, t.pass)) && Healthy(H.After(c, s, t).wal)
    ensures H.Passed(s.wal, t.pass).Live() + LoggedIn(t) == EvictedIn(s.wal, t) + H.After(c, s, t).wal.Live()
    ensures t.pass.Some? && t.pass.value.CutShort? ==>
      && |t.pass.value.sent| < |s.wal.Live()|
      && H.Passed(s.wal, t.pass).Live() == s.wal.Live()[|t.pass.value.sent| + 1..]
  {
    hide WellFormed, Bounded, H.PassOf, H.PassOps, H.LogAfter, LoggedFrames, Run, Parse, EvictedBy;
    var l := H.Passed(s.wal, t.pass);
    if t.pass.Some? {
      PassConserves(s.wal, t.pass.value);
    }
    var work, saved := LoggedFrames(t.work), LoggedFrames(t.saved);
    PrefixSmall(work, work + saved);
    SuffixSmall(work, saved);
    LogAfterFrames(l, t.work);
    var m := H.LogAtCut(s.wal, t);
    LogAfterFrames(m, t.saved);
    Balanced(l.Live(), work, saved, EvictedBy(l, t.work), m.Live(), EvictedBy(m, t.saved), H.After(c, s, t).wal.Live());
  }

  lemma PassBag<E>(c: H.Setup<E>, s: H.Stand<E>, t: H.Turn<E>)
    requires Healthy(s.wal) && H.TurnOf(c, s, t)
    ensures multiset(s.wal.Live())
         == multiset(AcceptedIn(t)) + multiset(InFlightIn(t)) + multiset(H.Passed(s.wal, t.pass).Live())
  {
    hide WellFormed, Bounded, H.PassOf, H.PassOps, Run, Parse;
    if t.pass.Some? {
      PassLosesAtMostTheFrameInFlight(s.wal, t.pass.value);
      if t.pass.value.CutShort? {
        assert multiset([t.pass.value.frame]) == multiset{t.pass.value.frame};
      }
    }
  }

  lemma Balance<T>(live: multiset<T>, accepted: multiset<T>, flying: multiset<T>, left: multiset<T>,
                   logged: multiset<T>, evicted: multiset<T>, after: multiset<T>)
    requires live == accepted + flying + left && left + logged == evicted + after
    ensures live + logged == accepted + flying + evicted + after
  {
    forall x: T
      ensures (live + logged)[x] == (accepted + flying + evicted + after)[x]
    {
      assert (left + logged)[x] == (evicted + after)[x];
    }
  }

  /** As bags of frames: live before and logged are accepted, in flight at a cut, evicted, and live after. */
  lemma TurnDelivers<E>(c: H.Setup<E>, s: H.Stand<E>, t: H.Turn<E>)
    requires Healthy(s.wal) && H.TurnOf(c, s, t) && AllSmall(LoggedIn(t))
    ensures Healthy(H.After(c, s, t).wal)
    ensures multiset(s.wal.Live()) + multiset(LoggedIn(t))
         == multiset(AcceptedIn(t)) + multiset(InFlightIn(t)) + multiset(EvictedIn(s.wal, t))
            + multiset(H.After(c, s, t).wal.Live())
  {
    hide Healthy, H.After, H.TurnOf, H.Passed, LoggedIn, EvictedIn, AcceptedIn, InFlightIn, Parse;
    ShutdownAccounts(c, s, t);
    PassBag(c, s, t);
    var left := H.Passed(s.wal, t.pass).Live();
    BagOfTwo(left, LoggedIn(t));
    BagOfTwo(EvictedIn(s.wal, t), H.After(c, s, t).wal.Live());
    Balance(multiset(s.wal.Live()), multiset(AcceptedIn(t)), multiset(InFlightIn(t)), multiset(left),
            multiset(LoggedIn(t)), multiset(EvictedIn(s.wal, t)), multiset(H.After(c, s, t).wal.Live()));
  }

  /** The frames logged, accepted, in flight at a cut, and evicted in a run. */
  function LoggedRun<E>(turns: seq<H.Turn<E>>): seq<Frame> {
    if turns == [] then [] else LoggedRun(turns[..|turns| - 1]) + LoggedIn(turns[|turns| - 1])
  }

  function AcceptedRun<E>(turns: seq<H.Turn<E>>): seq<Frame> {
    if turns == [] then [] else AcceptedRun(turns[..|turns| - 1]) + AcceptedIn(turns[|turns| - 1])
  }

  function InFlightRun<E>(turns: seq<H.Turn<E>>): seq<Frame> {
    if turns == [] then [] else InFlightRun(turns[..|turns| - 1]) + InFlightIn(turns[|turns| - 1])
  }

  function EvictedRun<E>(c: H.Setup<E>, s: H.Stand<E>, turns: seq<H.Turn<E>>): seq<Frame> {
    if turns == [] then []
    else
      var before := turns[..|turns| - 1];
      EvictedRun(c, s, before) + EvictedIn(H.AfterAll(c, s, before).wal, turns[|turns| - 1])
  }

  lemma AddBags<T>(live: multiset<T>, a: multiset<T>, a': multiset<T>, b: multiset<T>, b': multiset<T>, c: multiset<T>,
                   c': multiset<T>, d: multiset<T>, d': multiset<T>, mid: multiset<T>, after: multiset<T>)
    requires live + a == b + c + d + mid && mid + a' == b' + c' + d' + after
    ensures live + (a + a') == (b + b') + (c + c') + (d + d') + after
  {
    forall x: T
      ensures (live + (a + a'))[x] == ((b + b') + (c + c') + (d + d') + after)[x]
    {
      assert (live + a)[x] == (b + c + d + mid)[x] && (mid + a')[x] == (b' + c' + d' + after)[x];
    }
  }

  /**
   Over every run of the worker from a healthy log, with frames of at most 256 MiB:
   the log stays healthy, and every frame that was live at the start or logged since
   is accepted by the network, in flight at a cut, evicted, or live.
   */
  lemma {:induction false} RunDelivers<E>(c: H.Setup<E>, limit: nat, s: H.Stand<E>, pending: seq<H.Message<E>>,
                                          wakes: seq<H.Wake<E>>, turns: seq<H.Turn<E>>)
    requires Healthy(s.wal) && H.RunOf(c, limit, s, pending, wakes, turns) && AllSmall(LoggedRun(turns))
    ensures Healthy(H.AfterAll(c, s, turns).wal)
    ensures multiset(s.wal.Live()) + multiset(LoggedRun(turns))
         == multiset(AcceptedRun(turns)) + multiset(InFlightRun(turns)) + multiset(EvictedRun(c, s, turns))
            + multiset(H.AfterAll(c, s, turns).wal.Live())
  {
    hide Healthy, H.After, H.TurnOf, H.Serves, LoggedIn, AcceptedIn, InFlightIn, EvictedIn, Parse;
    if turns != [] {
      var n := |turns| - 1;
      var before, t := turns[..n], turns[n];
      H.RunPrefix(c, limit, s, pending, wakes, turns);
      PrefixSmall(LoggedRun(before), LoggedRun(turns));
      SuffixSmall(LoggedRun(before), LoggedIn(t));
      RunDelivers(c, limit, s, pending, wakes, before);
      var here := H.AfterAll(c, s, before);
      assert H.Answered(c, limit, s, pending, wakes, turns, n);
      TurnDelivers(c, here, t);
      BagOfTwo(LoggedRun(before), LoggedIn(t));
      BagOfTwo(AcceptedRun(before), AcceptedIn(t));
      BagOfTwo(InFlightRun(before), InFlightIn(t));
      BagOfTwo(EvictedRun(c, s, before), EvictedIn(here.wal, t));
      AddBags(multiset(s.wal.Live()), multiset(LoggedRun(before)), multiset(LoggedIn(t)),
              multiset(AcceptedRun(before)), multiset(AcceptedIn(t)), multiset(InFlightRun(before)),
              multiset(InFlightIn(t)),
              multiset(EvictedRun(c, s, before)), multiset(EvictedIn(here.wal, t)),
              multiset(here.wal.Live()), multiset(H.AfterAll(c, s, turns).wal.Live()));
    }
  }

  lemma InOneOf<T>(x: T, live: multiset<T>, logged: seq<T>, a: seq<T>, b: seq<T>, c: seq<T>, d: seq<T>)
    requires x in logged
    requires live + multiset(logged) == multiset(a) + multiset(b) + multiset(c) + multiset(d)
    ensures x in a || x in b || x in c || x in d
  {
    assert (live + multiset(logged))[x] == (multiset(a) + multiset(b) + multiset(c) + multiset(d))[x];
    assert x in multiset(logged);
  }

  lemma UncutUnlessStopped<E>(c: H.Setup<E>, limit: nat, s: H.Stand<E>, t: H.Turn<E>, w: H.Wake<E>,
      offered: seq<H.Message<E>>)
    requires H.TurnOf(c, s, t) && H.Serves(c, limit, s, t, w, offered)
    ensures InFlightIn(t) != [] ==> H.Stops(t, w, offered)
  {
    hide H.Legit, H.InOrder, H.IdsIn, H.Settled, H.PassOf, H.CutTurn;
    if t.taken == [] {
      H.NoClose(t.taken);
    }
  }

  /** Only a turn that stops the worker is cut off, so at most one frame of a run is in flight at a cut. */
  lemma {:induction false} AtMostOneInFlight<E>(c: H.Setup<E>, limit: nat, s: H.Stand<E>, pending: seq<H.Message<E>>,
                                                wakes: seq<H.Wake<E>>, turns: seq<H.Turn<E>>)
    requires H.RunOf(c, limit, s, pending, wakes, turns)
    ensures |InFlightRun(turns)| <= 1
    ensures !H.Stopped(pending, wakes, turns) ==> InFlightRun(turns) == []
  {
    hide H.AfterAll;
    if turns != [] {
      var n := |turns| - 1;
      H.RunPrefix(c, limit, s, pending, wakes, turns);
      AtMostOneInFlight(c, limit, s, pending, wakes, turns[..n]);
      assert H.Answered(c, limit, s, pending, wakes, turns, n);
      UncutUnlessStopped(c, limit, H.AfterAll(c, s, turns[..n]), turns[n], wakes[n],
          H.Offered(pending, wakes, turns, n));
    }
  }

  // ---- What is lost is reported ----

  /** The bytes that reports say were evicted. */
  function EvictedBytes(reports: seq<H.Report>): nat {
    if reports == [] then 0
    else
      var r := reports[|reports| - 1];
      EvictedBytes(reports[..|reports| - 1]) + if r.Evicted? then r.bytes else 0
  }

  lemma {:induction false} BytesConcat(a: seq<H.Report>, b: seq<H.Report>)
    ensures EvictedBytes(a + b) == EvictedBytes(a) + EvictedBytes(b)
  {
    if b == [] {
      assert a + b == a;
    } else {
      BytesConcat(a, b[..|b| - 1]);
      assert (a + b)[..|a + b| - 1] == a + b[..|b| - 1];
    }
  }

  lemma SizeOfNothing(fs: seq<Frame>)
    ensures Size(fs) == 0 <==> fs == []
  {
  }

  lemma FitsIsRoom(l: Log, f: Frame)
    requires WellFormed(l)
    ensures Fits(l, FRAME_HEADER_LEN + |f|) <==> MustFree(View(l), f) <= 0
  {
    hide Parse, Rest;
    var dead := Taken(l);
    Made(dead, l.Kept(), l.Live(), l.max);
  }

  /** An append that evicts frames is reported with their size, header included; any other is not. */
  lemma EvictionIsReported(l: Log, f: Frame)
    requires Healthy(l) && Small(f)
    ensures var lost := Evictions(View(l), f);
      H.EvictionReport(l, f) == if lost == [] then [] else [H.Evicted(Size(lost))]
  {
    hide Bounded, Scan, Parse, WellFormed;
    FitsIsRoom(l, f);
    SizeOfNothing(Evictions(View(l), f));
    if MustFree(View(l), f) > 0 {
      var dead := SkippedFrames(l, FRAME_HEADER_LEN + |f|);
    }
  }

  lemma SizeConcat(a: seq<Frame>, b: seq<Frame>)
    ensures Size(a + b) == Size(a) + Size(b)
  {
    EncodeAllConcat(a, b);
  }

  lemma OneReport(rs: seq<H.Report>, n: nat)
    requires rs == if n == 0 then [] else [H.Evicted(n)]
    ensures EvictedBytes(rs) == n
  {
    if n > 0 {
      assert rs[..0] == [];
    }
  }

  lemma {:induction false} NoBytes(rs: seq<H.Report>)
    requires forall i :: 0 <= i < |rs| ==> !rs[i].Evicted?
    ensures EvictedBytes(rs) == 0
  {
    if rs != [] {
      NoBytes(rs[..|rs| - 1]);
    }
  }

  lemma LostInAppend<E>(l: Log, e: H.Event<E>)
    requires Healthy(l) && e.HandOff? && e.fate == H.Logged && Small(e.frame)
    ensures EvictedBytes(H.ReportOf(l, e)) == Size(Evictions(View(l), e.frame))
  {
    hide Healthy, Size, Evictions, EvictedBytes, H.EvictionReport, View;
    EvictionIsReported(l, e.frame);
    SizeOfNothing(Evictions(View(l), e.frame));
    OneReport(H.ReportOf(l, e), Size(Evictions(View(l), e.frame)));
  }

  lemma NothingEvicted<E>(l: Log, e: H.Event<E>)
    requires e.Ack? || e.fate != H.Logged
    ensures EvictedBytes(H.ReportOf(l, e)) == 0
  {
    NoBytes(H.ReportOf(l, e));
  }

  lemma {:induction false} LostWhileLogging<E>(l: Log, evs: seq<H.Event<E>>)
    requires Healthy(l) && AllSmall(LoggedFrames(evs))
    ensures EvictedBytes(H.ReportsOf(l, evs)) == Size(EvictedBy(l, evs))
  {
    hide Healthy, Append, Size, Evictions, Parse, H.ReportOf, EvictedBytes, View;
    if evs == [] {
      SizeOfNothing([]);
      NoBytes([]);
    } else {
      var n := |evs| - 1;
      var before, e := evs[..n], evs[n];
      var m := H.LogAfter(l, before);
      PrefixSmall(LoggedFrames(before), LoggedFrames(evs));
      LostWhileLogging(l, before);
      BytesConcat(H.ReportsOf(l, before), H.ReportOf(m, e));
      if e.HandOff? && e.fate == H.Logged {
        assert Small(e.frame) by {
          assert LoggedFrames(evs)[|LoggedFrames(before)|] == e.frame;
        }
        LogAfterFrames(l, before);
        LostInAppend(m, e);
        SizeConcat(EvictedBy(l, before), Evictions(View(m), e.frame));
      } else {
        assert EvictedBy(l, before) + [] == EvictedBy(l, before);
        NothingEvicted(m, e);
      }
    }
  }

  lemma LostInTurn<E>(c: H.Setup<E>, s: H.Stand<E>, t: H.Turn<E>)
    requires Healthy(s.wal) && H.TurnOf(c, s, t) && AllSmall(LoggedIn(t))
    ensures EvictedBytes(H.ReportsOfTurn(c, s.wal, t)) == Size(EvictedIn(s.wal, t))
  {
    hide WellFormed, Bounded, H.PassOf, H.PassOps, H.LogAfter, H.ReportsOf, LoggedFrames, Run, Parse, EvictedBy, Size,
        EvictedBytes;
    var l := H.Passed(s.wal, t.pass);
    ShutdownAccounts(c, s, t);
    var work, saved := LoggedFrames(t.work), LoggedFrames(t.saved);
    PrefixSmall(work, work + saved);
    SuffixSmall(work, saved);
    LogAfterFrames(l, t.work);
    LostWhileLogging(l, t.work);
    LostWhileLogging(H.LogAtCut(s.wal, t), t.saved);
    SizeConcat(EvictedBy(l, t.work), EvictedBy(H.LogAtCut(s.wal, t), t.saved));
    var a, b, d := H.PassedReports(t.pass, s.wal), H.ReportsOf(l, t.work), H.TimeoutReports(c, t);
    NoBytes(a);
    NoBytes(d);
    BytesConcat(a, b);
    BytesConcat(a + b, d);
    BytesConcat(a + b + d, H.ReportsOf(H.LogAtCut(s.wal, t), t.saved));
  }

  /** Over every run from a healthy log the bytes reported as evicted are the size of the frames evicted. */
  lemma {:induction false} LostBytesAreReported<E>(c: H.Setup<E>, limit: nat, s: H.Stand<E>, pending: seq<H.Message<E>>,
                                                   wakes: seq<H.Wake<E>>, turns: seq<H.Turn<E>>)
    requires Healthy(s.wal) && H.RunOf(c, limit, s, pending, wakes, turns) && AllSmall(LoggedRun(turns))
    ensures EvictedBytes(H.AfterAll(c, s, turns).reports) == EvictedBytes(s.reports) + Size(EvictedRun(c, s, turns))
  {
    hide Healthy, H.TurnOf, H.Serves, H.LogAfter, H.SendsOfTurn, H.ReportsOfTurn, H.AckEvents, H.Input, LoggedIn,
        EvictedIn, Parse, Size, EvictedBytes;
    if turns == [] {
      SizeOfNothing([]);
    } else {
      var n := |turns| - 1;
      var before, t := turns[..n], turns[n];
      H.RunPrefix(c, limit, s, pending, wakes, turns);
      PrefixSmall(LoggedRun(before), LoggedRun(turns));
      SuffixSmall(LoggedRun(before), LoggedIn(t));
      RunDelivers(c, limit, s, pending, wakes, before);
      LostBytesAreReported(c, limit, s, pending, wakes, before);
      var here := H.AfterAll(c, s, before);
      assert H.Answered(c, limit, s, pending, wakes, turns, n);
      LostInTurn(c, here, t);
      BytesConcat(here.reports, H.ReportsOfTurn(c, here.wal, t));
      SizeConcat(EvictedRun(c, s, before), EvictedIn(here.wal, t));
    }
  }

  // ---- Every entry ----

  /** What the network has accepted: a frame sent with success. */
  predicate WasAccepted(sends: seq<Attempt>, f: Frame) {
    Attempt(f, Ok) in sends
  }

  lemma {:induction false} SentIsAccepted<E>(c: H.Setup<E>, evs: seq<H.Event<E>>, i: nat)
    requires H.Legit(c, evs, false) && i < |evs| && evs[i].fate == H.Sent
    ensures WasAccepted(H.SendsOf(evs), evs[i].frame)
  {
    var n := |evs| - 1;
    if i < n {
      assert H.Legit(c, evs[..n], false);
      SentIsAccepted(c, evs[..n], i);
    } else {
      assert H.ChunkOf(c, evs[n], evs[n].schema, false);
      var tries := evs[n].tries;
      assert tries[|tries| - 1] == Attempt(evs[n].frame, Ok);
    }
  }

  lemma {:induction false} LoggedIsLogged<E>(evs: seq<H.Event<E>>, i: nat)
    requires i < |evs| && evs[i].HandOff? && evs[i].fate == H.Logged
    ensures evs[i].frame in LoggedFrames(evs)
  {
    if i < |evs| - 1 {
      LoggedIsLogged(evs[..|evs| - 1], i);
    }
  }

  /** The fate of a hand-off is backed by the network, the log, or a report. */
  ghost predicate Backed<E>(c: H.Setup<E>, e: H.Event<E>, sends: seq<Attempt>, logged: seq<Frame>) {
    e.HandOff? ==>
      match e.fate
      case Sent => WasAccepted(sends, e.frame)
      case Logged => c.buffered && e.frame in logged
      case Reported => !c.buffered
  }

  lemma WorkBacked<E>(c: H.Setup<E>, s: H.Stand<E>, t: H.Turn<E>, i: nat)
    requires H.TurnOf(c, s, t) && i < |t.work + t.saved + H.AckEvents(t.acks, H.Input(s.absorbed, t.taken, t.points))|
    ensures Backed(c, (t.work + t.saved + H.AckEvents(t.acks, H.Input(s.absorbed, t.taken, t.points)))[i],
                   H.SendsOfTurn(t), LoggedIn(t))
  {
    hide H.Settled, H.InOrder, H.IdsIn, H.PassOf, H.CutTurn, H.WholeTurn, H.SendsOf, LoggedFrames;
    var w := |t.work|;
    if i < w {
      assert H.ChunkOf(c, t.work[i], t.work[i].schema, false);
      if t.work[i].fate == H.Sent {
        SentIsAccepted(c, t.work, i);
      } else if t.work[i].fate == H.Logged {
        LoggedIsLogged(t.work, i);
      }
    } else if i < w + |t.saved| {
      assert H.ChunkOf(c, t.saved[i - w], t.saved[i - w].schema, true);
      LoggedIsLogged(t.saved, i - w);
    }
  }

  lemma {:induction false} AcceptedWasSent<E>(c: H.Setup<E>, s: H.Stand<E>, turns: seq<H.Turn<E>>, f: Frame)
    requires f in AcceptedRun(turns)
    ensures WasAccepted(H.AfterAll(c, s, turns).sends, f)
  {
    hide H.LogAfter, H.SendsOf, H.ReportsOf, H.AckEvents, H.Input;
    var n := |turns| - 1;
    var t := turns[n];
    if f in AcceptedRun(turns[..n]) {
      AcceptedWasSent(c, s, turns[..n], f);
    } else {
      var sent := SentOf(t.pass.value);
      var k :| 0 <= k < |sent| && sent[k] == f;
      assert H.Accepted(sent)[k] == Attempt(f, Ok);
      assert Attempt(f, Ok) in H.PassSends(t.pass.value);
    }
  }

  lemma StillBacked<E>(c: H.Setup<E>, e: H.Event<E>, sends: seq<Attempt>, x: seq<Attempt>, y: seq<Attempt>,
                       logged: seq<Frame>, u: seq<Frame>, v: seq<Frame>)
    requires Backed(c, e, sends, logged)
    ensures Backed(c, e, x + sends + y, u + logged + v)
    ensures [] + sends + y == sends + y && x + sends + [] == x + sends
    ensures [] + logged + v == logged + v && u + logged + [] == u + logged
  {
  }

  lemma TraceTail<T>(a: seq<T>, b: seq<T>, c: seq<T>, d: seq<T>, i: nat)
    requires |a| <= i < |a + b + c + d|
    ensures i - |a| < |b + c + d| && (a + b + c + d)[i] == (b + c + d)[i - |a|]
  {
    Assoc(a, b, c);
    Assoc(a, b + c, d);
  }

  /** Every hand-off of a run is backed. */
  lemma {:induction false} RunBacked<E>(c: H.Setup<E>, limit: nat, s: H.Stand<E>, pending: seq<H.Message<E>>,
                                        wakes: seq<H.Wake<E>>, turns: seq<H.Turn<E>>, i: nat)
    requires H.RunOf(c, limit, s, pending, wakes, turns) && |s.trace| <= i < |H.AfterAll(c, s, turns).trace|
    ensures Backed(c, H.AfterAll(c, s, turns).trace[i], H.AfterAll(c, s, turns).sends, LoggedRun(turns))
  {
    hide H.TurnOf, H.Serves, H.LogAfter, H.SendsOfTurn, H.ReportsOfTurn, H.AckEvents, H.Input, LoggedIn, WasAccepted,
        Backed;
    if turns != [] {
      var n := |turns| - 1;
      var t := turns[n];
      H.RunPrefix(c, limit, s, pending, wakes, turns);
      var here, now := H.AfterAll(c, s, turns[..n]), H.AfterAll(c, s, turns);
      var e := now.trace[i];
      if i < |here.trace| {
        assert e == here.trace[i];
        RunBacked(c, limit, s, pending, wakes, turns[..n], i);
        StillBacked(c, e, here.sends, [], H.SendsOfTurn(t), LoggedRun(turns[..n]), [], LoggedIn(t));
      } else {
        assert H.Answered(c, limit, s, pending, wakes, turns, n);
        var acks := H.AckEvents(t.acks, H.Input(here.absorbed, t.taken, t.points));
        assert now.trace == here.trace + t.work + t.saved + acks;
        TraceTail(here.trace, t.work, t.saved, acks, i);
        WorkBacked(c, here, t, i - |here.trace|);
        StillBacked(c, e, H.SendsOfTurn(t), here.sends, [], LoggedIn(t), LoggedRun(turns[..n]), []);
      }
    }
  }

  /**
   With a disk buffer, over every run from a fresh worker and a healthy log: every
   entry absorbed is still queued or in a frame that the network has accepted, that is
   live in the log, was evicted, or was the one in flight when the shutdown was cut off.
   */
  lemma EveryEntryIsAccountedFor<E>(c: H.Setup<E>, limit: nat, s: H.Stand<E>, pending: seq<H.Message<E>>,
                                    wakes: seq<H.Wake<E>>, turns: seq<H.Turn<E>>, i: nat)
    requires c.buffered && s.trace == [] && H.Ready(c, s)
    requires Healthy(s.wal) && H.RunOf(c, limit, s, pending, wakes, turns) && AllSmall(LoggedRun(turns))
    ensures var now := H.AfterAll(c, s, turns);
      && H.Accounted(now.absorbed, now.trace, now.queues)
      && |InFlightRun(turns)| <= 1
      && (i < |now.trace| && now.trace[i].HandOff? ==>
            var f := now.trace[i].frame;
            WasAccepted(now.sends, f) || f in now.wal.Live() || f in EvictedRun(c, s, turns) || f in InFlightRun(turns))
  {
    hide H.AfterAll, H.RunOf, Healthy, LoggedRun, AcceptedRun, InFlightRun, EvictedRun, WasAccepted, Parse, H.AcksSound,
      H.Below, H.Accounted, H.AllFramed, H.Stopped;
    H.RunKeeps(c, limit, s, pending, wakes, turns);
    AtMostOneInFlight(c, limit, s, pending, wakes, turns);
    var now := H.AfterAll(c, s, turns);
    if i < |now.trace| && now.trace[i].HandOff? {
      var f := now.trace[i].frame;
      RunBacked(c, limit, s, pending, wakes, turns, i);
      if now.trace[i].fate == H.Logged {
        RunDelivers(c, limit, s, pending, wakes, turns);
        InOneOf(f, multiset(s.wal.Live()), LoggedRun(turns), AcceptedRun(turns), InFlightRun(turns),
                EvictedRun(c, s, turns), now.wal.Live());
        if f in AcceptedRun(turns) {
          AcceptedWasSent(c, s, turns, f);
        }
      }
    }
  }

  lemma {:induction false} LoggedAll<E>(c: H.Setup<E>, saved: seq<H.Event<E>>)
    requires H.Legit(c, saved, true)
    ensures |LoggedFrames(saved)| == |saved| && H.SendsOf(saved) == []
  {
    if saved != [] {
      LoggedAll(c, saved[..|saved| - 1]);
    }
  }

  /** What is saved at a cut is exactly what was queued, per schema and in order, all of it logged. */
  lemma SavedIsWhatWasQueued<E>(c: H.Setup<E>, s: H.Stand<E>, t: H.Turn<E>, o: H.Schema)
    requires c.buffered && t.cut && H.TurnOf(c, s, t)
    ensures H.Flat(t.saved, o) == t.atCut.Get(o)
    ensures |LoggedFrames(t.saved)| == |t.saved| && H.SendsOf(t.saved) == []
  {
    hide H.PassOf;
    assert H.Flat(t.saved, o) + [] == H.Flat(t.saved, o);
    LoggedAll(c, t.saved);
  }
}
