/**
 Whole runs of the macOS scripts: which pair of links a switch can leave behind,
 whatever crashes, and what `previous` means over commands that ran to their end.
 */
module PointerRuns {
  import opened Common
  import opened PointerJournal
  import opened PointerLoss
  import opened PointerSwitch

  /** Every cut of the unsynced changes stands for one of these pairs. */
  ghost predicate CutsMean(d: Disk, pairs: set<Pair>) {
    forall n | 0 <= n <= |d.pending| :: Meaning(ApplyOps(d.durable, d.pending[..n])) in pairs
  }

  lemma NowMeans(d: Disk, pairs: set<Pair>)
    requires CutsMean(d, pairs)
    ensures Meaning(d.Now()) in pairs
  {
    assert d.pending[..|d.pending|] == d.pending;
  }

  lemma DoKeepsCuts(d: Disk, op: Op, pairs: set<Pair>)
    requires CutsMean(d, pairs) && Meaning(ApplyOp(d.Now(), op)) in pairs
    ensures CutsMean(Act(d, Do(op)), pairs)
  {
    hide Meaning;
    var e := Act(d, Do(op));
    assert e.pending[..|d.pending|] == d.pending;
    assert e.Now() == ApplyOp(d.Now(), op);
    hide ApplyOps, ApplyOp;
    forall n | 0 <= n <= |e.pending| ensures Meaning(ApplyOps(e.durable, e.pending[..n])) in pairs {
      if n <= |d.pending| {
        assert e.pending[..n] == d.pending[..n];
      } else {
        assert e.pending[..n] == e.pending;
      }
    }
  }

  lemma BarrierKeepsCuts(d: Disk, pairs: set<Pair>)
    requires CutsMean(d, pairs)
    ensures CutsMean(Act(d, Barrier), pairs)
  {
    hide Meaning;
    NowMeans(d, pairs);
    assert Act(d, Barrier).pending == [] && Act(d, Barrier).durable == d.Now();
    assert forall n | 0 <= n <= 0 :: Act(d, Barrier).pending[..n] == [];
  }

  lemma SomeCut(d: Disk, pairs: set<Pair>, n: nat)
    requires CutsMean(d, pairs) && n <= |d.pending|
    ensures Meaning(ApplyOps(d.durable, d.pending[..n])) in pairs
  {
  }

  lemma FirstCut(d: Disk, pairs: set<Pair>)
    requires CutsMean(d, pairs)
    ensures Meaning(d.durable) in pairs
  {
    hide Meaning;
    SomeCut(d, pairs, 0);
    assert d.pending[..0] == [];
  }

  /** While the journal is safe on disk, whatever survives means what it promises. */
  lemma FinishingMeans(d: Disk, k: seq<Op>, r: Dir, from: Target, to: Target)
    requires Finishing(d, from, to) && Good(d.durable) && Good(r)
    requires (forall op | op in k :: op in d.pending) && After(r, d.durable, k, to, from, "")
    ensures Meaning(r) == Meaning(d.durable)
  {
    hide JournalText, IsTarget, Meaning, Installable;
    assert r.journal == d.durable.journal;
    PromisedBy(r, from, to);
    PromisedBy(d.durable, from, to);
  }

  lemma PromisedBy(d: Dir, from: Target, to: Target)
    requires Good(d) && d.journal == Some(JournalText(from, to)) && IsTarget(from) && IsTarget(to)
    ensures Meaning(d) == Pair(Some(to), Some(from))
  {
    hide JournalText, IsTarget, Meaning, Installable, ReadJournal;
    var f, t :| Journaled(d, f, t);
    SameJournal(f, t, from, to);
    JournaledMeaning(d, from, to);
  }

  lemma LinksMean(d: Dir)
    requires d.journal.None?
    ensures Meaning(d) == Pair(d.current, d.previous)
  {
  }

  /** A new journal that survives means what it means to a running process. */
  lemma NewJournalMeans(d: Disk, k: seq<Op>, r: Dir, first: Target, from: Target, to: Target)
    requires Leaves(d, k, r, first, from, to) && Good(r) && Good(d.Now())
    requires PutJournal(JournalText(from, to)) in k
    ensures Meaning(r) == Meaning(d.Now())
  {
    hide JournalText, IsTarget, Meaning, Installable, ApplyOps, Good;
    assert PutJournal(JournalText(from, to)) in d.pending;
    NowEffect(d, first, from, JournalText(from, to));
    PromisedBy(r, from, to);
    PromisedBy(d.Now(), from, to);
  }

  /** Without the new journal and the first link, what survives means what was on disk. */
  lemma OldMeans(d: Disk, k: seq<Op>, r: Dir, first: Target, from: Target, to: Target)
    requires Leaves(d, k, r, first, from, to) && Good(r)
    requires PutJournal(JournalText(from, to)) !in k && SetPrevious(from) !in k && SetCurrent(first) !in k
    ensures Meaning(r) == Meaning(d.durable)
  {
    hide JournalText, IsTarget, Meaning, Installable, Good;
    if d.durable.journal.None? {
      LinksMean(r);
      LinksMean(d.durable);
    } else {
      assert DropJournal in d.pending;
      var f, t :| Journaled(d.durable, f, t) && d.durable.current == Some(t) && d.durable.previous == Some(f);
      PromisedBy(d.durable, f, t);
      if DropJournal in k {
        LinksMean(r);
      } else {
        PromisedBy(r, f, t);
      }
    }
  }

  function FirstPut(ops: seq<Op>): (n: nat)
    ensures n <= |ops|
    ensures n < |ops| ==> ops[n].PutJournal?
    ensures forall i | 0 <= i < n :: !ops[i].PutJournal?
  {
    if ops == [] || ops[0].PutJournal? then 0 else 1 + FirstPut(ops[1..])
  }

  lemma CutEffect(d: Disk, first: Target, from: Target, to: Target, n: nat)
    requires Preparing(d, first, from, to) && n <= |d.pending|
    ensures After(ApplyOps(d.durable, d.pending[..n]), d.durable, d.pending[..n], first, from, JournalText(from, to))
  {
    hide After, ApplyOps, JournalText;
    var cut := Disk(d.durable, d.pending[..n], {});
    assert Plain(cut.pending, first, from, JournalText(from, to));
    NowEffect(cut, first, from, JournalText(from, to));
  }

  lemma JournalNeedsFirstLink(d: Disk, first: Target, from: Target, to: Target, n: nat)
    requires Preparing(d, first, from, to) && n < |d.pending| && d.pending[n].PutJournal?
    requires d.durable.current.None? && Good(ApplyOps(d.durable, d.pending[..n + 1]))
    ensures SetCurrent(first) in d.pending[..n]
  {
    hide ApplyOps, JournalText, IsTarget, Installable;
    CutEffect(d, first, from, to, n + 1);
    var cut := d.pending[..n + 1];
    assert cut[n] == d.pending[n] && d.pending[n] in d.pending && cut[n] in cut;
    assert cut == d.pending[..n] + [d.pending[n]];
  }

  lemma CutIsGood(d: Disk, n: nat)
    requires AllCutsGood(d) && n <= |d.pending|
    ensures Good(ApplyOps(d.durable, d.pending[..n]))
  {
    hide Good, ApplyOps;
  }

  /** The first link, before any journal, is what some cut shows. */
  lemma FirstLinkCut(d: Disk, first: Target, from: Target, to: Target) returns (n: nat)
    requires Preparing(d, first, from, to) && AllCutsGood(d) && SetCurrent(first) in d.pending
    ensures n <= |d.pending|
    ensures Meaning(ApplyOps(d.durable, d.pending[..n])) == Pair(Some(first), None)
  {
    hide JournalText, IsTarget, Installable, ApplyOps, Meaning, Good, AllCutsGood;
    n := FirstPut(d.pending);
    FirstCutIsGood(d);
    CutIsGood(d, n);
    if n < |d.pending| {
      CutIsGood(d, n + 1);
      JournalNeedsFirstLink(d, first, from, to, n);
    } else {
      assert d.pending[..n] == d.pending;
    }
    CutEffect(d, first, from, to, n);
    CutHasNoJournal(d, first, from, to, n, ApplyOps(d.durable, d.pending[..n]));
    LinksMean(ApplyOps(d.durable, d.pending[..n]));
  }

  lemma CutHasNoJournal(d: Disk, first: Target, from: Target, to: Target, n: nat, cut: Dir)
    requires Preparing(d, first, from, to) && n <= |d.pending| && SetCurrent(first) in d.pending[..n]
    requires forall i | 0 <= i < n :: !d.pending[i].PutJournal?
    requires After(cut, d.durable, d.pending[..n], first, from, JournalText(from, to)) && Good(cut) && Good(d.durable)
    ensures cut.journal.None? && cut.current == Some(first) && cut.previous.None?
  {
    hide JournalText, IsTarget, Installable;
    assert SetCurrent(first) in d.pending;
    if SetPrevious(from) in d.pending[..n] {
      assert SetPrevious(from) in d.pending;
      assert PutJournal(JournalText(from, to)) in d.pending;
    }
  }

  lemma FirstLinkMeans(d: Disk, k: seq<Op>, r: Dir, first: Target, from: Target, to: Target)
    requires Leaves(d, k, r, first, from, to)
    requires PutJournal(JournalText(from, to)) !in k && SetPrevious(from) !in k && SetCurrent(first) in k
    ensures Meaning(r) == Pair(Some(first), None) && SetCurrent(first) in d.pending
  {
    hide JournalText, IsTarget, Meaning, Installable;
    assert SetCurrent(first) in d.pending;
    LinksMean(r);
  }

  lemma PreparingMeans(d: Disk, k: seq<Op>, r: Dir, first: Target, from: Target, to: Target, pairs: set<Pair>)
    requires Leaves(d, k, r, first, from, to) && Good(r) && NeedsMet(d, k)
    requires AllCutsGood(d) && CutsMean(d, pairs)
    ensures Meaning(r) in pairs
  {
    hide JournalText, IsTarget, Meaning, Good, After, AllCutsGood, CutsMean, ApplyOps, NeedsMet;
    NowIsGood(d);
    NowMeans(d, pairs);
    FirstCut(d, pairs);
    PreviousNeedsJournal(d, k, r, first, from, to);
    if PutJournal(JournalText(from, to)) in k {
      NewJournalMeans(d, k, r, first, from, to);
    } else if SetCurrent(first) in k {
      FirstLinkMeans(d, k, r, first, from, to);
      var n := FirstLinkCut(d, first, from, to);
      SomeCut(d, pairs, n);
    } else {
      OldMeans(d, k, r, first, from, to);
    }
  }

  /** A loss that leaves no survivor in need leaves a meaning some cut had. */
  lemma ClosedLossMeans(d: Disk, kept: seq<bool>, pairs: set<Pair>)
    requires |kept| == |d.pending| && Closed(d.pending, kept)
    requires Orderly(d) && AllCutsGood(d) && CutsMean(d, pairs)
    ensures Meaning(ApplyOps(d.durable, Kept(d.pending, kept))) in pairs
  {
    hide Meaning, Good, After, AllCutsGood, CutsMean, Kept, ApplyOps, Finishing, Preparing, Plain, JournalText, Needs;
    var k := Kept(d.pending, kept);
    var r := ApplyOps(d.durable, k);
    SurvivorsWerePending(d.pending, kept);
    FirstCutIsGood(d);
    OrderlyLinks(d, kept);
    if from, to :| Finishing(d, from, to) {
      FinishingIsPlain(d, from, to);
      SurvivorsEffect(d.durable, d.pending, kept, to, from, "");
      FinishingMeans(d, k, r, from, to);
      FirstCut(d, pairs);
    } else {
      var first, from, to :| Preparing(d, first, from, to);
      PreparingIsPlain(d, first, from, to);
      SurvivorsEffect(d.durable, d.pending, kept, first, from, JournalText(from, to));
      PreparingMeans(d, k, r, first, from, to, pairs);
    }
  }

  lemma FinishingIsPlain(d: Disk, from: Target, to: Target)
    requires Finishing(d, from, to)
    ensures Plain(d.pending, to, from, "")
  {
    assert forall i | 0 <= i < |d.pending| :: d.pending[i] in d.pending;
  }

  lemma PreparingIsPlain(d: Disk, first: Target, from: Target, to: Target)
    requires Preparing(d, first, from, to)
    ensures Plain(d.pending, first, from, JournalText(from, to))
  {
  }

  /** Versions nothing names make no difference to the meaning. */
  lemma MeaningWithout(r: Dir, lost: set<Target>)
    requires Good(r) && forall t | t in lost :: !Named(r, t)
    ensures Meaning(r.(ready := r.ready - lost)) == Meaning(r)
  {
    hide JournalText, IsTarget, Meaning, Installable, Good, Named;
    var q := r.(ready := r.ready - lost);
    WithoutVersions(r, lost);
    if r.journal.None? {
      LinksMean(r);
      LinksMean(q);
    } else {
      var from, to := PromisedPair(q);
      PromisedBy(q, from, to);
      PromisedBy(r, from, to);
    }
  }

  lemma PromisedPair(d: Dir) returns (from: Target, to: Target)
    requires Good(d) && d.journal.Some?
    ensures d.journal == Some(JournalText(from, to)) && IsTarget(from) && IsTarget(to)
  {
    hide JournalText, IsTarget, Installable;
    from, to :| Journaled(d, from, to);
  }

  lemma MeaningWithMore(d: Dir, v: Target)
    requires Good(d) && Installable(v)
    ensures Meaning(d.(ready := d.ready + {v})) == Meaning(d)
  {
    hide JournalText, IsTarget, Meaning, Installable, Good;
    GoodWithMore(d, v);
    if d.journal.None? {
      LinksMean(d);
      LinksMean(d.(ready := d.ready + {v}));
    } else {
      var from, to := PromisedPair(d);
      PromisedBy(d, from, to);
      PromisedBy(d.(ready := d.ready + {v}), from, to);
    }
  }

  lemma PlaceKeepsCuts(d: Disk, v: Target, pairs: set<Pair>)
    requires AllCutsGood(d) && CutsMean(d, pairs) && Installable(v)
    ensures CutsMean(Act(d, Place(v)), pairs)
  {
    hide Good, Meaning, ApplyOps, Installable;
    var e := Act(d, Place(v));
    forall n | 0 <= n <= |e.pending| ensures Meaning(ApplyOps(e.durable, e.pending[..n])) in pairs {
      MoreReady(d.durable, d.pending[..n], e.durable.ready);
      ReadyStays(d.durable, d.pending[..n]);
      MeaningWithMore(ApplyOps(d.durable, d.pending[..n]), v);
    }
  }

  lemma SyncKeepsCuts(d: Disk, pairs: set<Pair>)
    requires CutsMean(d, pairs)
    ensures CutsMean(Act(d, SyncVersions), pairs)
  {
    hide Meaning, ApplyOps;
  }

  lemma LossKeepsCuts(s: State, kept: seq<bool>, lost: set<Target>, pairs: set<Pair>)
    requires Steady(s) && CutsMean(s.disk, pairs)
    requires Enabled(s, PowerLoss(kept, lost)) && Harmless(s.disk, kept, lost)
    ensures CutsMean(Apply(s, PowerLoss(kept, lost)).disk, pairs)
  {
    hide Meaning, CutsMean, Closed, Orderly, AllCutsGood, Kept, Good, ApplyOps, Named;
    ClosedLossMeans(s.disk, kept, pairs);
    FirstCutIsGood(s.disk);
    OrderlyLinks(s.disk, kept);
    MeaningWithout(ApplyOps(s.disk.durable, Kept(s.disk.pending, kept)), lost);
    EmptyCuts(Apply(s, PowerLoss(kept, lost)).disk, pairs);
  }

  lemma EmptyCuts(d: Disk, pairs: set<Pair>)
    requires d.pending == [] && Meaning(d.durable) in pairs
    ensures CutsMean(d, pairs)
  {
    hide Meaning;
    assert d.pending[..0] == [];
  }

  // ------------------------------------------------------ one switch, any crashes

  /**
   Between the decision to switch and the next decision: only the process that
   took the decision carries out a switch, and every cut means one of the pairs.
   */
  ghost predicate Pursued(s: State, pairs: set<Pair>, from: Target, to: Target) {
    && Inv(s) && CutsMean(s.disk, pairs)
    && (s.process.Switching? && s.process.todo != [] ==> PlanStage(s.disk.Now(), s.process.todo, from, to))
  }

  /** A step at which a script decides which pointers to set. */
  predicate Decides(s: State, step: Step) {
    step.Advance? && s.process.Deciding?
  }

  lemma PlanKeepsCuts(d: Disk, todo: seq<Action>, from: Target, to: Target, pairs: set<Pair>)
    requires AllCutsGood(d) && CutsMean(d, pairs) && PlanStage(d.Now(), todo, from, to) && todo != []
    requires |todo| < 8 || Pair(Some(to), Some(from)) in pairs
    ensures CutsMean(Act(d, todo[0]), pairs)
  {
    hide Good, PlanStage, AllCutsGood, Meaning;
    NowIsGood(d);
    NowMeans(d, pairs);
    PlanIsOfTheRoot(d.Now(), todo, from, to);
    match todo[0] {
      case Barrier => BarrierKeepsCuts(d, pairs);
      case Do(op) =>
        PlanChangesMeaningOnce(d.Now(), todo, from, to);
        DoKeepsCuts(d, op, pairs);
    }
  }

  lemma StagingKeepsCuts(s: State, pairs: set<Pair>)
    requires Inv(s) && CutsMean(s.disk, pairs) && s.process.Staging? && s.process.todo != []
    ensures CutsMean(Act(s.disk, s.process.todo[0]), pairs)
  {
    hide Good, AllCutsGood, CutsMean, Act, Installable;
    match s.process.todo[0] {
      case SyncVersions => SyncKeepsCuts(s.disk, pairs);
      case Place(v) => PlaceKeepsCuts(s.disk, v, pairs);
    }
  }

  lemma SoundLossKeepsPursuit(
    s: State, kept: seq<bool>, lost: set<Target>, pairs: set<Pair>, from: Target, to: Target)
    requires Steady(s) && CutsMean(s.disk, pairs) && Enabled(s, PowerLoss(kept, lost)) && Sound(s, PowerLoss(kept, lost))
    ensures Pursued(Apply(s, PowerLoss(kept, lost)), pairs, from, to)
  {
    hide Good, AllCutsGood, CutsMean, PlanStage, Meaning, Left, ApplyOps, Orderly, Fresh, Harmless;
    LossIsSteady(s, kept, lost);
    LossKeepsCuts(s, kept, lost, pairs);
  }

  lemma StepKeepsPursuit(s: State, step: Step, pairs: set<Pair>, from: Target, to: Target)
    requires Pursued(s, pairs, from, to) && Pair(Some(to), Some(from)) in pairs
    requires Steady(s) && Enabled(s, step) && Sound(s, step) && !Decides(s, step)
    ensures Pursued(Apply(s, step), pairs, from, to)
  {
    hide Good, AllCutsGood, CutsMean, PlanStage, Meaning, AfterStart, Decision, FirstInstall, Kept, ApplyOps;
    if step.PowerLoss? {
      SoundLossKeepsPursuit(s, step.kept, step.lost, pairs, from, to);
      return;
    }
    hide Orderly, Fresh;
    StepKeepsInv(s, step);
    if step.Advance? {
      match s.process {
        case Starting(c) => StartSwitchesNothing(c, s.disk.Now());
        case Recovering(_, todo) =>
          if todo != [] {
            var f, t :| PlanStage(s.disk.Now(), todo, f, t);
            PlanKeepsCuts(s.disk, todo, f, t, pairs);
          }
        case Staging(_, todo) =>
          if todo != [] {
            StagingKeepsCuts(s, pairs);
          }
        case Switching(todo) =>
          if todo != [] {
            PlanKeepsCuts(s.disk, todo, from, to, pairs);
            PlanAdvances(s.disk, todo, from, to);
          }
        case _ =>
      }
    }
  }

  lemma StartSwitchesNothing(c: Command, now: Dir)
    ensures !AfterStart(c, now).Switching?
  {
  }

  /** A plan of eight actions is the plan of one pair of targets only. */
  lemma PlanOfOnePair(from: Target, to: Target, f: Target, t: Target)
    requires SwitchPlan(from, to) == SwitchPlan(f, t)
    ensures f == from && t == to
  {
    assert SwitchPlan(from, to)[2] == Do(SetPrevious(from)) && SwitchPlan(f, t)[2] == Do(SetPrevious(f));
    assert SwitchPlan(from, to)[4] == Do(SetCurrent(to)) && SwitchPlan(f, t)[4] == Do(SetCurrent(t));
  }

  lemma DecidedIsPursued(s: State, from: Target, to: Target, pairs: set<Pair>)
    requires Inv(s) && CutsMean(s.disk, pairs) && s.process == Switching(SwitchPlan(from, to))
    ensures Pursued(s, pairs, from, to)
  {
    hide AllCutsGood, CutsMean, Meaning;
    var todo := SwitchPlan(from, to);
    assert |todo| == 8;
    assert !FirstInstall(s.disk.Now(), todo);
    var f, t :| PlanStage(s.disk.Now(), todo, f, t);
    assert SwitchPlan(f, t)[0..] == SwitchPlan(f, t);
    PlanOfOnePair(from, to, f, t);
  }

  lemma {:induction false} PursuitLasts(
    ss: seq<State>, steps: seq<Step>, i: nat, n: nat, from: Target, to: Target, pairs: set<Pair>)
    requires Run(ss, steps) && i <= n < |ss|
    requires forall k | 0 <= k < n :: Sound(ss[k], steps[k])
    requires forall k | i <= k < n :: !Decides(ss[k], steps[k])
    requires Pursued(ss[i], pairs, from, to) && Pair(Some(to), Some(from)) in pairs
    ensures Pursued(ss[n], pairs, from, to)
    decreases n
  {
    hide Pursued, Apply, Enabled, Sound, Steady;
    if i < n {
      PursuitLasts(ss, steps, i, n - 1, from, to, pairs);
      SoundRunsAreSteady(ss, steps, n - 1);
      StepKeepsPursuit(ss[n - 1], steps[n - 1], pairs, from, to);
    }
  }

  /**
   From the moment a switch from `from` to `to` is decided, through any number
   of kills, restarts and recoverable power losses, also inside recovery, and up
   to the next decision: whatever survives stands for a pair the directory stood
   for when the switch was decided, or for (to, from). When a run has recovered,
   no journal is left, and the two links are one of those pairs and differ if set.
   */
  lemma SwitchSurvivesEveryCrash(
    ss: seq<State>, steps: seq<Step>, i: nat, n: nat, from: Target, to: Target, pairs: set<Pair>)
    requires Run(ss, steps) && i <= n < |ss|
    requires forall k | 0 <= k < n :: Sound(ss[k], steps[k])
    requires forall k | i <= k < n :: !Decides(ss[k], steps[k])
    requires ss[i].process == Switching(SwitchPlan(from, to)) && CutsMean(ss[i].disk, pairs)
    ensures CutsMean(ss[n].disk, pairs + {Pair(Some(to), Some(from))})
    ensures ss[n].process.Recovered? ==>
              var d := ss[n].disk.Now();
              && d.journal.None? && Pair(d.current, d.previous) in pairs + {Pair(Some(to), Some(from))}
              && (if d.current.Some? then d.current != d.previous else d.previous.None?)
  {
    hide Pursued, CutsMean, Apply, Enabled, SwitchPlan, Meaning, Sound, Orderly, Fresh;
    var all := pairs + {Pair(Some(to), Some(from))};
    SoundRunsAreSteady(ss, steps, i);
    MorePairs(ss[i].disk, pairs, all);
    DecidedIsPursued(ss[i], from, to, all);
    PursuitLasts(ss, steps, i, n, from, to, all);
    PursuedMeans(ss[n], all, from, to);
    if ss[n].process.Recovered? {
      NowMeans(ss[n].disk, all);
      RecoveryRestoresThePair(ss[n]);
    }
  }

  lemma PursuedMeans(s: State, pairs: set<Pair>, from: Target, to: Target)
    requires Pursued(s, pairs, from, to)
    ensures CutsMean(s.disk, pairs) && Inv(s)
  {
  }

  lemma MorePairs(d: Disk, pairs: set<Pair>, more: set<Pair>)
    requires CutsMean(d, pairs) && pairs <= more
    ensures CutsMean(d, more)
  {
  }

  /**
   From a settled start, with nothing unsynced when the switch is decided: the
   old pair or (to, from), at every cut and after every recovery, and never a third.
   */
  lemma OldPairOrNewPair(ss: seq<State>, steps: seq<Step>, i: nat, n: nat, from: Target, to: Target)
    requires Run(ss, steps) && i <= n < |ss|
    requires forall k | 0 <= k < n :: Sound(ss[k], steps[k])
    requires forall k | i <= k < n :: !Decides(ss[k], steps[k])
    requires ss[i].process == Switching(SwitchPlan(from, to)) && ss[i].disk.pending == []
    ensures var d := ss[i].disk.durable;
            var pairs := {Pair(d.current, d.previous), Pair(Some(to), Some(from))};
            && d.current == Some(from) && d.journal.None?
            && CutsMean(ss[n].disk, pairs)
            && (ss[n].process.Recovered? ==>
                  var e := ss[n].disk.Now();
                  e.journal.None? && e.current.Some? && e.current != e.previous && Pair(e.current, e.previous) in pairs)
  {
    hide CutsMean, Apply, Enabled, SwitchPlan, Pursued, Sound, Orderly, Fresh;
    var d := ss[i].disk.durable;
    SoundRunsAreSteady(ss, steps, i);
    SettledDecision(ss[i], from, to);
    var pairs := {Pair(d.current, d.previous)};
    SwitchSurvivesEveryCrash(ss, steps, i, n, from, to, pairs);
    assert pairs + {Pair(Some(to), Some(from))} == {Pair(d.current, d.previous), Pair(Some(to), Some(from))};
  }

  lemma SettledDecision(s: State, from: Target, to: Target)
    requires Inv(s) && s.process == Switching(SwitchPlan(from, to)) && s.disk.pending == []
    ensures s.disk.durable.current == Some(from) && s.disk.durable.journal.None?
    ensures CutsMean(s.disk, {Pair(s.disk.durable.current, s.disk.durable.previous)})
  {
    var all := {Meaning(s.disk.durable)};
    EmptyCuts(s.disk, all);
    DecidedIsPursued(s, from, to, all);
    hide Inv, CutsMean;
    assert s.disk.Now() == s.disk.durable;
  }

  // ------------------------------------------------------ commands that run to their end

  /** The version the pair's current named before the one it names now. */
  function LastNamed(ss: seq<State>): Option<Target>
    requires ss != []
    decreases |ss|
  {
    if |ss| == 1 then None
    else
      var now, before := Meaning(ss[|ss| - 1].disk.Now()), Meaning(ss[|ss| - 2].disk.Now());
      if now.current != before.current then before.current else LastNamed(ss[..|ss| - 1])
  }

  /**
   Over every run without a power loss, kills included, `previous` is the version
   `current` last named and differs from it; and where no journal is left these
   are the links themselves.
   */
  lemma {:induction false} PreviousIsLastNamed(ss: seq<State>, steps: seq<Step>, n: nat)
    requires Run(ss, steps) && n < |ss|
    requires forall k | 0 <= k < n :: !steps[k].PowerLoss?
    ensures Meaning(ss[n].disk.Now()).previous == LastNamed(ss[..n + 1])
    ensures ss[n].disk.Now().journal.None? ==>
              var d := ss[n].disk.Now();
              d.previous == LastNamed(ss[..n + 1]) && (d.previous.Some? ==> d.current.Some? && d.current != d.previous)
    decreases n
  {
    hide Apply, Enabled, Inv, Good;
    assert forall k | 0 <= k < n :: InOrder(steps[k]);
    EveryCrashIsRecoverable(ss, steps, n);
    if ss[n].disk.Now().journal.None? {
      SettledLinks(ss[n]);
    }
    if n > 0 {
      PreviousIsLastNamed(ss, steps, n - 1);
      EveryCrashIsRecoverable(ss, steps, n - 1);
      StepMovesMeaning(ss[n - 1], steps[n - 1]);
      assert ss[..n + 1][..n] == ss[..n];
    }
  }

  lemma SettledLinks(s: State)
    requires Inv(s) && s.disk.Now().journal.None?
    ensures var d := s.disk.Now();
            && Meaning(d) == Pair(d.current, d.previous)
            && (d.previous.Some? ==> d.current.Some? && d.current != d.previous)
  {
    NowIsGood(s.disk);
  }

  lemma StepMovesMeaning(s: State, step: Step)
    requires Inv(s) && Enabled(s, step) && !step.PowerLoss?
    ensures MeaningMoves(Meaning(s.disk.Now()), Meaning(Apply(s, step).disk.Now()))
  {
    hide Inv, Meaning;
    if step.Advance? {
      AdvanceMovesMeaning(s);
    }
  }

  // ------------------------------------------------------ two rollbacks

  function RunActions(d: Disk, actions: seq<Action>): Disk
    decreases |actions|
  {
    if actions == [] then d else RunActions(Act(d, actions[0]), actions[1..])
  }

  lemma {:induction false} SwitchRunsOut(d: Disk, todo: seq<Action>)
    ensures Play(State(d, Switching(todo)), Advances(|todo| + 1)) == Some(State(RunActions(d, todo), NoProcess))
    decreases |todo|
  {
    hide Act;
    var s := State(d, Switching(todo));
    assert Advances(|todo| + 1) == [Advance] + Advances(|todo|);
    PlayOne(s, Advance, Advances(|todo|));
    if todo == [] {
      assert Advances(0) == [];
    } else {
      SwitchRunsOut(Act(d, todo[0]), todo[1..]);
    }
  }

  function Advances(n: nat): seq<Step> {
    seq(n, i => Advance)
  }

  lemma DoThenSync(d: Disk, op: Op, rest: seq<Action>)
    ensures RunActions(d, [Do(op)] + ([Barrier] + rest)) == RunActions(Disk(ApplyOp(d.Now(), op), [], d.adrift), rest)
  {
    var e := Act(d, Do(op));
    assert ([Do(op)] + ([Barrier] + rest))[1..] == [Barrier] + rest && ([Barrier] + rest)[1..] == rest;
    assert e.pending[..|d.pending|] == d.pending && e.Now() == ApplyOp(d.Now(), op);
  }

  lemma SwitchEffect(d: Disk, from: Target, to: Target)
    requires d.Now().journal.None?
    ensures RunActions(d, SwitchPlan(from, to)) == Disk(d.Now().(current := Some(to), previous := Some(from)), [], d.adrift)
  {
    hide RunActions, JournalText;
    var j, p, c := PutJournal(JournalText(from, to)), SetPrevious(from), SetCurrent(to);
    assert SwitchPlan(from, to)
        == [Do(j)] + ([Barrier] + ([Do(p)] + ([Barrier] + ([Do(c)] + ([Barrier] + ([Do(DropJournal)] + ([Barrier] + [])))))));
    var d1 := Disk(ApplyOp(d.Now(), j), [], d.adrift);
    var d2 := Disk(ApplyOp(d1.Now(), p), [], d.adrift);
    var d3 := Disk(ApplyOp(d2.Now(), c), [], d.adrift);
    DoThenSync(d, j, [Do(p)] + ([Barrier] + ([Do(c)] + ([Barrier] + ([Do(DropJournal)] + ([Barrier] + []))))));
    DoThenSync(d1, p, [Do(c)] + ([Barrier] + ([Do(DropJournal)] + ([Barrier] + []))));
    DoThenSync(d2, c, [Do(DropJournal)] + ([Barrier] + []));
    DoThenSync(d3, DropJournal, []);
    NoActions(Disk(ApplyOp(d3.Now(), DropJournal), [], d.adrift));
  }

  lemma NoActions(d: Disk)
    ensures RunActions(d, []) == d
  {
  }

  /** A rollback started on a settled installation and left alone: eleven more steps, and the links exchanged. */
  function WholeRollback(): seq<Step> {
    [Launch(Rollback)] + ([Advance] + ([Advance] + ([Advance] + Advances(9))))
  }

  lemma RollbackExchanges(s: State, a: Target, b: Target)
    requires Inv(s) && s.process.NoProcess? && s.disk.Now().journal.None?
    requires s.disk.Now().current == Some(a) && s.disk.Now().previous == Some(b)
    ensures Play(s, WholeRollback())
         == Some(State(Disk(s.disk.Now().(current := Some(b), previous := Some(a)), [], s.disk.adrift), NoProcess))
  {
    RollbackDecides(s, a, b);
    hide Play, Apply, Inv, SwitchPlan;
    var rest := Advances(9);
    var s1 := s.(process := Starting(Rollback));
    var s2 := s.(process := Recovered(Rollback));
    var s3 := s.(process := Deciding(Rollback));
    var s4 := s.(process := Switching(SwitchPlan(a, b)));
    PlayOne(s, Launch(Rollback), [Advance] + ([Advance] + ([Advance] + rest)));
    PlayOne(s1, Advance, [Advance] + ([Advance] + rest));
    PlayOne(s2, Advance, [Advance] + rest);
    PlayOne(s3, Advance, rest);
    PlanShape(a, b);
    SwitchRunsOut(s.disk, SwitchPlan(a, b));
    SwitchEffect(s.disk, a, b);
  }

  lemma RollbackDecides(s: State, a: Target, b: Target)
    requires Inv(s) && s.process.NoProcess? && s.disk.Now().journal.None?
    requires s.disk.Now().current == Some(a) && s.disk.Now().previous == Some(b)
    ensures Apply(s, Launch(Rollback)) == s.(process := Starting(Rollback))
    ensures Apply(s.(process := Starting(Rollback)), Advance) == s.(process := Recovered(Rollback))
    ensures Apply(s.(process := Recovered(Rollback)), Advance) == s.(process := Deciding(Rollback))
    ensures Apply(s.(process := Deciding(Rollback)), Advance) == s.(process := Switching(SwitchPlan(a, b)))
  {
    hide SwitchPlan, ApplyOps, IsTarget;
    NowIsGood(s.disk);
  }

  /** Two rollbacks restore the pair of links, and all else is as it was, the root now synced. */
  lemma RollbackTwice(s: State, a: Target, b: Target)
    requires Inv(s) && s.process.NoProcess? && s.disk.Now().journal.None?
    requires s.disk.Now().current == Some(a) && s.disk.Now().previous == Some(b)
    ensures Play(s, WholeRollback()).Some?
    ensures Play(Play(s, WholeRollback()).value, WholeRollback()) == Some(State(Disk(s.disk.Now(), [], s.disk.adrift), NoProcess))
  {
    hide Play, WholeRollback;
    RollbackExchanges(s, a, b);
    var t := State(Disk(s.disk.Now().(current := Some(b), previous := Some(a)), [], s.disk.adrift), NoProcess);
    ExchangedIsSettled(s, a, b, t);
    RollbackExchanges(t, b, a);
  }

  lemma ExchangedIsSettled(s: State, a: Target, b: Target, t: State)
    requires Inv(s) && s.disk.Now().journal.None?
    requires s.disk.Now().current == Some(a) && s.disk.Now().previous == Some(b)
    requires t == State(Disk(s.disk.Now().(current := Some(b), previous := Some(a)), [], s.disk.adrift), NoProcess)
    ensures Inv(t) && t.disk.Now() == t.disk.durable
  {
    NowIsGood(s.disk);
    assert Good(t.disk.durable);
    assert t.disk.pending[..0] == [];
  }

  // ------------------------------------------------------ a command left alone

  /** What a command is for, on the pair it finds. */
  function Intended(p: Pair, command: Command): Pair {
    match command
    case Install(v) => if p.current == Some(v) then p else Pair(Some(v), p.current)
    case Rollback => if p.current.Some? && p.previous.Some? then Pair(p.previous, p.current) else p
  }

  lemma {:induction false} PlayConcat(s: State, a: seq<Step>, b: seq<Step>)
    requires Play(s, a).Some?
    ensures Play(s, a + b) == Play(Play(s, a).value, b)
    decreases |a|
  {
    if a == [] {
      assert a + b == b;
    } else {
      assert (a + b)[1..] == a[1..] + b;
      PlayConcat(Apply(s, a[0]), a[1..], b);
    }
  }

  lemma AdvancesJoin(s: State, m: nat, n: nat)
    requires Play(s, Advances(m)).Some?
    ensures Play(s, Advances(m + n)) == Play(Play(s, Advances(m)).value, Advances(n))
  {
    assert Advances(m + n) == Advances(m) + Advances(n);
    PlayConcat(s, Advances(m), Advances(n));
  }

  lemma OneAdvance(s: State)
    requires !s.process.NoProcess?
    ensures Play(s, Advances(1)) == Some(Apply(s, Advance))
  {
    hide Apply;
    assert Advances(1) == [Advance] + [];
    PlayOne(s, Advance, []);
  }

  lemma {:induction false} AdvancesKeepInv(s: State, n: nat)
    requires Inv(s) && Play(s, Advances(n)).Some?
    ensures Inv(Play(s, Advances(n)).value)
    decreases n
  {
    hide Inv, Apply, Enabled;
    if n > 0 {
      assert Advances(n)[1..] == Advances(n - 1);
      StepKeepsInv(s, Advance);
      AdvancesKeepInv(Apply(s, Advance), n - 1);
    }
  }

  lemma {:induction false} RecoveryRunsOut(d: Disk, command: Command, todo: seq<Action>)
    ensures Play(State(d, Recovering(command, todo)), Advances(|todo| + 1))
         == Some(State(RunActions(d, todo), Recovered(command)))
    decreases |todo|
  {
    hide Act;
    var s := State(d, Recovering(command, todo));
    assert Advances(|todo| + 1) == [Advance] + Advances(|todo|);
    PlayOne(s, Advance, Advances(|todo|));
    if todo == [] {
      assert Advances(0) == [];
    } else {
      RecoveryRunsOut(Act(d, todo[0]), command, todo[1..]);
    }
  }

  lemma RecoveryEffect(d: Disk, from: Target, to: Target)
    ensures RunActions(d, RecoveryPlan(from, to))
         == Disk(d.Now().(current := Some(to), previous := Some(from), journal := None), [], d.adrift)
  {
    hide RunActions;
    var p, c := SetPrevious(from), SetCurrent(to);
    assert RecoveryPlan(from, to) == [Do(p)] + ([Barrier] + ([Do(c)] + ([Barrier] + ([Do(DropJournal)] + ([Barrier] + [])))));
    var d1 := Disk(ApplyOp(d.Now(), p), [], d.adrift);
    var d2 := Disk(ApplyOp(d1.Now(), c), [], d.adrift);
    DoThenSync(d, p, [Do(c)] + ([Barrier] + ([Do(DropJournal)] + ([Barrier] + []))));
    DoThenSync(d1, c, [Do(DropJournal)] + ([Barrier] + []));
    DoThenSync(d2, DropJournal, []);
    NoActions(Disk(ApplyOp(d2.Now(), DropJournal), [], d.adrift));
  }

  /** A start that is left alone finishes what the journal tells, and the links are then what the directory meant. */
  lemma StartRuns(s: State, command: Command) returns (n: nat, t: State)
    requires Inv(s) && s.process == Starting(command)
    ensures Play(s, Advances(n)) == Some(t) && Inv(t) && t.process == Recovered(command)
    ensures var now := s.disk.Now();
            t.disk.Now() == Dir(Meaning(now).current, Meaning(now).previous, None, now.ready)
  {
    hide Play, Inv, RecoveryPlan, ReadJournal;
    var now := s.disk.Now();
    OneAdvance(s);
    if now.journal.None? {
      n, t := 1, s.(process := Recovered(command));
    } else {
      var from, to := JournalStarts(s, command);
      RecoveryRunsOut(s.disk, command, RecoveryPlan(from, to));
      RecoveryEffect(s.disk, from, to);
      var m := |RecoveryPlan(from, to)| + 1;
      n, t := 1 + m, State(RunActions(s.disk, RecoveryPlan(from, to)), Recovered(command));
      AdvancesJoin(s, 1, m);
    }
    AdvancesKeepInv(s, n);
  }

  lemma JournalStarts(s: State, command: Command) returns (from: Target, to: Target)
    requires Inv(s) && s.process == Starting(command) && s.disk.Now().journal.Some?
    ensures Meaning(s.disk.Now()) == Pair(Some(to), Some(from))
    ensures Apply(s, Advance) == s.(process := Recovering(command, RecoveryPlan(from, to)))
  {
    hide RecoveryPlan, JournalText, ReadJournal, IsTarget, Installable;
    NowIsGood(s.disk);
    var now := s.disk.Now();
    from, to :| Journaled(now, from, to);
    JournaledMeaning(now, from, to);
    JournalReadsBack(now, from, to);
    assert ValidPointer(now, now.current) && now.current.value in {from, to};
  }

  /** The version of an install is put in place, unless it already is. */
  lemma StagingRuns(s: State, command: Command) returns (n: nat, t: State)
    requires Inv(s) && s.process == Recovered(command)
    ensures Play(s, Advances(n)) == Some(t) && Inv(t) && t.process == Deciding(command)
    ensures var now := s.disk.Now();
            t.disk.Now() == now.(ready := if command.Install? then now.ready + {command.version} else now.ready)
  {
    hide Play, ApplyOps, AllCutsGood, Act;
    OneAdvance(s);
    if command.Install? && command.version !in s.disk.Now().ready {
      var v := command.version;
      var s1 := s.(process := Staging(command, [Place(v), SyncVersions]));
      var s2 := State(Act(s.disk, Place(v)), Staging(command, [SyncVersions]));
      var s3 := State(Act(s2.disk, SyncVersions), Staging(command, []));
      assert [Place(v), SyncVersions][1..] == [SyncVersions] && [SyncVersions][1..] == [];
      OneAdvance(s1);
      OneAdvance(s2);
      OneAdvance(s3);
      n, t := 4, s3.(process := Deciding(command));
      AdvancesJoin(s, 1, 3);
      AdvancesJoin(s1, 1, 2);
      AdvancesJoin(s2, 1, 1);
      OneMoreVersion(s.disk, v);
      SyncingVersions(s2.disk);
    } else {
      n, t := 1, s.(process := Deciding(command));
    }
    AdvancesKeepInv(s, n);
  }

  /** The links are moved, the first set, or nothing is left to do. */
  lemma DecidingRuns(s: State, command: Command) returns (n: nat, t: State)
    requires Inv(s) && s.process == Deciding(command)
    ensures Play(s, Advances(n)) == Some(t) && t.process.NoProcess?
    ensures var now := s.disk.Now();
            var pair := Intended(Pair(now.current, now.previous), command);
            t.disk.Now() == now.(current := pair.current, previous := pair.previous)
  {
    hide Play, SwitchPlan, RunActions;
    DecisionIsIntended(s, command);
    OneAdvance(s);
    var next := Apply(s, Advance);
    if next.process.NoProcess? {
      n, t := 1, next;
    } else {
      hide Inv, Apply, Decision;
      var todo := next.process.todo;
      SwitchRunsOut(s.disk, todo);
      n, t := 1 + (|todo| + 1), State(RunActions(s.disk, todo), NoProcess);
      AdvancesJoin(s, 1, |todo| + 1);
      var now := s.disk.Now();
      if now.current.Some? {
        SwitchEffect(s.disk, now.current.value, Intended(Pair(now.current, now.previous), command).current.value);
      } else {
        assert todo == [Do(SetCurrent(command.version))] + ([Barrier] + []);
        DoThenSync(s.disk, SetCurrent(command.version), []);
        NoActions(Disk(ApplyOp(now, SetCurrent(command.version)), [], s.disk.adrift));
      }
    }
  }

  lemma DecisionIsIntended(s: State, command: Command)
    requires Inv(s) && s.process == Deciding(command)
    ensures var now, next := s.disk.Now(), Apply(s, Advance);
            var pair := Intended(Pair(now.current, now.previous), command);
            && now.journal.None? && next.disk == s.disk
            && (pair == Pair(now.current, now.previous) ==> next.process.NoProcess?)
            && (pair != Pair(now.current, now.previous) && now.current.Some? ==>
                  pair == Pair(pair.current, now.current) && pair.current.Some?
                  && next.process == Switching(SwitchPlan(now.current.value, pair.current.value)))
            && (pair != Pair(now.current, now.previous) && now.current.None? ==>
                  && command.Install? && now.previous.None?
                  && next.process == Switching([Do(SetCurrent(command.version)), Barrier]))
  {
    hide SwitchPlan, ApplyOps, JournalText, ReadJournal;
    NowIsGood(s.disk);
  }

  /**
   Any command left alone runs to its end, whatever a kill left behind: the
   switch the journal tells of is finished first, the version of an install is
   put in place, and the links end as the command intends them on the pair the
   directory meant, with no journal left.
   */
  lemma CommandCompletes(s: State, command: Command) returns (n: nat)
    requires Inv(s) && s.process.NoProcess? && Enabled(s, Launch(command))
    ensures Play(s, [Launch(command)] + Advances(n)).Some?
    ensures var left := Play(s, [Launch(command)] + Advances(n)).value;
            var now := s.disk.Now();
            var pair := Intended(Meaning(now), command);
            && left.process.NoProcess?
            && left.disk.Now() == Dir(pair.current, pair.previous, None,
                 if command.Install? then now.ready + {command.version} else now.ready)
  {
    hide Play, Inv, Meaning;
    StepKeepsInv(s, Launch(command));
    var s1 := s.(process := Starting(command));
    var a, s2 := StartRuns(s1, command);
    var b, s3 := StagingRuns(s2, command);
    var c, s4 := DecidingRuns(s3, command);
    n := a + (b + c);
    AdvancesJoin(s1, a, b + c);
    AdvancesJoin(s2, b, c);
    PlayOne(s, Launch(command), Advances(n));
  }

  // ------------------------------------------------------ a version never synced

  /** An install killed once its version is in place, a second one left alone, and a power loss that takes the version. */
  function AbandonedVersion(v: Target): seq<Step> {
    [Launch(Install(v))] + ([Advance] + ([Advance] + ([Advance] + ([Kill]
      + ([Launch(Install(v))] + ([Advance] + ([Advance] + ([Advance] + (Advances(9) + [PowerLoss([], {v})])))))))))
  }

  /**
   A second install finds the version in place, checks it and switches to it, but
   never syncs the directory it was moved into. From any settled installation the
   finished, fully synced switch can then be left with a `current` that is gone.
   */
  lemma UnsyncedVersionIsLost(s: State, from: Target, v: Target)
    requires Inv(s) && s.process.NoProcess? && s.disk.pending == []
    requires s.disk.durable.journal.None? && s.disk.durable.current == Some(from)
    requires Installable(v) && v !in s.disk.durable.ready
    ensures Play(s, AbandonedVersion(v)).Some?
    ensures var left := Play(s, AbandonedVersion(v)).value.disk.durable;
            left.current == Some(v) && left.previous == Some(from) && v !in left.ready && !Good(left)
  {
    hide Play, Apply, Enabled, Inv, SwitchPlan, Good, Advances, Left;
    var placed := Disk(s.disk.durable.(ready := s.disk.durable.ready + {v}), [], s.disk.adrift + {v});
    var killed := State(placed, NoProcess);
    var loss := [PowerLoss([], {v})];
    VersionIsPlaced(s, v, placed);
    FoundInPlace(s, from, v, placed);
    var rest := Advances(9) + loss;
    var second := [Launch(Install(v))] + ([Advance] + ([Advance] + ([Advance] + rest)));
    PlayOne(State(placed, Staging(Install(v), [SyncVersions])), Kill, second);
    PlayOne(s.(process := Staging(Install(v), [Place(v), SyncVersions])), Advance, [Kill] + second);
    PlayOne(s.(process := Recovered(Install(v))), Advance, [Advance] + ([Kill] + second));
    PlayOne(s.(process := Starting(Install(v))), Advance, [Advance] + ([Advance] + ([Kill] + second)));
    PlayOne(s, Launch(Install(v)), [Advance] + ([Advance] + ([Advance] + ([Kill] + second))));
    PlayOne(State(placed, Deciding(Install(v))), Advance, rest);
    PlayOne(State(placed, Recovered(Install(v))), Advance, [Advance] + rest);
    PlayOne(State(placed, Starting(Install(v))), Advance, [Advance] + ([Advance] + rest));
    PlayOne(killed, Launch(Install(v)), [Advance] + ([Advance] + ([Advance] + rest)));
    PlanShape(from, v);
    SwitchRunsOut(placed, SwitchPlan(from, v));
    SwitchEffect(placed, from, v);
    var switched := State(Disk(placed.durable.(current := Some(v), previous := Some(from)), [], placed.adrift), NoProcess);
    assert placed.Now() == placed.durable;
    PlayConcat(State(placed, Switching(SwitchPlan(from, v))), Advances(9), loss);
    VersionGone(switched, from, v);
  }

  lemma VersionIsPlaced(s: State, v: Target, placed: Disk)
    requires s.process.NoProcess? && s.disk.pending == [] && s.disk.durable.journal.None?
    requires Installable(v) && v !in s.disk.durable.ready
    requires placed == Disk(s.disk.durable.(ready := s.disk.durable.ready + {v}), [], s.disk.adrift + {v})
    ensures var command := Install(v);
            && Enabled(s, Launch(command)) && Apply(s, Launch(command)) == s.(process := Starting(command))
            && Apply(s.(process := Starting(command)), Advance) == s.(process := Recovered(command))
            && Apply(s.(process := Recovered(command)), Advance)
               == s.(process := Staging(command, [Place(v), SyncVersions]))
            && Apply(s.(process := Staging(command, [Place(v), SyncVersions])), Advance)
               == State(placed, Staging(command, [SyncVersions]))
            && Apply(State(placed, Staging(command, [SyncVersions])), Kill) == State(placed, NoProcess)
  {
    hide Installable, ReadJournal;
    assert [Place(v), SyncVersions][1..] == [SyncVersions];
  }

  lemma FoundInPlace(s: State, from: Target, v: Target, placed: Disk)
    requires Inv(s) && s.disk.pending == [] && s.disk.durable.journal.None? && s.disk.durable.current == Some(from)
    requires Installable(v) && v !in s.disk.durable.ready
    requires placed == Disk(s.disk.durable.(ready := s.disk.durable.ready + {v}), [], s.disk.adrift + {v})
    ensures var command := Install(v);
            var killed := State(placed, NoProcess);
            && Enabled(killed, Launch(command)) && Apply(killed, Launch(command)) == State(placed, Starting(command))
            && Apply(State(placed, Starting(command)), Advance) == State(placed, Recovered(command))
            && Apply(State(placed, Recovered(command)), Advance) == State(placed, Deciding(command))
            && Apply(State(placed, Deciding(command)), Advance) == State(placed, Switching(SwitchPlan(from, v)))
  {
    hide ReadJournal, SwitchPlan, IsTarget;
    NowIsGood(s.disk);
    assert s.disk.Now() == s.disk.durable && placed.Now() == placed.durable;
    assert from in s.disk.durable.ready && from != v;
  }

  lemma VersionGone(s: State, from: Target, v: Target)
    requires s.process.NoProcess? && s.disk.pending == [] && v in s.disk.adrift
    requires s.disk.durable.current == Some(v) && s.disk.durable.previous == Some(from)
    ensures var loss := PowerLoss([], {v});
            && Play(s, [loss]).Some?
            && var left := Play(s, [loss]).value.disk.durable;
               left.current == Some(v) && left.previous == Some(from) && v !in left.ready && !Good(left)
  {
    var loss := PowerLoss([], {v});
    PlayOne(s, loss, []);
    assert [loss] + [] == [loss];
    assert Kept(s.disk.pending, []) == [];
  }
}
