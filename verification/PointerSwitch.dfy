/**
 The macOS installer's journaled switch of the `current` and `previous` links,
 with crashes at every point, also inside recovery.
 */
module PointerSwitch {
  import opened Common
  import opened PointerJournal

  type Target = string

  /** One level of the install root, as some observer sees it. */
  datatype Dir = Dir(
    current: Option<Target>, previous: Option<Target>, journal: Option<string>, ready: set<Target>)

  /** An entry of the root changed by a rename or an unlink. The file behind it is already synced. */
  datatype Op =
    | SetCurrent(target: Target)
    | SetPrevious(target: Target)
    | PutJournal(text: string)
    | DropJournal

  function ApplyOp(d: Dir, op: Op): Dir {
    match op
    case SetCurrent(t) => d.(current := Some(t))
    case SetPrevious(t) => d.(previous := Some(t))
    case PutJournal(text) => d.(journal := Some(text))
    case DropJournal => d.(journal := None)
  }

  function ApplyOps(d: Dir, ops: seq<Op>): Dir {
    if ops == [] then d else ApplyOp(ApplyOps(d, ops[..|ops| - 1]), ops[|ops| - 1])
  }

  /**
   What survives a power loss, and the root's entries changed since its last
   barrier. The versions in place are part of `durable`; those `adrift` were
   moved there since the last barrier of their own directory, and may be lost.
   */
  datatype Disk = Disk(durable: Dir, pending: seq<Op>, adrift: set<Target>)
  {
    /** What a running process sees. */
    function Now(): Dir {
      ApplyOps(durable, pending)
    }
  }

  /** A change of the root and the root's barrier; a staged version moved into place, and the barrier of `versions`. */
  datatype Action = Do(op: Op) | Barrier | Place(target: Target) | SyncVersions

  datatype Command = Install(version: Target) | Rollback

  /** Where a run of a script stands; `todo` is what is left of the plan it is carrying out. */
  datatype Process =
    | NoProcess
    | Starting(command: Command)
    | Recovering(command: Command, todo: seq<Action>)
    | Recovered(command: Command)
    | Staging(command: Command, todo: seq<Action>)
    | Deciding(command: Command)
    | Switching(todo: seq<Action>)

  datatype State = State(disk: Disk, process: Process)

  /** grimmore_recover_pointer_switch after its checks, and the tail of grimmore_switch_pointer_pair. */
  function RecoveryPlan(from: Target, to: Target): seq<Action> {
    [Do(SetPrevious(from)), Barrier, Do(SetCurrent(to)), Barrier, Do(DropJournal), Barrier]
  }

  function SwitchPlan(from: Target, to: Target): seq<Action> {
    [Do(PutJournal(JournalText(from, to))), Barrier] + RecoveryPlan(from, to)
  }

  /** A pointer whose text is a version target and whose directory is ready. */
  predicate ValidPointer(d: Dir, pointer: Option<Target>) {
    pointer.Some? && IsTarget(pointer.value) && pointer.value in d.ready
  }

  /** The first thing a script does: finish an interrupted switch, or die on one it cannot read. */
  function AfterStart(command: Command, now: Dir): Process {
    if now.journal.None? then Recovered(command)
    else match ReadJournal(now.journal.value, now.ready)
      case None => NoProcess
      case Some((from, to)) =>
        if ValidPointer(now, now.current) && now.current.value in {from, to} then
          Recovering(command, RecoveryPlan(from, to))
        else NoProcess
  }

  /** The pointer decision of install.sh, or the checks of rollback.sh. */
  function Decision(command: Command, now: Dir): Process {
    match command
    case Install(v) =>
      if now.current.None? then
        (if now.previous.Some? then NoProcess else Switching([Do(SetCurrent(v)), Barrier]))
      else if !ValidPointer(now, now.current) then NoProcess
      else if now.current.value == v then NoProcess
      else StartSwitch(now, now.current.value, v)
    case Rollback =>
      if !ValidPointer(now, now.current) || !ValidPointer(now, now.previous) then NoProcess
      else if now.current == now.previous then NoProcess
      else StartSwitch(now, now.current.value, now.previous.value)
  }

  function StartSwitch(now: Dir, from: Target, to: Target): Process {
    if now.current == Some(from) && Switchable(from, to, now.ready) && now.journal.None? then
      Switching(SwitchPlan(from, to))
    else NoProcess
  }

  ghost predicate ReadyTarget(d: Dir, t: Target) {
    IsTarget(t) && t in d.ready
  }

  /**
   Of any directory whatever, sound or not: the pair is switched only between two
   distinct ready versions, from the current one, with no journal about; and a
   first link is made only where neither link is.
   */
  lemma SwitchesOnlyBetweenReady(command: Command, now: Dir)
    ensures var next := Decision(command, now);
            var to := if command.Install? then Some(command.version) else now.previous;
            && (now.current.None? ==>
                  next == if command.Install? && now.previous.None? then Switching([Do(SetCurrent(command.version)), Barrier])
                          else NoProcess)
            && (now.current.Some? ==>
                  next == if && to.Some? && to != now.current && now.journal.None?
                             && ReadyTarget(now, now.current.value) && ReadyTarget(now, to.value)
                          then Switching(SwitchPlan(now.current.value, to.value)) else NoProcess)
  {
    hide IsTarget, SwitchPlan;
  }

  /** Of any directory whatever: a journal is acted on only if it reads as a switch of which the ready current link is an end. */
  lemma RecoversOnlyItsOwnSwitch(command: Command, now: Dir, from: Target, to: Target)
    ensures AfterStart(command, now) == Recovered(command) <==> now.journal.None?
    ensures now.journal.Some? && ReadJournal(now.journal.value, now.ready) == Some((from, to)) ==>
              AfterStart(command, now) ==
                if now.current in {Some(from), Some(to)} then Recovering(command, RecoveryPlan(from, to)) else NoProcess
    ensures now.journal.Some? && ReadJournal(now.journal.value, now.ready).None? ==> AfterStart(command, now).NoProcess?
  {
    hide IsTarget, RecoveryPlan, JournalText;
    if now.journal.Some? {
      JournalIsTakenIff(now.journal.value, now.ready, from, to);
    }
  }

  datatype Step =
    | Launch(command: Command)
    | Advance
    | Kill
    | PowerLoss(kept: seq<bool>, lost: set<Target>)

  function Kept(ops: seq<Op>, kept: seq<bool>): seq<Op>
    requires |ops| == |kept|
  {
    if ops == [] then []
    else Kept(ops[..|ops| - 1], kept[..|ops| - 1]) + (if kept[|ops| - 1] then [ops[|ops| - 1]] else [])
  }

  predicate Enabled(s: State, step: Step) {
    match step
    case Launch(command) => s.process.NoProcess? && (command.Install? ==> Installable(command.version))
    case Advance => !s.process.NoProcess?
    case Kill => !s.process.NoProcess?
    case PowerLoss(kept, lost) => |kept| == |s.disk.pending| && lost <= s.disk.adrift
  }

  function Act(d: Disk, a: Action): Disk {
    match a
    case Do(op) => d.(pending := d.pending + [op])
    case Barrier => d.(durable := d.Now(), pending := [])
    case Place(t) => d.(durable := d.durable.(ready := d.durable.ready + {t}), adrift := d.adrift + {t})
    case SyncVersions => d.(adrift := {})
  }

  /** The directory that is left: some of the root's unsynced changes are kept, some of the versions adrift are lost. */
  function Left(d: Disk, kept: seq<bool>, lost: set<Target>): Dir
    requires |kept| == |d.pending|
  {
    var r := ApplyOps(d.durable, Kept(d.pending, kept));
    r.(ready := r.ready - lost)
  }

  function Apply(s: State, step: Step): State
    requires Enabled(s, step)
  {
    match step
    case Launch(command) => s.(process := Starting(command))
    case Kill => s.(process := NoProcess)
    case PowerLoss(kept, lost) => State(Disk(Left(s.disk, kept, lost), [], {}), NoProcess)
    case Advance =>
      match s.process
      case Starting(command) => s.(process := AfterStart(command, s.disk.Now()))
      case Recovering(command, todo) =>
        if todo == [] then s.(process := Recovered(command))
        else State(Act(s.disk, todo[0]), Recovering(command, todo[1..]))
      case Recovered(command) =>
        if command.Install? && command.version !in s.disk.Now().ready then
          s.(process := Staging(command, [Place(command.version), SyncVersions]))
        else s.(process := Deciding(command))
      case Staging(command, todo) =>
        if todo == [] then s.(process := Deciding(command))
        else State(Act(s.disk, todo[0]), Staging(command, todo[1..]))
      case Deciding(command) => s.(process := Decision(command, s.disk.Now()))
      case Switching(todo) =>
        if todo == [] then s.(process := NoProcess)
        else State(Act(s.disk, todo[0]), Switching(todo[1..]))
  }

  const EMPTY_ROOT := State(Disk(Dir(None, None, None, {}), [], {}), NoProcess)

  ghost predicate Run(ss: seq<State>, steps: seq<Step>) {
    && |ss| == |steps| + 1 && ss[0] == EMPTY_ROOT
    && forall i | 0 <= i < |steps| :: Enabled(ss[i], steps[i]) && ss[i + 1] == Apply(ss[i], steps[i])
  }

  /** Changes reach the disk in the order they were made: what survives is a prefix, and no version is lost behind it. */
  ghost predicate InOrder(step: Step) {
    step.PowerLoss? ==> step.lost == {} && forall i, j | 0 <= i < j < |step.kept| :: step.kept[j] ==> step.kept[i]
  }

  // ------------------------------------------------------ what a crash may leave

  /** The pair a switch journal promises, with `current` on one of its ends. */
  predicate Journaled(d: Dir, from: Target, to: Target) {
    && Switchable(from, to, d.ready)
    && d.journal == Some(JournalText(from, to))
    && (d.current == Some(from) || (d.current == Some(to) && d.previous == Some(from)))
  }

  predicate PointersReady(d: Dir) {
    && (d.current.Some? ==> ValidPointer(d, d.current))
    && (d.previous.Some? ==> d.current.Some? && ValidPointer(d, d.previous))
    && forall t | t in d.ready :: Installable(t)
  }

  /** A directory recovery can start from: links name ready versions, and the journal tells the rest. */
  ghost predicate Good(d: Dir) {
    && PointersReady(d)
    && (d.journal.None? ==> d.current.None? || d.current != d.previous)
    && (d.journal.Some? ==> exists from, to :: Journaled(d, from, to))
  }

  /** Every cut of the unsynced changes is a directory recovery can start from. */
  ghost predicate AllCutsGood(d: Disk) {
    forall n | 0 <= n <= |d.pending| :: Good(ApplyOps(d.durable, d.pending[..n]))
  }

  /** How far a plan has come, by what is left of it. */
  ghost predicate PlanStage(d: Dir, todo: seq<Action>, from: Target, to: Target) {
    && Switchable(from, to, d.ready)
    && |todo| <= 8 && todo == SwitchPlan(from, to)[8 - |todo|..]
    && (|todo| == 8 ==> d.journal.None? && d.current == Some(from))
    && (2 <= |todo| <= 7 ==> Journaled(d, from, to))
    && (|todo| <= 5 ==> d.previous == Some(from))
    && (|todo| <= 3 ==> d.current == Some(to))
    && (|todo| <= 1 ==> d.journal.None?)
  }

  ghost predicate FirstInstall(d: Dir, todo: seq<Action>) {
    exists v :: v in d.ready && (
      || (todo == [Do(SetCurrent(v)), Barrier] && d.current.None? && d.previous.None? && d.journal.None?)
      || ((todo == [Barrier] || todo == []) && d.current == Some(v) && d.previous.None? && d.journal.None?))
  }

  ghost predicate ProcessAgrees(p: Process, now: Dir) {
    match p
    case NoProcess => true
    case Starting(c) => c.Install? ==> Installable(c.version)
    case Recovering(c, todo) =>
      && (c.Install? ==> Installable(c.version))
      && |todo| <= 6 && exists from, to :: PlanStage(now, todo, from, to)
    case Recovered(c) => (c.Install? ==> Installable(c.version)) && now.journal.None?
    case Staging(c, todo) =>
      && c.Install? && Installable(c.version) && now.journal.None?
      && (todo == [Place(c.version), SyncVersions] || (todo in {[SyncVersions], []} && c.version in now.ready))
    case Deciding(c) => (c.Install? ==> c.version in now.ready) && now.journal.None?
    case Switching(todo) => FirstInstall(now, todo) || exists from, to :: PlanStage(now, todo, from, to)
  }

  ghost predicate Inv(s: State) {
    AllCutsGood(s.disk) && ProcessAgrees(s.process, s.disk.Now())
  }

  // ------------------------------------------------------ cuts and barriers

  lemma NowIsGood(d: Disk)
    requires AllCutsGood(d)
    ensures Good(d.Now())
  {
    assert d.pending[..|d.pending|] == d.pending;
  }

  lemma OneMoreOp(d: Disk, op: Op)
    requires AllCutsGood(d) && Good(ApplyOp(d.Now(), op))
    ensures Act(d, Do(op)).Now() == ApplyOp(d.Now(), op)
    ensures AllCutsGood(Act(d, Do(op)))
  {
    hide Good, ApplyOp;
    var e := Act(d, Do(op));
    assert e.pending[..|d.pending|] == d.pending;
    assert e.Now() == ApplyOp(d.Now(), op);
    hide ApplyOps;
    forall n | 0 <= n <= |e.pending| ensures Good(ApplyOps(e.durable, e.pending[..n])) {
      if n <= |d.pending| {
        assert e.pending[..n] == d.pending[..n];
      } else {
        assert e.pending[..n] == e.pending;
      }
    }
  }

  lemma {:induction false} ReadyStays(d: Dir, ops: seq<Op>)
    ensures ApplyOps(d, ops).ready == d.ready
    decreases |ops|
  {
    if ops != [] {
      ReadyStays(d, ops[..|ops| - 1]);
    }
  }

  lemma {:induction false} MoreReady(d: Dir, ops: seq<Op>, ready: set<Target>)
    ensures ApplyOps(d.(ready := ready), ops) == ApplyOps(d, ops).(ready := ready)
    decreases |ops|
  {
    if ops != [] {
      MoreReady(d, ops[..|ops| - 1], ready);
    }
  }

  /** One more version in place changes nothing else. */
  lemma OneMoreVersion(d: Disk, v: Target)
    requires AllCutsGood(d) && Installable(v)
    ensures Act(d, Place(v)).Now() == d.Now().(ready := d.Now().ready + {v})
    ensures AllCutsGood(Act(d, Place(v)))
  {
    hide Good, ApplyOps, Installable;
    var e := Act(d, Place(v));
    forall n | 0 <= n <= |e.pending| ensures Good(ApplyOps(e.durable, e.pending[..n])) {
      MoreReady(d.durable, d.pending[..n], e.durable.ready);
      ReadyStays(d.durable, d.pending[..n]);
      GoodWithMore(ApplyOps(d.durable, d.pending[..n]), v);
    }
    MoreReady(d.durable, d.pending, e.durable.ready);
    ReadyStays(d.durable, d.pending);
  }

  lemma GoodWithMore(d: Dir, v: Target)
    requires Good(d) && Installable(v)
    ensures Good(d.(ready := d.ready + {v}))
  {
    hide JournalText, IsTarget;
    if d.journal.Some? {
      var from, to :| Journaled(d, from, to);
      assert Journaled(d.(ready := d.ready + {v}), from, to);
    }
  }

  lemma SyncingVersions(d: Disk)
    requires AllCutsGood(d)
    ensures Act(d, SyncVersions).Now() == d.Now() && AllCutsGood(Act(d, SyncVersions))
  {
    hide Good;
  }

  lemma BarrierSyncs(d: Disk)
    requires AllCutsGood(d)
    ensures Act(d, Barrier).Now() == d.Now()
    ensures AllCutsGood(Act(d, Barrier))
  {
    NowIsGood(d);
    assert Act(d, Barrier).pending == [];
  }

  /** Survivors in order are a prefix. */
  lemma {:induction false} KeptInOrderIsPrefix(ops: seq<Op>, kept: seq<bool>) returns (n: nat)
    requires |ops| == |kept| && forall i, j | 0 <= i < j < |kept| :: kept[j] ==> kept[i]
    ensures n <= |ops| && Kept(ops, kept) == ops[..n]
    ensures n == |ops| || (forall i | n <= i < |kept| :: !kept[i])
    ensures forall i | 0 <= i < n :: kept[i]
    decreases |ops|
  {
    if ops == [] {
      n := 0;
    } else {
      var last := |ops| - 1;
      KeptStep(ops, kept);
      hide Kept;
      n := KeptInOrderIsPrefix(ops[..last], kept[..last]);
      if kept[last] {
        assert forall i | 0 <= i < last :: kept[i];
        assert forall i | 0 <= i < last :: kept[..last][i];
        assert n == last;
        n := |ops|;
        InitAndLast(ops);
      } else {
        assert ops[..last][..n] == ops[..n];
      }
    }
  }

  lemma KeptStep(ops: seq<Op>, kept: seq<bool>)
    requires |ops| == |kept| && ops != []
    ensures var last := |ops| - 1;
            Kept(ops, kept) == Kept(ops[..last], kept[..last]) + (if kept[last] then [ops[last]] else [])
  {
  }

  lemma InitAndLast(ops: seq<Op>)
    requires ops != []
    ensures ops[..|ops| - 1][..|ops| - 1] + [ops[|ops| - 1]] == ops == ops[..|ops|]
  {
  }

  lemma NothingLost(d: Disk, kept: seq<bool>)
    requires |kept| == |d.pending|
    ensures Left(d, kept, {}) == ApplyOps(d.durable, Kept(d.pending, kept))
  {
    hide ApplyOps, Kept;
    var r := ApplyOps(d.durable, Kept(d.pending, kept));
    assert r.ready - {} == r.ready;
  }

  lemma PowerLossLeavesACut(s: State, kept: seq<bool>)
    requires Inv(s) && |kept| == |s.disk.pending| && InOrder(PowerLoss(kept, {}))
    ensures Inv(Apply(s, PowerLoss(kept, {})))
  {
    var n := KeptInOrderIsPrefix(s.disk.pending, kept);
    var d := Apply(s, PowerLoss(kept, {})).disk;
    NothingLost(s.disk, kept);
    assert d.pending == [] && d.durable == ApplyOps(s.disk.durable, s.disk.pending[..n]);
    assert Good(d.durable);
    assert d.pending[..0] == [];
  }

  // ------------------------------------------------------ the plans

  /** The change a stage is about to make keeps the directory recoverable and moves the plan on. */
  lemma PlanChange(now: Dir, todo: seq<Action>, from: Target, to: Target)
    requires Good(now) && PlanStage(now, todo, from, to) && todo != [] && todo[0].Do?
    ensures Good(ApplyOp(now, todo[0].op))
    ensures PlanStage(ApplyOp(now, todo[0].op), todo[1..], from, to)
  {
    hide JournalText, IsTarget, Installable;
    var after := ApplyOp(now, todo[0].op);
    var plan := SwitchPlan(from, to);
    assert todo[0] == plan[8 - |todo|];
    assert todo[1..] == plan[8 - |todo[1..]|..];
    if |todo| == 8 {
      assert Journaled(after, from, to);
    } else if |todo| == 6 || |todo| == 4 {
      assert Journaled(now, from, to);
      assert Journaled(after, from, to);
    } else {
      assert |todo| == 2 && after.journal.None?;
    }
  }

  lemma PlanBarrier(now: Dir, todo: seq<Action>, from: Target, to: Target)
    requires PlanStage(now, todo, from, to) && todo != [] && todo[0].Barrier?
    ensures PlanStage(now, todo[1..], from, to)
  {
    assert todo[0] == SwitchPlan(from, to)[8 - |todo|];
    assert todo[1..] == SwitchPlan(from, to)[8 - |todo[1..]|..];
  }

  /** The next action of a switch or a recovery, from any stage of its plan. */
  lemma PlanIsOfTheRoot(now: Dir, todo: seq<Action>, from: Target, to: Target)
    requires PlanStage(now, todo, from, to) && todo != []
    ensures todo[0].Do? || todo[0].Barrier?
  {
    assert todo[0] == SwitchPlan(from, to)[8 - |todo|];
  }

  lemma PlanAdvances(d: Disk, todo: seq<Action>, from: Target, to: Target)
    requires AllCutsGood(d) && PlanStage(d.Now(), todo, from, to) && todo != []
    ensures AllCutsGood(Act(d, todo[0]))
    ensures PlanStage(Act(d, todo[0]).Now(), todo[1..], from, to)
  {
    hide Good, PlanStage, AllCutsGood;
    NowIsGood(d);
    PlanIsOfTheRoot(d.Now(), todo, from, to);
    match todo[0] {
      case Barrier =>
        BarrierSyncs(d);
        PlanBarrier(d.Now(), todo, from, to);
      case Do(op) =>
        PlanChange(d.Now(), todo, from, to);
        OneMoreOp(d, op);
    }
  }

  lemma JournalReadsBack(d: Dir, from: Target, to: Target)
    requires Journaled(d, from, to) && PointersReady(d)
    ensures ReadJournal(d.journal.value, d.ready) == Some((from, to))
  {
    JournalRoundTrip(from, to, d.ready);
  }

  lemma StartAdvances(s: State)
    requires Inv(s) && s.process.Starting?
    ensures Inv(Apply(s, Advance))
  {
    hide AllCutsGood, PlanStage, ReadJournal, JournalText, RecoveryPlan, ApplyOps, IsTarget, Installable, Switchable;
    var now := s.disk.Now();
    NowIsGood(s.disk);
    if now.journal.Some? {
      var from, to :| Journaled(now, from, to);
      JournalReadsBack(now, from, to);
      RecoveryStarts(now, from, to);
      hide Good, Journaled, PointersReady, ValidPointer;
      assert PlanStage(now, RecoveryPlan(from, to), from, to);
    }
  }

  lemma RecoveryStarts(now: Dir, from: Target, to: Target)
    requires Journaled(now, from, to) && PointersReady(now)
    ensures PlanStage(now, RecoveryPlan(from, to), from, to) && |RecoveryPlan(from, to)| == 6
    ensures ValidPointer(now, now.current) && now.current.value in {from, to}
  {
    hide JournalText, IsTarget;
    assert RecoveryPlan(from, to) == SwitchPlan(from, to)[2..];
  }

  lemma LastStage(now: Dir, from: Target, to: Target)
    requires PlanStage(now, [], from, to)
    ensures now.journal.None?
  {
  }

  lemma RecoveryAdvances(s: State)
    requires Inv(s) && s.process.Recovering?
    ensures Inv(Apply(s, Advance))
  {
    hide AllCutsGood, Good, PlanStage, ApplyOps;
    NowIsGood(s.disk);
    var from, to :| PlanStage(s.disk.Now(), s.process.todo, from, to);
    if s.process.todo == [] {
      LastStage(s.disk.Now(), from, to);
    } else {
      PlanAdvances(s.disk, s.process.todo, from, to);
    }
  }

  lemma StagingAdvances(s: State)
    requires Inv(s) && s.process.Staging?
    ensures Inv(Apply(s, Advance))
  {
    hide Good, AllCutsGood, ApplyOps;
    var todo := s.process.todo;
    if todo != [] && todo[0].Place? {
      OneMoreVersion(s.disk, todo[0].target);
      assert todo[1..] == [SyncVersions];
    } else if todo != [] {
      SyncingVersions(s.disk);
      assert todo[1..] == [];
    }
  }

  lemma DecisionAdvances(s: State)
    requires Inv(s) && s.process.Deciding?
    ensures Inv(Apply(s, Advance))
  {
    var now := s.disk.Now();
    NowIsGood(s.disk);
    var next := Decision(s.process.command, now);
    if next.Switching? {
      if now.current.None? {
        assert FirstInstall(now, next.todo);
      } else {
        var from := now.current.value;
        var to := if s.process.command.Install? then s.process.command.version else now.previous.value;
        assert next.todo == SwitchPlan(from, to);
        assert SwitchPlan(from, to)[0..] == SwitchPlan(from, to);
        assert PlanStage(now, next.todo, from, to);
      }
    }
  }

  lemma SwitchAdvances(s: State)
    requires Inv(s) && s.process.Switching?
    ensures Inv(Apply(s, Advance))
  {
    var todo := s.process.todo;
    NowIsGood(s.disk);
    if todo == [] {
    } else if FirstInstall(s.disk.Now(), todo) {
      var v :| v in s.disk.Now().ready && (todo == [Do(SetCurrent(v)), Barrier] || todo == [Barrier])
                && (todo == [Barrier] ==> s.disk.Now().current == Some(v));
      if todo[0].Do? {
        assert Good(ApplyOp(s.disk.Now(), todo[0].op));
        OneMoreOp(s.disk, todo[0].op);
        assert todo[1..] == [Barrier];
      } else {
        BarrierSyncs(s.disk);
        assert todo[1..] == [];
      }
      assert FirstInstall(Apply(s, Advance).disk.Now(), todo[1..]);
    } else {
      var from, to :| PlanStage(s.disk.Now(), todo, from, to);
      PlanAdvances(s.disk, todo, from, to);
    }
  }

  lemma StepKeepsInv(s: State, step: Step)
    requires Inv(s) && Enabled(s, step) && InOrder(step)
    ensures Inv(Apply(s, step))
  {
    if step.PowerLoss? {
      PowerLossLeavesACut(s, step.kept);
    } else if step.Advance? {
      match s.process {
        case Starting(_) => StartAdvances(s);
        case Recovering(_, _) => RecoveryAdvances(s);
        case Staging(_, _) => StagingAdvances(s);
        case Deciding(_) => DecisionAdvances(s);
        case Switching(_) => SwitchAdvances(s);
        case _ =>
      }
    }
  }

  /**
   Crash at any point, any number of times, also inside recovery, with the
   process killed or the power lost: as long as unsynced changes survive in
   order and no version in place is lost, what is on disk, and every cut of what is not yet synced, is a
   directory recovery can start from.
   */
  lemma {:induction false} EveryCrashIsRecoverable(ss: seq<State>, steps: seq<Step>, n: nat)
    requires Run(ss, steps) && n < |ss|
    requires forall i | 0 <= i < n :: InOrder(steps[i])
    ensures Inv(ss[n])
    decreases n
  {
    if n == 0 {
      assert ss[0].disk.pending[..0] == [];
    } else {
      EveryCrashIsRecoverable(ss, steps, n - 1);
      StepKeepsInv(ss[n - 1], steps[n - 1]);
    }
  }

  // ------------------------------------------------- the switch is atomic

  datatype Pair = Pair(current: Option<Target>, previous: Option<Target>)

  /** The pair a directory stands for: the one its journal promises, or the one its links give. */
  function Meaning(d: Dir): Pair {
    if d.journal.None? then Pair(d.current, d.previous)
    else match ReadJournal(d.journal.value, d.ready)
      case None => Pair(d.current, d.previous)
      case Some((from, to)) => Pair(Some(to), Some(from))
  }

  lemma JournaledMeaning(d: Dir, from: Target, to: Target)
    requires Journaled(d, from, to) && PointersReady(d)
    ensures Meaning(d) == Pair(Some(to), Some(from))
  {
    JournalReadsBack(d, from, to);
  }

  /** Only the journal's rename moves the meaning, from a pair with `from` current to (to, from). */
  lemma PlanChangesMeaningOnce(now: Dir, todo: seq<Action>, from: Target, to: Target)
    requires Good(now) && PlanStage(now, todo, from, to) && todo != [] && todo[0].Do?
    ensures |todo| == 8 ==> Meaning(now).current == Some(from)
    ensures |todo| < 8 ==> Meaning(now) == Pair(Some(to), Some(from))
    ensures Meaning(ApplyOp(now, todo[0].op)) == Pair(Some(to), Some(from))
  {
    hide JournalText, ReadJournal, IsTarget, Installable, ValidPointer;
    var after := ApplyOp(now, todo[0].op);
    PlanChange(now, todo, from, to);
    if |todo| < 8 {
      JournaledMeaning(now, from, to);
    }
    if |todo| >= 3 {
      assert Journaled(after, from, to) by {
        if |todo| == 8 {
          assert todo[0] == SwitchPlan(from, to)[0];
        }
      }
      JournaledMeaning(after, from, to);
    } else {
      assert todo[0] == SwitchPlan(from, to)[6];
    }
  }

  /** What one step may do to the meaning of the directory a process sees. */
  predicate MeaningMoves(p: Pair, q: Pair) {
    || q == p
    || (p == Pair(None, None) && q.current.Some? && q.previous.None?)
    || (p.current.Some? && q.current.Some? && q.current != p.current && q.previous == p.current)
  }

  /** Only a switch being carried out moves the pair: it installs the first version, or switches; recovery never moves it. */
  lemma AdvanceMovesMeaning(s: State)
    requires Inv(s) && !s.process.NoProcess?
    ensures MeaningMoves(Meaning(s.disk.Now()), Meaning(Apply(s, Advance).disk.Now()))
    ensures !s.process.Switching? ==> Meaning(Apply(s, Advance).disk.Now()) == Meaning(s.disk.Now())
  {
    hide Good, PlanStage, AllCutsGood, Meaning, Decision, AfterStart;
    NowIsGood(s.disk);
    match s.process {
      case Recovering(_, todo) =>
        if todo != [] {
          var from, to :| PlanStage(s.disk.Now(), todo, from, to);
          PlanActionMovesMeaning(s.disk, todo, from, to);
        }
      case Staging(_, todo) =>
        if todo != [] {
          StagingKeepsMeaning(s.disk, todo[0]);
        }
      case Switching(todo) =>
        if todo != [] {
          if FirstInstall(s.disk.Now(), todo) {
            FirstInstallMeaning(s.disk, todo);
          } else {
            var from, to :| PlanStage(s.disk.Now(), todo, from, to);
            PlanActionMovesMeaning(s.disk, todo, from, to);
          }
        }
      case _ =>
    }
  }

  lemma PlanActionMovesMeaning(d: Disk, todo: seq<Action>, from: Target, to: Target)
    requires AllCutsGood(d) && Good(d.Now()) && PlanStage(d.Now(), todo, from, to) && todo != []
    ensures MeaningMoves(Meaning(d.Now()), Meaning(Act(d, todo[0]).Now()))
    ensures |todo| < 8 ==> Meaning(Act(d, todo[0]).Now()) == Meaning(d.Now())
  {
    hide Good, AllCutsGood, Meaning;
    PlanIsOfTheRoot(d.Now(), todo, from, to);
    match todo[0] {
      case Barrier => BarrierSyncs(d);
      case Do(op) =>
        PlanChange(d.Now(), todo, from, to);
        OneMoreOp(d, op);
        PlanChangesMeaningOnce(d.Now(), todo, from, to);
    }
  }

  lemma StagingKeepsMeaning(d: Disk, a: Action)
    requires AllCutsGood(d) && d.Now().journal.None?
    requires a.SyncVersions? || (a.Place? && Installable(a.target))
    ensures Meaning(Act(d, a).Now()) == Meaning(d.Now())
  {
    hide Good, AllCutsGood, ApplyOps;
    if a.SyncVersions? {
      SyncingVersions(d);
    } else {
      OneMoreVersion(d, a.target);
    }
  }

  lemma FirstInstallMeaning(d: Disk, todo: seq<Action>)
    requires AllCutsGood(d) && FirstInstall(d.Now(), todo) && todo != []
    ensures MeaningMoves(Meaning(d.Now()), Meaning(Act(d, todo[0]).Now()))
  {
    NowIsGood(d);
    if todo[0].Barrier? {
      BarrierSyncs(d);
    } else {
      assert Good(ApplyOp(d.Now(), todo[0].op));
      OneMoreOp(d, todo[0].op);
    }
  }

  /** After a completed recovery no journal is left to speak for the links: they are the pair, and they differ. */
  lemma RecoveryRestoresThePair(s: State)
    requires Inv(s) && s.process.Recovered?
    ensures s.disk.Now().journal.None?
    ensures Meaning(s.disk.Now()) == Pair(s.disk.Now().current, s.disk.Now().previous)
    ensures s.disk.Now().current.Some? ==> s.disk.Now().current != s.disk.Now().previous
    ensures s.disk.Now().current.None? ==> s.disk.Now().previous.None?
  {
    NowIsGood(s.disk);
  }

  /** In a synced directory, a switch cut anywhere means the old pair or (to, from), never a third. */
  lemma SwitchIsAtomic(d: Disk, from: Target, to: Target, done: nat, kept: seq<bool>)
    requires AllCutsGood(d) && d.pending == []
    requires PlanStage(d.Now(), SwitchPlan(from, to), from, to)
    requires done <= |SwitchPlan(from, to)|
    requires |kept| == |AfterActions(d, SwitchPlan(from, to)[..done]).pending|
    ensures |kept| <= 1
    ensures var e := AfterActions(d, SwitchPlan(from, to)[..done]);
            var left := ApplyOps(e.durable, Kept(e.pending, kept));
            Good(left) && Meaning(left) in {Meaning(d.Now()), Pair(Some(to), Some(from))}
  {
    hide Good, AllCutsGood, Meaning, PlanStage, SwitchPlan, AfterActions, ApplyOps, Kept;
    PlanShape(from, to);
    PlanPrefix(d, from, to, done);
    CutOfOne(AfterActions(d, SwitchPlan(from, to)[..done]), kept);
  }

  /** With one change unsynced, any survivors are a cut, whatever the order of writes. */
  lemma CutOfOne(d: Disk, kept: seq<bool>)
    requires AllCutsGood(d) && |kept| == |d.pending| <= 1
    ensures ApplyOps(d.durable, Kept(d.pending, kept)) in {d.durable, d.Now()}
    ensures Good(ApplyOps(d.durable, Kept(d.pending, kept)))
  {
    assert d.pending[..0] == [];
    NowIsGood(d);
    if |kept| == 1 {
      assert d.pending == [d.pending[0]];
      assert Kept(d.pending[..0], kept[..0]) == [];
    }
  }

  function AfterActions(d: Disk, actions: seq<Action>): Disk {
    if actions == [] then d else Act(AfterActions(d, actions[..|actions| - 1]), actions[|actions| - 1])
  }

  lemma PlanShape(from: Target, to: Target)
    ensures |SwitchPlan(from, to)| == 8
    ensures forall i | 0 <= i < 8 :: SwitchPlan(from, to)[i].Do? <==> i % 2 == 0
    ensures forall i | 0 <= i < 8 :: SwitchPlan(from, to)[i].Barrier? <==> i % 2 == 1
  {
  }

  /** Part of a plan carried out from a synced directory: at most one change unsynced, and one of two meanings. */
  ghost predicate Halfway(d: Disk, e: Disk, todo: seq<Action>, from: Target, to: Target) {
    && AllCutsGood(e) && PlanStage(e.Now(), todo, from, to)
    && |e.pending| == |todo| % 2
    && Meaning(e.durable) in {Meaning(d.Now()), Pair(Some(to), Some(from))}
    && Meaning(e.Now()) in {Meaning(d.Now()), Pair(Some(to), Some(from))}
  }

  lemma HalfwayAdvances(d: Disk, e: Disk, todo: seq<Action>, from: Target, to: Target)
    requires Halfway(d, e, todo, from, to) && todo != []
    requires todo[0].Do? <==> |todo| % 2 == 0
    requires todo[0].Barrier? <==> |todo| % 2 == 1
    ensures Halfway(d, Act(e, todo[0]), todo[1..], from, to)
  {
    hide Good, AllCutsGood, Meaning, PlanStage, SwitchPlan, ApplyOps, ApplyOp, Act;
    PlanAdvances(e, todo, from, to);
    NowIsGood(e);
    ActFacts(e, todo[0]);
    match todo[0] {
      case Barrier => BarrierSyncs(e);
      case Do(op) =>
        PlanOpApplies(e, todo, from, to);
        PlanChangesMeaningOnce(e.Now(), todo, from, to);
    }
  }

  lemma ActFacts(e: Disk, a: Action)
    ensures a.Barrier? ==> Act(e, a).durable == e.Now() && Act(e, a).pending == []
    ensures a.Do? ==> Act(e, a).durable == e.durable && |Act(e, a).pending| == |e.pending| + 1
  {
  }

  lemma PlanOpApplies(e: Disk, todo: seq<Action>, from: Target, to: Target)
    requires AllCutsGood(e) && PlanStage(e.Now(), todo, from, to) && todo != [] && todo[0].Do?
    ensures Act(e, todo[0]).Now() == ApplyOp(e.Now(), todo[0].op)
  {
    hide Good, AllCutsGood, PlanStage, ApplyOps, ApplyOp, Act;
    NowIsGood(e);
    PlanChange(e.Now(), todo, from, to);
    OneMoreOp(e, todo[0].op);
  }

  lemma {:induction false} PlanPrefix(d: Disk, from: Target, to: Target, done: nat)
    requires AllCutsGood(d) && d.pending == [] && done <= |SwitchPlan(from, to)|
    requires PlanStage(d.Now(), SwitchPlan(from, to), from, to)
    ensures Halfway(d, AfterActions(d, SwitchPlan(from, to)[..done]), SwitchPlan(from, to)[done..], from, to)
    decreases done
  {
    hide Halfway, AllCutsGood, PlanStage, SwitchPlan, Act, ApplyOps;
    PlanShape(from, to);
    var plan := SwitchPlan(from, to);
    if done == 0 {
      assert plan[0..] == plan && plan[..0] == [];
      HalfwayStarts(d, plan, from, to);
    } else {
      PlanPrefix(d, from, to, done - 1);
      assert plan[..done][..done - 1] == plan[..done - 1];
      var todo := plan[done - 1..];
      assert todo[0] == plan[done - 1] && todo[1..] == plan[done..];
      HalfwayAdvances(d, AfterActions(d, plan[..done - 1]), todo, from, to);
    }
  }

  lemma HalfwayStarts(d: Disk, plan: seq<Action>, from: Target, to: Target)
    requires AllCutsGood(d) && d.pending == [] && |plan| == 8 && PlanStage(d.Now(), plan, from, to)
    ensures Halfway(d, d, plan, from, to)
  {
    assert d.Now() == d.durable;
  }

  // ------------------------------------------------- a loss out of order

  function Play(s: State, steps: seq<Step>): Option<State>
    decreases |steps|
  {
    if steps == [] then Some(s)
    else if Enabled(s, steps[0]) then Play(Apply(s, steps[0]), steps[1..])
    else None
  }

  lemma PlayOne(s: State, step: Step, rest: seq<Step>)
    requires Enabled(s, step)
    ensures Play(s, [step] + rest) == Play(Apply(s, step), rest)
  {
    assert ([step] + rest)[1..] == rest;
  }

  /** Kill a switch after its journal's rename, let a rollback start to recover, and cut the power. */
  function KillThenPowerLoss(to: Target): seq<Step> {
    [Launch(Install(to))] + ([Advance] + ([Advance] + ([Advance] + ([Advance] + ([Kill]
      + ([Launch(Rollback)] + ([Advance] + ([Advance] + ([PowerLoss([false, true], {})] + [])))))))))
  }

  /**
   Recovery acts on a journal it has not made durable. From any settled
   installation, if the unsynced journal is lost and the link renamed after it
   survives, both links name one version and no journal is left to tell.
   */
  lemma UnorderedLossAfterKillBreaksThePair(s: State, from: Target, to: Target)
    requires Inv(s) && s.process.NoProcess? && s.disk.pending == []
    requires s.disk.durable.journal.None? && s.disk.durable.current == Some(from)
    requires to in s.disk.durable.ready && IsTarget(to) && to != from
    ensures Play(s, KillThenPowerLoss(to)).Some?
    ensures var left := Play(s, KillThenPowerLoss(to)).value.disk.durable;
            left.current == left.previous == Some(from) && left.journal.None? && !Good(left)
  {
    hide Apply, Enabled, SwitchPlan, RecoveryPlan, JournalText, Good, Inv, PointersReady, IsTarget, Play;
    var d, adrift := s.disk.durable, s.disk.adrift;
    SettledFacts(s, from, to);
    var switching := s.(process := Switching(SwitchPlan(from, to)));
    var killed := State(Disk(d, [PutJournal(JournalText(from, to))], adrift), NoProcess);
    PlanShape(from, to);
    JournalThenKill(s, from, to);
    var renamed := RecoveryRenames(d, adrift, from, to);
    var end: seq<Step> := [PowerLoss([false, true], {})] + [];
    LossAtTheEnd(d, adrift, from, to, renamed);
    PlayThree(killed, Launch(Rollback), Advance, Advance, killed.(process := Starting(Rollback)),
      killed.(process := Recovering(Rollback, RecoveryPlan(from, to))), renamed, end);
    PlayTwo(switching, Advance, Kill, State(killed.disk, Switching(SwitchPlan(from, to)[1..])), killed,
      [Launch(Rollback)] + ([Advance] + ([Advance] + end)));
    ToSwitchPlays(s, from, to, switching,
      [Advance] + ([Kill] + ([Launch(Rollback)] + ([Advance] + ([Advance] + end)))));
  }

  lemma SettledFacts(s: State, from: Target, to: Target)
    requires Inv(s) && s.disk.pending == []
    requires s.disk.durable.journal.None? && s.disk.durable.current == Some(from)
    requires to in s.disk.durable.ready && IsTarget(to) && to != from
    ensures s.disk.Now() == s.disk.durable && PointersReady(s.disk.durable)
    ensures Switchable(from, to, s.disk.durable.ready) && Installable(to)
  {
    NowIsGood(s.disk);
  }

  lemma PlayTwo(s: State, a: Step, b: Step, t: State, u: State, rest: seq<Step>)
    requires Enabled(s, a) && Apply(s, a) == t && Enabled(t, b) && Apply(t, b) == u
    ensures Play(s, [a] + ([b] + rest)) == Play(u, rest)
  {
    PlayOne(t, b, rest);
    PlayOne(s, a, [b] + rest);
  }

  lemma PlayThree(s: State, a: Step, b: Step, c: Step, t: State, u: State, v: State, rest: seq<Step>)
    requires Enabled(s, a) && Apply(s, a) == t && Enabled(t, b) && Apply(t, b) == u && Enabled(u, c) && Apply(u, c) == v
    ensures Play(s, [a] + ([b] + ([c] + rest))) == Play(v, rest)
  {
    PlayTwo(t, b, c, u, v, rest);
    PlayOne(s, a, [b] + ([c] + rest));
  }

  lemma JournalThenKill(s: State, from: Target, to: Target)
    requires s.disk.pending == []
    ensures var plan := SwitchPlan(from, to);
            var journaled := State(Disk(s.disk.durable, [PutJournal(JournalText(from, to))], s.disk.adrift), Switching(plan[1..]));
            && Enabled(s.(process := Switching(plan)), Advance)
            && Apply(s.(process := Switching(plan)), Advance) == journaled
            && Enabled(journaled, Kill)
            && Apply(journaled, Kill) == journaled.(process := NoProcess)
  {
    hide JournalText;
  }

  lemma RecoveryRenames(d: Dir, adrift: set<Target>, from: Target, to: Target) returns (renamed: State)
    requires d.journal.None? && d.current == Some(from) && PointersReady(d) && Switchable(from, to, d.ready)
    ensures var killed := State(Disk(d, [PutJournal(JournalText(from, to))], adrift), NoProcess);
            var started := killed.(process := Starting(Rollback));
            var recovering := killed.(process := Recovering(Rollback, RecoveryPlan(from, to)));
            && Enabled(killed, Launch(Rollback)) && Apply(killed, Launch(Rollback)) == started
            && Enabled(started, Advance) && Apply(started, Advance) == recovering
            && Enabled(recovering, Advance) && Apply(recovering, Advance) == renamed
    ensures renamed.disk == Disk(d, [PutJournal(JournalText(from, to)), SetPrevious(from)], adrift)
  {
    var text := JournalText(from, to);
    var disk := Disk(d, [PutJournal(text)], adrift);
    var seen := d.(journal := Some(text));
    assert ApplyOps(d, disk.pending[..0]) == d;
    assert disk.Now() == ApplyOp(ApplyOps(d, disk.pending[..0]), disk.pending[0]);
    assert disk.Now() == seen;
    assert Journaled(seen, from, to);
    JournalReadsBack(seen, from, to);
    renamed := State(Disk(d, [PutJournal(text), SetPrevious(from)], adrift), Recovering(Rollback, RecoveryPlan(from, to)[1..]));
  }

  lemma LossAtTheEnd(d: Dir, adrift: set<Target>, from: Target, to: Target, renamed: State)
    requires d.journal.None? && d.current == Some(from)
    requires renamed.disk == Disk(d, [PutJournal(JournalText(from, to)), SetPrevious(from)], adrift)
    ensures Play(renamed, [PowerLoss([false, true], {})] + [])
            == Some(State(Disk(d.(previous := Some(from)), [], {}), NoProcess))
    ensures !Good(d.(previous := Some(from)))
  {
    hide JournalText;
    LossOfFirst(d, PutJournal(JournalText(from, to)), SetPrevious(from));
    NothingLost(renamed.disk, [false, true]);
    PlayOne(renamed, PowerLoss([false, true], {}), []);
  }

  lemma LossOfFirst(d: Dir, a: Op, b: Op)
    ensures ApplyOps(d, Kept([a, b], [false, true])) == ApplyOp(d, b)
  {
    assert [a, b][..1] == [a] && [false, true][..1] == [false];
    assert [a][..0] == [] && [false][..0] == [];
    assert Kept([a], [false]) == [];
    assert Kept([a, b], [false, true]) == [b];
    assert [b][..0] == [];
  }

  lemma ToSwitch(s: State, from: Target, to: Target, switching: State)
    requires s.process.NoProcess? && s.disk.Now().journal.None? && s.disk.Now().current == Some(from)
    requires Switchable(from, to, s.disk.Now().ready) && Installable(to)
    requires switching == s.(process := Switching(SwitchPlan(from, to)))
    ensures Apply(s.(process := Starting(Install(to))), Advance) == s.(process := Recovered(Install(to)))
    ensures Apply(s.(process := Recovered(Install(to))), Advance) == s.(process := Deciding(Install(to)))
    ensures Apply(s.(process := Deciding(Install(to))), Advance) == switching
  {
  }

  lemma ToSwitchPlays(s: State, from: Target, to: Target, switching: State, rest: seq<Step>)
    requires s.process.NoProcess? && s.disk.Now().journal.None? && s.disk.Now().current == Some(from)
    requires Switchable(from, to, s.disk.Now().ready) && Installable(to)
    requires switching == s.(process := Switching(SwitchPlan(from, to)))
    ensures Play(s, [Launch(Install(to))] + ([Advance] + ([Advance] + ([Advance] + rest)))) == Play(switching, rest)
  {
    hide Apply;
    ToSwitch(s, from, to, switching);
    PlayOne(s.(process := Deciding(Install(to))), Advance, rest);
    PlayOne(s.(process := Recovered(Install(to))), Advance, [Advance] + rest);
    PlayOne(s.(process := Starting(Install(to))), Advance, [Advance] + ([Advance] + rest));
    LaunchStarts(s, to);
    PlayOne(s, Launch(Install(to)), [Advance] + ([Advance] + ([Advance] + rest)));
  }

  lemma LaunchStarts(s: State, to: Target)
    requires s.process.NoProcess? && Installable(to)
    ensures Apply(s, Launch(Install(to))) == s.(process := Starting(Install(to)))
  {
  }
}
