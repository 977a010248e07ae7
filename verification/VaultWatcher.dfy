/**
 The watcher loop beside the initial index: how a stream of filesystem events,
 dropped or delayed, still brings the note table back to what the disk holds.
 */
module VaultWatcher {
  import opened Common
  import VaultTree
  import VaultIndex
  import Storage

  const EVENT_QUEUE_CAPACITY := 256

  type Path = VaultTree.Path
  type Revision = string

  // ------------------------------------------------------------ one batch

  datatype EventKind =
    | Access | Other | AnyKind
    | CreateFile | CreateFolder | CreateAny | CreateOther
    | ModifyName | ModifyOther
    | RemoveFile | RemoveFolder | RemoveAny | RemoveOther

  /** What the notification library hands over: an error, or an event with its paths. */
  datatype Event = WatchError | Event(kind: EventKind, needRescan: bool, paths: set<Path>)

  /** What an event of some kind reports: nothing, a change of the paths it names, or of anything beneath them. */
  datatype Reach = Nothing | ItsPaths | Beneath

  function ReachOf(kind: EventKind): Reach {
    match kind
    case Access | Other => Nothing
    case CreateFile | CreateOther | ModifyOther | RemoveFile | RemoveOther => ItsPaths
    case CreateFolder | RemoveFolder => Beneath
    case ModifyName | CreateAny | RemoveAny | AnyKind => Beneath
  }

  /**
   Where the vault may have changed, once the library has handed over the event:
   anywhere after an error, a request to rescan or a change without paths; at the
   named files; or at a folder that came, went or was renamed and all it held.
   */
  predicate MayTouch(e: Event, p: Path) {
    match e
    case WatchError => true
    case Event(kind, needRescan, paths) =>
      || needRescan
      || (ReachOf(kind) != Nothing && paths == {})
      || (ReachOf(kind) == ItsPaths && p in paths)
      || (ReachOf(kind) == Beneath && exists q :: q in paths && q <= p)
  }

  datatype Batch = Batch(fullRescan: bool, paths: set<Path>)

  const EMPTY_BATCH := Batch(false, {})

  /** Events about names and folders, and events without paths, cannot be read path by path. */
  predicate AsksFullRescan(e: Event) {
    || e.WatchError?
    || e.needRescan
    || e.kind in {ModifyName, CreateFolder, CreateAny, RemoveFolder, RemoveAny, AnyKind}
    || (e.kind !in {Access, Other} && e.paths == {})
  }

  function HintedPaths(e: Event): set<Path> {
    if AsksFullRescan(e) || e.kind in {Access, Other} then {} else e.paths
  }

  function Absorbed(b: Batch, e: Event): (r: Batch) {
    Batch(b.fullRescan || AsksFullRescan(e), b.paths + HintedPaths(e))
  }

  function Named(e: Event): set<Path> {
    if e.WatchError? then {} else e.paths
  }

  ghost function Longest(paths: set<Path>): (n: nat)
    ensures forall p | p in paths :: |p| <= n
  {
    if paths == {} then 0
    else
      var p :| p in paths;
      var n := Longest(paths - {p});
      assert forall q | q in paths :: q == p || q in paths - {p};
      if |p| > n then |p| else n
  }

  /** Beneath any path lies one that is not in a given finite set. */
  lemma Beyond(q: Path, paths: set<Path>) returns (p: Path)
    ensures q <= p && p !in paths
  {
    p := q + seq(Longest(paths) + 1, i => "x");
  }

  /**
   The rules read off the kinds are exact. An event asks for a full rescan if and
   only if it may have touched a path it does not name, and otherwise hints at
   just the paths it may have touched.
   */
  lemma AsksIffPathsDoNotSay(e: Event)
    ensures AsksFullRescan(e) <==> exists p :: MayTouch(e, p) && p !in Named(e)
    ensures !AsksFullRescan(e) ==> forall p :: p in HintedPaths(e) <==> MayTouch(e, p)
  {
    if AsksFullRescan(e) {
      var q: Path := [];
      if !e.WatchError? && e.paths != {} {
        q :| q in e.paths;
      }
      var p := Beyond(q, Named(e));
      assert MayTouch(e, p);
    }
  }

  function AbsorbAll(b: Batch, es: seq<Event>): Batch
    decreases |es|
  {
    if es == [] then b else AbsorbAll(Absorbed(b, es[0]), es[1..])
  }

  /** A batch forgets nothing: it asks for a full rescan or names a path iff some event did. */
  lemma {:induction false} BatchKeepsEveryHint(b: Batch, es: seq<Event>)
    ensures AbsorbAll(b, es).fullRescan <==> b.fullRescan || exists e | e in es :: AsksFullRescan(e)
    ensures forall p :: p in AbsorbAll(b, es).paths <==> p in b.paths || exists e | e in es :: p in HintedPaths(e)
    decreases |es|
  {
    if es != [] {
      BatchKeepsEveryHint(Absorbed(b, es[0]), es[1..]);
      assert forall e :: e in es <==> e == es[0] || e in es[1..];
    }
  }

  /** Whatever the events of a batch may have touched is named by the batch, or the batch asks for everything. */
  lemma BatchCoversWhatWasTouched(b: Batch, es: seq<Event>)
    ensures var all := AbsorbAll(b, es);
            && (forall e, p | e in es && MayTouch(e, p) :: all.fullRescan || p in all.paths)
            && (all.fullRescan <==> b.fullRescan || exists e, p :: e in es && MayTouch(e, p) && p !in Named(e))
            && (!all.fullRescan ==> forall p :: p in all.paths <==> p in b.paths || exists e :: e in es && MayTouch(e, p))
  {
    hide AsksFullRescan, HintedPaths, MayTouch, Named;
    BatchKeepsEveryHint(b, es);
    var all := AbsorbAll(b, es);
    forall e | e in es
      ensures AsksFullRescan(e) <==> exists p :: MayTouch(e, p) && p !in Named(e)
      ensures !AsksFullRescan(e) ==> forall p :: p in HintedPaths(e) <==> MayTouch(e, p)
    {
      AsksIffPathsDoNotSay(e);
    }
    if e, p :| e in es && MayTouch(e, p) && p !in Named(e) {
      assert AsksFullRescan(e);
    }
    forall p | !all.fullRescan
      ensures p in all.paths <==> p in b.paths || exists e :: e in es && MayTouch(e, p)
    {
      if e :| e in es && MayTouch(e, p) {
        assert !AsksFullRescan(e) && p in HintedPaths(e);
      }
      if e :| e in es && p in HintedPaths(e) {
        assert !AsksFullRescan(e) && MayTouch(e, p);
      }
    }
  }

  class WatchBatch {
    var fullRescan: bool
    var paths: set<Path>

    function State(): Batch
      reads this
    {
      Batch(fullRescan, paths)
    }

    constructor ()
      ensures State() == EMPTY_BATCH
    {
      fullRescan, paths := false, {};
    }

    method Absorb(event: Event)
      modifies this
      ensures State() == Absorbed(old(State()), event)
      ensures forall p | MayTouch(event, p) :: fullRescan || p in paths
      ensures fullRescan <==> old(fullRescan) || exists p :: MayTouch(event, p) && p !in Named(event)
    {
      AsksIffPathsDoNotSay(event);
      if event.WatchError? {
        fullRescan := true;
        return;
      }
      if event.needRescan {
        fullRescan := true;
        return;
      }
      match event.kind {
        case Access =>
        case Other =>
        case ModifyName | CreateFolder | CreateAny | RemoveFolder | RemoveAny | AnyKind =>
          fullRescan := true;
        case _ =>
          if event.paths == {} {
            fullRescan := true;
          } else {
            paths := paths + event.paths;
          }
      }
    }
  }

  /** One pass of the event loop up to its deadline, and the overflow flag it takes. */
  method CollectBatch(first: Event, more: seq<Event>, overflowed: bool) returns (batch: Batch)
    ensures batch == AbsorbAll(EMPTY_BATCH, [first] + more).(
              fullRescan := overflowed || AbsorbAll(EMPTY_BATCH, [first] + more).fullRescan)
  {
    var b := new WatchBatch();
    b.Absorb(first);
    ghost var start := b.State();
    for i := 0 to |more|
      invariant AbsorbAll(start, more) == AbsorbAll(b.State(), more[i..])
    {
      assert more[i..][1..] == more[i + 1..];
      b.Absorb(more[i]);
    }
    assert ([first] + more)[1..] == more;
    if overflowed {
      b.fullRescan := true;
    }
    batch := b.State();
  }

  /** reconcile_batch: every failure of the incremental form falls back to the full one. */
  method ReconcileBatch(
    index: VaultIndex.Index, vault: string, rootText: string, root: VaultTree.Node,
    fullRescan: bool, hints: seq<VaultTree.Hint>, now: int) returns (ok: bool)
    requires index.Valid() && VaultTree.WellFormed(root)
    modifies index`db
    ensures index.Valid()
    ensures !fullRescan && VaultIndex.ReconcileRefusal(index.env, old(index.db), vault, rootText, root, hints).None? ==>
              && ok && VaultIndex.ScanHints(index.env, root, hints).Success?
              && VaultIndex.ReconcileStep(old(index.db), index.db, vault,
                   VaultIndex.ScanHints(index.env, root, hints).value)
    ensures fullRescan || VaultIndex.ReconcileRefusal(index.env, old(index.db), vault, rootText, root, hints).Some? ==>
              && (ok <==> VaultIndex.VaultId(vault) && root.Dir? && VaultTree.Readable(index.env, root)
                          && VaultIndex.RevisionOf(old(index.db), vault) + 1 >= 0)
              && (ok ==> VaultIndex.FullIndexStep(old(index.db), index.db, vault, rootText,
                           VaultIndex.Snapshot(index.env, root)))
              && (!ok ==> index.db == old(index.db))
  {
    if !fullRescan {
      var r := index.ReconcileVaultPaths(vault, rootText, root, hints, now);
      if r.Success? {
        return true;
      }
    }
    var r := index.IndexVault(vault, rootText, root, now);
    ok := r.Success?;
  }

  // ------------------------------------------------------- the whole machine

  datatype Worker =
    | Idle
    | Collecting(batch: Batch)
    | Opening(paths: set<Path>)
    | Scanning(todo: set<Path>, changes: map<Path, Option<Revision>>)
    | AwaitingLock
    | Walking(seen: map<Path, Option<Revision>>)

  /** The initial index; if it fails the serve command ends with its error. */
  datatype Initial = NotYet | Indexing(seen: map<Path, Option<Revision>>) | Done | Stopped

  /** The callback between a failed send and its store of the overflow flag. */
  datatype Callback = Ready | MustStore

  /**
   `paths` is the finite set of paths a run ever touches; `disk` and `index`
   hold the revision of the note on disk and of its row. `unreadable` are the
   paths that make a walk fail: notes too large or not text, and the empty path
   while the root is not a directory. `asking` are the paths a scan cannot settle
   although no note there is unreadable: the root itself, directories, and paths
   that lead through a file. A walk or a scan in flight remembers what it read,
   which may be out of date.
   */
  datatype State = State(
    paths: set<Path>,
    disk: map<Path, Revision>,
    unreadable: set<Path>,
    asking: set<Path>,
    index: map<Path, Revision>,
    indexed: bool,
    emitted: seq<Event>,
    queue: seq<Event>,
    overflowed: bool,
    callback: Callback,
    worker: Worker,
    initial: Initial,
    failed: bool)

  datatype Step =
    | DiskChange(changes: map<Path, Option<Revision>>, unreadable: set<Path>, asking: set<Path>, event: Event)
    | Noise(event: Event)
    | Send
    | Store
    | Receive
    | Deadline
    | Open
    | ScanPath(path: Path)
    | Escalate
    | CommitPaths
    | TakeLock
    | See(path: Path)
    | CommitWalk
    | Fail(path: Path)
    | InitialLock
    | InitialSee(path: Path)
    | InitialCommit
    | InitialFail(path: Path)

  function Overlay(m: map<Path, Revision>, changes: map<Path, Option<Revision>>): map<Path, Revision> {
    map p | p in m.Keys + changes.Keys && (p in changes ==> changes[p].Some?) ::
      if p in changes then changes[p].value else m[p]
  }

  function Rows(seen: map<Path, Option<Revision>>): map<Path, Revision> {
    map p | p in seen && seen[p].Some? :: seen[p].value
  }

  /** The event reports every path the change touched. */
  predicate Announces(e: Event, touched: set<Path>) {
    forall p | p in touched :: MayTouch(e, p)
  }

  /** The storage lock is held for the whole of a full index, and only for the commit of an incremental one. */
  predicate LockFree(s: State) {
    !s.worker.Walking? && !s.initial.Indexing?
  }

  /** Paths that became readable or unreadable. */
  function Turned(before: set<Path>, after: set<Path>): set<Path> {
    (before - after) + (after - before)
  }

  predicate Enabled(s: State, step: Step) {
    if step.DiskChange? then
      && step.changes.Keys <= s.paths && step.unreadable <= s.paths && [] in step.asking
      && Announces(step.event, step.changes.Keys + Turned(s.unreadable, step.unreadable))
    else step.Noise? || (!s.initial.Stopped? && Own(s, step))
  }

  /** A scan of the path fails or asks for a full rescan. */
  predicate GivesWay(s: State, p: Path) {
    p in s.unreadable || p in s.asking
  }

  /**
   A scan or a walk reads a readable path. At an unreadable one a walk fails. The
   incremental form gives way to a walk when it finds the root gone as it starts,
   at a path it cannot settle, or at its commit when the vault has no rows yet.
   */
  predicate Own(s: State, step: Step) {
    match step
    case DiskChange(_, _, _, _) => false
    case Noise(_) => false
    case Send => s.callback.Ready? && s.emitted != []
    case Store => s.callback.MustStore?
    case Receive => s.queue != [] && (s.worker.Idle? || s.worker.Collecting?)
    case Deadline => s.worker.Collecting?
    case Open => s.worker.Opening? && [] !in s.unreadable
    case ScanPath(p) => s.worker.Scanning? && p in s.worker.todo && !GivesWay(s, p)
    case Escalate =>
      || (s.worker.Opening? && [] in s.unreadable)
      || (s.worker.Scanning? && exists p :: p in s.worker.todo && GivesWay(s, p))
      || (s.worker.Scanning? && s.worker.todo == {} && !s.indexed && LockFree(s))
    case CommitPaths => s.worker.Scanning? && s.worker.todo == {} && s.indexed && LockFree(s)
    case TakeLock => s.worker.AwaitingLock? && LockFree(s)
    case See(p) => s.worker.Walking? && p in s.paths && p !in s.worker.seen && p !in s.unreadable
    case CommitWalk => s.worker.Walking? && s.paths <= s.worker.seen.Keys
    case Fail(p) => s.worker.Walking? && p in s.unreadable && p !in s.worker.seen
    case InitialLock => s.initial.NotYet? && LockFree(s)
    case InitialSee(p) => s.initial.Indexing? && p in s.paths && p !in s.initial.seen && p !in s.unreadable
    case InitialCommit => s.initial.Indexing? && s.paths <= s.initial.seen.Keys
    case InitialFail(p) => s.initial.Indexing? && p in s.unreadable && p !in s.initial.seen
  }

  function AfterDeadline(s: State, b: Batch): Worker {
    if b.fullRescan then AwaitingLock
    else if b.paths == {} then Idle
    else Opening(b.paths)
  }

  function Apply(s: State, step: Step): State
    requires Enabled(s, step)
  {
    match step
    case DiskChange(changes, unreadable, asking, e) =>
      s.(disk := Overlay(s.disk, changes), unreadable := unreadable, asking := asking, emitted := s.emitted + [e])
    case Noise(e) => s.(emitted := s.emitted + [e])
    case Send =>
      if |s.queue| < EVENT_QUEUE_CAPACITY then s.(emitted := s.emitted[1..], queue := s.queue + [s.emitted[0]])
      else s.(emitted := s.emitted[1..], callback := MustStore)
    case Store => s.(overflowed := true, callback := Ready)
    case Receive =>
      var batch := if s.worker.Idle? then EMPTY_BATCH else s.worker.batch;
      s.(queue := s.queue[1..], worker := Collecting(Absorbed(batch, s.queue[0])))
    case Deadline =>
      var batch := s.worker.batch.(fullRescan := s.overflowed || s.worker.batch.fullRescan);
      s.(overflowed := false, worker := AfterDeadline(s, batch))
    case Open => s.(worker := Scanning(s.worker.paths, map[]))
    case ScanPath(p) =>
      s.(worker := Scanning(s.worker.todo - {p},
                     if p in s.paths then s.worker.changes[p := Get(s.disk, p)] else s.worker.changes))
    case Escalate => s.(worker := AwaitingLock)
    case CommitPaths => s.(index := Overlay(s.index, s.worker.changes), worker := Idle)
    case TakeLock => s.(worker := Walking(map[]))
    case See(p) => s.(worker := Walking(s.worker.seen[p := Get(s.disk, p)]))
    case CommitWalk => s.(index := Rows(s.worker.seen), indexed := true, worker := Idle, failed := false)
    case Fail(_) => s.(worker := Idle, failed := true)
    case InitialLock => s.(initial := Indexing(map[]))
    case InitialSee(p) => s.(initial := Indexing(s.initial.seen[p := Get(s.disk, p)]))
    case InitialCommit => s.(index := Rows(s.initial.seen), indexed := true, initial := Done)
    case InitialFail(_) => s.(initial := Stopped)
  }

  /** The serve command: the watcher is running and its queue is empty before the initial index starts. */
  predicate Start(s: State) {
    && s.disk.Keys <= s.paths && s.index.Keys <= s.paths && s.unreadable <= s.paths && [] in s.asking
    && s.emitted == [] && s.queue == [] && !s.overflowed && s.callback.Ready?
    && s.worker.Idle? && s.initial.NotYet? && !s.failed
  }

  ghost predicate Run(ss: seq<State>, steps: seq<Step>) {
    && |ss| == |steps| + 1 && Start(ss[0])
    && forall i | 0 <= i < |steps| :: Enabled(ss[i], steps[i]) && ss[i + 1] == Apply(ss[i], steps[i])
  }

  // ------------------------------------------------------- what covers a path

  predicate Touches(e: Event, p: Path) {
    AsksFullRescan(e) || p in HintedPaths(e)
  }

  /** An event still to be handled will bring the worker back to the path. */
  ghost predicate EventPending(s: State, p: Path) {
    || s.overflowed || s.callback.MustStore?
    || (exists e | e in s.emitted :: Touches(e, p))
    || (exists e | e in s.queue :: Touches(e, p))
  }

  predicate Current(s: State, seen: map<Path, Option<Revision>>, p: Path) {
    p in seen && seen[p] == Get(s.disk, p)
  }

  /** The worker has still to read the path, or is due to commit what the disk now holds. */
  ghost predicate WorkerFresh(s: State, p: Path) {
    match s.worker
    case Idle => false
    case Collecting(b) => b.fullRescan || p in b.paths
    case Opening(paths) => p in paths
    case Scanning(todo, changes) => p in todo || Current(s, changes, p)
    case AwaitingLock => true
    case Walking(seen) => p !in seen || Current(s, seen, p)
  }

  ghost predicate InitialFresh(s: State, p: Path) {
    match s.initial
    case NotYet => true
    case Indexing(seen) => p !in seen || Current(s, seen, p)
    case Done => false
    case Stopped => true
  }

  /** The worker holds a value for the path that the disk has since replaced. */
  ghost predicate WorkerStale(s: State, p: Path) {
    match s.worker
    case Scanning(_, changes) => p in changes && !Current(s, changes, p)
    case Walking(seen) => p in seen && !Current(s, seen, p)
    case _ => false
  }

  ghost predicate InitialStale(s: State, p: Path) {
    s.initial.Indexing? && p in s.initial.seen && !Current(s, s.initial.seen, p)
  }

  /**
   A path whose row differs from the disk is covered; so is a path for which
   some scan in flight is about to commit an outdated value. Nothing is claimed
   once the process has ended.
   */
  ghost predicate Covered(s: State, p: Path) {
    && (Get(s.index, p) != Get(s.disk, p) ==>
          EventPending(s, p) || WorkerFresh(s, p) || InitialFresh(s, p) || s.failed)
    && (WorkerStale(s, p) ==> EventPending(s, p))
    && (InitialStale(s, p) ==> EventPending(s, p) || WorkerFresh(s, p) || s.failed)
  }

  ghost predicate Shape(s: State) {
    && s.disk.Keys <= s.paths && s.index.Keys <= s.paths && s.unreadable <= s.paths
    && |s.queue| <= EVENT_QUEUE_CAPACITY
    && (s.worker.Scanning? ==> s.worker.changes.Keys <= s.paths)
    && (s.worker.Walking? ==> s.worker.seen.Keys <= s.paths)
    && (s.initial.Indexing? ==> s.initial.seen.Keys <= s.paths)
    && !(s.worker.Walking? && s.initial.Indexing?)
    && [] in s.asking && (s.initial.Done? ==> s.indexed)
  }

  ghost predicate Inv(s: State) {
    Shape(s) && forall p | p in s.paths :: Covered(s, p)
  }

  /** Steps that bring events from the library to the batch. */
  predicate Delivers(step: Step) {
    step.Noise? || step.Send? || step.Store? || step.Receive? || step.Deadline?
  }

  /** Steps of the initial index. */
  predicate Initialises(step: Step) {
    step.InitialLock? || step.InitialSee? || step.InitialCommit? || step.InitialFail?
  }

  lemma DeliveryKeepsShape(s: State, step: Step)
    requires Shape(s) && Enabled(s, step) && Delivers(step)
    ensures Shape(Apply(s, step)) && Apply(s, step).paths == s.paths
  {
    hide Absorbed, AsksFullRescan;
  }

  lemma DiskChangeKeepsShape(s: State, step: Step)
    requires Shape(s) && Enabled(s, step) && step.DiskChange?
    ensures Shape(Apply(s, step)) && Apply(s, step).paths == s.paths
  {
    hide AsksFullRescan;
  }

  lemma InitialKeepsShape(s: State, step: Step)
    requires Shape(s) && Enabled(s, step) && Initialises(step)
    ensures Shape(Apply(s, step)) && Apply(s, step).paths == s.paths
  {
  }

  lemma BatchKeepsShape(s: State, step: Step)
    requires Shape(s) && Enabled(s, step) && !Delivers(step) && !step.DiskChange? && !Initialises(step)
    ensures Shape(Apply(s, step)) && Apply(s, step).paths == s.paths
  {
  }

  lemma StepKeepsShape(s: State, step: Step)
    requires Shape(s) && Enabled(s, step)
    ensures Shape(Apply(s, step)) && Apply(s, step).paths == s.paths
  {
    hide Shape, Apply, Enabled;
    if Delivers(step) {
      DeliveryKeepsShape(s, step);
    } else if step.DiskChange? {
      DiskChangeKeepsShape(s, step);
    } else if Initialises(step) {
      InitialKeepsShape(s, step);
    } else {
      BatchKeepsShape(s, step);
    }
  }

  /** Events only move from the library to the queue, to the flag, or into the batch. */
  lemma EventsAreNotLost(s: State, step: Step, p: Path)
    requires Enabled(s, step) && EventPending(s, p)
    ensures EventPending(Apply(s, step), p) || (WorkerFresh(Apply(s, step), p) && (step.Receive? || step.Deadline?))
  {
    if Delivers(step) || step.DiskChange? {
      if exists e | e in s.emitted :: Touches(e, p) {
        var e :| e in s.emitted && Touches(e, p);
        EmittedIsNotLost(s, step, p, e);
      } else if exists e | e in s.queue :: Touches(e, p) {
        var e :| e in s.queue && Touches(e, p);
        QueuedIsNotLost(s, step, p, e);
      }
    } else {
      OthersLeaveEvents(s, step);
    }
  }

  lemma OthersLeaveEvents(s: State, step: Step)
    requires Enabled(s, step) && !Delivers(step) && !step.DiskChange?
    ensures var t := Apply(s, step);
            t.emitted == s.emitted && t.queue == s.queue && t.overflowed == s.overflowed && t.callback == s.callback
  {
  }

  lemma EmittedIsNotLost(s: State, step: Step, p: Path, e: Event)
    requires Enabled(s, step) && e in s.emitted && Touches(e, p) && (Delivers(step) || step.DiskChange?)
    ensures EventPending(Apply(s, step), p)
  {
    hide Touches;
    var t := Apply(s, step);
    assert e == s.emitted[0] || e in s.emitted[1..];
    if step.Send? && e == s.emitted[0] && |s.queue| < EVENT_QUEUE_CAPACITY {
      assert t.queue[|s.queue|] == e;
    }
    assert step.DiskChange? || step.Noise? ==> e in t.emitted;
  }

  lemma QueuedIsNotLost(s: State, step: Step, p: Path, e: Event)
    requires Enabled(s, step) && e in s.queue && Touches(e, p) && (Delivers(step) || step.DiskChange?)
    ensures EventPending(Apply(s, step), p) || (WorkerFresh(Apply(s, step), p) && step.Receive?)
  {
    var t := Apply(s, step);
    assert e == s.queue[0] || e in s.queue[1..];
    assert step.Send? ==> e in t.queue;
  }

  lemma DiskChangeKeepsCover(s: State, step: Step, p: Path)
    requires Shape(s) && Enabled(s, step) && step.DiskChange? && Covered(s, p)
    ensures Covered(Apply(s, step), p)
  {
    var t := Apply(s, step);
    assert t.emitted[|s.emitted|] == step.event;
    if p in step.changes {
      assert p in step.changes.Keys + Turned(s.unreadable, step.unreadable);
      AsksIffPathsDoNotSay(step.event);
      assert Touches(step.event, p);
    } else {
      assert Get(t.disk, p) == Get(s.disk, p);
      if EventPending(s, p) {
        EventsAreNotLost(s, step, p);
      }
    }
  }

  lemma DeliveryKeepsCover(s: State, step: Step, p: Path)
    requires Shape(s) && p in s.paths && Enabled(s, step) && Covered(s, p) && Delivers(step)
    requires EventPending(s, p) ==>
               EventPending(Apply(s, step), p) || (WorkerFresh(Apply(s, step), p) && (step.Receive? || step.Deadline?))
    ensures Covered(Apply(s, step), p)
  {
    hide EventPending, Absorbed, Apply, Enabled, WorkerStale, WorkerFresh, InitialFresh, InitialStale;
    DeliveryLeavesTheRest(s, step, p);
    if step.Receive? || step.Deadline? {
      NothingStale(s, step, p);
    } else {
      WorkerLeftAlone(s, step, p);
    }
  }

  lemma DeliveryLeavesTheRest(s: State, step: Step, p: Path)
    requires Enabled(s, step) && Delivers(step)
    ensures var t := Apply(s, step);
            && t.disk == s.disk && t.index == s.index && t.failed == s.failed
            && InitialFresh(t, p) == InitialFresh(s, p) && InitialStale(t, p) == InitialStale(s, p)
  {
    hide Apply, Enabled;
    DeliveryFrame(s, step);
  }

  lemma DeliveryFrame(s: State, step: Step)
    requires Enabled(s, step) && Delivers(step)
    ensures var t := Apply(s, step);
            && t.disk == s.disk && t.unreadable == s.unreadable && t.asking == s.asking && t.index == s.index
            && t.failed == s.failed && t.initial == s.initial
    ensures !step.Receive? && !step.Deadline? ==> Apply(s, step).worker == s.worker
  {
    hide Absorbed, AfterDeadline, Enabled;
  }

  lemma WorkerLeftAlone(s: State, step: Step, p: Path)
    requires Enabled(s, step) && (step.Noise? || step.Send? || step.Store?)
    ensures WorkerStale(Apply(s, step), p) == WorkerStale(s, p) && WorkerFresh(Apply(s, step), p) == WorkerFresh(s, p)
  {
    hide Apply, Enabled;
    DeliveryFrame(s, step);
  }

  lemma NothingStale(s: State, step: Step, p: Path)
    requires Enabled(s, step) && (step.Receive? || step.Deadline?)
    ensures !WorkerStale(s, p) && !WorkerStale(Apply(s, step), p)
    ensures WorkerFresh(s, p) ==> WorkerFresh(Apply(s, step), p)
  {
  }

  lemma InitialKeepsCover(s: State, step: Step, p: Path)
    requires Shape(s) && p in s.paths && Enabled(s, step) && Covered(s, p) && Initialises(step)
    requires EventPending(s, p) ==> EventPending(Apply(s, step), p)
    ensures Covered(Apply(s, step), p)
  {
    hide EventPending;
  }

  lemma BatchKeepsCover(s: State, step: Step, p: Path)
    requires Shape(s) && p in s.paths && Enabled(s, step) && Covered(s, p)
    requires !Delivers(step) && !Initialises(step) && !step.DiskChange?
    requires EventPending(s, p) ==> EventPending(Apply(s, step), p)
    ensures Covered(Apply(s, step), p)
  {
    hide EventPending;
  }

  lemma StepKeepsCover(s: State, step: Step, p: Path)
    requires Shape(s) && p in s.paths && Enabled(s, step) && Covered(s, p)
    ensures Covered(Apply(s, step), p)
  {
    hide Covered, Apply, Enabled, EventPending;
    if step.DiskChange? {
      DiskChangeKeepsCover(s, step, p);
    } else {
      if EventPending(s, p) {
        EventsAreNotLost(s, step, p);
      }
      if Delivers(step) {
        DeliveryKeepsCover(s, step, p);
      } else if Initialises(step) {
        InitialKeepsCover(s, step, p);
      } else {
        BatchKeepsCover(s, step, p);
      }
    }
  }

  lemma {:induction false} InvHolds(ss: seq<State>, steps: seq<Step>, n: nat)
    requires Run(ss, steps) && n < |ss|
    ensures Inv(ss[n])
    decreases n
  {
    hide Covered, Shape;
    if n == 0 {
      StartCovers(ss[0]);
    } else {
      InvHolds(ss, steps, n - 1);
      StepKeepsShape(ss[n - 1], steps[n - 1]);
      forall p | p in ss[n].paths ensures Covered(ss[n], p) {
        StepKeepsCover(ss[n - 1], steps[n - 1], p);
      }
    }
  }

  lemma StartCovers(s: State)
    requires Start(s)
    ensures Inv(s)
  {
  }

  // ------------------------------------------------------- at rest

  /** Nothing is left to do until the library emits another event. */
  predicate AtRest(s: State) {
    s.emitted == [] && s.queue == [] && s.callback.Ready? && s.worker.Idle? && s.initial.Done?
  }

  ghost predicate FailedAt(steps: seq<Step>, i: nat, n: nat)
    requires n <= |steps|
  {
    i < n && steps[i].Fail? && forall j :: i < j < n ==> !steps[j].CommitWalk?
  }

  /** A batch met an unreadable note, and no full index of the worker has been completed since. */
  ghost predicate FailedLast(steps: seq<Step>, n: nat)
    requires n <= |steps|
  {
    exists i: nat :: FailedAt(steps, i, n)
  }

  lemma {:induction false} FailedUntilWalk(ss: seq<State>, steps: seq<Step>, n: nat)
    requires Run(ss, steps) && n < |ss|
    ensures ss[n].failed <==> FailedLast(steps, n)
    decreases n
  {
    hide Enabled, Apply, FailedAt;
    if n > 0 {
      FailedUntilWalk(ss, steps, n - 1);
      FailedStep(ss[n - 1], steps[n - 1]);
      forall i: nat ensures FailedAt(steps, i, n) <==> FailedAfter(steps, i, n - 1) {
        FailedOneMore(steps, i, n - 1);
      }
      if ss[n - 1].failed {
        var i: nat :| FailedAt(steps, i, n - 1);
        FailedOneMore(steps, i, n - 1);
      }
      FailedOneMore(steps, n - 1, n - 1);
    } else {
      forall i: nat ensures !FailedAt(steps, i, 0) {
        NotYetFailed(steps, i);
      }
    }
  }

  ghost predicate FailedAfter(steps: seq<Step>, i: nat, n: nat)
    requires n < |steps|
  {
    (i == n && steps[n].Fail?) || (FailedAt(steps, i, n) && !steps[n].CommitWalk?)
  }

  lemma FailedOneMore(steps: seq<Step>, i: nat, n: nat)
    requires n < |steps|
    ensures FailedAt(steps, i, n + 1) <==> FailedAfter(steps, i, n)
  {
  }

  lemma NotYetFailed(steps: seq<Step>, i: nat)
    ensures !FailedAt(steps, i, 0)
  {
  }

  lemma FailedStep(s: State, step: Step)
    requires Enabled(s, step)
    ensures Apply(s, step).failed <==> step.Fail? || (s.failed && !step.CommitWalk?)
  {
    hide Enabled;
  }

  /**
   In every interleaving of disk changes, deliveries, batches and the initial
   index: at rest, with the overflow flag clear and no batch failed since the
   worker last completed a full index, the rows are those of the disk.
   */
  lemma RestingIndexIsTheDisk(ss: seq<State>, steps: seq<Step>, n: nat)
    requires Run(ss, steps) && n < |ss|
    requires AtRest(ss[n]) && !ss[n].overflowed && !FailedLast(steps, n)
    ensures ss[n].index == ss[n].disk
  {
    var s := ss[n];
    FailedUntilWalk(ss, steps, n);
    InvHolds(ss, steps, n);
    forall p | p in s.paths ensures Get(s.index, p) == Get(s.disk, p) {
      assert Covered(s, p);
    }
    SameRevisions(s);
  }

  lemma SameRevisions(s: State)
    requires Shape(s) && forall p | p in s.paths :: Get(s.index, p) == Get(s.disk, p)
    ensures s.index == s.disk
  {
    forall p ensures p in s.index <==> p in s.disk {
      if p in s.paths {
        assert Get(s.index, p) == Get(s.disk, p);
      }
    }
    forall p | p in s.index ensures s.index[p] == s.disk[p] {
      assert Get(s.index, p) == Get(s.disk, p);
    }
  }

  // ------------------------------------- the callback as one step

  /** No other step comes between a failed send and the store of the flag. */
  predicate AtomicCallback(s: State, step: Step) {
    s.callback.MustStore? ==> step.Store?
  }

  /** The flag, once set, has an event on its way or an open batch to bring it to a swap. */
  ghost predicate FlagWillBeTaken(s: State) {
    s.overflowed || s.callback.MustStore? ==> s.queue != [] || s.emitted != [] || s.worker.Collecting?
  }

  lemma AtomicStepKeepsFlagTakeable(s: State, step: Step)
    requires Enabled(s, step) && AtomicCallback(s, step) && FlagWillBeTaken(s)
    ensures FlagWillBeTaken(Apply(s, step))
  {
  }

  /** And once it has not, none of the companion's own steps brings one. */
  lemma StrandedFlagStays(s: State, step: Step)
    requires Internal(s, step) && !FlagWillBeTaken(s)
    ensures !FlagWillBeTaken(Apply(s, step))
  {
  }

  lemma {:induction false} FlagIsNeverForgotten(ss: seq<State>, steps: seq<Step>, n: nat)
    requires Run(ss, steps) && n < |ss|
    requires forall i | 0 <= i < n :: AtomicCallback(ss[i], steps[i])
    ensures FlagWillBeTaken(ss[n])
    decreases n
  {
    if n > 0 {
      FlagIsNeverForgotten(ss, steps, n - 1);
      AtomicStepKeepsFlagTakeable(ss[n - 1], steps[n - 1]);
    }
  }

  // ------------------------------------------------- progress

  /** Steps of the companion itself, the callback not interrupted. */
  predicate Internal(s: State, step: Step) {
    Enabled(s, step) && !step.DiskChange? && !step.Noise? && AtomicCallback(s, step)
  }

  function Undelivered(s: State): nat {
    2 * |s.emitted| + (if s.callback.MustStore? then 1 else 0)
  }

  function Unread(paths: set<Path>, seen: map<Path, Option<Revision>>): nat {
    |paths - seen.Keys|
  }

  function InitialLeft(s: State): nat {
    match s.initial
    case NotYet => 2 + |s.paths|
    case Indexing(seen) => 1 + Unread(s.paths, seen)
    case _ => 0
  }

  function WorkerPhase(s: State): nat {
    match s.worker
    case Idle => 0
    case Walking(_) => 1
    case AwaitingLock => 2
    case Scanning(_, _) => 3
    case Opening(_) => 4
    case Collecting(_) => 5
  }

  function WorkerLeft(s: State): nat {
    match s.worker
    case Walking(seen) => Unread(s.paths, seen)
    case Scanning(todo, _) => |todo|
    case _ => 0
  }

  /** Lexicographic: deliveries, then the initial index, then the queue, then the batch in hand. */
  predicate Less(t: State, s: State) {
    || Undelivered(t) < Undelivered(s)
    || (Undelivered(t) == Undelivered(s) &&
        (|| InitialLeft(t) < InitialLeft(s)
         || (InitialLeft(t) == InitialLeft(s) &&
             (|| |t.queue| < |s.queue|
              || (|t.queue| == |s.queue| &&
                  (|| WorkerPhase(t) < WorkerPhase(s)
                   || (WorkerPhase(t) == WorkerPhase(s) && WorkerLeft(t) < WorkerLeft(s))))))))
  }

  lemma ReadingShrinks(paths: set<Path>, seen: map<Path, Option<Revision>>, p: Path, v: Option<Revision>)
    requires p in paths && p !in seen
    ensures Unread(paths, seen[p := v]) < Unread(paths, seen)
  {
    assert paths - seen[p := v].Keys == (paths - seen.Keys) - {p};
  }

  lemma DeliveryDecreases(s: State, step: Step)
    requires Enabled(s, step) && Delivers(step) && !step.Noise?
    ensures Less(Apply(s, step), s)
  {
  }

  lemma InitialDecreases(s: State, step: Step)
    requires Enabled(s, step) && Initialises(step)
    ensures Undelivered(Apply(s, step)) == Undelivered(s) && InitialLeft(Apply(s, step)) < InitialLeft(s)
  {
    InitialLeavesEvents(s, step);
    hide Undelivered;
    if step.InitialSee? {
      ReadingShrinks(s.paths, s.initial.seen, step.path, Get(s.disk, step.path));
    } else if step.InitialLock? {
      var none: map<Path, Option<Revision>> := map[];
      assert s.paths - none.Keys == s.paths;
    }
  }

  lemma InitialLeavesEvents(s: State, step: Step)
    requires Enabled(s, step) && Initialises(step)
    ensures Undelivered(Apply(s, step)) == Undelivered(s)
  {
    hide Enabled;
  }

  lemma BatchDecreases(s: State, step: Step)
    requires Enabled(s, step) && !Delivers(step) && !step.DiskChange? && !Initialises(step)
    ensures var t := Apply(s, step);
            && Undelivered(t) == Undelivered(s) && InitialLeft(t) == InitialLeft(s) && |t.queue| == |s.queue|
            && (WorkerPhase(t) < WorkerPhase(s) || (WorkerPhase(t) == WorkerPhase(s) && WorkerLeft(t) < WorkerLeft(s)))
  {
    BatchLeavesTheRest(s, step);
    hide InitialLeft, Undelivered;
    if step.See? || step.ScanPath? {
      hide Apply, Enabled;
      ReadingDecreases(s, step);
    }
  }

  lemma ReadingDecreases(s: State, step: Step)
    requires Enabled(s, step) && (step.See? || step.ScanPath?)
    ensures WorkerPhase(Apply(s, step)) == WorkerPhase(s) && WorkerLeft(Apply(s, step)) < WorkerLeft(s)
  {
    hide Apply, Enabled;
    if step.See? {
      SeeingDecreases(s, step.path);
    } else {
      ScanningDecreases(s, step.path);
    }
  }

  lemma SeeingDecreases(s: State, p: Path)
    requires Enabled(s, See(p))
    ensures Apply(s, See(p)).worker.Walking? && s.worker.Walking?
    ensures WorkerLeft(Apply(s, See(p))) < WorkerLeft(s)
  {
    SeeReads(s, p);
    hide Apply, Enabled, Unread;
    ReadingShrinks(s.paths, s.worker.seen, p, Get(s.disk, p));
  }

  lemma SeeReads(s: State, p: Path)
    requires Enabled(s, See(p))
    ensures s.worker.Walking? && p in s.paths && p !in s.worker.seen
    ensures Apply(s, See(p)) == s.(worker := Walking(s.worker.seen[p := Get(s.disk, p)]))
  {
  }

  lemma ScanningDecreases(s: State, p: Path)
    requires Enabled(s, ScanPath(p))
    ensures Apply(s, ScanPath(p)).worker.Scanning? && s.worker.Scanning?
    ensures WorkerLeft(Apply(s, ScanPath(p))) < WorkerLeft(s)
  {
    assert |s.worker.todo - {p}| < |s.worker.todo|;
  }

  lemma BatchLeavesTheRest(s: State, step: Step)
    requires Enabled(s, step) && !Delivers(step) && !step.DiskChange? && !Initialises(step)
    ensures var t := Apply(s, step);
            Undelivered(t) == Undelivered(s) && InitialLeft(t) == InitialLeft(s) && |t.queue| == |s.queue|
  {
  }

  lemma InternalStepDecreases(s: State, step: Step)
    requires Internal(s, step)
    ensures Less(Apply(s, step), s)
    ensures Apply(s, step).disk == s.disk && Apply(s, step).unreadable == s.unreadable && Apply(s, step).asking == s.asking
  {
    assert Enabled(s, step) && !step.DiskChange? && !step.Noise?;
    hide Apply, Enabled, Undelivered, InitialLeft, WorkerPhase, WorkerLeft;
    if Delivers(step) {
      DeliveryDecreases(s, step);
      DeliveryFrame(s, step);
    } else if Initialises(step) {
      InitialDecreases(s, step);
      OthersLeaveTheDisk(s, step);
    } else {
      BatchDecreases(s, step);
      OthersLeaveTheDisk(s, step);
    }
  }

  lemma OthersLeaveTheDisk(s: State, step: Step)
    requires Enabled(s, step) && !Delivers(step) && !step.DiskChange?
    ensures Apply(s, step).disk == s.disk && Apply(s, step).unreadable == s.unreadable && Apply(s, step).asking == s.asking
  {
    hide Rows, Overlay, Enabled;
  }

  /** Nothing more will happen by itself: everything is at rest, or the process has ended. */
  predicate Over(s: State) {
    AtRest(s) || s.initial.Stopped?
  }

  /** Whatever the state, something can move unless everything is over. */
  lemma NeverStuck(s: State) returns (step: Step)
    requires Shape(s) && !Over(s)
    ensures Internal(s, step)
  {
    if s.callback.MustStore? {
      step := Store;
    } else if s.emitted != [] {
      step := Send;
    } else if s.initial.Indexing? {
      step := NextOfInitial(s);
    } else if s.worker.Walking? {
      step := NextOfWalk(s);
    } else if s.initial.NotYet? {
      step := InitialLock;
    } else {
      match s.worker {
        case Idle => step := Receive;
        case Collecting(_) => step := Deadline;
        case Opening(_) => step := if [] in s.unreadable then Escalate else Open;
        case Scanning(_, _) => step := NextOfScan(s);
        case _ => step := TakeLock;
      }
    }
  }

  lemma NextOfScan(s: State) returns (step: Step)
    requires s.worker.Scanning? && s.callback.Ready? && LockFree(s) && !s.initial.Stopped?
    ensures Internal(s, step)
  {
    if s.worker.todo == {} {
      step := if s.indexed then CommitPaths else Escalate;
    } else {
      var p :| p in s.worker.todo;
      step := if GivesWay(s, p) then Escalate else ScanPath(p);
    }
  }

  lemma NextOfInitial(s: State) returns (step: Step)
    requires s.initial.Indexing? && s.callback.Ready?
    ensures Internal(s, step)
  {
    if s.paths <= s.initial.seen.Keys {
      step := InitialCommit;
    } else {
      var p :| p in s.paths && p !in s.initial.seen;
      step := if p in s.unreadable then InitialFail(p) else InitialSee(p);
    }
  }

  lemma NextOfWalk(s: State) returns (step: Step)
    requires s.worker.Walking? && s.callback.Ready? && !s.initial.Stopped?
    ensures Internal(s, step)
  {
    if s.paths <= s.worker.seen.Keys {
      step := CommitWalk;
    } else {
      var p :| p in s.paths && p !in s.worker.seen;
      step := if p in s.unreadable then Fail(p) else See(p);
    }
  }

  /** Once the initial index has failed the companion has ended: the index stays as it is, whatever happens outside. */
  lemma {:induction false} FailedInitialIndexEndsIt(ss: seq<State>, steps: seq<Step>, i: nat, n: nat)
    requires Run(ss, steps) && i <= n < |ss| && ss[i].initial.Stopped?
    ensures ss[n].initial.Stopped? && ss[n].index == ss[i].index && ss[n].worker == ss[i].worker && ss[n].queue == ss[i].queue
    ensures forall j :: i <= j < n ==> steps[j].DiskChange? || steps[j].Noise?
    decreases n
  {
    if i < n {
      FailedInitialIndexEndsIt(ss, steps, i, n - 1);
      assert Enabled(ss[n - 1], steps[n - 1]) && ss[n] == Apply(ss[n - 1], steps[n - 1]);
    }
  }

  /** A scheduler that always picks one of the companion's own enabled steps, where there is one. */
  ghost predicate Working(sched: State -> Step) {
    forall t {:trigger sched(t)} :: Over(t) || !Shape(t) || Internal(t, sched(t))
  }

  /** The states a scheduler goes through from a state. */
  ghost function Iterate(sched: State -> Step, s: State, n: nat): (t: State)
    requires Working(sched) && Shape(s)
    ensures Shape(t)
    decreases n
  {
    if n == 0 || Over(s) then s
    else
      StepKeepsShape(s, sched(s));
      Iterate(sched, Apply(s, sched(s)), n - 1)
  }

  lemma Onward(sched: State -> Step, s: State) returns (t: State)
    requires Working(sched) && Inv(s) && !Over(s)
    ensures Internal(s, sched(s)) && t == Apply(s, sched(s))
    ensures Inv(t) && Less(t, s) && t.disk == s.disk && t.unreadable == s.unreadable
    ensures FlagWillBeTaken(t) <==> FlagWillBeTaken(s)
    ensures forall n: nat :: Iterate(sched, s, n + 1) == Iterate(sched, t, n)
  {
    hide Covered, Shape, FlagWillBeTaken, Less, Apply, Enabled, Over;
    var step := sched(s);
    assert Internal(s, step);
    t := Apply(s, step);
    InternalStepDecreases(s, step);
    StepKeepsShape(s, step);
    forall p | p in t.paths ensures Covered(t, p) {
      StepKeepsCover(s, step, p);
    }
    if FlagWillBeTaken(s) {
      AtomicStepKeepsFlagTakeable(s, step);
    } else {
      StrandedFlagStays(s, step);
    }
  }

  /**
   Once the disk is still and can be read, every schedule of the companion's own
   steps comes to rest. It rests with the flag clear and the rows of the disk if
   the flag, when set or about to be set, had an event on its way or an open
   batch, and with the flag set for good if it had not.
   */
  lemma {:induction false} EveryScheduleConverges(sched: State -> Step, s: State) returns (n: nat)
    requires Working(sched)
    requires Inv(s) && !s.failed && s.unreadable == {} && !s.initial.Stopped?
    ensures AtRest(Iterate(sched, s, n))
    ensures Iterate(sched, s, n).disk == s.disk
    ensures Iterate(sched, s, n).overflowed <==> !FlagWillBeTaken(s)
    ensures FlagWillBeTaken(s) ==> Iterate(sched, s, n).index == s.disk
    decreases Undelivered(s), InitialLeft(s), |s.queue|, WorkerPhase(s), WorkerLeft(s)
  {
    hide Inv, FlagWillBeTaken, AtRest, Iterate, Apply, Enabled, Shape, Undelivered, InitialLeft, WorkerPhase, WorkerLeft;
    if AtRest(s) {
      n := 0;
      RestingStateAgrees(s);
      IterateNone(sched, s);
    } else {
      var t := Onward(sched, s);
      ReadableNeverFails(s, sched(s));
      var m := EveryScheduleConverges(sched, t);
      n := m + 1;
    }
  }

  lemma IterateNone(sched: State -> Step, s: State)
    requires Working(sched) && Inv(s)
    ensures Iterate(sched, s, 0) == s
  {
  }

  lemma ReadableNeverFails(s: State, step: Step)
    requires Internal(s, step) && s.unreadable == {} && !s.failed && !s.initial.Stopped?
    ensures !Apply(s, step).failed && !Apply(s, step).initial.Stopped?
  {
  }

  lemma RestingStateAgrees(s: State)
    requires Inv(s) && !s.failed && AtRest(s)
    ensures s.overflowed <==> !FlagWillBeTaken(s)
    ensures !s.overflowed ==> s.index == s.disk
  {
    if !s.overflowed {
      forall p | p in s.paths ensures Get(s.index, p) == Get(s.disk, p) {
        assert Covered(s, p);
      }
      SameRevisions(s);
    }
  }

  /**
   The callback's store of the flag strands it exactly when by then nothing is
   queued or on its way and no batch is open: no schedule of the companion's own
   steps takes it, while in every other case each of them does.
   */
  lemma StoreStrandsIff(sched: State -> Step, s: State) returns (n: nat)
    requires Working(sched)
    requires Inv(s) && !s.failed && s.unreadable == {} && !s.initial.Stopped? && s.callback.MustStore?
    ensures var t := Apply(s, Store);
            && Inv(t) && AtRest(Iterate(sched, t, n))
            && (Iterate(sched, t, n).overflowed <==> s.queue == [] && s.emitted == [] && !s.worker.Collecting?)
            && (!Iterate(sched, t, n).overflowed ==> Iterate(sched, t, n).index == s.disk)
  {
    hide Covered, Shape, AtRest, Iterate;
    var t := Apply(s, Store);
    StepKeepsShape(s, Store);
    forall p | p in t.paths ensures Covered(t, p) {
      StepKeepsCover(s, Store, p);
    }
    n := EveryScheduleConverges(sched, t);
  }

  // ------------------------------------------------- batches that fail

  /** A batch in hand and nothing else to come. */
  ghost predicate LastBatch(s: State) {
    && Inv(s) && !s.failed && s.initial.Done? && s.callback.Ready?
    && s.emitted == [] && s.queue == [] && FlagWillBeTaken(s)
  }

  /** What a batch asks for cannot be settled path by path. */
  predicate EndsInWalk(s: State, full: bool, paths: set<Path>) {
    full || (paths != {} && ([] in s.unreadable || exists p :: p in paths && GivesWay(s, p)))
  }

  /** The batch ends in a walk of the whole vault, and the walk meets an unreadable path. */
  ghost predicate Doomed(s: State) {
    match s.worker
    case Idle => false
    case Collecting(b) => s.unreadable != {} && EndsInWalk(s, b.fullRescan || s.overflowed, b.paths)
    case Opening(paths) => [] in s.unreadable || (s.unreadable != {} && exists p :: p in paths && GivesWay(s, p))
    case Scanning(todo, _) => s.unreadable != {} && exists p :: p in todo && GivesWay(s, p)
    case AwaitingLock => s.unreadable != {}
    case Walking(seen) => exists p :: p in s.unreadable && p !in seen
  }

  /** Where the batch is heading is settled: until it ends, nothing changes it. */
  lemma LastBatchGoesOn(s: State, step: Step)
    requires LastBatch(s) && Internal(s, step) && Inv(Apply(s, step))
    requires s.unreadable <= s.paths && s.indexed
    requires FlagWillBeTaken(Apply(s, step))
    ensures var t := Apply(s, step);
            || (t.index == s.index && LastBatch(t) && !AtRest(t) && (Doomed(t) <==> Doomed(s)))
            || (AtRest(t) && !t.failed && LastBatch(t) && !Doomed(s))
            || (AtRest(t) && t.failed && t.index == s.index && !t.overflowed && Doomed(s))
  {
    hide Inv, EndsInWalk, GivesWay;
    if step.Deadline? {
      DeadlineGoesOn(s);
    } else if step.Open? || step.ScanPath? {
      ScanGoesOn(s, step);
    } else {
      WalkGoesOn(s, step);
    }
  }

  lemma DeadlineGoesOn(s: State)
    requires LastBatch(s) && Enabled(s, Deadline)
    ensures var t := Apply(s, Deadline);
            && t.index == s.index && !t.failed && !t.overflowed
            && t.initial == s.initial && t.callback == s.callback && t.emitted == s.emitted && t.queue == s.queue
            && (Doomed(t) <==> Doomed(s))
  {
    hide Inv, GivesWay;
    assert [] in s.unreadable ==> s.unreadable != {};
    var b := s.worker.batch;
    var t := Apply(s, Deadline);
    assert forall p :: GivesWay(t, p) <==> GivesWay(s, p) by {
      GivesWayAsBefore(s, t);
    }
  }

  lemma GivesWayAsBefore(s: State, t: State)
    requires t.unreadable == s.unreadable && t.asking == s.asking
    ensures forall p :: GivesWay(t, p) <==> GivesWay(s, p)
  {
  }

  lemma ScanGoesOn(s: State, step: Step)
    requires LastBatch(s) && Enabled(s, step) && (step.Open? || step.ScanPath?)
    ensures var t := Apply(s, step);
            && t == s.(worker := t.worker) && t.worker.Scanning?
            && (Doomed(t) <==> Doomed(s))
  {
    hide Inv, GivesWay, FlagWillBeTaken;
    var t := Apply(s, step);
    GivesWayAsBefore(s, t);
    if step.ScanPath? {
      forall p | p in s.worker.todo && GivesWay(s, p) ensures p in t.worker.todo && GivesWay(t, p) {
      }
    }
  }

  lemma WalkGoesOn(s: State, step: Step)
    requires LastBatch(s) && Internal(s, step) && !step.Deadline? && !step.Open? && !step.ScanPath?
    requires s.unreadable <= s.paths && s.indexed
    ensures var t := Apply(s, step);
            || (t == s.(worker := t.worker) && !t.worker.Idle? && (Doomed(t) <==> Doomed(s)))
            || (t.worker.Idle? && !t.failed && t == s.(worker := Idle, index := t.index, indexed := true) && !Doomed(s))
            || (t.worker.Idle? && t.failed && t == s.(worker := Idle, failed := true) && Doomed(s))
  {
    hide Inv;
  }

  lemma PathsAreKnown(s: State)
    requires Inv(s)
    ensures s.unreadable <= s.paths && (s.initial.Done? ==> s.indexed)
  {
  }

  lemma {:induction false} BatchOutcome(sched: State -> Step, s: State) returns (n: nat)
    requires Working(sched) && LastBatch(s)
    ensures var f := Iterate(sched, s, n);
            && AtRest(f) && f.disk == s.disk && !f.overflowed
            && (f.failed ==> f.index == s.index)
            && (!f.failed ==> f.index == s.disk)
            && (f.failed <==> Doomed(s))
    decreases Undelivered(s), InitialLeft(s), |s.queue|, WorkerPhase(s), WorkerLeft(s)
  {
    hide Inv, AtRest, Iterate, Doomed, FlagWillBeTaken, Apply, Enabled, Undelivered, InitialLeft, WorkerPhase, WorkerLeft;
    if AtRest(s) {
      n := 0;
      RestingStateAgrees(s);
      IterateNone(sched, s);
      IdleIsNotDoomed(s);
    } else {
      var t := Onward(sched, s);
      PathsAreKnown(s);
      LastBatchGoesOn(s, sched(s));
      if AtRest(t) {
        n := 1;
        IterateNone(sched, t);
        if LastBatch(t) {
          RestingStateAgrees(t);
        }
      } else {
        var m := BatchOutcome(sched, t);
        n := m + 1;
      }
    }
  }

  lemma IdleIsNotDoomed(s: State)
    requires AtRest(s)
    ensures !Doomed(s)
  {
  }

  /**
   The last batch on a still disk, in every schedule. It fails exactly when
   something is unreadable and the batch cannot be settled path by path: it asks
   for a full rescan or takes the flag, the root is gone, or it names a path that
   is unreadable or asks for a full rescan. A failed batch is dropped: with
   nothing else to come, the rows at rest are the disk's if and only if it is not
   such a batch, or no path it covers differs.
   */
  lemma FailedBatchIsDropped(sched: State -> Step, s: State) returns (n: nat)
    requires Working(sched) && LastBatch(s) && s.worker.Collecting?
    ensures var f := Iterate(sched, s, n);
            var b := s.worker.batch;
            var full := b.fullRescan || s.overflowed;
            var dropped := s.unreadable != {} &&
              (full || (b.paths != {} && ([] in s.unreadable || b.paths * (s.unreadable + s.asking) != {})));
            && AtRest(f) && !f.overflowed && f.disk == s.disk
            && (f.failed <==> dropped)
            && (f.index == f.disk <==>
                  !dropped || forall p | p in s.paths && (full || p in b.paths) :: Get(s.index, p) == Get(s.disk, p))
  {
    hide AtRest, Iterate, Inv;
    n := BatchOutcome(sched, s);
    PathsThatGiveWay(s, s.worker.batch.paths);
    UncoveredPathsAgree(s);
  }

  lemma PathsThatGiveWay(s: State, paths: set<Path>)
    ensures (exists p :: p in paths && GivesWay(s, p)) <==> paths * (s.unreadable + s.asking) != {}
  {
    var both := paths * (s.unreadable + s.asking);
    if p :| p in paths && GivesWay(s, p) {
      assert p in both;
    }
    if both != {} {
      var p :| p in both;
      assert p in paths && GivesWay(s, p);
    }
  }

  lemma UncoveredPathsAgree(s: State)
    requires LastBatch(s) && s.worker.Collecting?
    ensures var b := s.worker.batch;
            s.index == s.disk <==>
              forall p | p in s.paths && (b.fullRescan || s.overflowed || p in b.paths) :: Get(s.index, p) == Get(s.disk, p)
  {
    var b := s.worker.batch;
    if forall p | p in s.paths && (b.fullRescan || s.overflowed || p in b.paths) :: Get(s.index, p) == Get(s.disk, p) {
      forall p | p in s.paths ensures Get(s.index, p) == Get(s.disk, p) {
        assert Covered(s, p);
      }
      SameRevisions(s);
    }
  }

  // ------------------------------------------------- where the code falls short

  /** Taking steps in order; None when one is not enabled. */
  function Play(s: State, steps: seq<Step>): Option<State>
    decreases |steps|
  {
    if steps == [] then Some(s)
    else if Enabled(s, steps[0]) then Play(Apply(s, steps[0]), steps[1..])
    else None
  }

  lemma {:induction false} PlayConcat(s: State, a: seq<Step>, b: seq<Step>)
    requires Play(s, a).Some?
    ensures Play(s, a + b) == Play(Play(s, a).value, b)
    decreases |a|
  {
    if a == [] {
      assert a + b == b;
    } else {
      assert (a + b)[1..] == a[1..] + b;
      PlayConcat(Apply(s, a[0]), a[1..], b);
    }
  }

  function Repeat<T>(x: T, n: nat): seq<T> {
    seq(n, i => x)
  }

  const NOISE := Event(Access, false, {})

  lemma {:induction false} PlayNoise(s: State, n: nat)
    requires |s.queue| + n <= EVENT_QUEUE_CAPACITY && s.emitted == [] && s.callback.Ready?
    requires !s.initial.Stopped?
    ensures Play(s, Repeat(Noise(NOISE), n) + Repeat(Send, n)) == Some(s.(queue := s.queue + Repeat(NOISE, n)))
    decreases n
  {
    PlayEmit(s, n);
    assert s.emitted + Repeat(NOISE, n) == Repeat(NOISE, n);
    PlayConcat(s, Repeat(Noise(NOISE), n), Repeat(Send, n));
    PlaySend(s.(emitted := Repeat(NOISE, n)), n);
  }

  lemma {:induction false} PlayEmit(s: State, n: nat)
    ensures Play(s, Repeat(Noise(NOISE), n)) == Some(s.(emitted := s.emitted + Repeat(NOISE, n)))
    decreases n
  {
    if n == 0 {
      assert s.emitted + Repeat(NOISE, n) == s.emitted;
    } else {
      assert Repeat(Noise(NOISE), n)[1..] == Repeat(Noise(NOISE), n - 1);
      PlayEmit(Apply(s, Noise(NOISE)), n - 1);
      assert (s.emitted + [NOISE]) + Repeat(NOISE, n - 1) == s.emitted + Repeat(NOISE, n);
    }
  }

  lemma {:induction false} PlaySend(s: State, n: nat)
    requires s.emitted == Repeat(NOISE, n) && |s.queue| + n <= EVENT_QUEUE_CAPACITY && s.callback.Ready?
    requires !s.initial.Stopped?
    ensures Play(s, Repeat(Send, n)) == Some(s.(emitted := [], queue := s.queue + Repeat(NOISE, n)))
    decreases n
  {
    if n == 0 {
      assert s.queue + Repeat(NOISE, n) == s.queue;
    } else {
      assert Repeat(Send, n)[1..] == Repeat(Send, n - 1);
      assert s.emitted[1..] == Repeat(NOISE, n - 1);
      PlaySend(Apply(s, Send), n - 1);
      assert (s.queue + [NOISE]) + Repeat(NOISE, n - 1) == s.queue + Repeat(NOISE, n);
    }
  }

  lemma {:induction false} PlayReceive(s: State, n: nat)
    requires s.queue == Repeat(NOISE, n) && s.worker == Collecting(EMPTY_BATCH)
    requires !s.initial.Stopped?
    ensures Play(s, Repeat(Receive, n)) == Some(s.(queue := []))
    decreases n
  {
    if n > 0 {
      assert Repeat(Receive, n)[1..] == Repeat(Receive, n - 1);
      assert s.queue[1..] == Repeat(NOISE, n - 1);
      assert Absorbed(EMPTY_BATCH, NOISE) == EMPTY_BATCH;
      PlayReceive(Apply(s, Receive), n - 1);
    }
  }

  /** An empty vault, two note paths, and nothing indexed yet. */
  const FRESH := State({["a.md"], ["b.md"]}, map[], {}, {[]}, map[], false, [], [], false, Ready, Idle, NotYet, false)

  const NEW_NOTE := DiskChange(map[["a.md"] := Some("r")], {}, {[]}, Event(CreateFile, false, {["a.md"]}))

  const INITIAL_INDEX: seq<Step> := [InitialLock, InitialSee(["a.md"]), InitialSee(["b.md"]), InitialCommit]

  /** The same vault, indexed and at rest. */
  const INDEXED := FRESH.(indexed := true, initial := Done)

  lemma SendQueues(s: State)
    requires s.emitted != [] && s.callback.Ready? && !s.initial.Stopped? && |s.queue| < EVENT_QUEUE_CAPACITY
    ensures Enabled(s, Send)
    ensures Apply(s, Send) == s.(emitted := s.emitted[1..], queue := s.queue + [s.emitted[0]])
  {
  }

  lemma ReceiveOpens(s: State)
    requires s.queue != [] && s.worker.Idle? && !s.initial.Stopped?
    ensures Enabled(s, Receive)
    ensures Apply(s, Receive) == s.(queue := s.queue[1..], worker := Collecting(Absorbed(EMPTY_BATCH, s.queue[0])))
  {
  }

  lemma DeadlineCloses(s: State)
    requires s.worker.Collecting? && !s.initial.Stopped? && !s.overflowed
    ensures Enabled(s, Deadline)
    ensures Apply(s, Deadline) == s.(worker := AfterDeadline(s, s.worker.batch))
  {
  }

  lemma InitialSees(s: State, p: Path)
    requires s.initial.Indexing? && p in s.paths && p !in s.initial.seen && s.disk == map[] && s.unreadable == {}
    ensures Enabled(s, InitialSee(p)) && Apply(s, InitialSee(p)) == s.(initial := Indexing(s.initial.seen[p := None]))
  {
  }

  lemma InitialEnds(s: State)
    requires s.initial.Indexing? && s.paths <= s.initial.seen.Keys
    ensures Enabled(s, InitialCommit)
    ensures Apply(s, InitialCommit) == s.(index := Rows(s.initial.seen), indexed := true, initial := Done)
  {
  }

  lemma InitialIndexOfFresh()
    ensures Start(FRESH)
    ensures Play(FRESH, INITIAL_INDEX) == Some(INDEXED)
  {
    hide Play;
    var p: Path, q: Path := ["a.md"], ["b.md"];
    assert p[0] != q[0];
    var s1 := FRESH.(initial := Indexing(map[]));
    assert Enabled(FRESH, InitialLock) && Apply(FRESH, InitialLock) == s1;
    hide Apply, Enabled;
    var s2 := s1.(initial := Indexing(map[p := None]));
    InitialSees(s1, p);
    var s3 := s1.(initial := Indexing(map[p := None, q := None]));
    InitialSees(s2, q);
    InitialEnds(s3);
    assert Rows(s3.initial.seen) == map[];
    PlayOne(s3, InitialCommit, []);
    PlayNone(INDEXED);
    PlayTwo(s1, InitialSee(p), InitialSee(q), [InitialCommit]);
    PlayOne(FRESH, InitialLock, [InitialSee(p), InitialSee(q), InitialCommit]);
    assert [InitialSee(p), InitialSee(q)] + [InitialCommit] == [InitialSee(p), InitialSee(q), InitialCommit];
    assert INITIAL_INDEX == [InitialLock] + [InitialSee(p), InitialSee(q), InitialCommit];
    assert [InitialCommit] + [] == [InitialCommit];
  }

  lemma PlayNone(s: State)
    ensures Play(s, []) == Some(s)
  {
  }

  lemma PlayOne(s: State, step: Step, rest: seq<Step>)
    requires Enabled(s, step)
    ensures Play(s, [step] + rest) == Play(Apply(s, step), rest)
  {
    assert ([step] + rest)[1..] == rest;
  }

  /** The queue filled with noise, the note written, its event refused, and the queue then drained. */
  const STRANDING: seq<Step> :=
    INITIAL_INDEX
    + (Repeat(Noise(NOISE), 256) + Repeat(Send, 256)
       + ([NEW_NOTE, Send, Receive]
          + (Repeat(Receive, 255) + [Deadline, Store])))

  /**
   The send and the store of the flag are two steps. Let the batch swap the
   flag between them and the hint is stranded: everything is at rest, the flag
   is set, and the new note has no row.
   */
  lemma SplitCallbackStrandsAHint()
    ensures Play(FRESH, STRANDING).Some?
    ensures var s := Play(FRESH, STRANDING).value;
            AtRest(s) && s.overflowed && !s.failed && s.index != s.disk
  {
    hide Apply, Enabled, Own, Play, Repeat, NEW_NOTE;
    var n := EVENT_QUEUE_CAPACITY;
    var fill := Repeat(Noise(NOISE), n) + Repeat(Send, n);
    var refused := [NEW_NOTE, Send, Receive];
    var tail := Repeat(Receive, n - 1) + [Deadline, Store];
    InitialIndexOfFresh();
    PlayConcat(FRESH, INITIAL_INDEX, fill + (refused + tail));
    PlayNoise(INDEXED, n);
    var full := INDEXED.(queue := Repeat(NOISE, n));
    assert INDEXED.queue + Repeat(NOISE, n) == Repeat(NOISE, n);
    PlayConcat(INDEXED, fill, refused + tail);
    var open := RefusedEvent(full);
    PlayConcat(full, refused, tail);
    PlayReceive(open, n - 1);
    PlayConcat(open, Repeat(Receive, n - 1), [Deadline, Store]);
    StoreAfterSwap(open.(queue := []));
  }

  lemma StoreAfterSwap(s: State)
    requires s.worker == Collecting(EMPTY_BATCH) && s.callback.MustStore? && !s.initial.Stopped? && !s.overflowed
    ensures Play(s, [Deadline, Store]) == Some(s.(worker := Idle, callback := Ready, overflowed := true))
  {
    hide Play;
    var t := s.(worker := Idle, callback := Ready, overflowed := true);
    PlayTwo(s, Deadline, Store, []);
    PlayNone(t);
    assert [Deadline, Store] + [] == [Deadline, Store];
  }

  lemma RefusedEvent(full: State) returns (open: State)
    requires full == INDEXED.(queue := Repeat(NOISE, EVENT_QUEUE_CAPACITY))
    ensures Play(full, [NEW_NOTE, Send, Receive]) == Some(open)
    ensures open == full.(queue := Repeat(NOISE, EVENT_QUEUE_CAPACITY - 1), callback := MustStore,
                          worker := Collecting(EMPTY_BATCH), disk := open.disk)
    ensures ["a.md"] in open.disk
  {
    var s1 := Apply(full, NEW_NOTE);
    var s2 := Apply(s1, Send);
    assert s2.callback.MustStore? && s2.emitted == [];
    assert s2.queue[1..] == Repeat(NOISE, EVENT_QUEUE_CAPACITY - 1);
    open := Apply(s2, Receive);
    assert Absorbed(EMPTY_BATCH, NOISE) == EMPTY_BATCH;
    assert [Receive][1..] == [] && [Send, Receive][1..] == [Receive];
    assert [NEW_NOTE, Send, Receive][1..] == [Send, Receive];
    assert Play(s2, [Receive]) == Some(open);
    assert Play(s1, [Send, Receive]) == Some(open);
  }

  /** Two notes moved into the vault, one of which cannot be read; and that one deleted again. */
  const MOVED_IN := DiskChange(map[["a.md"] := Some("r")], {["b.md"]}, {[]}, Event(ModifyName, false, {}))
  const DELETED := DiskChange(map[], {}, {[]}, Event(RemoveFile, false, {["b.md"]}))

  /** The first batch meets the unreadable note; the second one only hears of its deletion. */
  const DROPPING: seq<Step> :=
    INITIAL_INDEX
    + ([MOVED_IN, Send, Receive, Deadline, TakeLock, Fail(["b.md"])]
       + [DELETED, Send, Receive, Deadline, Open, ScanPath(["b.md"]), CommitPaths])

  /**
   A batch whose walk meets an unreadable note is dropped with its hints. The
   note that came with it never gets a row, even after the unreadable one is
   gone: everything is at rest, the flag clear, the disk readable.
   */
  lemma FailedBatchDropsItsHints()
    ensures Play(FRESH, DROPPING).Some?
    ensures var s := Play(FRESH, DROPPING).value;
            AtRest(s) && !s.overflowed && s.unreadable == {} && ["a.md"] in s.disk && ["a.md"] !in s.index
  {
    var first := [MOVED_IN, Send, Receive, Deadline, TakeLock, Fail(["b.md"])];
    var second := [DELETED, Send, Receive, Deadline, Open, ScanPath(["b.md"]), CommitPaths];
    InitialIndexOfFresh();
    PlayConcat(FRESH, INITIAL_INDEX, first + second);
    var failed := FirstBatchFails();
    PlayConcat(INDEXED, first, second);
    SecondBatchSucceeds(failed);
  }

  lemma PlaySix(s: State, a: Step, b: Step, c: Step, d: Step, e: Step, f: Step, t: State, u: State, v: State)
    requires Enabled(s, a) && Enabled(Apply(s, a), b) && t == Apply(Apply(s, a), b)
    requires Enabled(t, c) && Enabled(Apply(t, c), d) && u == Apply(Apply(t, c), d)
    requires Enabled(u, e) && Enabled(Apply(u, e), f) && v == Apply(Apply(u, e), f)
    ensures Play(s, [a, b, c, d, e, f]) == Some(v)
  {
    hide Apply, Enabled, Play;
    PlayNone(v);
    PlayTwo(u, e, f, []);
    PlayTwo(t, c, d, [e, f]);
    PlayTwo(s, a, b, [c, d, e, f]);
    assert [a, b] + [c, d, e, f] == [a, b, c, d, e, f];
    assert [c, d] + [e, f] == [c, d, e, f] && [e, f] + [] == [e, f];
  }

  lemma PlayTwo(s: State, a: Step, b: Step, rest: seq<Step>)
    requires Enabled(s, a) && Enabled(Apply(s, a), b)
    ensures Play(s, [a, b] + rest) == Play(Apply(Apply(s, a), b), rest)
  {
    hide Apply, Enabled, Play;
    PlayOne(Apply(s, a), b, rest);
    PlayOne(s, a, [b] + rest);
    assert [a] + ([b] + rest) == [a, b] + rest;
  }

  lemma DiskMoves(s: State, step: Step)
    requires step.DiskChange? && Enabled(s, step)
    ensures Apply(s, step) == s.(disk := Overlay(s.disk, step.changes), unreadable := step.unreadable,
                                 asking := step.asking, emitted := s.emitted + [step.event])
  {
  }

  lemma WalkFails(s: State, p: Path)
    requires s.worker.AwaitingLock? && s.initial.Done? && p in s.unreadable
    ensures Enabled(s, TakeLock) && Enabled(Apply(s, TakeLock), Fail(p))
    ensures Apply(Apply(s, TakeLock), Fail(p)) == s.(worker := Idle, failed := true)
  {
  }

  lemma FirstBatchFails() returns (t: State)
    ensures Play(INDEXED, [MOVED_IN, Send, Receive, Deadline, TakeLock, Fail(["b.md"])]) == Some(t)
    ensures t == INDEXED.(disk := t.disk, unreadable := {["b.md"]}, failed := true) && ["a.md"] in t.disk
  {
    assert Enabled(INDEXED, MOVED_IN);
    hide Play, Apply, Enabled, Own;
    var s1 := Apply(INDEXED, MOVED_IN);
    DiskMoves(INDEXED, MOVED_IN);
    SendQueues(s1);
    var s2 := s1.(emitted := [], queue := [MOVED_IN.event]);
    ReceiveOpens(s2);
    var s3 := s1.(emitted := [], worker := Collecting(Absorbed(EMPTY_BATCH, MOVED_IN.event)));
    DeadlineCloses(s3);
    var s4 := s1.(emitted := [], worker := AwaitingLock);
    WalkFails(s4, ["b.md"]);
    t := s1.(emitted := [], failed := true);
    PlaySix(INDEXED, MOVED_IN, Send, Receive, Deadline, TakeLock, Fail(["b.md"]), s2, s4, t);
  }

  lemma ScanAndCommit(s: State, p: Path)
    requires s.worker == Scanning({p}, map[]) && s.initial.Done? && s.indexed && p in s.paths && !GivesWay(s, p)
    ensures Enabled(s, ScanPath(p)) && Enabled(Apply(s, ScanPath(p)), CommitPaths)
    ensures Apply(Apply(s, ScanPath(p)), CommitPaths) == s.(index := Overlay(s.index, map[p := Get(s.disk, p)]), worker := Idle)
  {
    var t := Apply(s, ScanPath(p));
    assert t.worker.todo == {};
  }

  lemma OpensToScan(s: State)
    requires s.worker.Opening? && [] !in s.unreadable && !s.initial.Stopped?
    ensures Enabled(s, Open) && Apply(s, Open) == s.(worker := Scanning(s.worker.paths, map[]))
  {
  }

  lemma SecondBatchSucceeds(s: State)
    requires s == INDEXED.(disk := s.disk, unreadable := {["b.md"]}, failed := true) && ["a.md"] in s.disk
    ensures var last := Play(s, [DELETED, Send, Receive, Deadline, Open, ScanPath(["b.md"]), CommitPaths]);
            && last.Some? && AtRest(last.value) && !last.value.overflowed && last.value.unreadable == {}
            && ["a.md"] in last.value.disk && ["a.md"] !in last.value.index
  {
    var p: Path, q: Path := ["a.md"], ["b.md"];
    assert p[0] != q[0];
    assert Enabled(s, DELETED);
    hide Play, Apply, Enabled, Own;
    var s1 := Apply(s, DELETED);
    DiskMoves(s, DELETED);
    SendQueues(s1);
    var s2 := s1.(emitted := [], queue := [DELETED.event]);
    ReceiveOpens(s2);
    assert Absorbed(EMPTY_BATCH, DELETED.event).paths == {q};
    DeadlineCloses(s1.(emitted := [], worker := Collecting(Batch(false, {q}))));
    var s4 := s1.(emitted := [], worker := Opening({q}));
    OpensToScan(s4);
    var s5 := s1.(emitted := [], worker := Scanning({q}, map[]));
    ScanAndCommit(s5, q);
    var last := s1.(emitted := [], index := Overlay(s1.index, map[q := Get(s1.disk, q)]));
    PlaySeven(s, DELETED, Send, Receive, Deadline, Open, ScanPath(q), CommitPaths, s2, s4, s5, last);
  }

  lemma PlaySeven(s: State, a: Step, b: Step, c: Step, d: Step, e: Step, f: Step, g: Step,
    t: State, u: State, v: State, w: State)
    requires Enabled(s, a) && Enabled(Apply(s, a), b) && t == Apply(Apply(s, a), b)
    requires Enabled(t, c) && Enabled(Apply(t, c), d) && u == Apply(Apply(t, c), d)
    requires Enabled(u, e) && v == Apply(u, e)
    requires Enabled(v, f) && Enabled(Apply(v, f), g) && w == Apply(Apply(v, f), g)
    ensures Play(s, [a, b, c, d, e, f, g]) == Some(w)
  {
    hide Apply, Enabled, Play;
    PlayNone(w);
    PlayTwo(v, f, g, []);
    PlayOne(u, e, [f, g]);
    PlayTwo(t, c, d, [e, f, g]);
    PlayTwo(s, a, b, [c, d, e, f, g]);
    assert [f, g] + [] == [f, g] && [e] + [f, g] == [e, f, g];
    assert [c, d] + [e, f, g] == [c, d, e, f, g] && [a, b] + [c, d, e, f, g] == [a, b, c, d, e, f, g];
  }

  // ------------------------------------------- the machine's commits are the index's

  function Revisions(v: VaultIndex.View): map<Path, Revision> {
    map p | p in v :: v[p].revision
  }

  function NoteRevision(n: Option<VaultTree.ScannedNote>): Option<Revision> {
    if n.Some? then Some(n.value.revision) else None
  }

  /** CommitPaths is what an incremental reconcile does to the revisions. */
  lemma CommitPathsIsReconcile(
    before: VaultIndex.View, changes: map<Path, Option<VaultTree.ScannedNote>>, after: VaultIndex.View)
    requires VaultIndex.Reconciled(before, changes, after)
    ensures Revisions(after) == Overlay(Revisions(before), map p | p in changes :: NoteRevision(changes[p]))
  {
    var read := map p | p in changes :: NoteRevision(changes[p]);
    forall p ensures Get(Revisions(after), p) == Get(Overlay(Revisions(before), read), p) {
      assert Get(after, p) == if p in changes then VaultIndex.Merge(Get(before, p), changes[p]) else Get(before, p);
    }
    SameMap(Revisions(after), Overlay(Revisions(before), read));
  }

  /** CommitWalk is what a full index does to the revisions. */
  lemma CommitWalkIsFullIndex(
    before: VaultIndex.View, scan: map<Path, VaultTree.ScannedNote>, after: VaultIndex.View,
    seen: map<Path, Option<Revision>>)
    requires VaultIndex.FullyIndexed(before, scan, after)
    requires scan.Keys <= seen.Keys && forall p | p in seen :: seen[p] == NoteRevision(Get(scan, p))
    ensures Revisions(after) == Rows(seen)
  {
    forall p ensures Get(Revisions(after), p) == Get(Rows(seen), p) {
      assert Get(after, p) == VaultIndex.Merge(Get(before, p), Get(scan, p));
    }
    SameMap(Revisions(after), Rows(seen));
  }

  lemma SameMap(a: map<Path, Revision>, b: map<Path, Revision>)
    requires forall p :: Get(a, p) == Get(b, p)
    ensures a == b
  {
    forall p ensures p in a <==> p in b {
      assert Get(a, p) == Get(b, p);
    }
    forall p | p in a ensures a[p] == b[p] {
      assert Get(a, p) == Get(b, p);
    }
  }

  /** What a full index of a vault cannot read: notes, and the root when it is not a directory. */
  ghost predicate IsUnreadable(env: VaultTree.Env, root: VaultTree.Node, unreadable: set<Path>) {
    forall p :: p in unreadable <==> if p == [] then !root.Dir? else VaultTree.UnreadableNote(env, root, p)
  }

  /** Something is unreadable exactly when the full index of the vault must fail over what is on disk. */
  lemma FailIsAnUnreadableNote(env: VaultTree.Env, root: VaultTree.Node, unreadable: set<Path>)
    requires VaultTree.WellFormed(root) && IsUnreadable(env, root, unreadable)
    ensures root.Dir? && VaultTree.Readable(env, root) <==> unreadable == {}
  {
    hide VaultTree.ReadNote, VaultTree.Walk, VaultTree.WellFormed, VaultTree.UnreadableNote, VaultTree.Live;
    hide VaultTree.Readable;
    if unreadable == {} {
      forall p ensures !VaultTree.UnreadableNote(env, root, p) {
        VaultTree.RootIsNoNote(env, root);
        assert p !in unreadable;
      }
      assert [] !in unreadable;
      VaultTree.ReadableWithoutUnreadable(env, root);
    } else if root.Dir? && VaultTree.Readable(env, root) {
      var p :| p in unreadable;
      VaultTree.UnreadableNoteFailsTheWalk(env, root, p);
    }
  }

  /**
   The machine's scan of a path is the classification of a link-free hint that
   names it: it reads what the disk holds, and gives way exactly where the
   classification fails or asks for a full rescan, whatever else is on disk.
   */
  lemma ScanPathIsClassification(
    env: VaultTree.Env, root: VaultTree.Node, h: VaultTree.Hint, p: Path, s: State)
    requires VaultTree.WellFormed(root) && root.Dir? && VaultTree.NoLinkAbove(root, p) && VaultIndex.Names(h, p)
    requires s.disk == map q | q in VaultIndex.Snapshot(env, root) :: VaultIndex.Snapshot(env, root)[q].revision
    requires p in s.unreadable <==> VaultTree.UnreadableNote(env, root, p)
    requires p in s.asking <==> VaultTree.Asks(root, p)
    ensures match VaultTree.ScanHint(env, root, h)
            case Change(q, note) => !GivesWay(s, p) && q == p && NoteRevision(note) == Get(s.disk, p)
            case Ignored => !GivesWay(s, p) && !VaultIndex.NotePath(p) && Get(s.disk, p) == None
            case NeedsFullRescan => p in s.asking
            case ScanFailed(_) => GivesWay(s, p)
  {
    hide VaultTree.ScanHint, VaultTree.UnreadableNote, VaultTree.Asks, VaultTree.WellFormed, VaultTree.NoLinkAbove;
    hide VaultTree.NoteAt, VaultIndex.Snapshot;
    VaultTree.ScanGivesWayIff(env, root, h.parts, p);
    VaultIndex.SnapshotAt(env, root, p);
    assert NoteRevision(Get(VaultIndex.Snapshot(env, root), p)) == Get(s.disk, p);
  }
}
