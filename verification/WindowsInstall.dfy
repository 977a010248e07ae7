/**
 The Windows install and rollback scripts: a version directory moved into place
 whole, and one atomic replacement of the pointer file that keeps the old one.
 */
module WindowsInstall {
  import opened Common

  type Version = string
  type Hash = string

  datatype PointerState = PointerState(version: Version, launcherHash: Hash)

  /** Installed versions with the hash of their launcher, and the two pointer files. */
  datatype Root = Root(versions: map<Version, Hash>, current: Option<PointerState>, previous: Option<PointerState>)

  const EMPTY := Root(map[], None, None)

  /** One atomic change: a directory move, File.Replace with its backup, or the first File.Move. */
  datatype Write =
    | Publish(version: Version, launcherHash: Hash)
    | Replace(state: PointerState)
    | First(state: PointerState)

  function Apply(r: Root, w: Write): Root {
    match w
    case Publish(v, h) => r.(versions := r.versions[v := h])
    case Replace(p) => r.(current := Some(p), previous := r.current)
    case First(p) => r.(current := Some(p))
  }

  /** Signatures, the ready marker, the manifest and the doctor report of a stored version: a verdict. */
  type Verdict = Version -> bool

  datatype Command =
    | Install(version: Version, launcherHash: Hash, staged: bool)
    | Rollback

  // ------------------------------------------------------------ the scripts

  /** Switch-GrimmorePointerState: None when a previous state stands without a current one. */
  function SwitchWrite(r: Root, p: PointerState): Option<Write> {
    if r.current.Some? then Some(Replace(p))
    else if r.previous.Some? then None
    else Some(First(p))
  }

  /** The state is of a verified version and holds its launcher's hash. */
  predicate Trusted(r: Root, ready: Verdict, p: PointerState) {
    p.version in r.versions && ready(p.version) && r.versions[p.version] == p.launcherHash
  }

  function PointerWrites(r: Root, ready: Verdict, v: Version): seq<Write> {
    if v !in r.versions || !ready(v) then []
    else if r.current.Some? && (!Trusted(r, ready, r.current.value) || r.current.value.version == v) then []
    else
      var w := SwitchWrite(r, PointerState(v, r.versions[v]));
      if w.None? then [] else [w.value]
  }

  function Plan(r: Root, ready: Verdict, c: Command): seq<Write> {
    match c
    case Install(v, h, staged) =>
      if v in r.versions then PointerWrites(r, ready, v)
      else if !staged then []
      else [Publish(v, h)] + PointerWrites(Apply(r, Publish(v, h)), ready, v)
    case Rollback =>
      if r.current.None? || r.previous.None? then []
      else if r.current.value.version == r.previous.value.version then []
      else if !Trusted(r, ready, r.current.value) || !Trusted(r, ready, r.previous.value) then []
      else [Replace(PointerState(r.previous.value.version, r.versions[r.previous.value.version]))]
  }

  function ApplyAll(r: Root, ws: seq<Write>): Root
    decreases |ws|
  {
    if ws == [] then r else ApplyAll(Apply(r, ws[0]), ws[1..])
  }

  class InstallRoot {
    var versions: map<Version, Hash>
    var current: Option<PointerState>
    var previous: Option<PointerState>

    function State(): Root
      reads this
    {
      Root(versions, current, previous)
    }

    method SwitchPointerState(p: PointerState) returns (ok: bool)
      modifies this
      ensures ok <==> SwitchWrite(old(State()), p).Some?
      ensures State() == if ok then Apply(old(State()), SwitchWrite(old(State()), p).value) else old(State())
    {
      if current.Some? {
        current, previous := Some(p), current;
      } else {
        if previous.Some? {
          return false;
        }
        current := Some(p);
      }
      ok := true;
    }

    method Install(ready: Verdict, v: Version, launcherHash: Hash, staged: bool) returns (ok: bool)
      modifies this
      ensures State() == ApplyAll(old(State()), Plan(old(State()), ready, Command.Install(v, launcherHash, staged)))
      ensures ok <==>
        && (v in old(versions) || staged) && ready(v)
        && (if old(current).None? then old(previous).None?
            else if old(current).value.version in old(versions) then
              ready(old(current).value.version) && Names(old(State()), old(current).value)
            else v == old(current).value.version && launcherHash == old(current).value.launcherHash)
      ensures ok ==> current.Some? && current.value.version == v && v in versions && ready(v)
    {
      ghost var r := State();
      if v !in versions {
        if !staged {
          return false;
        }
        versions := versions[v := launcherHash];
      }
      ghost var placed := State();
      ghost var links := PointerWrites(placed, ready, v);
      OneWrite(placed, if links == [] then Publish(v, launcherHash) else links[0]);
      assert v in r.versions || ([Publish(v, launcherHash)] + links)[1..] == links;
      if !ready(v) {
        return false;
      }
      if current.Some? && !Trusted(State(), ready, current.value) {
        return false;
      }
      ok := true;
      if current.None? || current.value.version != v {
        ok := SwitchPointerState(PointerState(v, versions[v]));
        assert ok ==> links == [SwitchWrite(placed, PointerState(v, placed.versions[v])).value];
      }
    }

    method Rollback(ready: Verdict) returns (ok: bool)
      modifies this
      ensures State() == ApplyAll(old(State()), Plan(old(State()), ready, Command.Rollback))
      ensures ok <==>
        && old(current).Some? && old(previous).Some?
        && old(current).value.version != old(previous).value.version
        && ready(old(current).value.version) && Names(old(State()), old(current).value)
        && ready(old(previous).value.version) && Names(old(State()), old(previous).value)
      ensures ok ==> current == old(previous) && previous == old(current)
      ensures !ok ==> State() == old(State())
    {
      if current.None? || previous.None? {
        return false;
      }
      if current.value.version == previous.value.version {
        return false;
      }
      if !Trusted(State(), ready, current.value) || !Trusted(State(), ready, previous.value) {
        return false;
      }
      ghost var r := State();
      var p := PointerState(previous.value.version, versions[previous.value.version]);
      ok := SwitchPointerState(p);
      OneWrite(r, Replace(p));
    }
  }

  lemma OneWrite(r: Root, w: Write)
    ensures ApplyAll(r, [w]) == Apply(r, w)
  {
    assert [w][1..] == [];
  }

  // ------------------------------------------------------------ runs

  /** A run of the scripts, one atomic write at a time; a crash drops what is left to write. */
  datatype State = State(root: Root, todo: seq<Write>)

  datatype Step = Launch(ready: Verdict, command: Command) | Advance | Kill

  function Next(s: State, e: Step): Option<State> {
    match e
    case Launch(ready, c) => if s.todo == [] then Some(s.(todo := Plan(s.root, ready, c))) else None
    case Advance => if s.todo == [] then None else Some(State(Apply(s.root, s.todo[0]), s.todo[1..]))
    case Kill => Some(s.(todo := []))
  }

  ghost predicate IsRun(ss: seq<State>, es: seq<Step>) {
    && |ss| == |es| + 1 && ss[0] == State(EMPTY, [])
    && forall i :: 0 <= i < |es| ==> Next(ss[i], es[i]) == Some(ss[i + 1])
  }

  /** The state is of an installed version and holds its launcher's hash. */
  predicate Names(r: Root, p: PointerState) {
    p.version in r.versions && r.versions[p.version] == p.launcherHash
  }

  predicate RootOk(r: Root) {
    && (r.current.Some? ==> Names(r, r.current.value))
    && (r.previous.Some? ==> Names(r, r.previous.value) && r.current.Some? && r.current.value.version != r.previous.value.version)
  }

  predicate WriteOk(r: Root, w: Write) {
    match w
    case Publish(v, _) => v !in r.versions
    case Replace(p) => Names(r, p) && r.current.Some? && r.current.value.version != p.version
    case First(p) => Names(r, p) && r.current.None? && r.previous.None?
  }

  predicate Safe(r: Root, todo: seq<Write>)
    decreases |todo|
  {
    todo != [] ==> WriteOk(r, todo[0]) && Safe(Apply(r, todo[0]), todo[1..])
  }

  lemma WriteKeepsRootOk(r: Root, w: Write)
    requires RootOk(r) && WriteOk(r, w)
    ensures RootOk(Apply(r, w))
  {
  }

  lemma LinkIsSafe(r: Root, ready: Verdict, v: Version)
    requires RootOk(r)
    ensures Safe(r, PointerWrites(r, ready, v))
  {
    var ws := PointerWrites(r, ready, v);
    if ws != [] {
      assert ws[1..] == [];
      assert Safe(Apply(r, ws[0]), []);
    }
  }

  lemma PlanIsSafe(r: Root, ready: Verdict, c: Command)
    requires RootOk(r)
    ensures Safe(r, Plan(r, ready, c))
  {
    match c
    case Install(v, h, staged) =>
      if v in r.versions {
        LinkIsSafe(r, ready, v);
      } else if staged {
        var placed := Apply(r, Publish(v, h));
        WriteKeepsRootOk(r, Publish(v, h));
        LinkIsSafe(placed, ready, v);
        var links := PointerWrites(placed, ready, v);
        assert ([Publish(v, h)] + links)[1..] == links;
      }
    case Rollback =>
      var ws := Plan(r, ready, Rollback);
      if ws != [] {
        assert ws[1..] == [] && Safe(Apply(r, ws[0]), []);
      }
  }

  predicate Sound(s: State) {
    RootOk(s.root) && Safe(s.root, s.todo)
  }

  lemma StepKeepsSound(s: State, e: Step)
    requires Sound(s) && Next(s, e).Some?
    ensures Sound(Next(s, e).value)
  {
    match e
    case Launch(ready, c) => PlanIsSafe(s.root, ready, c);
    case Advance => WriteKeepsRootOk(s.root, s.todo[0]);
    case Kill =>
  }

  /** What one atomic write does to the pair: nothing, the first pointer, or a move to another version. */
  lemma WriteMovesThePair(r: Root, w: Write)
    requires RootOk(r) && WriteOk(r, w)
    ensures var t := Apply(r, w);
            if t.current == r.current then t.previous == r.previous else t.previous == r.current
  {
  }

  /** The pointer `current` held before the one it holds now. */
  function LastNamed(ss: seq<State>): Option<PointerState>
    requires ss != []
    decreases |ss|
  {
    if |ss| == 1 then None
    else
      var now, before := ss[|ss| - 1].root.current, ss[|ss| - 2].root.current;
      if now != before then before else LastNamed(ss[..|ss| - 1])
  }

  /**
   Whatever crashes: `current` and `previous` name installed versions, they
   differ, and `previous` is the pointer `current` last held. No exception is
   needed, because one replacement moves both.
   */
  lemma {:induction false} PairSurvivesEveryCrash(ss: seq<State>, es: seq<Step>, n: nat)
    requires IsRun(ss, es) && n <= |es|
    ensures Sound(ss[n])
    ensures ss[n].root.previous == LastNamed(ss[..n + 1])
    ensures n > 0 && ss[n - 1].root.current.Some? ==> ss[n].root.current.Some?
    decreases n
  {
    hide Sound, Plan, Safe;
    if n == 0 {
      EmptyIsSound();
    } else {
      PairSurvivesEveryCrash(ss, es, n - 1);
      var s, e := ss[n - 1], es[n - 1];
      assert Next(s, e) == Some(ss[n]);
      StepKeepsSound(s, e);
      assert ss[..n + 1][..n] == ss[..n];
      if e.Advance? {
        FirstWriteOk(s);
        WriteMovesThePair(s.root, s.todo[0]);
      }
    }
  }

  lemma EmptyIsSound()
    ensures Sound(State(EMPTY, []))
  {
  }

  lemma FirstWriteOk(s: State)
    requires Sound(s) && s.todo != []
    ensures RootOk(s.root) && WriteOk(s.root, s.todo[0])
  {
  }

  function Completed(r: Root, ready: Verdict, c: Command): Root {
    ApplyAll(r, Plan(r, ready, c))
  }

  /** Two rollbacks restore both pointer files, hashes included, and nothing else was touched. */
  lemma RollbackTwice(r: Root, ready: Verdict)
    requires RootOk(r) && r.current.Some? && r.previous.Some?
    requires ready(r.current.value.version) && ready(r.previous.value.version)
    ensures var once := Completed(r, ready, Rollback);
            && once.current == r.previous && once.previous == r.current
            && Completed(once, ready, Rollback) == r
  {
    OneWrite(r, Replace(r.previous.value));
    var once := Completed(r, ready, Rollback);
    OneWrite(once, Replace(once.previous.value));
  }

  /**
   A completed installation makes the version current exactly when its checks
   pass and the current pointer is of a verified version and holds its hash, or
   no pointer was ever written. The pair then moves in one step, and the new
   pointer holds the hash of the launcher that is in place.
   */
  lemma InstallSucceedsIff(r: Root, ready: Verdict, v: Version, h: Hash, staged: bool)
    ensures var t := Completed(r, ready, Install(v, h, staged));
            && (t.current.Some? && t.current.value.version == v
                <==> || (r.current.Some? && r.current.value.version == v)
                     || ((v in r.versions || staged) && ready(v)
                         && (if r.current.Some? then ready(r.current.value.version) && Names(r, r.current.value)
                             else r.previous.None?)))
            && t.versions == (if v in r.versions || !staged then r.versions else r.versions[v := h])
            && (t.current != r.current ==>
                  v in t.versions && t.current == Some(PointerState(v, t.versions[v])) && t.previous == r.current)
            && (t.current == r.current ==> t.previous == r.previous)
  {
    if v in r.versions || staged {
      var placed := if v in r.versions then r else Apply(r, Publish(v, h));
      PlacedThenLinked(r, ready, v, h);
      LinkEffect(placed, ready, v);
    }
  }

  /** A completed rollback exchanges the pointers exactly when they are of two verified versions and hold their hashes. */
  lemma RollbackMovesIff(r: Root, ready: Verdict)
    ensures Completed(r, ready, Rollback) ==
              if && r.current.Some? && r.previous.Some? && r.current.value.version != r.previous.value.version
                 && ready(r.current.value.version) && Names(r, r.current.value)
                 && ready(r.previous.value.version) && Names(r, r.previous.value)
              then Root(r.versions, r.previous, r.current) else r
  {
    if r.previous.Some? && r.previous.value.version in r.versions {
      OneWrite(r, Replace(PointerState(r.previous.value.version, r.versions[r.previous.value.version])));
    }
  }

  lemma PlacedThenLinked(r: Root, ready: Verdict, v: Version, h: Hash)
    ensures var placed := if v in r.versions then r else Apply(r, Publish(v, h));
            forall staged :: v in r.versions || staged ==>
              Completed(r, ready, Install(v, h, staged)) == ApplyAll(placed, PointerWrites(placed, ready, v))
  {
    var links := PointerWrites(Apply(r, Publish(v, h)), ready, v);
    assert ([Publish(v, h)] + links)[1..] == links;
  }

  lemma LinkEffect(r: Root, ready: Verdict, v: Version)
    ensures var ws := PointerWrites(r, ready, v);
            |ws| <= 1 && ApplyAll(r, ws) == if ws == [] then r else Apply(r, ws[0])
  {
    var ws := PointerWrites(r, ready, v);
    if ws != [] {
      OneWrite(r, ws[0]);
      assert ws == [ws[0]];
    }
  }
}
