/**
 The Linux install and rollback scripts: version directories with a ready
 marker written last, and two symbolic links replaced one after the other.
 */
module LinuxInstall {
  import opened Common

  type Version = string

  datatype File = Daemon | Launcher | Manifest | Signature | Ready

  const PAYLOAD: set<File> := {Daemon, Launcher}
  const COMPLETE: set<File> := {Daemon, Launcher, Manifest, Signature, Ready}

  datatype Root = Root(versions: map<Version, set<File>>, current: Option<Version>, previous: Option<Version>)

  const EMPTY := Root(map[], None, None)

  /** One change another process, or the next run, could see. Links are replaced by a rename. */
  datatype Write =
    | RemoveTree(version: Version)
    | MovePayload(version: Version)
    | AddFile(version: Version, file: File)
    | Harden(version: Version)
    | SetPrevious(version: Version)
    | SetCurrent(version: Version)

  function Files(r: Root, v: Version): set<File> {
    if v in r.versions then r.versions[v] else {}
  }

  function Apply(r: Root, w: Write): Root {
    match w
    case RemoveTree(v) => r.(versions := r.versions - {v})
    case MovePayload(v) => r.(versions := r.versions[v := PAYLOAD])
    case AddFile(v, f) => r.(versions := r.versions[v := Files(r, v) + {f}])
    case Harden(_) => r
    case SetPrevious(v) => r.(previous := Some(v))
    case SetCurrent(v) => r.(current := Some(v))
  }

  function ApplyAll(r: Root, ws: seq<Write>): Root
    decreases |ws|
  {
    if ws == [] then r else ApplyAll(Apply(r, ws[0]), ws[1..])
  }

  /** pointer_target: a link to a version directory that has its marker. */
  predicate ValidPointer(r: Root, pointer: Option<Version>) {
    pointer.Some? && Ready in Files(r, pointer.value)
  }

  // ------------------------------------------------------------ the scripts

  datatype Command =
    | Install(version: Version, matches: bool, healthy: bool)
    | Rollback(healthy: bool)

  /** validate_ready_version: every file is compared or run, so none may be missing. */
  predicate Validated(r: Root, v: Version, matches: bool) {
    matches && COMPLETE <= Files(r, v)
  }

  function Published(v: Version): seq<Write> {
    [MovePayload(v), AddFile(v, Manifest), AddFile(v, Signature), AddFile(v, Ready), Harden(v)]
  }

  /** What install.sh writes under versions/. */
  function StageWrites(r: Root, v: Version, healthy: bool): seq<Write> {
    if Ready in Files(r, v) then []
    else (if v in r.versions then [RemoveTree(v)] else []) + (if healthy then Published(v) else [])
  }

  /** The version is in place and its pointers may be switched; otherwise the script has died. */
  predicate Staged(r: Root, v: Version, matches: bool, healthy: bool) {
    if Ready in Files(r, v) then Validated(r, v, matches) else healthy
  }

  /** What both checks come to: a version marked ready must be whole and the verified one, any other is made anew from a healthy payload. */
  ghost predicate Passes(r: Root, v: Version, matches: bool, healthy: bool) {
    if MarkedReady(r, v) then matches && {Daemon, Launcher, Manifest, Signature} <= r.versions[v] else healthy
  }

  ghost predicate MarkedReady(r: Root, v: Version) {
    v in r.versions && Ready in r.versions[v]
  }

  function PointerWrites(r: Root, v: Version): seq<Write> {
    if r.current.None? then [SetCurrent(v)]
    else if !ValidPointer(r, r.current) then []
    else if r.current.value == v then []
    else [SetPrevious(r.current.value), SetCurrent(v)]
  }

  /** Everything a command writes, from what it finds; the checks it makes between writes depend on nothing it wrote. */
  function Plan(r: Root, c: Command): seq<Write> {
    match c
    case Install(v, matches, healthy) =>
      var stage := StageWrites(r, v, healthy);
      if !Staged(r, v, matches, healthy) then stage
      else stage + PointerWrites(ApplyAll(r, stage), v)
    case Rollback(healthy) =>
      if !ValidPointer(r, r.current) || !ValidPointer(r, r.previous) || !healthy then []
      else [SetCurrent(r.previous.value), SetPrevious(r.current.value)]
  }

  class InstallRoot {
    var versions: map<Version, set<File>>
    var current: Option<Version>
    var previous: Option<Version>

    function State(): Root
      reads this
    {
      Root(versions, current, previous)
    }

    method SetLink(isCurrent: bool, target: Version)
      modifies this
      ensures State() == Apply(old(State()), if isCurrent then SetCurrent(target) else SetPrevious(target))
    {
      if isCurrent {
        current := Some(target);
      } else {
        previous := Some(target);
      }
    }

    /** The version directory: checked if it is marked ready, else made anew with the marker last. */
    method Stage(v: Version, matches: bool, healthy: bool) returns (ok: bool)
      modifies this
      ensures State() == ApplyAll(old(State()), StageWrites(old(State()), v, healthy))
      ensures ok <==> Staged(old(State()), v, matches, healthy)
      ensures ok ==> Complete(State(), v)
    {
      ghost var r := State();
      if v in versions {
        if Ready in versions[v] {
          return matches && COMPLETE <= versions[v];
        }
        versions := versions - {v};
      }
      if !healthy {
        TwoWrites(r, RemoveTree(v), RemoveTree(v));
        return false;
      }
      StageEffect(r, v);
      hide ApplyAll, StageWrites;
      versions := versions[v := {Daemon, Launcher}];
      versions := versions[v := versions[v] + {Manifest}];
      versions := versions[v := versions[v] + {Signature}];
      versions := versions[v := versions[v] + {Ready}];
      assert versions[v] == COMPLETE && versions == r.versions[v := COMPLETE];
      ok := true;
    }

    /** The two links, previous first; refused when the current link is not a ready version. */
    method Point(v: Version) returns (ok: bool)
      modifies this
      ensures State() == ApplyAll(old(State()), PointerWrites(old(State()), v))
      ensures ok <==> old(current).None? || MarkedReady(old(State()), old(current).value)
      ensures ok ==> current == Some(v)
    {
      PairEffect(State(), v);
      if current.Some? && !ValidPointer(State(), current) {
        return false;
      }
      if current != Some(v) {
        var target := current;
        if target.Some? {
          SetLink(false, target.value);
        }
        SetLink(true, v);
      }
      ok := true;
    }

    /** install.sh, from the existing version directory to the pointers. */
    method Install(v: Version, matches: bool, healthy: bool) returns (ok: bool)
      modifies this
      ensures State() == ApplyAll(old(State()), Plan(old(State()), Command.Install(v, matches, healthy)))
      ensures ok <==>
        && Passes(old(State()), v, matches, healthy)
        && (old(current).None? || old(current) == Some(v) || MarkedReady(old(State()), old(current).value))
      ensures ok ==> current == Some(v)
    {
      hide ApplyAll, StageWrites, PointerWrites, Staged, Passes;
      ghost var r := State();
      ok := Stage(v, matches, healthy);
      StagedIfPasses(r, v, matches, healthy);
      if ok {
        ApplyConcat(r, StageWrites(r, v, healthy), PointerWrites(State(), v));
        ok := Point(v);
      }
    }

    method Rollback(healthy: bool) returns (ok: bool)
      modifies this
      ensures State() == ApplyAll(old(State()), Plan(old(State()), Command.Rollback(healthy)))
      ensures ok <==>
        && healthy && old(current).Some? && old(previous).Some?
        && MarkedReady(old(State()), old(current).value) && MarkedReady(old(State()), old(previous).value)
      ensures ok ==> current == old(previous) && previous == old(current)
      ensures !ok ==> State() == old(State())
    {
      if !ValidPointer(State(), current) || !ValidPointer(State(), previous) || !healthy {
        return false;
      }
      var from, to := current.value, previous.value;
      ghost var r := State();
      SetLink(true, to);
      SetLink(false, from);
      TwoWrites(r, SetCurrent(to), SetPrevious(from));
      ok := true;
    }
  }

  lemma StagedIfPasses(r: Root, v: Version, matches: bool, healthy: bool)
    ensures Staged(r, v, matches, healthy) <==> Passes(r, v, matches, healthy)
    ensures var t := ApplyAll(r, StageWrites(r, v, healthy));
            && t.current == r.current && t.previous == r.previous
            && (Passes(r, v, matches, healthy) ==> forall u :: MarkedReady(t, u) <==> u == v || MarkedReady(r, u))
  {
    StageEffects(r, v, healthy);
    hide ApplyAll, StageWrites;
  }

  lemma TwoWrites(r: Root, a: Write, b: Write)
    ensures ApplyAll(r, [a]) == Apply(r, a)
    ensures ApplyAll(r, [a, b]) == Apply(Apply(r, a), b)
  {
    assert [a, b][1..] == [b] && [b][1..] == [] && [a][1..] == [];
    assert ApplyAll(Apply(r, a), [b]) == Apply(Apply(r, a), b);
  }

  lemma PairEffect(r: Root, v: Version)
    ensures r.current.None? ==> ApplyAll(r, PointerWrites(r, v)) == Apply(r, SetCurrent(v))
    ensures ValidPointer(r, r.current) && r.current.value != v ==>
              ApplyAll(r, PointerWrites(r, v)) == Apply(Apply(r, SetPrevious(r.current.value)), SetCurrent(v))
    ensures r.current.Some? && (!ValidPointer(r, r.current) || r.current.value == v) ==> ApplyAll(r, PointerWrites(r, v)) == r
  {
    TwoWrites(r, SetCurrent(v), SetCurrent(v));
    if r.current.Some? {
      TwoWrites(r, SetPrevious(r.current.value), SetCurrent(v));
    }
  }

  lemma {:induction false} ApplyConcat(r: Root, a: seq<Write>, b: seq<Write>)
    ensures ApplyAll(r, a + b) == ApplyAll(ApplyAll(r, a), b)
    decreases |a|
  {
    if a == [] {
      assert a + b == b;
    } else {
      assert (a + b)[1..] == a[1..] + b;
      ApplyConcat(Apply(r, a[0]), a[1..], b);
    }
  }

  lemma PublishedEffect(r: Root, v: Version)
    ensures ApplyAll(r, Published(v)) == r.(versions := r.versions[v := COMPLETE])
  {
    var a, b, c, d, e := MovePayload(v), AddFile(v, Manifest), AddFile(v, Signature), AddFile(v, Ready), Harden(v);
    assert Published(v) == [a, b] + ([c, d] + [e]);
    PublishedSteps(r, v);
    hide ApplyAll, Published, Apply;
    ApplyConcat(r, [a, b], [c, d] + [e]);
    TwoWrites(r, a, b);
    var r1 := Apply(Apply(r, a), b);
    ApplyConcat(r1, [c, d], [e]);
    TwoWrites(r1, c, d);
    TwoWrites(Apply(Apply(r1, c), d), e, e);
  }

  lemma StageEffect(r: Root, v: Version)
    requires Ready !in Files(r, v)
    ensures ApplyAll(r, StageWrites(r, v, true)) == r.(versions := r.versions[v := COMPLETE])
  {
    PublishedEffect(r, v);
    if v in r.versions {
      RemovedThenPublished(r, v);
    } else {
      assert [] + Published(v) == Published(v);
    }
  }

  lemma RemovedThenPublished(r: Root, v: Version)
    ensures ApplyAll(r, [RemoveTree(v)] + Published(v)) == r.(versions := r.versions[v := COMPLETE])
  {
    ApplyConcat(r, [RemoveTree(v)], Published(v));
    TwoWrites(r, RemoveTree(v), RemoveTree(v));
    PublishedEffect(Apply(r, RemoveTree(v)), v);
    hide ApplyAll, Published;
    assert (r.versions - {v})[v := COMPLETE] == r.versions[v := COMPLETE];
  }

  // ------------------------------------------------------------ runs with crashes

  /** The lock is held by at most one script; what it has still to write. */
  datatype State = State(root: Root, todo: seq<Write>)

  datatype Step =
    | Launch(command: Command)
    | Advance
    | Kill(kept: set<File>)
    | Fail

  /** The exit trap: a version directory made by this run and not yet marked done is removed. */
  function Cleanup(todo: seq<Write>): seq<Write> {
    if todo != [] && (todo[0].AddFile? || todo[0].Harden?) then [RemoveTree(todo[0].version)] else []
  }

  /** Killed while removing a tree, any of its files may be left; any other write happens or does not. */
  function Killed(s: State, kept: set<File>): Root {
    if s.todo != [] && s.todo[0].RemoveTree? && s.todo[0].version in s.root.versions then
      s.root.(versions := s.root.versions[s.todo[0].version := s.root.versions[s.todo[0].version] * kept])
    else s.root
  }

  function Next(s: State, e: Step): Option<State> {
    match e
    case Launch(c) => if s.todo == [] then Some(s.(todo := Plan(s.root, c))) else None
    case Advance => if s.todo == [] then None else Some(State(Apply(s.root, s.todo[0]), s.todo[1..]))
    case Kill(kept) => Some(State(Killed(s, kept), []))
    case Fail => Some(s.(todo := Cleanup(s.todo)))
  }

  predicate Complete(r: Root, v: Version) {
    COMPLETE <= Files(r, v)
  }

  predicate Points(r: Root, v: Version) {
    r.current == Some(v) || r.previous == Some(v)
  }

  /** Both links, when set, name complete versions. */
  predicate RootOk(r: Root) {
    (r.current.Some? ==> Complete(r, r.current.value)) && (r.previous.Some? ==> Complete(r, r.previous.value))
  }

  predicate WriteOk(r: Root, w: Write) {
    if w.SetCurrent? || w.SetPrevious? then Complete(r, w.version) else !Points(r, w.version)
  }

  predicate Distinct(r: Root) {
    r.previous.Some? ==> r.current.Some? && r.current != r.previous
  }

  /** One of the two links has been replaced and the other not yet. */
  predicate Between(r: Root, todo: seq<Write>) {
    |todo| == 1 && (todo[0].SetPrevious? || (todo[0].SetCurrent? && r.previous.Some?))
  }

  /** Every write still to come is a safe one, and the links are equal only between the two of them. */
  predicate Safe(r: Root, todo: seq<Write>)
    decreases |todo|
  {
    && (if Between(r, todo) then r.current.Some? && r.current == r.previous else Distinct(r))
    && (todo != [] ==> WriteOk(r, todo[0]) && Safe(Apply(r, todo[0]), todo[1..]))
  }

  lemma WriteKeepsRootOk(r: Root, w: Write)
    requires RootOk(r) && WriteOk(r, w)
    ensures RootOk(Apply(r, w))
    ensures w.SetCurrent? ==> Complete(Apply(r, w), w.version)
  {
  }

  lemma SafeLinks(r: Root, v: Version)
    requires RootOk(r) && Distinct(r) && Complete(r, v)
    ensures Safe(r, PointerWrites(r, v))
  {
    var ws := PointerWrites(r, v);
    if |ws| == 1 {
      assert ws[1..] == [];
    } else if |ws| == 2 {
      var r1 := Apply(r, ws[0]);
      assert ws[1..] == [SetCurrent(v)] && ws[1..][1..] == [];
      assert Safe(Apply(r1, SetCurrent(v)), []);
      assert Safe(r1, [SetCurrent(v)]);
    }
  }

  lemma SafeOne(r: Root, w: Write, rest: seq<Write>)
    requires !w.SetCurrent? && !w.SetPrevious? && Distinct(r) && !Points(r, w.version)
    requires Safe(Apply(r, w), rest)
    ensures Safe(r, [w] + rest)
  {
    assert ([w] + rest)[1..] == rest;
  }

  lemma SafePublished(r: Root, v: Version, rest: seq<Write>)
    requires Distinct(r) && !Points(r, v)
    requires Safe(r.(versions := r.versions[v := COMPLETE]), rest)
    ensures Safe(r, Published(v) + rest)
  {
    PublishedSteps(r, v);
    PublishedPlus(v, rest);
    hide Safe, Distinct, Points, Apply, Published;
    var a, b, c, d, e := MovePayload(v), AddFile(v, Manifest), AddFile(v, Signature), AddFile(v, Ready), Harden(v);
    var r1 := Apply(r, a);
    var r2 := Apply(r1, b);
    var r3 := Apply(r2, c);
    var r4 := Apply(r3, d);
    LinksAlone(r, a);
    LinksAlone(r1, b);
    LinksAlone(r2, c);
    LinksAlone(r3, d);
    SafeOne(r4, e, rest);
    SafeOne(r3, d, [e] + rest);
    SafeOne(r2, c, [d] + ([e] + rest));
    SafeOne(r1, b, [c] + ([d] + ([e] + rest)));
    SafeOne(r, a, [b] + ([c] + ([d] + ([e] + rest))));
  }

  lemma PublishedPlus(v: Version, rest: seq<Write>)
    ensures Published(v) + rest
         == [MovePayload(v)] + ([AddFile(v, Manifest)] + ([AddFile(v, Signature)] + ([AddFile(v, Ready)] + ([Harden(v)] + rest))))
  {
  }

  lemma LinksAlone(r: Root, w: Write)
    requires !w.SetCurrent? && !w.SetPrevious?
    ensures Distinct(Apply(r, w)) == Distinct(r) && forall v :: Points(Apply(r, w), v) == Points(r, v)
  {
  }

  lemma PublishedSteps(r: Root, v: Version)
    ensures var r4 := Apply(Apply(Apply(Apply(r, MovePayload(v)), AddFile(v, Manifest)), AddFile(v, Signature)), AddFile(v, Ready));
            Apply(r4, Harden(v)) == r.(versions := r.versions[v := COMPLETE])
  {
    assert PAYLOAD + {Manifest} + {Signature} + {Ready} == COMPLETE;
    assert r.versions[v := PAYLOAD][v := PAYLOAD + {Manifest}][v := PAYLOAD + {Manifest} + {Signature}][v := COMPLETE]
           == r.versions[v := COMPLETE];
  }

  /** The plan of either script, from a sound root, is safe in every prefix. */
  lemma PlanIsSafe(r: Root, c: Command)
    requires RootOk(r) && Distinct(r)
    ensures Safe(r, Plan(r, c))
  {
    match c
    case Rollback(healthy) => SafeRollback(r, healthy);
    case Install(v, matches, healthy) =>
      if Ready in Files(r, v) {
        if Validated(r, v, matches) {
          SafeLinks(r, v);
          assert [] + PointerWrites(r, v) == PointerWrites(r, v);
        }
      } else {
        SafeInstall(r, v, healthy);
      }
  }

  lemma SafeRollback(r: Root, healthy: bool)
    requires RootOk(r) && Distinct(r)
    ensures Safe(r, Plan(r, Rollback(healthy)))
  {
    var ws := Plan(r, Rollback(healthy));
    if ws != [] {
      var r1 := Apply(r, ws[0]);
      assert ws[1..] == [ws[1]] && ws[1..][1..] == [];
      assert Safe(Apply(r1, ws[1]), []);
      assert Safe(r1, [ws[1]]);
    }
  }

  lemma SafeInstall(r: Root, v: Version, healthy: bool)
    requires RootOk(r) && Distinct(r) && Ready !in Files(r, v)
    ensures Safe(r, Plan(r, Install(v, true, healthy))) && Plan(r, Install(v, false, healthy)) == Plan(r, Install(v, true, healthy))
  {
    var done := r.(versions := r.versions[v := COMPLETE]);
    var links := PointerWrites(done, v);
    assert RootOk(done) && Distinct(done) && Complete(done, v);
    SafeLinks(done, v);
    var clean := r.(versions := r.versions - {v});
    assert clean.versions[v := COMPLETE] == done.versions;
    hide Safe;
    if healthy {
      StageEffect(r, v);
      if v in r.versions {
        SafePublished(clean, v, links);
        SafeOne(r, RemoveTree(v), Published(v) + links);
        assert StageWrites(r, v, true) + links == [RemoveTree(v)] + (Published(v) + links);
      } else {
        SafePublished(r, v, links);
        assert StageWrites(r, v, true) + links == Published(v) + links;
      }
    } else {
      SafeNothing(clean);
      SafeNothing(r);
      if v in r.versions {
        SafeOne(r, RemoveTree(v), []);
        assert StageWrites(r, v, false) == [RemoveTree(v)] + [];
      } else {
        assert StageWrites(r, v, false) == [];
      }
    }
  }

  lemma SafeNothing(r: Root)
    requires Distinct(r)
    ensures Safe(r, [])
  {
  }

  // ------------------------------------------------------------ what crashes cannot break

  /** Writes left to do, without regard to whether the links differ: enough for what a crash may leave behind. */
  predicate SafeWrites(r: Root, todo: seq<Write>)
    decreases |todo|
  {
    todo != [] ==> WriteOk(r, todo[0]) && SafeWrites(Apply(r, todo[0]), todo[1..])
  }

  lemma {:induction false} SafeIsSafeWrites(r: Root, todo: seq<Write>)
    requires Safe(r, todo)
    ensures SafeWrites(r, todo)
    decreases |todo|
  {
    if todo != [] {
      SafeIsSafeWrites(Apply(r, todo[0]), todo[1..]);
    }
  }

  lemma SafeWritesOne(r: Root, w: Write, rest: seq<Write>)
    requires !w.SetCurrent? && !w.SetPrevious? && !Points(r, w.version) && SafeWrites(Apply(r, w), rest)
    ensures SafeWrites(r, [w] + rest)
  {
    assert ([w] + rest)[1..] == rest;
  }

  /** The links of any root with complete pointers can be written safely, even if a crash left them equal. */
  lemma LinkWritesSafe(r: Root, v: Version)
    requires RootOk(r) && Complete(r, v)
    ensures SafeWrites(r, PointerWrites(r, v))
  {
    var ws := PointerWrites(r, v);
    if ws != [] {
      var r1 := Apply(r, ws[0]);
      assert SafeWrites(Apply(r1, SetCurrent(v)), []);
      assert |ws| == 2 ==> ws[1..] == [SetCurrent(v)] && [SetCurrent(v)][1..] == [];
      assert |ws| == 1 ==> ws[1..] == [];
      assert SafeWrites(r1, ws[1..]);
    }
  }

  lemma PublishSafe(r: Root, v: Version, rest: seq<Write>)
    requires !Points(r, v) && SafeWrites(r.(versions := r.versions[v := COMPLETE]), rest)
    ensures SafeWrites(r, Published(v) + rest)
  {
    PublishedSteps(r, v);
    PublishedPlus(v, rest);
    hide SafeWrites, Points, Apply, Published;
    var a, b, c, d, e := MovePayload(v), AddFile(v, Manifest), AddFile(v, Signature), AddFile(v, Ready), Harden(v);
    var r1 := Apply(r, a);
    var r2 := Apply(r1, b);
    var r3 := Apply(r2, c);
    var r4 := Apply(r3, d);
    LinksAlone(r, a);
    LinksAlone(r1, b);
    LinksAlone(r2, c);
    LinksAlone(r3, d);
    SafeWritesOne(r4, e, rest);
    SafeWritesOne(r3, d, [e] + rest);
    SafeWritesOne(r2, c, [d] + ([e] + rest));
    SafeWritesOne(r1, b, [c] + ([d] + ([e] + rest)));
    SafeWritesOne(r, a, [b] + ([c] + ([d] + ([e] + rest))));
  }

  lemma PlanWritesSafe(r: Root, c: Command)
    requires RootOk(r)
    ensures SafeWrites(r, Plan(r, c))
  {
    match c
    case Rollback(healthy) => RollbackWritesSafe(r, healthy);
    case Install(v, matches, healthy) =>
      if Ready in Files(r, v) {
        if Validated(r, v, matches) {
          LinkWritesSafe(r, v);
          assert [] + PointerWrites(r, v) == PointerWrites(r, v);
        }
      } else {
        InstallWritesSafe(r, v, matches, healthy);
      }
  }

  lemma RollbackWritesSafe(r: Root, healthy: bool)
    requires RootOk(r)
    ensures SafeWrites(r, Plan(r, Rollback(healthy)))
  {
    var ws := Plan(r, Rollback(healthy));
    if ws != [] {
      var r1 := Apply(r, ws[0]);
      assert ws[1..] == [ws[1]] && ws[1..][1..] == [];
      assert SafeWrites(Apply(r1, ws[1]), []);
      assert SafeWrites(r1, [ws[1]]);
    }
  }

  lemma InstallWritesSafe(r: Root, v: Version, matches: bool, healthy: bool)
    requires RootOk(r) && Ready !in Files(r, v)
    ensures SafeWrites(r, Plan(r, Install(v, matches, healthy)))
  {
    var done := r.(versions := r.versions[v := COMPLETE]);
    assert RootOk(done) && Complete(done, v) && !Points(r, v);
    if healthy {
      var links := PointerWrites(done, v);
      StageEffect(r, v);
      LinkWritesSafe(done, v);
      hide SafeWrites, PointerWrites;
      StageThenSafe(r, v, links);
    } else {
      RemovalSafe(r, v);
    }
  }

  lemma RemovalSafe(r: Root, v: Version)
    requires !Points(r, v) && Ready !in Files(r, v)
    ensures SafeWrites(r, StageWrites(r, v, false))
  {
    assert SafeWrites(r, []) && SafeWrites(Apply(r, RemoveTree(v)), []);
    SafeWritesOne(r, RemoveTree(v), []);
    assert StageWrites(r, v, false) == if v in r.versions then [RemoveTree(v)] + [] else [];
  }

  lemma StageThenSafe(r: Root, v: Version, links: seq<Write>)
    requires !Points(r, v) && Ready !in Files(r, v)
    requires SafeWrites(r.(versions := r.versions[v := COMPLETE]), links)
    ensures SafeWrites(r, StageWrites(r, v, true) + links)
  {
    hide SafeWrites;
    if v in r.versions {
      var clean := Apply(r, RemoveTree(v));
      assert clean.versions[v := COMPLETE] == r.versions[v := COMPLETE];
      PublishSafe(clean, v, links);
      SafeWritesOne(r, RemoveTree(v), Published(v) + links);
      assert StageWrites(r, v, true) + links == [RemoveTree(v)] + (Published(v) + links);
    } else {
      PublishSafe(r, v, links);
      assert StageWrites(r, v, true) + links == Published(v) + links;
    }
  }

  predicate Sound(s: State) {
    RootOk(s.root) && SafeWrites(s.root, s.todo)
  }

  lemma StepKeepsSound(s: State, e: Step)
    requires Sound(s) && Next(s, e).Some?
    ensures Sound(Next(s, e).value)
    ensures s.root.current.Some? ==> Next(s, e).value.root.current.Some?
  {
    match e
    case Launch(c) => PlanWritesSafe(s.root, c);
    case Advance => WriteKeepsRootOk(s.root, s.todo[0]);
    case Kill(_) =>
    case Fail =>
      if Cleanup(s.todo) != [] {
        assert Cleanup(s.todo)[1..] == [];
      }
  }

  /** Any install and rollback commands, with a crash or a failing command at any point of any of them. */
  ghost predicate IsRun(ss: seq<State>, es: seq<Step>) {
    && |ss| == |es| + 1 && ss[0] == State(EMPTY, [])
    && forall i :: 0 <= i < |es| ==> Next(ss[i], es[i]) == Some(ss[i + 1])
  }

  lemma {:induction false} SoundHolds(ss: seq<State>, es: seq<Step>, n: nat)
    requires IsRun(ss, es) && n <= |es|
    ensures Sound(ss[n])
    decreases n
  {
    hide Next, Sound;
    if n > 0 {
      SoundHolds(ss, es, n - 1);
      assert Next(ss[n - 1], es[n - 1]) == Some(ss[n]);
      StepKeepsSound(ss[n - 1], es[n - 1]);
    } else {
      EmptyIsSound();
    }
  }

  lemma EmptyIsSound()
    ensures Sound(State(EMPTY, [])) && Safe(EMPTY, [])
  {
  }

  /** At every crash point `current`, once set, stays set and names a version with its whole payload and its marker. */
  lemma {:induction false} CurrentIsAlwaysComplete(ss: seq<State>, es: seq<Step>, i: nat, n: nat)
    requires IsRun(ss, es) && i <= n <= |es| && ss[i].root.current.Some?
    ensures ss[n].root.current.Some? && Complete(ss[n].root, ss[n].root.current.value)
    ensures ss[n].root.previous.Some? ==> Complete(ss[n].root, ss[n].root.previous.value)
    decreases n
  {
    hide Next;
    SoundHolds(ss, es, n);
    if i < n {
      CurrentIsAlwaysComplete(ss, es, i, n - 1);
      SoundHolds(ss, es, n - 1);
      assert Next(ss[n - 1], es[n - 1]) == Some(ss[n]);
      StepKeepsSound(ss[n - 1], es[n - 1]);
    }
  }

  // ------------------------------------------------------------ the pair

  /** No crash and no failing command between the two links. */
  ghost predicate NoSplit(ss: seq<State>, es: seq<Step>)
    requires |ss| == |es| + 1
  {
    forall i :: 0 <= i < |es| && (es[i].Kill? || es[i].Fail?) ==> !Between(ss[i].root, ss[i].todo)
  }

  lemma StepKeepsSafe(s: State, e: Step)
    requires Sound(s) && Safe(s.root, s.todo) && Next(s, e).Some?
    requires (e.Kill? || e.Fail?) ==> !Between(s.root, s.todo)
    ensures Safe(Next(s, e).value.root, Next(s, e).value.todo)
  {
    match e
    case Launch(c) => PlanIsSafe(s.root, c);
    case Advance =>
    case Kill(_) =>
    case Fail =>
      if Cleanup(s.todo) != [] {
        SafeOne(s.root, RemoveTree(s.todo[0].version), []);
        assert Cleanup(s.todo) == [RemoveTree(s.todo[0].version)] + [];
      }
  }

  /** Without a crash between the links the two differ whenever no script is between them, and are equal when one is. */
  lemma {:induction false} PairIsDistinct(ss: seq<State>, es: seq<Step>, n: nat)
    requires IsRun(ss, es) && NoSplit(ss, es) && n <= |es|
    ensures Safe(ss[n].root, ss[n].todo)
    ensures if Between(ss[n].root, ss[n].todo) then ss[n].root.current == ss[n].root.previous && ss[n].root.current.Some?
            else Distinct(ss[n].root)
    decreases n
  {
    hide Next, Sound;
    if n > 0 {
      PairIsDistinct(ss, es, n - 1);
      SoundHolds(ss, es, n - 1);
      assert Next(ss[n - 1], es[n - 1]) == Some(ss[n]);
      StepKeepsSafe(ss[n - 1], es[n - 1]);
    } else {
      EmptyIsSound();
    }
  }

  /** So a kill leaves equal links exactly when it falls between the two. */
  lemma KillSplitsIffBetween(ss: seq<State>, es: seq<Step>, kept: set<File>)
    requires IsRun(ss, es) && NoSplit(ss, es)
    ensures var s := ss[|es|];
            var after := Next(s, Kill(kept)).value.root;
            (after.current.Some? && after.current == after.previous) <==> Between(s.root, s.todo)
  {
    PairIsDistinct(ss, es, |es|);
  }

  // ------------------------------------------------------------ no half-made version

  /** The write is part of making this version, or of taking it away. */
  predicate Handles(w: Write, v: Version) {
    (w.AddFile? || w.Harden? || w.RemoveTree?) && w.version == v
  }

  /** Through every write still to come, a version is whole unless the next write handles it. */
  predicate Whole(r: Root, todo: seq<Write>)
    decreases |todo|
  {
    && (forall v :: v in r.versions ==> Complete(r, v) || (todo != [] && Handles(todo[0], v)))
    && (todo != [] ==> Whole(Apply(r, todo[0]), todo[1..]))
  }

  lemma WholeOne(r: Root, w: Write, rest: seq<Write>)
    requires forall v :: v in r.versions ==> Complete(r, v) || Handles(w, v)
    requires Whole(Apply(r, w), rest)
    ensures Whole(r, [w] + rest)
  {
    assert ([w] + rest)[1..] == rest;
  }

  lemma {:induction false} WholeLinks(r: Root, links: seq<Write>)
    requires forall v :: v in r.versions ==> Complete(r, v)
    requires forall w :: w in links ==> w.SetCurrent? || w.SetPrevious?
    ensures Whole(r, links)
    decreases |links|
  {
    if links != [] {
      var next := Apply(r, links[0]);
      assert links[0] in links && next.versions == r.versions;
      forall v | v in next.versions ensures Complete(next, v) {
        assert Complete(r, v);
      }
      WholeLinks(next, links[1..]);
    }
  }

  lemma WholePublished(r: Root, v: Version, links: seq<Write>)
    requires forall u :: u in r.versions ==> Complete(r, u)
    requires Whole(r.(versions := r.versions[v := COMPLETE]), links)
    ensures Whole(r, Published(v) + links)
  {
    PublishedSteps(r, v);
    PublishedPlus(v, links);
    hide Whole, Published;
    var a, b, c, d, e := MovePayload(v), AddFile(v, Manifest), AddFile(v, Signature), AddFile(v, Ready), Harden(v);
    var r1 := Apply(r, a);
    var r2 := Apply(r1, b);
    var r3 := Apply(r2, c);
    var r4 := Apply(r3, d);
    WholeOne(r4, e, links);
    WholeOne(r3, d, [e] + links);
    WholeOne(r2, c, [d] + ([e] + links));
    WholeOne(r1, b, [c] + ([d] + ([e] + links)));
    WholeOne(r, a, [b] + ([c] + ([d] + ([e] + links))));
  }

  lemma PlanIsWhole(r: Root, c: Command)
    requires forall v :: v in r.versions ==> Complete(r, v)
    ensures Whole(r, Plan(r, c))
  {
    match c
    case Rollback(healthy) => WholeLinks(r, Plan(r, c));
    case Install(v, matches, healthy) =>
      var stage := StageWrites(r, v, healthy);
      var links := if Staged(r, v, matches, healthy) then PointerWrites(ApplyAll(r, stage), v) else [];
      assert Plan(r, c) == stage + links;
      assert v in r.versions ==> Complete(r, v) && Ready in Files(r, v);
      if Ready in Files(r, v) || !healthy {
        assert stage == [] && stage + links == links;
        WholeLinks(r, links);
      } else {
        assert stage == Published(v) by {
          assert [] + Published(v) == Published(v);
        }
        WholeLinks(r.(versions := r.versions[v := COMPLETE]), links);
        WholePublished(r, v, links);
      }
  }

  lemma StepKeepsWhole(s: State, e: Step)
    requires Whole(s.root, s.todo) && Next(s, e).Some?
    requires !e.Kill? && (e.Fail? && s.todo != [] ==> !s.todo[0].RemoveTree?)
    ensures Whole(Next(s, e).value.root, Next(s, e).value.todo)
  {
    match e
    case Launch(c) => PlanIsWhole(s.root, c);
    case Advance =>
    case Fail =>
      if Cleanup(s.todo) != [] {
        var gone := Apply(s.root, RemoveTree(s.todo[0].version));
        assert Cleanup(s.todo)[1..] == [] && Whole(gone, []);
      }
  }

  /** No kill, and no removal that itself failed. */
  ghost predicate NoLossOfControl(ss: seq<State>, es: seq<Step>)
    requires |ss| == |es| + 1
  {
    forall i :: 0 <= i < |es| ==>
      !es[i].Kill? && (es[i].Fail? && ss[i].todo != [] ==> !ss[i].todo[0].RemoveTree?)
  }

  /** Whatever else fails, the exit trap leaves no half-made version: between scripts every version directory is whole. */
  lemma {:induction false} VersionsAreWhole(ss: seq<State>, es: seq<Step>, n: nat)
    requires IsRun(ss, es) && NoLossOfControl(ss, es) && n <= |es|
    ensures Whole(ss[n].root, ss[n].todo)
    ensures ss[n].todo == [] ==> forall v :: v in ss[n].root.versions ==> Complete(ss[n].root, v)
    decreases n
  {
    hide Next;
    if n > 0 {
      VersionsAreWhole(ss, es, n - 1);
      assert Next(ss[n - 1], es[n - 1]) == Some(ss[n]);
      StepKeepsWhole(ss[n - 1], es[n - 1]);
    }
  }

  // ------------------------------------------------------------ completed commands

  function Completed(r: Root, c: Command): Root {
    ApplyAll(r, Plan(r, c))
  }

  lemma {:induction false} WritesKeepRootOk(r: Root, ws: seq<Write>)
    requires RootOk(r) && SafeWrites(r, ws)
    ensures RootOk(ApplyAll(r, ws))
    decreases |ws|
  {
    if ws != [] {
      WriteKeepsRootOk(r, ws[0]);
      WritesKeepRootOk(Apply(r, ws[0]), ws[1..]);
    }
  }

  lemma {:induction false} SafeEndsDistinct(r: Root, ws: seq<Write>)
    requires Safe(r, ws)
    ensures Distinct(ApplyAll(r, ws))
    decreases |ws|
  {
    if ws != [] {
      SafeEndsDistinct(Apply(r, ws[0]), ws[1..]);
    }
  }

  /**
   A completed install makes the version current exactly when its checks pass
   and no link or a ready one stood there; the old link then becomes `previous`.
   A version that was not marked ready is made whole, or gone if it is not healthy.
   */
  lemma InstallSucceedsIff(r: Root, v: Version, matches: bool, healthy: bool)
    ensures var t := Completed(r, Install(v, matches, healthy));
            && (t.current == Some(v) <==>
                  || r.current == Some(v)
                  || (Passes(r, v, matches, healthy) && (r.current.None? || MarkedReady(r, r.current.value))))
            && (t.current == r.current ==> t.previous == r.previous)
            && (t.current != r.current ==>
                  t.current == Some(v) && t.previous == if r.current.Some? then r.current else r.previous)
            && t.versions == (
                 if MarkedReady(r, v) then r.versions
                 else if healthy then r.versions[v := {Daemon, Launcher, Manifest, Signature, Ready}]
                 else r.versions - {v})
  {
    var stage := StageWrites(r, v, healthy);
    var staged := ApplyAll(r, stage);
    StageEffects(r, v, healthy);
    if Staged(r, v, matches, healthy) {
      ApplyConcat(r, stage, PointerWrites(staged, v));
      PairEffect(staged, v);
    }
  }

  lemma StageEffects(r: Root, v: Version, healthy: bool)
    ensures ApplyAll(r, StageWrites(r, v, healthy)) == r.(versions :=
              if Ready in Files(r, v) then r.versions else if healthy then r.versions[v := COMPLETE] else r.versions - {v})
  {
    if Ready !in Files(r, v) {
      if healthy {
        StageEffect(r, v);
      } else {
        TwoWrites(r, RemoveTree(v), RemoveTree(v));
        assert StageWrites(r, v, false) == if v in r.versions then [RemoveTree(v)] else [];
      }
    }
  }

  /** A completed rollback exchanges the links exactly when both name ready versions and the older one is healthy. */
  lemma RollbackMovesIff(r: Root, healthy: bool)
    ensures Completed(r, Rollback(healthy)) ==
              if healthy && r.current.Some? && r.previous.Some?
                 && MarkedReady(r, r.current.value) && MarkedReady(r, r.previous.value)
              then Root(r.versions, r.previous, r.current) else r
  {
    if r.current.Some? && r.previous.Some? {
      TwoWrites(r, SetCurrent(r.previous.value), SetPrevious(r.current.value));
    }
  }

  /** A completed command leaves the pair as it was, or moves the old current to `previous`. */
  lemma CompletedMovesThePair(r: Root, c: Command)
    requires RootOk(r) && Distinct(r)
    ensures var t := Completed(r, c);
            && RootOk(t) && Distinct(t)
            && (if t.current == r.current then t.previous == r.previous else t.previous == r.current)
            && (c.Install? && Passes(r, c.version, c.matches, c.healthy) ==> t.current == Some(c.version))
            && (c.Rollback? && c.healthy && r.previous.Some? ==> t.current == r.previous)
  {
    PlanIsSafe(r, c);
    SafeIsSafeWrites(r, Plan(r, c));
    SafeEndsDistinct(r, Plan(r, c));
    WritesKeepRootOk(r, Plan(r, c));
    hide Safe, SafeWrites, Plan, Passes;
    match c
    case Rollback(healthy) => RollbackMovesIff(r, healthy);
    case Install(v, matches, healthy) => InstallSucceedsIff(r, v, matches, healthy);
  }

  /** Two rollbacks restore the pair. */
  lemma RollbackTwice(r: Root)
    requires RootOk(r) && r.current.Some? && r.previous.Some?
    ensures Completed(Completed(r, Rollback(true)), Rollback(true)) == r
  {
    var a, b := r.current.value, r.previous.value;
    TwoWrites(r, SetCurrent(b), SetPrevious(a));
    var t := Completed(r, Rollback(true));
    TwoWrites(t, SetCurrent(a), SetPrevious(b));
  }

  function RunOf(r: Root, cs: seq<Command>): Root
    decreases |cs|
  {
    if cs == [] then r else Completed(RunOf(r, cs[..|cs| - 1]), cs[|cs| - 1])
  }

  /** The version `current` last named before the one it names now. */
  function LastNamed(cs: seq<Command>): Option<Version>
    decreases |cs|
  {
    if cs == [] then None
    else
      var init := cs[..|cs| - 1];
      if RunOf(EMPTY, cs).current != RunOf(EMPTY, init).current then RunOf(EMPTY, init).current else LastNamed(init)
  }

  /** Over any completed commands `previous` is the version `current` last named, and differs from it. */
  lemma {:induction false} PreviousIsLastNamed(cs: seq<Command>)
    ensures var r := RunOf(EMPTY, cs);
            RootOk(r) && Distinct(r) && r.previous == LastNamed(cs)
    decreases |cs|
  {
    if cs != [] {
      PreviousIsLastNamed(cs[..|cs| - 1]);
      CompletedMovesThePair(RunOf(EMPTY, cs[..|cs| - 1]), cs[|cs| - 1]);
    }
  }

  /** A rollback killed between its links forgets a version: no later rollback brings it back. */
  lemma KilledRollbackForgets(s: State, a: Version, b: Version)
    requires Sound(s) && s.todo == [] && a != b && s.root.current == Some(a) && s.root.previous == Some(b)
    ensures var killed := Next(Next(Next(s, Launch(Rollback(true))).value, Advance).value, Kill({})).value;
            && killed.root.current == killed.root.previous == Some(b)
            && Completed(killed.root, Rollback(true)) == killed.root
  {
    var todo := [SetCurrent(b), SetPrevious(a)];
    assert Plan(s.root, Rollback(true)) == todo;
    assert todo[1..] == [SetPrevious(a)];
    var killed := Apply(s.root, SetCurrent(b));
    TwoWrites(killed, SetCurrent(b), SetPrevious(b));
  }
}
