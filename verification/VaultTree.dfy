/**
 The vault on disk and the two ways the companion looks at it: the pruned
 recursive walk of a full index, and the classification of one hinted path.
 */
module VaultTree {
  import opened Common

  const MAX_NOTE_BYTES := 4 * 1024 * 1024

  type Name = string
  type Path = seq<Name>

  /** A regular file; `text` is None when its bytes are not valid UTF-8. */
  datatype FileData = FileData(size: nat, text: Option<string>, modified: int)

  /** A symbolic link carries the link-free path it leads to, or None when it dangles. */
  datatype Node =
    | Dir(entries: seq<Entry>)
    | File(data: FileData)
    | Symlink(target: Option<Path>)
    | Special

  datatype Entry = Entry(name: Name, node: Node)

  /** The library functions a scan depends on: the SHA-256 revision and the title rule. */
  datatype Env = Env(revision: string -> string, title: (string, Path) -> string)

  datatype ScannedNote = ScannedNote(
    path: Path, title: string, body: string, revision: string, modified: int, size: nat)

  datatype ScanError = NotADirectory | NoteTooLarge | NotText

  ghost predicate WellFormed(n: Node) {
    n.Dir? ==>
      && (forall i, j :: 0 <= i < j < |n.entries| ==> n.entries[i].name != n.entries[j].name)
      && (forall e | e in n.entries :: WellFormed(e.node))
  }

  predicate Excluded(name: Name) {
    name == ".git" || name == ".obsidian" || name == ".trash"
  }

  predicate HasExcluded(p: Path) {
    exists i :: 0 <= i < |p| && Excluded(p[i])
  }

  function LastDot(s: string): (d: int)
    ensures -1 <= d < |s|
    ensures d >= 0 ==> s[d] == '.'
    ensures forall i :: d < i < |s| ==> s[i] != '.'
  {
    if s == [] then -1
    else if s[|s| - 1] == '.' then |s| - 1
    else LastDot(s[..|s| - 1])
  }

  /** The extension rule: a leading dot starts a name, not an extension. */
  predicate IsMarkdown(name: Name) {
    var d := LastDot(name);
    d >= 1 && |name| == d + 3 && name[d + 1] in "mM" && name[d + 2] in "dD"
  }

  lemma ExcludedIsNotMarkdown(name: Name)
    requires Excluded(name)
    ensures !IsMarkdown(name)
  {
    assert name[0] == '.';
    assert forall i :: 0 < i < |name| ==> name[i] != '.';
  }

  /** The child of a directory listing with a given name. */
  function Child(es: seq<Entry>, name: Name): (c: Option<Node>)
    ensures c.Some? <==> exists e | e in es :: e.name == name
    ensures c.Some? ==> Entry(name, c.value) in es
  {
    if es == [] then None
    else if es[0].name == name then Some(es[0].node)
    else Child(es[1..], name)
  }

  lemma ChildUnique(n: Node, e: Entry)
    requires n.Dir? && WellFormed(n) && e in n.entries
    ensures Child(n.entries, e.name) == Some(e.node)
  {
    var c := Child(n.entries, e.name);
    assert Entry(e.name, c.value) in n.entries;
  }

  /** What a path names when no symbolic link is followed. */
  function Plain(n: Node, p: Path): Option<Node>
    decreases |p|
  {
    if p == [] then Some(n)
    else if !n.Dir? then None
    else match Child(n.entries, p[0])
      case None => None
      case Some(c) => Plain(c, p[1..])
  }

  lemma {:induction false} PlainConcat(n: Node, p: Path, q: Path)
    ensures Plain(n, p + q) == (match Plain(n, p) case None => None case Some(m) => Plain(m, q))
    decreases |p|
  {
    if p == [] {
      assert p + q == q;
    } else if n.Dir? && Child(n.entries, p[0]).Some? {
      assert (p + q)[1..] == p[1..] + q;
      PlainConcat(Child(n.entries, p[0]).value, p[1..], q);
    }
  }

  /** A live note: a regular Markdown file under no excluded component. */
  ghost predicate Live(root: Node, p: Path) {
    && p != []
    && Plain(root, p).Some? && Plain(root, p).value.File?
    && IsMarkdown(p[|p| - 1])
    && !HasExcluded(p)
  }

  // ---------------------------------------------------------------- the walk

  datatype Visit = Visit(path: Path, node: Node)

  /** Only directories are pruned, and never the root itself. */
  predicate ShouldVisit(e: Entry) {
    !(e.node.Dir? && Excluded(e.name))
  }

  function Walk(n: Node, at: Path): seq<Visit>
    decreases n, 1
  {
    [Visit(at, n)] + (if n.Dir? then WalkEntries(n.entries, at) else [])
  }

  function WalkEntries(es: seq<Entry>, at: Path): seq<Visit>
    decreases es, 0
  {
    if es == [] then []
    else
      (if ShouldVisit(es[0]) then Walk(es[0].node, at + [es[0].name]) else [])
      + WalkEntries(es[1..], at)
  }

  predicate IsNoteVisit(v: Visit) {
    v.node.File? && v.path != [] && IsMarkdown(v.path[|v.path| - 1])
  }

  /** Some directory on the way down is pruned by the walk. */
  predicate PrunedOn(n: Node, q: Path)
    decreases |q|
  {
    q != [] && n.Dir? && Child(n.entries, q[0]).Some? &&
    var c := Child(n.entries, q[0]).value;
    (c.Dir? && Excluded(q[0])) || PrunedOn(c, q[1..])
  }

  lemma {:induction false} WalkUnder(n: Node, at: Path, v: Visit)
    requires v in Walk(n, at)
    ensures at <= v.path
    decreases n, 1
  {
    if v != Visit(at, n) {
      WalkEntriesUnder(n.entries, at, v);
    }
  }

  lemma {:induction false} WalkEntriesUnder(es: seq<Entry>, at: Path, v: Visit)
    requires v in WalkEntries(es, at)
    ensures at < v.path
    ensures exists e | e in es :: ShouldVisit(e) && e.name == v.path[|at|]
              && v in Walk(e.node, at + [e.name])
    decreases es, 0
  {
    if ShouldVisit(es[0]) && v in Walk(es[0].node, at + [es[0].name]) {
      WalkUnder(es[0].node, at + [es[0].name], v);
      assert es[0] in es;
    } else {
      WalkEntriesUnder(es[1..], at, v);
      var e :| e in es[1..] && ShouldVisit(e) && e.name == v.path[|at|]
               && v in Walk(e.node, at + [e.name]);
      assert e in es;
    }
  }

  lemma {:induction false} WalkEntriesHave(es: seq<Entry>, at: Path, e: Entry, v: Visit)
    requires e in es && ShouldVisit(e) && v in Walk(e.node, at + [e.name])
    ensures v in WalkEntries(es, at)
    decreases |es|
  {
    if e != es[0] {
      WalkEntriesHave(es[1..], at, e, v);
    }
  }

  /** The walk reaches exactly the nodes no pruned directory hides. */
  lemma {:induction false} WalkExact(n: Node, at: Path, q: Path, m: Node)
    requires WellFormed(n)
    ensures Visit(at + q, m) in Walk(n, at) <==> Plain(n, q) == Some(m) && !PrunedOn(n, q)
    decreases n
  {
    var v := Visit(at + q, m);
    if q == [] {
      assert at + q == at;
      if v in Walk(n, at) && v != Visit(at, n) {
        WalkEntriesUnder(n.entries, at, v);
      }
    } else {
      assert at + q != at;
      if n.Dir? {
        forall e | e in n.entries && e.name == q[0]
          ensures Child(n.entries, q[0]) == Some(e.node)
          ensures v in Walk(e.node, at + [e.name]) <==>
                    Plain(e.node, q[1..]) == Some(m) && !PrunedOn(e.node, q[1..])
        {
          ChildUnique(n, e);
          assert (at + [e.name]) + q[1..] == at + q;
          WalkExact(e.node, at + [e.name], q[1..], m);
        }
        if v in Walk(n, at) {
          WalkEntriesUnder(n.entries, at, v);
        }
        if Plain(n, q) == Some(m) && !PrunedOn(n, q) {
          var e := Entry(q[0], Child(n.entries, q[0]).value);
          WalkEntriesHave(n.entries, at, e, v);
        }
      }
    }
  }

  ghost predicate DistinctPaths(vs: seq<Visit>) {
    forall i, j :: 0 <= i < j < |vs| ==> vs[i].path != vs[j].path
  }

  /** No path is visited twice. */
  lemma {:induction false} WalkDistinct(n: Node, at: Path)
    requires WellFormed(n)
    ensures DistinctPaths(Walk(n, at))
    decreases n, 1
  {
    if n.Dir? {
      WalkEntriesDistinct(n.entries, at);
      forall v | v in WalkEntries(n.entries, at) ensures v.path != at {
        WalkEntriesUnder(n.entries, at, v);
      }
    }
  }

  lemma {:induction false} WalkEntriesDistinct(es: seq<Entry>, at: Path)
    requires forall i, j :: 0 <= i < j < |es| ==> es[i].name != es[j].name
    requires forall e | e in es :: WellFormed(e.node)
    ensures DistinctPaths(WalkEntries(es, at))
    decreases es, 0
  {
    if es != [] {
      var a := if ShouldVisit(es[0]) then Walk(es[0].node, at + [es[0].name]) else [];
      var b := WalkEntries(es[1..], at);
      WalkDistinct(es[0].node, at + [es[0].name]);
      WalkEntriesDistinct(es[1..], at);
      forall x, y | x in a && y in b ensures x.path != y.path {
        WalkUnder(es[0].node, at + [es[0].name], x);
        WalkEntriesUnder(es[1..], at, y);
        assert x.path[|at|] == es[0].name;
      }
    }
  }

  /** Above a Markdown file, pruning and exclusion are the same thing. */
  lemma {:induction false} PrunedIffExcluded(n: Node, q: Path)
    requires q != [] && Plain(n, q).Some? && Plain(n, q).value.File?
    requires IsMarkdown(q[|q| - 1])
    ensures PrunedOn(n, q) <==> HasExcluded(q)
    decreases |q|
  {
    var c := Child(n.entries, q[0]).value;
    if |q| == 1 {
      if Excluded(q[0]) {
        ExcludedIsNotMarkdown(q[0]);
      }
    } else {
      PrunedIffExcluded(c, q[1..]);
      assert q == [q[0]] + q[1..];
      assert HasExcluded(q) <==> Excluded(q[0]) || HasExcluded(q[1..]) by {
        if i :| 0 <= i < |q| && Excluded(q[i]) {
          assert i == 0 || Excluded(q[1..][i - 1]);
        }
        if i :| 0 <= i < |q[1..]| && Excluded(q[1..][i]) {
          assert Excluded(q[i + 1]);
        }
      }
    }
  }

  /** The notes a full scan feeds to the index, in the order of the walk. */
  function LivePaths(root: Node): set<Path> {
    set v | v in Walk(root, []) && IsNoteVisit(v) :: v.path
  }

  /** The recursive pruned walk yields exactly the live notes, each with its own file. */
  lemma WalkYieldsLiveNotes(root: Node, p: Path)
    requires WellFormed(root)
    ensures p in LivePaths(root) <==> Live(root, p)
    ensures forall v | v in Walk(root, []) && IsNoteVisit(v) && v.path == p ::
              Plain(root, p) == Some(v.node)
  {
    hide Walk, PrunedOn, Plain, IsMarkdown, WellFormed, HasExcluded;
    assert [] + p == p;
    forall m ensures Visit(p, m) in Walk(root, []) <==> Plain(root, p) == Some(m) && !PrunedOn(root, p) {
      WalkExact(root, [], p, m);
    }
    if p in LivePaths(root) {
      var v :| v in Walk(root, []) && IsNoteVisit(v) && v.path == p;
      assert v == Visit(p, v.node);
      PrunedIffExcluded(root, p);
    }
    if Live(root, p) {
      PrunedIffExcluded(root, p);
      assert Visit(p, Plain(root, p).value) in Walk(root, []);
    }
  }

  // ------------------------------------------------------- reading one note

  function ReadNote(env: Env, p: Path, d: FileData): (r: Result<ScannedNote, ScanError>)
    ensures r.Success? <==> d.size <= 4 * 1024 * 1024 && d.text.Some?
    ensures d.size > 4 * 1024 * 1024 ==> r == Failure(NoteTooLarge)
    ensures r.Success? ==> r.value.path == p && r.value.body == d.text.value
                           && r.value.revision == env.revision(d.text.value)
  {
    if d.size > MAX_NOTE_BYTES then Failure(NoteTooLarge)
    else match d.text
      case None => Failure(NotText)
      case Some(body) =>
        Success(ScannedNote(p, env.title(body, p), body, env.revision(body), d.modified, d.size))
  }

  /** Every live note can be read, so that a full scan succeeds. */
  ghost predicate Readable(env: Env, root: Node) {
    forall v | v in Walk(root, []) && IsNoteVisit(v) :: ReadNote(env, v.path, v.node.data).Success?
  }

  /** The note a static disk holds at a path. */
  function NoteAt(env: Env, root: Node, p: Path): Option<ScannedNote> {
    if p in LivePaths(root) && Plain(root, p).Some? && Plain(root, p).value.File? then
      match ReadNote(env, p, Plain(root, p).value.data)
      case Success(note) => Some(note)
      case Failure(_) => None
    else None
  }

  // ------------------------------------------------- one hinted path

  datatype Component = Normal(name: Name) | Parent

  /** A watcher hint, made relative to the vault root and split into components. */
  datatype Hint = OutsideRoot | InRoot(parts: seq<Component>)

  datatype PathScan =
    | Ignored
    | Change(path: Path, note: Option<ScannedNote>)
    | NeedsFullRescan
    | ScanFailed(error: ScanError)

  datatype Stat = Found(path: Path, node: Node) | NotFound | ThroughFile

  /** `lstat`: links are followed above the last component only. */
  function Lstat(root: Node, at: Path, rest: Path): Stat
    requires rest != []
    decreases |rest|
  {
    match Plain(root, at)
    case None => NotFound
    case Some(n) =>
      if !n.Dir? then ThroughFile
      else match Child(n.entries, rest[0])
        case None => NotFound
        case Some(c) =>
          if |rest| == 1 then Found(at + [rest[0]], c)
          else match c
            case Dir(_) => Lstat(root, at + [rest[0]], rest[1..])
            case Symlink(Some(t)) => Lstat(root, t, rest[1..])
            case Symlink(None) => NotFound
            case _ => ThroughFile
  }

  datatype Parts = Plainly(path: Path) | Skipped | Ambiguous

  /** The first excluded component hides the hint; a parent component before it is ambiguous. */
  function Relative(parts: seq<Component>): (r: Parts)
    ensures r.Plainly? <==>
              forall i :: 0 <= i < |parts| ==> parts[i].Normal? && !Excluded(parts[i].name)
    ensures r.Plainly? ==> |r.path| == |parts| && forall i :: 0 <= i < |parts| ==> parts[i] == Normal(r.path[i])
  {
    if parts == [] then Plainly([])
    else if parts[0].Parent? then Ambiguous
    else if Excluded(parts[0].name) then Skipped
    else match Relative(parts[1..])
      case Plainly(p) => Plainly([parts[0].name] + p)
      case other => other
  }

  function Classify(env: Env, root: Node, p: Path): PathScan
    requires p != []
  {
    var markdown := IsMarkdown(p[|p| - 1]);
    match Lstat(root, [], p)
    case NotFound => if markdown then Change(p, None) else Ignored
    case ThroughFile => ScanFailed(NotADirectory)
    case Found(canonical, node) =>
      if node.Dir? then NeedsFullRescan
      else if !markdown then Ignored
      else if !node.File? then Change(p, None)
      else match ReadNote(env, canonical, node.data)
        case Success(note) => Change(note.path, Some(note))
        case Failure(e) => ScanFailed(e)
  }

  function ScanHint(env: Env, root: Node, hint: Hint): PathScan {
    if hint.OutsideRoot? then Ignored
    else if hint.parts == [] then NeedsFullRescan
    else match Relative(hint.parts)
      case Skipped => Ignored
      case Ambiguous => NeedsFullRescan
      case Plainly(p) => Classify(env, root, p)
  }

  /** What a prefix of plain components makes of the classification of the rest. */
  function Prepend(prefix: Path, r: Parts): Parts {
    if r.Plainly? then Plainly(prefix + r.path) else r
  }

  method RelativeParts(parts: seq<Component>) returns (r: Parts)
    ensures r == Relative(parts)
  {
    var kept: Path := [];
    hide Relative, Excluded;
    assert parts[0..] == parts;
    for i := 0 to |parts|
      invariant Relative(parts) == Prepend(kept, Relative(parts[i..]))
    {
      RelativeStep(parts, i);
      match parts[i] {
        case Parent =>
          return Ambiguous;
        case Normal(part) =>
          if Excluded(part) {
            return Skipped;
          }
          PrependTwice(kept, [part], Relative(parts[i + 1..]));
          kept := kept + [part];
      }
    }
    r := Plainly(kept);
    RelativeStep(parts, |parts|);
    assert kept + [] == kept;
  }

  lemma PrependTwice(a: Path, b: Path, r: Parts)
    ensures Prepend(a, Prepend(b, r)) == Prepend(a + b, r)
  {
    if r.Plainly? {
      assert a + (b + r.path) == (a + b) + r.path;
    }
  }

  lemma RelativeStep(parts: seq<Component>, i: nat)
    requires i <= |parts|
    ensures Relative(parts[i..]) ==
            if i == |parts| then Plainly([])
            else if parts[i].Parent? then Ambiguous
            else if Excluded(parts[i].name) then Skipped
            else Prepend([parts[i].name], Relative(parts[i + 1..]))
  {
    if i < |parts| {
      assert parts[i..][1..] == parts[i + 1..];
    }
  }

  method ScanChangedPath(env: Env, root: Node, hint: Hint) returns (r: PathScan)
    ensures r == ScanHint(env, root, hint)
  {
    if hint.OutsideRoot? {
      return Ignored;
    }
    if hint.parts == [] {
      return NeedsFullRescan;
    }
    var relative := RelativeParts(hint.parts);
    match relative {
      case Skipped =>
        return Ignored;
      case Ambiguous =>
        return NeedsFullRescan;
      case Plainly(path) =>
        r := Classify(env, root, path);
    }
  }

  /** No proper ancestor of the path is a symbolic link. */
  ghost predicate NoLinkAbove(root: Node, p: Path) {
    forall k :: 0 <= k < |p| ==>
      Plain(root, p[..k]).None? || !Plain(root, p[..k]).value.Symlink?
  }

  lemma {:induction false} LstatPlain(root: Node, at: Path, rest: Path)
    requires rest != [] && NoLinkAbove(root, at + rest)
    requires Plain(root, at).Some? && Plain(root, at).value.Dir?
    ensures match Lstat(root, at, rest)
            case Found(canonical, node) => canonical == at + rest && Plain(root, at + rest) == Some(node)
            case _ => Plain(root, at + rest) == None
    decreases |rest|
  {
    var n := Plain(root, at).value;
    PlainConcat(root, at, rest);
    if |rest| == 1 {
      assert Child(n.entries, rest[0]).Some? ==> Plain(Child(n.entries, rest[0]).value, rest[1..]).Some?;
    } else if Child(n.entries, rest[0]).Some? {
      var c := Child(n.entries, rest[0]).value;
      var next := at + [rest[0]];
      PlainConcat(root, at, [rest[0]]);
      assert Plain(c, [rest[0]][1..]) == Some(c);
      assert next + rest[1..] == at + rest;
      assert (at + rest)[..|at| + 1] == next;
      if c.Dir? {
        LstatPlain(root, next, rest[1..]);
      }
    }
  }

  /**
   The per-path classification against the walk, for every hinted path under
   no symbolic link: a Change carries exactly what a full scan would index,
   directories ask for a full rescan, and an ignored path is never live.
   */
  lemma PerPathAgreesWithWalk(env: Env, root: Node, parts: seq<Component>, p: Path)
    requires WellFormed(root) && root.Dir?
    requires |parts| == |p| && p != [] && forall i :: 0 <= i < |p| ==> parts[i] == Normal(p[i])
    requires NoLinkAbove(root, p)
    ensures ScanHint(env, root, InRoot(parts)).Change? ==>
              ScanHint(env, root, InRoot(parts)) == Change(p, NoteAt(env, root, p))
    ensures ScanHint(env, root, InRoot(parts)).Ignored? ==>
              !Live(root, p) && (HasExcluded(p) || !IsMarkdown(p[|p| - 1]))
    ensures ScanHint(env, root, InRoot(parts)).NeedsFullRescan? ==>
              Plain(root, p).Some? && Plain(root, p).value.Dir?
    ensures ScanHint(env, root, InRoot(parts)).ScanFailed? && Readable(env, root) ==>
              !Live(root, p) && Plain(root, p).None?
    ensures Live(root, p) && Readable(env, root) ==>
              ScanHint(env, root, InRoot(parts)).Change? && NoteAt(env, root, p).Some?
  {
    hide Live, NoteAt, Readable, Plain, IsMarkdown, WellFormed, NoLinkAbove, Classify;
    RelativeOfPath(parts, p);
    if !HasExcluded(p) {
      ClassifyAgrees(env, root, p);
    } else {
      ExcludedIsNotLive(root, p);
    }
  }

  lemma ExcludedIsNotLive(root: Node, p: Path)
    requires HasExcluded(p)
    ensures !Live(root, p)
  {
  }

  lemma RelativeOfPath(parts: seq<Component>, p: Path)
    requires |parts| == |p| && forall i :: 0 <= i < |p| ==> parts[i] == Normal(p[i])
    ensures Relative(parts) == if HasExcluded(p) then Skipped else Plainly(p)
  {
    assert HasExcluded(p) <==> !Relative(parts).Plainly? by {
      if i :| 0 <= i < |p| && Excluded(p[i]) {
        assert parts[i] in parts;
      }
    }
    RelativeNormal(parts);
    assert Relative(parts).Plainly? ==> Relative(parts).path == p;
  }

  /** The classification of a path with no excluded component under no link. */
  lemma ClassifyAgrees(env: Env, root: Node, p: Path)
    requires WellFormed(root) && root.Dir? && p != [] && NoLinkAbove(root, p) && !HasExcluded(p)
    ensures var r := Classify(env, root, p);
            && (r.Change? ==> r == Change(p, NoteAt(env, root, p)))
            && (r.Ignored? ==> !Live(root, p) && !IsMarkdown(p[|p| - 1]))
            && (r.NeedsFullRescan? ==> Plain(root, p).Some? && Plain(root, p).value.Dir?)
            && (r.ScanFailed? && Readable(env, root) ==> !Live(root, p) && Plain(root, p).None?)
            && (Live(root, p) && Readable(env, root) ==> r.Change? && NoteAt(env, root, p).Some?)
  {
    hide Lstat, Plain, IsMarkdown, WellFormed, LivePaths, HasExcluded, Readable, NoLinkAbove, ReadNote;
    WalkYieldsLiveNotes(root, p);
    if Readable(env, root) && Live(root, p) {
      LiveIsReadable(env, root, p);
    }
    PlainOfRoot(root);
    assert [] + p == p;
    LstatPlain(root, [], p);
  }

  lemma LiveIsReadable(env: Env, root: Node, p: Path)
    requires WellFormed(root) && Readable(env, root) && Live(root, p)
    ensures ReadNote(env, p, Plain(root, p).value.data).Success?
  {
    hide Walk, Plain, IsMarkdown, WellFormed, ReadNote, HasExcluded;
    WalkYieldsLiveNotes(root, p);
    var v :| v in Walk(root, []) && IsNoteVisit(v) && v.path == p;
  }

  ghost predicate UnreadableNote(env: Env, root: Node, p: Path) {
    Live(root, p) && ReadNote(env, p, Plain(root, p).value.data).Failure?
  }

  /** The path is the root, a directory, or leads through a file: a scan cannot settle it, unreadable notes or not. */
  predicate Asks(root: Node, p: Path) {
    p == [] || (!HasExcluded(p) &&
      match Lstat(root, [], p)
      case Found(_, node) => node.Dir?
      case ThroughFile => true
      case NotFound => false)
  }

  lemma UnreadableNoteFailsTheWalk(env: Env, root: Node, p: Path)
    requires WellFormed(root) && UnreadableNote(env, root, p)
    ensures !Readable(env, root)
  {
    hide Plain, IsMarkdown, WellFormed, ReadNote, HasExcluded, Readable;
    if Readable(env, root) {
      LiveIsReadable(env, root, p);
      assert false;
    }
  }

  lemma RootIsNoNote(env: Env, root: Node)
    ensures !UnreadableNote(env, root, [])
  {
  }

  lemma ReadableWithoutUnreadable(env: Env, root: Node)
    requires WellFormed(root) && forall p :: !UnreadableNote(env, root, p)
    ensures Readable(env, root)
  {
    hide Plain, IsMarkdown, WellFormed, ReadNote, HasExcluded, Walk, Live;
    forall v | v in Walk(root, []) && IsNoteVisit(v) ensures ReadNote(env, v.path, v.node.data).Success? {
      WalkYieldsLiveNotes(root, v.path);
      assert v.path in LivePaths(root);
      assert !UnreadableNote(env, root, v.path);
    }
  }

  /**
   Under no link, and whatever else is on disk, a hint that names a path is
   settled unless the path asks for a full rescan or is an unreadable note.
   */
  lemma ScanGivesWayIff(env: Env, root: Node, parts: seq<Component>, p: Path)
    requires WellFormed(root) && root.Dir? && NoLinkAbove(root, p)
    requires |parts| == |p| && forall i :: 0 <= i < |p| ==> parts[i] == Normal(p[i])
    ensures match ScanHint(env, root, InRoot(parts))
            case Change(q, note) =>
              !Asks(root, p) && !UnreadableNote(env, root, p) && q == p && note == NoteAt(env, root, p)
            case Ignored =>
              && !Asks(root, p) && !UnreadableNote(env, root, p) && NoteAt(env, root, p) == None
              && p != [] && (HasExcluded(p) || !IsMarkdown(p[|p| - 1]))
            case NeedsFullRescan => Asks(root, p)
            case ScanFailed(_) => Asks(root, p) || UnreadableNote(env, root, p)
  {
    hide Plain, IsMarkdown, WellFormed, NoLinkAbove, Relative, Classify, Asks, UnreadableNote, ReadNote, NoteAt;
    if p == [] {
      RootAsks(root, p);
    } else {
      RelativeOfPath(parts, p);
      if HasExcluded(p) {
        ExcludedIsSettled(env, root, p);
      } else {
        ClassifyGivesWay(env, root, p);
      }
    }
  }

  lemma RootAsks(root: Node, p: Path)
    requires p == []
    ensures Asks(root, p)
  {
  }

  lemma ExcludedIsSettled(env: Env, root: Node, p: Path)
    requires WellFormed(root) && p != [] && HasExcluded(p)
    ensures !Asks(root, p) && !UnreadableNote(env, root, p) && NoteAt(env, root, p) == None
  {
    hide Plain, IsMarkdown, WellFormed, Walk, HasExcluded, LivePaths, ReadNote;
    WalkYieldsLiveNotes(root, p);
  }

  lemma ClassifyGivesWay(env: Env, root: Node, p: Path)
    requires WellFormed(root) && root.Dir? && p != [] && NoLinkAbove(root, p) && !HasExcluded(p)
    ensures match Classify(env, root, p)
            case Change(q, note) =>
              !Asks(root, p) && !UnreadableNote(env, root, p) && q == p && note == NoteAt(env, root, p)
            case Ignored =>
              !Asks(root, p) && !UnreadableNote(env, root, p) && NoteAt(env, root, p) == None && !IsMarkdown(p[|p| - 1])
            case NeedsFullRescan => Asks(root, p)
            case ScanFailed(_) => Asks(root, p) || UnreadableNote(env, root, p)
  {
    hide Lstat, Plain, IsMarkdown, WellFormed, LivePaths, HasExcluded, NoLinkAbove, ReadNote;
    WalkYieldsLiveNotes(root, p);
    PlainOfRoot(root);
    assert [] + p == p;
    LstatPlain(root, [], p);
    ReadKeepsPath(env, root, p);
  }

  lemma PlainOfRoot(root: Node)
    ensures Plain(root, []) == Some(root)
  {
  }

  lemma {:induction false} RelativeNormal(parts: seq<Component>)
    requires forall i :: 0 <= i < |parts| ==> parts[i].Normal?
    ensures !Relative(parts).Ambiguous?
  {
    if parts != [] {
      RelativeNormal(parts[1..]);
    }
  }

  lemma ChildIsPlain(n: Node, name: Name)
    requires n.Dir?
    ensures Plain(n, [name]) == Child(n.entries, name)
  {
    assert [name][1..] == [];
  }

  /** A hint that does report a note reports it under the link-free path it really has. */
  lemma {:induction false} LstatFindsReal(root: Node, at: Path, rest: Path)
    requires rest != []
    ensures match Lstat(root, at, rest)
            case Found(canonical, node) => canonical != [] && canonical[|canonical| - 1] == rest[|rest| - 1]
                                      && Plain(root, canonical) == Some(node)
            case _ => true
    decreases |rest|
  {
    hide Plain, Child;
    match Plain(root, at) {
      case None =>
      case Some(n) =>
        if n.Dir? && Child(n.entries, rest[0]).Some? {
          var c := Child(n.entries, rest[0]).value;
          if |rest| == 1 {
            PlainConcat(root, at, rest);
            assert rest == [rest[0]];
            ChildIsPlain(n, rest[0]);
          } else if c.Dir? {
            LstatFindsReal(root, at + [rest[0]], rest[1..]);
          } else if c.Symlink? && c.target.Some? {
            LstatFindsReal(root, c.target.value, rest[1..]);
          }
        }
    }
  }

  // ---------------------------------------------------------------- names and hints, spelled out

  /** A name with the extension md in either case, and something before the dot. */
  ghost predicate NoteName(name: Name) {
    4 <= |name| && name[|name| - 3..] in {".md", ".mD", ".Md", ".MD"}
  }

  lemma MarkdownIsNoteName(name: Name)
    ensures IsMarkdown(name) <==> NoteName(name)
  {
    if 4 <= |name| {
      var tail := name[|name| - 3..];
      assert tail == [name[|name| - 3], name[|name| - 2], name[|name| - 1]];
      assert tail[0] == '.' && tail[1] != '.' && tail[2] != '.' ==> LastDot(name) == |name| - 3;
    }
  }

  ghost predicate Outside(p: Path) {
    exists i :: 0 <= i < |p| && p[i] in {".git", ".obsidian", ".trash"}
  }

  /** The notes a full index yields: regular files under note names, through none of the three directories. */
  lemma NotesSpelledOut(root: Node, p: Path)
    requires WellFormed(root)
    ensures p in LivePaths(root) <==>
              && p != [] && Plain(root, p).Some? && Plain(root, p).value.File?
              && NoteName(p[|p| - 1]) && !Outside(p)
  {
    hide Walk, Plain, IsMarkdown, NoteName, WellFormed;
    WalkYieldsLiveNotes(root, p);
    if p != [] {
      MarkdownIsNoteName(p[|p| - 1]);
    }
    forall i | 0 <= i < |p| ensures Excluded(p[i]) <==> p[i] in {".git", ".obsidian", ".trash"} {
    }
  }

  /** From a directory by a name into a directory, or through a link to where it leads. */
  ghost predicate Enters(root: Node, d: Path, name: Name, next: Path) {
    && Plain(root, d + [name]).Some?
    && var c := Plain(root, d + [name]).value;
       (c.Dir? && next == d + [name]) || c == Symlink(Some(next))
  }

  /** The places passed on the way along a path. */
  ghost predicate Route(root: Node, at: Path, p: Path, ds: seq<Path>) {
    && 0 < |ds| <= |p| && ds[0] == at
    && forall i :: 0 <= i < |ds| - 1 ==> Enters(root, ds[i], p[i], ds[i + 1])
  }

  /** How a lookup ends at the last place it reached: what it finds there, and why it goes no further. */
  ghost predicate EndsWith(root: Node, p: Path, ds: seq<Path>, r: Stat)
    requires 0 < |ds| <= |p|
  {
    var d := ds[|ds| - 1];
    var here, there := Plain(root, d), Plain(root, d + [p[|ds| - 1]]);
    match r
    case Found(path, node) => |ds| == |p| && path == d + [p[|p| - 1]] && there == Some(node)
    case ThroughFile =>
      || (here.Some? && !here.value.Dir?)
      || (|ds| < |p| && there.Some? && (there.value.File? || there.value.Special?))
    case NotFound =>
      || here.None?
      || (here.value.Dir? && there.None?)
      || (|ds| < |p| && there == Some(Symlink(None)))
  }

  /** A lookup goes as far as directories and links lead, and ends as the place it stops at says. */
  lemma {:induction false} LookupFollowsTheRoute(root: Node, at: Path, p: Path) returns (ds: seq<Path>)
    requires p != []
    ensures Route(root, at, p, ds) && EndsWith(root, p, ds, Lstat(root, at, p))
    decreases |p|
  {
    hide Plain, Child;
    ds := [at];
    var here := Plain(root, at);
    if here.Some? && here.value.Dir? {
      PlainConcat(root, at, [p[0]]);
      ChildIsPlain(here.value, p[0]);
      var child := Child(here.value.entries, p[0]);
      if |p| > 1 && child.Some? && (child.value.Dir? || (child.value.Symlink? && child.value.target.Some?)) {
        var next := if child.value.Dir? then at + [p[0]] else child.value.target.value;
        var rest := LookupFollowsTheRoute(root, next, p[1..]);
        ds := [at] + rest;
        LongerRoute(root, at, p, next, rest, Lstat(root, next, p[1..]));
      }
    }
  }

  lemma LongerRoute(root: Node, at: Path, p: Path, next: Path, rest: seq<Path>, r: Stat)
    requires |p| > 1 && Enters(root, at, p[0], next)
    requires Route(root, next, p[1..], rest) && EndsWith(root, p[1..], rest, r)
    ensures Route(root, at, p, [at] + rest) && EndsWith(root, p, [at] + rest, r)
  {
    hide Enters, Plain;
    var ds := [at] + rest;
    forall i | 0 <= i < |ds| - 1 ensures Enters(root, ds[i], p[i], ds[i + 1]) {
      assert i > 0 ==> Enters(root, rest[i - 1], p[1..][i - 1], rest[i]);
    }
  }

  /** The first component that is no plain name outside the three directories, or the end. */
  ghost predicate FirstOdd(parts: seq<Component>, k: nat) {
    && k <= |parts|
    && (forall i :: 0 <= i < k ==> parts[i].Normal? && parts[i].name !in {".git", ".obsidian", ".trash"})
    && (k < |parts| ==> parts[k].Parent? || parts[k].name in {".git", ".obsidian", ".trash"})
  }

  lemma {:induction false} RelativeStopsAtFirstOdd(parts: seq<Component>) returns (k: nat)
    ensures FirstOdd(parts, k)
    ensures match Relative(parts)
            case Plainly(p) => k == |parts| == |p| && forall i :: 0 <= i < k ==> parts[i] == Normal(p[i])
            case Skipped => k < |parts| && parts[k].Normal?
            case Ambiguous => k < |parts| && parts[k].Parent?
    decreases |parts|
  {
    k := 0;
    if parts != [] && parts[0].Normal? && parts[0].name !in {".git", ".obsidian", ".trash"} {
      var rest := RelativeStopsAtFirstOdd(parts[1..]);
      k := rest + 1;
      forall i | 0 <= i < k ensures parts[i].Normal? && parts[i].name !in {".git", ".obsidian", ".trash"} {
        assert i > 0 ==> parts[i] == parts[1..][i - 1];
      }
    }
  }

  /** What a hint asks for, in the order in which its path, its name and what is on disk under it are looked at. */
  lemma HintOutcome(env: Env, root: Node, parts: seq<Component>) returns (k: nat, p: Path)
    ensures ScanHint(env, root, OutsideRoot) == Ignored
    ensures FirstOdd(parts, k) && |p| == k && forall i :: 0 <= i < k ==> parts[i] == Normal(p[i])
    ensures var r := ScanHint(env, root, InRoot(parts));
            if k < |parts| then r == if parts[k].Parent? then NeedsFullRescan else Ignored
            else if p == [] then r == NeedsFullRescan
            else
              match Lstat(root, [], p)
              case NotFound => r == if NoteName(p[k - 1]) then Change(p, None) else Ignored
              case ThroughFile => r == ScanFailed(NotADirectory)
              case Found(_, Dir(_)) => r == NeedsFullRescan
              case Found(found, File(data)) =>
                if !NoteName(p[k - 1]) then r == Ignored
                else if data.size > 4 * 1024 * 1024 then r == ScanFailed(NoteTooLarge)
                else if data.text.None? then r == ScanFailed(NotText)
                else r.Change? && r.path == found && r.note == Some(ScannedNote(found,
                  env.title(data.text.value, found), data.text.value, env.revision(data.text.value), data.modified, data.size))
              case Found(_, _) => r == if NoteName(p[k - 1]) then Change(p, None) else Ignored
  {
    hide Relative, Lstat, IsMarkdown, NoteName;
    k := RelativeStopsAtFirstOdd(parts);
    p := seq(k, i requires 0 <= i < k => parts[i].name);
    if k == |parts| {
      RelativeIsPlain(parts, p);
      if p != [] {
        MarkdownIsNoteName(p[k - 1]);
      }
    }
  }

  lemma RelativeIsPlain(parts: seq<Component>, p: Path)
    requires |parts| == |p| && (forall i :: 0 <= i < |p| ==> parts[i] == Normal(p[i])) && Relative(parts).Plainly?
    ensures Relative(parts) == Plainly(p)
  {
    assert Relative(parts).path == p;
  }

  /** Where a hinted path really is, once the links above its last component are followed. */
  function RealPath(root: Node, p: Path): Option<Path>
    requires p != []
  {
    match Lstat(root, [], p)
    case Found(found, _) => Some(found)
    case _ => None
  }

  /**
   Under a symbolic link the two can disagree, and only so: a hint reports a
   note that the walk does not yield exactly when no component of the hint is
   excluded, the path it really names is a readable note, and a component of
   that real path is excluded.
   */
  lemma HintReportsHiddenNoteIff(env: Env, root: Node, parts: seq<Component>, p: Path)
    requires WellFormed(root) && root.Dir? && p != []
    requires |parts| == |p| && forall i :: 0 <= i < |p| ==> parts[i] == Normal(p[i])
    ensures var r := ScanHint(env, root, InRoot(parts));
            (r.Change? && r.note.Some? && !Live(root, r.path)) <==>
              && !HasExcluded(p)
              && RealPath(root, p).Some?
              && var q := RealPath(root, p).value;
              && q != [] && HasExcluded(q) && IsMarkdown(q[|q| - 1])
              && Plain(root, q).Some? && Plain(root, q).value.File?
              && ReadNote(env, q, Plain(root, q).value.data).Success?
  {
    hide Lstat, Plain, IsMarkdown, WellFormed, ReadNote, HasExcluded;
    RelativeOfPath(parts, p);
    LstatFindsReal(root, [], p);
    ReadKeepsPath(env, root, p);
  }

  lemma ReadKeepsPath(env: Env, root: Node, p: Path)
    ensures forall q, d :: ReadNote(env, q, d).Success? ==> ReadNote(env, q, d).value.path == q
  {
  }

  const TRASHED_NOTE := File(FileData(1, Some("x"), 0))
  const TRASH := Dir([Entry("a.md", TRASHED_NOTE)])
  const LINK := Symlink(Some([".trash"]))
  const LINKED_VAULT := Dir([Entry(".trash", TRASH), Entry("link", LINK)])

  /** A link into the trash: the hint indexes a note no full scan would ever yield. */
  lemma LinkIntoTrashIndexesHiddenNote(env: Env)
    ensures WellFormed(LINKED_VAULT) && Readable(env, LINKED_VAULT)
    ensures LivePaths(LINKED_VAULT) == {}
    ensures ScanHint(env, LINKED_VAULT, InRoot([Normal("link"), Normal("a.md")]))
            == Change([".trash", "a.md"], Some(ReadNote(env, [".trash", "a.md"], TRASHED_NOTE.data).value))
  {
    hide Walk, Lstat, WellFormed, IsMarkdown, ReadNote, Relative;
    LinkedVaultFormed();
    LinkedVaultWalk();
    assert forall v | v in Walk(LINKED_VAULT, []) :: !v.node.File?;
    LinkedVaultHint(env);
  }

  lemma LinkedVaultFormed()
    ensures WellFormed(LINKED_VAULT)
  {
    assert WellFormed(TRASHED_NOTE);
    assert WellFormed(TRASH);
  }

  lemma LinkedVaultHint(env: Env)
    ensures ScanHint(env, LINKED_VAULT, InRoot([Normal("link"), Normal("a.md")]))
            == Change([".trash", "a.md"], Some(ReadNote(env, [".trash", "a.md"], TRASHED_NOTE.data).value))
  {
    LinkedVaultStat();
    LinkedVaultParts();
    NoteIsMarkdown();
    hide Lstat, IsMarkdown, Relative;
    assert ["link", "a.md"][1] == "a.md";
  }

  lemma LinkedVaultParts()
    ensures Relative([Normal("link"), Normal("a.md")]) == Plainly(["link", "a.md"])
  {
    var parts := [Normal("link"), Normal("a.md")];
    assert parts[1..] == [Normal("a.md")] && parts[1..][1..] == [];
    assert "link"[0] == 'l' && "a.md"[0] == 'a';
    assert !Excluded("link") && !Excluded("a.md");
    assert Relative([Normal("a.md")]) == Plainly(["a.md"]);
  }

  lemma NoteIsMarkdown()
    ensures IsMarkdown("a.md")
  {
    assert "a.md"[1] == '.';
  }

  lemma LinkedVaultWalk()
    ensures Walk(LINKED_VAULT, []) == [Visit([], LINKED_VAULT), Visit(["link"], LINK)]
  {
    var es := LINKED_VAULT.entries;
    assert [] + ["link"] == ["link"];
    assert WalkEntries(es[1..][1..], []) == [];
    assert WalkEntries(es[1..], []) == [Visit(["link"], LINK)];
    assert WalkEntries(es, []) == [Visit(["link"], LINK)];
  }

  lemma LinkedVaultStat()
    ensures Lstat(LINKED_VAULT, [], ["link", "a.md"]) == Found([".trash", "a.md"], TRASHED_NOTE)
  {
    var es := LINKED_VAULT.entries;
    assert ".trash"[0] == '.' && "link"[0] == 'l';
    assert Child(es[1..], "link") == Some(LINK);
    assert Plain(LINKED_VAULT, [".trash"]) == Some(TRASH) by {
      assert [".trash"][1..] == [];
    }
    assert ["link", "a.md"][1..] == ["a.md"];
    assert [".trash"] + ["a.md"] == [".trash", "a.md"];
    assert Child(TRASH.entries, "a.md") == Some(TRASHED_NOTE);
    assert Lstat(LINKED_VAULT, [".trash"], ["a.md"]) == Found([".trash", "a.md"], TRASHED_NOTE);
  }
}
