/**
 Keeping the note table equal to the vault: the full index, and the
 incremental reconcile of hinted paths that must leave the same rows.
 */
module VaultIndex {
  import opened Common
  import opened VaultTree
  import opened Storage

  datatype IndexError =
    | InvalidVaultId
    | RootNotDirectory
    | VaultNotIndexed
    | VaultRootMismatch
    | FullRescanRequired
    | InvalidIndexRevision
    | Scan(error: ScanError)

  /** `scanned` is the number of paths examined. */
  datatype Report = Report(scanned: nat, counts: Counts, indexRevision: int)

  predicate ValidVaultId(id: string) {
    && 0 < |id| <= 128
    && forall c | c in id ::
         'a' <= c <= 'z' || 'A' <= c <= 'Z' || '0' <= c <= '9' || c == '.' || c == '-' || c == '_'
  }

  /** A vault id, by its letters. */
  ghost predicate VaultId(id: string) {
    && 1 <= |id| <= 128
    && forall c :: c in id ==>
         c in "abcdefghijklmnopqrstuvwxyz" || c in "ABCDEFGHIJKLMNOPQRSTUVWXYZ" || c in "0123456789" || c in ".-_"
  }

  lemma ValidIdIsVaultId(id: string)
    ensures ValidVaultId(id) <==> VaultId(id)
  {
    forall c | c in id
      ensures 'a' <= c <= 'z' <==> c in "abcdefghijklmnopqrstuvwxyz"
      ensures 'A' <= c <= 'Z' <==> c in "ABCDEFGHIJKLMNOPQRSTUVWXYZ"
      ensures '0' <= c <= '9' <==> c in "0123456789"
    {
      LowerCase(c);
      UpperCase(c);
      Digit(c);
    }
  }

  lemma LowerCase(c: char)
    ensures 'a' <= c <= 'z' <==> c in "abcdefghijklmnopqrstuvwxyz"
  {
    if 'a' <= c <= 'z' {
      assert "abcdefghijklmnopqrstuvwxyz"[c as int - 'a' as int] == c;
    }
  }

  lemma UpperCase(c: char)
    ensures 'A' <= c <= 'Z' <==> c in "ABCDEFGHIJKLMNOPQRSTUVWXYZ"
  {
    if 'A' <= c <= 'Z' {
      assert "ABCDEFGHIJKLMNOPQRSTUVWXYZ"[c as int - 'A' as int] == c;
    }
  }

  lemma Digit(c: char)
    ensures '0' <= c <= '9' <==> c in "0123456789"
  {
    if '0' <= c <= '9' {
      assert "0123456789"[c as int - '0' as int] == c;
    }
  }

  // ------------------------------------------------- one vault's rows

  /** A row without its row id, which depends on the order of insertion. */
  datatype Columns = Columns(title: string, body: string, revision: string, modified: int, size: nat)

  type View = map<Path, Columns>

  function RowColumns(r: NoteRow): Columns {
    Columns(r.title, r.body, r.revision, r.modified, r.size)
  }

  function NoteColumns(n: ScannedNote): Columns {
    Columns(n.title, n.body, n.revision, n.modified, n.size)
  }

  ghost function ViewOf(notes: map<Key, NoteRow>, vault: string): View {
    map k | k in notes && k.vault == vault :: k.path := RowColumns(notes[k])
  }

  /** What happens to one row: an equal revision is left alone, times and all. */
  datatype Outcome = Created | Updated | Unchanged | Deleted

  function OutcomeOf(row: Option<Columns>, scan: Option<ScannedNote>): Outcome {
    if scan.None? then (if row.Some? then Deleted else Unchanged)
    else if row.None? then Created
    else if row.value.revision != scan.value.revision then Updated
    else Unchanged
  }

  function Merge(row: Option<Columns>, scan: Option<ScannedNote>): Option<Columns> {
    match OutcomeOf(row, scan)
    case Unchanged => row
    case Deleted => None
    case _ => Some(NoteColumns(scan.value))
  }

  /** The rows a full index leaves. */
  ghost predicate FullyIndexed(before: View, scan: map<Path, ScannedNote>, after: View) {
    forall p :: Get(after, p) == Merge(Get(before, p), Get(scan, p))
  }

  /** The rows an incremental reconcile leaves. */
  ghost predicate Reconciled(before: View, changes: map<Path, Option<ScannedNote>>, after: View) {
    forall p :: Get(after, p) == if p in changes then Merge(Get(before, p), changes[p]) else Get(before, p)
  }

  ghost function Having(o: Outcome, before: View, scan: map<Path, Option<ScannedNote>>): set<Path> {
    set p | p in scan && OutcomeOf(Get(before, p), scan[p]) == o
  }

  /** A row and the disk disagree about a path. */
  ghost predicate Differs(before: View, scan: map<Path, ScannedNote>, p: Path) {
    OutcomeOf(Get(before, p), Get(scan, p)) != Unchanged
  }

  /**
   The fast form refines the simple one: hints that carry the disk's notes and
   include every path where rows and disk disagree leave what a full index leaves.
   */
  lemma IncrementalRefinesFull(
    before: View, scan: map<Path, ScannedNote>, changes: map<Path, Option<ScannedNote>>, after: View, full: View)
    requires Reconciled(before, changes, after) && FullyIndexed(before, scan, full)
    requires forall p | p in changes :: changes[p] == Get(scan, p)
    ensures after == full <==> forall p :: Differs(before, scan, p) ==> p in changes
  {
    assert forall p :: Get(full, p) == Merge(Get(before, p), Get(scan, p));
    if forall p :: Differs(before, scan, p) ==> p in changes {
      forall p ensures Get(after, p) == Get(full, p) {
        if p !in changes {
          assert !Differs(before, scan, p);
        }
      }
      EqualViews(after, full);
    }
    if after == full {
      forall p | Differs(before, scan, p) ensures p in changes {
        MergeChangesRevision(Get(before, p), Get(scan, p));
        assert Get(after, p) == Get(full, p);
      }
    }
  }

  lemma EqualViews(a: View, b: View)
    requires forall p :: Get(a, p) == Get(b, p)
    ensures a == b
  {
    forall p ensures p in a <==> p in b {
      assert Get(a, p) == Get(b, p);
    }
    forall p | p in a ensures a[p] == b[p] {
      assert Get(a, p) == Get(b, p);
    }
  }

  lemma MergeChangesRevision(row: Option<Columns>, scan: Option<ScannedNote>)
    ensures OutcomeOf(row, scan) == Unchanged <==> Merge(row, scan) == row
    ensures OutcomeOf(Merge(row, scan), scan) == Unchanged
  {
  }

  /** Reconciling the same hints again finds nothing to do. */
  lemma ReconcileIsIdempotent(
    before: View, changes: map<Path, Option<ScannedNote>>, after: View, again: View)
    requires Reconciled(before, changes, after) && Reconciled(after, changes, again)
    ensures again == after
    ensures forall o | o != Unchanged :: Having(o, after, changes) == {}
  {
    forall p | p in changes ensures OutcomeOf(Get(after, p), changes[p]) == Unchanged {
      MergeChangesRevision(Get(before, p), changes[p]);
    }
    EqualViews(again, after);
  }

  lemma HavingMember(o: Outcome, before: View, scan: map<Path, Option<ScannedNote>>, p: Path)
    ensures p in Having(o, before, scan) <==> p in scan && OutcomeOf(Get(before, p), scan[p]) == o
  {
  }

  lemma DisjointSizes<T>(a: set<T>, b: set<T>, c: set<T>, d: set<T>)
    requires a !! b && (a + b) !! c && (a + b + c) !! d
    ensures |a + b + c + d| == |a| + |b| + |c| + |d|
  {
    assert |a + b + c + d| == |a + b + c| + |d|;
    assert |a + b + c| == |a + b| + |c|;
  }

  /** The classes partition the scanned paths. */
  lemma ClassesPartition(before: View, scan: map<Path, Option<ScannedNote>>)
    ensures |scan| == |Having(Created, before, scan)| + |Having(Updated, before, scan)|
                      + |Having(Unchanged, before, scan)| + |Having(Deleted, before, scan)|
  {
    var c, u := Having(Created, before, scan), Having(Updated, before, scan);
    var n, d := Having(Unchanged, before, scan), Having(Deleted, before, scan);
    HavingApart(Created, Updated, before, scan);
    HavingApart(Created, Unchanged, before, scan);
    HavingApart(Created, Deleted, before, scan);
    HavingApart(Updated, Unchanged, before, scan);
    HavingApart(Updated, Deleted, before, scan);
    HavingApart(Unchanged, Deleted, before, scan);
    HavingCovers(before, scan);
    DisjointSizes(c, u, n, d);
  }

  lemma HavingApart(o: Outcome, q: Outcome, before: View, scan: map<Path, Option<ScannedNote>>)
    requires o != q
    ensures Having(o, before, scan) !! Having(q, before, scan)
  {
  }

  lemma HavingCovers(before: View, scan: map<Path, Option<ScannedNote>>)
    ensures scan.Keys == Having(Created, before, scan) + Having(Updated, before, scan)
                         + Having(Unchanged, before, scan) + Having(Deleted, before, scan)
  {
    forall p | p in scan ensures p in Having(OutcomeOf(Get(before, p), scan[p]), before, scan) {
    }
  }

  /** The new number of rows is the old one plus the created less the deleted. */
  lemma RowCountMoves(before: View, changes: map<Path, Option<ScannedNote>>, after: View)
    requires Reconciled(before, changes, after)
    ensures |after| == |before| + |Having(Created, before, changes)| - |Having(Deleted, before, changes)|
  {
    hide Having, Reconciled;
    var c, d := Having(Created, before, changes), Having(Deleted, before, changes);
    forall p ensures (p in after.Keys || p in d) <==> (p in before.Keys || p in c) {
      RowMoves(before, changes, after, p);
    }
    forall p ensures !(p in after.Keys && p in d) && !(p in before.Keys && p in c) {
      RowMoves(before, changes, after, p);
    }
    ExchangeSizes(after.Keys, d, before.Keys, c);
  }

  lemma ExchangeSizes<T>(a: set<T>, d: set<T>, b: set<T>, c: set<T>)
    requires forall x :: (x in a || x in d) <==> (x in b || x in c)
    requires a !! d && b !! c
    ensures |a| + |d| == |b| + |c|
  {
    assert a + d == b + c;
    assert |a + d| == |a| + |d|;
    assert |b + c| == |b| + |c|;
  }

  lemma RowMoves(before: View, changes: map<Path, Option<ScannedNote>>, after: View, p: Path)
    requires Reconciled(before, changes, after)
    ensures p in Having(Created, before, changes) ==> p !in before && p in after
    ensures p in Having(Deleted, before, changes) ==> p in before && p !in after
    ensures p !in Having(Created, before, changes) && p !in Having(Deleted, before, changes) ==>
              (p in before <==> p in after)
  {
    assert Get(after, p) == if p in changes then Merge(Get(before, p), changes[p]) else Get(before, p);
  }

  /** Applying one more scanned path to the rows, by the class it falls in. */
  lemma ReconcileOneMore(
    before: View, changes: map<Path, Option<ScannedNote>>, now: View, p: Path, scan: Option<ScannedNote>, next: View)
    requires Reconciled(before, changes, now) && p !in changes
    requires next == Put(now, p, Merge(Get(now, p), scan))
    ensures Get(now, p) == Get(before, p)
    ensures Reconciled(before, changes[p := scan], next)
  {
    assert Get(now, p) == Get(before, p);
    forall q ensures Get(next, q) == if q in changes[p := scan] then Merge(Get(before, q), changes[p := scan][q])
                                     else Get(before, q)
    {
      assert Get(now, q) == if q in changes then Merge(Get(before, q), changes[q]) else Get(before, q);
    }
  }

  /** A full scan read as changes: every live note, and every known row that is gone. */
  function Present(scan: map<Path, ScannedNote>, known: set<Path>): map<Path, Option<ScannedNote>> {
    map p | p in scan.Keys + known :: Get(scan, p)
  }

  lemma FullIsReconcileOfEverything(before: View, scan: map<Path, ScannedNote>, after: View)
    requires Reconciled(before, Present(scan, before.Keys), after)
    ensures FullyIndexed(before, scan, after)
  {
    forall p ensures Get(after, p) == Merge(Get(before, p), Get(scan, p)) {
      assert Get(after, p) == if p in Present(scan, before.Keys)
                              then Merge(Get(before, p), Present(scan, before.Keys)[p]) else Get(before, p);
    }
  }

  // ------------------------------------------------- rows of one vault in the table

  lemma ViewAfterUpsert(notes: map<Key, NoteRow>, k: Key, r: NoteRow)
    ensures ViewOf(notes[k := r], k.vault) == ViewOf(notes, k.vault)[k.path := RowColumns(r)]
  {
    var after := ViewOf(notes[k := r], k.vault);
    forall p ensures Get(after, p) == if p == k.path then Some(RowColumns(r)) else Get(ViewOf(notes, k.vault), p) {
      assert Key(k.vault, p) in notes[k := r] <==> p in after;
      assert Key(k.vault, p) in notes <==> p in ViewOf(notes, k.vault);
    }
    EqualViews(after, ViewOf(notes, k.vault)[k.path := RowColumns(r)]);
  }

  lemma ViewAfterDelete(notes: map<Key, NoteRow>, k: Key)
    ensures ViewOf(notes - {k}, k.vault) == ViewOf(notes, k.vault) - {k.path}
  {
    var after := ViewOf(notes - {k}, k.vault);
    forall p ensures Get(after, p) == if p == k.path then None else Get(ViewOf(notes, k.vault), p) {
      assert Key(k.vault, p) in notes - {k} <==> p in after;
      assert Key(k.vault, p) in notes <==> p in ViewOf(notes, k.vault);
    }
    EqualViews(after, ViewOf(notes, k.vault) - {k.path});
  }

  lemma RowInView(notes: map<Key, NoteRow>, k: Key)
    ensures Get(ViewOf(notes, k.vault), k.path) == if k in notes then Some(RowColumns(notes[k])) else None
  {
  }

  ghost predicate OtherNotesKept(before: map<Key, NoteRow>, after: map<Key, NoteRow>, vault: string) {
    forall k: Key | k.vault != vault :: Get(before, k) == Get(after, k)
  }

  datatype Counts = Counts(created: nat, updated: nat, same: nat, deleted: nat)
  {
    function Add(o: Outcome): Counts {
      match o
      case Created => this.(created := created + 1)
      case Updated => this.(updated := updated + 1)
      case Unchanged => this.(same := same + 1)
      case Deleted => this.(deleted := deleted + 1)
    }

    function Changed(): nat {
      created + updated + deleted
    }
  }

  ghost predicate Counted(c: Counts, before: View, changes: map<Path, Option<ScannedNote>>) {
    && c.created == |Having(Created, before, changes)|
    && c.updated == |Having(Updated, before, changes)|
    && c.same == |Having(Unchanged, before, changes)|
    && c.deleted == |Having(Deleted, before, changes)|
  }

  /** The state of a transaction that has applied some of the scanned paths. */
  ghost predicate Progress(
    start: map<Key, NoteRow>, notes: map<Key, NoteRow>, vault: string,
    changes: map<Path, Option<ScannedNote>>, c: Counts)
  {
    && OtherNotesKept(start, notes, vault)
    && Reconciled(ViewOf(start, vault), changes, ViewOf(notes, vault))
    && Counted(c, ViewOf(start, vault), changes)
  }

  /** What one path may do to the note table. */
  ghost predicate RowStep(
    notes: map<Key, NoteRow>, next: map<Key, NoteRow>, k: Key, scan: Option<ScannedNote>)
  {
    match OutcomeOf(if k in notes then Some(RowColumns(notes[k])) else None, scan)
    case Unchanged => next == notes
    case Deleted => next == notes - {k}
    case _ => k in next && next == notes[k := RowOf(next[k].id, scan.value)]
  }

  lemma DeleteIsRowStep(notes: map<Key, NoteRow>, k: Key)
    requires k in notes
    ensures RowStep(notes, notes - {k}, k, None)
    ensures OutcomeOf(Some(RowColumns(notes[k])), None) == Deleted
  {
  }

  lemma RowStepInView(
    notes: map<Key, NoteRow>, next: map<Key, NoteRow>, k: Key, scan: Option<ScannedNote>)
    requires RowStep(notes, next, k, scan)
    ensures var now := ViewOf(notes, k.vault);
            ViewOf(next, k.vault) == Put(now, k.path, Merge(Get(now, k.path), scan))
    ensures OtherNotesKept(notes, next, k.vault)
  {
    var now := ViewOf(notes, k.vault);
    RowInView(notes, k);
    match OutcomeOf(Get(now, k.path), scan) {
      case Unchanged =>
        assert Put(now, k.path, Get(now, k.path)) == now;
      case Deleted =>
        ViewAfterDelete(notes, k);
      case _ =>
        ViewAfterUpsert(notes, k, next[k]);
    }
  }

  lemma ProgressOneMore(
    start: map<Key, NoteRow>, notes: map<Key, NoteRow>, next: map<Key, NoteRow>, k: Key,
    changes: map<Path, Option<ScannedNote>>, c: Counts, scan: Option<ScannedNote>)
    requires Progress(start, notes, k.vault, changes, c) && k.path !in changes
    requires RowStep(notes, next, k, scan)
    ensures Get(ViewOf(start, k.vault), k.path) == Get(ViewOf(notes, k.vault), k.path)
    ensures Progress(start, next, k.vault, changes[k.path := scan],
              c.Add(OutcomeOf(Get(ViewOf(start, k.vault), k.path), scan)))
  {
    RowStepInView(notes, next, k, scan);
    ReconcileOneMore(ViewOf(start, k.vault), changes, ViewOf(notes, k.vault), k.path, scan, ViewOf(next, k.vault));
    CountOneMore(c, ViewOf(start, k.vault), changes, k.path, scan);
    forall j: Key | j.vault != k.vault ensures Get(start, j) == Get(next, j) {
      assert Get(start, j) == Get(notes, j);
    }
  }

  lemma CountOneMore(
    c: Counts, before: View, changes: map<Path, Option<ScannedNote>>, p: Path, scan: Option<ScannedNote>)
    requires Counted(c, before, changes) && p !in changes
    ensures Counted(c.Add(OutcomeOf(Get(before, p), scan)), before, changes[p := scan])
  {
    HavingOneMore(Created, before, changes, p, scan);
    HavingOneMore(Updated, before, changes, p, scan);
    HavingOneMore(Unchanged, before, changes, p, scan);
    HavingOneMore(Deleted, before, changes, p, scan);
  }

  lemma HavingOneMore(
    o: Outcome, before: View, changes: map<Path, Option<ScannedNote>>, p: Path, scan: Option<ScannedNote>)
    requires p !in changes
    ensures |Having(o, before, changes[p := scan])|
         == |Having(o, before, changes)| + (if OutcomeOf(Get(before, p), scan) == o then 1 else 0)
  {
    var small, large := Having(o, before, changes), Having(o, before, changes[p := scan]);
    hide OutcomeOf, Having;
    forall q ensures q in large <==> q in small || (q == p && OutcomeOf(Get(before, p), scan) == o) {
      HavingMember(o, before, changes, q);
      HavingMember(o, before, changes[p := scan], q);
    }
    HavingMember(o, before, changes, p);
    OneMore(small, large, p, OutcomeOf(Get(before, p), scan) == o);
  }

  lemma OneMore<T>(small: set<T>, large: set<T>, p: T, more: bool)
    requires p !in small && forall q :: q in large <==> q in small || (q == p && more)
    ensures |large| == |small| + (if more then 1 else 0)
  {
    assert large == if more then small + {p} else small;
  }

  // ------------------------------------------------- what a scan delivers

  /** The live notes of a vault whose notes can all be read. */
  function Snapshot(env: Env, root: Node): map<Path, ScannedNote> {
    map p | p in LivePaths(root) && NoteAt(env, root, p).Some? :: NoteAt(env, root, p).value
  }

  lemma NoteOfVisit(env: Env, root: Node, v: Visit)
    requires WellFormed(root) && v in Walk(root, []) && IsNoteVisit(v)
    ensures v.path in LivePaths(root)
    ensures NoteAt(env, root, v.path).Some? <==> ReadNote(env, v.path, v.node.data).Success?
    ensures NoteAt(env, root, v.path).Some? ==>
              ReadNote(env, v.path, v.node.data) == Success(NoteAt(env, root, v.path).value)
  {
    WalkYieldsLiveNotes(root, v.path);
  }

  /** The notes of a prefix of the walk, as changes. */
  ghost predicate ScannedSoFar(env: Env, root: Node, visits: seq<Visit>, changes: map<Path, Option<ScannedNote>>) {
    && (forall v | v in visits && IsNoteVisit(v) :: v.path in changes && ReadNote(env, v.path, v.node.data).Success?)
    && (forall p | p in changes :: p in LivePaths(root) && changes[p].Some? && changes[p] == NoteAt(env, root, p)
          && exists v | v in visits :: v.path == p)
  }

  lemma ScannedOneMore(env: Env, root: Node, visits: seq<Visit>, i: nat, changes: map<Path, Option<ScannedNote>>)
    requires WellFormed(root) && visits == Walk(root, []) && DistinctPaths(visits) && i < |visits|
    requires ScannedSoFar(env, root, visits[..i], changes)
    requires IsNoteVisit(visits[i]) && ReadNote(env, visits[i].path, visits[i].node.data).Success?
    ensures visits[i].path !in changes
    ensures ScannedSoFar(env, root, visits[..i + 1],
              changes[visits[i].path := Some(ReadNote(env, visits[i].path, visits[i].node.data).value)])
  {
    hide Walk, WellFormed, ReadNote, NoteAt, LivePaths, IsMarkdown;
    var v := visits[i];
    var note := ReadNote(env, v.path, v.node.data).value;
    NoteOfVisit(env, root, v);
    assert forall u | u in visits[..i] :: u.path != v.path;
    forall u | u in visits[..i + 1] ensures u in visits[..i] || u == v {
    }
    forall u | u in visits[..i] ensures u in visits[..i + 1] {
    }
    assert v in visits[..i + 1];
    assert NoteAt(env, root, v.path) == Some(note);
  }

  lemma ScannedNone(env: Env, root: Node)
    ensures ScannedSoFar(env, root, [], map[])
  {
  }

  lemma ScannedSkip(env: Env, root: Node, visits: seq<Visit>, i: nat, changes: map<Path, Option<ScannedNote>>)
    requires i < |visits| && ScannedSoFar(env, root, visits[..i], changes) && !IsNoteVisit(visits[i])
    ensures ScannedSoFar(env, root, visits[..i + 1], changes)
  {
    assert visits[..i + 1] == visits[..i] + [visits[i]];
  }

  lemma ScannedAll(env: Env, root: Node, changes: map<Path, Option<ScannedNote>>)
    requires WellFormed(root) && ScannedSoFar(env, root, Walk(root, []), changes)
    ensures Readable(env, root)
    ensures changes.Keys == Snapshot(env, root).Keys
    ensures forall p | p in changes :: changes[p] == Get(Snapshot(env, root), p)
  {
    hide Walk, WellFormed, Plain, IsMarkdown, ReadNote;
    forall p | p in LivePaths(root) ensures p in changes {
      var v :| v in Walk(root, []) && IsNoteVisit(v) && v.path == p;
      assert v.path in changes;
    }
  }

  lemma ScanStopped(env: Env, root: Node, v: Visit)
    requires v in Walk(root, []) && IsNoteVisit(v) && ReadNote(env, v.path, v.node.data).Failure?
    ensures !Readable(env, root)
  {
  }

  /** The rows a scan has not met yet, by revision. */
  function Remaining(before: View, changes: map<Path, Option<ScannedNote>>): map<Path, string> {
    map p | p in before && p !in changes :: before[p].revision
  }

  lemma RemainingRow(
    start: map<Key, NoteRow>, notes: map<Key, NoteRow>, k: Key, changes: map<Path, Option<ScannedNote>>, c: Counts)
    requires Progress(start, notes, k.vault, changes, c) && k.path !in changes
    ensures Get(Remaining(ViewOf(start, k.vault), changes), k.path)
            == if k in notes then Some(notes[k].revision) else None
  {
    RowInView(notes, k);
    assert Get(ViewOf(notes, k.vault), k.path) == Get(ViewOf(start, k.vault), k.path);
  }

  lemma RemainingOneLess(before: View, changes: map<Path, Option<ScannedNote>>, p: Path, scan: Option<ScannedNote>)
    ensures Remaining(before, changes[p := scan]) == Remaining(before, changes) - {p}
  {
  }

  lemma RemainingIsUnmet(before: View, changes: map<Path, Option<ScannedNote>>, p: Path)
    requires p in Remaining(before, changes)
    ensures p !in changes
  {
  }

  lemma NothingRemains(before: View, scan: map<Path, ScannedNote>, changes: map<Path, Option<ScannedNote>>)
    requires Remaining(before, changes).Keys == {}
    requires scan.Keys <= changes.Keys <= scan.Keys + before.Keys
    requires forall p | p in changes :: changes[p] == Get(scan, p)
    ensures changes == Present(scan, before.Keys)
  {
    assert forall p | p in before && p !in changes :: p in Remaining(before, changes);
  }

  lemma ProgressStart(start: map<Key, NoteRow>, vault: string)
    ensures Progress(start, start, vault, map[], Counts(0, 0, 0, 0))
    ensures Remaining(ViewOf(start, vault), map[])
         == map k | k in start && k.vault == vault :: k.path := start[k].revision
  {
    var none: map<Path, Option<ScannedNote>> := map[];
    var before := ViewOf(start, vault);
    assert forall o :: Having(o, before, none) == {};
    var revisions := map k | k in start && k.vault == vault :: k.path := start[k].revision;
    forall p ensures p in revisions <==> p in Remaining(before, map[]) {
      assert Key(vault, p) in start <==> p in before;
    }
  }

  function ScanHints(env: Env, root: Node, hints: seq<Hint>): Result<map<Path, Option<ScannedNote>>, IndexError> {
    if hints == [] then Success(map[])
    else match ScanHints(env, root, hints[..|hints| - 1])
      case Failure(e) => Failure(e)
      case Success(changes) =>
        match ScanHint(env, root, hints[|hints| - 1])
        case Ignored => Success(changes)
        case Change(p, note) => Success(changes[p := note])
        case NeedsFullRescan => Failure(FullRescanRequired)
        case ScanFailed(e) => Failure(Scan(e))
  }

  lemma {:induction false} FirstFailureWins(env: Env, root: Node, hints: seq<Hint>, n: nat)
    requires n <= |hints| && ScanHints(env, root, hints[..n]).Failure?
    ensures ScanHints(env, root, hints) == ScanHints(env, root, hints[..n])
    decreases |hints|
  {
    if n < |hints| {
      assert hints[..|hints| - 1][..n] == hints[..n];
      FirstFailureWins(env, root, hints[..|hints| - 1], n);
    } else {
      assert hints[..n] == hints;
    }
  }

  lemma {:induction false} ScanHintsPaths(env: Env, root: Node, hints: seq<Hint>)
    requires ScanHints(env, root, hints).Success?
    ensures forall p | p in ScanHints(env, root, hints).value ::
              ScanHints(env, root, hints).value[p].Some? ==> ScanHints(env, root, hints).value[p].value.path == p
  {
    if hints != [] {
      ScanHintsPaths(env, root, hints[..|hints| - 1]);
    }
  }

  // ------------------------------------------------------ the two routines

  ghost predicate OthersKept(before: Db, after: Db, vault: string) {
    && OtherNotesKept(before.notes, after.notes, vault)
    && (forall v | v != vault :: Get(before.vaults, v) == Get(after.vaults, v))
  }

  function RevisionOf(db: Db, vault: string): int {
    if vault in db.vaults then db.vaults[vault].indexRevision else 0
  }

  /** Everything one full index may do to the database. */
  ghost predicate FullIndexStep(before: Db, after: Db, vault: string, root: string, scan: map<Path, ScannedNote>) {
    && OthersKept(before, after, vault)
    && FullyIndexed(ViewOf(before.notes, vault), scan, ViewOf(after.notes, vault))
    && vault in after.vaults && after.vaults[vault].root == root
    && RevisionOf(after, vault) == RevisionOf(before, vault) + 1
  }

  ghost predicate NothingToDo(before: Db, vault: string, changes: map<Path, Option<ScannedNote>>) {
    forall p | p in changes :: OutcomeOf(Get(ViewOf(before.notes, vault), p), changes[p]) == Unchanged
  }

  /** Everything one incremental reconcile may do to the database. */
  ghost predicate ReconcileStep(before: Db, after: Db, vault: string, changes: map<Path, Option<ScannedNote>>) {
    && OthersKept(before, after, vault)
    && Reconciled(ViewOf(before.notes, vault), changes, ViewOf(after.notes, vault))
    && vault in before.vaults && vault in after.vaults
    && after.vaults[vault].root == before.vaults[vault].root
    && RevisionOf(after, vault) == RevisionOf(before, vault) + (if NothingToDo(before, vault, changes) then 0 else 1)
  }

  lemma UnchangedCountsMeanNothingToDo(before: Db, vault: string, changes: map<Path, Option<ScannedNote>>, c: Counts)
    requires Counted(c, ViewOf(before.notes, vault), changes)
    ensures c.Changed() == 0 <==> NothingToDo(before, vault, changes)
  {
    var v := ViewOf(before.notes, vault);
    NoneHaving(Created, v, changes);
    NoneHaving(Updated, v, changes);
    NoneHaving(Deleted, v, changes);
    hide Having, ViewOf, Get;
    NoneButUnchanged(v, changes);
  }

  ghost predicate NoneIs(o: Outcome, before: View, changes: map<Path, Option<ScannedNote>>) {
    forall p | p in changes :: OutcomeOf(Get(before, p), changes[p]) != o
  }

  lemma NoneButUnchanged(before: View, changes: map<Path, Option<ScannedNote>>)
    ensures NoneIs(Created, before, changes) && NoneIs(Updated, before, changes) && NoneIs(Deleted, before, changes)
            <==> forall p | p in changes :: OutcomeOf(Get(before, p), changes[p]) == Unchanged
  {
    hide OutcomeOf, Get;
  }

  lemma NoneHaving(o: Outcome, before: View, changes: map<Path, Option<ScannedNote>>)
    ensures |Having(o, before, changes)| == 0 <==> NoneIs(o, before, changes)
  {
    hide OutcomeOf;
    var having := Having(o, before, changes);
    forall p | p in changes ensures p in having <==> OutcomeOf(Get(before, p), changes[p]) == o {
      HavingMember(o, before, changes, p);
    }
    if |having| != 0 {
      var p :| p in having;
      assert p in changes;
    }
  }

  // ------------------------------------------------------ what the two promise together

  /** A hint that, followed plainly, passes through no symbolic link. */
  ghost predicate LinkFree(root: Node, h: Hint) {
    h.InRoot? && Relative(h.parts).Plainly? ==> NoLinkAbove(root, Relative(h.parts).path)
  }

  ghost predicate Names(h: Hint, p: Path) {
    h.InRoot? && |h.parts| == |p| && forall i :: 0 <= i < |p| ==> h.parts[i] == Normal(p[i])
  }

  predicate NotePath(p: Path) {
    p != [] && IsMarkdown(p[|p| - 1]) && !HasExcluded(p)
  }

  lemma SnapshotAt(env: Env, root: Node, p: Path)
    requires WellFormed(root)
    ensures NoteAt(env, root, p) == Get(Snapshot(env, root), p)
  {
  }

  /** Link-free hints that scan without failure carry exactly the disk's notes. */
  lemma {:induction false} HintsCarryTheDisk(env: Env, root: Node, hints: seq<Hint>)
    requires WellFormed(root) && root.Dir? && Readable(env, root)
    requires forall h | h in hints :: LinkFree(root, h)
    requires ScanHints(env, root, hints).Success?
    ensures forall p | p in ScanHints(env, root, hints).value ::
              ScanHints(env, root, hints).value[p] == Get(Snapshot(env, root), p)
    ensures forall h, p | h in hints && Names(h, p) && NotePath(p) :: p in ScanHints(env, root, hints).value
    decreases |hints|
  {
    if hints != [] {
      var rest, last := hints[..|hints| - 1], hints[|hints| - 1];
      HintsCarryTheDisk(env, root, rest);
      OneHintCarriesTheDisk(env, root, last);
      forall h | h in hints ensures h in rest || h == last {
      }
    }
  }

  lemma OneHintCarriesTheDisk(env: Env, root: Node, h: Hint)
    requires WellFormed(root) && root.Dir? && Readable(env, root) && LinkFree(root, h)
    ensures ScanHint(env, root, h).Change? ==>
              ScanHint(env, root, h).note == Get(Snapshot(env, root), ScanHint(env, root, h).path)
    ensures forall p | Names(h, p) && NotePath(p) && (ScanHint(env, root, h).Change? || ScanHint(env, root, h).Ignored?) ::
              ScanHint(env, root, h).Change? && ScanHint(env, root, h).path == p
  {
    if h.InRoot? && h.parts != [] && Relative(h.parts).Plainly? {
      var p := Relative(h.parts).path;
      PerPathAgreesWithWalk(env, root, h.parts, p);
      SnapshotAt(env, root, p);
      forall q | Names(h, q) ensures q == p {
      }
    }
    forall p | Names(h, p) && NotePath(p) ensures Relative(h.parts).Plainly? {
    }
  }

  /**
   From the same rows and the same disk, an incremental reconcile whose hints
   name every path on which rows and disk disagree leaves the rows of a full
   index, row ids aside. The condition is exact: without such hints it does not.
   */
  lemma ReconcileEqualsFullIndex(
    env: Env, root: Node, hints: seq<Hint>, vault: string, rootText: string, before: Db, inc: Db, full: Db)
    requires WellFormed(root) && root.Dir? && Readable(env, root)
    requires forall h | h in hints :: LinkFree(root, h)
    requires forall p | p in ViewOf(before.notes, vault) :: NotePath(p)
    requires ScanHints(env, root, hints).Success?
    requires ReconcileStep(before, inc, vault, ScanHints(env, root, hints).value)
    requires FullIndexStep(before, full, vault, rootText, Snapshot(env, root))
    ensures (forall p | Differs(ViewOf(before.notes, vault), Snapshot(env, root), p) :: exists h | h in hints :: Names(h, p))
            ==> ViewOf(inc.notes, vault) == ViewOf(full.notes, vault)
    ensures ViewOf(inc.notes, vault) == ViewOf(full.notes, vault) <==>
              forall p | Differs(ViewOf(before.notes, vault), Snapshot(env, root), p) ::
                p in ScanHints(env, root, hints).value
  {
    var v, scan := ViewOf(before.notes, vault), Snapshot(env, root);
    var changes := ScanHints(env, root, hints).value;
    HintsCarryTheDisk(env, root, hints);
    IncrementalRefinesFull(v, scan, changes, ViewOf(inc.notes, vault), ViewOf(full.notes, vault));
    if forall p | Differs(v, scan, p) :: exists h | h in hints :: Names(h, p) {
      forall p | Differs(v, scan, p) ensures p in changes {
        DifferingPathIsNotePath(env, root, v, p);
        var h :| h in hints && Names(h, p);
      }
    }
  }

  lemma DifferingPathIsNotePath(env: Env, root: Node, v: View, p: Path)
    requires WellFormed(root) && Differs(v, Snapshot(env, root), p)
    requires forall q | q in v :: NotePath(q)
    ensures NotePath(p)
  {
    if p !in v {
      WalkYieldsLiveNotes(root, p);
    }
  }

  /** A full index leaves only note paths, so that the hypothesis above holds of every later state. */
  lemma FullIndexLeavesNotePaths(env: Env, root: Node, before: View, after: View)
    requires WellFormed(root) && FullyIndexed(before, Snapshot(env, root), after)
    ensures forall p | p in after :: NotePath(p)
  {
    forall p | p in after ensures NotePath(p) {
      assert Get(after, p) == Merge(Get(before, p), Get(Snapshot(env, root), p));
      WalkYieldsLiveNotes(root, p);
    }
  }

  /**
   A row after a full index is of a live note. It is the row as it stood if that
   had the file's revision, and otherwise it holds the file's own text, time and
   size, and the title the rule gives that text at that path.
   */
  lemma WrittenRowsAreTheFile(env: Env, root: Node, before: View, after: View, p: Path)
    requires WellFormed(root) && FullyIndexed(before, Snapshot(env, root), after) && p in after
    ensures Live(root, p)
    ensures var file := Plain(root, p).value.data;
            && file.text.Some? && file.size <= 4 * 1024 * 1024
            && after[p] == (
              if p in before && before[p].revision == env.revision(file.text.value) then before[p]
              else Columns(env.title(file.text.value, p), file.text.value, env.revision(file.text.value),
                           file.modified, file.size))
  {
    hide Walk, Plain, IsMarkdown, LivePaths, WellFormed, HasExcluded;
    WalkYieldsLiveNotes(root, p);
    SnapshotAt(env, root, p);
    assert Get(after, p) == Merge(Get(before, p), Get(Snapshot(env, root), p));
  }

  /** After a full index every row's text is the disk's, when the revision tells texts apart. */
  lemma IndexedBodiesAreTheDisk(env: Env, root: Node, before: View, after: View)
    requires forall s, t: string :: env.revision(s) == env.revision(t) ==> s == t
    requires forall p | p in before :: before[p].revision == env.revision(before[p].body)
    requires WellFormed(root) && FullyIndexed(before, Snapshot(env, root), after)
    ensures after.Keys == Snapshot(env, root).Keys
    ensures forall p | p in after :: after[p].body == Snapshot(env, root)[p].body
                                     && after[p].revision == env.revision(after[p].body)
  {
    hide Snapshot, WellFormed, Merge;
    var scan := Snapshot(env, root);
    forall p
      ensures p in after <==> p in scan
      ensures p in after ==> after[p].body == scan[p].body && after[p].revision == env.revision(after[p].body)
    {
      OneBodyIsTheDisk(env, root, before, after, p);
    }
  }

  lemma OneBodyIsTheDisk(env: Env, root: Node, before: View, after: View, p: Path)
    requires forall s, t: string :: env.revision(s) == env.revision(t) ==> s == t
    requires p in before ==> before[p].revision == env.revision(before[p].body)
    requires Get(after, p) == Merge(Get(before, p), Get(Snapshot(env, root), p))
    ensures p in after <==> p in Snapshot(env, root)
    ensures p in after ==> after[p].body == Snapshot(env, root)[p].body && after[p].revision == env.revision(after[p].body)
  {
    hide Walk, Plain, IsMarkdown, LivePaths;
  }

  /** A second reconcile of the same hints changes no row and keeps the revision. */
  lemma SecondReconcileKeepsRevision(a: Db, b: Db, c: Db, vault: string, changes: map<Path, Option<ScannedNote>>)
    requires ReconcileStep(a, b, vault, changes) && ReconcileStep(b, c, vault, changes)
    ensures ViewOf(c.notes, vault) == ViewOf(b.notes, vault)
    ensures RevisionOf(c, vault) == RevisionOf(b, vault)
  {
    var v := ViewOf(b.notes, vault);
    ReconcileIsIdempotent(ViewOf(a.notes, vault), changes, v, ViewOf(c.notes, vault));
    forall p | p in changes ensures OutcomeOf(Get(v, p), changes[p]) == Unchanged {
      HavingMember(OutcomeOf(Get(v, p), changes[p]), v, changes, p);
    }
  }

  // ------------------------------------------------------ runs of the storage

  datatype Commit =
    | Full(vault: string, root: string, scan: map<Path, ScannedNote>)
    | Incremental(vault: string, changes: map<Path, Option<ScannedNote>>)

  ghost predicate Committed(before: Db, after: Db, c: Commit) {
    match c
    case Full(vault, root, scan) => FullIndexStep(before, after, vault, root, scan)
    case Incremental(vault, changes) => ReconcileStep(before, after, vault, changes)
  }

  ghost predicate CommitRun(dbs: seq<Db>, cs: seq<Commit>) {
    |dbs| == |cs| + 1 && forall i | 0 <= i < |cs| :: Committed(dbs[i], dbs[i + 1], cs[i])
  }

  lemma CommitRaisesRevision(before: Db, after: Db, c: Commit, vault: string)
    requires Committed(before, after, c)
    ensures RevisionOf(before, vault) <= RevisionOf(after, vault)
    ensures RevisionOf(before, vault) == RevisionOf(after, vault) ==>
              ViewOf(before.notes, vault) == ViewOf(after.notes, vault)
  {
    if c.vault != vault {
      forall p ensures Get(ViewOf(before.notes, vault), p) == Get(ViewOf(after.notes, vault), p) {
        RowInView(before.notes, Key(vault, p));
        RowInView(after.notes, Key(vault, p));
        assert Get(before.notes, Key(vault, p)) == Get(after.notes, Key(vault, p));
      }
      EqualViews(ViewOf(before.notes, vault), ViewOf(after.notes, vault));
      assert Get(before.vaults, vault) == Get(after.vaults, vault);
    } else if c.Incremental? && NothingToDo(before, vault, c.changes) {
      var v := ViewOf(before.notes, vault);
      forall p ensures Get(ViewOf(after.notes, vault), p) == Get(v, p) {
        if p in c.changes {
          MergeChangesRevision(Get(v, p), c.changes[p]);
        }
      }
      EqualViews(ViewOf(after.notes, vault), v);
    }
  }

  /**
   The index revision is a version number: over any run of commits to any
   vaults it never falls, and two states that report the same revision of a
   vault hold the same notes of it.
   */
  lemma {:induction false} RevisionIsVersion(dbs: seq<Db>, cs: seq<Commit>, i: nat, j: nat, vault: string)
    requires CommitRun(dbs, cs) && i <= j < |dbs|
    ensures RevisionOf(dbs[i], vault) <= RevisionOf(dbs[j], vault)
    ensures RevisionOf(dbs[i], vault) == RevisionOf(dbs[j], vault) ==>
              ViewOf(dbs[i].notes, vault) == ViewOf(dbs[j].notes, vault)
    decreases j - i
  {
    hide Committed, ViewOf, RevisionOf;
    if i < j {
      CommitRaisesRevision(dbs[i], dbs[i + 1], cs[i], vault);
      RevisionIsVersion(dbs, cs, i + 1, j, vault);
    }
  }

  /** The report adds up: the classes make up what was examined, and the rows move by created less deleted. */
  lemma ReportAddsUp(r: Report, before: Db, after: Db, vault: string, changes: map<Path, Option<ScannedNote>>)
    requires ReconcileStep(before, after, vault, changes)
    requires Counted(r.counts, ViewOf(before.notes, vault), changes) && r.scanned == |changes|
    ensures r.scanned == r.counts.created + r.counts.updated + r.counts.same + r.counts.deleted
    ensures |ViewOf(after.notes, vault)| == |ViewOf(before.notes, vault)| + r.counts.created - r.counts.deleted
  {
    ClassesPartition(ViewOf(before.notes, vault), changes);
    RowCountMoves(ViewOf(before.notes, vault), changes, ViewOf(after.notes, vault));
  }

  /** The same of a full index, whose scanned notes exclude the deleted rows. */
  lemma FullReportAddsUp(r: Report, before: View, after: View, scan: map<Path, ScannedNote>)
    requires FullyIndexed(before, scan, after)
    requires Counted(r.counts, before, Present(scan, before.Keys)) && r.scanned == |scan|
    ensures r.scanned == r.counts.created + r.counts.updated + r.counts.same
    ensures |after| == |before| + r.counts.created - r.counts.deleted == |scan|
  {
    hide Having, FullyIndexed, Present;
    var changes := Present(scan, before.Keys);
    FullIsReconcile(before, scan, after);
    ClassesPartition(before, changes);
    RowCountMoves(before, changes, after);
    assert |changes.Keys| == |scan.Keys| + |changes.Keys - scan.Keys|;
  }

  lemma FullIsReconcile(before: View, scan: map<Path, ScannedNote>, after: View)
    requires FullyIndexed(before, scan, after)
    ensures Reconciled(before, Present(scan, before.Keys), after)
    ensures after.Keys == scan.Keys <= Present(scan, before.Keys).Keys
    ensures Having(Deleted, before, Present(scan, before.Keys)) == Present(scan, before.Keys).Keys - scan.Keys
  {
    forall p ensures Get(after, p) == if p in Present(scan, before.Keys)
                                      then Merge(Get(before, p), Present(scan, before.Keys)[p]) else Get(before, p)
    {
      assert Get(after, p) == Merge(Get(before, p), Get(scan, p));
    }
    forall p ensures p in after.Keys <==> p in scan.Keys {
      assert Get(after, p) == Merge(Get(before, p), Get(scan, p));
    }
  }

  /** Why an incremental reconcile is refused: the first check that fails. */
  ghost function ReconcileRefusal(env: Env, db: Db, vault: string, rootText: string, root: Node, hints: seq<Hint>)
    : Option<IndexError>
  {
    if !ValidVaultId(vault) then Some(InvalidVaultId)
    else if !root.Dir? then Some(RootNotDirectory)
    else if ScanHints(env, root, hints).Failure? then Some(ScanHints(env, root, hints).error)
    else if vault !in db.vaults then Some(VaultNotIndexed)
    else if db.vaults[vault].root != rootText then Some(VaultRootMismatch)
    else if db.vaults[vault].indexRevision + (if NothingToDo(db, vault, ScanHints(env, root, hints).value) then 0 else 1) < 0
    then Some(InvalidIndexRevision)
    else None
  }

  ghost predicate Settled(env: Env, root: Node, h: Hint) {
    ScanHint(env, root, h).Ignored? || ScanHint(env, root, h).Change?
  }

  /** The first hint that is not settled, and what it fails with. */
  ghost predicate FirstUnsettled(env: Env, root: Node, hints: seq<Hint>, i: nat, e: IndexError) {
    && i < |hints| && (forall h :: h in hints[..i] ==> Settled(env, root, h))
    && match ScanHint(env, root, hints[i])
       case NeedsFullRescan => e == FullRescanRequired
       case ScanFailed(error) => e == Scan(error)
       case _ => false
  }

  /** The scans of some hints succeed exactly when each of them does; otherwise the first that does not is told. */
  lemma {:induction false} ScansSettle(env: Env, root: Node, hints: seq<Hint>)
    ensures ScanHints(env, root, hints).Success? <==> forall h :: h in hints ==> Settled(env, root, h)
    ensures ScanHints(env, root, hints).Failure? ==>
              exists i: nat :: FirstUnsettled(env, root, hints, i, ScanHints(env, root, hints).error)
    decreases |hints|
  {
    hide ScanHint;
    if hints != [] {
      var rest, last := hints[..|hints| - 1], hints[|hints| - 1];
      ScansSettle(env, root, rest);
      assert hints == rest + [last];
      if ScanHints(env, root, rest).Failure? {
        var e := ScanHints(env, root, rest).error;
        var i: nat :| FirstUnsettled(env, root, rest, i, e);
        assert hints[..i] == rest[..i];
        assert FirstUnsettled(env, root, hints, i, e);
        assert hints[i] in hints && !Settled(env, root, hints[i]);
      } else if !Settled(env, root, last) {
        assert FirstUnsettled(env, root, hints, |rest|, ScanHints(env, root, hints).error);
      }
    }
  }

  /** Each refusal of an incremental reconcile, by what is wrong and everything before it being right. */
  lemma RefusalIsFirstFault(env: Env, db: Db, vault: string, rootText: string, root: Node, hints: seq<Hint>)
    ensures var r := ReconcileRefusal(env, db, vault, rootText, root, hints);
            var placed := VaultId(vault) && root.Dir?;
            var scanned := placed && forall h :: h in hints ==> Settled(env, root, h);
            var known := scanned && vault in db.vaults;
            var same := known && db.vaults[vault].root == rootText;
            && (r == Some(InvalidVaultId) <==> !VaultId(vault))
            && (r == Some(RootNotDirectory) <==> VaultId(vault) && !placed)
            && (r == Some(FullRescanRequired) || (r.Some? && r.value.Scan?) <==> placed && !scanned)
            && (r == Some(VaultNotIndexed) <==> scanned && !known)
            && (r == Some(VaultRootMismatch) <==> known && !same)
            && (same && db.vaults[vault].indexRevision >= 0 ==> r.None?)
            && (r.Some? && same ==> r == Some(InvalidIndexRevision))
  {
    hide ScanHints, Settled, ValidVaultId, VaultId, NothingToDo;
    ValidIdIsVaultId(vault);
    ScansSettle(env, root, hints);
  }

  /** reconcile_note: one scanned path against its row. */
  method ReconcileNote(tx: Transaction, k: Key, scan: Option<ScannedNote>, c: Counts) returns (r: Counts)
    requires Consistent(tx.analyzer, tx.State())
    requires scan.Some? ==> scan.value.path == k.path
    modifies tx`notes, tx`fts
    ensures Consistent(tx.analyzer, tx.State())
    ensures RowStep(old(tx.notes), tx.notes, k, scan)
    ensures r == c.Add(OutcomeOf(if k in old(tx.notes) then Some(RowColumns(old(tx.notes)[k])) else None, scan))
  {
    var existing := if k in tx.notes then Some(tx.notes[k].revision) else None;
    if scan.None? {
      if existing.Some? {
        tx.Delete(k);
        return c.(deleted := c.deleted + 1);
      }
      return c.(same := c.same + 1);
    }
    var note := scan.value;
    if existing.None? {
      r := c.(created := c.created + 1);
    } else if existing.value != note.revision {
      r := c.(updated := c.updated + 1);
    } else {
      return c.(same := c.same + 1);
    }
    tx.Upsert(Key(k.vault, note.path), note);
  }

  /** The storage: its committed state, and the library functions it was opened with. */
  class Index {
    const analyzer: Analyzer
    const env: Env
    var db: Db

    ghost predicate Valid()
      reads this
    {
      Consistent(analyzer, db)
    }

    constructor (a: Analyzer, e: Env)
      ensures Valid() && analyzer == a && env == e
      ensures db == Db(map[], map[], {})
    {
      analyzer, env, db := a, e, Db(map[], map[], {});
    }

    /** reconcile_vault_paths: scan the hints first, then apply the changes in one transaction. */
    method ReconcileVaultPaths(vault: string, rootText: string, root: Node, hints: seq<Hint>, now: int)
      returns (r: Result<Report, IndexError>)
      requires Valid()
      modifies this`db
      ensures Valid()
      ensures r.Failure? <==> ReconcileRefusal(env, old(db), vault, rootText, root, hints).Some?
      ensures r.Failure? ==>
                r.error == ReconcileRefusal(env, old(db), vault, rootText, root, hints).value && db == old(db)
      ensures r.Success? ==> ReconcileStep(old(db), db, vault, ScanHints(env, root, hints).value)
      ensures r.Success? ==>
                && Counted(r.value.counts, ViewOf(old(db).notes, vault), ScanHints(env, root, hints).value)
                && r.value.scanned == |ScanHints(env, root, hints).value|
                && r.value.indexRevision == RevisionOf(db, vault)
      ensures r.Success? ==>
                && vault in old(db).vaults && old(db).vaults[vault].root == rootText && vault in db.vaults
                && (r.value.counts.Changed() == 0 ==> db.vaults[vault] == old(db).vaults[vault])
                && (r.value.counts.Changed() > 0 ==>
                      db.vaults[vault] == VaultRow(rootText, old(db).vaults[vault].indexRevision + 1, now))
    {
      hide UniqueIds, Rebuilt, Reconciled, OtherNotesKept, ViewOf, ScanHint, ValidVaultId, Counted, NothingToDo;
      if !ValidVaultId(vault) {
        return Failure(InvalidVaultId);
      }
      if !root.Dir? {
        return Failure(RootNotDirectory);
      }
      var scan := ScanAllHints(root, hints);
      if scan.Failure? {
        return Failure(scan.error);
      }
      var changes := scan.value;
      if vault !in db.vaults {
        return Failure(VaultNotIndexed);
      }
      if db.vaults[vault].root != rootText {
        return Failure(VaultRootMismatch);
      }
      var tx := new Transaction(analyzer, db);
      assert tx.State() == db;
      ScanHintsPaths(env, root, hints);
      var c := ApplyChanges(tx, vault, changes);
      UnchangedCountsMeanNothingToDo(db, vault, changes, c);
      if c.Changed() > 0 {
        tx.BumpRevision(vault, now);
      }
      var revision := tx.vaults[vault].indexRevision;
      if revision < 0 {
        return Failure(InvalidIndexRevision);
      }
      db := tx.State();
      r := Success(Report(|changes|, c, revision));
    }

    method ScanAllHints(root: Node, hints: seq<Hint>) returns (r: Result<map<Path, Option<ScannedNote>>, IndexError>)
      ensures r == ScanHints(env, root, hints)
    {
      var changes: map<Path, Option<ScannedNote>> := map[];
      for i := 0 to |hints|
        invariant ScanHints(env, root, hints[..i]) == Success(changes)
      {
        assert hints[..i + 1][..i] == hints[..i];
        var one := ScanChangedPath(env, root, hints[i]);
        match one {
          case Ignored =>
          case Change(p, note) =>
            changes := changes[p := note];
          case NeedsFullRescan =>
            FirstFailureWins(env, root, hints, i + 1);
            return Failure(FullRescanRequired);
          case ScanFailed(e) =>
            FirstFailureWins(env, root, hints, i + 1);
            return Failure(Scan(e));
        }
      }
      assert hints[..|hints|] == hints;
      r := Success(changes);
    }

    method ApplyChanges(tx: Transaction, vault: string, changes: map<Path, Option<ScannedNote>>) returns (c: Counts)
      requires Consistent(tx.analyzer, tx.State())
      requires forall p | p in changes :: changes[p].Some? ==> changes[p].value.path == p
      modifies tx`notes, tx`fts
      ensures Consistent(tx.analyzer, tx.State())
      ensures Progress(old(tx.notes), tx.notes, vault, changes, c)
    {
      hide Consistent, Progress, RowStep, ViewOf, OutcomeOf;
      ghost var start := tx.notes;
      var todo := changes.Keys;
      ghost var done: map<Path, Option<ScannedNote>> := map[];
      c := Counts(0, 0, 0, 0);
      ProgressStart(start, vault);
      while todo != {}
        invariant Consistent(tx.analyzer, tx.State())
        invariant Progress(start, tx.notes, vault, done, c)
        invariant todo <= changes.Keys && done.Keys == changes.Keys - todo
        invariant forall p | p in done :: done[p] == changes[p]
      {
        var p :| p in todo;
        var k := Key(vault, p);
        ghost var notes, counts := tx.notes, c;
        RowInView(notes, k);
        c := ReconcileNote(tx, k, changes[p], c);
        ProgressOneMore(start, notes, tx.notes, k, done, counts, changes[p]);
        done := done[p := changes[p]];
        todo := todo - {p};
      }
      assert done == changes;
    }

    /** index_vault: read the rows, walk the vault, write what changed, delete what is gone. */
    method IndexVault(vault: string, rootText: string, root: Node, now: int) returns (r: Result<Report, IndexError>)
      requires Valid() && WellFormed(root)
      modifies this`db
      ensures Valid()
      ensures r.Success? <==>
                && VaultId(vault) && root.Dir? && Readable(env, root)
                && RevisionOf(old(db), vault) + 1 >= 0
      ensures r.Failure? ==> db == old(db)
      ensures r == Failure(InvalidVaultId) <==> !VaultId(vault)
      ensures r == Failure(RootNotDirectory) <==> VaultId(vault) && !root.Dir?
      ensures r.Failure? && r.error.Scan? <==> VaultId(vault) && root.Dir? && !Readable(env, root)
      ensures r.Success? ==> vault in db.vaults && db.vaults[vault] == VaultRow(rootText, RevisionOf(old(db), vault) + 1, now)
      ensures r.Success? ==> FullIndexStep(old(db), db, vault, rootText, Snapshot(env, root))
      ensures r.Success? ==>
                var before := ViewOf(old(db).notes, vault);
                && Counted(r.value.counts, before, Present(Snapshot(env, root), before.Keys))
                && r.value.scanned == |Snapshot(env, root)|
                && r.value.indexRevision == RevisionOf(db, vault)
    {
      hide UniqueIds, Rebuilt, Reconciled, OtherNotesKept, ViewOf, Readable, WellFormed, ValidVaultId, VaultId;
      hide FullyIndexed, Snapshot, Present, Counted;
      ValidIdIsVaultId(vault);
      if !ValidVaultId(vault) {
        return Failure(InvalidVaultId);
      }
      if !root.Dir? {
        return Failure(RootNotDirectory);
      }
      var tx := new Transaction(analyzer, db);
      assert tx.State() == db;
      tx.PutVault(vault, rootText);
      var applied := IndexVisits(tx, vault, root);
      if applied.Failure? {
        return Failure(applied.error);
      }
      tx.BumpRevision(vault, now);
      var revision := tx.vaults[vault].indexRevision;
      if revision < 0 {
        return Failure(InvalidIndexRevision);
      }
      FullIsReconcileOfEverything(ViewOf(db.notes, vault), Snapshot(env, root), ViewOf(tx.notes, vault));
      db := tx.State();
      r := Success(Report(applied.value.0, applied.value.1, revision));
    }

    /** The closure a full index hands to the walk: the note against the rows read at the start. */
    method ConsumeNote(tx: Transaction, k: Key, note: ScannedNote, existing: map<Path, string>, c: Counts)
      returns (rest: map<Path, string>, r: Counts)
      requires Consistent(tx.analyzer, tx.State()) && note.path == k.path
      requires Get(existing, k.path) == if k in tx.notes then Some(tx.notes[k].revision) else None
      modifies tx`notes, tx`fts
      ensures Consistent(tx.analyzer, tx.State())
      ensures RowStep(old(tx.notes), tx.notes, k, Some(note))
      ensures rest == existing - {k.path}
      ensures r == c.Add(OutcomeOf(if k in old(tx.notes) then Some(RowColumns(old(tx.notes)[k])) else None, Some(note)))
    {
      rest := existing - {k.path};
      if k.path !in existing {
        r := c.(created := c.created + 1);
      } else if existing[k.path] != note.revision {
        r := c.(updated := c.updated + 1);
      } else {
        return rest, c.(same := c.same + 1);
      }
      tx.Upsert(k, note);
    }

    /** One note of the walk, on top of what the walk has met so far. */
    method VisitNote(
      tx: Transaction, ghost start: map<Key, NoteRow>, vault: string, note: ScannedNote,
      existing: map<Path, string>, ghost met: map<Path, Option<ScannedNote>>, c: Counts)
      returns (rest: map<Path, string>, r: Counts)
      requires Consistent(tx.analyzer, tx.State())
      requires Progress(start, tx.notes, vault, met, c) && note.path !in met
      requires existing == Remaining(ViewOf(start, vault), met)
      modifies tx`notes, tx`fts
      ensures Consistent(tx.analyzer, tx.State())
      ensures Progress(start, tx.notes, vault, met[note.path := Some(note)], r)
      ensures rest == Remaining(ViewOf(start, vault), met[note.path := Some(note)])
    {
      hide Consistent, Progress, RowStep, ViewOf, OutcomeOf;
      var k := Key(vault, note.path);
      RemainingRow(start, tx.notes, k, met, c);
      RemainingOneLess(ViewOf(start, vault), met, note.path, Some(note));
      RowInView(tx.notes, k);
      ghost var notes := tx.notes;
      rest, r := ConsumeNote(tx, k, note, existing, c);
      ProgressOneMore(start, notes, tx.notes, k, met, c, Some(note));
    }

    /** The walk of one full index, and the deletion of the rows it did not meet. */
    method IndexVisits(tx: Transaction, vault: string, root: Node)
      returns (r: Result<(nat, Counts), IndexError>)
      requires WellFormed(root) && Consistent(tx.analyzer, tx.State())
      modifies tx`notes, tx`fts
      ensures Consistent(tx.analyzer, tx.State())
      ensures r.Success? <==> Readable(env, root)
      ensures r.Failure? ==> r.error.Scan?
      ensures r.Success? ==>
                && r.value.0 == |Snapshot(env, root)|
                && Progress(old(tx.notes), tx.notes, vault,
                     Present(Snapshot(env, root), ViewOf(old(tx.notes), vault).Keys), r.value.1)
    {
      hide Consistent, Progress, RowStep, ScannedSoFar, Snapshot, Present, ViewOf, Walk, Readable, DistinctPaths;
      hide OutcomeOf, WellFormed, Remaining, ReadNote, IsMarkdown, Having, Merge, Plain, LivePaths, NoteAt;
      ghost var start := tx.notes;
      ghost var before := ViewOf(start, vault);
      var existing := map k | k in tx.notes && k.vault == vault :: k.path := tx.notes[k].revision;
      var visits := Walk(root, []);
      WalkDistinct(root, []);
      var c, scanned := Counts(0, 0, 0, 0), 0;
      ghost var changes: map<Path, Option<ScannedNote>> := map[];
      ProgressStart(start, vault);
      ScannedNone(env, root);
      assert visits[..0] == [];
      for i := 0 to |visits|
        invariant Consistent(tx.analyzer, tx.State())
        invariant ScannedSoFar(env, root, visits[..i], changes)
        invariant Progress(start, tx.notes, vault, changes, c)
        invariant existing == Remaining(before, changes)
        invariant scanned == |changes|
      {
        var v := visits[i];
        if IsNoteVisit(v) {
          var note := ReadNote(env, v.path, v.node.data);
          if note.Failure? {
            ScanStopped(env, root, v);
            return Failure(Scan(note.error));
          }
          ScannedOneMore(env, root, visits, i, changes);
          existing, c := VisitNote(tx, start, vault, note.value, existing, changes, c);
          changes := changes[v.path := Some(note.value)];
          scanned := scanned + 1;
        } else {
          ScannedSkip(env, root, visits, i, changes);
        }
      }
      assert visits[..|visits|] == visits;
      ScannedAll(env, root, changes);
      c := DeleteUnmet(tx, start, vault, existing.Keys, Snapshot(env, root), changes, c);
      r := Success((scanned, c));
    }

    /** The rows the walk did not meet are deleted. */
    method DeleteUnmet(
      tx: Transaction, ghost start: map<Key, NoteRow>, vault: string, unmet: set<Path>,
      ghost scan: map<Path, ScannedNote>, ghost met: map<Path, Option<ScannedNote>>, c: Counts)
      returns (r: Counts)
      requires Consistent(tx.analyzer, tx.State())
      requires Progress(start, tx.notes, vault, met, c)
      requires unmet == Remaining(ViewOf(start, vault), met).Keys
      requires met.Keys == scan.Keys && forall p | p in met :: met[p] == Get(scan, p)
      modifies tx`notes, tx`fts
      ensures Consistent(tx.analyzer, tx.State())
      ensures Progress(start, tx.notes, vault, Present(scan, ViewOf(start, vault).Keys), r)
    {
      hide Consistent, Progress, RowStep, ViewOf, OutcomeOf, Remaining, Present;
      ghost var before := ViewOf(start, vault);
      ghost var changes := met;
      var doomed := unmet;
      r := c;
      while doomed != {}
        invariant Consistent(tx.analyzer, tx.State())
        invariant Progress(start, tx.notes, vault, changes, r)
        invariant doomed == Remaining(before, changes).Keys
        invariant scan.Keys <= changes.Keys <= scan.Keys + before.Keys
        invariant forall p | p in changes :: changes[p] == Get(scan, p)
      {
        var p :| p in doomed;
        var k := Key(vault, p);
        RemainingIsUnmet(before, changes, p);
        RemainingRow(start, tx.notes, k, changes, r);
        RemainingOneLess(before, changes, p, None);
        RowInView(tx.notes, k);
        ghost var notes, counts := tx.notes, r;
        tx.Delete(k);
        DeleteIsRowStep(notes, k);
        r := r.(deleted := r.deleted + 1);
        ProgressOneMore(start, notes, tx.notes, k, changes, counts, None);
        changes := changes[p := None];
        doomed := doomed - {p};
      }
      NothingRemains(before, scan, changes);
    }
  }
}
