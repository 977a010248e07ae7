/**
 The operational database: the vault and note tables, and the inverted index
 that three row triggers keep beside the note table.
 */
module Storage {
  import opened Common
  import opened VaultTree

  datatype Key = Key(vault: string, path: Path)

  datatype NoteRow = NoteRow(
    id: nat, title: string, body: string, revision: string, modified: int, size: nat)

  datatype VaultRow = VaultRow(root: string, indexRevision: int, lastIndexed: int)

  /** One occurrence of a token: which row, which column, which position. */
  datatype Posting = Posting(token: string, id: nat, column: nat, position: nat)

  /** The tokenizer, a library: how a text and a path are cut into tokens. */
  datatype Analyzer = Analyzer(text: string -> seq<string>, path: Path -> seq<string>)

  datatype Db = Db(vaults: map<string, VaultRow>, notes: map<Key, NoteRow>, fts: set<Posting>)

  function Cells(a: Analyzer, k: Key, r: NoteRow): seq<seq<string>> {
    [a.text(r.title), a.text(r.body), a.path(k.path)]
  }

  /** The postings of one row, as the FTS5 insert and delete commands compute them. */
  function Document(a: Analyzer, k: Key, r: NoteRow): set<Posting> {
    var cells := Cells(a, k, r);
    set c: nat, i: nat | c < 3 && i < |cells[c]| :: Posting(cells[c][i], r.id, c, i)
  }

  /** The index computed afresh from the note table. */
  ghost function Rebuilt(a: Analyzer, notes: map<Key, NoteRow>): set<Posting> {
    set k, p | k in notes && p in Document(a, k, notes[k]) :: p
  }

  ghost predicate UniqueIds(notes: map<Key, NoteRow>) {
    forall j, k | j in notes && k in notes && j != k :: notes[j].id != notes[k].id
  }

  ghost predicate Consistent(a: Analyzer, db: Db) {
    UniqueIds(db.notes) && db.fts == Rebuilt(a, db.notes)
  }

  // ------------------------------------------------ rows and their triggers

  predicate FreshId(notes: map<Key, NoteRow>, id: nat) {
    forall k | k in notes :: notes[k].id != id
  }

  /** AFTER INSERT: index the new row. */
  function InsertRow(a: Analyzer, db: Db, k: Key, r: NoteRow): Db
    requires k !in db.notes && FreshId(db.notes, r.id)
  {
    db.(notes := db.notes[k := r], fts := db.fts + Document(a, k, r))
  }

  /** AFTER UPDATE: withdraw the old values, then index the new ones. */
  function UpdateRow(a: Analyzer, db: Db, k: Key, r: NoteRow): Db
    requires k in db.notes && r.id == db.notes[k].id
  {
    db.(notes := db.notes[k := r],
        fts := (db.fts - Document(a, k, db.notes[k])) + Document(a, k, r))
  }

  /** AFTER DELETE: withdraw the old values. */
  function DeleteRow(a: Analyzer, db: Db, k: Key): Db
    requires k in db.notes
  {
    db.(notes := db.notes - {k}, fts := db.fts - Document(a, k, db.notes[k]))
  }

  lemma DocumentsApart(a: Analyzer, j: Key, r: NoteRow, k: Key, s: NoteRow)
    requires r.id != s.id
    ensures Document(a, j, r) !! Document(a, k, s)
  {
    assert forall p | p in Document(a, j, r) :: p.id == r.id;
    assert forall p | p in Document(a, k, s) :: p.id == s.id;
  }

  /** A new row's postings clash with none already there, and the index stays exact. */
  lemma InsertKeepsIndexExact(a: Analyzer, db: Db, k: Key, r: NoteRow)
    requires Consistent(a, db) && k !in db.notes && FreshId(db.notes, r.id)
    ensures Document(a, k, r) !! db.fts
    ensures Consistent(a, InsertRow(a, db, k, r))
  {
    var after := InsertRow(a, db, k, r);
    forall j | j in db.notes ensures Document(a, j, db.notes[j]) !! Document(a, k, r) {
      DocumentsApart(a, j, db.notes[j], k, r);
    }
    forall p ensures p in after.fts <==> p in Rebuilt(a, after.notes) {
      if p in Rebuilt(a, db.notes) {
        var j :| j in db.notes && p in Document(a, j, db.notes[j]);
        assert j in after.notes && after.notes[j] == db.notes[j];
      }
      if p in Document(a, k, r) {
        assert k in after.notes && after.notes[k] == r;
      }
    }
  }

  /** Withdrawing a row by its old values removes its postings and no other row's. */
  lemma DeleteKeepsIndexExact(a: Analyzer, db: Db, k: Key)
    requires Consistent(a, db) && k in db.notes
    ensures Consistent(a, DeleteRow(a, db, k))
    ensures DeleteRow(a, db, k).fts + Document(a, k, db.notes[k]) == db.fts
  {
    var after := DeleteRow(a, db, k);
    forall j | j in db.notes && j != k
      ensures Document(a, j, db.notes[j]) !! Document(a, k, db.notes[k])
    {
      DocumentsApart(a, j, db.notes[j], k, db.notes[k]);
    }
    forall p ensures p in after.fts <==> p in Rebuilt(a, after.notes) {
      if p in after.fts {
        var j :| j in db.notes && p in Document(a, j, db.notes[j]);
        assert j in after.notes && after.notes[j] == db.notes[j];
      }
      if p in Rebuilt(a, after.notes) {
        var j :| j in after.notes && p in Document(a, j, after.notes[j]);
        assert j in db.notes && j != k && after.notes[j] == db.notes[j];
      }
    }
  }

  lemma UpdateKeepsIndexExact(a: Analyzer, db: Db, k: Key, r: NoteRow)
    requires Consistent(a, db) && k in db.notes && r.id == db.notes[k].id
    ensures Consistent(a, UpdateRow(a, db, k, r))
  {
    DeleteKeepsIndexExact(a, db, k);
    var gone := DeleteRow(a, db, k);
    InsertKeepsIndexExact(a, gone, k, r);
    assert gone.notes[k := r] == db.notes[k := r];
    assert UpdateRow(a, db, k, r) == InsertRow(a, gone, k, r);
  }

  // ------------------------------------------------------ a transaction

  function RowOf(id: nat, n: ScannedNote): NoteRow {
    NoteRow(id, n.title, n.body, n.revision, n.modified, n.size)
  }

  /**
   The working copy of one immediate transaction. Dropping it without Commit
   is the rollback: the storage is only assigned from a committed copy.
   */
  class Transaction {
    const analyzer: Analyzer
    var vaults: map<string, VaultRow>
    var notes: map<Key, NoteRow>
    var fts: set<Posting>

    function State(): Db
      reads this
    {
      Db(vaults, notes, fts)
    }

    constructor (a: Analyzer, db: Db)
      ensures State() == db && analyzer == a
    {
      analyzer := a;
      vaults, notes, fts := db.vaults, db.notes, db.fts;
    }

    /** INSERT INTO vaults ... ON CONFLICT(id) DO UPDATE SET root. */
    method PutVault(id: string, root: string)
      modifies this`vaults
      ensures vaults == old(vaults)[id := if id in old(vaults) then old(vaults)[id].(root := root)
                                          else VaultRow(root, 0, 0)]
    {
      vaults := vaults[id := if id in vaults then vaults[id].(root := root) else VaultRow(root, 0, 0)];
    }

    method BumpRevision(id: string, now: int)
      requires id in vaults
      modifies this`vaults
      ensures vaults == old(vaults)[id := VaultRow(old(vaults)[id].root, old(vaults)[id].indexRevision + 1, now)]
    {
      vaults := vaults[id := VaultRow(vaults[id].root, vaults[id].indexRevision + 1, now)];
    }

    /** INSERT INTO notes ... ON CONFLICT(vault_id, relative_path) DO UPDATE. */
    method Upsert(k: Key, n: ScannedNote)
      requires Consistent(analyzer, State())
      modifies this`notes, this`fts
      ensures Consistent(analyzer, State())
      ensures k in notes && notes == old(notes)[k := RowOf(notes[k].id, n)]
      ensures k in old(notes) ==> notes[k].id == old(notes)[k].id
    {
      ghost var before := State();
      if k in notes {
        var r := RowOf(notes[k].id, n);
        UpdateKeepsIndexExact(analyzer, before, k, r);
        fts := (fts - Document(analyzer, k, notes[k])) + Document(analyzer, k, r);
        notes := notes[k := r];
        assert State() == UpdateRow(analyzer, before, k, r);
      } else {
        var id := NextId();
        var r := RowOf(id, n);
        InsertKeepsIndexExact(analyzer, before, k, r);
        notes := notes[k := r];
        fts := fts + Document(analyzer, k, r);
        assert State() == InsertRow(analyzer, before, k, r);
      }
    }

    method Delete(k: Key)
      requires Consistent(analyzer, State())
      modifies this`notes, this`fts
      ensures Consistent(analyzer, State())
      ensures notes == old(notes) - {k}
    {
      if k in notes {
        DeleteKeepsIndexExact(analyzer, State(), k);
        ghost var before := State();
        fts := fts - Document(analyzer, k, notes[k]);
        notes := notes - {k};
        assert State() == DeleteRow(analyzer, before, k);
      }
    }

    /** The rowid one past the largest in use. */
    method NextId() returns (id: nat)
      ensures FreshId(notes, id)
    {
      id := 0;
      var keys := notes.Keys;
      while keys != {}
        invariant keys <= notes.Keys
        invariant forall k | k in notes && k !in keys :: notes[k].id < id
      {
        var k :| k in keys;
        id := if notes[k].id < id then id else notes[k].id + 1;
        keys := keys - {k};
      }
    }
  }

  // --------------------------------------------------- histories of the table

  /** One step of any history of the note table. */
  datatype RowChange = Insert(key: Key, row: NoteRow) | Update(key: Key, row: NoteRow) | Remove(key: Key)

  predicate Applicable(db: Db, c: RowChange) {
    match c
    case Insert(k, r) => k !in db.notes && FreshId(db.notes, r.id)
    case Update(k, r) => k in db.notes && r.id == db.notes[k].id
    case Remove(k) => k in db.notes
  }

  function ApplyChange(a: Analyzer, db: Db, c: RowChange): Db
    requires Applicable(db, c)
  {
    match c
    case Insert(k, r) => InsertRow(a, db, k, r)
    case Update(k, r) => UpdateRow(a, db, k, r)
    case Remove(k) => DeleteRow(a, db, k)
  }

  ghost predicate ChangeRun(a: Analyzer, dbs: seq<Db>, cs: seq<RowChange>) {
    && |dbs| == |cs| + 1
    && forall i | 0 <= i < |cs| :: Applicable(dbs[i], cs[i]) && dbs[i + 1] == ApplyChange(a, dbs[i], cs[i])
  }

  /** After any history of inserts, upserts and deletes the index is the rebuilt one. */
  lemma {:induction false} TriggersKeepIndexExact(a: Analyzer, dbs: seq<Db>, cs: seq<RowChange>, n: nat)
    requires ChangeRun(a, dbs, cs) && n < |dbs| && Consistent(a, dbs[0])
    ensures Consistent(a, dbs[n])
    decreases n
  {
    if n > 0 {
      TriggersKeepIndexExact(a, dbs, cs, n - 1);
      match cs[n - 1]
      case Insert(k, r) => InsertKeepsIndexExact(a, dbs[n - 1], k, r);
      case Update(k, r) => UpdateKeepsIndexExact(a, dbs[n - 1], k, r);
      case Remove(k) => DeleteKeepsIndexExact(a, dbs[n - 1], k);
    }
  }
}
