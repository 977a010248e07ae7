/**
 Searching the inverted index: a conjunctive phrase query against the postings,
 and the two-stage top-k statement with its re-join on the row id.
 */
module NoteSearch {
  import opened Common
  import opened VaultTree
  import opened Storage

  const MAX_SEARCH_RESULTS := 50

  type Phrase = seq<string>

  /** The tokens of a phrase, consecutive in one cell of the text itself. */
  ghost predicate InCell(cell: seq<string>, phrase: Phrase, at: nat) {
    at + |phrase| <= |cell| && cell[at..at + |phrase|] == phrase
  }

  ghost predicate Holds(cell: seq<string>, phrase: Phrase) {
    exists at: nat :: InCell(cell, phrase, at)
  }

  /** What a full scan of the title, body and path of a note would match; a phrase without tokens matches nothing. */
  ghost predicate TextMatches(a: Analyzer, k: Key, r: NoteRow, phrase: Phrase) {
    phrase != [] && (Holds(a.text(r.title), phrase) || Holds(a.text(r.body), phrase) || Holds(a.path(k.path), phrase))
  }

  /** The same, asked of the postings. */
  ghost predicate InPostings(fts: set<Posting>, id: nat, phrase: Phrase, column: nat, at: nat) {
    forall j :: 0 <= j < |phrase| ==> Posting(phrase[j], id, column, at + j) in fts
  }

  ghost predicate IndexMatches(fts: set<Posting>, id: nat, phrase: Phrase) {
    phrase != [] && exists c: nat, at: nat :: InPostings(fts, id, phrase, c, at)
  }

  lemma PostingOfRow(a: Analyzer, db: Db, k: Key, p: Posting)
    requires Consistent(a, db) && k in db.notes && p.id == db.notes[k].id
    ensures p in db.fts <==> p in Document(a, k, db.notes[k])
  {
    if p in db.fts {
      var j :| j in db.notes && p in Document(a, j, db.notes[j]);
      assert p.id == db.notes[j].id;
    }
  }

  /** The index holds each row's title, body and path in that order of columns, token by token, and nothing else of it. */
  lemma ColumnsOfTheIndex(a: Analyzer, db: Db, k: Key, token: string, column: nat, i: nat)
    requires Consistent(a, db) && k in db.notes
    ensures var r := db.notes[k];
            Posting(token, r.id, column, i) in db.fts <==>
              || (column == 0 && i < |a.text(r.title)| && a.text(r.title)[i] == token)
              || (column == 1 && i < |a.text(r.body)| && a.text(r.body)[i] == token)
              || (column == 2 && i < |a.path(k.path)| && a.path(k.path)[i] == token)
  {
    var r := db.notes[k];
    PostingOfRow(a, db, k, Posting(token, r.id, column, i));
    assert Cells(a, k, r)[0] == a.text(r.title) && Cells(a, k, r)[1] == a.text(r.body) && Cells(a, k, r)[2] == a.path(k.path);
  }

  lemma CellsOfRow(a: Analyzer, k: Key, r: NoteRow, phrase: Phrase)
    ensures TextMatches(a, k, r, phrase) <==>
              phrase != [] && exists c: nat, at: nat | c < 3 :: InCell(Cells(a, k, r)[c], phrase, at)
  {
    hide InCell;
    var cells := Cells(a, k, r);
    assert cells[0] == a.text(r.title) && cells[1] == a.text(r.body) && cells[2] == a.path(k.path);
  }

  /** The postings answer a phrase exactly as the text does. */
  lemma PostingsAgreeWithText(a: Analyzer, db: Db, k: Key, phrase: Phrase)
    requires Consistent(a, db) && k in db.notes
    ensures IndexMatches(db.fts, db.notes[k].id, phrase) <==> TextMatches(a, k, db.notes[k], phrase)
  {
    var r := db.notes[k];
    CellsOfRow(a, k, r, phrase);
    if TextMatches(a, k, r, phrase) {
      var c: nat, at: nat :| c < 3 && InCell(Cells(a, k, r)[c], phrase, at);
      CellInPostings(a, db, k, phrase, c, at);
    }
    if IndexMatches(db.fts, r.id, phrase) {
      var c: nat, at: nat :| InPostings(db.fts, r.id, phrase, c, at);
      PostingsInCell(a, db, k, phrase, c, at);
    }
  }

  lemma CellInPostings(a: Analyzer, db: Db, k: Key, phrase: Phrase, c: nat, at: nat)
    requires Consistent(a, db) && k in db.notes && c < 3
    requires InCell(Cells(a, k, db.notes[k])[c], phrase, at)
    ensures InPostings(db.fts, db.notes[k].id, phrase, c, at)
  {
    var cell := Cells(a, k, db.notes[k])[c];
    forall j | 0 <= j < |phrase| ensures Posting(phrase[j], db.notes[k].id, c, at + j) in db.fts {
      assert cell[at..at + |phrase|][j] == cell[at + j];
      assert Posting(cell[at + j], db.notes[k].id, c, at + j) in Document(a, k, db.notes[k]);
      PostingOfRow(a, db, k, Posting(phrase[j], db.notes[k].id, c, at + j));
    }
  }

  lemma PostingsInCell(a: Analyzer, db: Db, k: Key, phrase: Phrase, c: nat, at: nat)
    requires Consistent(a, db) && k in db.notes && phrase != []
    requires InPostings(db.fts, db.notes[k].id, phrase, c, at)
    ensures c < 3 && InCell(Cells(a, k, db.notes[k])[c], phrase, at)
  {
    var r := db.notes[k];
    forall j | 0 <= j < |phrase|
      ensures c < 3 && at + j < |Cells(a, k, r)[c]| && Cells(a, k, r)[c][at + j] == phrase[j]
    {
      PostingOfRow(a, db, k, Posting(phrase[j], r.id, c, at + j));
    }
    assert phrase[|phrase| - 1] == phrase[|phrase| - 1];
    assert at + (|phrase| - 1) < |Cells(a, k, r)[c]|;
  }

  ghost predicate MatchesText(a: Analyzer, db: Db, vault: string, query: seq<Phrase>, k: Key) {
    k in db.notes && k.vault == vault && forall phrase | phrase in query :: TextMatches(a, k, db.notes[k], phrase)
  }

  ghost predicate MatchesIndex(db: Db, query: seq<Phrase>, id: nat) {
    forall phrase | phrase in query :: IndexMatches(db.fts, id, phrase)
  }

  /** The rows a full scan of the vault's notes finds. */
  ghost function ScannedHits(a: Analyzer, db: Db, vault: string, query: seq<Phrase>): set<Key> {
    set k | k in db.notes && MatchesText(a, db, vault, query, k)
  }

  /** MATCH on the index, joined to the notes by row id and filtered by vault. */
  ghost function IndexedHits(db: Db, vault: string, query: seq<Phrase>): set<Key> {
    set k | k in db.notes && k.vault == vault && MatchesIndex(db, query, db.notes[k].id)
  }

  lemma IndexFindsWhatAScanFinds(a: Analyzer, db: Db, vault: string, query: seq<Phrase>)
    requires Consistent(a, db)
    ensures IndexedHits(db, vault, query) == ScannedHits(a, db, vault, query)
  {
    forall k | k in db.notes
      ensures MatchesIndex(db, query, db.notes[k].id)
              <==> forall phrase | phrase in query :: TextMatches(a, k, db.notes[k], phrase)
    {
      forall phrase | phrase in query
        ensures IndexMatches(db.fts, db.notes[k].id, phrase) <==> TextMatches(a, k, db.notes[k], phrase)
      {
        PostingsAgreeWithText(a, db, k, phrase);
      }
    }
  }

  // ------------------------------------------------------------ ordering

  /** The bm25 score of a row in an index, and the collation of paths. */
  datatype Ranking = Ranking(score: (set<Posting>, nat) -> int, collate: (Path, Path) -> bool)

  ghost predicate StrictTotal(less: (Path, Path) -> bool) {
    && (forall p :: !less(p, p))
    && (forall p, q :: p == q || less(p, q) || less(q, p))
    && (forall p, q, r :: less(p, q) && less(q, r) ==> less(p, r))
  }

  /** The smaller score first, and of equal scores the path that collates first: two different notes of the table. */
  ghost predicate Ranks(rk: Ranking, db: Db, j: Key, k: Key) {
    && j in db.notes && k in db.notes && j != k
    && rk.score(db.fts, db.notes[j].id) <= rk.score(db.fts, db.notes[k].id)
    && (rk.score(db.fts, db.notes[j].id) == rk.score(db.fts, db.notes[k].id) ==> rk.collate(j.path, k.path))
  }

  /** ORDER BY score, relative_path. */
  ghost predicate Before(rk: Ranking, db: Db, j: Key, k: Key) {
    && j in db.notes && k in db.notes
    && var s, t := rk.score(db.fts, db.notes[j].id), rk.score(db.fts, db.notes[k].id);
       s < t || (s == t && rk.collate(j.path, k.path))
  }

  lemma BeforeRanks(rk: Ranking, db: Db)
    requires StrictTotal(rk.collate)
    ensures forall j, k | Before(rk, db, j, k) :: Ranks(rk, db, j, k)
  {
  }

  lemma BeforeOrders(rk: Ranking, db: Db, i: Key, j: Key, k: Key)
    requires Sortable(rk, db, {i, j, k})
    ensures i == j || Before(rk, db, i, j) || Before(rk, db, j, i)
    ensures Before(rk, db, i, j) ==> !Before(rk, db, j, i)
    ensures Before(rk, db, i, j) && Before(rk, db, j, k) ==> Before(rk, db, i, k)
  {
  }

  /** Distinct rows of one vault, so that the order decides every pair. */
  ghost predicate Sortable(rk: Ranking, db: Db, keys: set<Key>) {
    && StrictTotal(rk.collate)
    && keys <= db.notes.Keys
    && forall j, k | j in keys && k in keys :: j.vault == k.vault
  }

  lemma {:induction false} FirstExists(rk: Ranking, db: Db, keys: set<Key>)
    requires Sortable(rk, db, keys) && keys != {}
    ensures exists m :: m in keys && forall k | k in keys && k != m :: Before(rk, db, m, k)
    decreases |keys|
  {
    hide StrictTotal, Before;
    var x :| x in keys;
    var rest := keys - {x};
    if rest == {} {
      assert keys == {x};
    } else {
      FirstExists(rk, db, rest);
      var m :| m in rest && forall k | k in rest && k != m :: Before(rk, db, m, k);
      BeforeOrders(rk, db, x, m, m);
      if !Before(rk, db, m, x) {
        forall k | k in keys && k != x ensures Before(rk, db, x, k) {
          BeforeOrders(rk, db, x, m, k);
        }
      }
    }
  }

  ghost function Ordered(rk: Ranking, db: Db, keys: set<Key>): (r: seq<Key>)
    requires Sortable(rk, db, keys)
    decreases |keys|
  {
    if keys == {} then []
    else
      FirstExists(rk, db, keys);
      var m :| m in keys && forall k | k in keys && k != m :: Before(rk, db, m, k);
      [m] + Ordered(rk, db, keys - {m})
  }

  lemma {:induction false} OrderedElements(rk: Ranking, db: Db, keys: set<Key>)
    requires Sortable(rk, db, keys)
    ensures |Ordered(rk, db, keys)| == |keys|
    ensures forall k :: k in Ordered(rk, db, keys) <==> k in keys
    ensures forall i, j :: 0 <= i < j < |keys| ==>
              Before(rk, db, Ordered(rk, db, keys)[i], Ordered(rk, db, keys)[j])
    decreases |keys|
  {
    if keys != {} {
      var o := Ordered(rk, db, keys);
      OrderedElements(rk, db, keys - {o[0]});
      assert o[1..] == Ordered(rk, db, keys - {o[0]});
      forall i, j | 0 <= i < j < |keys| ensures Before(rk, db, o[i], o[j]) {
        if i == 0 {
          assert o[j] == o[1..][j - 1];
        } else {
          assert o[i] == o[1..][i - 1] && o[j] == o[1..][j - 1];
        }
      }
    }
  }

  function Elements(s: seq<Key>): set<Key> {
    set k | k in s
  }

  function First(s: seq<Key>, limit: nat): seq<Key> {
    if |s| <= limit then s else s[..limit]
  }

  lemma HeadIsSmallest(rk: Ranking, db: Db, keys: set<Key>)
    requires Sortable(rk, db, keys) && keys != {}
    ensures var o := Ordered(rk, db, keys);
            && o != [] && o[0] in keys
            && o[1..] == Ordered(rk, db, keys - {o[0]})
            && forall k | k in keys && k != o[0] :: Before(rk, db, o[0], k)
  {
  }

  /** Sorting again what was already in order, cut to its first rows, changes nothing. */
  lemma {:induction false} ReorderingIsStable(rk: Ranking, db: Db, keys: set<Key>, limit: nat)
    requires Sortable(rk, db, keys)
    ensures Elements(First(Ordered(rk, db, keys), limit)) <= keys
    ensures Ordered(rk, db, Elements(First(Ordered(rk, db, keys), limit))) == First(Ordered(rk, db, keys), limit)
    decreases |keys|
  {
    hide StrictTotal, Before, Ordered, First, Elements;
    var o := Ordered(rk, db, keys);
    OrderedEmpty(rk, db);
    if keys == {} || limit == 0 {
      FirstOfNone(o, limit);
    } else {
      HeadIsSmallest(rk, db, keys);
      var rest := keys - {o[0]};
      ReorderingIsStable(rk, db, rest, limit - 1);
      var tail := First(o[1..], limit - 1);
      FirstOfSome(o, limit);
      ElementsOfCons(o[0], tail);
      SmallestIsUnique(rk, db, Elements([o[0]] + tail), o[0]);
    }
  }

  lemma FirstOfNone(o: seq<Key>, limit: nat)
    requires o == [] || limit == 0
    ensures First(o, limit) == [] && Elements([]) == {}
  {
  }

  lemma FirstOfSome(o: seq<Key>, limit: nat)
    requires o != [] && limit > 0
    ensures First(o, limit) == [o[0]] + First(o[1..], limit - 1)
  {
  }

  lemma ElementsOfCons(k: Key, tail: seq<Key>)
    ensures Elements([k] + tail) == {k} + Elements(tail)
    ensures k !in Elements(tail) ==> Elements([k] + tail) - {k} == Elements(tail)
  {
  }

  lemma OrderedEmpty(rk: Ranking, db: Db)
    requires StrictTotal(rk.collate)
    ensures Ordered(rk, db, {}) == []
  {
  }

  lemma SmallestIsUnique(rk: Ranking, db: Db, keys: set<Key>, m: Key)
    requires Sortable(rk, db, keys) && m in keys
    requires forall k | k in keys && k != m :: Before(rk, db, m, k)
    ensures Ordered(rk, db, keys) == [m] + Ordered(rk, db, keys - {m})
  {
    var o := Ordered(rk, db, keys);
    BeforeOrders(rk, db, m, o[0], m);
  }

  // -------------------------------------------------------- the statement

  datatype SearchError = InvalidSearchLimit | VaultNotIndexed | InvalidIndexRevision

  datatype SearchResult = SearchResult(hits: seq<Key>, indexedRevision: int)

  /** The ranked common table expression: the first `limit` matches, kept by row id. */
  ghost function RankedIds(rk: Ranking, db: Db, vault: string, query: seq<Phrase>, limit: nat): seq<nat>
    requires StrictTotal(rk.collate)
  {
    var ranked := First(Ordered(rk, db, IndexedHits(db, vault, query)), limit);
    OrderedElements(rk, db, IndexedHits(db, vault, query));
    seq(|ranked|, i requires 0 <= i < |ranked| => db.notes[ranked[i]].id)
  }

  /** The outer statement joins the ids back to the notes, with no vault filter, and sorts again. */
  ghost function Rejoined(db: Db, ids: seq<nat>): set<Key> {
    set k | k in db.notes && db.notes[k].id in ids
  }

  /** Joining the ids back to the notes neither loses nor duplicates a row. */
  lemma RejoinIsExact(a: Analyzer, rk: Ranking, db: Db, vault: string, query: seq<Phrase>, limit: nat)
    requires StrictTotal(rk.collate) && Consistent(a, db)
    ensures Sortable(rk, db, Rejoined(db, RankedIds(rk, db, vault, query, limit)))
    ensures Rejoined(db, RankedIds(rk, db, vault, query, limit))
            == Elements(First(Ordered(rk, db, IndexedHits(db, vault, query)), limit))
  {
    var hits := IndexedHits(db, vault, query);
    var ranked := First(Ordered(rk, db, hits), limit);
    var ids := RankedIds(rk, db, vault, query, limit);
    OrderedElements(rk, db, hits);
    forall k | k in db.notes ensures db.notes[k].id in ids <==> k in ranked {
      if db.notes[k].id in ids {
        var i :| 0 <= i < |ids| && ids[i] == db.notes[k].id;
        assert ranked[i] in db.notes;
      }
      if k in ranked {
        var i :| 0 <= i < |ranked| && ranked[i] == k;
        assert ids[i] == db.notes[k].id;
      }
    }
  }

  ghost function SearchNotes(a: Analyzer, rk: Ranking, db: Db, vault: string, query: seq<Phrase>, limit: nat)
    : Result<SearchResult, SearchError>
    requires StrictTotal(rk.collate) && Consistent(a, db)
  {
    if !(1 <= limit <= MAX_SEARCH_RESULTS) then Failure(InvalidSearchLimit)
    else if vault !in db.vaults then Failure(VaultNotIndexed)
    else if db.vaults[vault].indexRevision < 0 then Failure(InvalidIndexRevision)
    else
      var joined := Rejoined(db, RankedIds(rk, db, vault, query, limit));
      RejoinIsExact(a, rk, db, vault, query, limit);
      Success(SearchResult(Ordered(rk, db, joined), db.vaults[vault].indexRevision))
  }

  /**
   A search over an index kept by the triggers returns, in (score, path)
   order and without repetition, the first `limit` of exactly the notes whose
   text matches every phrase: what is left out comes after all that is kept.
   */
  lemma SearchIsTopOfFullScan(a: Analyzer, rk: Ranking, db: Db, vault: string, query: seq<Phrase>, limit: nat)
    requires StrictTotal(rk.collate) && Consistent(a, db)
    ensures var r := SearchNotes(a, rk, db, vault, query, limit);
            && (r == Failure(InvalidSearchLimit) <==> limit == 0 || limit > 50)
            && (r == Failure(VaultNotIndexed) <==> 1 <= limit <= 50 && vault !in db.vaults)
            && (r.Success? <==> 1 <= limit <= 50 && vault in db.vaults && db.vaults[vault].indexRevision >= 0)
    ensures SearchNotes(a, rk, db, vault, query, limit).Success? ==>
            var r := SearchNotes(a, rk, db, vault, query, limit).value;
            var matches := ScannedHits(a, db, vault, query);
            && r.indexedRevision == db.vaults[vault].indexRevision
            && |r.hits| == (if |matches| <= limit then |matches| else limit)
            && (forall k | k in r.hits :: k in matches)
            && (forall i, j | 0 <= i < j < |r.hits| :: Ranks(rk, db, r.hits[i], r.hits[j]))
            && (forall k, h | k in matches && k !in r.hits && h in r.hits :: Ranks(rk, db, h, k))
  {
    BeforeRanks(rk, db);
    hide Before, Ranks, Ordered, Rejoined, RankedIds, ScannedHits, IndexedHits, StrictTotal, Consistent, First, Elements;
    IndexFindsWhatAScanFinds(a, db, vault, query);
    RejoinIsExact(a, rk, db, vault, query, limit);
    ReorderingIsStable(rk, db, IndexedHits(db, vault, query), limit);
    TopComesFirst(rk, db, IndexedHits(db, vault, query), limit);
  }

  lemma TopComesFirst(rk: Ranking, db: Db, keys: set<Key>, limit: nat)
    requires Sortable(rk, db, keys)
    ensures var top := First(Ordered(rk, db, keys), limit);
            && |top| == (if |keys| <= limit then |keys| else limit)
            && (forall k | k in top :: k in keys)
            && (forall i, j | 0 <= i < j < |top| :: Before(rk, db, top[i], top[j]))
            && (forall k, h | k in keys && k !in top && h in top :: Before(rk, db, h, k))
  {
    OrderedElements(rk, db, keys);
    hide StrictTotal, Before, Ordered;
    var o := Ordered(rk, db, keys);
    var top := First(o, limit);
    assert forall i | 0 <= i < |top| :: top[i] == o[i] && top[i] in o;
    forall k, h | k in keys && k !in top && h in top ensures Before(rk, db, h, k) {
      var i, j := LeftOutIsLater(o, limit, h, k);
      assert Before(rk, db, o[i], o[j]);
    }
  }

  lemma LeftOutIsLater(o: seq<Key>, limit: nat, h: Key, k: Key) returns (i: nat, j: nat)
    requires k in o && k !in First(o, limit) && h in First(o, limit)
    ensures i < j < |o| && o[i] == h && o[j] == k
  {
    var top := First(o, limit);
    i :| 0 <= i < |top| && top[i] == h;
    j :| 0 <= j < |o| && o[j] == k;
    assert forall n | 0 <= n < |top| :: o[n] == top[n] && top[n] in top;
  }
}
