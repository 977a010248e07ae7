/**
 A search text becomes a full-text query: its words, each quoted, joined by AND.
 The query's own syntax has no way into it.
 */
module QueryCompiler {
  import opened Common
  import NoteSearch
  import Storage
  import VaultIndex

  const MAX_QUERY_BYTES := 512
  const MAX_QUERY_TERMS := 16

  /** Alphanumeric or an underscore, by the Unicode tables; and the UTF-8 width of each character. */
  datatype Script = Script(word: char -> bool, width: char -> nat)

  ghost predicate Faithful(u: Script) {
    && !u.word('"') && !u.word(' ')
    && (forall c :: u.width(c) >= 1)
    && (forall c | c in "\" AND" :: u.width(c) == 1)
  }

  datatype QueryError = QueryTooLong | EmptyQuery | TooManyQueryTerms

  // ------------------------------------------------------------ words

  function WordEnd(u: Script, s: string): (i: nat)
    ensures i <= |s|
    ensures forall k :: 0 <= k < i ==> u.word(s[k])
    ensures i < |s| ==> !u.word(s[i])
  {
    if s == [] || !u.word(s[0]) then 0 else 1 + WordEnd(u, s[1..])
  }

  /** split at every character that is no word character. */
  function Pieces(u: Script, s: string): (r: seq<string>)
    ensures r != []
    decreases |s|
  {
    var i := WordEnd(u, s);
    if i == |s| then [s] else [s[..i]] + Pieces(u, s[i + 1..])
  }

  function NonEmpty(ps: seq<string>): seq<string> {
    if ps == [] then [] else (if ps[0] == [] then [] else [ps[0]]) + NonEmpty(ps[1..])
  }

  function Terms(u: Script, s: string): seq<string> {
    NonEmpty(Pieces(u, s))
  }

  function Quote(t: string): string {
    "\"" + (t + "\"")
  }

  function JoinAnd(ts: seq<string>): string
    requires ts != []
  {
    if |ts| == 1 then Quote(ts[0]) else Quote(ts[0]) + (" AND " + JoinAnd(ts[1..]))
  }

  function Compile(u: Script, query: string): Result<string, QueryError> {
    if ByteLength(u.width, query) > MAX_QUERY_BYTES then Failure(QueryTooLong)
    else
      var terms := Terms(u, query);
      if terms == [] then Failure(EmptyQuery)
      else if |terms| > MAX_QUERY_TERMS then Failure(TooManyQueryTerms)
      else Success(JoinAnd(terms))
  }

  // ------------------------------------------------------------ the words are the maximal runs

  /** From i up to j only word characters, at least one, and none to either side. */
  predicate IsRun(u: Script, s: string, i: nat, j: nat) {
    && i < j <= |s|
    && (forall k :: i <= k < j ==> u.word(s[k]))
    && (i > 0 ==> !u.word(s[i - 1]))
    && (j < |s| ==> !u.word(s[j]))
  }

  predicate SpanIs(u: Script, s: string, span: (nat, nat), t: string) {
    IsRun(u, s, span.0, span.1) && s[span.0..span.1] == t
  }

  ghost predicate Slices(u: Script, s: string, spans: seq<(nat, nat)>, terms: seq<string>) {
    && |spans| == |terms|
    && forall k :: 0 <= k < |spans| ==> SpanIs(u, s, spans[k], terms[k])
  }

  ghost predicate InOrder(spans: seq<(nat, nat)>) {
    forall k :: 0 <= k < |spans| - 1 ==> spans[k].1 < spans[k + 1].0
  }

  ghost predicate HasEvery(u: Script, s: string, spans: seq<(nat, nat)>) {
    forall i: nat, j: nat :: IsRun(u, s, i, j) ==> (i, j) in spans
  }

  ghost predicate AreTheRuns(u: Script, s: string, spans: seq<(nat, nat)>, terms: seq<string>) {
    Slices(u, s, spans, terms) && InOrder(spans) && HasEvery(u, s, spans)
  }

  function Shift(spans: seq<(nat, nat)>, d: nat): (r: seq<(nat, nat)>)
    ensures |r| == |spans|
    ensures forall k :: 0 <= k < |spans| ==> r[k] == (spans[k].0 + d, spans[k].1 + d)
  {
    seq(|spans|, k requires 0 <= k < |spans| => (spans[k].0 + d, spans[k].1 + d))
  }

  lemma ShiftedRun(u: Script, s: string, n: nat, i: nat, j: nat)
    requires n < |s| && !u.word(s[n])
    ensures IsRun(u, s[n + 1..], i, j) <==> IsRun(u, s, i + n + 1, j + n + 1)
    ensures IsRun(u, s[n + 1..], i, j) ==> s[n + 1..][i..j] == s[i + n + 1..j + n + 1]
  {
    var t := s[n + 1..];
    if IsRun(u, s, i + n + 1, j + n + 1) {
      forall k | i <= k < j ensures u.word(t[k]) {
        assert t[k] == s[k + n + 1];
      }
    }
  }

  /** A run that starts at or before the first separator is the run of the first word characters. */
  lemma FirstRun(u: Script, s: string, i: nat, j: nat)
    requires IsRun(u, s, i, j) && i <= WordEnd(u, s)
    ensures i == 0 && j == WordEnd(u, s)
  {
  }

  /** The spans of a text: the run before its first separator, if any, then those after it. */
  function After(n: nat, rest: seq<(nat, nat)>): seq<(nat, nat)> {
    (if n == 0 then [] else [(0, n)]) + Shift(rest, n + 1)
  }

  lemma SlicesAfter(u: Script, s: string, n: nat, rest: seq<(nat, nat)>, terms: seq<string>)
    requires n == WordEnd(u, s) < |s| && Slices(u, s[n + 1..], rest, terms)
    ensures Slices(u, s, After(n, rest), (if n == 0 then [] else [s[..n]]) + terms)
  {
    var spans, all := After(n, rest), (if n == 0 then [] else [s[..n]]) + terms;
    var first := if n == 0 then 0 else 1;
    hide IsRun, SpanIs, WordEnd;
    forall k | 0 <= k < |spans| ensures SpanIs(u, s, spans[k], all[k]) {
      if k < first {
        HeadIsRun(u, s, n);
      } else {
        assert SpanIs(u, s[n + 1..], rest[k - first], terms[k - first]);
        ShiftedSpan(u, s, n, rest[k - first], terms[k - first]);
      }
    }
  }

  lemma ShiftedSpan(u: Script, s: string, n: nat, span: (nat, nat), term: string)
    requires n == WordEnd(u, s) < |s| && SpanIs(u, s[n + 1..], span, term)
    ensures SpanIs(u, s, (span.0 + n + 1, span.1 + n + 1), term)
  {
    hide IsRun;
    ShiftedRun(u, s, n, span.0, span.1);
  }

  lemma HeadIsRun(u: Script, s: string, n: nat)
    requires n == WordEnd(u, s) < |s| && n > 0
    ensures SpanIs(u, s, (0, n), s[..n])
  {
  }

  lemma OrderAfter(n: nat, rest: seq<(nat, nat)>)
    requires InOrder(rest)
    ensures InOrder(After(n, rest))
  {
  }

  lemma InAfter(n: nat, rest: seq<(nat, nat)>, i: nat, j: nat)
    requires (i, j) in rest
    ensures (i + n + 1, j + n + 1) in After(n, rest)
  {
    var k :| 0 <= k < |rest| && rest[k] == (i, j);
    assert After(n, rest)[(if n == 0 then 0 else 1) + k] == (i + n + 1, j + n + 1);
  }

  lemma RunIsAfter(u: Script, s: string, n: nat, rest: seq<(nat, nat)>, i: nat, j: nat)
    requires n == WordEnd(u, s) < |s| && HasEvery(u, s[n + 1..], rest) && IsRun(u, s, i, j)
    ensures (i, j) in After(n, rest)
  {
    hide HasEvery;
    if i <= n {
      FirstRun(u, s, i, j);
      hide IsRun, WordEnd;
      assert After(n, rest)[0] == (i, j);
    } else {
      hide IsRun, WordEnd, After;
      LaterRunIsAfter(u, s, n, rest, i - n - 1, j - n - 1);
    }
  }

  lemma LaterRunIsAfter(u: Script, s: string, n: nat, rest: seq<(nat, nat)>, i: nat, j: nat)
    requires n < |s| && !u.word(s[n]) && HasEvery(u, s[n + 1..], rest) && IsRun(u, s, i + n + 1, j + n + 1)
    ensures (i + n + 1, j + n + 1) in After(n, rest)
  {
    hide IsRun, After;
    ShiftedRun(u, s, n, i, j);
    InAfter(n, rest, i, j);
  }

  lemma EveryAfter(u: Script, s: string, n: nat, rest: seq<(nat, nat)>)
    requires n == WordEnd(u, s) < |s| && HasEvery(u, s[n + 1..], rest)
    ensures HasEvery(u, s, After(n, rest))
  {
    hide IsRun, After;
    forall i: nat, j: nat | IsRun(u, s, i, j) ensures (i, j) in After(n, rest) {
      RunIsAfter(u, s, n, rest, i, j);
    }
  }

  lemma TermsAfter(u: Script, s: string, n: nat)
    requires n == WordEnd(u, s) < |s|
    ensures Terms(u, s) == (if n == 0 then [] else [s[..n]]) + Terms(u, s[n + 1..])
  {
    PiecesCut(u, s, n);
    hide Pieces, WordEnd;
    assert ([s[..n]] + Pieces(u, s[n + 1..]))[1..] == Pieces(u, s[n + 1..]);
  }

  lemma PiecesCut(u: Script, s: string, n: nat)
    requires n == WordEnd(u, s) < |s|
    ensures Pieces(u, s) == [s[..n]] + Pieces(u, s[n + 1..])
  {
    hide WordEnd;
  }

  /** The terms are exactly the maximal word runs of the query, in order. */
  lemma {:induction false} TermsAreTheRuns(u: Script, s: string) returns (spans: seq<(nat, nat)>)
    ensures AreTheRuns(u, s, spans, Terms(u, s))
    decreases |s|
  {
    hide Slices, InOrder, HasEvery, Terms;
    var n := WordEnd(u, s);
    if n == |s| {
      spans := if n == 0 then [] else [(0, n)];
      OnlyRun(u, s);
    } else {
      var rest := TermsAreTheRuns(u, s[n + 1..]);
      spans := After(n, rest);
      TermsAfter(u, s, n);
      SlicesAfter(u, s, n, rest, Terms(u, s[n + 1..]));
      OrderAfter(n, rest);
      EveryAfter(u, s, n, rest);
    }
  }

  lemma OnlyRun(u: Script, s: string)
    requires WordEnd(u, s) == |s|
    ensures AreTheRuns(u, s, if |s| == 0 then [] else [(0, |s|)], Terms(u, s))
  {
    var spans: seq<(nat, nat)> := if |s| == 0 then [] else [(0, |s|)];
    assert Pieces(u, s) == [s] && NonEmpty([s][1..]) == [];
    forall i: nat, j: nat | IsRun(u, s, i, j) ensures (i, j) in spans {
      FirstRun(u, s, i, j);
      assert spans[0] == (i, j);
    }
  }

  // ------------------------------------------------------------ reading the query back

  /** The rest of a quoted string, after its opening quote; a doubled quote stands for one. */
  function ReadQuoted(s: string): Option<(string, string)>
    decreases |s|
  {
    if s == [] then None
    else if s[0] != '"' then
      match ReadQuoted(s[1..])
      case None => None
      case Some((t, rest)) => Some(([s[0]] + t, rest))
    else if |s| > 1 && s[1] == '"' then
      match ReadQuoted(s[2..])
      case None => None
      case Some((t, rest)) => Some((['"'] + t, rest))
    else Some(([], s[1..]))
  }

  lemma {:induction false} ReadQuotedShrinks(s: string)
    ensures ReadQuoted(s).Some? ==> |ReadQuoted(s).value.1| < |s|
    decreases |s|
  {
    if s != [] {
      if s[0] != '"' {
        ReadQuotedShrinks(s[1..]);
      } else if |s| > 1 && s[1] == '"' {
        ReadQuotedShrinks(s[2..]);
      }
    }
  }

  /** Quoted strings joined by AND: what the query language makes of a text. */
  function ReadQuery(s: string): Option<seq<string>>
    decreases |s|
  {
    if s == [] || s[0] != '"' then None
    else
      ReadQuotedShrinks(s[1..]);
      match ReadQuoted(s[1..])
      case None => None
      case Some((t, rest)) =>
        if rest == [] then Some([t])
        else if !(" AND " <= rest) then None
        else match ReadQuery(rest[5..])
          case None => None
          case Some(ts) => Some([t] + ts)
  }

  lemma {:induction false} ReadTerm(t: string, rest: string)
    requires '"' !in t && (rest == [] || rest[0] != '"')
    ensures ReadQuoted(t + ("\"" + rest)) == Some((t, rest))
    decreases |t|
  {
    var s := t + ("\"" + rest);
    if t == [] {
      assert s == "\"" + rest && s[1..] == rest;
    } else {
      assert s[1..] == t[1..] + ("\"" + rest);
      ReadTerm(t[1..], rest);
      assert [t[0]] + t[1..] == t;
    }
  }

  lemma {:induction false} JoinRoundTrip(ts: seq<string>)
    requires ts != [] && forall i :: 0 <= i < |ts| ==> '"' !in ts[i]
    ensures ReadQuery(JoinAnd(ts)) == Some(ts)
    decreases |ts|
  {
    hide ReadQuery, JoinAnd;
    JoinStep(ts);
    if |ts| == 1 {
      ReadLast(ts[0]);
      assert ts == [ts[0]];
    } else {
      JoinRoundTrip(ts[1..]);
      ReadFirst(ts[0], JoinAnd(ts[1..]), ts[1..]);
      assert ts == [ts[0]] + ts[1..];
    }
  }

  lemma JoinStep(ts: seq<string>)
    requires ts != []
    ensures JoinAnd(ts) == if |ts| == 1 then Quote(ts[0]) else Quote(ts[0]) + (" AND " + JoinAnd(ts[1..]))
  {
    hide Quote;
  }

  lemma ReadLast(t: string)
    requires '"' !in t
    ensures ReadQuery(Quote(t)) == Some([t])
  {
    ReadTerm(t, "");
    hide ReadQuoted;
    assert Quote(t)[1..] == t + ("\"" + "");
  }

  lemma ReadFirst(t: string, more: string, ts: seq<string>)
    requires '"' !in t && ReadQuery(more) == Some(ts)
    ensures ReadQuery(Quote(t) + (" AND " + more)) == Some([t] + ts)
  {
    var rest := " AND " + more;
    ReadTerm(t, rest);
    hide ReadQuoted;
    QuoteThenMore(t, rest);
    assert rest[5..] == more && " AND " <= rest;
  }

  lemma QuoteThenMore(t: string, rest: string)
    ensures Quote(t) + rest != [] && (Quote(t) + rest)[0] == '"' && (Quote(t) + rest)[1..] == t + ("\"" + rest)
  {
  }

  /** For every accepted query the compiled text reads back as the query's maximal word runs. */
  lemma CompileRoundTrip(u: Script, query: string) returns (spans: seq<(nat, nat)>)
    requires Faithful(u) && Compile(u, query).Success?
    ensures ReadQuery(Compile(u, query).value).Some?
    ensures AreTheRuns(u, query, spans, ReadQuery(Compile(u, query).value).value)
    ensures forall t :: t in ReadQuery(Compile(u, query).value).value ==> '"' !in t && t != []
  {
    hide ReadQuery, JoinAnd, Terms;
    spans := TermsAreTheRuns(u, query);
    var terms := Terms(u, query);
    forall k | 0 <= k < |terms| ensures '"' !in terms[k] && terms[k] != [] {
      assert SpanIs(u, query, spans[k], terms[k]);
      RunHasNoQuote(u, query, spans[k].0, spans[k].1);
    }
    JoinRoundTrip(terms);
  }

  lemma RunHasNoQuote(u: Script, s: string, i: nat, j: nat)
    requires Faithful(u) && IsRun(u, s, i, j)
    ensures '"' !in s[i..j] && s[i..j] != []
  {
    assert forall k :: 0 <= k < j - i ==> s[i..j][k] == s[i + k] && u.word(s[i + k]);
  }

  // ------------------------------------------------------------ sizes

  function TotalLength(width: char -> nat, ts: seq<string>): nat {
    if ts == [] then 0 else ByteLength(width, ts[0]) + TotalLength(width, ts[1..])
  }

  lemma {:induction false} LengthOfConcat(width: char -> nat, a: string, b: string)
    ensures ByteLength(width, a + b) == ByteLength(width, a) + ByteLength(width, b)
    decreases |a|
  {
    if a == [] {
      assert a + b == b;
    } else {
      assert (a + b)[1..] == a[1..] + b;
      LengthOfConcat(width, a[1..], b);
    }
  }

  /** Each separator takes a byte at least. */
  lemma {:induction false} PiecesFit(u: Script, s: string)
    requires Faithful(u)
    ensures TotalLength(u.width, Pieces(u, s)) + |Pieces(u, s)| - 1 <= ByteLength(u.width, s)
    decreases |s|
  {
    var n := WordEnd(u, s);
    if n == |s| {
      assert Pieces(u, s) == [s] && TotalLength(u.width, [s][1..]) == 0;
    } else {
      PiecesFit(u, s[n + 1..]);
      assert Pieces(u, s)[1..] == Pieces(u, s[n + 1..]);
      LengthOfConcat(u.width, s[..n], s[n..]);
      assert s == s[..n] + s[n..] && s[n..][1..] == s[n + 1..];
    }
  }

  lemma {:induction false} NonEmptyFits(width: char -> nat, ps: seq<string>)
    ensures TotalLength(width, NonEmpty(ps)) == TotalLength(width, ps) && |NonEmpty(ps)| <= |ps|
    decreases |ps|
  {
    if ps != [] {
      NonEmptyFits(width, ps[1..]);
      if ps[0] == [] {
        assert NonEmpty(ps) == NonEmpty(ps[1..]);
      } else {
        assert NonEmpty(ps)[1..] == NonEmpty(ps[1..]);
      }
    }
  }

  lemma QuoteLength(u: Script, t: string)
    requires Faithful(u)
    ensures ByteLength(u.width, Quote(t)) == ByteLength(u.width, t) + 2
  {
    LengthOfConcat(u.width, "\"", t + "\"");
    LengthOfConcat(u.width, t, "\"");
    assert '"' in "\" AND";
    QuoteIsOne(u);
  }

  lemma QuoteIsOne(u: Script)
    requires Faithful(u)
    ensures ByteLength(u.width, "\"") == 1
  {
    assert "\" AND"[0] == '"';
    assert "\""[1..] == "";
  }

  lemma AndIsFive(u: Script)
    requires Faithful(u)
    ensures ByteLength(u.width, " AND ") == 5
  {
    var s := "\" AND";
    assert s[1] in s && s[2] in s && s[3] in s && s[4] in s;
    assert " AND "[1..] == "AND " && "AND "[1..] == "ND " && "ND "[1..] == "D " && "D "[1..] == " " && " "[1..] == "";
    assert ByteLength(u.width, "D ") == 2;
    assert ByteLength(u.width, "AND ") == 4;
  }

  lemma {:induction false} JoinLength(u: Script, ts: seq<string>)
    requires Faithful(u) && ts != []
    ensures ByteLength(u.width, JoinAnd(ts)) == TotalLength(u.width, ts) + 7 * |ts| - 5
    decreases |ts|
  {
    QuoteLength(u, ts[0]);
    if |ts| == 1 {
      assert ts[1..] == [];
    } else {
      var rest := JoinAnd(ts[1..]);
      JoinLength(u, ts[1..]);
      LengthOfConcat(u.width, Quote(ts[0]), " AND " + rest);
      LengthOfConcat(u.width, " AND ", rest);
      AndIsFive(u);
    }
  }

  /** With k terms the compiled query is at most the query's bytes and 6k - 4 more: never over 604. */
  lemma CompiledSize(u: Script, query: string)
    requires Faithful(u) && Compile(u, query).Success?
    ensures var k := |Terms(u, query)|;
            var n := ByteLength(u.width, Compile(u, query).value);
            1 <= k <= 16 && n <= ByteLength(u.width, query) + 6 * k - 4 && n <= 604
  {
    hide JoinAnd, ByteLength, Pieces, NonEmpty;
    PiecesFit(u, query);
    NonEmptyFits(u.width, Pieces(u, query));
    JoinLength(u, Terms(u, query));
  }

  /** Which queries are refused, and why. */
  lemma WhatIsRefused(u: Script, query: string)
    ensures Compile(u, query) == Failure(QueryTooLong) <==> ByteLength(u.width, query) > 512
    ensures Compile(u, query) == Failure(EmptyQuery) <==>
              ByteLength(u.width, query) <= 512 && forall i :: 0 <= i < |query| ==> !u.word(query[i])
    ensures forall spans, terms :: AreTheRuns(u, query, spans, terms) ==>
              (Compile(u, query) == Failure(TooManyQueryTerms) <==> ByteLength(u.width, query) <= 512 && |terms| > 16)
  {
    hide Slices, InOrder, HasEvery, Pieces, NonEmpty, JoinAnd;
    var spans := TermsAreTheRuns(u, query);
    forall others, terms | AreTheRuns(u, query, others, terms) ensures |terms| == |Terms(u, query)| {
      SameRuns(u, query, spans, Terms(u, query), others, terms);
    }
    if Terms(u, query) != [] {
      TermsHaveWords(u, query, spans, Terms(u, query));
    }
    if exists i :: 0 <= i < |query| && u.word(query[i]) {
      var i :| 0 <= i < |query| && u.word(query[i]);
      var a, b := RunAround(u, query, i);
      RunIsListed(u, query, spans, Terms(u, query), a, b);
    }
  }

  lemma TermsHaveWords(u: Script, s: string, spans: seq<(nat, nat)>, terms: seq<string>)
    requires AreTheRuns(u, s, spans, terms) && terms != []
    ensures exists i :: 0 <= i < |s| && u.word(s[i])
  {
    assert SpanIs(u, s, spans[0], terms[0]);
    assert u.word(s[spans[0].0]);
  }

  lemma RunIsListed(u: Script, s: string, spans: seq<(nat, nat)>, terms: seq<string>, a: nat, b: nat)
    requires AreTheRuns(u, s, spans, terms) && IsRun(u, s, a, b)
    ensures terms != []
  {
    assert (a, b) in spans;
  }

  /** Every word character lies in a maximal run. */
  lemma RunAround(u: Script, s: string, i: nat) returns (a: nat, b: nat)
    requires i < |s| && u.word(s[i])
    ensures a <= i < b && IsRun(u, s, a, b)
  {
    a, b := i, i + 1;
    while a > 0 && u.word(s[a - 1])
      invariant a <= i && forall k :: a <= k <= i ==> u.word(s[k])
    {
      a := a - 1;
    }
    while b < |s| && u.word(s[b])
      invariant i < b <= |s| && forall k :: a <= k < b ==> u.word(s[k])
    {
      b := b + 1;
    }
  }

  lemma Increasing(spans: seq<(nat, nat)>, i: nat, j: nat)
    requires InOrder(spans) && (forall k :: 0 <= k < |spans| ==> spans[k].0 < spans[k].1) && i < j < |spans|
    ensures spans[i].0 < spans[j].0
    decreases j
  {
    if i + 1 < j {
      Increasing(spans, i, j - 1);
    }
    assert spans[j - 1].1 < spans[j - 1 + 1].0;
  }

  lemma SetOfSpans(u: Script, s: string, spans: seq<(nat, nat)>, terms: seq<string>)
    requires AreTheRuns(u, s, spans, terms)
    ensures |set p | p in spans| == |spans|
  {
    forall i, j | 0 <= i < j < |spans| ensures spans[i] != spans[j] {
      assert forall k :: 0 <= k < |spans| ==> SpanIs(u, s, spans[k], terms[k]) && spans[k].0 < spans[k].1;
      Increasing(spans, i, j);
    }
    DistinctCount(spans);
  }

  lemma {:induction false} DistinctCount<T>(s: seq<T>)
    requires forall i, j :: 0 <= i < j < |s| ==> s[i] != s[j]
    ensures |set p | p in s| == |s|
    decreases |s|
  {
    if s != [] {
      var t := s[..|s| - 1];
      var last := s[|s| - 1];
      DistinctCount(t);
      assert (set p | p in s) == (set p | p in t) + {last} by {
        assert s == t + [last];
      }
      assert last !in t;
    }
  }

  lemma SameRuns(u: Script, s: string, spans: seq<(nat, nat)>, terms: seq<string>, others: seq<(nat, nat)>, words: seq<string>)
    requires AreTheRuns(u, s, spans, terms) && AreTheRuns(u, s, others, words)
    ensures |terms| == |words|
  {
    SetOfSpans(u, s, spans, terms);
    SetOfSpans(u, s, others, words);
    assert forall k :: 0 <= k < |spans| ==> SpanIs(u, s, spans[k], terms[k]);
    assert forall k :: 0 <= k < |others| ==> SpanIs(u, s, others[k], words[k]);
    assert (set p | p in spans) == (set p | p in others);
  }

  // ------------------------------------------------------------ a search by text

  datatype TextSearchError =
    InvalidVaultId | FtsSyntax | InQuery(query: QueryError) | InSearch(search: NoteSearch.SearchError)

  /** search_notes from the text the user typed: the id and the limit are tested before the text is compiled. */
  ghost function SearchText(u: Script, a: Storage.Analyzer, rk: NoteSearch.Ranking, db: Storage.Db, vault: string,
      query: string, limit: nat): Result<NoteSearch.SearchResult, TextSearchError>
    requires NoteSearch.StrictTotal(rk.collate) && Storage.Consistent(a, db)
  {
    if !VaultIndex.ValidVaultId(vault) then Failure(InvalidVaultId)
    else if !(1 <= limit <= NoteSearch.MAX_SEARCH_RESULTS) then Failure(InSearch(NoteSearch.InvalidSearchLimit))
    else match Compile(u, query)
      case Failure(e) => Failure(InQuery(e))
      case Success(compiled) =>
        match ReadQuery(compiled)
        case None => Failure(FtsSyntax)
        case Some(terms) =>
          match NoteSearch.SearchNotes(a, rk, db, vault, Phrases(a, terms), limit)
          case Failure(e) => Failure(InSearch(e))
          case Success(result) => Success(result)
  }

  function Phrases(a: Storage.Analyzer, terms: seq<string>): seq<NoteSearch.Phrase> {
    seq(|terms|, i requires 0 <= i < |terms| => a.text(terms[i]))
  }

  /** The note stands in the vault and holds, in its title, its body or its path, every maximal word run of the text. */
  ghost predicate HoldsEveryWord(u: Script, a: Storage.Analyzer, db: Storage.Db, vault: string, query: string,
      k: Storage.Key) {
    && k in db.notes && k.vault == vault
    && forall i: nat, j: nat | IsRun(u, query, i, j) :: NoteSearch.TextMatches(a, k, db.notes[k], a.text(query[i..j]))
  }

  ghost function NotesWithEveryWord(u: Script, a: Storage.Analyzer, db: Storage.Db, vault: string, query: string)
    : set<Storage.Key>
  {
    set k | k in db.notes && HoldsEveryWord(u, a, db, vault, query, k)
  }

  /**
   A text search succeeds exactly when the id, the limit and the text pass their
   own tests and the vault is indexed: whatever the text, the query made of it is
   well formed. It then finds the best `limit` of the notes that hold every word.
   */
  lemma TextSearchFindsItsWords(u: Script, a: Storage.Analyzer, rk: NoteSearch.Ranking, db: Storage.Db, vault: string,
      query: string, limit: nat)
    requires NoteSearch.StrictTotal(rk.collate) && Storage.Consistent(a, db) && Faithful(u)
    ensures var r := SearchText(u, a, rk, db, vault, query, limit);
            && (r.Success? <==>
                  && VaultIndex.VaultId(vault) && 1 <= limit <= 50
                  && Compile(u, query).Success? && vault in db.vaults && db.vaults[vault].indexRevision >= 0)
            && r != Failure(FtsSyntax)
            && (r == Failure(InvalidVaultId) <==> !VaultIndex.VaultId(vault))
            && (r == Failure(InSearch(NoteSearch.InvalidSearchLimit)) <==> VaultIndex.VaultId(vault) && !(1 <= limit <= 50))
            && (VaultIndex.VaultId(vault) && 1 <= limit <= 50 && Compile(u, query).Failure? ==>
                  r == Failure(InQuery(Compile(u, query).error)))
            && (r.Success? ==>
                  var matches := NotesWithEveryWord(u, a, db, vault, query);
                  && |r.value.hits| == (if |matches| <= limit then |matches| else limit)
                  && (forall k | k in r.value.hits :: k in matches)
                  && (forall i, j | 0 <= i < j < |r.value.hits| :: NoteSearch.Ranks(rk, db, r.value.hits[i], r.value.hits[j]))
                  && forall k, h | k in matches && k !in r.value.hits && h in r.value.hits :: NoteSearch.Ranks(rk, db, h, k))
  {
    hide Terms, JoinAnd, ReadQuery, VaultIndex.ValidVaultId, VaultIndex.VaultId, NoteSearch.Ordered, NoteSearch.Rejoined,
      NoteSearch.RankedIds, NoteSearch.ScannedHits, NotesWithEveryWord, Phrases, NoteSearch.Ranks;
    VaultIndex.ValidIdIsVaultId(vault);
    if Compile(u, query).Success? {
      QueryIsItsWords(u, query);
      ScansForEveryWord(u, a, db, vault, query);
      NoteSearch.SearchIsTopOfFullScan(a, rk, db, vault, Phrases(a, Terms(u, query)), limit);
    }
  }

  /** The phrases of the query are the tokens of its maximal runs, no more and no fewer. */
  lemma ScansForEveryWord(u: Script, a: Storage.Analyzer, db: Storage.Db, vault: string, query: string)
    ensures NoteSearch.ScannedHits(a, db, vault, Phrases(a, Terms(u, query))) == NotesWithEveryWord(u, a, db, vault, query)
  {
    hide Terms, NoteSearch.TextMatches;
    var spans := TermsAreTheRuns(u, query);
    var terms := Terms(u, query);
    var phrases := Phrases(a, terms);
    forall k | k in db.notes
      ensures NoteSearch.MatchesText(a, db, vault, phrases, k) <==> HoldsEveryWord(u, a, db, vault, query, k)
    {
      forall i: nat, j: nat | NoteSearch.MatchesText(a, db, vault, phrases, k) && IsRun(u, query, i, j)
        ensures NoteSearch.TextMatches(a, k, db.notes[k], a.text(query[i..j]))
      {
        var n :| 0 <= n < |spans| && spans[n] == (i, j);
        assert SpanIs(u, query, spans[n], terms[n]);
        assert phrases[n] in phrases;
      }
      forall phrase | HoldsEveryWord(u, a, db, vault, query, k) && phrase in phrases
        ensures NoteSearch.TextMatches(a, k, db.notes[k], phrase)
      {
        var n :| 0 <= n < |phrases| && phrases[n] == phrase;
        assert SpanIs(u, query, spans[n], terms[n]);
      }
    }
  }

  lemma QueryIsItsWords(u: Script, query: string)
    requires Faithful(u) && Compile(u, query).Success?
    ensures ReadQuery(Compile(u, query).value) == Some(Terms(u, query))
  {
    hide Terms, JoinAnd, ReadQuery;
    var spans := TermsAreTheRuns(u, query);
    var terms := Terms(u, query);
    forall k | 0 <= k < |terms| ensures '"' !in terms[k] {
      assert SpanIs(u, query, spans[k], terms[k]);
      RunHasNoQuote(u, query, spans[k].0, spans[k].1);
    }
    JoinRoundTrip(terms);
  }
}
