/**
 The review preview: one hunk between the common prefix and the common suffix
 of two texts, printed as a unified diff, and the reader that takes it back.
 */
module UnifiedDiff {
  import opened Common

  const MAX_REVIEW_BYTES := 512 * 1024
  const MAX_REVIEW_LINES := 10000
  const REVIEW_CONTEXT_LINES := 3

  type Lines = seq<string>

  // ------------------------------------------------------------ lines

  function LineEnd(s: string): (i: nat)
    ensures i <= |s|
    ensures i < |s| ==> s[i] == '\n'
    ensures forall k :: 0 <= k < i ==> s[k] != '\n'
  {
    if s == [] || s[0] == '\n' then 0 else 1 + LineEnd(s[1..])
  }

  /** split("\n"): one more piece than there are newlines. */
  function Split(s: string): (r: Lines)
    ensures r != []
    ensures forall i :: 0 <= i < |r| ==> '\n' !in r[i]
    decreases |s|
  {
    var i := LineEnd(s);
    if i == |s| then [s] else [s[..i]] + Split(s[i + 1..])
  }

  /** join("\n"). */
  function Join(ls: Lines): string
    requires ls != []
  {
    if |ls| == 1 then ls[0] else ls[0] + ("\n" + Join(ls[1..]))
  }

  lemma {:induction false} JoinSplit(s: string)
    ensures Join(Split(s)) == s
    decreases |s|
  {
    hide Join, Split, LineEnd;
    if LineEnd(s) < |s| {
      SplitCut(s);
      JoinSplit(s[LineEnd(s) + 1..]);
      JoinCut(s, LineEnd(s), Split(s[LineEnd(s) + 1..]));
    } else {
      SplitWhole(s);
    }
  }

  lemma SplitWhole(s: string)
    requires LineEnd(s) == |s|
    ensures Split(s) == [s] && Join([s]) == s
  {
    hide LineEnd;
  }

  lemma SplitCut(s: string)
    requires LineEnd(s) < |s|
    ensures Split(s) == [s[..LineEnd(s)]] + Split(s[LineEnd(s) + 1..])
  {
    hide LineEnd;
  }

  lemma JoinCut(s: string, i: nat, rest: Lines)
    requires i < |s| && s[i] == '\n' && rest != [] && Join(rest) == s[i + 1..]
    ensures Join([s[..i]] + rest) == s
  {
    JoinStep(s[..i], rest);
    hide Join;
    CutAtNewline(s, i);
  }

  lemma CutAtNewline(s: string, i: nat)
    requires i < |s| && s[i] == '\n'
    ensures s == s[..i] + ("\n" + s[i + 1..])
  {
  }

  lemma JoinStep(l: string, ls: Lines)
    requires ls != []
    ensures Join([l] + ls) == l + ("\n" + Join(ls))
  {
    assert ([l] + ls)[1..] == ls;
  }

  lemma {:induction false} LineEndAt(s: string, n: nat)
    requires n < |s| && s[n] == '\n' && forall k :: 0 <= k < n ==> s[k] != '\n'
    ensures LineEnd(s) == n
    decreases n
  {
    if n > 0 {
      assert s[0] != '\n';
      LineEndAt(s[1..], n - 1);
    }
  }

  lemma {:induction false} SplitJoin(ls: Lines)
    requires ls != [] && forall i :: 0 <= i < |ls| ==> '\n' !in ls[i]
    ensures Split(Join(ls)) == ls
    decreases |ls|
  {
    var s := Join(ls);
    if |ls| == 1 {
      assert LineEnd(s) == |s|;
    } else {
      LineEndAt(s, |ls[0]|);
      assert s[..|ls[0]|] == ls[0] && s[|ls[0]| + 1..] == Join(ls[1..]);
      SplitJoin(ls[1..]);
    }
  }

  // ------------------------------------------------------------ numbers

  function DigitChar(d: nat): (c: char)
    requires d < 10
    ensures '0' <= c <= '9' && (c as int) - ('0' as int) == d
  {
    (d + '0' as int) as char
  }

  predicate IsDigit(c: char) {
    '0' <= c <= '9'
  }

  function Decimal(n: nat): (s: string)
    ensures s != [] && forall i :: 0 <= i < |s| ==> IsDigit(s[i])
  {
    if n < 10 then [DigitChar(n)] else Decimal(n / 10) + [DigitChar(n % 10)]
  }

  function DigitValue(c: char): nat
    requires IsDigit(c)
  {
    (c as int) - ('0' as int)
  }

  function Value(s: string): nat
    requires forall i :: 0 <= i < |s| ==> IsDigit(s[i])
  {
    if s == [] then 0 else Value(s[..|s| - 1]) * 10 + DigitValue(s[|s| - 1])
  }

  lemma {:induction false} DecimalValue(n: nat)
    ensures Value(Decimal(n)) == n
    decreases n
  {
    var s := Decimal(n);
    if n >= 10 {
      assert s[..|s| - 1] == Decimal(n / 10);
      DecimalValue(n / 10);
    } else {
      assert s[..|s| - 1] == [];
    }
  }

  function DigitRun(s: string): (n: nat)
    ensures n <= |s|
    ensures forall i :: 0 <= i < n ==> IsDigit(s[i])
    ensures n < |s| ==> !IsDigit(s[n])
  {
    if s == [] || !IsDigit(s[0]) then 0 else 1 + DigitRun(s[1..])
  }

  /** A literal, then a number: what is left after them. */
  function ReadNumber(s: string, literal: string): Option<(nat, string)> {
    if !(literal <= s) then None
    else
      var t := s[|literal|..];
      var n := DigitRun(t);
      if n == 0 then None else Some((Value(t[..n]), t[n..]))
  }

  lemma {:induction false} DigitRunOf(d: string, rest: string)
    requires forall i :: 0 <= i < |d| ==> IsDigit(d[i])
    requires rest == [] || !IsDigit(rest[0])
    ensures DigitRun(d + rest) == |d|
    decreases |d|
  {
    if d == [] {
      assert d + rest == rest;
    } else {
      assert (d + rest)[1..] == d[1..] + rest;
      DigitRunOf(d[1..], rest);
    }
  }

  lemma ReadPrintedNumber(literal: string, n: nat, rest: string)
    requires rest == [] || !IsDigit(rest[0])
    ensures ReadNumber(literal + (Decimal(n) + rest), literal) == Some((n, rest))
  {
    var s := literal + (Decimal(n) + rest);
    assert s[|literal|..] == Decimal(n) + rest;
    DigitRunOf(Decimal(n), rest);
    DecimalValue(n);
    assert (Decimal(n) + rest)[..|Decimal(n)|] == Decimal(n);
    assert (Decimal(n) + rest)[|Decimal(n)|..] == rest;
  }

  datatype Header = Header(oldStart: nat, oldCount: nat, newStart: nat, newCount: nat)

  function PrintHeader(h: Header): string {
    "@@ -" + (Decimal(h.oldStart) + ("," + (Decimal(h.oldCount)
      + (" +" + (Decimal(h.newStart) + ("," + (Decimal(h.newCount) + " @@")))))))
  }

  function ReadHeader(s: string): Option<Header> {
    match ReadNumber(s, "@@ -")
    case None => None
    case Some((a, s1)) =>
      match ReadNumber(s1, ",")
      case None => None
      case Some((b, s2)) =>
        match ReadNumber(s2, " +")
        case None => None
        case Some((c, s3)) =>
          match ReadNumber(s3, ",")
          case None => None
          case Some((d, s4)) => if s4 == " @@" then Some(Header(a, b, c, d)) else None
  }

  lemma HeaderRoundTrip(h: Header)
    ensures ReadHeader(PrintHeader(h)) == Some(h)
    ensures OneLine(PrintHeader(h))
  {
    hide Decimal, ReadNumber;
    var s3 := "," + (Decimal(h.newCount) + " @@");
    var s2 := " +" + (Decimal(h.newStart) + s3);
    var s1 := "," + (Decimal(h.oldCount) + s2);
    ReadPrintedNumber(",", h.newCount, " @@");
    ReadPrintedNumber(" +", h.newStart, s3);
    ReadPrintedNumber(",", h.oldCount, s2);
    ReadPrintedNumber("@@ -", h.oldStart, s1);
  }

  // ------------------------------------------------------------ hunks

  datatype HunkLine = Context(text: string) | Removed(text: string) | Added(text: string)

  datatype Hunk = Hunk(header: Header, lines: seq<HunkLine>)

  function PrintLine(l: HunkLine): string {
    match l
    case Context(t) => " " + t
    case Removed(t) => "-" + t
    case Added(t) => "+" + t
  }

  function PrintLines(ls: seq<HunkLine>): (r: Lines)
    ensures |r| == |ls|
    ensures forall i :: 0 <= i < |ls| ==> r[i] == PrintLine(ls[i])
  {
    seq(|ls|, i requires 0 <= i < |ls| => PrintLine(ls[i]))
  }

  /** Printed body lines; a line of remarks starts with a backslash and is no part of the hunk. */
  function ReadLines(ls: Lines): Option<seq<HunkLine>> {
    if ls == [] then Some([])
    else match ReadLines(ls[1..])
      case None => None
      case Some(rest) =>
        if ls[0] == [] then None
        else match ls[0][0]
          case ' ' => Some([Context(ls[0][1..])] + rest)
          case '-' => Some([Removed(ls[0][1..])] + rest)
          case '+' => Some([Added(ls[0][1..])] + rest)
          case '\\' => Some(rest)
          case _ => None
  }

  /** The lines a hunk takes from the old text, and those it leaves in the new one. */
  function Old(ls: seq<HunkLine>): Lines {
    if ls == [] then [] else (if ls[0].Added? then [] else [ls[0].text]) + Old(ls[1..])
  }

  function New(ls: seq<HunkLine>): Lines {
    if ls == [] then [] else (if ls[0].Removed? then [] else [ls[0].text]) + New(ls[1..])
  }

  function Replace(text: Lines, start: nat, count: nat, expected: Lines, put: Lines): Option<Lines> {
    if 1 <= start && start - 1 + count <= |text| && text[start - 1..start - 1 + count] == expected then
      Some(text[..start - 1] + put + text[start - 1 + count..])
    else None
  }

  /** Apply a hunk to the old text; it is refused unless its old lines stand where it says. */
  function ApplyHunk(h: Hunk, before: Lines): Option<Lines> {
    Replace(before, h.header.oldStart, h.header.oldCount, Old(h.lines), New(h.lines))
  }

  function UndoHunk(h: Hunk, after: Lines): Option<Lines> {
    Replace(after, h.header.newStart, h.header.newCount, New(h.lines), Old(h.lines))
  }

  function OldName(path: string): string {
    "--- a/" + path
  }

  function NewName(path: string): string {
    "+++ b/" + path
  }

  predicate NamesOld(line: string) {
    "--- a/" <= line
  }

  predicate NamesNew(line: string) {
    "+++ b/" <= line
  }

  lemma NamesAreRead(path: string)
    ensures NamesOld(OldName(path)) && NamesNew(NewName(path))
    ensures OneLine(path) ==> OneLine(OldName(path)) && OneLine(NewName(path))
  {
  }

  predicate OneLine(s: string) {
    '\n' !in s
  }

  function ReadPreview(text: string): Option<Hunk> {
    var ls := Split(text);
    if |ls| < 3 || !NamesOld(ls[0]) || !NamesNew(ls[1]) then None
    else match (ReadHeader(ls[2]), ReadLines(ls[3..]))
      case (Some(h), Some(body)) => Some(Hunk(h, body))
      case _ => None
  }

  // ------------------------------------------------------------ building one

  /** Two texts agree on n lines, from i in the one and from j in the other. */
  ghost predicate Agree(a: Lines, b: Lines, i: nat, j: nat, n: nat) {
    i + n <= |a| && j + n <= |b| && forall k :: i <= k < i + n ==> a[k] == b[k - i + j]
  }

  function CommonPrefix(a: Lines, b: Lines): (n: nat)
    ensures n <= |a| && n <= |b|
  {
    if a == [] || b == [] || a[0] != b[0] then 0 else 1 + CommonPrefix(a[1..], b[1..])
  }

  function CommonSuffix(a: Lines, b: Lines): (n: nat)
    ensures n <= |a| && n <= |b|
  {
    if a == [] || b == [] || a[|a| - 1] != b[|b| - 1] then 0
    else 1 + CommonSuffix(a[..|a| - 1], b[..|b| - 1])
  }

  /** The common prefix agrees, and could not be a line longer. */
  lemma {:induction false} CommonPrefixIsLongest(a: Lines, b: Lines)
    ensures var n := CommonPrefix(a, b);
            Agree(a, b, 0, 0, n) && (n < |a| && n < |b| ==> a[n] != b[n])
    decreases |a|
  {
    if a != [] && b != [] && a[0] == b[0] {
      CommonPrefixIsLongest(a[1..], b[1..]);
      var n := CommonPrefix(a[1..], b[1..]);
      assert CommonPrefix(a, b) == n + 1;
      hide CommonPrefix;
      forall k | 0 <= k < n + 1 ensures a[k] == b[k] {
        assert k > 0 ==> a[1..][k - 1] == b[1..][k - 1];
      }
    }
  }

  /** The common suffix agrees, and could not be a line longer. */
  lemma {:induction false} CommonSuffixIsLongest(a: Lines, b: Lines)
    ensures var n := CommonSuffix(a, b);
            Agree(a, b, |a| - n, |b| - n, n) && (n < |a| && n < |b| ==> a[|a| - 1 - n] != b[|b| - 1 - n])
    decreases |a|
  {
    if a != [] && b != [] && a[|a| - 1] == b[|b| - 1] {
      var c, d := a[..|a| - 1], b[..|b| - 1];
      CommonSuffixIsLongest(c, d);
      var n := CommonSuffix(c, d);
      assert CommonSuffix(a, b) == n + 1;
      hide CommonSuffix;
      forall k | |a| - n - 1 <= k < |a| ensures a[k] == b[k - |a| + |b|] {
        assert k < |c| ==> c[k] == d[k - |c| + |d|];
      }
    }
  }

  function Max(a: int, b: int): int {
    if a > b then a else b
  }

  function Min(a: int, b: int): int {
    if a < b then a else b
  }

  function Marked(f: string -> HunkLine, ls: Lines): (r: seq<HunkLine>)
    ensures |r| == |ls| && forall i :: 0 <= i < |ls| ==> r[i] == f(ls[i])
  {
    seq(|ls|, i requires 0 <= i < |ls| => f(ls[i]))
  }

  /** Leading context, removed lines, added lines, trailing context. */
  function Body(c: Lines, x: Lines, y: Lines, d: Lines): seq<HunkLine> {
    Marked(t => Context(t), c) + Marked(t => Removed(t), x) + Marked(t => Added(t), y) + Marked(t => Context(t), d)
  }

  /** The hunk between a common prefix and a common suffix of the given lengths. */
  function HunkOf(before: Lines, after: Lines, prefix: nat, suffix: nat): Hunk
    requires prefix + suffix <= |before| && prefix + suffix <= |after|
  {
    var start := Max(0, prefix - REVIEW_CONTEXT_LINES);
    var beforeEnd, afterEnd := |before| - suffix, |after| - suffix;
    var beforeContext := Min(|before|, beforeEnd + REVIEW_CONTEXT_LINES);
    var afterContext := Min(|after|, afterEnd + REVIEW_CONTEXT_LINES);
    Hunk(
      Header(start + 1, beforeContext - start, start + 1, afterContext - start),
      Body(before[start..prefix], before[prefix..beforeEnd], after[prefix..afterEnd], after[afterEnd..afterContext]))
  }

  /** The hunk a review of two texts shows. */
  function ReviewHunk(before: string, after: string): Hunk {
    var b, a := Split(before), Split(after);
    var prefix := CommonPrefix(b, a);
    HunkOf(b, a, prefix, CommonSuffix(b[prefix..], a[prefix..]))
  }

  function EndsWithNewline(s: string): bool {
    s != [] && s[|s| - 1] == '\n'
  }

  function BeforeRemark(newline: bool): string {
    if newline then "\\ Before ended with a newline" else "\\ Before did not end with a newline"
  }

  function AfterRemark(newline: bool): string {
    if newline then "\\ After ends with a newline" else "\\ After does not end with a newline"
  }

  function Remarks(before: string, after: string): Lines {
    if EndsWithNewline(before) == EndsWithNewline(after) then []
    else [BeforeRemark(EndsWithNewline(before)), AfterRemark(EndsWithNewline(after))]
  }

  function PreviewLines(path: string, before: string, after: string): Lines {
    var hunk := ReviewHunk(before, after);
    [OldName(path), NewName(path), PrintHeader(hunk.header)] + PrintLines(hunk.lines) + Remarks(before, after)
  }

  function Preview(path: string, before: string, after: string): string {
    Join(PreviewLines(path, before, after))
  }

  predicate TooLargeToReview(width: char -> nat, before: string, after: string) {
    || ByteLength(width, before) + ByteLength(width, after) > MAX_REVIEW_BYTES
    || |Split(before)| + |Split(after)| > MAX_REVIEW_LINES
  }

  datatype ReviewError = TooLarge

  method BuildUnifiedPreview(width: char -> nat, path: string, before: string, after: string)
    returns (r: Result<string, ReviewError>)
    ensures r.Failure? <==> ByteLength(width, before) + ByteLength(width, after) > 512 * 1024 || |Split(before)| + |Split(after)| > 10000
    ensures r == if TooLargeToReview(width, before, after) then Failure(TooLarge)
                 else Success(Preview(path, before, after))
  {
    hide PrintHeader, PrintLines, PrintLine, Marked, Join, Split, ByteLength;
    if TooLargeToReview(width, before, after) {
      return Failure(TooLarge);
    }
    var beforeLines, afterLines := Split(before), Split(after);
    var prefix := PrefixLoop(beforeLines, afterLines);
    var suffix := SuffixLoop(beforeLines, afterLines, prefix);
    var hunk := HunkOf(beforeLines, afterLines, prefix, suffix);
    var output := [OldName(path), NewName(path), PrintHeader(hunk.header)];
    output := output + PrintLines(hunk.lines);
    output := output + Remarks(before, after);
    r := Success(Join(output));
  }

  method PrefixLoop(b: Lines, a: Lines) returns (prefix: nat)
    ensures prefix == CommonPrefix(b, a)
  {
    prefix := 0;
    while prefix < |b| && prefix < |a| && b[prefix] == a[prefix]
      invariant prefix <= |b| && prefix <= |a|
      invariant CommonPrefix(b, a) == prefix + CommonPrefix(b[prefix..], a[prefix..])
    {
      assert b[prefix..][1..] == b[prefix + 1..] && a[prefix..][1..] == a[prefix + 1..];
      prefix := prefix + 1;
    }
  }

  method SuffixLoop(b: Lines, a: Lines, prefix: nat) returns (suffix: nat)
    requires prefix <= |b| && prefix <= |a|
    ensures suffix == CommonSuffix(b[prefix..], a[prefix..])
  {
    hide CommonSuffix;
    ghost var c, d := b[prefix..], a[prefix..];
    suffix := 0;
    assert c[..|c|] == c && d[..|d|] == d;
    while suffix < |b| - prefix && suffix < |a| - prefix && b[|b| - 1 - suffix] == a[|a| - 1 - suffix]
      invariant suffix <= |c| && suffix <= |d|
      invariant CommonSuffix(c, d) == suffix + CommonSuffix(c[..|c| - suffix], d[..|d| - suffix])
    {
      SuffixStep(c, d, |c| - suffix, |d| - suffix);
      suffix := suffix + 1;
    }
    SuffixStop(c, d, |c| - suffix, |d| - suffix);
  }

  lemma SuffixStep(c: Lines, d: Lines, m: nat, n: nat)
    requires 0 < m <= |c| && 0 < n <= |d| && c[m - 1] == d[n - 1]
    ensures CommonSuffix(c[..m], d[..n]) == 1 + CommonSuffix(c[..m - 1], d[..n - 1])
  {
    assert c[..m][..m - 1] == c[..m - 1] && d[..n][..n - 1] == d[..n - 1];
  }

  lemma SuffixStop(c: Lines, d: Lines, m: nat, n: nat)
    requires m <= |c| && n <= |d| && (m > 0 && n > 0 ==> c[m - 1] != d[n - 1])
    ensures CommonSuffix(c[..m], d[..n]) == 0
  {
  }

  // ------------------------------------------------------------ what it is worth

  lemma OldStep(l: HunkLine, ls: seq<HunkLine>)
    ensures Old([l] + ls) == (if l.Added? then [] else [l.text]) + Old(ls)
    ensures New([l] + ls) == (if l.Removed? then [] else [l.text]) + New(ls)
  {
    assert ([l] + ls)[1..] == ls;
  }

  lemma {:induction false} OldConcat(x: seq<HunkLine>, y: seq<HunkLine>)
    ensures Old(x + y) == Old(x) + Old(y) && New(x + y) == New(x) + New(y)
    decreases |x|
  {
    if x == [] {
      assert x + y == y;
    } else {
      hide Old, New;
      OldConcat(x[1..], y);
      HeadAndTail(x, y);
      OldStep(x[0], x[1..]);
      OldStep(x[0], x[1..] + y);
      Regroup(if x[0].Added? then [] else [x[0].text], Old(x[1..]), Old(y));
      Regroup(if x[0].Removed? then [] else [x[0].text], New(x[1..]), New(y));
    }
  }

  lemma HeadAndTail(x: seq<HunkLine>, y: seq<HunkLine>)
    requires x != []
    ensures x == [x[0]] + x[1..] && x + y == [x[0]] + (x[1..] + y)
  {
  }

  lemma Regroup(a: Lines, b: Lines, c: Lines)
    ensures a + (b + c) == (a + b) + c
  {
  }

  lemma {:induction false} OldOfContext(ls: Lines)
    ensures Old(Marked(t => Context(t), ls)) == ls && New(Marked(t => Context(t), ls)) == ls
    decreases |ls|
  {
    if ls != [] {
      assert Marked(t => Context(t), ls)[1..] == Marked(t => Context(t), ls[1..]);
      OldOfContext(ls[1..]);
    }
  }

  lemma {:induction false} OldOfRemoved(ls: Lines)
    ensures Old(Marked(t => Removed(t), ls)) == ls && New(Marked(t => Removed(t), ls)) == []
    decreases |ls|
  {
    if ls != [] {
      assert Marked(t => Removed(t), ls)[1..] == Marked(t => Removed(t), ls[1..]);
      OldOfRemoved(ls[1..]);
    }
  }

  lemma {:induction false} OldOfAdded(ls: Lines)
    ensures Old(Marked(t => Added(t), ls)) == [] && New(Marked(t => Added(t), ls)) == ls
    decreases |ls|
  {
    if ls != [] {
      assert Marked(t => Added(t), ls)[1..] == Marked(t => Added(t), ls[1..]);
      OldOfAdded(ls[1..]);
    }
  }

  /** The four pieces of a hunk, read as old lines and as new lines. */
  lemma HunkSides(c: Lines, x: Lines, y: Lines, d: Lines)
    ensures Old(Body(c, x, y, d)) == c + x + d && New(Body(c, x, y, d)) == c + y + d
  {
    hide Old, New, Marked;
    var p, q := Marked(t => Context(t), c), Marked(t => Removed(t), x);
    var r, s := Marked(t => Added(t), y), Marked(t => Context(t), d);
    OldConcat(p, q);
    OldConcat(p + q, r);
    OldConcat(p + q + r, s);
    OldOfContext(c);
    OldOfRemoved(x);
    OldOfAdded(y);
    OldOfContext(d);
    assert c + x + [] + d == c + x + d && c + [] + y + d == c + y + d;
  }

  lemma Slices(a: Lines, i: nat, j: nat, k: nat, l: nat)
    requires i <= j <= k <= l <= |a|
    ensures a[i..j] + a[j..k] + a[k..l] == a[i..l]
    ensures a[..i] + a[i..l] + a[l..] == a
  {
  }

  /** Texts that agree on a stretch of lines agree on every part of it. */
  lemma AgreeOnPart(a: Lines, b: Lines, i: nat, j: nat, n: nat, from: nat, to: nat)
    requires Agree(a, b, i, j, n) && from <= to <= n
    ensures a[i + from..i + to] == b[j + from..j + to]
  {
    var s, t := a[i + from..i + to], b[j + from..j + to];
    forall k | 0 <= k < to - from ensures s[k] == t[k] {
      assert s[k] == a[i + from + k];
    }
  }

  ghost predicate Shared(before: Lines, after: Lines, prefix: nat, suffix: nat) {
    && prefix + suffix <= |before| && prefix + suffix <= |after|
    && Agree(before, after, 0, 0, prefix)
    && Agree(before, after, |before| - suffix, |after| - suffix, suffix)
  }

  /** A hunk reads as a slice of the old text, and as the slice of the new text that replaces it. */
  ghost predicate ReadsAs(h: Hunk, before: Lines, after: Lines, start: nat, bc: nat, ac: nat) {
    && start <= bc <= |before| && start <= ac <= |after|
    && h.header == Header(start + 1, bc - start, start + 1, ac - start)
    && Old(h.lines) == before[start..bc]
    && New(h.lines) == after[start..ac]
  }

  lemma HunkReadsAs(before: Lines, after: Lines, prefix: nat, suffix: nat)
    requires Shared(before, after, prefix, suffix)
    ensures var start, n := Max(0, prefix - REVIEW_CONTEXT_LINES), Min(suffix, REVIEW_CONTEXT_LINES);
            ReadsAs(HunkOf(before, after, prefix, suffix), before, after, start, |before| - suffix + n, |after| - suffix + n)
  {
    hide Old, New, Body, HunkOf, ReadsAs;
    HunkShape(before, after, prefix, suffix);
    var start, n := Max(0, prefix - REVIEW_CONTEXT_LINES), Min(suffix, REVIEW_CONTEXT_LINES);
    var be, ae := |before| - suffix, |after| - suffix;
    SidesAreSlices(before, after, prefix, suffix, start, n);
    hide Shared;
    BodyReadsAs(HunkOf(before, after, prefix, suffix), before, after, start, be + n, ae + n,
      before[start..prefix], before[prefix..be], after[prefix..ae], after[ae..ae + n]);
  }

  lemma BodyReadsAs(h: Hunk, before: Lines, after: Lines, start: nat, bc: nat, ac: nat,
      c: Lines, x: Lines, y: Lines, d: Lines)
    requires start <= bc <= |before| && start <= ac <= |after|
    requires h.header == Header(start + 1, bc - start, start + 1, ac - start) && h.lines == Body(c, x, y, d)
    requires c + x + d == before[start..bc] && c + y + d == after[start..ac]
    ensures ReadsAs(h, before, after, start, bc, ac)
  {
    hide Old, New, Body;
    HunkSides(c, x, y, d);
  }

  lemma SidesAreSlices(before: Lines, after: Lines, prefix: nat, suffix: nat, start: nat, n: nat)
    requires Shared(before, after, prefix, suffix) && start <= prefix && n <= suffix
    ensures var be, ae := |before| - suffix, |after| - suffix;
            && before[start..prefix] + before[prefix..be] + after[ae..ae + n] == before[start..be + n]
            && before[start..prefix] + after[prefix..ae] + after[ae..ae + n] == after[start..ae + n]
  {
    hide Agree;
    var be, ae := |before| - suffix, |after| - suffix;
    AgreeOnPart(before, after, 0, 0, prefix, start, prefix);
    AgreeOnPart(before, after, be, ae, suffix, 0, n);
    JoinSlices(before, start, prefix, be, be + n, before[start..prefix], after[ae..ae + n]);
    JoinSlices(after, start, prefix, ae, ae + n, before[start..prefix], after[ae..ae + n]);
  }

  lemma JoinSlices(a: Lines, i: nat, j: nat, k: nat, l: nat, first: Lines, last: Lines)
    requires i <= j <= k <= l <= |a| && first == a[i..j] && last == a[k..l]
    ensures first + a[j..k] + last == a[i..l]
  {
  }

  /** A hunk's start, its counts and its four pieces. */
  lemma HunkShape(before: Lines, after: Lines, prefix: nat, suffix: nat)
    requires prefix + suffix <= |before| && prefix + suffix <= |after|
    ensures var h := HunkOf(before, after, prefix, suffix);
            var start, n := Max(0, prefix - REVIEW_CONTEXT_LINES), Min(suffix, REVIEW_CONTEXT_LINES);
            var be, ae := |before| - suffix, |after| - suffix;
            && h.header == Header(start + 1, be + n - start, start + 1, ae + n - start)
            && h.lines == Body(before[start..prefix], before[prefix..be], after[prefix..ae], after[ae..ae + n])
  {
    hide Body;
  }

  /** The trailing context is printed from the new text, and is the old text's as well. */
  lemma TrailingContextAgrees(before: Lines, after: Lines, prefix: nat, suffix: nat)
    requires Shared(before, after, prefix, suffix)
    ensures var be, ae := |before| - suffix, |after| - suffix;
            before[be..Min(|before|, be + REVIEW_CONTEXT_LINES)] == after[ae..Min(|after|, ae + REVIEW_CONTEXT_LINES)]
  {
    var be, ae := |before| - suffix, |after| - suffix;
    AgreeOnPart(before, after, be, ae, suffix, 0, Min(suffix, REVIEW_CONTEXT_LINES));
  }

  /** The hunk of any agreeing prefix and suffix takes one text to the other and back, and its counts are its lines'. */
  lemma HunkIsAPatch(before: Lines, after: Lines, prefix: nat, suffix: nat)
    requires Shared(before, after, prefix, suffix)
    ensures var h := HunkOf(before, after, prefix, suffix);
            && |Old(h.lines)| == h.header.oldCount && |New(h.lines)| == h.header.newCount
            && ApplyHunk(h, before) == Some(after)
            && UndoHunk(h, after) == Some(before)
  {
    hide HunkOf, ReadsAs, Agree, Old, New, ApplyHunk, UndoHunk;
    HunkReadsAs(before, after, prefix, suffix);
    var start, n := Max(0, prefix - REVIEW_CONTEXT_LINES), Min(suffix, REVIEW_CONTEXT_LINES);
    ReadsAsPatch(HunkOf(before, after, prefix, suffix), before, after, prefix, suffix, start, n);
  }

  lemma ReadsAsPatch(h: Hunk, before: Lines, after: Lines, prefix: nat, suffix: nat, start: nat, n: nat)
    requires Shared(before, after, prefix, suffix) && start <= prefix && n <= suffix
    requires ReadsAs(h, before, after, start, |before| - suffix + n, |after| - suffix + n)
    ensures |Old(h.lines)| == h.header.oldCount && |New(h.lines)| == h.header.newCount
    ensures ApplyHunk(h, before) == Some(after) && UndoHunk(h, after) == Some(before)
  {
    hide Old, New, Agree, Replace;
    var bc, ac := |before| - suffix + n, |after| - suffix + n;
    AgreeOnPart(before, after, 0, 0, prefix, 0, start);
    AgreeOnPart(before, after, |before| - suffix, |after| - suffix, suffix, n, suffix);
    assert before[..start] == before[0..start] && after[..start] == after[0..start];
    assert before[bc..] == before[bc..|before|] && after[ac..] == after[ac..|after|];
    ReplaceSlice(before, after, start, bc, ac);
    ReplaceSlice(after, before, start, ac, bc);
  }

  /** Texts that agree outside a slice: putting one's slice in place of the other's gives the one. */
  lemma ReplaceSlice(text: Lines, other: Lines, i: nat, j: nat, k: nat)
    requires i <= j <= |text| && i <= k <= |other|
    requires text[..i] == other[..i] && text[j..] == other[k..]
    ensures Replace(text, i + 1, j - i, text[i..j], other[i..k]) == Some(other)
  {
    Slices(other, i, i, i, k);
  }

  // ------------------------------------------------------------ the preview

  lemma SharedByBoth(before: Lines, after: Lines)
    ensures var p := CommonPrefix(before, after);
            Shared(before, after, p, CommonSuffix(before[p..], after[p..]))
  {
    var p := CommonPrefix(before, after);
    CommonPrefixIsLongest(before, after);
    SharedFrom(before, after, p, before[p..], after[p..]);
  }

  lemma SharedFrom(before: Lines, after: Lines, p: nat, b: Lines, a: Lines)
    requires Agree(before, after, 0, 0, p) && b == before[p..] && a == after[p..]
    ensures Shared(before, after, p, CommonSuffix(b, a))
  {
    CommonSuffixIsLongest(b, a);
    var n := CommonSuffix(b, a);
    hide CommonSuffix;
    forall k | |before| - n <= k < |before| ensures before[k] == after[k - |before| + |after|] {
      assert b[k - p] == a[k - p - |b| + |a|];
    }
  }

  lemma {:induction false} ReadPrintedLines(ls: seq<HunkLine>, remarks: Lines)
    requires forall l :: l in remarks ==> IsRemark(l)
    ensures ReadLines(PrintLines(ls) + remarks) == Some(ls)
    decreases |ls| + |remarks|
  {
    var s := PrintLines(ls) + remarks;
    if ls != [] {
      assert s[1..] == PrintLines(ls[1..]) + remarks;
      ReadPrintedLines(ls[1..], remarks);
      assert s[0] == PrintLine(ls[0]) && s[0][1..] == ls[0].text;
      assert ls == [ls[0]] + ls[1..];
    } else if remarks != [] {
      assert s[1..] == PrintLines([]) + remarks[1..] && s[0] == remarks[0] && IsRemark(remarks[0]);
      ReadPrintedLines([], remarks[1..]);
    }
  }

  predicate AllOneLine(ls: Lines) {
    forall i :: 0 <= i < |ls| ==> OneLine(ls[i])
  }

  lemma MarkedAreLines(f: string -> HunkLine, ls: Lines, from: nat, to: nat)
    requires AllOneLine(ls) && from <= to <= |ls| && forall t :: f(t).text == t
    ensures forall l :: l in Marked(f, ls[from..to]) ==> OneLine(l.text)
  {
    hide OneLine;
    forall i | 0 <= i < to - from ensures OneLine(Marked(f, ls[from..to])[i].text) {
      assert ls[from..to][i] == ls[from + i];
    }
  }

  /** Every line of a hunk of two texts cut into lines is a line. */
  lemma HunkLinesAreLines(before: string, after: string)
    ensures forall l :: l in ReviewHunk(before, after).lines ==> OneLine(l.text)
  {
    var b, a := Split(before), Split(after);
    assert AllOneLine(b) && AllOneLine(a);
    SharedByBoth(b, a);
    var prefix := CommonPrefix(b, a);
    HunkLinesOf(b, a, prefix, CommonSuffix(b[prefix..], a[prefix..]));
  }

  lemma HunkLinesOf(b: Lines, a: Lines, prefix: nat, suffix: nat)
    requires AllOneLine(b) && AllOneLine(a) && prefix + suffix <= |b| && prefix + suffix <= |a|
    ensures forall l :: l in HunkOf(b, a, prefix, suffix).lines ==> OneLine(l.text)
  {
    hide Marked, OneLine, AllOneLine, Agree;
    var be, ae := |b| - suffix, |a| - suffix;
    MarkedAreLines(t => Context(t), b, Max(0, prefix - REVIEW_CONTEXT_LINES), prefix);
    MarkedAreLines(t => Removed(t), b, prefix, be);
    MarkedAreLines(t => Added(t), a, prefix, ae);
    MarkedAreLines(t => Context(t), a, ae, Min(|a|, ae + REVIEW_CONTEXT_LINES));
  }

  lemma PrintedAreLines(ls: seq<HunkLine>)
    requires forall l :: l in ls ==> OneLine(l.text)
    ensures forall p :: p in PrintLines(ls) ==> OneLine(p)
  {
    forall i | 0 <= i < |ls| ensures OneLine(PrintLines(ls)[i]) {
      assert ls[i] in ls;
    }
  }

  predicate IsRemark(l: string) {
    l != [] && l[0] == '\\' && OneLine(l)
  }

  lemma BeforeRemarkIsRemark(newline: bool)
    ensures IsRemark(BeforeRemark(newline))
  {
  }

  lemma AfterRemarkIsRemark(newline: bool)
    ensures IsRemark(AfterRemark(newline))
  {
  }

  lemma RemarksAreRemarks(before: string, after: string)
    ensures forall l :: l in Remarks(before, after) ==> IsRemark(l)
  {
    hide BeforeRemark, AfterRemark, IsRemark;
    BeforeRemarkIsRemark(EndsWithNewline(before));
    AfterRemarkIsRemark(EndsWithNewline(after));
  }

  lemma HeadIsLines(path: string, h: Header)
    requires OneLine(path)
    ensures forall l :: l in [OldName(path), NewName(path), PrintHeader(h)] ==> OneLine(l)
  {
    hide OldName, NewName, PrintHeader, OneLine;
    NamesAreRead(path);
    HeaderRoundTrip(h);
  }

  lemma PreviewLinesAreLines(path: string, before: string, after: string)
    requires OneLine(path)
    ensures forall l :: l in PreviewLines(path, before, after) ==> OneLine(l)
  {
    hide PrintHeader, PrintLines, ReviewHunk, OldName, NewName, Remarks, OneLine;
    var h := ReviewHunk(before, after);
    HeadIsLines(path, h.header);
    HunkLinesAreLines(before, after);
    PrintedAreLines(h.lines);
    RemarksAreRemarks(before, after);
    assert forall l :: l in Remarks(before, after) ==> IsRemark(l) && OneLine(l);
    LinesOfThree([OldName(path), NewName(path), PrintHeader(h.header)], PrintLines(h.lines), Remarks(before, after));
  }

  lemma LinesOfThree(x: Lines, y: Lines, z: Lines)
    requires forall l :: l in x ==> OneLine(l)
    requires forall l :: l in y ==> OneLine(l)
    requires forall l :: l in z ==> OneLine(l)
    ensures forall l :: l in x + y + z ==> OneLine(l)
  {
  }

  /** The printed preview reads back as its hunk. */
  lemma PreviewRoundTrip(path: string, before: string, after: string)
    requires OneLine(path)
    ensures ReadPreview(Preview(path, before, after)) == Some(ReviewHunk(before, after))
  {
    hide PrintHeader, ReadHeader, PrintLines, ReadLines, Split, Join, ReviewHunk, Remarks, OldName, NewName, NamesOld, NamesNew;
    PreviewLinesAreLines(path, before, after);
    var ls := PreviewLines(path, before, after);
    assert forall i :: 0 <= i < |ls| ==> ls[i] in ls && OneLine(ls[i]);
    SplitJoin(ls);
    var h := ReviewHunk(before, after);
    HeaderRoundTrip(h.header);
    RemarksAreRemarks(before, after);
    ReadPrintedLines(h.lines, Remarks(before, after));
    assert ls[3..] == PrintLines(h.lines) + Remarks(before, after);
    NamesAreRead(path);
  }

  /**
   What stands around the hunk: the names of the note before and after, and
   below, if just one of the texts ends with a newline, which of them does.
   */
  lemma PreviewNamesTheNote(path: string, before: string, after: string)
    requires OneLine(path)
    ensures var ls := Split(Preview(path, before, after));
            var n := 3 + |ReviewHunk(before, after).lines|;
            var ended, ends := before != [] && before[|before| - 1] == '\n', after != [] && after[|after| - 1] == '\n';
            && n <= |ls| && ls[0] == "--- a/" + path && ls[1] == "+++ b/" + path
            && ls[n..] == (
                 if ended == ends then []
                 else if ended then ["\\ Before ended with a newline", "\\ After does not end with a newline"]
                 else ["\\ Before did not end with a newline", "\\ After ends with a newline"])
  {
    hide PrintHeader, PrintLines, Split, Join, ReviewHunk;
    PreviewLinesAreLines(path, before, after);
    var ls := PreviewLines(path, before, after);
    assert forall i :: 0 <= i < |ls| ==> ls[i] in ls && OneLine(ls[i]);
    SplitJoin(ls);
    assert ls[3 + |ReviewHunk(before, after).lines|..] == Remarks(before, after);
  }

  /**
   The hunk shows up to three lines that did not change before the changed part,
   all of that part, and up to three such lines after it, and starts at the first.
   */
  lemma ContextIsThreeLines(before: string, after: string)
    ensures var b, a := Split(before), Split(after);
            var prefix := CommonPrefix(b, a);
            var suffix := CommonSuffix(b[prefix..], a[prefix..]);
            var lead, trail := if prefix < 3 then prefix else 3, if suffix < 3 then suffix else 3;
            var h := ReviewHunk(before, after);
            && prefix + suffix <= |b| && prefix + suffix <= |a|
            && |h.lines| == lead + (|b| - prefix - suffix) + (|a| - prefix - suffix) + trail
            && (forall i :: 0 <= i < |h.lines| ==> (h.lines[i].Context? <==> i < lead || i >= |h.lines| - trail))
            && h.header.oldStart == h.header.newStart == prefix - lead + 1
  {
    hide Split;
    var b, a := Split(before), Split(after);
    SharedByBoth(b, a);
    hide CommonPrefix, CommonSuffix, Agree;
  }

  /** Read the preview, apply it to a text line by line, and join the lines. */
  function ApplyPreview(preview: string, text: string): Option<string> {
    match ReadPreview(preview)
    case None => None
    case Some(h) =>
      match ApplyHunk(h, Split(text))
      case None => None
      case Some(ls) => if ls == [] then None else Some(Join(ls))
  }

  function UndoPreview(preview: string, text: string): Option<string> {
    match ReadPreview(preview)
    case None => None
    case Some(h) =>
      match UndoHunk(h, Split(text))
      case None => None
      case Some(ls) => if ls == [] then None else Some(Join(ls))
  }

  /** The diff on the screen is a correct patch: applied it gives the replacement, undone it gives the note. */
  lemma PreviewIsAPatch(path: string, before: string, after: string)
    requires OneLine(path)
    ensures ApplyPreview(Preview(path, before, after), before) == Some(after)
    ensures UndoPreview(Preview(path, before, after), after) == Some(before)
  {
    hide Preview, ReadPreview, Join, Split, HunkOf, CommonPrefix, CommonSuffix;
    PreviewRoundTrip(path, before, after);
    SharedByBoth(Split(before), Split(after));
    var p := CommonPrefix(Split(before), Split(after));
    HunkIsAPatch(Split(before), Split(after), p, CommonSuffix(Split(before)[p..], Split(after)[p..]));
    JoinSplit(before);
    JoinSplit(after);
  }

  /** The header's counts are the numbers of old and of new lines printed below it. */
  lemma HeaderCountsLines(before: string, after: string)
    ensures var h := ReviewHunk(before, after);
            |Old(h.lines)| == h.header.oldCount && |New(h.lines)| == h.header.newCount
  {
    SharedByBoth(Split(before), Split(after));
    var p := CommonPrefix(Split(before), Split(after));
    HunkIsAPatch(Split(before), Split(after), p, CommonSuffix(Split(before)[p..], Split(after)[p..]));
  }

  predicate Changed(l: HunkLine) {
    !l.Context?
  }

  lemma {:induction false} UnchangedHunk(ls: seq<HunkLine>)
    requires forall l :: l in ls ==> !Changed(l)
    ensures Old(ls) == New(ls)
    decreases |ls|
  {
    if ls != [] {
      assert ls[0] in ls;
      UnchangedHunk(ls[1..]);
    }
  }

  /** A changed line is printed exactly when the texts differ. */
  lemma DifferenceIsShown(before: string, after: string)
    ensures before != after <==> exists l :: l in ReviewHunk(before, after).lines && Changed(l)
  {
    hide ReviewHunk, HunkOf, Preview, ReadPreview, Join, Split;
    var h := ReviewHunk(before, after);
    if before == after {
      SameTextSameLines(before);
    } else if forall l :: l in h.lines ==> !Changed(l) {
      UnchangedHunk(h.lines);
      PreviewRoundTrip("", before, after);
      PreviewIsAPatch("", before, after);
      SameSidesChangeNothing(h, Split(before));
      HeaderCountsLines(before, after);
      JoinSplit(before);
    }
  }

  lemma SameSidesChangeNothing(h: Hunk, text: Lines)
    requires Old(h.lines) == New(h.lines) && |Old(h.lines)| == h.header.oldCount
    requires ApplyHunk(h, text).Some?
    ensures ApplyHunk(h, text) == Some(text)
  {
    var i := h.header.oldStart - 1;
    Slices(text, i, i, i, i + h.header.oldCount);
  }

  lemma CommonPrefixOfSame(a: Lines)
    ensures CommonPrefix(a, a) == |a|
  {
    CommonPrefixIsLongest(a, a);
  }

  lemma SameTextSameLines(text: string)
    ensures forall l :: l in ReviewHunk(text, text).lines ==> !Changed(l)
  {
    var ls := Split(text);
    CommonPrefixOfSame(ls);
    assert ls[|ls|..] == [];
  }
}
