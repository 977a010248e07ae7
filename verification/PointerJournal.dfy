/** The text of the macOS pointer-switch journal: what is written and what is accepted back. */
module PointerJournal {
  import opened Common

  const MAX_JOURNAL_BYTES := 1024

  predicate Digit(c: char) {
    '0' <= c <= '9'
  }

  predicate SuffixChar(c: char) {
    Digit(c) || 'A' <= c <= 'Z' || 'a' <= c <= 'z' || c == '.' || c == '-'
  }

  /** The end of the run of digits that starts at `i`. */
  function SkipDigits(s: string, i: nat): (j: nat)
    requires i <= |s|
    ensures i <= j <= |s|
    ensures forall k :: i <= k < j ==> Digit(s[k])
    ensures j < |s| ==> !Digit(s[j])
    decreases |s| - i
  {
    if i < |s| && Digit(s[i]) then SkipDigits(s, i + 1) else i
  }

  /** The version part of a pointer: three numbers, and an optional pre-release suffix. */
  predicate IsVersion(s: string) {
    var a := SkipDigits(s, 0);
    && 0 < a < |s| && s[a] == '.'
    && var b := SkipDigits(s, a + 1);
       && a + 1 < b < |s| && s[b] == '.'
       && var c := SkipDigits(s, b + 1);
          && b + 1 < c
          && (c == |s| || (s[c] == '-' && c + 1 < |s| && forall i :: c < i < |s| ==> SuffixChar(s[i])))
  }

  ghost predicate Digits(s: string, i: int, j: int) {
    0 <= i < j <= |s| && forall n :: i <= n < j ==> '0' <= s[n] <= '9'
  }

  /** The regular expression of the scripts: three numbers between dots, and after them nothing or a dash and a suffix. */
  ghost predicate SpelledAs(s: string, i: int, j: int, k: int) {
    && Digits(s, 0, i) && Digits(s, i + 1, j) && Digits(s, j + 1, k) && s[i] == '.' && s[j] == '.'
    && (k == |s| || (k + 1 < |s| && s[k] == '-' && forall n :: k < n < |s| ==>
         '0' <= s[n] <= '9' || 'A' <= s[n] <= 'Z' || 'a' <= s[n] <= 'z' || s[n] == '.' || s[n] == '-'))
  }

  lemma VersionIsSpelledOut(s: string)
    ensures IsVersion(s) <==> exists i, j, k :: SpelledAs(s, i, j, k)
  {
    if IsVersion(s) {
      var i := SkipDigits(s, 0);
      var j := SkipDigits(s, i + 1);
      var k := SkipDigits(s, j + 1);
      assert SpelledAs(s, i, j, k);
    }
    if i, j, k :| SpelledAs(s, i, j, k) {
      SkipsTo(s, 0, i);
      SkipsTo(s, i + 1, j);
      SkipsTo(s, j + 1, k);
    }
  }

  lemma SkipsTo(s: string, i: nat, j: nat)
    requires Digits(s, i, j) && (j < |s| ==> !('0' <= s[j] <= '9'))
    ensures SkipDigits(s, i) == j
  {
  }

  /** `versions/<version>`, the only shape of link text a pointer may have. */
  predicate IsTarget(t: string) {
    "versions/" <= t && IsVersion(t[9..])
  }

  lemma TargetHasNoNewline(t: string)
    requires IsTarget(t)
    ensures '\n' !in t && t != []
  {
    var s := t[9..];
    var a := SkipDigits(s, 0);
    var b := SkipDigits(s, a + 1);
    var c := SkipDigits(s, b + 1);
    forall i | 0 <= i < |s| ensures s[i] != '\n' {
      assert i < a || i == a || a < i < b || i == b || b < i < c || i == c || c < i;
    }
    assert t == "versions/" + s;
    assert forall i | 0 <= i < 9 :: t[i] == "versions/"[i];
    forall i | 0 <= i < |t| ensures t[i] != '\n' {
      if i >= 9 {
        assert t[i] == s[i - 9];
      }
    }
  }

  function JournalText(from: string, to: string): string {
    "schemaVersion=1\n" + ("from=" + from + "\n") + ("to=" + to + "\n")
  }

  function Newline(s: string): (i: nat)
    ensures i <= |s|
    ensures i < |s| ==> s[i] == '\n'
    ensures '\n' !in s[..i]
  {
    if s == [] || s[0] == '\n' then 0
    else
      var i := 1 + Newline(s[1..]);
      assert s[..i] == [s[0]] + s[1..][..i - 1];
      i
  }

  /** Lines as the shell reads them: a last line without a newline counts when it is not empty. */
  function Lines(s: string): seq<string>
    decreases |s|
  {
    if s == [] then []
    else
      var i := Newline(s);
      if i == |s| then [s] else [s[..i]] + Lines(s[i + 1..])
  }

  lemma {:induction false} NewlineAt(s: string, n: nat)
    requires n < |s| && s[n] == '\n' && forall k :: 0 <= k < n ==> s[k] != '\n'
    ensures Newline(s) == n
    decreases n
  {
    if n > 0 {
      assert s[0] != '\n';
      NewlineAt(s[1..], n - 1);
    }
  }

  lemma LineFirst(line: string, rest: string)
    requires '\n' !in line
    ensures Lines(line + ("\n" + rest)) == [line] + Lines(rest)
  {
    var s := line + ("\n" + rest);
    NewlineAt(s, |line|);
    assert s[..|line|] == line && s[|line| + 1..] == rest;
  }

  lemma ThreeLines(a: string, b: string, c: string)
    requires '\n' !in a && '\n' !in b && '\n' !in c
    ensures Lines(a + ("\n" + (b + ("\n" + (c + ("\n" + "")))))) == [a, b, c]
  {
    LineFirst(c, "");
    LineFirst(b, c + ("\n" + ""));
    LineFirst(a, b + ("\n" + (c + ("\n" + ""))));
  }

  /** The journal's own checks on its two targets; the second is a directory that is ready. */
  predicate Switchable(from: string, to: string, ready: set<string>) {
    IsTarget(from) && from in ready && IsTarget(to) && to in ready && from != to
  }

  function ReadJournal(text: string, ready: set<string>): Option<(string, string)> {
    var lines := Lines(text);
    if !(1 <= |text| <= MAX_JOURNAL_BYTES) then None
    else if |lines| != 3 || lines[0] != "schemaVersion=1" then None
    else if !("from=" <= lines[1]) || !("to=" <= lines[2]) then None
    else
      var from, to := lines[1][5..], lines[2][3..];
      if Switchable(from, to, ready) then Some((from, to)) else None
  }

  /** The shell loop that fills the array of lines. */
  method ReadLines(text: string) returns (lines: seq<string>)
    ensures lines == Lines(text)
  {
    lines := [];
    var rest := text;
    while rest != []
      invariant lines + Lines(rest) == Lines(text)
      decreases |rest|
    {
      var i := Newline(rest);
      if i == |rest| {
        lines := lines + [rest];
        rest := [];
      } else {
        assert lines + Lines(rest) == (lines + [rest[..i]]) + Lines(rest[i + 1..]);
        lines := lines + [rest[..i]];
        rest := rest[i + 1..];
      }
    }
  }

  lemma JournalLines(from: string, to: string)
    requires '\n' !in from && '\n' !in to
    ensures Lines(JournalText(from, to)) == ["schemaVersion=1", "from=" + from, "to=" + to]
    ensures |JournalText(from, to)| == 26 + |from| + |to|
  {
    ThreeLines("schemaVersion=1", "from=" + from, "to=" + to);
    Regroup("schemaVersion=1", "from=", from, "to=", to);
    assert "schemaVersion=1\n" == "schemaVersion=1" + "\n";
  }

  lemma Regroup(a: string, f: string, from: string, t: string, to: string)
    ensures (a + "\n") + (f + from + "\n") + (t + to + "\n")
         == a + ("\n" + ((f + from) + ("\n" + ((t + to) + ("\n" + "")))))
  {
  }

  /** A written journal is read back as the same pair exactly when it is within the size the reader insists on. */
  lemma JournalRoundTrip(from: string, to: string, ready: set<string>)
    requires Switchable(from, to, ready)
    ensures ReadJournal(JournalText(from, to), ready) ==
            if |from| + |to| <= MAX_JOURNAL_BYTES - 26 then Some((from, to)) else None
  {
    TargetHasNoNewline(from);
    TargetHasNoNewline(to);
    JournalLines(from, to);
    assert ("from=" + from)[5..] == from && ("to=" + to)[3..] == to;
    assert "from=" <= "from=" + from && "to=" <= "to=" + to;
  }

  /**
   A journal is taken for a switch exactly when it is the text that is written
   for that switch, with or without its last newline, within the size, and both
   targets are distinct ready versions. Nothing else is ever recovered from.
   */
  lemma JournalIsTakenIff(text: string, ready: set<string>, from: string, to: string)
    ensures ReadJournal(text, ready) == Some((from, to)) <==>
              && |text| <= 1024 && (text == JournalText(from, to) || text + "\n" == JournalText(from, to))
              && IsTarget(from) && from in ready && IsTarget(to) && to in ready && from != to
  {
    hide IsTarget;
    if ReadJournal(text, ready) == Some((from, to)) {
      TakenIsWritten(text, ready, from, to);
    }
    if IsTarget(from) && IsTarget(to) {
      TargetHasNoNewline(from);
      TargetHasNoNewline(to);
      JournalLines(from, to);
      assert ("from=" + from)[5..] == from && ("to=" + to)[3..] == to;
      assert "from=" <= "from=" + from && "to=" <= "to=" + to;
      if text + "\n" == JournalText(from, to) {
        CutLines(text, from, to);
      }
    }
  }

  lemma TakenIsWritten(text: string, ready: set<string>, from: string, to: string)
    requires ReadJournal(text, ready) == Some((from, to))
    ensures text == JournalText(from, to) || text + "\n" == JournalText(from, to)
  {
    hide IsTarget, Lines;
    var lines := Lines(text);
    var a, b, c := lines[0], lines[1], lines[2];
    assert lines == [a] + [b, c] && [b, c] == [b] + [c];
    assert b == "from=" + from && c == "to=" + to;
    var rest := LineBreaks(text, a, [b, c]);
    var last := LineBreaks(rest, b, [c]);
    LastLine(last, c);
    Regroup(a, "from=", from, "to=", to);
    assert "schemaVersion=1\n" == "schemaVersion=1" + "\n";
    EndsWithBreak(a, b, c);
  }

  lemma EndsWithBreak(a: string, b: string, c: string)
    ensures (a + ("\n" + (b + ("\n" + c)))) + "\n" == a + ("\n" + (b + ("\n" + (c + ("\n" + "")))))
    ensures c + "\n" == c + ("\n" + "")
  {
  }

  lemma LinesOf(s: string)
    ensures Lines(s) == if s == [] then [] else
              var i := Newline(s); if i == |s| then [s] else [s[..i]] + Lines(s[i + 1..])
  {
    hide Newline;
  }

  lemma LineBreaks(text: string, a: string, more: seq<string>) returns (rest: string)
    requires Lines(text) == [a] + more && more != []
    ensures text == a + ("\n" + rest) && Lines(rest) == more
  {
    hide Lines;
    LinesOf(text);
    var i := Newline(text);
    assert |[a] + more| > 1;
    rest := text[i + 1..];
    SameHead(text[..i], Lines(rest), a, more);
    assert text == text[..i] + ("\n" + rest);
  }

  lemma SameHead(a: string, rest: seq<string>, b: string, more: seq<string>)
    requires [a] + rest == [b] + more
    ensures a == b && rest == more
  {
    assert ([a] + rest)[0] == a && ([b] + more)[0] == b;
    assert ([a] + rest)[1..] == rest && ([b] + more)[1..] == more;
  }

  lemma LastLine(text: string, a: string)
    requires Lines(text) == [a]
    ensures text == a || text == a + "\n"
  {
    hide Lines;
    LinesOf(text);
    var i := Newline(text);
    if i < |text| {
      var rest := text[i + 1..];
      assert [a] == [a] + [];
      SameHead(text[..i], Lines(rest), a, []);
      LinesOf(rest);
      assert text == text[..i] + ("\n" + rest);
    }
  }

  lemma CutLines(text: string, from: string, to: string)
    requires '\n' !in from && '\n' !in to && text + "\n" == JournalText(from, to)
    ensures Lines(text) == ["schemaVersion=1", "from=" + from, "to=" + to]
  {
    hide Lines;
    var a, b, c := "schemaVersion=1", "from=" + from, "to=" + to;
    Regroup(a, "from=", from, "to=", to);
    assert "schemaVersion=1\n" == "schemaVersion=1" + "\n";
    EndsWithBreak(a, b, c);
    SameUpToBreak(text, a + ("\n" + (b + ("\n" + c))));
    assert c[0] == 't';
    OneLine(c);
    LineFirst(b, c);
    LineFirst(a, b + ("\n" + c));
  }

  lemma SameUpToBreak(s: string, t: string)
    requires s + "\n" == t + "\n"
    ensures s == t
  {
    assert |s + "\n"| == |t + "\n"|;
    assert s == (s + "\n")[..|s|] && t == (t + "\n")[..|t|];
  }

  lemma OneLine(s: string)
    requires s != [] && '\n' !in s
    ensures Lines(s) == [s]
  {
    assert s[..|s|] == s;
  }

  /** A target whose version directory exists: its name is no longer than a file system can hold. */
  predicate Installable(t: string) {
    IsTarget(t) && |t| <= 9 + 255
  }

  /** The writer demands that both directories exist, so whatever it writes is within the size and reads back. */
  lemma InstallableJournalReadsBack(from: string, to: string, ready: set<string>)
    requires Switchable(from, to, ready) && Installable(from) && Installable(to)
    ensures 1 <= |JournalText(from, to)| <= MAX_JOURNAL_BYTES
    ensures ReadJournal(JournalText(from, to), ready) == Some((from, to))
  {
    TargetHasNoNewline(from);
    TargetHasNoNewline(to);
    JournalLines(from, to);
    JournalRoundTrip(from, to, ready);
  }
}
