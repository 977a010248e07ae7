/**
 A reviewed replacement of a note: what the plugin accepts as a proposal, the
 revision-checked write, and the runs of many reviews beside other writers.
 */
module PatchReview {
  import opened Common
  import UnifiedDiff

  const MAX_PATH_BYTES := 1024
  const MAX_NOTE_TEXT_BYTES := 4 * 1024 * 1024

  /** What the platform computes: the hash of a text, UTF-8 widths, and the Unicode control classes. */
  datatype World = World(revision: string -> string, width: char -> nat, control: char -> bool)

  ghost predicate Faithful(w: World) {
    w.control('\n') && forall a, b :: w.revision(a) == w.revision(b) ==> a == b
  }

  datatype Request = Request(path: string, expected: string, replacement: string)

  datatype Proposal = Proposal(expected: string, path: string, proposed: string, replacement: string)

  /** What the companion answers: any JSON value, or one with exactly the four string fields. */
  datatype Reply = OtherShape | Fields(proposal: Proposal)

  datatype ReviewError =
    InvalidProposal | WrongTarget | RevisionMismatch | ChangedBeforeReview | NoChange | TooLarge

  datatype Review = Review(proposal: Proposal, diff: string)

  // ------------------------------------------------------------ checks

  predicate IsHex(c: char) {
    '0' <= c <= '9' || 'a' <= c <= 'f'
  }

  predicate IsContentRevision(s: string) {
    |s| == 71 && s[..7] == "sha256:" && forall i :: 7 <= i < 71 ==> IsHex(s[i])
  }

  /** split("/"). */
  function Segments(path: string): (r: seq<string>)
    ensures r != []
  {
    if path == [] then [""]
    else
      var r := Segments(path[1..]);
      if path[0] == '/' then [""] + r else [[path[0]] + r[0]] + r[1..]
  }

  /** One component of a path, by where it starts and ends. */
  predicate IsSegment(path: string, i: int, j: int) {
    && 0 <= i <= j <= |path| && '/' !in path[i..j]
    && (i == 0 || path[i - 1] == '/') && (j == |path| || path[j] == '/')
  }

  lemma {:induction false} FirstSegment(path: string) returns (e: nat)
    ensures IsSegment(path, 0, e)
    ensures Segments(path) == if e == |path| then [path] else [path[0..e]] + Segments(path[e + 1..])
    decreases |path|
  {
    if path == [] || path[0] == '/' {
      e := 0;
    } else {
      var tail := path[1..];
      var rest := FirstSegment(tail);
      e := rest + 1;
      assert path[0..e] == [path[0]] + tail[0..rest];
      if rest == |tail| {
        assert [path[0]] + tail == path;
        assert [tail][1..] == [];
      } else {
        var later := Segments(path[e + 1..]);
        assert tail[rest + 1..] == path[e + 1..];
        assert ([tail[0..rest]] + later)[1..] == later;
      }
    }
  }

  lemma NoSlashWithin(path: string, i: int, j: int, k: int)
    requires IsSegment(path, i, j) && i <= k < j
    ensures path[k] != '/'
  {
    assert path[i..j][k - i] == path[k];
  }

  /** Another component than the first lies behind the slash that ends the first. */
  lemma LaterSegment(path: string, e: int, i: int, j: int)
    requires IsSegment(path, 0, e) && IsSegment(path, i, j)
    ensures if i == 0 then j == e else e < i
    ensures e < i ==> IsSegment(path[e + 1..], i - e - 1, j - e - 1) && path[e + 1..][i - e - 1..j - e - 1] == path[i..j]
  {
    if i == 0 {
      if e < j {
        NoSlashWithin(path, 0, j, e);
      } else if j < e {
        NoSlashWithin(path, 0, e, j);
      }
    } else {
      if i <= e {
        NoSlashWithin(path, 0, e, i - 1);
      }
      assert path[e + 1..][i - e - 1..j - e - 1] == path[i..j];
    }
  }

  /** The components are exactly the stretches between slashes. */
  lemma {:induction false} SegmentsAreTheStretches(path: string, s: string)
    ensures s in Segments(path) <==> exists i, j :: IsSegment(path, i, j) && path[i..j] == s
    decreases |path|
  {
    hide Segments;
    var e := FirstSegment(path);
    assert e == |path| ==> path[0..e] == path;
    forall i, j | IsSegment(path, i, j)
      ensures if i == 0 then j == e else e < i
      ensures e < i ==> IsSegment(path[e + 1..], i - e - 1, j - e - 1) && path[e + 1..][i - e - 1..j - e - 1] == path[i..j]
    {
      LaterSegment(path, e, i, j);
    }
    if e < |path| {
      var tail := path[e + 1..];
      SegmentsAreTheStretches(tail, s);
      forall i, j | IsSegment(tail, i, j)
        ensures IsSegment(path, e + 1 + i, e + 1 + j) && path[e + 1 + i..e + 1 + j] == tail[i..j]
      {
        assert path[e + 1 + i..e + 1 + j] == tail[i..j];
      }
    }
  }

  predicate HasDrive(path: string) {
    |path| >= 2 && ('A' <= path[0] <= 'Z' || 'a' <= path[0] <= 'z') && path[1] == ':'
  }

  predicate EndsWith(s: string, tail: string) {
    |tail| <= |s| && s[|s| - |tail|..] == tail
  }

  predicate IsSafeMarkdownPath(w: World, path: string) {
    && path != []
    && ByteLength(w.width, path) <= MAX_PATH_BYTES
    && EndsWith(path, ".md")
    && '\\' !in path
    && path[0] != '/'
    && !HasDrive(path)
    && (forall i :: 0 <= i < |path| ==> !w.control(path[i]))
    && (forall s :: s in Segments(path) ==> s != [] && s[0] != '.')
  }

  /** A note the plugin may write: inside the vault, in no hidden directory, and with a name that prints on one line. */
  ghost predicate Writable(w: World, path: string) {
    && 3 <= |path| && path[|path| - 3..] == ".md"
    && ByteLength(w.width, path) <= 1024
    && (forall i :: 0 <= i < |path| ==> path[i] != '\\' && !w.control(path[i]))
    && (path[1] == ':' ==> !('A' <= path[0] <= 'Z') && !('a' <= path[0] <= 'z'))
    && (forall i, j :: IsSegment(path, i, j) ==> i < j && path[i] != '.')
  }

  lemma SafePathIsWritable(w: World, path: string)
    ensures IsSafeMarkdownPath(w, path) <==> Writable(w, path)
  {
    forall i, j | IsSegment(path, i, j) ensures path[i..j] in Segments(path) {
      SegmentsAreTheStretches(path, path[i..j]);
    }
    forall s | s in Segments(path) ensures exists i, j :: IsSegment(path, i, j) && path[i..j] == s {
      SegmentsAreTheStretches(path, s);
    }
    hide Segments;
    if path != [] && path[0] == '/' {
      assert IsSegment(path, 0, 0);
    }
    if Writable(w, path) {
      forall s | s in Segments(path) ensures s != [] && s[0] != '.' {
        var i, j :| IsSegment(path, i, j) && path[i..j] == s;
      }
    }
    if IsSafeMarkdownPath(w, path) {
      forall i, j | IsSegment(path, i, j) ensures i < j && path[i] != '.' {
        assert path[i..j] in Segments(path);
      }
    }
  }

  function Validated(w: World, reply: Reply, activePath: string): Result<Proposal, ReviewError> {
    if reply.OtherShape? then Failure(InvalidProposal)
    else
      var p := reply.proposal;
      if !IsContentRevision(p.expected) || !IsContentRevision(p.proposed) then Failure(InvalidProposal)
      else if p.path != activePath || !IsSafeMarkdownPath(w, p.path) then Failure(WrongTarget)
      else if w.revision(p.replacement) != p.proposed then Failure(RevisionMismatch)
      else Success(p)
  }

  /** What may be shown: a valid proposal for the text that was read, with its whole difference. */
  function Prepared(w: World, reply: Reply, activePath: string, current: string): Result<Review, ReviewError> {
    match Validated(w, reply, activePath)
    case Failure(e) => Failure(e)
    case Success(p) =>
      if w.revision(current) != p.expected then Failure(ChangedBeforeReview)
      else if current == p.replacement then Failure(NoChange)
      else if UnifiedDiff.TooLargeToReview(w.width, current, p.replacement) then Failure(TooLarge)
      else Success(Review(p, UnifiedDiff.Preview(p.path, current, p.replacement)))
  }

  /** The form of a content revision: the name of the hash and 64 hexadecimal digits in lower case. */
  ghost predicate IsSha256(s: string) {
    exists digits :: |digits| == 64 && s == "sha256:" + digits && forall c :: c in digits ==> c in "0123456789abcdef"
  }

  lemma RevisionIsSha256(s: string)
    ensures IsContentRevision(s) <==> IsSha256(s)
  {
    if IsContentRevision(s) {
      var digits := s[7..];
      assert s == "sha256:" + digits;
      forall c | c in digits ensures c in "0123456789abcdef" {
        var i :| 0 <= i < |digits| && digits[i] == c;
        assert IsHex(s[7 + i]);
        HexDigit(c);
      }
    }
    if IsSha256(s) {
      var digits :| |digits| == 64 && s == "sha256:" + digits && forall c :: c in digits ==> c in "0123456789abcdef";
      forall i | 7 <= i < 71 ensures IsHex(s[i]) {
        assert s[i] == digits[i - 7];
        HexDigit(s[i]);
      }
    }
  }

  lemma HexDigit(c: char)
    ensures IsHex(c) <==> c in "0123456789abcdef"
  {
    if '0' <= c <= '9' {
      assert c == "0123456789abcdef"[c as int - '0' as int];
    } else if 'a' <= c <= 'f' {
      assert c == "0123456789abcdef"[10 + (c as int - 'a' as int)];
    }
  }

  ghost predicate WellFormed(reply: Reply) {
    reply.Fields? && IsSha256(reply.proposal.expected) && IsSha256(reply.proposal.proposed)
  }

  ghost predicate OnTarget(w: World, reply: Reply, path: string) {
    WellFormed(reply) && reply.proposal.path == path && Writable(w, path)
  }

  ghost predicate Matching(w: World, reply: Reply, path: string) {
    OnTarget(w, reply, path) && w.revision(reply.proposal.replacement) == reply.proposal.proposed
  }

  /** A proposal is taken exactly when it has the form, is for this note and holds the text it names; else the first fault is told. */
  lemma ProposalIsTakenIff(w: World, reply: Reply, path: string)
    ensures var r := Validated(w, reply, path);
            && (r.Success? <==> Matching(w, reply, path))
            && (r.Success? ==> reply == Fields(r.value))
            && (r == Failure(InvalidProposal) <==> !WellFormed(reply))
            && (r == Failure(WrongTarget) <==> WellFormed(reply) && !OnTarget(w, reply, path))
            && (r == Failure(RevisionMismatch) <==> OnTarget(w, reply, path) && !Matching(w, reply, path))
  {
    hide IsContentRevision, IsSha256, IsSafeMarkdownPath, Writable;
    if reply.Fields? {
      RevisionIsSha256(reply.proposal.expected);
      RevisionIsSha256(reply.proposal.proposed);
      SafePathIsWritable(w, reply.proposal.path);
    }
  }

  /** A review is shown exactly when, besides, the note still has the text the proposal is for, the text changes, and both fit. */
  lemma ReviewIsShownIff(w: World, reply: Reply, path: string, current: string)
    ensures var r := Prepared(w, reply, path, current);
            var latest := Matching(w, reply, path) && w.revision(current) == reply.proposal.expected;
            var changes := latest && current != reply.proposal.replacement;
            var fits := changes && !UnifiedDiff.TooLargeToReview(w.width, current, reply.proposal.replacement);
            && (r.Success? <==> fits)
            && (r == Failure(ChangedBeforeReview) <==> Matching(w, reply, path) && !latest)
            && (r == Failure(NoChange) <==> latest && !changes)
            && (r == Failure(TooLarge) <==> changes && !fits)
            && (!Matching(w, reply, path) ==> r.Failure? && Validated(w, reply, path) == Failure(r.error))
  {
    hide Matching, Validated, UnifiedDiff.TooLargeToReview, UnifiedDiff.Preview;
    ProposalIsTakenIff(w, reply, path);
  }

  /**
   What a review on the screen guarantees: it is of the very proposal the
   companion sent, for this note; its diff takes the text that was read to the
   replacement and back, and prints at least one changed line; and the write it
   can lead to happens for the text that was read and for no other.
   */
  ghost predicate Guaranteed(w: World, reply: Reply, path: string, current: string, r: Review) {
    var p := r.proposal;
    && reply == Fields(p) && p.path == path
    && UnifiedDiff.ApplyPreview(r.diff, current) == Some(p.replacement)
    && UnifiedDiff.UndoPreview(r.diff, p.replacement) == Some(current)
    && (exists l :: l in UnifiedDiff.ReviewHunk(current, p.replacement).lines && UnifiedDiff.Changed(l))
    && UnifiedDiff.ReadPreview(r.diff) == Some(UnifiedDiff.ReviewHunk(current, p.replacement))
    && forall latest :: Checked(w, p, latest) == if latest == current then Some(p.replacement) else None
  }

  method PreparePatchReview(w: World, reply: Reply, activePath: string, current: string)
    returns (r: Result<Review, ReviewError>)
    ensures r == Prepared(w, reply, activePath, current)
    ensures Faithful(w) && r.Success? ==> Guaranteed(w, reply, activePath, current, r.value)
  {
    hide UnifiedDiff.Preview, UnifiedDiff.TooLargeToReview, IsContentRevision, IsSafeMarkdownPath, Guaranteed, Faithful;
    var validated := Validated(w, reply, activePath);
    if validated.Failure? {
      return Failure(validated.error);
    }
    var proposal := validated.value;
    if w.revision(current) != proposal.expected {
      return Failure(ChangedBeforeReview);
    }
    if current == proposal.replacement {
      return Failure(NoChange);
    }
    var preview := UnifiedDiff.BuildUnifiedPreview(w.width, proposal.path, current, proposal.replacement);
    if preview.Failure? {
      return Failure(TooLarge);
    }
    r := Success(Review(proposal, preview.value));
    if Faithful(w) {
      ShownReviewGuarantees(w, reply, activePath, current);
    }
  }

  // ------------------------------------------------------------ the companion's side

  datatype ProposeError = InvalidNotePath | ReplacementTooLarge | NoteNotIndexed | StaleRevision

  function Lower(c: char): char {
    if 'A' <= c <= 'Z' then ((c as int) + 32) as char else c
  }

  predicate ValidNotePath(w: World, path: string) {
    && path != []
    && ByteLength(w.width, path) <= MAX_PATH_BYTES
    && path[0] != '/'
    && '\\' !in path
    && |path| >= 3 && path[|path| - 3] == '.' && Lower(path[|path| - 2]) == 'm' && Lower(path[|path| - 1]) == 'd'
    && (forall s :: s in Segments(path) ==> s != [] && s != "." && s != "..")
  }

  /** The companion's answer to a request, from the revisions its note table holds. */
  function ProposeNoteReplacement(w: World, revisions: map<string, string>, q: Request): Result<Proposal, ProposeError> {
    if !ValidNotePath(w, q.path) then Failure(InvalidNotePath)
    else if ByteLength(w.width, q.replacement) > MAX_NOTE_TEXT_BYTES then Failure(ReplacementTooLarge)
    else if q.path !in revisions then Failure(NoteNotIndexed)
    else if revisions[q.path] != q.expected then Failure(StaleRevision)
    else Success(Proposal(q.expected, q.path, w.revision(q.replacement), q.replacement))
  }

  /** The path of a note below the vault: Markdown, and no component that is empty or leads elsewhere. */
  ghost predicate InVault(w: World, path: string) {
    && 3 <= |path| && path[|path| - 3..] in {".md", ".mD", ".Md", ".MD"}
    && ByteLength(w.width, path) <= 1024
    && (forall i :: 0 <= i < |path| ==> path[i] != '\\')
    && (forall i, j :: IsSegment(path, i, j) ==> path[i..j] !in {"", ".", ".."})
  }

  lemma ValidPathIsInVault(w: World, path: string)
    ensures ValidNotePath(w, path) <==> InVault(w, path)
  {
    forall i, j | IsSegment(path, i, j) ensures path[i..j] in Segments(path) {
      SegmentsAreTheStretches(path, path[i..j]);
    }
    forall s | s in Segments(path) ensures exists i, j :: IsSegment(path, i, j) && path[i..j] == s {
      SegmentsAreTheStretches(path, s);
    }
    MarkdownTail(path);
    hide Segments, Lower;
    if path != [] && path[0] == '/' {
      assert IsSegment(path, 0, 0) && path[0..0] == "";
    }
  }

  lemma MarkdownTail(path: string)
    ensures (|path| >= 3 && path[|path| - 3] == '.' && Lower(path[|path| - 2]) == 'm' && Lower(path[|path| - 1]) == 'd')
       <==> (3 <= |path| && path[|path| - 3..] in {".md", ".mD", ".Md", ".MD"})
  {
    if 3 <= |path| {
      assert path[|path| - 3..] == [path[|path| - 3], path[|path| - 2], path[|path| - 1]];
      LowerIs(path[|path| - 2], 'm');
      LowerIs(path[|path| - 1], 'd');
    }
  }

  lemma LowerIs(c: char, letter: char)
    requires 'a' <= letter <= 'z'
    ensures Lower(c) == letter <==> c == letter || c == (letter as int - 32) as char
  {
  }

  /**
   The companion answers a request exactly when the path is of a note in the
   vault, the replacement fits and the index holds that note at the expected
   revision; and otherwise it tells the first of these that fails.
   */
  lemma RequestIsAnsweredIff(w: World, revisions: map<string, string>, q: Request)
    ensures var r := ProposeNoteReplacement(w, revisions, q);
            var placed := InVault(w, q.path);
            var fits := placed && ByteLength(w.width, q.replacement) <= 4 * 1024 * 1024;
            var indexed := fits && q.path in revisions;
            && (r.Success? <==> indexed && revisions[q.path] == q.expected)
            && (r.Success? ==> r.value == Proposal(revisions[q.path], q.path, w.revision(q.replacement), q.replacement))
            && (r == Failure(InvalidNotePath) <==> !placed)
            && (r == Failure(ReplacementTooLarge) <==> placed && !fits)
            && (r == Failure(NoteNotIndexed) <==> fits && !indexed)
            && (r == Failure(StaleRevision) <==> indexed && revisions[q.path] != q.expected)
  {
    hide ValidNotePath, InVault, ByteLength;
    ValidPathIsInVault(w, q.path);
  }

  /** Every path the plugin writes is one the companion accepts. */
  lemma WritableIsInVault(w: World, path: string)
    requires Writable(w, path)
    ensures InVault(w, path)
  {
    forall i, j | IsSegment(path, i, j) ensures path[i..j] !in {"", ".", ".."} {
      assert path[i..j][0] == path[i];
    }
  }

  /** What the plugin gets: the companion's proposal, or an error in its place. */
  function Answered(w: World, revisions: map<string, string>, q: Request): Reply {
    match ProposeNoteReplacement(w, revisions, q)
    case Success(p) => Fields(p)
    case Failure(_) => OtherShape
  }

  /**
   The two sides fit: whatever the user typed and whatever the index holds, an
   honest answer is shown for review exactly when the note has kept its path, the
   plugin may write it, the index holds the revision of the text the plugin read,
   the text changes and both fit the screen; and it then carries what was typed.
   */
  lemma HonestProposalIsShown(w: World, revisions: map<string, string>, q: Request, path: string, current: string)
    requires q.expected == w.revision(current) && IsSha256(w.revision(current)) && IsSha256(w.revision(q.replacement))
    ensures var shown := Prepared(w, Answered(w, revisions, q), path, current);
            && (shown.Success? <==>
                  && q.path == path && Writable(w, path)
                  && path in revisions && revisions[path] == w.revision(current)
                  && current != q.replacement && !UnifiedDiff.TooLargeToReview(w.width, current, q.replacement))
            && (shown.Success? ==> shown.value.proposal == Proposal(w.revision(current), path, w.revision(q.replacement), q.replacement))
  {
    hide ProposeNoteReplacement, Prepared, Validated, Writable, InVault, IsSha256;
    var reply := Answered(w, revisions, q);
    RequestIsAnsweredIff(w, revisions, q);
    ReviewIsShownIff(w, reply, path, current);
    ProposalIsTakenIff(w, reply, path);
    if Writable(w, path) {
      WritableIsInVault(w, path);
    }
    PreparedIsTaken(w, reply, path, current);
  }

  lemma PreparedIsTaken(w: World, reply: Reply, path: string, current: string)
    ensures var r := Prepared(w, reply, path, current);
            r.Success? ==> Validated(w, reply, path) == Success(r.value.proposal)
  {
    hide Validated, UnifiedDiff.Preview, UnifiedDiff.TooLargeToReview;
  }

  // ------------------------------------------------------------ the vault

  /** A note as Obsidian holds it: its path now, and its text unless it was deleted. */
  datatype File = File(path: string, text: Option<string>)

  datatype WriteError = Refused(error: ReviewError) | Stale | Missing | WrittenRevision

  /** The callback given to Vault.process: the latest text in, the text to write out. */
  function Checked(w: World, p: Proposal, latest: string): Option<string> {
    if w.revision(latest) != p.expected then None else Some(p.replacement)
  }

  function Processed(w: World, p: Proposal, file: File): File {
    if file.text.None? then file
    else
      var out := Checked(w, p, file.text.value);
      if out.None? then file else file.(text := out)
  }

  class Vault {
    var files: map<nat, File>

    constructor (files: map<nat, File>)
      ensures this.files == files
    {
      this.files := files;
    }

    /** Vault.process: read, call back, write; nothing comes between. */
    method Process(w: World, id: nat, p: Proposal) returns (written: Result<string, WriteError>)
      requires id in files
      modifies this
      ensures files == old(files)[id := Processed(w, p, old(files)[id])]
      ensures written.Success? ==> files[id].text == Some(written.value)
      ensures written == (
        if old(files)[id].text.None? then Failure(Missing)
        else if w.revision(old(files)[id].text.value) != p.expected then Failure(Stale)
        else Success(p.replacement))
    {
      var file := files[id];
      if file.text.None? {
        return Failure(Missing);
      }
      var out := Checked(w, p, file.text.value);
      if out.None? {
        return Failure(Stale);
      }
      files := files[id := file.(text := out)];
      written := Success(out.value);
    }

    /** The checked write: the only way a review reaches a note. */
    method ApplyRevisionCheckedPatch(w: World, id: nat, reply: Reply) returns (r: Result<string, WriteError>)
      requires id in files
      modifies this
      ensures files.Keys == old(files).Keys
      ensures forall other | other in files && other != id :: files[other] == old(files)[other]
      ensures r.Success? ==>
        && reply.Fields?
        && old(files)[id].text.Some? && w.revision(old(files)[id].text.value) == reply.proposal.expected
        && reply.proposal.path == old(files)[id].path
        && files[id] == old(files)[id].(text := Some(reply.proposal.replacement))
        && r.value == w.revision(reply.proposal.replacement) == reply.proposal.proposed
      ensures r.Failure? ==> files == old(files) && r.error != WrittenRevision
      ensures r.Success? <==>
        && Validated(w, reply, old(files)[id].path).Success?
        && old(files)[id].text.Some? && w.revision(old(files)[id].text.value) == reply.proposal.expected
    {
      hide IsContentRevision, IsSafeMarkdownPath;
      var validated := Validated(w, reply, files[id].path);
      if validated.Failure? {
        return Failure(Refused(validated.error));
      }
      var written := Process(w, id, validated.value);
      if written.Failure? {
        assert files == old(files);
        return Failure(written.error);
      }
      var writtenRevision := w.revision(written.value);
      if writtenRevision != validated.value.proposed {
        return Failure(WrittenRevision);
      }
      r := Success(writtenRevision);
    }
  }

  // ------------------------------------------------------------ runs

  /** Where one review stands; each phase waits for the event that ends it. */
  datatype Phase =
    | Reading
    | Asking(current: string)
    | Proposing(current: string, request: Request)
    | Reviewing(current: string, request: Request, review: Review)
    | Writing(current: string, request: Request, review: Review)
    | Done

  datatype Session = Session(file: nat, phase: Phase)

  datatype State = State(files: map<nat, File>, sessions: map<nat, Session>, unloaded: bool)

  datatype Event =
    | OutsideWrite(file: nat, text: string)
    | Rename(file: nat, path: string)
    | Remove(file: nat)
    | Start(id: nat, file: nat)
    | Read(id: nat)
    | Submit(id: nat, replacement: string)
    | Cancel(id: nat)
    | Answer(id: nat, reply: Reply)
    | Approve(id: nat)
    | Process(id: nat)
    | Unload

  function Move(s: State, id: nat, phase: Phase): State
    requires id in s.sessions
  {
    s.(sessions := s.sessions[id := s.sessions[id].(phase := phase)])
  }

  /** What one waiting review does when it is resumed; an unloaded plugin only lets a queued write run. */
  function Resumed(w: World, s: State, e: Event): Option<State>
    requires e.Read? || e.Submit? || e.Cancel? || e.Answer? || e.Approve? || e.Process?
    requires e.id in s.sessions && s.sessions[e.id].file in s.files
  {
    var phase := s.sessions[e.id].phase;
    var file := s.files[s.sessions[e.id].file];
    match e
    case Read(id) =>
      if !phase.Reading? then None
      else if file.text.None? || s.unloaded then Some(Move(s, id, Done))
      else Some(Move(s, id, Asking(file.text.value)))
    case Submit(id, replacement) =>
      if !phase.Asking? then None
      else if s.unloaded then Some(Move(s, id, Done))
      else Some(Move(s, id, Proposing(phase.current, Request(file.path, w.revision(phase.current), replacement))))
    case Cancel(id) =>
      if phase.Asking? || phase.Proposing? || phase.Reviewing? then Some(Move(s, id, Done)) else None
    case Answer(id, reply) =>
      if !phase.Proposing? then None
      else if s.unloaded then Some(Move(s, id, Done))
      else
        var prepared := Prepared(w, reply, file.path, phase.current);
        if prepared.Failure? then Some(Move(s, id, Done))
        else Some(Move(s, id, Reviewing(phase.current, phase.request, prepared.value)))
    case Approve(id) =>
      if !phase.Reviewing? then None
      else if s.unloaded || Validated(w, Fields(phase.review.proposal), file.path).Failure? then Some(Move(s, id, Done))
      else Some(Move(s, id, Writing(phase.current, phase.request, phase.review)))
    case Process(id) =>
      if !phase.Writing? then None
      else
        var moved := Move(s, id, Done);
        Some(moved.(files := s.files[s.sessions[id].file := Processed(w, phase.review.proposal, file)]))
  }

  function Next(w: World, s: State, e: Event): Option<State> {
    match e
    case OutsideWrite(f, text) => if f in s.files then Some(s.(files := s.files[f := s.files[f].(text := Some(text))])) else None
    case Rename(f, path) => if f in s.files then Some(s.(files := s.files[f := s.files[f].(path := path)])) else None
    case Remove(f) => if f in s.files then Some(s.(files := s.files[f := s.files[f].(text := None)])) else None
    case Start(id, f) =>
      if id in s.sessions || f !in s.files || s.unloaded then None
      else Some(s.(sessions := s.sessions[id := Session(f, Reading)]))
    case Unload => Some(s.(unloaded := true))
    case _ =>
      if e.id in s.sessions && s.sessions[e.id].file in s.files then Resumed(w, s, e) else None
  }

  /** A run: any files, no review yet, then any enabled events in any order. */
  ghost predicate IsRun(w: World, ss: seq<State>, es: seq<Event>) {
    && |ss| == |es| + 1
    && ss[0].sessions == map[]
    && forall i :: 0 <= i < |es| ==> Next(w, ss[i], es[i]) == Some(ss[i + 1])
  }

  ghost predicate WasRead(ss: seq<State>, es: seq<Event>, n: nat, id: nat, f: nat, text: string)
    requires n <= |es| < |ss|
  {
    exists k :: 0 <= k < n && es[k] == Read(id) && f in ss[k].files && ss[k].files[f].text == Some(text)
  }

  ghost predicate WasSubmitted(es: seq<Event>, n: nat, id: nat, text: string)
    requires n <= |es|
  {
    exists k :: 0 <= k < n && es[k] == Submit(id, text)
  }

  /** The note now has this path. */
  predicate Named(s: State, f: nat, path: string) {
    f in s.files && s.files[f].path == path
  }

  /** The proposal came while the note had the path it is for. */
  ghost predicate WasAnswered(ss: seq<State>, es: seq<Event>, n: nat, id: nat, f: nat, p: Proposal)
    requires n <= |es| < |ss|
  {
    exists k :: 0 <= k < n && es[k] == Answer(id, Fields(p)) && Named(ss[k], f, p.path)
  }

  /** The user approved while this very diff stood on the screen and the note still had that path. */
  ghost predicate WasApproved(ss: seq<State>, es: seq<Event>, n: nat, id: nat, f: nat, path: string, diff: string)
    requires n <= |es| < |ss|
  {
    exists k :: 0 <= k < n && es[k] == Approve(id) && Shows(ss[k], id, diff) && Named(ss[k], f, path)
  }

  ghost predicate Shows(s: State, id: nat, diff: string) {
    id in s.sessions && s.sessions[id].phase.Reviewing? && s.sessions[id].phase.review.diff == diff
  }

  ghost predicate Reviewed(w: World, current: string, q: Request, r: Review) {
    var p := r.proposal;
    && q.expected == w.revision(current) == p.expected
    && current != p.replacement
    && IsSafeMarkdownPath(w, p.path)
    && r.diff == UnifiedDiff.Preview(p.path, current, p.replacement)
  }

  /** Everything a session holds was put there by an earlier event. */
  ghost predicate Backed(w: World, ss: seq<State>, es: seq<Event>, n: nat, id: nat)
    requires n <= |es| < |ss| && id in ss[n].sessions
  {
    var f := ss[n].sessions[id].file;
    var phase := ss[n].sessions[id].phase;
    && (phase.Asking? || phase.Proposing? || phase.Reviewing? || phase.Writing? ==>
          WasRead(ss, es, n, id, f, phase.current))
    && (phase.Proposing? || phase.Reviewing? || phase.Writing? ==>
          WasSubmitted(es, n, id, phase.request.replacement) && phase.request.expected == w.revision(phase.current))
    && (phase.Reviewing? || phase.Writing? ==>
          WasAnswered(ss, es, n, id, f, phase.review.proposal) && Reviewed(w, phase.current, phase.request, phase.review))
    && (phase.Writing? ==> WasApproved(ss, es, n, id, f, phase.review.proposal.path, phase.review.diff))
  }

  lemma BackingLasts(ss: seq<State>, es: seq<Event>, n: nat, id: nat, f: nat, text: string, p: Proposal)
    requires n < |es| < |ss|
    ensures WasRead(ss, es, n, id, f, text) ==> WasRead(ss, es, n + 1, id, f, text)
    ensures WasSubmitted(es, n, id, text) ==> WasSubmitted(es, n + 1, id, text)
    ensures WasAnswered(ss, es, n, id, f, p) ==> WasAnswered(ss, es, n + 1, id, f, p)
    ensures WasApproved(ss, es, n, id, f, p.path, text) ==> WasApproved(ss, es, n + 1, id, f, p.path, text)
  {
  }

  /** The session an event resumes moves on; every other session stays as it is. */
  lemma OthersStay(w: World, s: State, e: Event, id: nat)
    requires Next(w, s, e).Some? && id in s.sessions
    requires !(e.Read? || e.Submit? || e.Cancel? || e.Answer? || e.Approve? || e.Process?) || e.id != id
    ensures id in Next(w, s, e).value.sessions && Next(w, s, e).value.sessions[id] == s.sessions[id]
  {
    hide Prepared, Validated, Processed;
  }

  lemma BackedStays(w: World, ss: seq<State>, es: seq<Event>, n: nat, id: nat)
    requires n < |es| < |ss| && id in ss[n].sessions && Backed(w, ss, es, n, id)
    requires id in ss[n + 1].sessions && ss[n + 1].sessions[id] == ss[n].sessions[id]
    ensures Backed(w, ss, es, n + 1, id)
  {
    hide WasRead, WasSubmitted, WasAnswered, WasApproved, Reviewed;
    var f := ss[n].sessions[id].file;
    var phase := ss[n].sessions[id].phase;
    if !phase.Reading? && !phase.Done? {
      var any := Proposal("", "", "", "");
      BackingLasts(ss, es, n, id, f, phase.current, any);
      if !phase.Asking? {
        BackingLasts(ss, es, n, id, f, phase.request.replacement, any);
        if !phase.Proposing? {
          BackingLasts(ss, es, n, id, f, phase.review.diff, phase.review.proposal);
        }
      }
    }
  }

  lemma ReadBacks(ss: seq<State>, es: seq<Event>, n: nat, id: nat, f: nat, text: string)
    requires n < |es| < |ss| && es[n] == Read(id) && f in ss[n].files && ss[n].files[f].text == Some(text)
    ensures WasRead(ss, es, n + 1, id, f, text)
  {
  }

  lemma SubmitBacks(es: seq<Event>, n: nat, id: nat, text: string)
    requires n < |es| && es[n] == Submit(id, text)
    ensures WasSubmitted(es, n + 1, id, text)
  {
  }

  lemma AnswerBacks(ss: seq<State>, es: seq<Event>, n: nat, id: nat, f: nat, p: Proposal)
    requires n < |es| < |ss| && es[n] == Answer(id, Fields(p)) && Named(ss[n], f, p.path)
    ensures WasAnswered(ss, es, n + 1, id, f, p)
  {
  }

  lemma ApproveBacks(ss: seq<State>, es: seq<Event>, n: nat, id: nat, f: nat, path: string, diff: string)
    requires n < |es| < |ss| && es[n] == Approve(id) && Shows(ss[n], id, diff) && Named(ss[n], f, path)
    ensures WasApproved(ss, es, n + 1, id, f, path, diff)
  {
  }

  /** What was prepared is a review of the text that was read. */
  lemma PreparedIsReviewed(w: World, reply: Reply, path: string, current: string, q: Request)
    requires q.expected == w.revision(current)
    requires Prepared(w, reply, path, current).Success?
    ensures Reviewed(w, current, q, Prepared(w, reply, path, current).value)
    ensures reply == Fields(Prepared(w, reply, path, current).value.proposal)
    ensures Prepared(w, reply, path, current).value.proposal.path == path
  {
    hide UnifiedDiff.Preview, UnifiedDiff.TooLargeToReview, IsContentRevision, IsSafeMarkdownPath;
  }

  lemma ValidIsForPath(w: World, p: Proposal, path: string)
    requires Validated(w, Fields(p), path).Success?
    ensures p.path == path
  {
    hide IsContentRevision, IsSafeMarkdownPath;
  }

  predicate Resumes(e: Event, id: nat) {
    (e.Read? || e.Submit? || e.Answer? || e.Approve?) && e.id == id
  }

  lemma BackedResumes(w: World, ss: seq<State>, es: seq<Event>, n: nat, id: nat)
    requires n < |es| < |ss| && Resumes(es[n], id) && id in ss[n].sessions
    requires Next(w, ss[n], es[n]) == Some(ss[n + 1])
    requires Backed(w, ss, es, n, id)
    ensures id in ss[n + 1].sessions && Backed(w, ss, es, n + 1, id)
  {
    hide WasRead, WasSubmitted, WasAnswered, WasApproved, Reviewed, Prepared, Validated;
    var s, e := ss[n], es[n];
    var f := s.sessions[id].file;
    var phase := s.sessions[id].phase;
    var after := ss[n + 1].sessions[id].phase;
    var any := Proposal("", "", "", "");
    if !after.Done? {
      if e.Read? {
        ReadBacks(ss, es, n, id, f, after.current);
      } else {
        BackingLasts(ss, es, n, id, f, phase.current, any);
        if e.Submit? {
          SubmitBacks(es, n, id, e.replacement);
        } else {
          BackingLasts(ss, es, n, id, f, phase.request.replacement, any);
          if e.Answer? {
            PreparedIsReviewed(w, e.reply, s.files[f].path, phase.current, phase.request);
            AnswerBacks(ss, es, n, id, f, after.review.proposal);
          } else {
            BackingLasts(ss, es, n, id, f, "", phase.review.proposal);
            ValidIsForPath(w, phase.review.proposal, s.files[f].path);
            ApproveBacks(ss, es, n, id, f, phase.review.proposal.path, phase.review.diff);
          }
        }
      }
    }
  }

  lemma IdleIsBacked(w: World, ss: seq<State>, es: seq<Event>, n: nat, id: nat)
    requires n <= |es| < |ss| && id in ss[n].sessions
    requires ss[n].sessions[id].phase.Reading? || ss[n].sessions[id].phase.Done?
    ensures Backed(w, ss, es, n, id)
  {
  }

  lemma {:induction false} AllBacked(w: World, ss: seq<State>, es: seq<Event>, n: nat)
    requires IsRun(w, ss, es) && n <= |es|
    ensures forall id | id in ss[n].sessions :: Backed(w, ss, es, n, id)
    decreases n
  {
    if n > 0 {
      AllBacked(w, ss, es, n - 1);
      var s, e := ss[n - 1], es[n - 1];
      assert Next(w, s, e) == Some(ss[n]);
      hide Next, Backed;
      forall id | id in ss[n].sessions ensures Backed(w, ss, es, n, id) {
        if id !in s.sessions {
          NewSessions(w, s, e, id);
          IdleIsBacked(w, ss, es, n, id);
        } else if Resumes(e, id) {
          BackedResumes(w, ss, es, n - 1, id);
        } else if (e.Cancel? || e.Process?) && e.id == id {
          EndsDone(w, s, e);
          IdleIsBacked(w, ss, es, n, id);
        } else {
          OthersStay(w, s, e, id);
          BackedStays(w, ss, es, n - 1, id);
        }
      }
    }
  }

  lemma NewSessions(w: World, s: State, e: Event, id: nat)
    requires Next(w, s, e).Some? && id in Next(w, s, e).value.sessions && id !in s.sessions
    ensures e.Start? && Next(w, s, e).value.sessions[id].phase == Reading
  {
    hide Prepared, Validated, Processed;
  }

  lemma EndsDone(w: World, s: State, e: Event)
    requires Next(w, s, e).Some? && (e.Cancel? || e.Process?)
    ensures e.id in Next(w, s, e).value.sessions && Next(w, s, e).value.sessions[e.id].phase == Done
  {
    hide Prepared, Validated, Processed;
  }

  /** Only an outside change of the note, or a queued reviewed write that finds its revision, changes its text. */
  lemma WhoChangesText(w: World, s: State, e: Event, f: nat)
    requires Next(w, s, e).Some? && f in s.files
    ensures f in Next(w, s, e).value.files
    ensures Next(w, s, e).value.files[f].text != s.files[f].text ==>
      || ((e.OutsideWrite? || e.Remove?) && e.file == f)
      || (e.Process? && e.id in s.sessions && s.sessions[e.id].file == f && s.sessions[e.id].phase.Writing?)
    ensures e.Process? && e.id in s.sessions && s.sessions[e.id].file == f && Next(w, s, e).value.files[f].text != s.files[f].text ==>
      var p := s.sessions[e.id].phase.review.proposal;
      && s.files[f].text.Some? && w.revision(s.files[f].text.value) == p.expected
      && Next(w, s, e).value.files[f].text == Some(p.replacement)
  {
    hide Prepared, Validated;
  }

  /** Event i lets a review write note f, and everything about that write was seen and agreed before. */
  ghost predicate ReviewedWrite(ss: seq<State>, es: seq<Event>, i: nat, f: nat)
    requires i < |es| < |ss|
  {
    && es[i].Process? && es[i].id in ss[i].sessions && f in ss[i].files && f in ss[i + 1].files
    && var id := es[i].id;
       var session := ss[i].sessions[id];
    && session.file == f && session.phase.Writing?
    && var p, diff := session.phase.review.proposal, session.phase.review.diff;
    && ss[i].files[f].text == Some(session.phase.current)
    && ss[i + 1].files[f].text == Some(p.replacement)
    && WasRead(ss, es, i, id, f, session.phase.current)
    && WasSubmitted(es, i, id, session.phase.request.replacement)
    && WasAnswered(ss, es, i, id, f, p)
    && WasApproved(ss, es, i, id, f, p.path, diff)
    && UnifiedDiff.ApplyPreview(diff, session.phase.current) == Some(p.replacement)
    && UnifiedDiff.UndoPreview(diff, p.replacement) == Some(session.phase.current)
  }

  /**
   What was reviewed is what is written. In every run of any number of reviews
   and outside writers, a review that changes a note replaces exactly the text
   it read by exactly the text of the proposal it was answered, the user had
   submitted a replacement and had approved the diff on the screen, and that diff,
   applied to the old text, gives the new one, and undone, gives the old one back.
   */
  lemma WrittenIsReviewed(w: World, ss: seq<State>, es: seq<Event>, i: nat, f: nat)
    requires Faithful(w) && IsRun(w, ss, es) && i < |es| && f in ss[i].files
    requires !((es[i].OutsideWrite? || es[i].Remove?) && es[i].file == f)
    requires f in ss[i + 1].files && ss[i + 1].files[f].text != ss[i].files[f].text
    ensures ReviewedWrite(ss, es, i, f)
  {
    hide Prepared, Validated, Processed, WasRead, WasSubmitted, WasAnswered, WasApproved,
      UnifiedDiff.ApplyPreview, UnifiedDiff.UndoPreview, UnifiedDiff.Preview, IsSafeMarkdownPath, Resumed;
    assert Next(w, ss[i], es[i]) == Some(ss[i + 1]);
    WhoChangesText(w, ss[i], es[i], f);
    var id := es[i].id;
    AllBacked(w, ss, es, i);
    assert Backed(w, ss, es, i, id);
    var phase := ss[i].sessions[id].phase;
    var p := phase.review.proposal;
    SafePathIsOneLine(w, p.path);
    UnifiedDiff.PreviewIsAPatch(p.path, phase.current, p.replacement);
  }

  lemma SafePathIsOneLine(w: World, path: string)
    requires Faithful(w) && IsSafeMarkdownPath(w, path)
    ensures UnifiedDiff.OneLine(path)
  {
    assert forall i :: 0 <= i < |path| ==> !w.control(path[i]);
  }

  lemma ShownReviewGuarantees(w: World, reply: Reply, path: string, current: string)
    requires Faithful(w) && Prepared(w, reply, path, current).Success?
    ensures Guaranteed(w, reply, path, current, Prepared(w, reply, path, current).value)
  {
    hide UnifiedDiff.Preview, UnifiedDiff.ReadPreview, UnifiedDiff.ReviewHunk, UnifiedDiff.TooLargeToReview,
      IsContentRevision, IsSafeMarkdownPath, UnifiedDiff.ApplyPreview, UnifiedDiff.UndoPreview;
    var p := Prepared(w, reply, path, current).value.proposal;
    SafePathIsOneLine(w, p.path);
    UnifiedDiff.PreviewIsAPatch(p.path, current, p.replacement);
    UnifiedDiff.PreviewRoundTrip(p.path, current, p.replacement);
    UnifiedDiff.DifferenceIsShown(current, p.replacement);
  }

  // ------------------------------------------------------------ the text the user typed

  /**
   The companion keeps its side: each answer is what its index gives, at that
   moment, for that session's request. The index is given for each event.
   */
  ghost predicate HonestCompanion(w: World, tables: seq<map<string, string>>, ss: seq<State>, es: seq<Event>)
    requires |ss| == |es| + 1 && |tables| == |es|
  {
    forall k :: 0 <= k < |es| && es[k].Answer? ==> HonestAnswer(w, tables[k], ss[k], es[k])
  }

  ghost predicate HonestAnswer(w: World, revisions: map<string, string>, s: State, e: Event)
    requires e.Answer?
  {
    e.id in s.sessions && s.sessions[e.id].phase.Proposing? ==>
      e.reply == Answered(w, revisions, s.sessions[e.id].phase.request)
  }

  predicate Echoes(phase: Phase) {
    phase.Reviewing? || phase.Writing? ==> phase.review.proposal.replacement == phase.request.replacement
  }

  /** The index holds the requested note at the revision of the text that was read, and the review is of what was asked for. */
  ghost predicate Held(w: World, revisions: map<string, string>, phase: Phase)
    requires phase.Reviewing? || phase.Writing?
  {
    var q := phase.request;
    && InVault(w, q.path) && ByteLength(w.width, q.replacement) <= 4 * 1024 * 1024
    && q.path in revisions && revisions[q.path] == w.revision(phase.current)
    && phase.review.proposal == Proposal(w.revision(phase.current), q.path, w.revision(q.replacement), q.replacement)
  }

  ghost predicate FromIndex(w: World, tables: seq<map<string, string>>, es: seq<Event>, n: nat, id: nat, phase: Phase)
    requires n <= |es| == |tables|
  {
    phase.Reviewing? || phase.Writing? ==>
      exists k :: 0 <= k < n && es[k].Answer? && es[k].id == id && Held(w, tables[k], phase)
  }

  lemma FromIndexLasts(w: World, tables: seq<map<string, string>>, es: seq<Event>, n: nat, id: nat, phase: Phase)
    requires n < |es| == |tables| && FromIndex(w, tables, es, n, id, phase)
    ensures FromIndex(w, tables, es, n + 1, id, phase)
  {
    hide Held;
  }

  lemma AnswerIsFromIndex(w: World, tables: seq<map<string, string>>, es: seq<Event>, n: nat, phase: Phase)
    requires n < |es| == |tables| && es[n].Answer? && (phase.Reviewing? || phase.Writing? ==> Held(w, tables[n], phase))
    ensures FromIndex(w, tables, es, n + 1, es[n].id, phase)
  {
    hide Held;
  }

  lemma AnswerIsHeld(w: World, revisions: map<string, string>, s: State, e: Event)
    requires Next(w, s, e).Some? && e.Answer? && e.id in s.sessions && HonestAnswer(w, revisions, s, e)
    ensures e.id in Next(w, s, e).value.sessions
    ensures var phase := Next(w, s, e).value.sessions[e.id].phase;
            phase.Done? || (phase.Reviewing? && Held(w, revisions, phase))
  {
    hide Prepared, ProposeNoteReplacement, InVault, Validated, Processed;
    var phase, path := s.sessions[e.id].phase, s.files[s.sessions[e.id].file].path;
    if phase.Proposing? {
      RequestIsAnsweredIff(w, revisions, phase.request);
      PreparedIsTaken(w, e.reply, path, phase.current);
      ProposalIsTakenIff(w, e.reply, path);
      hide Matching;
      ReviewIsShownIff(w, e.reply, path, phase.current);
    }
  }

  /** A session that an event other than an answer resumes shows nothing it did not show before. */
  lemma ResumesWithSameReview(w: World, s: State, e: Event)
    requires Next(w, s, e).Some? && (e.Read? || e.Submit? || e.Approve?) && e.id in s.sessions
    ensures e.id in Next(w, s, e).value.sessions
    ensures var before, after := s.sessions[e.id].phase, Next(w, s, e).value.sessions[e.id].phase;
            after.Reviewing? || after.Writing? ==>
              before.Reviewing? && (after.current, after.request, after.review) == (before.current, before.request, before.review)
  {
    hide Prepared, Validated, Processed;
  }

  /**
   With an honest companion, whatever a review shows or is about to write was
   answered at an earlier moment when the index held that very note at the
   revision of the text that was read, and it carries the text that was submitted.
   */
  lemma {:induction false} ShownIsIndexed(w: World, tables: seq<map<string, string>>, ss: seq<State>, es: seq<Event>, n: nat)
    requires IsRun(w, ss, es) && |tables| == |es| && HonestCompanion(w, tables, ss, es) && n <= |es|
    ensures forall id | id in ss[n].sessions ::
              FromIndex(w, tables, es, n, id, ss[n].sessions[id].phase) && Echoes(ss[n].sessions[id].phase)
    decreases n
  {
    hide HonestAnswer;
    if n > 0 {
      ShownIsIndexed(w, tables, ss, es, n - 1);
      var s, e := ss[n - 1], es[n - 1];
      assert Next(w, s, e) == Some(ss[n]);
      hide Next, Held, FromIndex;
      forall id | id in ss[n].sessions ensures FromIndex(w, tables, es, n, id, ss[n].sessions[id].phase) {
        IndexedStep(w, tables, ss, es, n - 1, id);
      }
    }
    forall id | id in ss[n].sessions ensures Echoes(ss[n].sessions[id].phase) {
      IndexedEchoes(w, tables, es, n, id, ss[n].sessions[id].phase);
    }
  }

  lemma IndexedEchoes(w: World, tables: seq<map<string, string>>, es: seq<Event>, n: nat, id: nat, phase: Phase)
    requires n <= |es| == |tables| && FromIndex(w, tables, es, n, id, phase)
    ensures Echoes(phase)
  {
  }

  lemma IndexedStep(w: World, tables: seq<map<string, string>>, ss: seq<State>, es: seq<Event>, n: nat, id: nat)
    requires n < |es| == |tables| && |ss| == |es| + 1 && Next(w, ss[n], es[n]) == Some(ss[n + 1])
    requires es[n].Answer? ==> HonestAnswer(w, tables[n], ss[n], es[n])
    requires id in ss[n].sessions ==> FromIndex(w, tables, es, n, id, ss[n].sessions[id].phase)
    requires id in ss[n + 1].sessions
    ensures FromIndex(w, tables, es, n + 1, id, ss[n + 1].sessions[id].phase)
  {
    hide Next, Held, HonestAnswer;
    var s, e := ss[n], es[n];
    if id !in s.sessions {
      NewSessions(w, s, e, id);
    } else if e.Answer? && e.id == id {
      AnswerIsHeld(w, tables[n], s, e);
      AnswerIsFromIndex(w, tables, es, n, ss[n + 1].sessions[id].phase);
    } else if (e.Cancel? || e.Process?) && e.id == id {
      EndsDone(w, s, e);
    } else {
      FromIndexLasts(w, tables, es, n, id, s.sessions[id].phase);
      if (e.Read? || e.Submit? || e.Approve?) && e.id == id {
        ResumesWithSameReview(w, s, e);
        SameReviewIsHeld(w, tables, es, n + 1, id, s.sessions[id].phase, ss[n + 1].sessions[id].phase);
      } else {
        OthersStay(w, s, e, id);
      }
    }
  }

  lemma SameReviewIsHeld(w: World, tables: seq<map<string, string>>, es: seq<Event>, n: nat, id: nat, before: Phase, after: Phase)
    requires n <= |es| == |tables| && FromIndex(w, tables, es, n, id, before)
    requires after.Reviewing? || after.Writing? ==>
      before.Reviewing? && (after.current, after.request, after.review) == (before.current, before.request, before.review)
    ensures FromIndex(w, tables, es, n, id, after)
  {
    if after.Reviewing? || after.Writing? {
      var k :| 0 <= k < n && es[k].Answer? && es[k].id == id && Held(w, tables[k], before);
      assert Held(w, tables[k], after);
    }
  }

  /** With an honest companion the text written is the text the user submitted. */
  lemma SubmittedIsWritten(w: World, tables: seq<map<string, string>>, ss: seq<State>, es: seq<Event>, i: nat, f: nat)
    requires Faithful(w) && IsRun(w, ss, es) && |tables| == |es| && HonestCompanion(w, tables, ss, es)
    requires i < |es| && f in ss[i].files
    requires !((es[i].OutsideWrite? || es[i].Remove?) && es[i].file == f)
    requires f in ss[i + 1].files && ss[i + 1].files[f].text != ss[i].files[f].text
    ensures es[i].Process?
    ensures exists text :: ss[i + 1].files[f].text == Some(text) && WasSubmitted(es, i, es[i].id, text)
  {
    assert |ss| == |es| + 1;
    hide HonestCompanion, IsRun, WasSubmitted, Next, WasRead, WasAnswered, WasApproved, Faithful, FromIndex,
      UnifiedDiff.ApplyPreview, UnifiedDiff.UndoPreview;
    WrittenIsReviewed(w, ss, es, i, f);
    ShownIsIndexed(w, tables, ss, es, i);
    var phase := ss[i].sessions[es[i].id].phase;
    assert Echoes(phase);
    assert WasSubmitted(es, i, es[i].id, phase.request.replacement);
  }

  /** A session only ever moves on. */
  function Rank(phase: Phase): nat {
    match phase
    case Reading => 0
    case Asking(_) => 1
    case Proposing(_, _) => 2
    case Reviewing(_, _, _) => 3
    case Writing(_, _, _) => 4
    case Done => 5
  }

  lemma StepRanks(w: World, s: State, e: Event, id: nat)
    requires Next(w, s, e).Some? && id in s.sessions
    ensures id in Next(w, s, e).value.sessions
    ensures Rank(s.sessions[id].phase) <= Rank(Next(w, s, e).value.sessions[id].phase)
    ensures e == Read(id) || (e.Submit? && e.id == id) || (e.Answer? && e.id == id) ==>
              Rank(s.sessions[id].phase) < Rank(Next(w, s, e).value.sessions[id].phase)
  {
    hide Prepared, Validated, Processed;
  }

  lemma {:induction false} RanksGrow(w: World, ss: seq<State>, es: seq<Event>, m: nat, n: nat, id: nat)
    requires IsRun(w, ss, es) && m <= n <= |es| && id in ss[m].sessions
    ensures id in ss[n].sessions && Rank(ss[m].sessions[id].phase) <= Rank(ss[n].sessions[id].phase)
    decreases n
  {
    hide Next;
    if m < n {
      RanksGrow(w, ss, es, m, n - 1, id);
      assert Next(w, ss[n - 1], es[n - 1]) == Some(ss[n]);
      StepRanks(w, ss[n - 1], es[n - 1], id);
    }
  }

  /** The phase in which a session takes a submission, and in which it takes an answer. */
  lemma TakenWhen(w: World, s: State, e: Event)
    requires Next(w, s, e).Some? && (e.Submit? || e.Answer?)
    ensures e.id in s.sessions
    ensures e.Submit? ==> s.sessions[e.id].phase.Asking?
    ensures e.Answer? ==> s.sessions[e.id].phase.Proposing?
  {
    hide Prepared, Validated, Processed;
  }

  /** A session takes one submission and one answer at most. */
  lemma TakenOnce(w: World, ss: seq<State>, es: seq<Event>, a: nat, b: nat)
    requires IsRun(w, ss, es) && a < |es| && b < |es|
    requires (es[a].Submit? && es[b].Submit?) || (es[a].Answer? && es[b].Answer?)
    requires es[a].id == es[b].id
    ensures a == b
  {
    hide Next;
    if a != b {
      var m, n := if a < b then a else b, if a < b then b else a;
      var id := es[a].id;
      assert Next(w, ss[m], es[m]) == Some(ss[m + 1]) && Next(w, ss[n], es[n]) == Some(ss[n + 1]);
      TakenWhen(w, ss[m], es[m]);
      TakenWhen(w, ss[n], es[n]);
      StepRanks(w, ss[m], es[m], id);
      RanksGrow(w, ss, es, m + 1, n, id);
      assert false;
    }
  }

  /** In every run, what a session holds as submitted and as answered decides what it writes. */
  lemma WrittenIsSubmittedIffEchoes(w: World, ss: seq<State>, es: seq<Event>, i: nat, f: nat, id: nat)
    returns (a: nat, b: nat)
    requires Faithful(w) && IsRun(w, ss, es) && i < |es| && es[i] == Process(id)
    requires f in ss[i].files && f in ss[i + 1].files && ss[i + 1].files[f].text != ss[i].files[f].text
    ensures a < i && es[a].Submit? && es[a].id == id
    ensures b < i && es[b].Answer? && es[b].id == id && es[b].reply.Fields?
    ensures forall k | 0 <= k < |es| && es[k].Submit? && es[k].id == id :: k == a
    ensures forall k | 0 <= k < |es| && es[k].Answer? && es[k].id == id :: k == b
    ensures id in ss[i].sessions
    ensures ss[i + 1].files[f].text == Some(es[a].replacement) <==> es[b].reply.proposal.replacement == es[a].replacement
    ensures ss[i + 1].files[f].text == Some(es[a].replacement) <==> Echoes(ss[i].sessions[id].phase)
  {
    hide Prepared, Validated, Processed, UnifiedDiff.ApplyPreview, UnifiedDiff.UndoPreview, Next, Faithful, WasRead, WasApproved;
    WrittenIsReviewed(w, ss, es, i, f);
    var phase := ss[i].sessions[id].phase;
    a :| 0 <= a < i && es[a] == Submit(id, phase.request.replacement);
    b :| 0 <= b < i && es[b] == Answer(id, Fields(phase.review.proposal));
    forall k | 0 <= k < |es| && es[k].Submit? && es[k].id == id ensures k == a {
      TakenOnce(w, ss, es, k, a);
    }
    forall k | 0 <= k < |es| && es[k].Answer? && es[k].id == id ensures k == b {
      TakenOnce(w, ss, es, k, b);
    }
  }

  // ------------------------------------------------------------ one whole review

  function Play(w: World, s: State, es: seq<Event>): Option<State>
    decreases |es|
  {
    if es == [] then Some(s)
    else
      var t := Next(w, s, es[0]);
      if t.None? then None else Play(w, t.value, es[1..])
  }

  /**
   A review left alone with its note writes the text it was answered. The code
   never compares that answer with what the user submitted, so the submitted text
   is written exactly when the companion echoed it.
   */
  lemma AnswerDecidesTheText(w: World, path: string, current: string, submitted: string, reply: Reply)
    requires Prepared(w, reply, path, current).Success?
    ensures var s := State(map[0 := File(path, Some(current))], map[], false);
            var end := Play(w, s, [Start(0, 0), Read(0), Submit(0, submitted), Answer(0, reply), Approve(0), Process(0)]);
            && end.Some? && 0 in end.value.files
            && end.value.files[0].text == Some(reply.proposal.replacement)
            && (end.value.files[0].text == Some(submitted) <==> reply.proposal.replacement == submitted)
  {
    hide Prepared, Validated, Next, Play;
    var review := Prepared(w, reply, path, current).value;
    var q := Request(path, w.revision(current), submitted);
    var es := [Start(0, 0), Read(0), Submit(0, submitted), Answer(0, reply), Approve(0), Process(0)];
    var s5 := One(path, current, Writing(current, q, review));
    StartAndRead(w, path, current, submitted);
    AnswerAndApprove(w, path, current, q, reply);
    LastWrite(w, path, current, q, reply);
    PlaySix(w, es, State(map[0 := File(path, Some(current))], map[], false), One(path, current, Reading),
      One(path, current, Asking(current)), One(path, current, Proposing(current, q)),
      One(path, current, Reviewing(current, q, review)), s5, Next(w, s5, Process(0)).value);
  }

  /** A hash that tells all texts apart, and gives three of them the form of a content revision. */
  function ThreeRevisions(text: string): string {
    if text == "a" || text == "b" || text == "c" then "sha256:" + seq(64, i => text[0]) else "x" + text
  }

  const SMALL_WORLD := World(ThreeRevisions, c => 1, c => c == '\n')

  lemma SmallWorldIsFaithful()
    ensures Faithful(SMALL_WORLD)
    ensures forall t | t in {"a", "b", "c"} :: IsContentRevision(ThreeRevisions(t))
  {
    forall a, b | ThreeRevisions(a) == ThreeRevisions(b) ensures a == b {
      var x, y := ThreeRevisions(a), ThreeRevisions(b);
      assert x[0] == y[0] && x[1..] == y[1..];
      if a in {"a", "b", "c"} && b in {"a", "b", "c"} {
        assert x[7] == a[0] && y[7] == b[0];
        assert a == [a[0]] && b == [b[0]];
      } else if a !in {"a", "b", "c"} && b !in {"a", "b", "c"} {
        assert x[1..] == a && y[1..] == b;
      }
    }
    forall t | t in {"a", "b", "c"} ensures IsContentRevision(ThreeRevisions(t)) {
      var r := ThreeRevisions(t);
      assert r[..7] == "sha256:";
      assert forall i | 7 <= i < 71 :: r[i] == t[0];
    }
  }

  /** The companion answers "c" where the user submitted "b". */
  const OTHER_TEXT := Fields(Proposal(ThreeRevisions("a"), "n.md", ThreeRevisions("c"), "c"))

  lemma OtherTextIsShown()
    ensures Prepared(SMALL_WORLD, OTHER_TEXT, "n.md", "a").Success?
  {
    SmallWorldIsFaithful();
    SmallPathIsSafe();
    SmallTextsFit();
    hide UnifiedDiff.Preview, UnifiedDiff.TooLargeToReview, IsSafeMarkdownPath, IsContentRevision, ThreeRevisions;
  }

  lemma {:induction false} OneSegment(path: string)
    requires '/' !in path
    ensures Segments(path) == [path]
    decreases |path|
  {
    if path != [] {
      OneSegment(path[1..]);
      assert [path[0]] + path[1..] == path;
      assert [path[1..]][1..] == [];
    }
  }

  lemma SmallPathIsSafe()
    ensures IsSafeMarkdownPath(SMALL_WORLD, "n.md")
  {
    assert "n.md"[1..] == ".md" && ".md"[1..] == "md" && "md"[1..] == "d" && "d"[1..] == "";
    OneSegment("n.md");
    assert ByteLength(SMALL_WORLD.width, "d") == 1 && ByteLength(SMALL_WORLD.width, "md") == 2;
  }

  lemma SmallTextsFit()
    ensures !UnifiedDiff.TooLargeToReview(SMALL_WORLD.width, "a", "c")
  {
    assert "a"[1..] == "" && "c"[1..] == "";
    assert UnifiedDiff.Split("a") == ["a"] && UnifiedDiff.Split("c") == ["c"];
  }

  /** And it is such an answer's text that is written, reviewed as it was, not the user's. */
  lemma OtherTextIsWritten()
    ensures var s := State(map[0 := File("n.md", Some("a"))], map[], false);
            var end := Play(SMALL_WORLD, s,
              [Start(0, 0), Read(0), Submit(0, "b"), Answer(0, OTHER_TEXT), Approve(0), Process(0)]);
            end.Some? && 0 in end.value.files && end.value.files[0].text == Some("c")
  {
    hide Play;
    OtherTextIsShown();
    AnswerDecidesTheText(SMALL_WORLD, "n.md", "a", "b", OTHER_TEXT);
  }

  /** One note, and one review of it. */
  function One(path: string, text: string, phase: Phase): State {
    State(map[0 := File(path, Some(text))], map[0 := Session(0, phase)], false)
  }

  lemma MoveOne(path: string, text: string, phase: Phase, next: Phase)
    ensures Move(One(path, text, phase), 0, next) == One(path, text, next)
  {
    assert Move(One(path, text, phase), 0, next).sessions == map[0 := Session(0, next)];
  }

  lemma StartAndRead(w: World, path: string, current: string, submitted: string)
    ensures Next(w, State(map[0 := File(path, Some(current))], map[], false), Start(0, 0)) == Some(One(path, current, Reading))
    ensures Next(w, One(path, current, Reading), Read(0)) == Some(One(path, current, Asking(current)))
    ensures var q := Request(path, w.revision(current), submitted);
            Next(w, One(path, current, Asking(current)), Submit(0, submitted)) == Some(One(path, current, Proposing(current, q)))
  {
    hide Move, Prepared, Validated, Processed;
    MoveOne(path, current, Reading, Asking(current));
    MoveOne(path, current, Asking(current), Proposing(current, Request(path, w.revision(current), submitted)));
  }

  lemma AnswerAndApprove(w: World, path: string, current: string, q: Request, reply: Reply)
    requires Prepared(w, reply, path, current).Success?
    ensures var review := Prepared(w, reply, path, current).value;
            && Next(w, One(path, current, Proposing(current, q)), Answer(0, reply)) == Some(One(path, current, Reviewing(current, q, review)))
            && Next(w, One(path, current, Reviewing(current, q, review)), Approve(0)) == Some(One(path, current, Writing(current, q, review)))
  {
    hide Move, Prepared, Validated, Processed;
    PreparedIsValid(w, reply, path, current);
    var review := Prepared(w, reply, path, current).value;
    MoveOne(path, current, Proposing(current, q), Reviewing(current, q, review));
    MoveOne(path, current, Reviewing(current, q, review), Writing(current, q, review));
  }

  lemma LastWrite(w: World, path: string, current: string, q: Request, reply: Reply)
    requires Prepared(w, reply, path, current).Success? && q.expected == w.revision(current)
    ensures reply.Fields?
    ensures var end := Next(w, One(path, current, Writing(current, q, Prepared(w, reply, path, current).value)), Process(0));
            && end.Some? && 0 in end.value.files && end.value.files[0].text == Some(reply.proposal.replacement)
  {
    hide Move, Prepared, Validated, IsSafeMarkdownPath, UnifiedDiff.Preview;
    PreparedIsReviewed(w, reply, path, current, q);
  }

  lemma PreparedIsValid(w: World, reply: Reply, path: string, current: string)
    requires Prepared(w, reply, path, current).Success?
    ensures Validated(w, Fields(Prepared(w, reply, path, current).value.proposal), path).Success?
  {
    hide UnifiedDiff.Preview, UnifiedDiff.TooLargeToReview, IsContentRevision, IsSafeMarkdownPath;
  }

  lemma PlaySix(w: World, es: seq<Event>, s: State, s1: State, s2: State, s3: State, s4: State, s5: State, s6: State)
    requires |es| == 6
    requires Next(w, s, es[0]) == Some(s1) && Next(w, s1, es[1]) == Some(s2) && Next(w, s2, es[2]) == Some(s3)
    requires Next(w, s3, es[3]) == Some(s4) && Next(w, s4, es[4]) == Some(s5) && Next(w, s5, es[5]) == Some(s6)
    ensures Play(w, s, es) == Some(s6)
  {
    hide Next;
    PlayStep(w, s, s1, es);
    PlayStep(w, s1, s2, es[1..]);
    PlayStep(w, s2, s3, es[1..][1..]);
    PlayStep(w, s3, s4, es[1..][1..][1..]);
    PlayStep(w, s4, s5, es[1..][1..][1..][1..]);
    PlayStep(w, s5, s6, es[1..][1..][1..][1..][1..]);
  }

  lemma PlayStep(w: World, s: State, t: State, es: seq<Event>)
    requires es != [] && Next(w, s, es[0]) == Some(t)
    ensures Play(w, s, es) == Play(w, t, es[1..])
  {
    hide Next;
  }

  // ------------------------------------------------------------ unloading

  /**
   Once the plugin is unloaded no review starts or gets any further: each stays
   where it is or ends, and the only ones that still write are those whose
   approved write was queued before.
   */
  lemma {:induction false} UnloadStopsReviews(w: World, ss: seq<State>, es: seq<Event>, i: nat, j: nat, id: nat)
    requires IsRun(w, ss, es) && i <= j <= |es| && ss[i].unloaded
    ensures ss[j].unloaded && (id in ss[j].sessions <==> id in ss[i].sessions)
    ensures id in ss[i].sessions ==>
              ss[j].sessions[id] == ss[i].sessions[id] || ss[j].sessions[id].phase.Done?
    ensures j < |es| && es[j] == Process(id) ==> id in ss[i].sessions && ss[i].sessions[id].phase.Writing?
    decreases j
  {
    if i < j {
      UnloadStopsReviews(w, ss, es, i, j - 1, id);
      assert Next(w, ss[j - 1], es[j - 1]) == Some(ss[j]);
      UnloadedStep(w, ss[j - 1], es[j - 1], id);
    }
    if j < |es| {
      assert Next(w, ss[j], es[j]) == Some(ss[j + 1]);
    }
  }

  lemma UnloadedStep(w: World, s: State, e: Event, id: nat)
    requires Next(w, s, e).Some? && s.unloaded
    ensures var t := Next(w, s, e).value;
            && t.unloaded && (id in t.sessions <==> id in s.sessions)
            && (id in s.sessions ==> t.sessions[id] == s.sessions[id] || t.sessions[id].phase.Done?)
  {
    hide Prepared, Validated, Processed;
  }

  /** A write that was approved cannot be called off: it stays queued through every event until it runs, unloaded or not. */
  lemma ApprovedWriteRuns(w: World, s: State, e: Event, id: nat)
    requires id in s.sessions && s.sessions[id].phase.Writing? && s.sessions[id].file in s.files
    ensures Next(w, s, Process(id)).Some?
    ensures Next(w, s, e).Some? && e != Process(id) ==>
              id in Next(w, s, e).value.sessions && Next(w, s, e).value.sessions[id] == s.sessions[id]
  {
    hide Prepared, Validated, Processed;
  }
}
