/**
 Which unsynced changes of the links, the journal and the versions in place a
 power loss may take: exactly when the directory it leaves is one recovery can
 start from.
 */
module PointerLoss {
  import opened Common
  import opened PointerJournal
  import opened PointerSwitch

  /** The journal text gives `t` as one of its two targets. */
  predicate Names(text: string, t: Target) {
    "from=" + t in Lines(text) || "to=" + t in Lines(text)
  }

  /** A link or the journal gives `t` as a target. */
  predicate Named(d: Dir, t: Target) {
    d.current == Some(t) || d.previous == Some(t) || (d.journal.Some? && Names(d.journal.value, t))
  }

  /** A change that is wrong on disk unless an earlier one is there too. */
  predicate Needs(later: Op, earlier: Op) {
    (later.SetPrevious? && earlier.PutJournal?) || (later.PutJournal? && earlier.SetCurrent?)
  }

  /** No change that survives needs one that was not yet synced and is lost. */
  ghost predicate Closed(pending: seq<Op>, kept: seq<bool>)
    requires |pending| == |kept|
  {
    forall op, need | op in Kept(pending, kept) && need in pending && Needs(op, need) :: need in Kept(pending, kept)
  }

  /** No survivor needs a lost change, and no lost version is named by what survives. */
  ghost predicate Harmless(d: Disk, kept: seq<bool>, lost: set<Target>)
    requires |kept| == |d.pending|
  {
    Closed(d.pending, kept) && forall t | t in lost :: !Named(ApplyOps(d.durable, Kept(d.pending, kept)), t)
  }

  // ------------------------------------------------------ what a set of survivors does

  lemma {:induction false} SurvivorsWerePending(ops: seq<Op>, kept: seq<bool>)
    requires |ops| == |kept|
    ensures forall op | op in Kept(ops, kept) :: op in ops
    decreases |ops|
  {
    if ops != [] {
      SurvivorsWerePending(ops[..|ops| - 1], kept[..|ops| - 1]);
    }
  }

  /** At most one value is written to each entry, and the journal is dropped at most once, first. */
  ghost predicate Plain(ops: seq<Op>, first: Target, from: Target, text: string) {
    && (forall op | op in ops ::
      && (op.SetCurrent? ==> op.target == first)
      && (op.SetPrevious? ==> op.target == from)
      && (op.PutJournal? ==> op.text == text))
    && forall i | 0 < i < |ops| :: !ops[i].DropJournal?
  }

  /** A directory after some plain changes, entry by entry. */
  ghost predicate After(r: Dir, d: Dir, ops: seq<Op>, first: Target, from: Target, text: string) {
    && r.current == (if SetCurrent(first) in ops then Some(first) else d.current)
    && r.previous == (if SetPrevious(from) in ops then Some(from) else d.previous)
    && r.journal == (if PutJournal(text) in ops then Some(text) else if DropJournal in ops then None else d.journal)
    && r.ready == d.ready
  }

  lemma AfterNone(d: Dir, first: Target, from: Target, text: string)
    ensures After(ApplyOps(d, []), d, [], first, from, text)
  {
  }

  lemma AfterOne(r: Dir, d: Dir, ops: seq<Op>, op: Op, first: Target, from: Target, text: string)
    requires After(r, d, ops, first, from, text)
    requires op.SetCurrent? ==> op.target == first
    requires op.SetPrevious? ==> op.target == from
    requires op.PutJournal? ==> op.text == text
    requires op.DropJournal? ==> ops == []
    ensures After(ApplyOp(r, op), d, ops + [op], first, from, text)
  {
  }

  lemma {:induction false} SurvivorsEffect(
    d: Dir, ops: seq<Op>, kept: seq<bool>, first: Target, from: Target, text: string)
    requires |ops| == |kept| && Plain(ops, first, from, text)
    ensures After(ApplyOps(d, Kept(ops, kept)), d, Kept(ops, kept), first, from, text)
    decreases |ops|
  {
    hide After, ApplyOp;
    if ops == [] {
      AfterNone(d, first, from, text);
    } else {
      var last := |ops| - 1;
      var k := Kept(ops[..last], kept[..last]);
      SurvivorsEffect(d, ops[..last], kept[..last], first, from, text);
      assert ops[last] in ops;
      if !kept[last] {
        assert Kept(ops, kept) == k + [] == k;
      } else {
        assert ops[last].DropJournal? ==> last == 0;
        assert Kept(ops, kept) == k + [ops[last]] && (k + [ops[last]])[..|k|] == k;
        assert ApplyOps(d, k + [ops[last]]) == ApplyOp(ApplyOps(d, k), ops[last]);
        AfterOne(ApplyOps(d, k), d, k, ops[last], first, from, text);
      }
    }
  }

  lemma {:induction false} AllSurvive(ops: seq<Op>, kept: seq<bool>)
    requires |ops| == |kept| && forall i | 0 <= i < |kept| :: kept[i]
    ensures Kept(ops, kept) == ops
    decreases |ops|
  {
    if ops != [] {
      AllSurvive(ops[..|ops| - 1], kept[..|ops| - 1]);
    }
  }

  lemma NowEffect(d: Disk, first: Target, from: Target, text: string)
    requires Plain(d.pending, first, from, text)
    ensures After(d.Now(), d.durable, d.pending, first, from, text)
  {
    var all := seq(|d.pending|, i => true);
    AllSurvive(d.pending, all);
    SurvivorsEffect(d.durable, d.pending, all, first, from, text);
  }

  lemma SameJournal(a: Target, b: Target, c: Target, d: Target)
    requires IsTarget(a) && IsTarget(b) && IsTarget(c) && IsTarget(d)
    requires JournalText(a, b) == JournalText(c, d)
    ensures a == c && b == d
  {
    hide IsTarget, JournalText;
    Fields(a, b);
    Fields(c, d);
    assert ("from=" + a)[5..] == a && ("from=" + c)[5..] == c;
    assert ("to=" + b)[3..] == b && ("to=" + d)[3..] == d;
  }

  lemma Fields(a: Target, b: Target)
    requires IsTarget(a) && IsTarget(b)
    ensures Lines(JournalText(a, b)) == ["schemaVersion=1", "from=" + a, "to=" + b]
  {
    hide JournalText;
    TargetHasNoNewline(a);
    TargetHasNoNewline(b);
    JournalLines(a, b);
  }

  lemma NamesItsTargets(a: Target, b: Target, t: Target)
    requires IsTarget(a) && IsTarget(b)
    ensures Names(JournalText(a, b), t) <==> t == a || t == b
  {
    hide IsTarget, JournalText;
    Fields(a, b);
    var lines := Lines(JournalText(a, b));
    assert lines[1] == "from=" + a && lines[2] == "to=" + b;
    assert ("from=" + t)[0] == 'f' && ("to=" + t)[0] == 't' && lines[0][0] == 's';
    assert lines[1][0] == 'f' && lines[2][0] == 't';
    assert ("from=" + t)[5..] == t && ("to=" + t)[3..] == t;
    assert lines[1][5..] == a && lines[2][3..] == b;
  }

  // ------------------------------------------------------ what can be unsynced

  /** The journal is safe on disk: only its own two links are being rewritten. */
  ghost predicate Finishing(d: Disk, from: Target, to: Target) {
    && Journaled(d.durable, from, to)
    && forall op | op in d.pending ::
      op == SetPrevious(from) || (op == SetCurrent(to) && d.durable.previous == Some(from))
  }

  /** The journal on disk is of a switch whose links are both on disk. */
  ghost predicate Finished(d: Dir) {
    exists f, t :: Journaled(d, f, t) && d.current == Some(t) && d.previous == Some(f)
  }

  /**
   No journal on disk, or its removal is on the way: perhaps a first link, and
   the start of one next switch from `from` to `to`.
   */
  ghost predicate Preparing(d: Disk, first: Target, from: Target, to: Target) {
    && Plain(d.pending, first, from, JournalText(from, to))
    && (d.durable.journal.Some? ==> DropJournal in d.pending)
    && forall op | op in d.pending ::
      match op
      case SetCurrent(v) => d.durable.current.None? && d.durable.journal.None? && v in d.durable.ready
      case PutJournal(_) =>
        && IsTarget(from) && IsTarget(to) && from != to && from in d.durable.ready && to in d.durable.ready
        && (d.durable.current == Some(from) || (from == first && SetCurrent(first) in d.pending))
      case SetPrevious(_) => PutJournal(JournalText(from, to)) in d.pending
      case DropJournal => Finished(d.durable)
  }

  ghost predicate Orderly(d: Disk) {
    (exists from, to :: Finishing(d, from, to)) || (exists first, from, to :: Preparing(d, first, from, to))
  }

  // ------------------------------------------------------ exactly which losses are good

  lemma FinishingLosesAnything(d: Disk, kept: seq<bool>, from: Target, to: Target)
    requires |kept| == |d.pending| && Finishing(d, from, to) && Good(d.durable)
    ensures Closed(d.pending, kept) && Good(ApplyOps(d.durable, Kept(d.pending, kept)))
  {
    hide JournalText, IsTarget, Installable, Kept, ApplyOps;
    var k := Kept(d.pending, kept);
    SurvivorsWerePending(d.pending, kept);
    assert forall i | 0 <= i < |d.pending| :: d.pending[i] in d.pending;
    SurvivorsEffect(d.durable, d.pending, kept, to, from, "");
    var r := ApplyOps(d.durable, k);
    assert r.ready == d.durable.ready;
    assert r.journal == d.durable.journal;
    assert Journaled(r, from, to);
  }

  /** Some of a preparing disk's changes survive and leave `r`. */
  ghost predicate Leaves(d: Disk, k: seq<Op>, r: Dir, first: Target, from: Target, to: Target) {
    && Good(d.durable) && Preparing(d, first, from, to)
    && (forall op | op in k :: op in d.pending)
    && After(r, d.durable, k, first, from, JournalText(from, to))
  }

  ghost predicate NeedsMet(d: Disk, k: seq<Op>) {
    forall op, need | op in k && need in d.pending && Needs(op, need) :: need in k
  }

  lemma TargetsSurvive(d: Disk, k: seq<Op>, r: Dir, first: Target, from: Target, to: Target)
    requires Leaves(d, k, r, first, from, to) && NeedsMet(d, k)
    ensures SetCurrent(first) in k ==> ValidPointer(r, r.current)
    ensures PutJournal(JournalText(from, to)) in k ==> Switchable(from, to, r.ready) && r.current == Some(from)
  {
    hide JournalText, IsTarget;
    var put := PutJournal(JournalText(from, to));
    if SetCurrent(first) in k {
      assert SetCurrent(first) in d.pending;
      assert Installable(first);
    }
    if put in k {
      assert put in d.pending;
      assert SetCurrent(first) in d.pending ==> Needs(put, SetCurrent(first));
    }
  }

  lemma ClosedLeavesPointersReady(d: Disk, k: seq<Op>, r: Dir, first: Target, from: Target, to: Target)
    requires Leaves(d, k, r, first, from, to) && NeedsMet(d, k)
    ensures PointersReady(r)
    ensures SetPrevious(from) in k ==> PutJournal(JournalText(from, to)) in k
  {
    hide JournalText, IsTarget, NeedsMet, Leaves;
    TargetsSurvive(d, k, r, first, from, to);
    ReadyIsInstallable(d, k, r, first, from, to);
    PreviousNeedsJournal(d, k, r, first, from, to);
    UntouchedLinks(d, k, r, first, from, to);
  }

  lemma ReadyIsInstallable(d: Disk, k: seq<Op>, r: Dir, first: Target, from: Target, to: Target)
    requires Leaves(d, k, r, first, from, to)
    ensures forall t | t in r.ready :: Installable(t)
  {
    hide JournalText, IsTarget, Installable;
  }

  lemma PreviousNeedsJournal(d: Disk, k: seq<Op>, r: Dir, first: Target, from: Target, to: Target)
    requires Leaves(d, k, r, first, from, to) && NeedsMet(d, k)
    ensures SetPrevious(from) in k ==> PutJournal(JournalText(from, to)) in k
  {
    hide JournalText, IsTarget, Installable;
    if SetPrevious(from) in k {
      assert SetPrevious(from) in d.pending;
      assert Needs(SetPrevious(from), PutJournal(JournalText(from, to)));
    }
  }

  lemma UntouchedLinks(d: Disk, k: seq<Op>, r: Dir, first: Target, from: Target, to: Target)
    requires Leaves(d, k, r, first, from, to)
    ensures SetCurrent(first) !in k ==> r.current == d.durable.current && (r.current.Some? ==> ValidPointer(r, r.current))
    ensures SetPrevious(from) !in k ==> r.previous == d.durable.previous && (r.previous.Some? ==> ValidPointer(r, r.previous))
    ensures SetPrevious(from) !in k && r.previous.Some? ==> SetCurrent(first) !in k && r.current.Some?
    ensures SetPrevious(from) in k ==> r.previous == Some(from)
  {
    hide JournalText, IsTarget, Installable;
    if SetCurrent(first) in k {
      assert SetCurrent(first) in d.pending;
    }
  }

  lemma ClosedLeavesGood(d: Disk, k: seq<Op>, r: Dir, first: Target, from: Target, to: Target)
    requires Leaves(d, k, r, first, from, to) && NeedsMet(d, k)
    ensures Good(r)
  {
    hide JournalText, IsTarget, NeedsMet, PointersReady, Leaves;
    TargetsSurvive(d, k, r, first, from, to);
    ClosedLeavesPointersReady(d, k, r, first, from, to);
    if PutJournal(JournalText(from, to)) in k {
      NewJournal(d, k, r, first, from, to);
    } else {
      OldJournal(d, k, r, first, from, to);
    }
  }

  lemma NewJournal(d: Disk, k: seq<Op>, r: Dir, first: Target, from: Target, to: Target)
    requires Leaves(d, k, r, first, from, to) && PutJournal(JournalText(from, to)) in k
    requires Switchable(from, to, r.ready) && r.current == Some(from)
    ensures Journaled(r, from, to)
  {
    hide JournalText, IsTarget;
  }

  lemma OldJournal(d: Disk, k: seq<Op>, r: Dir, first: Target, from: Target, to: Target)
    requires Leaves(d, k, r, first, from, to) && PutJournal(JournalText(from, to)) !in k && SetPrevious(from) !in k
    ensures r.journal.None? ==> r.current.None? || r.current != r.previous
    ensures r.journal.Some? ==> exists f, t :: Journaled(r, f, t)
  {
    hide JournalText, IsTarget, Installable;
    if SetCurrent(first) in k {
      assert SetCurrent(first) in d.pending;
    } else if DropJournal in k {
      assert Finished(d.durable);
    } else if r.journal.Some? {
      var f, t :| Journaled(d.durable, f, t);
      assert Journaled(r, f, t);
    }
  }

  // a lost need breaks the directory

  lemma LostJournalBreaks(d: Disk, k: seq<Op>, r: Dir, first: Target, from: Target, to: Target)
    requires Leaves(d, k, r, first, from, to)
    requires SetPrevious(from) in k && PutJournal(JournalText(from, to)) !in k
    ensures !Good(r)
  {
    hide JournalText, IsTarget, Installable;
    assert SetPrevious(from) in d.pending;
    assert PutJournal(JournalText(from, to)) in d.pending;
    if Good(r) && r.journal.Some? {
      var f, t :| Journaled(r, f, t);
      assert DropJournal in d.pending;
      var f0, t0 :| Journaled(d.durable, f0, t0) && d.durable.current == Some(t0) && d.durable.previous == Some(f0);
      SameJournal(f, t, f0, t0);
      assert false;
    }
  }

  lemma LostCurrentBreaks(d: Disk, k: seq<Op>, r: Dir, first: Target, from: Target, to: Target)
    requires Leaves(d, k, r, first, from, to)
    requires PutJournal(JournalText(from, to)) in k && SetCurrent(first) in d.pending && SetCurrent(first) !in k
    ensures !Good(r)
  {
    hide JournalText, IsTarget, Installable;
    assert r.current.None? && r.journal.Some?;
  }

  lemma LostNeedBreaks(d: Disk, k: seq<Op>, r: Dir, first: Target, from: Target, to: Target, op: Op, need: Op)
    requires Leaves(d, k, r, first, from, to)
    requires op in k && need in d.pending && Needs(op, need) && need !in k
    ensures !Good(r)
  {
    hide JournalText, After, Good;
    OnlyWrites(d, first, from, to, op);
    OnlyWrites(d, first, from, to, need);
    if op.SetPrevious? {
      LostJournalBreaks(d, k, r, first, from, to);
    } else {
      LostCurrentBreaks(d, k, r, first, from, to);
    }
  }

  lemma OnlyWrites(d: Disk, first: Target, from: Target, to: Target, op: Op)
    requires Preparing(d, first, from, to)
    ensures op in d.pending && op.SetCurrent? ==> op == SetCurrent(first)
    ensures op in d.pending && op.SetPrevious? ==> op == SetPrevious(from)
    ensures op in d.pending && op.PutJournal? ==> op == PutJournal(JournalText(from, to))
  {
    hide JournalText;
  }

  lemma PreparingLosesOnlyClosed(d: Disk, kept: seq<bool>, first: Target, from: Target, to: Target)
    requires |kept| == |d.pending| && Preparing(d, first, from, to) && Good(d.durable)
    ensures Good(ApplyOps(d.durable, Kept(d.pending, kept))) <==> Closed(d.pending, kept)
  {
    hide Good, After, JournalText, Plain, Needs, Kept, ApplyOps;
    var k := Kept(d.pending, kept);
    var r := ApplyOps(d.durable, k);
    SurvivorsWerePending(d.pending, kept);
    SurvivorsEffect(d.durable, d.pending, kept, first, from, JournalText(from, to));
    if Closed(d.pending, kept) {
      ClosedLeavesGood(d, k, r, first, from, to);
    } else {
      var op, need :| op in k && need in d.pending && Needs(op, need) && need !in k;
      LostNeedBreaks(d, k, r, first, from, to, op, need);
    }
  }

  lemma OrderlyLinks(d: Disk, kept: seq<bool>)
    requires |kept| == |d.pending| && Orderly(d) && Good(d.durable)
    ensures Good(ApplyOps(d.durable, Kept(d.pending, kept))) <==> Closed(d.pending, kept)
  {
    hide Good, Preparing, Finishing, Kept, ApplyOps, Closed;
    if from, to :| Finishing(d, from, to) {
      FinishingLosesAnything(d, kept, from, to);
    } else {
      var first, from, to :| Preparing(d, first, from, to);
      PreparingLosesOnlyClosed(d, kept, first, from, to);
    }
  }

  /** Versions can go exactly when nothing names them. */
  lemma WithoutVersions(r: Dir, lost: set<Target>)
    requires Good(r)
    ensures Good(r.(ready := r.ready - lost)) <==> forall t | t in lost :: !Named(r, t)
  {
    hide JournalText, IsTarget, Installable, Names;
    var q := r.(ready := r.ready - lost);
    if r.journal.Some? {
      var from, to :| Journaled(r, from, to);
      forall t ensures Names(r.journal.value, t) <==> t == from || t == to {
        NamesItsTargets(from, to, t);
      }
      if f, t :| Journaled(q, f, t) {
        SameJournal(f, t, from, to);
      }
      if from !in lost && to !in lost {
        assert Journaled(q, from, to);
      }
    }
  }

  lemma WithVersionsAgain(r: Dir, lost: set<Target>)
    requires Good(r.(ready := r.ready - lost)) && forall t | t in r.ready :: Installable(t)
    ensures Good(r)
  {
    hide JournalText, IsTarget, Installable;
    if r.journal.Some? {
      var from, to :| Journaled(r.(ready := r.ready - lost), from, to);
      assert Journaled(r, from, to);
    }
  }

  lemma GoodIsInstallable(d: Dir)
    requires Good(d)
    ensures forall t | t in d.ready :: Installable(t)
  {
    hide JournalText, IsTarget, Installable;
  }

  /** The directory a power loss leaves is one recovery can start from exactly when the loss is harmless. */
  lemma OrderlyLoss(d: Disk, kept: seq<bool>, lost: set<Target>)
    requires |kept| == |d.pending| && Orderly(d) && Good(d.durable)
    ensures Good(Left(d, kept, lost)) <==> Harmless(d, kept, lost)
  {
    hide Good, Orderly, Kept, ApplyOps, Closed, Named, Installable;
    var r := ApplyOps(d.durable, Kept(d.pending, kept));
    OrderlyLinks(d, kept);
    ReadyStays(d.durable, Kept(d.pending, kept));
    GoodIsInstallable(d.durable);
    if Good(r) {
      WithoutVersions(r, lost);
    } else if Good(Left(d, kept, lost)) {
      WithVersionsAgain(r, lost);
    }
  }

  // ------------------------------------------------------ every reachable disk is orderly

  lemma SyncedIsOrderly(d: Disk)
    requires d.pending == [] && Good(d.durable)
    ensures Orderly(d)
  {
    hide JournalText, IsTarget, PointersReady;
    if d.durable.journal.Some? {
      var from, to :| Journaled(d.durable, from, to);
      assert Finishing(d, from, to);
    } else {
      assert Preparing(d, "", "", "");
    }
  }

  /** A preparing disk on which no journal can be seen. */
  ghost predicate Unannounced(d: Disk, first: Target, from: Target, to: Target) {
    && Preparing(d, first, from, to) && After(d.Now(), d.durable, d.pending, first, from, JournalText(from, to))
    && forall op | op in d.pending :: op.SetCurrent? || op.DropJournal?
  }

  lemma NoJournalInSight(d: Disk) returns (first: Target, from: Target, to: Target)
    requires Orderly(d) && d.Now().journal.None?
    ensures Unannounced(d, first, from, to)
  {
    hide JournalText, IsTarget, Installable, ApplyOps;
    if f, t :| Finishing(d, f, t) {
      assert forall i | 0 <= i < |d.pending| :: d.pending[i] in d.pending;
      NowEffect(d, t, f, "");
      assert false;
    } else {
      first, from, to :| Preparing(d, first, from, to);
      NowEffect(d, first, from, JournalText(from, to));
    }
  }

  /** Moving a version into place leaves the links as orderly as they were. */
  lemma PlaceIsOrderly(d: Disk, v: Target)
    requires Orderly(d)
    ensures Orderly(Act(d, Place(v)))
  {
    hide JournalText, IsTarget, Installable;
    var e := Act(d, Place(v));
    if from, to :| Finishing(d, from, to) {
      assert Finishing(e, from, to);
    } else {
      var first, from, to :| Preparing(d, first, from, to);
      if f, t :| Journaled(d.durable, f, t) && d.durable.current == Some(t) && d.durable.previous == Some(f) {
        assert Journaled(e.durable, f, t);
      }
      assert Preparing(e, first, from, to);
    }
  }

  lemma PreparingIsOrderly(d: Disk, first: Target, from: Target, to: Target)
    requires Preparing(d, first, from, to)
    ensures Orderly(d)
  {
  }

  lemma FirstLinkIsOrderly(d: Disk, v: Target)
    requires Orderly(d) && d.Now().journal.None? && d.Now().current.None? && v in d.Now().ready
    ensures Orderly(Act(d, Do(SetCurrent(v))))
  {
    hide JournalText, IsTarget, Installable, Orderly, ApplyOps;
    var first, from, to := NoJournalInSight(d);
    var e := Act(d, Do(SetCurrent(v)));
    assert forall op :: op in e.pending <==> op in d.pending || op == SetCurrent(v);
    assert Preparing(e, v, from, to);
    PreparingIsOrderly(e, v, from, to);
  }

  lemma JournalIsOrderly(d: Disk, from: Target, to: Target)
    requires Orderly(d) && d.Now().journal.None?
    requires d.Now().current == Some(from) && Switchable(from, to, d.Now().ready)
    ensures Orderly(Act(d, Do(PutJournal(JournalText(from, to)))))
  {
    hide JournalText, IsTarget, Installable, Finished, Orderly, ApplyOps;
    var first, f, t := NoJournalInSight(d);
    var put := PutJournal(JournalText(from, to));
    var e := Act(d, Do(put));
    assert forall op :: op in e.pending <==> op in d.pending || op == put;
    assert Preparing(e, first, from, to);
    PreparingIsOrderly(e, first, from, to);
  }

  lemma PreviousIsOrderly(d: Disk, from: Target, to: Target)
    requires Orderly(d) && Journaled(d.Now(), from, to)
    ensures Orderly(Act(d, Do(SetPrevious(from))))
  {
    hide JournalText, IsTarget, Installable, ApplyOps, Preparing, Finishing;
    if f, t :| Finishing(d, f, t) {
      FinishingPrevious(d, from, to, f, t);
    } else {
      var first, f, t :| Preparing(d, first, f, t);
      PreparingPrevious(d, from, to, first, f, t);
    }
  }

  lemma FinishingPrevious(d: Disk, from: Target, to: Target, f: Target, t: Target)
    requires Finishing(d, f, t) && Journaled(d.Now(), from, to)
    ensures Orderly(Act(d, Do(SetPrevious(from))))
  {
    hide JournalText, IsTarget, Installable, ApplyOps;
    assert forall i | 0 <= i < |d.pending| :: d.pending[i] in d.pending;
    NowEffect(d, t, f, "");
    SameJournal(from, to, f, t);
    var e := Act(d, Do(SetPrevious(from)));
    assert forall op :: op in e.pending <==> op in d.pending || op == SetPrevious(from);
    assert Finishing(e, f, t);
  }

  lemma PreparingPrevious(d: Disk, from: Target, to: Target, first: Target, f: Target, t: Target)
    requires Preparing(d, first, f, t) && Journaled(d.Now(), from, to)
    ensures Orderly(Act(d, Do(SetPrevious(from))))
  {
    hide JournalText, IsTarget, Installable, ApplyOps, Finished, Orderly;
    NowEffect(d, first, f, JournalText(f, t));
    assert PutJournal(JournalText(f, t)) in d.pending;
    SameJournal(from, to, f, t);
    var e := Act(d, Do(SetPrevious(from)));
    assert forall op :: op in e.pending <==> op in d.pending || op == SetPrevious(from);
    assert Preparing(e, first, f, t);
    PreparingIsOrderly(e, first, f, t);
  }

  lemma LinkIsOrderly(d: Disk, from: Target, to: Target)
    requires d.pending == [] && Journaled(d.durable, from, to) && d.durable.previous == Some(from)
    ensures Orderly(Act(d, Do(SetCurrent(to))))
  {
    hide JournalText, IsTarget;
    assert Finishing(Act(d, Do(SetCurrent(to))), from, to);
  }

  lemma DropIsOrderly(d: Disk, from: Target, to: Target)
    requires d.pending == [] && Journaled(d.durable, from, to)
    requires d.durable.previous == Some(from) && d.durable.current == Some(to)
    ensures Orderly(Act(d, Do(DropJournal)))
  {
    hide JournalText, IsTarget;
    assert Preparing(Act(d, Do(DropJournal)), "", "", "");
  }

  /** What is left of the plan a process is carrying out. */
  function Todo(p: Process): seq<Action> {
    match p
    case Recovering(_, todo) => todo
    case Staging(_, todo) => todo
    case Switching(todo) => todo
    case _ => []
  }

  /** The links are rewritten and the journal dropped only right after a barrier. */
  ghost predicate Fresh(d: Disk, todo: seq<Action>) {
    todo != [] && todo[0].Do? ==>
      match todo[0].op
      case DropJournal => d.pending == []
      case SetCurrent(_) => |todo| == 4 ==> d.pending == []
      case _ => true
  }

  ghost predicate Steady(s: State) {
    Inv(s) && Orderly(s.disk) && Fresh(s.disk, Todo(s.process))
  }

  lemma PlanActionIsOrderly(d: Disk, todo: seq<Action>, from: Target, to: Target)
    requires Orderly(d) && PlanStage(d.Now(), todo, from, to) && todo != [] && todo[0].Do?
    requires |todo| == 4 || |todo| == 2 ==> d.pending == []
    ensures Orderly(Act(d, todo[0]))
  {
    hide JournalText, IsTarget, Orderly, Act, Switchable;
    PlanOpAt(todo, from, to, d.Now());
    SeenWhenSynced(d);
    if |todo| == 8 {
      JournalIsOrderly(d, from, to);
    } else if |todo| == 6 {
      PreviousIsOrderly(d, from, to);
    } else if |todo| == 4 {
      LinkIsOrderly(d, from, to);
    } else {
      DropIsOrderly(d, from, to);
    }
  }

  lemma PlanOpAt(todo: seq<Action>, from: Target, to: Target, now: Dir)
    requires PlanStage(now, todo, from, to) && todo != [] && todo[0].Do?
    ensures |todo| in {2, 4, 6, 8}
    ensures |todo| == 8 ==> todo[0].op == PutJournal(JournalText(from, to))
    ensures |todo| == 6 ==> todo[0].op == SetPrevious(from)
    ensures |todo| == 4 ==> todo[0].op == SetCurrent(to)
    ensures |todo| == 2 ==> todo[0].op == DropJournal
    ensures |todo[1..]| > 0 && todo[1..][0].Barrier?
  {
    hide JournalText;
    assert todo[0] == SwitchPlan(from, to)[8 - |todo|];
    assert todo[1..][0] == SwitchPlan(from, to)[9 - |todo|];
  }

  lemma SeenWhenSynced(d: Disk)
    ensures d.pending == [] ==> d.Now() == d.durable
  {
  }

  lemma BarrierIsOrderly(d: Disk)
    requires AllCutsGood(d)
    ensures Act(d, Barrier).pending == [] && Orderly(Act(d, Barrier))
  {
    hide Good, Orderly;
    NowIsGood(d);
    SyncedIsOrderly(Act(d, Barrier));
  }

  lemma ChangeIsFresh(d: Disk, todo: seq<Action>)
    requires todo == [] || !todo[0].Do?
    ensures Fresh(d, todo)
  {
  }

  lemma PlanStepIsSteady(d: Disk, todo: seq<Action>, from: Target, to: Target)
    requires AllCutsGood(d) && Orderly(d) && Fresh(d, todo) && todo != []
    requires PlanStage(d.Now(), todo, from, to)
    ensures Orderly(Act(d, todo[0])) && Fresh(Act(d, todo[0]), todo[1..])
  {
    hide AllCutsGood, Orderly, PlanStage, ApplyOps;
    PlanIsOfTheRoot(d.Now(), todo, from, to);
    match todo[0] {
      case Barrier =>
        BarrierIsOrderly(d);
        PlanAdvances(d, todo, from, to);
        if todo[1..] != [] && todo[1..][0].Do? {
          PlanOpAt(todo[1..], from, to, Act(d, Barrier).Now());
        }
      case Do(op) =>
        PlanOpAt(todo, from, to, d.Now());
        PlanActionIsOrderly(d, todo, from, to);
        ChangeIsFresh(Act(d, todo[0]), todo[1..]);
    }
  }

  lemma SyncingIsOrderly(d: Disk)
    requires Orderly(d)
    ensures Orderly(Act(d, SyncVersions))
  {
    hide JournalText, IsTarget, Installable;
    var e := Act(d, SyncVersions);
    if from, to :| Finishing(d, from, to) {
      assert Finishing(e, from, to);
    } else {
      var first, from, to :| Preparing(d, first, from, to);
      assert Preparing(e, first, from, to);
    }
  }

  lemma StagingIsSteady(s: State)
    requires Steady(s) && s.process.Staging? && s.process.todo != []
    ensures Orderly(Apply(s, Advance).disk) && Fresh(Apply(s, Advance).disk, Todo(Apply(s, Advance).process))
  {
    hide AllCutsGood, Orderly, ApplyOps, Installable;
    match s.process.todo[0] {
      case Place(v) => PlaceIsOrderly(s.disk, v);
      case SyncVersions => SyncingIsOrderly(s.disk);
    }
  }

  lemma FirstInstallIsSteady(s: State)
    requires Steady(s) && s.process.Switching? && s.process.todo != [] && FirstInstall(s.disk.Now(), s.process.todo)
    ensures Orderly(Apply(s, Advance).disk) && Fresh(Apply(s, Advance).disk, Todo(Apply(s, Advance).process))
  {
    hide AllCutsGood, Orderly, ApplyOps, PlanStage;
    match s.process.todo[0] {
      case Barrier => BarrierIsOrderly(s.disk);
      case Do(op) => FirstLinkIsOrderly(s.disk, op.target);
    }
  }

  lemma DecidingIsFresh(s: State)
    requires s.process.Starting? || s.process.Recovered? || s.process.Deciding?
    ensures Fresh(Apply(s, Advance).disk, Todo(Apply(s, Advance).process)) && Apply(s, Advance).disk == s.disk
  {
    hide IsTarget, ReadJournal, ApplyOps, ValidPointer;
  }

  lemma AdvanceIsSteady(s: State)
    requires Steady(s) && !s.process.NoProcess?
    ensures Orderly(Apply(s, Advance).disk) && Fresh(Apply(s, Advance).disk, Todo(Apply(s, Advance).process))
  {
    hide AllCutsGood, Orderly, PlanStage, FirstInstall, Fresh, ApplyOps, AfterStart, Decision;
    if Todo(s.process) == [] {
      if s.process.Starting? || s.process.Recovered? || s.process.Deciding? {
        DecidingIsFresh(s);
      } else {
        ChangeIsFresh(Apply(s, Advance).disk, Todo(Apply(s, Advance).process));
      }
    } else if s.process.Staging? {
      StagingIsSteady(s);
    } else if s.process.Switching? && FirstInstall(s.disk.Now(), s.process.todo) {
      FirstInstallIsSteady(s);
    } else {
      var from, to :| PlanStage(s.disk.Now(), Todo(s.process), from, to);
      PlanStepIsSteady(s.disk, Todo(s.process), from, to);
    }
  }

  /** A power loss that takes nothing needed; every other step. */
  ghost predicate Sound(s: State, step: Step) {
    step.PowerLoss? && |step.kept| == |s.disk.pending| ==> Harmless(s.disk, step.kept, step.lost)
  }

  lemma LossIsSteady(s: State, kept: seq<bool>, lost: set<Target>)
    requires Steady(s) && Enabled(s, PowerLoss(kept, lost)) && Harmless(s.disk, kept, lost)
    ensures Steady(Apply(s, PowerLoss(kept, lost)))
  {
    hide Orderly, Harmless, Left, Good, Fresh;
    var t := Apply(s, PowerLoss(kept, lost));
    FirstCutIsGood(s.disk);
    OrderlyLoss(s.disk, kept, lost);
    ChangeIsFresh(t.disk, []);
    assert t.disk.pending[..0] == [] && t.disk.Now() == t.disk.durable;
    SyncedIsOrderly(t.disk);
  }

  lemma FirstCutIsGood(d: Disk)
    requires AllCutsGood(d)
    ensures Good(d.durable)
  {
    hide Good;
    assert d.pending[..0] == [];
  }

  lemma StepIsSteady(s: State, step: Step)
    requires Steady(s) && Enabled(s, step) && Sound(s, step)
    ensures Steady(Apply(s, step))
  {
    if step.PowerLoss? {
      LossIsSteady(s, step.kept, step.lost);
    } else {
      hide AllCutsGood, Orderly, ProcessAgrees, Fresh;
      StepKeepsInv(s, step);
      if step.Advance? {
        AdvanceIsSteady(s);
      } else {
        ChangeIsFresh(Apply(s, step).disk, Todo(Apply(s, step).process));
      }
    }
  }

  /** Runs in which each power loss takes only changes that no survivor needs, in whatever order. */
  lemma {:induction false} SoundRunsAreSteady(ss: seq<State>, steps: seq<Step>, n: nat)
    requires Run(ss, steps) && n < |ss|
    requires forall i | 0 <= i < n :: Sound(ss[i], steps[i])
    ensures Steady(ss[n])
    decreases n
  {
    hide Apply, Enabled, Steady, Sound;
    if n == 0 {
      StartIsSteady(ss[0]);
    } else {
      SoundRunsAreSteady(ss, steps, n - 1);
      StepIsSteady(ss[n - 1], steps[n - 1]);
    }
  }

  lemma StartIsSteady(s: State)
    requires s == EMPTY_ROOT
    ensures Steady(s)
  {
    assert s.disk.pending[..0] == [];
    SyncedIsOrderly(s.disk);
  }

  /**
   For every run, kills included, and whatever the next power loss keeps and
   takes: it leaves a directory recovery can start from if and only if no
   surviving change needs one that was lost and no lost version is named by what
   survives. Until the first loss that breaks this, every state is recoverable.
   */
  lemma LossIsGoodIffHarmless(ss: seq<State>, steps: seq<Step>, n: nat, kept: seq<bool>, lost: set<Target>)
    requires Run(ss, steps) && n < |ss| && |kept| == |ss[n].disk.pending| && lost <= ss[n].disk.adrift
    requires forall i | 0 <= i < n :: Sound(ss[i], steps[i])
    ensures Inv(ss[n])
    ensures Good(Apply(ss[n], PowerLoss(kept, lost)).disk.Now()) <==> Harmless(ss[n].disk, kept, lost)
  {
    hide Harmless, Orderly, Good, Sound, Left, Fresh;
    SoundRunsAreSteady(ss, steps, n);
    FirstCutIsGood(ss[n].disk);
    OrderlyLoss(ss[n].disk, kept, lost);
    SeenWhenSynced(Apply(ss[n], PowerLoss(kept, lost)).disk);
  }

  /** Survivors in order never miss a need: the in-order losses are among the harmless ones. */
  lemma InOrderIsHarmless(s: State, kept: seq<bool>)
    requires Steady(s) && |kept| == |s.disk.pending| && InOrder(PowerLoss(kept, {}))
    ensures Harmless(s.disk, kept, {})
  {
    hide Closed, Orderly, Good, Fresh, Kept;
    var n := KeptInOrderIsPrefix(s.disk.pending, kept);
    FirstCutIsGood(s.disk);
    OrderlyLinks(s.disk, kept);
  }

  // ------------------------------------------------------ without kills every loss is harmless

  /** Every change is followed at once by the barrier of its directory; a version is moved into place first. */
  ghost predicate Alternates(todo: seq<Action>) {
    forall i | 0 <= i < |todo| ::
      && (todo[i].Do? ==> Follows(todo, i, Barrier))
      && (todo[i].Place? ==> i == 0 && Follows(todo, i, SyncVersions))
  }

  predicate Follows(todo: seq<Action>, i: nat, a: Action) {
    i + 1 < |todo| && todo[i + 1] == a
  }

  /** At most one change is unsynced: an entry of the root, or a version nothing names yet. */
  ghost predicate OneAtATime(d: Disk, todo: seq<Action>) {
    && Alternates(todo)
    && (d.pending == [] || (|d.pending| == 1 && todo != [] && todo[0].Barrier?))
    && (d.adrift == {} ||
        (d.pending == [] && todo != [] && todo[0].SyncVersions? && forall t | t in d.adrift :: !Named(d.durable, t)))
    && (todo != [] && todo[0].Place? ==> todo[0].target !in d.durable.ready)
  }

  lemma PlanAlternates(from: Target, to: Target)
    ensures Alternates(SwitchPlan(from, to)) && Alternates(RecoveryPlan(from, to))
  {
    PlanShape(from, to);
    var plan := SwitchPlan(from, to);
    assert RecoveryPlan(from, to) == plan[2..];
  }

  lemma OneChangeAlternates(op: Op, v: Target)
    ensures Alternates([Do(op), Barrier]) && Alternates([Place(v), SyncVersions]) && Alternates([])
  {
  }

  lemma NoPlaceInPlans(from: Target, to: Target)
    ensures !SwitchPlan(from, to)[0].Place? && !RecoveryPlan(from, to)[0].Place?
  {
  }

  lemma PlanFollows(s: State) returns (from: Target, to: Target)
    requires s.process.Starting? || s.process.Recovered? || s.process.Deciding?
    ensures Apply(s, Advance).disk == s.disk
    ensures var todo := Todo(Apply(s, Advance).process);
            || todo == [] || todo == SwitchPlan(from, to) || todo == RecoveryPlan(from, to)
            || (s.process.Deciding? && todo == [Do(SetCurrent(to)), Barrier])
            || (todo == [Place(to), SyncVersions] && to !in s.disk.Now().ready)
  {
    hide SwitchPlan, RecoveryPlan, IsTarget, ReadJournal, ApplyOps, Switchable;
    from, to := "", "";
    match s.process {
      case Starting(c) =>
        var now := s.disk.Now();
        if now.journal.Some? && ReadJournal(now.journal.value, now.ready).Some? {
          from, to := ReadJournal(now.journal.value, now.ready).value.0, ReadJournal(now.journal.value, now.ready).value.1;
        }
      case Recovered(c) =>
        if c.Install? {
          to := c.version;
        }
      case Deciding(c) =>
        var now := s.disk.Now();
        if now.current.Some? {
          from := now.current.value;
        }
        if c.Install? {
          to := c.version;
        } else if now.previous.Some? {
          to := now.previous.value;
        }
    }
  }

  lemma PlansAlternate(s: State)
    requires s.process.Starting? || s.process.Recovered? || s.process.Deciding?
    requires s.disk.pending == [] && s.disk.adrift == {}
    ensures Apply(s, Advance).disk == s.disk && OneAtATime(s.disk, Todo(Apply(s, Advance).process))
  {
    var from, to := PlanFollows(s);
    hide Alternates, SwitchPlan, RecoveryPlan, Apply, Todo, ApplyOps, Named;
    ReadyStays(s.disk.durable, s.disk.pending);
    PlanAlternates(from, to);
    NoPlaceInPlans(from, to);
    OneChangeAlternates(SetCurrent(to), to);
  }

  lemma ReadyNamesOnly(d: Dir, t: Target)
    requires Good(d) && t !in d.ready
    ensures !Named(d, t)
  {
    hide Good;
    WithoutVersions(d, {t});
    assert d.ready - {t} == d.ready;
  }

  lemma ActionsAlternate(d: Disk, todo: seq<Action>)
    requires todo != [] && OneAtATime(d, todo) && Good(d.durable)
    ensures OneAtATime(Act(d, todo[0]), todo[1..])
  {
    hide Good, Named, ApplyOps;
    RestAlternates(todo);
    if todo[0].Place? {
      ReadyNamesOnly(d.durable, todo[0].target);
      SameNames(d.durable, d.durable.ready + {todo[0].target}, todo[0].target);
    }
  }

  lemma SameNames(d: Dir, ready: set<Target>, t: Target)
    ensures Named(d.(ready := ready), t) == Named(d, t)
  {
  }

  lemma RestAlternates(todo: seq<Action>)
    requires todo != [] && Alternates(todo)
    ensures Alternates(todo[1..])
    ensures todo[1..] != [] ==> !todo[1..][0].Place?
    ensures todo[0].Do? ==> todo[1..] != [] && todo[1..][0].Barrier?
    ensures todo[0].Place? ==> todo[1..] != [] && todo[1..][0].SyncVersions?
  {
    var rest := todo[1..];
    assert todo[0].Do? ==> Follows(todo, 0, Barrier);
    assert todo[0].Place? ==> Follows(todo, 0, SyncVersions);
    forall i | 0 <= i < |rest|
      ensures rest[i].Do? ==> Follows(rest, i, Barrier)
      ensures !rest[i].Place?
    {
      assert rest[i] == todo[i + 1];
      assert rest[i].Do? ==> Follows(todo, i + 1, Barrier);
    }
  }

  lemma ActionTaken(s: State)
    requires Todo(s.process) != []
    ensures Apply(s, Advance).disk == Act(s.disk, Todo(s.process)[0])
    ensures Todo(Apply(s, Advance).process) == Todo(s.process)[1..]
  {
    hide Act;
  }

  lemma NoActionLeft(s: State)
    requires Todo(s.process) == []
    requires s.process.Recovering? || s.process.Staging? || s.process.Switching?
    ensures Apply(s, Advance).disk == s.disk && Todo(Apply(s, Advance).process) == []
  {
  }

  lemma UnkilledAdvanceSyncs(s: State)
    requires Steady(s) && !s.process.NoProcess? && OneAtATime(s.disk, Todo(s.process))
    ensures OneAtATime(Apply(s, Advance).disk, Todo(Apply(s, Advance).process))
  {
    hide OneAtATime, Orderly, AllCutsGood, Fresh, Apply, ProcessAgrees;
    if Todo(s.process) != [] {
      FirstCutIsGood(s.disk);
      ActionTaken(s);
      ActionsAlternate(s.disk, Todo(s.process));
    } else if s.process.Starting? || s.process.Recovered? || s.process.Deciding? {
      NothingLeftUnsynced(s.disk);
      PlansAlternate(s);
    } else {
      NoActionLeft(s);
    }
  }

  lemma NothingLeftUnsynced(d: Disk)
    requires OneAtATime(d, [])
    ensures d.pending == [] && d.adrift == {}
  {
  }

  lemma SyncedIsOneAtATime(d: Disk)
    requires d.pending == [] && d.adrift == {}
    ensures OneAtATime(d, [])
  {
  }

  lemma UnkilledStepSyncs(s: State, step: Step)
    requires Steady(s) && Enabled(s, step) && !step.Kill? && OneAtATime(s.disk, Todo(s.process))
    ensures OneAtATime(Apply(s, step).disk, Todo(Apply(s, step).process))
  {
    hide OneAtATime, Steady, Left;
    match step {
      case Advance => UnkilledAdvanceSyncs(s);
      case PowerLoss(_, _) => SyncedIsOneAtATime(Apply(s, step).disk);
      case _ =>
    }
  }

  lemma OneChangeIsHarmless(d: Disk, todo: seq<Action>, kept: seq<bool>, lost: set<Target>)
    requires OneAtATime(d, todo) && |kept| == |d.pending| && lost <= d.adrift
    ensures Harmless(d, kept, lost)
  {
    hide Alternates, Named;
    SurvivorsWerePending(d.pending, kept);
    if lost != {} {
      assert Kept(d.pending, kept) == [];
    }
  }

  /**
   When no process is killed short of a power loss, at most one change is ever
   unsynced, and every power loss is harmless, whatever it keeps and takes.
   */
  lemma {:induction false} UnkilledRunsNeedNoOrder(ss: seq<State>, steps: seq<Step>, n: nat)
    requires Run(ss, steps) && n < |ss|
    requires forall i | 0 <= i < n :: !steps[i].Kill?
    ensures Steady(ss[n]) && OneAtATime(ss[n].disk, Todo(ss[n].process))
    ensures forall kept, lost | |kept| == |ss[n].disk.pending| && lost <= ss[n].disk.adrift ::
              Harmless(ss[n].disk, kept, lost)
    decreases n
  {
    hide Steady, OneAtATime, Apply, Harmless, Todo;
    if n == 0 {
      StartIsSteady(ss[0]);
      NothingUnsynced(ss[0]);
    } else {
      UnkilledRunsNeedNoOrder(ss, steps, n - 1);
      UnkilledStepSyncs(ss[n - 1], steps[n - 1]);
      StepIsSteady(ss[n - 1], steps[n - 1]);
    }
    forall kept, lost | |kept| == |ss[n].disk.pending| && lost <= ss[n].disk.adrift
      ensures Harmless(ss[n].disk, kept, lost)
    {
      OneChangeIsHarmless(ss[n].disk, Todo(ss[n].process), kept, lost);
    }
  }

  lemma NothingUnsynced(s: State)
    requires s == EMPTY_ROOT
    ensures OneAtATime(s.disk, Todo(s.process))
  {
  }
}
