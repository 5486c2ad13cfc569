/**
 * The change ledger of the architect pipeline: an ordered list of proposed
 * file changes, an id counter, a per-change status machine and the only
 * path to the disk.
 *
 * The value-level functions (FindIndex, SetStatusIfPending, ApplyOne,
 * ApplyAll, RejectPending, PendingChanges) say what each operation does to
 * the list; the class ChangeManager holds the mutable state and its methods
 * are proved against those functions. Events are appended to a log in the
 * order the emitters fire them.
 */
module ChangeLedger {
  import opened Text

  datatype ChangeType = New | Modified | Deleted
  datatype ChangeStatus = Pending | Approved | Rejected | Applied

  datatype FileChange = FileChange(
    id: string,
    filePath: string,
    fileName: string,
    changeType: ChangeType,
    status: ChangeStatus,
    originalContent: Option<string>,
    newContent: string,
    addedLines: int,
    removedLines: int,
    summary: string)

  /** What a caller hands to addChange: a change without its id and status. */
  datatype ChangeDraft = ChangeDraft(
    filePath: string,
    fileName: string,
    changeType: ChangeType,
    originalContent: Option<string>,
    newContent: string,
    addedLines: int,
    removedLines: int,
    summary: string)

  function FromDraft(d: ChangeDraft, id: string, status: ChangeStatus): FileChange {
    FileChange(id, d.filePath, d.fileName, d.changeType, status,
               d.originalContent, d.newContent, d.addedLines, d.removedLines, d.summary)
  }

  /** A write target: the change's relative path resolved against a workspace root. */
  datatype Location = Location(root: string, path: string)

  datatype LedgerEvent =
    | ChangesUpdated(changes: seq<FileChange>)
    | ChangeApplied(change: FileChange)
    | AllChangesApplied

  /** One call of the file-write capability and whether it succeeded. */
  datatype Write = Write(loc: Location, content: string, ok: bool)

  // ---------------------------------------------------------------------
  // Ids
  // ---------------------------------------------------------------------

  /** The id of the n-th change since the last clear: `change-${n}`. */
  function ChangeId(n: nat): string {
    "change-" + NatToString(n)
  }

  lemma ChangeIdInjective(a: nat, b: nat)
    requires ChangeId(a) == ChangeId(b)
    ensures a == b
  {
    assert NatToString(a) == ChangeId(a)[7..];
    assert NatToString(b) == ChangeId(b)[7..];
    NatToStringInjective(a, b);
  }

  /** The ids the ledger holds: the k-th entry carries `change-(k+1)`. */
  ghost predicate NumberedIds(cs: seq<FileChange>) {
    forall k :: 0 <= k < |cs| ==> cs[k].id == ChangeId(k + 1)
  }

  /** Ids issued between two clears are pairwise distinct. */
  lemma NumberedIdsDistinct(cs: seq<FileChange>, i: nat, j: nat)
    requires NumberedIds(cs)
    requires i < j < |cs|
    ensures cs[i].id != cs[j].id
  {
    if cs[i].id == cs[j].id {
      ChangeIdInjective(i + 1, j + 1);
    }
  }

  /** `changes.find(c => c.id === id)`, as the index of the first match. */
  function FindIndex(cs: seq<FileChange>, id: string): (r: Option<nat>)
    ensures r.Some? ==> r.value < |cs| && cs[r.value].id == id
    ensures r.Some? ==> forall j :: 0 <= j < r.value ==> cs[j].id != id
    ensures r.None? ==> forall j :: 0 <= j < |cs| ==> cs[j].id != id
    decreases |cs|
  {
    if cs == [] then None
    else if cs[0].id == id then Some(0)
    else match FindIndex(cs[1..], id)
      case None => None
      case Some(j) => Some(j + 1)
  }

  /** In a ledger with numbered ids, `change-n` is found at index n-1. */
  lemma FindNumbered(cs: seq<FileChange>, n: nat)
    requires NumberedIds(cs)
    requires 1 <= n <= |cs|
    ensures FindIndex(cs, ChangeId(n)) == Some(n - 1)
  {
    var r := FindIndex(cs, ChangeId(n));
    assert cs[n - 1].id == ChangeId(n);
    assert r.Some? && r.value <= n - 1;
    if r.value < n - 1 {
      var v := r.value;
      assert cs[v].id == ChangeId(v + 1);
      ChangeIdInjective(v + 1, n);
    }
  }

  /** A status-only update keeps the numbering. */
  ghost predicate SameButStatus(a: seq<FileChange>, b: seq<FileChange>) {
    |a| == |b| && forall k :: 0 <= k < |a| ==> a[k].(status := b[k].status) == b[k]
  }

  lemma SameButStatusNumbered(a: seq<FileChange>, b: seq<FileChange>)
    requires NumberedIds(a) && SameButStatus(a, b)
    ensures NumberedIds(b)
  {
    forall k | 0 <= k < |b| ensures b[k].id == ChangeId(k + 1) {
      assert a[k].(status := b[k].status) == b[k];
    }
  }

  // ---------------------------------------------------------------------
  // approveChange / rejectChange
  // ---------------------------------------------------------------------

  /**
   * approveChange (to = Approved) and rejectChange (to = Rejected): the
   * change with that id moves to `to` if it is pending; `emitted` says
   * whether the list event fires.
   */
  function SetStatusIfPending(cs: seq<FileChange>, id: string, to: ChangeStatus)
    : (r: (seq<FileChange>, bool))
  {
    match FindIndex(cs, id)
    case None => (cs, false)
    case Some(i) =>
      if cs[i].status == Pending then (cs[i := cs[i].(status := to)], true) else (cs, false)
  }

  /**
   * Only a pending change moves, only to the requested status, only the one
   * with that id, and the event fires exactly when something moved.
   */
  lemma SetStatusIfPendingEffect(cs: seq<FileChange>, id: string, to: ChangeStatus)
    ensures var (r, emitted) := SetStatusIfPending(cs, id, to);
      && SameButStatus(cs, r)
      && (emitted <==> exists k :: 0 <= k < |cs| && cs[k].id == id && cs[k].status == Pending
                                    && forall j :: 0 <= j < k ==> cs[j].id != id)
      && (!emitted ==> r == cs)
      && forall k :: 0 <= k < |cs| ==>
           r[k].status == (if emitted && FindIndex(cs, id) == Some(k) then to else cs[k].status)
  {
    var (r, emitted) := SetStatusIfPending(cs, id, to);
    var f := FindIndex(cs, id);
    if f.Some? && cs[f.value].status == Pending {
      assert r == cs[f.value := cs[f.value].(status := to)];
    } else if f.None? {
      assert forall k :: 0 <= k < |cs| ==> cs[k].id != id;
    } else {
      assert forall k :: 0 <= k < |cs| && cs[k].id == id && (forall j :: 0 <= j < k ==> cs[j].id != id) ==> k == f.value;
    }
  }

  /** A change that is not pending can be neither approved nor rejected. */
  lemma NoMoveFromNonPending(cs: seq<FileChange>, n: nat, to: ChangeStatus)
    requires NumberedIds(cs)
    requires 1 <= n <= |cs| && cs[n - 1].status != Pending
    ensures SetStatusIfPending(cs, ChangeId(n), to) == (cs, false)
  {
    FindNumbered(cs, n);
  }

  // ---------------------------------------------------------------------
  // applyChange / applyAllApproved
  // ---------------------------------------------------------------------

  /** What one call changes: the new list, the events fired, the writes made. */
  datatype Effect = Effect(changes: seq<FileChange>, events: seq<LedgerEvent>, writes: seq<Write>)

  /** A write of `c` reaches the disk: there is a root and the write does not fail. */
  predicate WriteSucceeds(c: FileChange, folders: seq<string>, failing: set<Location>) {
    folders != [] && Location(folders[0], c.filePath) !in failing
  }

  /**
   * applyChange: skipped when the id is missing, the change is already
   * applied or there is no workspace folder; otherwise it writes, and only a
   * successful write marks the change applied and fires change-applied then
   * changes-updated. It does not look at whether the change was approved.
   */
  function ApplyOne(cs: seq<FileChange>, id: string, folders: seq<string>, failing: set<Location>): (e: Effect)
    ensures |e.changes| == |cs|
  {
    match FindIndex(cs, id)
    case None => Effect(cs, [], [])
    case Some(i) =>
      if cs[i].status == Applied || folders == [] then Effect(cs, [], [])
      else
        var loc := Location(folders[0], cs[i].filePath);
        if loc in failing then Effect(cs, [], [Write(loc, cs[i].newContent, false)])
        else
          var c := cs[i].(status := Applied);
          var cs' := cs[i := c];
          Effect(cs', [ChangeApplied(c), ChangesUpdated(cs')], [Write(loc, cs[i].newContent, true)])
  }

  /** The applyChange calls of applyAllApproved, one per id, in order. */
  function ApplyAll(cs: seq<FileChange>, ids: seq<string>, folders: seq<string>, failing: set<Location>): (e: Effect)
    ensures |e.changes| == |cs|
    decreases |ids|
  {
    if ids == [] then Effect(cs, [], [])
    else
      var e := ApplyAll(cs, ids[..|ids| - 1], folders, failing);
      var s := ApplyOne(e.changes, ids[|ids| - 1], folders, failing);
      Effect(s.changes, e.events + s.events, e.writes + s.writes)
  }

  /**
   * applyChange does not look at approval: any change that is not yet
   * applied, a pending or even a rejected one, is applied once its write
   * succeeds.
   */
  lemma ApplyOneIgnoresApproval(cs: seq<FileChange>, id: string, folders: seq<string>, failing: set<Location>, i: nat)
    requires FindIndex(cs, id) == Some(i)
    requires cs[i].status != Applied && WriteSucceeds(cs[i], folders, failing)
    ensures ApplyOne(cs, id, folders, failing).changes == cs[i := cs[i].(status := Applied)]
  {
  }

  /**
   * applyChange in full: nothing happens for a missing id, an applied change
   * or no workspace folder. Otherwise exactly one write of the change's new
   * content goes to the first root joined with its path. A successful write
   * marks only that change applied and fires change-applied, then
   * changes-updated; a failed one leaves the list alone and fires nothing.
   */
  lemma ApplyOneEffect(cs: seq<FileChange>, id: string, folders: seq<string>, failing: set<Location>)
    ensures var e := ApplyOne(cs, id, folders, failing);
      && SameButStatus(cs, e.changes)
      && (forall k :: 0 <= k < |cs| && e.changes[k] != cs[k] ==>
            FindIndex(cs, id) == Some(k) && e.changes[k].status == Applied)
      && (e.changes != cs <==> exists w :: w in e.writes && w.ok)
      && (e.events == [] <==> e.changes == cs)
    ensures var e, f := ApplyOne(cs, id, folders, failing), FindIndex(cs, id);
      f.None? || cs[f.value].status == Applied || folders == [] ==> e == Effect(cs, [], [])
    ensures var e, f := ApplyOne(cs, id, folders, failing), FindIndex(cs, id);
      f.Some? && cs[f.value].status != Applied && folders != [] ==>
        var i, loc := f.value, Location(folders[0], cs[f.value].filePath);
        && e.writes == [Write(loc, cs[i].newContent, loc !in failing)]
        && (loc in failing ==> e.changes == cs && e.events == [])
        && (loc !in failing ==>
              && e.changes == cs[i := cs[i].(status := Applied)]
              && e.events == [ChangeApplied(e.changes[i]), ChangesUpdated(e.changes)])
  {
    var e := ApplyOne(cs, id, folders, failing);
    match FindIndex(cs, id)
    case None =>
    case Some(i) =>
      if cs[i].status != Applied && folders != [] && Location(folders[0], cs[i].filePath) !in failing {
        assert e.changes[i] != cs[i];
      }
  }

  /** The ids applyAllApproved iterates over: those of `changes.filter(c => c.status === 'approved')`. */
  function ApprovedIds(cs: seq<FileChange>): (ids: seq<string>)
    decreases |cs|
  {
    if cs == [] then []
    else
      var c := cs[|cs| - 1];
      ApprovedIds(cs[..|cs| - 1]) + (if c.status == Approved then [c.id] else [])
  }

  /** The write applyChange makes for `c`, if there is a root. */
  function WriteFor(c: FileChange, folders: seq<string>, failing: set<Location>): seq<Write> {
    if folders == [] then []
    else [Write(Location(folders[0], c.filePath), c.newContent, Location(folders[0], c.filePath) !in failing)]
  }

  /**
   * Reference outcome of applyAllApproved: each change approved at call time
   * is applied exactly when its write succeeds; every other change is as it was.
   */
  function Outcome(cs: seq<FileChange>, folders: seq<string>, failing: set<Location>): (r: seq<FileChange>)
    ensures |r| == |cs|
    ensures forall k :: 0 <= k < |cs| ==>
              r[k] == if cs[k].status == Approved && WriteSucceeds(cs[k], folders, failing)
                      then cs[k].(status := Applied) else cs[k]
  {
    seq(|cs|, k requires 0 <= k < |cs| =>
      if cs[k].status == Approved && WriteSucceeds(cs[k], folders, failing)
      then cs[k].(status := Applied) else cs[k])
  }

  /** Reference writes of applyAllApproved: one per approved change, in list order. */
  function ApprovedWrites(cs: seq<FileChange>, folders: seq<string>, failing: set<Location>): seq<Write>
    decreases |cs|
  {
    if cs == [] then []
    else
      var c := cs[|cs| - 1];
      ApprovedWrites(cs[..|cs| - 1], folders, failing) + (if c.status == Approved then WriteFor(c, folders, failing) else [])
  }

  /** Unfolding ApplyAll by one more id. */
  lemma ApplyAllSnoc(cs: seq<FileChange>, ids: seq<string>, n: nat, folders: seq<string>, failing: set<Location>)
    requires n < |ids|
    ensures var e := ApplyAll(cs, ids[..n], folders, failing);
      var s := ApplyOne(e.changes, ids[n], folders, failing);
      ApplyAll(cs, ids[..n + 1], folders, failing) == Effect(s.changes, e.events + s.events, e.writes + s.writes)
  {
    assert ids[..n + 1][..n] == ids[..n];
  }

  /** Appending a change with another id does not change where an id is found. */
  lemma {:induction false} FindIndexSnoc(cs: seq<FileChange>, c: FileChange, id: string)
    requires c.id != id
    ensures FindIndex(cs + [c], id) == FindIndex(cs, id)
    decreases |cs|
  {
    if cs != [] {
      assert (cs + [c])[1..] == cs[1..] + [c];
      FindIndexSnoc(cs[1..], c, id);
    }
  }

  /** A change whose id occurs nowhere before it is found at its own position. */
  lemma FindIndexLast(cs: seq<FileChange>, c: FileChange)
    requires forall k :: 0 <= k < |cs| ==> cs[k].id != c.id
    ensures FindIndex(cs + [c], c.id) == Some(|cs|)
  {
    var r := FindIndex(cs + [c], c.id);
    assert (cs + [c])[|cs|] == c;
  }

  /** applyChange with an id other than the last change's does not touch the last change. */
  lemma ApplyOneSnoc(cs: seq<FileChange>, c: FileChange, id: string, folders: seq<string>, failing: set<Location>)
    requires c.id != id
    ensures ApplyOne(cs + [c], id, folders, failing).changes == ApplyOne(cs, id, folders, failing).changes + [c]
    ensures ApplyOne(cs + [c], id, folders, failing).writes == ApplyOne(cs, id, folders, failing).writes
  {
    FindIndexSnoc(cs, c, id);
    match FindIndex(cs, id)
    case None =>
    case Some(i) =>
      assert (cs + [c])[i] == cs[i];
      assert (cs + [c])[i := cs[i].(status := Applied)] == cs[i := cs[i].(status := Applied)] + [c];
  }

  /** Applying ids that all differ from the last change's id leaves that change alone. */
  lemma {:induction false} ApplyAllSnocChange(cs: seq<FileChange>, c: FileChange, ids: seq<string>,
                                              folders: seq<string>, failing: set<Location>)
    requires forall t :: 0 <= t < |ids| ==> ids[t] != c.id
    ensures ApplyAll(cs + [c], ids, folders, failing).changes == ApplyAll(cs, ids, folders, failing).changes + [c]
    ensures ApplyAll(cs + [c], ids, folders, failing).writes == ApplyAll(cs, ids, folders, failing).writes
    decreases |ids|
  {
    if ids != [] {
      var m := |ids| - 1;
      ApplyAllSnocChange(cs, c, ids[..m], folders, failing);
      var e := ApplyAll(cs, ids[..m], folders, failing);
      ApplyOneSnoc(e.changes, c, ids[m], folders, failing);
    }
  }

  /** Every approved id is the id of some change of the list. */
  lemma {:induction false} ApprovedIdsAvoid(cs: seq<FileChange>, x: string)
    requires forall k :: 0 <= k < |cs| ==> cs[k].id != x
    ensures forall t :: 0 <= t < |ApprovedIds(cs)| ==> ApprovedIds(cs)[t] != x
    decreases |cs|
  {
    if cs != [] {
      ApprovedIdsAvoid(cs[..|cs| - 1], x);
    }
  }

  /** Splitting a list into its front and its last change. */
  lemma OutcomeSnoc(cs: seq<FileChange>, c: FileChange, folders: seq<string>, failing: set<Location>)
    ensures Outcome(cs + [c], folders, failing) == Outcome(cs, folders, failing) + Outcome([c], folders, failing)
  {
    var l := Outcome(cs + [c], folders, failing);
    var r := Outcome(cs, folders, failing) + Outcome([c], folders, failing);
    forall k | 0 <= k < |l| ensures l[k] == r[k] {
      if k < |cs| {
        assert (cs + [c])[k] == cs[k];
      } else {
        assert (cs + [c])[k] == c;
      }
    }
  }

  /** The approved change at the end of the list, applied after all the others. */
  lemma ApplyLastApproved(cs: seq<FileChange>, c: FileChange, folders: seq<string>, failing: set<Location>)
    requires c.status == Approved
    requires forall k :: 0 <= k < |cs| ==> cs[k].id != c.id
    ensures ApplyOne(cs + [c], c.id, folders, failing).changes == cs + Outcome([c], folders, failing)
    ensures ApplyOne(cs + [c], c.id, folders, failing).writes == WriteFor(c, folders, failing)
  {
    FindIndexLast(cs, c);
    assert (cs + [c])[|cs|] == c;
    if WriteSucceeds(c, folders, failing) {
      assert (cs + [c])[|cs| := c.(status := Applied)] == cs + [c.(status := Applied)];
    }
  }

  /** The front of a numbered list is numbered, and no id in it repeats the last one. */
  lemma NumberedFront(cs: seq<FileChange>)
    requires NumberedIds(cs) && cs != []
    ensures var n := |cs| - 1;
      && NumberedIds(cs[..n])
      && forall k :: 0 <= k < n ==> cs[..n][k].id != cs[n].id
  {
    var n := |cs| - 1;
    forall k | 0 <= k < n ensures cs[..n][k].id != cs[n].id {
      if cs[k].id == cs[n].id {
        ChangeIdInjective(k + 1, n + 1);
      }
    }
  }

  /** The inductive step of ApplyAllApprovedOutcome: the last change, after all the others. */
  lemma ApplyAllApprovedSnoc(cs: seq<FileChange>, folders: seq<string>, failing: set<Location>)
    requires cs != []
    requires var p, c := cs[..|cs| - 1], cs[|cs| - 1];
      && (forall k :: 0 <= k < |p| ==> p[k].id != c.id)
      && ApplyAll(p, ApprovedIds(p), folders, failing).changes == Outcome(p, folders, failing)
      && ApplyAll(p, ApprovedIds(p), folders, failing).writes == ApprovedWrites(p, folders, failing)
    ensures ApplyAll(cs, ApprovedIds(cs), folders, failing).changes == Outcome(cs, folders, failing)
    ensures ApplyAll(cs, ApprovedIds(cs), folders, failing).writes == ApprovedWrites(cs, folders, failing)
  {
    var p, c := cs[..|cs| - 1], cs[|cs| - 1];
    assert cs == p + [c];
    ApprovedSnoc(p, c, folders, failing);
    ApprovedIdsAvoid(p, c.id);
    ApplyAllSnocChange(p, c, ApprovedIds(p), folders, failing);
    OutcomeSnoc(p, c, folders, failing);
    if c.status == Approved {
      ApplyAllLastApproved(p, c, folders, failing);
    } else {
      assert Outcome([c], folders, failing) == [c];
    }
  }

  /** The approved ids and the writes of a list with one more change. */
  lemma ApprovedSnoc(p: seq<FileChange>, c: FileChange, folders: seq<string>, failing: set<Location>)
    ensures c.status == Approved ==> ApprovedIds(p + [c]) == ApprovedIds(p) + [c.id]
    ensures c.status == Approved ==>
      ApprovedWrites(p + [c], folders, failing) == ApprovedWrites(p, folders, failing) + WriteFor(c, folders, failing)
    ensures c.status != Approved ==> ApprovedIds(p + [c]) == ApprovedIds(p)
    ensures c.status != Approved ==> ApprovedWrites(p + [c], folders, failing) == ApprovedWrites(p, folders, failing)
  {
    assert (p + [c])[..|p|] == p;
  }

  /** The approved branch of ApplyAllApprovedSnoc. */
  lemma ApplyAllLastApproved(p: seq<FileChange>, c: FileChange, folders: seq<string>, failing: set<Location>)
    requires c.status == Approved
    requires forall k :: 0 <= k < |p| ==> p[k].id != c.id
    requires ApplyAll(p + [c], ApprovedIds(p), folders, failing).changes == Outcome(p, folders, failing) + [c]
    ensures var ids := ApprovedIds(p) + [c.id];
      && ApplyAll(p + [c], ids, folders, failing).changes == Outcome(p, folders, failing) + Outcome([c], folders, failing)
      && ApplyAll(p + [c], ids, folders, failing).writes
         == ApplyAll(p + [c], ApprovedIds(p), folders, failing).writes + WriteFor(c, folders, failing)
  {
    var ids0 := ApprovedIds(p);
    var ids := ids0 + [c.id];
    assert ids[..|ids0|] == ids0;
    var o := Outcome(p, folders, failing);
    assert forall k :: 0 <= k < |o| ==> o[k].id == p[k].id;
    ApplyLastApproved(o, c, folders, failing);
  }

  /**
   * applyAllApproved on the list: every change approved at call time is
   * attempted once, in list order, and ends applied exactly when its write
   * succeeded; every other change is untouched.
   */
  lemma {:induction false} ApplyAllApprovedOutcome(cs: seq<FileChange>, folders: seq<string>, failing: set<Location>)
    requires NumberedIds(cs)
    ensures ApplyAll(cs, ApprovedIds(cs), folders, failing).changes == Outcome(cs, folders, failing)
    ensures ApplyAll(cs, ApprovedIds(cs), folders, failing).writes == ApprovedWrites(cs, folders, failing)
    decreases |cs|
  {
    if cs == [] {
      assert Outcome(cs, folders, failing) == [];
    } else {
      var n := |cs| - 1;
      NumberedFront(cs);
      ApplyAllApprovedOutcome(cs[..n], folders, failing);
      ApplyAllApprovedSnoc(cs, folders, failing);
    }
  }

  /** applyAllApproved never writes a change that was not approved at call time. */
  lemma ApplyAllOnlyApproved(cs: seq<FileChange>, folders: seq<string>, failing: set<Location>, k: nat)
    requires NumberedIds(cs)
    requires k < |cs| && cs[k].status != Approved
    ensures ApplyAll(cs, ApprovedIds(cs), folders, failing).changes[k] == cs[k]
  {
    ApplyAllApprovedOutcome(cs, folders, failing);
  }

  // ---------------------------------------------------------------------
  // rejectAll, getPendingChanges
  // ---------------------------------------------------------------------

  function RejectIfPending(c: FileChange): FileChange {
    if c.status == Pending then c.(status := Rejected) else c
  }

  /** rejectAll on the list: every pending change becomes rejected. */
  function RejectPending(cs: seq<FileChange>): (r: seq<FileChange>) {
    seq(|cs|, k requires 0 <= k < |cs| => RejectIfPending(cs[k]))
  }

  /** `changes.filter(c => c.status === 'pending')`. */
  function PendingChanges(cs: seq<FileChange>): (r: seq<FileChange>)
    decreases |cs|
  {
    if cs == [] then []
    else PendingChanges(cs[..|cs| - 1]) + (if cs[|cs| - 1].status == Pending then [cs[|cs| - 1]] else [])
  }

  /** The pending filter keeps exactly the pending changes. */
  lemma {:induction false} PendingChangesMembers(cs: seq<FileChange>, c: FileChange)
    ensures c in PendingChanges(cs) <==> c in cs && c.status == Pending
    decreases |cs|
  {
    if cs != [] {
      PendingChangesMembers(cs[..|cs| - 1], c);
      assert cs == cs[..|cs| - 1] + [cs[|cs| - 1]];
    }
  }

  lemma PendingChangesExactly(cs: seq<FileChange>)
    ensures forall c :: c in PendingChanges(cs) <==> c in cs && c.status == Pending
  {
    forall c ensures c in PendingChanges(cs) <==> c in cs && c.status == Pending {
      PendingChangesMembers(cs, c);
    }
  }

  /** The pending filter keeps list order: it distributes over concatenation. */
  lemma {:induction false} PendingChangesAppend(a: seq<FileChange>, b: seq<FileChange>)
    ensures PendingChanges(a + b) == PendingChanges(a) + PendingChanges(b)
    decreases |b|
  {
    if b != [] {
      var n := |b| - 1;
      assert (a + b)[..|a + b| - 1] == a + b[..n];
      PendingChangesAppend(a, b[..n]);
    } else {
      assert a + b == a;
    }
  }

  /**
   * rejectAll leaves no pending change, leaves approved, applied and
   * rejected changes as they were, and doing it twice is doing it once.
   */
  lemma RejectPendingEffect(cs: seq<FileChange>)
    ensures PendingChanges(RejectPending(cs)) == []
    ensures SameButStatus(cs, RejectPending(cs))
    ensures forall k :: 0 <= k < |cs| && cs[k].status != Pending ==> RejectPending(cs)[k] == cs[k]
    ensures RejectPending(RejectPending(cs)) == RejectPending(cs)
  {
    var r := RejectPending(cs);
    if PendingChanges(r) != [] {
      var c := PendingChanges(r)[0];
      PendingChangesMembers(r, c);
    }
  }

  // ---------------------------------------------------------------------
  // The service
  // ---------------------------------------------------------------------

  /**
   * The service. `writes` is the trace of write attempts on the workspace
   * file system, in order; which of them fail is the environment's choice,
   * passed to the applying methods as the set `failing` of locations whose
   * write throws.
   */
  class ChangeManager {
    var changes: seq<FileChange>
    var idCounter: nat
    var events: seq<LedgerEvent>
    var writes: seq<Write>

    /** The counter is the number of changes since the last clear, and ids are numbered by it. */
    ghost predicate Valid()
      reads this
    {
      |changes| == idCounter && NumberedIds(changes)
    }

    constructor ()
      ensures Valid() && changes == [] && idCounter == 0 && events == [] && writes == []
    {
      changes, idCounter, events, writes := [], 0, [], [];
    }

    /** addChange: `change-N` with the incremented counter, pending, appended at the end. */
    method AddChange(d: ChangeDraft) returns (c: FileChange)
      requires Valid()
      modifies this
      ensures Valid()
      ensures idCounter == old(idCounter) + 1
      ensures c == FromDraft(d, ChangeId(idCounter), Pending)
      ensures changes == old(changes) + [c]
      ensures events == old(events) + [ChangesUpdated(changes)]
      ensures writes == old(writes)
    {
      idCounter := idCounter + 1;
      c := FromDraft(d, ChangeId(idCounter), Pending);
      changes := changes + [c];
      events := events + [ChangesUpdated(changes)];
    }

    method ApproveChange(id: string)
      requires Valid()
      modifies this
      ensures Valid() && idCounter == old(idCounter) && writes == old(writes)
      ensures var (r, emitted) := SetStatusIfPending(old(changes), id, Approved);
        changes == r && events == old(events) + (if emitted then [ChangesUpdated(r)] else [])
    {
      SetStatus(id, Approved);
    }

    method RejectChange(id: string)
      requires Valid()
      modifies this
      ensures Valid() && idCounter == old(idCounter) && writes == old(writes)
      ensures var (r, emitted) := SetStatusIfPending(old(changes), id, Rejected);
        changes == r && events == old(events) + (if emitted then [ChangesUpdated(r)] else [])
    {
      SetStatus(id, Rejected);
    }

    method SetStatus(id: string, to: ChangeStatus)
      requires Valid()
      modifies this
      ensures Valid() && idCounter == old(idCounter) && writes == old(writes)
      ensures var (r, emitted) := SetStatusIfPending(old(changes), id, to);
        changes == r && events == old(events) + (if emitted then [ChangesUpdated(r)] else [])
    {
      var found := FindIndex(changes, id);
      if found.Some? && changes[found.value].status == Pending {
        var i := found.value;
        changes := changes[i := changes[i].(status := to)];
        events := events + [ChangesUpdated(changes)];
      }
      SetStatusIfPendingEffect(old(changes), id, to);
      SameButStatusNumbered(old(changes), changes);
    }

    /** applyChange against the workspace folders of the moment. */
    method ApplyChange(id: string, folders: seq<string>, failing: set<Location>)
      requires Valid()
      modifies this
      ensures Valid() && idCounter == old(idCounter)
      ensures var e := ApplyOne(old(changes), id, folders, failing);
        && changes == e.changes
        && events == old(events) + e.events
        && writes == old(writes) + e.writes
    {
      var found := FindIndex(changes, id);
      if found.None? || changes[found.value].status == Applied {
        return;
      }
      if |folders| == 0 {
        return;
      }
      var i := found.value;
      var loc := Location(folders[0], changes[i].filePath);
      var ok := loc !in failing;
      writes := writes + [Write(loc, changes[i].newContent, ok)];
      if ok {
        var c := changes[i].(status := Applied);
        changes := changes[i := c];
        events := events + [ChangeApplied(c)];
        events := events + [ChangesUpdated(changes)];
      }
      ApplyOneEffect(old(changes), id, folders, failing);
      SameButStatusNumbered(old(changes), changes);
    }

    /** applyAllApproved: apply each change approved at call time, then fire all-applied once. */
    method ApplyAllApproved(folders: seq<string>, failing: set<Location>)
      requires Valid()
      modifies this
      ensures Valid() && idCounter == old(idCounter)
      ensures var e := ApplyAll(old(changes), ApprovedIds(old(changes)), folders, failing);
        && changes == e.changes
        && events == old(events) + e.events + [AllChangesApplied]
        && writes == old(writes) + e.writes
    {
      var ids := ApprovedIds(changes);
      var i := 0;
      ghost var acc := Effect(changes, [], []);
      assert ids[..0] == [];
      while i < |ids|
        invariant 0 <= i <= |ids|
        invariant Valid() && idCounter == old(idCounter)
        invariant acc == ApplyAll(old(changes), ids[..i], folders, failing)
        invariant changes == acc.changes
        invariant events == old(events) + acc.events
        invariant writes == old(writes) + acc.writes
      {
        ghost var step := ApplyOne(changes, ids[i], folders, failing);
        ApplyAllSnoc(old(changes), ids, i, folders, failing);
        AppendAssoc(old(events), acc.events, step.events);
        AppendAssoc(old(writes), acc.writes, step.writes);
        ApplyChange(ids[i], folders, failing);
        acc := Effect(step.changes, acc.events + step.events, acc.writes + step.writes);
        i := i + 1;
      }
      assert ids[..i] == ids;
      events := events + [AllChangesApplied];
    }

    /** rejectAll: every pending change becomes rejected; the list event always fires. */
    method RejectAll()
      requires Valid()
      modifies this
      ensures Valid() && idCounter == old(idCounter) && writes == old(writes)
      ensures changes == RejectPending(old(changes))
      ensures events == old(events) + [ChangesUpdated(changes)]
    {
      var i := 0;
      while i < |changes|
        invariant 0 <= i <= |changes| == |old(changes)|
        invariant forall k :: 0 <= k < i ==> changes[k] == RejectIfPending(old(changes)[k])
        invariant forall k :: i <= k < |changes| ==> changes[k] == old(changes)[k]
        invariant events == old(events) && writes == old(writes)
        invariant idCounter == old(idCounter)
      {
        if changes[i].status == Pending {
          changes := changes[i := changes[i].(status := Rejected)];
        }
        i := i + 1;
      }
      RejectPendingEffect(old(changes));
      SameButStatusNumbered(old(changes), changes);
      events := events + [ChangesUpdated(changes)];
    }

    /** getChanges: a copy of the list. */
    function GetChanges(): (r: seq<FileChange>)
      reads this
      ensures |r| == |changes| && forall k :: 0 <= k < |r| ==> r[k] == changes[k]
    {
      changes
    }

    /** getPendingChanges: the pending changes, in list order. */
    function GetPendingChanges(): (r: seq<FileChange>)
      reads this
      ensures forall c :: c in r <==> c in changes && c.status == Pending
      ensures r == PendingChanges(changes)
    {
      PendingChangesExactly(changes);
      PendingChanges(changes)
    }

    /** clearChanges: empty list, counter reset (the next id is change-1), list event. */
    method ClearChanges()
      modifies this
      ensures Valid() && writes == old(writes)
      ensures changes == [] && idCounter == 0
      ensures events == old(events) + [ChangesUpdated([])]
    {
      changes := [];
      idCounter := 0;
      events := events + [ChangesUpdated(changes)];
    }
  }
}
