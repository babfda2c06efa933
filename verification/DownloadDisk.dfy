/** The free-space floor: between two readings of the free space, the transfers in progress can only
    eat one check interval each below it. */
module DownloadDisk {
  import opened Base64
  import opened Bytes
  import opened Sums
  import opened DownloadModel
  import opened DownloadBudget

  /** Does this operation get as far as writing a decoded chunk? */
  ghost predicate Writes(s: Store, op: Op) {
    && op.DoChunk? && op.f in s.dl && s.dl[op.f].peer == op.peer && !TotalRefused(s, op.f, op.total, op.cenv)
    && Decode(op.data).Some?
    && !WriteRefused(s.limits, WithTotal(s, op.f, op.total).dl[op.f], |Decode(op.data).value|, op.cenv.(writes := true))
  }

  /** Bytes this operation tries to put on the disk. */
  ghost function Spent(s: Store, op: Op): nat {
    if Writes(s, op) then |Decode(op.data).value| else 0
  }

  /** Attachments are the only writers: the free space is what the readings say, and goes down by at
      most the bytes written. Removing and replacing files can only raise it. */
  ghost predicate DiskMoves(s: Store, op: Op, free: int, free': int) {
    && free' >= free - Spent(s, op)
    && match op
       case DoBegin(_, env) => env.free.Some? ==> free <= env.free.value <= free'
       case DoChunk(_, _, _, _, env) =>
         && (env.freeAtTotal.Some? ==> env.freeAtTotal.value == free)
         && (env.freeAtWrite.Some? ==> env.freeAtWrite.value == free)
       case _ => true
  }

  ghost predicate FloorKept(s: Store, op: Op) {
    op.DoLimits? ==> ApplyConfig(s.limits, op.config).minFree == s.limits.minFree
  }

  /** `since` counts, for every transfer seen since the last successful reading, the bytes it has
      written unread. */
  ghost predicate FloorInv(s: Store, free: int, since: map<FileId, int>) {
    && |since| <= MAX_CONCURRENT && s.dl.Keys <= since.Keys
    && free >= s.limits.minFree - SumBy(since, Same)
    && (forall f | f in since :: 0 <= since[f] <= CHECK_INTERVAL)
    && forall f | f in s.dl :: s.dl[f].nextCheck <= s.dl[f].written - since[f] + CHECK_INTERVAL
  }

  function Same(n: int): int { n }

  ghost function AllRead(s: Store): map<FileId, int> { map f | f in s.dl :: 0 }

  lemma {:induction false} NothingUnread(s: Store)
    ensures SumBy(AllRead(s), Same) <= 0 && |AllRead(s)| == |s.dl|
  {
    assert AllRead(s).Keys == s.dl.Keys;
    SumAtMost(AllRead(s), Same, 0);
  }

  lemma {:induction false} CountStep(s: Store, op: Op, hash: seq<byte> -> string)
    requires |s.dl| <= MAX_CONCURRENT
    ensures |Apply(s, op, hash).dl| <= MAX_CONCURRENT
  {
    var s' := Apply(s, op, hash);
    match op
    case DoBegin(q, env) =>
      var purged := PurgeStale(s, env.now);
      SubsetSize(purged.dl.Keys, s.dl.Keys);
      if BeginVerdict(purged, q, env) == Accepted {
        SubsetSize(s'.dl.Keys, purged.dl.Keys + {q.fileId});
      }
    case _ => SubsetSize(s'.dl.Keys, s.dl.Keys);
  }

  /** A transfer is only begun over a disk that is above the floor. */
  lemma {:induction false} BeginReadsTheDisk(s: Store, op: Op, free: int, free': int, hash: seq<byte> -> string)
    requires EntriesOk(s) && |s.dl| <= MAX_CONCURRENT && 0 <= s.limits.maxBytes && 0 <= s.limits.maxReserved
    requires op.DoBegin? && Begin(s, op.q, op.benv).1 == Accepted && DiskMoves(s, op, free, free')
    ensures var s' := Apply(s, op, hash); FloorInv(s', free', AllRead(s'))
  {
    var s' := Apply(s, op, hash);
    var purged := PurgeStale(s, op.benv.now);
    CountStep(s, op, hash);
    NothingUnread(s');
    StepKeepsCaps(s, op, hash);
    forall f | f in s'.dl ensures s'.dl[f].nextCheck <= s'.dl[f].written + CHECK_INTERVAL { assert EntryOk(s'.dl[f]); }
    assert op.benv.free.Some? && op.benv.free.value >= purged.limits.minFree;
    forall f | f in s'.dl ensures AllRead(s')[f] == 0 {}
    SumNonNegative(AllRead(s'), Same);
  }

  lemma {:induction false} QuietStep(s: Store, s': Store, free: int, free': int, since: map<FileId, int>)
    requires FloorInv(s, free, since) && free' >= free && s'.limits.minFree == s.limits.minFree
    requires s'.dl.Keys <= s.dl.Keys
    requires forall f | f in s'.dl :: s'.dl[f].written == s.dl[f].written && s'.dl[f].nextCheck == s.dl[f].nextCheck
    ensures FloorInv(s', free', since)
  {
  }

  lemma {:induction false} UnreadWrite(s: Store, f: FileId, more: nat, since: map<FileId, int>)
    requires |since| <= MAX_CONCURRENT && f in since && f in s.dl
    ensures SumBy(since[f := since[f] + more], Same) == SumBy(since, Same) + more
    ensures |since[f := since[f] + more]| == |since|
  {
    SumUpdate(since, Same, f, since[f] + more);
    assert since[f := since[f] + more].Keys == since.Keys;
  }

  /** A chunk that reaches the write: it reads the disk first, or it is counted as unread. */
  lemma {:induction false} WriteStep(
      s: Store, op: Op, free: int, free': int, since: map<FileId, int>, hash: seq<byte> -> string)
    returns (since': map<FileId, int>)
    requires EntriesOk(s) && |s.dl| <= MAX_CONCURRENT && 0 <= s.limits.maxBytes && 0 <= s.limits.maxReserved
    requires FloorInv(s, free, since) && DiskMoves(s, op, free, free')
    requires Writes(s, op)
    ensures FloorInv(Apply(s, op, hash), free', since')
  {
    var f, s' := op.f, Apply(s, op, hash);
    var more := Spent(s, op);
    var d := WithTotal(s, f, op.total).dl[f];
    assert EntryOk(s.dl[f]);
    if NeedsProbe(d, more) {
      since' := AllRead(s');
      CountStep(s, op, hash);
      NothingUnread(s');
      StepKeepsCaps(s, op, hash);
      forall g | g in s'.dl ensures s'.dl[g].nextCheck <= s'.dl[g].written + CHECK_INTERVAL {
        assert EntryOk(s'.dl[g]);
      }
      assert free - more >= s.limits.minFree;
      SumNonNegative(AllRead(s'), Same);
    } else {
      UnreadWrite(s, f, more, since);
      since' := since[f := since[f] + more];
      assert s'.dl.Keys <= s.dl.Keys;
      forall g | g in s'.dl ensures s'.dl[g].nextCheck <= s'.dl[g].written - since'[g] + CHECK_INTERVAL {
        if g != f { assert s'.dl[g] == s.dl[g]; }
      }
    }
  }

  lemma {:induction false} FloorStep(
      s: Store, op: Op, free: int, free': int, since: map<FileId, int>, hash: seq<byte> -> string)
    returns (since': map<FileId, int>)
    requires EntriesOk(s) && |s.dl| <= MAX_CONCURRENT && 0 <= s.limits.maxBytes && 0 <= s.limits.maxReserved
    requires FloorInv(s, free, since) && DiskMoves(s, op, free, free') && FloorKept(s, op)
    ensures FloorInv(Apply(s, op, hash), free', since')
  {
    var s' := Apply(s, op, hash);
    since' := since;
    if op.DoBegin? && Begin(s, op.q, op.benv).1 == Accepted {
      BeginReadsTheDisk(s, op, free, free', hash);
      since' := AllRead(s');
    } else if Writes(s, op) {
      since' := WriteStep(s, op, free, free', since, hash);
    } else {
      QuietOps(s, op, hash);
      QuietStep(s, s', free, free', since);
    }
  }

  /** Operations that write nothing leave every transfer's progress alone. */
  lemma {:induction false} QuietOps(s: Store, op: Op, hash: seq<byte> -> string)
    requires !Writes(s, op) && FloorKept(s, op)
    requires op.DoBegin? ==> Begin(s, op.q, op.benv).1 != Accepted
    ensures var s' := Apply(s, op, hash);
            && s'.limits.minFree == s.limits.minFree && s'.dl.Keys <= s.dl.Keys
            && forall f | f in s'.dl :: s'.dl[f].written == s.dl[f].written && s'.dl[f].nextCheck == s.dl[f].nextCheck
  {
  }

  // ---------------------------------------------------------------------------------------------
  // Runs
  // ---------------------------------------------------------------------------------------------

  lemma {:induction false} Counts(states: seq<Store>, ops: seq<Op>, hash: seq<byte> -> string, k: nat)
    requires IsRun(states, ops, hash) && k < |states|
    ensures |states[k].dl| <= MAX_CONCURRENT
  {
    if k > 0 {
      Counts(states, ops, hash, k - 1);
      assert StepAt(states, ops, hash, k - 1);
      CountStep(states[k - 1], ops[k - 1], hash);
    }
  }

  /** The k-th operation moves the disk as it may, and from `j` on none changes the floor. */
  ghost predicate DiskStepAt(states: seq<Store>, ops: seq<Op>, free: seq<int>, j: nat, k: int)
    requires 0 <= k < |ops| && |free| == |states| == |ops| + 1
  {
    DiskMoves(states[k], ops[k], free[k], free[k + 1]) && (j <= k ==> FloorKept(states[k], ops[k]))
  }

  ghost predicate DiskRun(states: seq<Store>, ops: seq<Op>, hash: seq<byte> -> string, free: seq<int>, j: nat) {
    IsRun(states, ops, hash) && |free| == |states| && forall k | 0 <= k < |ops| :: DiskStepAt(states, ops, free, j, k)
  }

  /** The k-th step of such a run, from a store in order. */
  ghost predicate DiskTurn(s: Store, op: Op, s': Store, free: int, free': int, hash: seq<byte> -> string) {
    && EntriesOk(s) && |s.dl| <= MAX_CONCURRENT && 0 <= s.limits.maxBytes && 0 <= s.limits.maxReserved
    && s' == Apply(s, op, hash) && DiskMoves(s, op, free, free')
  }

  lemma {:induction false} TurnOf(
      states: seq<Store>, ops: seq<Op>, hash: seq<byte> -> string, free: seq<int>, j: nat, k: nat)
    requires DiskRun(states, ops, hash, free, j) && k < |ops|
    ensures DiskTurn(states[k], ops[k], states[k + 1], free[k], free[k + 1], hash)
    ensures j <= k ==> FloorKept(states[k], ops[k])
  {
    assert StepAt(states, ops, hash, k) && DiskStepAt(states, ops, free, j, k);
    Counts(states, ops, hash, k);
    CapsSurviveAnyLimits(states, ops, hash, k);
  }

  ghost predicate Begun(s: Store, op: Op) { op.DoBegin? && Begin(s, op.q, op.benv).1 == Accepted }

  lemma {:induction false} FirstTurn(
      states: seq<Store>, ops: seq<Op>, hash: seq<byte> -> string, free: seq<int>, j: nat)
    requires DiskRun(states, ops, hash, free, j) && j < |ops| && Begun(states[j], ops[j])
    ensures FloorInv(states[j + 1], free[j + 1], AllRead(states[j + 1]))
    ensures states[j + 1].limits.minFree == states[j].limits.minFree
  {
    TurnOf(states, ops, hash, free, j, j);
    BeginReadsTheDisk(states[j], ops[j], free[j], free[j + 1], hash);
  }

  lemma {:induction false} LaterTurn(
      states: seq<Store>, ops: seq<Op>, hash: seq<byte> -> string, free: seq<int>, j: nat, k: nat,
      since: map<FileId, int>)
    returns (since': map<FileId, int>)
    requires DiskRun(states, ops, hash, free, j) && j <= k < |ops| && FloorInv(states[k], free[k], since)
    ensures FloorInv(states[k + 1], free[k + 1], since')
    ensures states[k + 1].limits.minFree == states[k].limits.minFree
  {
    TurnOf(states, ops, hash, free, j, k);
    since' := FloorStep(states[k], ops[k], free[k], free[k + 1], since, hash);
    FloorUnmoved(states[k], ops[k], hash);
  }

  lemma {:induction false} FloorUnmoved(s: Store, op: Op, hash: seq<byte> -> string)
    requires FloorKept(s, op)
    ensures Apply(s, op, hash).limits.minFree == s.limits.minFree
  {
  }

  lemma {:induction false} FloorHolds(
      states: seq<Store>, ops: seq<Op>, hash: seq<byte> -> string, free: seq<int>, j: nat, i: nat, k: nat,
      since: map<FileId, int>)
    requires DiskRun(states, ops, hash, free, j) && j < i <= k < |states| && FloorInv(states[i], free[i], since)
    ensures free[k] >= states[i].limits.minFree - MAX_CONCURRENT * CHECK_INTERVAL
    decreases k - i
  {
    hide Apply;
    if i == k { AtMostOneIntervalEach(states[k], free[k], since); }
    else {
      var since' := LaterTurn(states, ops, hash, free, j, i, since);
      FloorHolds(states, ops, hash, free, j, i + 1, k, since');
    }
  }

  lemma {:induction false} AtMostOneIntervalEach(s: Store, free: int, since: map<FileId, int>)
    requires FloorInv(s, free, since)
    ensures free >= s.limits.minFree - MAX_CONCURRENT * CHECK_INTERVAL
  {
    SumAtMost(since, Same, CHECK_INTERVAL);
    assert |since| * CHECK_INTERVAL <= MAX_CONCURRENT * CHECK_INTERVAL;
  }

  /** Once any transfer has begun, whatever the order of begins, chunks, finishes and aborts after it,
      the free space stays above the keep-free floor less one check interval for each of the eight
      transfers there can be. */
  lemma {:induction false} FreeSpaceStaysNearTheFloor(
      states: seq<Store>, ops: seq<Op>, hash: seq<byte> -> string, free: seq<int>, j: nat, k: nat)
    requires DiskRun(states, ops, hash, free, j) && j < k < |states| && Begun(states[j], ops[j])
    ensures free[k] >= states[j].limits.minFree - MAX_CONCURRENT * CHECK_INTERVAL
  {
    hide Apply, Begin;
    FirstTurn(states, ops, hash, free, j);
    FloorHolds(states, ops, hash, free, j, j + 1, k, AllRead(states[j + 1]));
  }
}
