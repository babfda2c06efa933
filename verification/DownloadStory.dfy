/** What a transfer's entry says at any moment is what its run says: the first digest and the first size
    that were announced, the bytes accepted, and when it was last active. From this, exactly how every
    transfer begins and ends. */
module DownloadStory {
  import opened Base64
  import opened Bytes
  import opened Options
  import opened DownloadModel
  import opened DownloadBudget
  import opened DownloadTransfer

  // ---------------------------------------------------------------------------------------------
  // The story of a transfer
  // ---------------------------------------------------------------------------------------------

  /** Operation `j` begins the transfer. */
  ghost predicate Begins(s: Store, op: Op) { op.DoBegin? && Begin(s, op.q, op.benv).1 == Reason.Accepted }

  /** The transfer begun by `j` is in the table up to state `k`, and not begun anew. */
  ghost predicate Stays(states: seq<Store>, ops: seq<Op>, j: nat, k: nat) {
    && j < k <= |ops| && |ops| < |states| && Begins(states[j], ops[j])
    && (forall x | j < x <= k :: ops[j].q.fileId in states[x].dl)
    && forall x | j < x < k && ops[x].DoBegin? :: ops[x].q.fileId != ops[j].q.fileId
  }

  /** The operation is the transfer's own peer's chunk, or digest. */
  predicate OwnChunk(q: Request, op: Op) { op.DoChunk? && op.f == q.fileId && op.peer == q.peer }

  predicate OwnDigest(q: Request, op: Op) { op.DoDigest? && op.f == q.fileId && op.peer == q.peer }

  /** The digest announced with the message, else the first one its own peer's end frames gave. */
  ghost function FirstDigest(ops: seq<Op>, j: nat, k: nat): string
    requires j < k <= |ops| && ops[j].DoBegin?
    decreases k
  {
    if k == j + 1 then ops[j].q.sha256
    else
      var known := FirstDigest(ops, j, k - 1);
      if known == "" && OwnDigest(ops[j].q, ops[k - 1]) then ops[k - 1].digest else known
  }

  /** The size announced with the message, else the first one its own peer's chunks announced. */
  ghost function FirstTotal(ops: seq<Op>, j: nat, k: nat): int
    requires j < k <= |ops| && ops[j].DoBegin?
    decreases k
  {
    if k == j + 1 then if ops[j].q.total > 0 then ops[j].q.total else 0
    else
      var known := FirstTotal(ops, j, k - 1);
      if known == 0 && OwnChunk(ops[j].q, ops[k - 1]) then ops[k - 1].total else known
  }

  /** The operation's bytes were written. */
  ghost predicate Wrote(s: Store, op: Op, q: Request) {
    OwnChunk(q, op) && Chunk(s, op.f, op.peer, op.data, op.total, op.cenv).ok
  }

  /** The instant of the last chunk written, or of the begin. */
  ghost function LastActive(states: seq<Store>, ops: seq<Op>, j: nat, k: nat): real
    requires j < k <= |ops| && |ops| < |states| && ops[j].DoBegin?
    decreases k
  {
    if k == j + 1 then ops[j].benv.now
    else if Wrote(states[k - 1], ops[k - 1], ops[j].q) then ops[k - 1].cenv.now
    else LastActive(states, ops, j, k - 1)
  }

  /** The size at which the free space is read again: eight megabytes after the start, and then after
      what was there at the last reading. */
  ghost function NextReading(states: seq<Store>, ops: seq<Op>, j: nat, k: nat): int
    requires j < k <= |ops| && |ops| < |states| && ops[j].DoBegin?
    decreases k
  {
    var interval := 8 * 1024 * 1024;
    if k == j + 1 then interval
    else
      var f, next := ops[j].q.fileId, NextReading(states, ops, j, k - 1);
      if Wrote(states[k - 1], ops[k - 1], ops[j].q) && |AcceptedBytes(states, ops, f, j, k)| >= next
      then |AcceptedBytes(states, ops, f, j, k - 1)| + interval else next
  }

  ghost function Story(states: seq<Store>, ops: seq<Op>, j: nat, k: nat): Entry
    requires j < k <= |ops| && |ops| < |states| && ops[j].DoBegin?
  {
    var q := ops[j].q;
    Entry(q.saveTo, q.saveTo + ".part", q.mid, FirstDigest(ops, j, k), FirstTotal(ops, j, k),
          |AcceptedBytes(states, ops, ops[j].q.fileId, j, k)|, q.peer, LastActive(states, ops, j, k), q.room,
          states[j].limits.maxBytes, NextReading(states, ops, j, k))
  }

  lemma {:induction false} BegunStory(states: seq<Store>, ops: seq<Op>, hash: seq<byte> -> string, j: nat)
    requires IsRun(states, ops, hash) && j < |ops| && Begins(states[j], ops[j])
    ensures ops[j].q.fileId in states[j + 1].dl && states[j + 1].dl[ops[j].q.fileId] == Story(states, ops, j, j + 1)
  {
    assert StepAt(states, ops, hash, j);
  }

  /** What one operation does to the entry of a transfer that stays. */
  ghost predicate EntryMoved(s: Store, op: Op, f: FileId, d: Entry, d': Entry) {
    var own := op.DoChunk? && op.f == f && op.peer == d.peer;
    var wrote := own && Chunk(s, op.f, op.peer, op.data, op.total, op.cenv).ok;
    && d'.saveTo == d.saveTo && d'.tmp == d.tmp && d'.mid == d.mid && d'.peer == d.peer && d'.room == d.room
    && d'.cap == d.cap
    && d'.sha256 == (if op.DoDigest? && op.f == f && op.peer == d.peer && d.sha256 == "" then op.digest
                     else d.sha256)
    && d'.total == (if own && d.total == 0 then op.total else d.total)
    && d'.ts == (if wrote then op.cenv.now else d.ts)
    && d'.written == d.written + |DownloadTransfer.Accepted(s, op, f)|
    && d'.nextCheck == if wrote && d'.written >= d.nextCheck then d.written + CHECK_INTERVAL else d.nextCheck
  }

  lemma {:induction false} ChunkMovesEntry(s: Store, op: Op, f: FileId, hash: seq<byte> -> string)
    requires op.DoChunk? && f in s.dl && f in Apply(s, op, hash).dl
    ensures EntryMoved(s, op, f, s.dl[f], Apply(s, op, hash).dl[f])
  {
    hide Fits, Stale, Begin, Finish, Append;
  }

  lemma {:induction false} EntryStep(s: Store, op: Op, f: FileId, hash: seq<byte> -> string)
    requires f in s.dl && f in Apply(s, op, hash).dl && !(op.DoBegin? && op.q.fileId == f)
    ensures EntryMoved(s, op, f, s.dl[f], Apply(s, op, hash).dl[f])
  {
    hide Chunk;
    if op.DoChunk? { ChunkMovesEntry(s, op, f, hash); }
  }

  /** At every moment the entry is what its story says. */
  lemma {:induction false} EntryIsItsStory(states: seq<Store>, ops: seq<Op>, hash: seq<byte> -> string, j: nat, k: nat)
    requires IsRun(states, ops, hash) && Stays(states, ops, j, k)
    ensures states[k].dl[ops[j].q.fileId] == Story(states, ops, j, k)
    decreases k
  {
    hide Apply, Begin, Chunk;
    if k == j + 1 {
      BegunStory(states, ops, hash, j);
    } else {
      EntryIsItsStory(states, ops, hash, j, k - 1);
      assert StepAt(states, ops, hash, k - 1);
      EntryStep(states[k - 1], ops[k - 1], ops[j].q.fileId, hash);
    }
  }

  // ---------------------------------------------------------------------------------------------
  // How it ends
  // ---------------------------------------------------------------------------------------------

  lemma {:induction false} InProgressStays(
      states: seq<Store>, ops: seq<Op>, f: FileId, j: nat, k: nat)
    requires j < k <= |ops| && |ops| < |states| && Undisturbed(states, ops, f, j, k)
    requires Begins(states[j], ops[j]) && ops[j].q.fileId == f
    ensures Stays(states, ops, j, k)
    decreases k
  {
    hide Begin;
    if k > j + 1 { InProgressStays(states, ops, f, j, k - 1); }
  }

  /** The bytes accepted are the declared size, if one was declared. */
  predicate Whole(bytes: seq<byte>, total: int) { total == 0 || |bytes| == total }

  /** They have the announced digest, if one was announced. */
  predicate Matches(bytes: seq<byte>, digest: string, hash: seq<byte> -> string) {
    digest == "" || hash(bytes) == digest
  }

  /** What an end by the transfer's own peer reports. */
  ghost predicate Reports(
      status: Status, bytes: seq<byte>, total: int, digest: string, ok: bool, renames: bool, hash: seq<byte> -> string)
  {
    match status
    case Saved => ok && Whole(bytes, total) && Matches(bytes, digest, hash) && renames
    case Incomplete => ok && !Whole(bytes, total)
    case Mismatch => ok && Whole(bytes, total) && !Matches(bytes, digest, hash)
    case Aborted => !ok || (Whole(bytes, total) && Matches(bytes, digest, hash) && !renames)
  }

  lemma {:induction false} EndReports(s: Store, f: FileId, op: Op, bytes: seq<byte>, hash: seq<byte> -> string)
    requires op.DoFinish? && op.f == f && Holds(s, f, bytes) && s.dl[f].peer == op.peer && s.dl[f].total >= 0
    ensures var (s', status) := Finish(s, f, op.peer, op.ok, hash, op.renames); var d := s.dl[f];
            && status.Some? && Reports(status.value, bytes, d.total, d.sha256, op.ok, op.renames, hash)
            && s'.dl == s.dl - {f}
            && if status == Some(Saved) then s'.files == (s.files - {d.tmp})[d.saveTo := bytes]
               else s'.files == s.files - {d.tmp}
  {
  }

  /** Every end of a transfer, over any run: nobody but its own peer ends it; it is saved exactly if that
      peer says so, every byte of the size first announced is there, and the bytes have the digest first
      announced; then the target is exactly those bytes, and in every other case it is as it was. */
  lemma {:induction false} EveryEnd(
      states: seq<Store>, ops: seq<Op>, hash: seq<byte> -> string, f: FileId, j: nat, k: nat)
    requires k < |ops| && InProgress(states, ops, hash, f, j, k) && ops[k].DoFinish? && ops[k].f == f
    ensures var q, op := ops[j].q, ops[k]; var bytes := AcceptedBytes(states, ops, f, j, k);
            var (s', status) := Finish(states[k], f, op.peer, op.ok, hash, op.renames);
            && s' == states[k + 1]
            && if op.peer != q.peer then s' == states[k] && status == None
               else
                 && status.Some?
                 && Reports(status.value, bytes, FirstTotal(ops, j, k), FirstDigest(ops, j, k), op.ok, op.renames, hash)
                 && f !in s'.dl
                 && var files := states[k].files - {q.saveTo + ".part"};
                    s'.files == if status == Some(Saved) then files[q.saveTo := bytes] else files
  {
    hide Begin, Finish, Holds;
    InProgressStays(states, ops, f, j, k);
    EntryIsItsStory(states, ops, hash, j, k);
    CapsSurviveAnyLimits(states, ops, hash, k);
    assert StepAt(states, ops, hash, j) && StepAt(states, ops, hash, k);
    BegunHoldsNothing(states[j], ops[j], hash);
    PartialFileIsWhatWasAccepted(states, ops, hash, f, j, k);
    assert EntryOk(states[k].dl[f]);
    if ops[k].peer == ops[j].q.peer {
      EndReports(states[k], f, ops[k], AcceptedBytes(states, ops, f, j, k), hash);
    } else {
      EndOfOthers(states[k], f, ops[k], hash);
    }
  }

  lemma {:induction false} EndOfOthers(s: Store, f: FileId, op: Op, hash: seq<byte> -> string)
    requires op.DoFinish? && op.f == f && f in s.dl && s.dl[f].peer != op.peer
    ensures Finish(s, f, op.peer, op.ok, hash, op.renames) == (s, None)
  {
  }

  lemma {:induction false} AnnouncedAtBegin(ops: seq<Op>, j: nat, k: nat)
    requires j < k <= |ops| && ops[j].DoBegin?
    ensures ops[j].q.sha256 != "" ==> FirstDigest(ops, j, k) == ops[j].q.sha256
    ensures ops[j].q.total > 0 ==> FirstTotal(ops, j, k) == ops[j].q.total
    decreases k
  {
    if k > j + 1 { AnnouncedAtBegin(ops, j, k - 1); }
  }

  /** If a download is reported saved, the target file is exactly the chunks accepted since it began, in
      order; it has the size and the digest that were announced with the message, whatever the end frames
      say, and otherwise those announced first. So a download that declared its size and lost a chunk is
      never saved. */
  lemma {:induction false} SavedMeansComplete(
      states: seq<Store>, ops: seq<Op>, hash: seq<byte> -> string, f: FileId, j: nat, k: nat)
    requires k < |ops| && InProgress(states, ops, hash, f, j, k)
    requires ops[k].DoFinish? && ops[k].f == f
    ensures var d, q := states[k].dl[f], ops[j].q; var bytes := AcceptedBytes(states, ops, f, j, k);
            var saved := Finish(states[k], f, ops[k].peer, ops[k].ok, hash, ops[k].renames).1 == Some(Saved);
            && (saved ==> d.saveTo in states[k + 1].files && states[k + 1].files[d.saveTo] == bytes
                          && (d.total > 0 ==> |bytes| == d.total) && (d.sha256 != "" ==> hash(bytes) == d.sha256)
                          && (q.total > 0 ==> |bytes| == q.total) && (q.sha256 != "" ==> hash(bytes) == q.sha256))
            && (d.total > 0 && |bytes| != d.total ==> !saved)
  {
    hide Begin, Finish;
    EveryEnd(states, ops, hash, f, j, k);
    InProgressStays(states, ops, f, j, k);
    EntryIsItsStory(states, ops, hash, j, k);
    AnnouncedAtBegin(ops, j, k);
  }

  /** What makes a chunk of the transfer's own peer tear it down, by the transfer's story: a size that is
      negative, over the file's cap, not the one declared before, or too much for the budget or the disk;
      no size for ten seconds; more bytes than the cap or the declared size; a disk that is full, unread
      or refuses the write. */
  ghost predicate Dooms(s: Store, e: Entry, op: Op)
    requires op.DoChunk?
  {
    var total := if op.total != 0 then op.total else e.total;
    var env, reserved := op.cenv, Reserved(s.dl) - e.written;
    || op.total < 0
    || (op.total > 0 && (op.total > e.cap || (e.total != 0 && op.total != e.total)))
    || (op.total > 0 && e.total == 0
        && (reserved + op.total > s.limits.maxReserved || env.freeAtTotal.None?
            || op.total > env.freeAtTotal.value - s.limits.minFree))
    || (total == 0 && env.now - e.ts > 10.0)
    || (Decode(op.data).Some? &&
        var size := e.written + |Decode(op.data).value|;
        || size > e.cap || (total != 0 && size > total) || !env.writes
        || (size >= e.nextCheck
            && (env.freeAtWrite.None? || env.freeAtWrite.value - (size - e.written) < s.limits.minFree)))
  }

  /** What takes a transfer out of the table. */
  ghost predicate Leaves(s: Store, e: Entry, f: FileId, op: Op) {
    match op
    case DoBegin(q, env) => env.now - e.ts > 600.0 && q.fileId != f
    case DoChunk(g, peer, _, _, _) => g == f && peer == e.peer && Dooms(s, e, op)
    case DoDigest(_, _, _) => false
    case DoFinish(g, peer, _, _) => g == f && peer == e.peer
    case DoLimits(_) => false
  }

  lemma {:induction false} LeavesStep(s: Store, op: Op, f: FileId, hash: seq<byte> -> string)
    requires f in s.dl && !(op.DoBegin? && op.q.fileId == f)
    ensures f !in Apply(s, op, hash).dl <==> Leaves(s, s.dl[f], f, op)
  {
    hide Chunk;
    if op.DoChunk? { ChunkLeaves(s, op, f); }
  }

  lemma {:induction false} ChunkLeaves(s: Store, op: Op, f: FileId)
    requires f in s.dl && op.DoChunk?
    ensures f !in Chunk(s, op.f, op.peer, op.data, op.total, op.cenv).store.dl <==> Leaves(s, s.dl[f], f, op)
  {
    hide Append, Reserved;
    if op.f == f && op.peer == s.dl[f].peer {
      assert TotalRefused(s, f, op.total, op.cenv) ==> Dooms(s, s.dl[f], op);
    }
  }

  /** Over every run a transfer leaves the table exactly when its own peer ends it, when it has been idle
      for more than ten minutes and another begins, or when a chunk of its own peer dooms it. */
  lemma {:induction false} LeavesExactlyWhen(
      states: seq<Store>, ops: seq<Op>, hash: seq<byte> -> string, j: nat, k: nat)
    requires IsRun(states, ops, hash) && k < |ops| && Stays(states, ops, j, k)
    requires !(ops[k].DoBegin? && ops[k].q.fileId == ops[j].q.fileId)
    ensures ops[j].q.fileId !in states[k + 1].dl <==>
            Leaves(states[k], Story(states, ops, j, k), ops[j].q.fileId, ops[k])
  {
    hide Apply, Begin, Leaves, Story;
    EntryIsItsStory(states, ops, hash, j, k);
    assert StepAt(states, ops, hash, k);
    LeavesStep(states[k], ops[k], ops[j].q.fileId, hash);
  }

  lemma {:induction false} ChunkWrites(s: Store, op: Op, q: Request)
    requires q.fileId in s.dl && s.dl[q.fileId].peer == q.peer
    ensures Wrote(s, op, q) <==> OwnChunk(q, op) && !Dooms(s, s.dl[q.fileId], op) && Decode(op.data).Some?
  {
    hide Append, Reserved;
    if OwnChunk(q, op) { ChunkLeaves(s, op, q.fileId); }
  }

  /** And exactly the other chunks of its own peer whose data decodes are written. */
  lemma {:induction false} WrittenExactlyWhen(
      states: seq<Store>, ops: seq<Op>, hash: seq<byte> -> string, j: nat, k: nat)
    requires IsRun(states, ops, hash) && k < |ops| && Stays(states, ops, j, k)
    ensures Wrote(states[k], ops[k], ops[j].q) <==>
            OwnChunk(ops[j].q, ops[k]) && !Dooms(states[k], Story(states, ops, j, k), ops[k])
            && Decode(ops[k].data).Some?
  {
    hide Apply, Begin, Dooms, Wrote;
    EntryIsItsStory(states, ops, hash, j, k);
    ChunkWrites(states[k], ops[k], ops[j].q);
  }

  // ---------------------------------------------------------------------------------------------
  // How it begins
  // ---------------------------------------------------------------------------------------------

  ghost predicate Affordable(s: Store, size: int) { Reserved(s.dl) + size <= s.limits.maxReserved }

  /** A transfer of known size fits if the file's cap, the budget and the disk hold it; one of unknown size
      if every size that the cap and the disk hold would fit the budget, and the disk is above its floor. */
  ghost predicate HasRoom(s: Store, total: int, free: int) {
    var room := free - s.limits.minFree;
    if total > 0 then total <= s.limits.maxBytes && Reserved(s.dl) + total <= s.limits.maxReserved && total <= room
    else room >= 0 && forall size | 0 <= size <= room && size <= s.limits.maxBytes :: Affordable(s, size)
  }

  /** A transfer is begun exactly if, once the idle ones are gone, its peer has a slot, there is one at all,
      the partial file opens, and a disk that can be read has room. */
  lemma {:induction false} BeginsExactlyWhen(s: Store, op: Op)
    requires op.DoBegin? && s.limits.maxBytes >= 0
    ensures var s1 := PurgeStale(s, op.benv.now); var peers := set f | f in s1.dl && s1.dl[f].peer == op.q.peer;
            Begins(s, op) <==>
              && |peers| < s.limits.maxPerPeer && |s1.dl| < 8 && op.benv.opens && op.benv.free.Some?
              && HasRoom(s1, op.q.total, op.benv.free.value)
  {
    var s1 := PurgeStale(s, op.benv.now);
    assert FromPeer(s1.dl, op.q.peer) == set f | f in s1.dl && s1.dl[f].peer == op.q.peer;
    if op.benv.free.Some? && op.q.total <= 0 {
      var room := op.benv.free.value - s.limits.minFree;
      var worst := WorstCase(s.limits, op.benv.free.value);
      assert room >= 0 ==> 0 <= worst <= room && worst <= s.limits.maxBytes;
      assert Affordable(s1, worst) ==> forall size | 0 <= size <= worst :: Affordable(s1, size);
    }
  }

  /** Why a begin is refused. */
  ghost predicate Explains(s1: Store, op: Op, reason: Reason)
    requires op.DoBegin?
  {
    var q, env := op.q, op.benv;
    var peers := set f | f in s1.dl && s1.dl[f].peer == q.peer;
    var slots := |peers| < s1.limits.maxPerPeer && |s1.dl| < 8;
    match reason
    case PerPeer => |peers| >= s1.limits.maxPerPeer
    case TooMany => |peers| < s1.limits.maxPerPeer && |s1.dl| >= 8
    case OpenFailed => slots && !env.opens
    case DiskUnknown => slots && env.opens && env.free.None?
    case FileCap => slots && env.opens && env.free.Some? && q.total > s1.limits.maxBytes
    case DiskBudget =>
      slots && env.opens && env.free.Some? && q.total <= s1.limits.maxBytes && !HasRoom(s1, q.total, env.free.value)
    case Accepted => false
  }

  /** Every begin answers with the reason that applies, and leaves the other transfers alone: without a slot
      no file is touched, and a refusal after that takes the partial file away again. */
  lemma {:induction false} BeginAnswers(s: Store, op: Op)
    requires op.DoBegin? && s.limits.maxBytes >= 0
    ensures var s1 := PurgeStale(s, op.benv.now); var (s', reason) := Begin(s, op.q, op.benv);
            var part := op.q.saveTo + ".part";
            && (reason != Reason.Accepted ==> Explains(s1, op, reason) && s'.dl == s1.dl)
            && s'.limits == s.limits
            && s'.files == if reason == Reason.Accepted then s1.files[part := []]
                           else if reason == PerPeer || reason == TooMany then s1.files else s1.files - {part}
  {
    hide HasRoom, Fits, PurgeStale, Reserved;
    var s1 := PurgeStale(s, op.benv.now);
    assert s1.limits == s.limits by { PurgeKeepsLimits(s, op.benv.now); }
    assert FromPeer(s1.dl, op.q.peer) == set f | f in s1.dl && s1.dl[f].peer == op.q.peer;
    BeginsExactlyWhen(s, op);
  }

  lemma {:induction false} PurgeKeepsLimits(s: Store, now: real)
    ensures PurgeStale(s, now).limits == s.limits
  {
  }

  /** Every chunk answers with what is written now and with the size that counts: the one declared before, or
      the one it announces if there was none or it is over the cap. */
  lemma {:induction false} ChunkAnswers(s: Store, op: Op)
    requires op.DoChunk?
    ensures var r := Chunk(s, op.f, op.peer, op.data, op.total, op.cenv);
            if op.f !in s.dl || s.dl[op.f].peer != op.peer then !r.ok && r.total == 0 && r.written == 0
            else
              var e := s.dl[op.f];
              && (r.ok ==> Decode(op.data).Some?)
              && r.written == e.written + (if r.ok then |Decode(op.data).value| else 0)
              && r.total == if op.total < 0 then 0 else if op.total == 0 then e.total
                            else if op.total <= e.cap && e.total != 0 then e.total else op.total
  {
    hide Fits, Append, Reserved, WriteRefused;
  }

  // ---------------------------------------------------------------------------------------------
  // Settings
  // ---------------------------------------------------------------------------------------------

  const MB := 1024 * 1024
  const TB := 1024 * 1024 * 1024 * 1024

  predicate InRange(l: Limits) {
    && 64 * MB <= l.maxBytes <= l.maxReserved <= TB && 64 * MB <= l.minFree <= TB && 1 <= l.maxPerPeer <= 8
  }

  /** A setting between 64 megabytes and a terabyte is taken, a larger one is taken for a terabyte, and
      without one, or with a smaller one, the limit stays. */
  predicate Follows(limit: int, before: int, setting: Option<int>) {
    if setting == None || setting.value < 64 * MB then limit == before
    else limit <= setting.value && limit <= TB && (limit == setting.value || limit == TB)
  }

  /** New settings: each limit follows its own, a file may not be allowed more than all of them together, and a
      peer gets between one and eight slots. */
  lemma {:induction false} SettingsAreFollowed(l: Limits, c: Config)
    ensures var l' := ApplyConfig(l, c);
            && Follows(l'.maxReserved, l.maxReserved, c.maxReserved) && Follows(l'.minFree, l.minFree, c.minFree)
            && (exists b :: Follows(b, l.maxBytes, c.maxBytes)
                            && l'.maxBytes == if b > l'.maxReserved then l'.maxReserved else b)
            && if c.maxPerPeer == None || c.maxPerPeer.value < 1 then l'.maxPerPeer == l.maxPerPeer
               else if c.maxPerPeer.value <= 8 then l'.maxPerPeer == c.maxPerPeer.value else l'.maxPerPeer == 8
  {
    assert Follows(Clamped(l.maxBytes, c.maxBytes), l.maxBytes, c.maxBytes);
  }

  /** In every run all limits stay in their ranges. */
  lemma {:induction false} LimitsStayInRange(states: seq<Store>, ops: seq<Op>, hash: seq<byte> -> string, k: nat)
    requires IsRun(states, ops, hash) && k < |states|
    ensures InRange(states[k].limits)
  {
    hide Apply;
    if k > 0 {
      LimitsStayInRange(states, ops, hash, k - 1);
      assert StepAt(states, ops, hash, k - 1);
      OnlySettingsMoveLimits(states[k - 1], ops[k - 1], hash);
    }
  }

  lemma {:induction false} OnlySettingsMoveLimits(s: Store, op: Op, hash: seq<byte> -> string)
    ensures Apply(s, op, hash).limits == if op.DoLimits? then ApplyConfig(s.limits, op.config) else s.limits
  {
    hide Fits, Append, Reserved;
  }
}
