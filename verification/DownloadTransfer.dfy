/** What a download ends up with: its partial file is what was accepted, and a file that was streamed is
    saved byte for byte. */
module DownloadTransfer {
  import opened Base64
  import opened Bytes
  import opened Options
  import opened DownloadModel
  import opened DownloadBudget
  import Downloads

  // ---------------------------------------------------------------------------------------------
  // Target paths
  // ---------------------------------------------------------------------------------------------

  ghost predicate Apart(a: Entry, b: Entry) { {a.saveTo, a.tmp} !! {b.saveTo, b.tmp} }

  /** Transfers in progress have distinct target paths. */
  ghost predicate PathsApart(s: Store) { forall f, g | f in s.dl && g in s.dl && f != g :: Apart(s.dl[f], s.dl[g]) }

  /** The operation does not begin `f` anew and does not open the partial file of `f`. */
  ghost predicate Spares(s: Store, op: Op, f: FileId)
    requires f in s.dl
  {
    op.DoBegin? ==> op.q.fileId != f && PartOf(op.q.saveTo) != s.dl[f].tmp
  }

  // ---------------------------------------------------------------------------------------------
  // The bytes accepted so far are the bytes on disk
  // ---------------------------------------------------------------------------------------------

  /** The bytes this operation adds to transfer `f`. */
  ghost function Accepted(s: Store, op: Op, f: FileId): seq<byte> {
    if op.DoChunk? && op.f == f && Chunk(s, f, op.peer, op.data, op.total, op.cenv).ok && Decode(op.data).Some?
    then Decode(op.data).value else []
  }

  lemma {:induction false} PurgeSpares(s: Store, now: real, f: FileId)
    requires f in s.dl && PathsApart(s) && !Stale(s.dl[f], now) && s.dl[f].tmp in s.files
    ensures var s' := PurgeStale(s, now);
            && f in s'.dl && s'.dl[f] == s.dl[f] && s.dl[f].tmp in s'.files
            && s'.files[s.dl[f].tmp] == s.files[s.dl[f].tmp]
  {
    forall g | g in s.dl && Stale(s.dl[g], now) ensures s.dl[g].tmp != s.dl[f].tmp { assert Apart(s.dl[f], s.dl[g]); }
  }

  ghost predicate ContentMoved(s: Store, s': Store, op: Op, f: FileId)
    requires f in s.dl && f in s'.dl && s.dl[f].tmp in s.files
  {
    var d, d' := s.dl[f], s'.dl[f];
    && d'.tmp == d.tmp && d'.saveTo == d.saveTo && d'.peer == d.peer && d'.cap == d.cap && d.tmp in s'.files
    && s'.files[d.tmp] == s.files[d.tmp] + Accepted(s, op, f)
    && d'.written == d.written + |Accepted(s, op, f)|
  }

  lemma {:induction false} BeginContent(s: Store, op: Op, f: FileId, hash: seq<byte> -> string)
    requires op.DoBegin? && f in s.dl && f in Apply(s, op, hash).dl && PathsApart(s) && Spares(s, op, f)
    requires s.dl[f].tmp in s.files
    ensures ContentMoved(s, Apply(s, op, hash), op, f)
  {
    PurgeSpares(s, op.benv.now, f);
  }

  lemma {:induction false} ChunkContent(s: Store, op: Op, f: FileId, hash: seq<byte> -> string)
    requires op.DoChunk? && f in s.dl && f in Apply(s, op, hash).dl && PathsApart(s) && s.dl[f].tmp in s.files
    ensures ContentMoved(s, Apply(s, op, hash), op, f)
  {
    if op.f != f { OtherChunkContent(s, op, f, hash); } else { hide Fits, Stale, Begin, Finish; }
  }

  lemma {:induction false} OtherChunkContent(s: Store, op: Op, f: FileId, hash: seq<byte> -> string)
    requires op.DoChunk? && f in s.dl && f in Apply(s, op, hash).dl && PathsApart(s) && s.dl[f].tmp in s.files
    requires op.f != f
    ensures ContentMoved(s, Apply(s, op, hash), op, f)
  {
    hide Fits, Begin, Finish;
    if op.f in s.dl { assert Apart(s.dl[f], s.dl[op.f]); }
  }

  /** One step of anything else, or of the transfer itself, while it stays in progress. */
  lemma {:induction false} ContentStep(s: Store, op: Op, f: FileId, hash: seq<byte> -> string)
    requires f in s.dl && f in Apply(s, op, hash).dl && PathsApart(s) && Spares(s, op, f) && s.dl[f].tmp in s.files
    ensures ContentMoved(s, Apply(s, op, hash), op, f)
  {
    match op
    case DoBegin(_, _) => BeginContent(s, op, f, hash);
    case DoChunk(_, _, _, _, _) => ChunkContent(s, op, f, hash);
    case DoDigest(_, _, _) =>
    case DoFinish(g, _, _, _) => if g in s.dl && g != f { assert Apart(s.dl[f], s.dl[g]); }
    case DoLimits(_) =>
  }

  /** After operation `j` and up to state `k` the transfer is in the table and nobody touches its paths. */
  ghost predicate Undisturbed(states: seq<Store>, ops: seq<Op>, f: FileId, j: nat, k: nat)
    requires j < k <= |ops| < |states|
    decreases k
  {
    && f in states[k].dl && PathsApart(states[k])
    && (k > j + 1 ==> Undisturbed(states, ops, f, j, k - 1) && Spares(states[k - 1], ops[k - 1], f))
  }

  /** Transfer `f` is begun by operation `j` and is in progress from then until `k`. */
  ghost predicate InProgress(states: seq<Store>, ops: seq<Op>, hash: seq<byte> -> string, f: FileId, j: nat, k: nat) {
    && IsRun(states, ops, hash) && j < k <= |ops| && Undisturbed(states, ops, f, j, k)
    && ops[j].DoBegin? && ops[j].q.fileId == f && Begin(states[j], ops[j].q, ops[j].benv).1 == Reason.Accepted
  }

  ghost function AcceptedBytes(states: seq<Store>, ops: seq<Op>, f: FileId, j: nat, k: nat): seq<byte>
    requires j < k <= |ops| < |states|
    decreases k
  {
    if k == j + 1 then [] else AcceptedBytes(states, ops, f, j, k - 1) + Accepted(states[k - 1], ops[k - 1], f)
  }

  /** The partial file of a transfer in the table, provided its size is what the table says. */
  function Partial(s: Store, f: FileId): Option<seq<byte>> {
    if f in s.dl && s.dl[f].tmp in s.files && s.dl[f].written == |s.files[s.dl[f].tmp]|
    then Some(s.files[s.dl[f].tmp]) else None
  }

  ghost predicate Holds(s: Store, f: FileId, bytes: seq<byte>) { Partial(s, f) == Some(bytes) }

  lemma {:induction false} BegunHoldsNothing(s: Store, op: Op, hash: seq<byte> -> string)
    requires op.DoBegin? && Begin(s, op.q, op.benv).1 == Reason.Accepted
    ensures Holds(Apply(s, op, hash), op.q.fileId, [])
  {
  }

  lemma {:induction false} HoldsStep(s: Store, op: Op, f: FileId, bytes: seq<byte>, hash: seq<byte> -> string)
    requires Holds(s, f, bytes) && f in Apply(s, op, hash).dl && PathsApart(s) && Spares(s, op, f)
    ensures Holds(Apply(s, op, hash), f, bytes + Accepted(s, op, f))
  {
    ContentStep(s, op, f, hash);
  }

  lemma {:induction false} NextHolding(
      states: seq<Store>, ops: seq<Op>, hash: seq<byte> -> string, f: FileId, j: nat, k: nat, bytes: seq<byte>)
    requires IsRun(states, ops, hash) && j + 1 < k <= |ops| && Undisturbed(states, ops, f, j, k)
    requires Holds(states[k - 1], f, bytes)
    ensures Holds(states[k], f, bytes + Accepted(states[k - 1], ops[k - 1], f))
  {
    assert StepAt(states, ops, hash, k - 1);
    HoldsStep(states[k - 1], ops[k - 1], f, bytes, hash);
  }

  lemma {:induction false} PartialFileIsWhatWasAccepted(
      states: seq<Store>, ops: seq<Op>, hash: seq<byte> -> string, f: FileId, j: nat, k: nat)
    requires IsRun(states, ops, hash) && j < k <= |ops| && Undisturbed(states, ops, f, j, k)
    requires Holds(states[j + 1], f, [])
    ensures Holds(states[k], f, AcceptedBytes(states, ops, f, j, k))
    decreases k
  {
    if k > j + 1 {
      PartialFileIsWhatWasAccepted(states, ops, hash, f, j, k - 1);
      NextHolding(states, ops, hash, f, j, k, AcceptedBytes(states, ops, f, j, k - 1));
    }
  }

  // ---------------------------------------------------------------------------------------------
  // Round trip
  // ---------------------------------------------------------------------------------------------

  /** The first `at` bytes of `file` have arrived. */
  ghost predicate Receiving(s: Store, f: FileId, peer: Pid, file: seq<byte>, at: nat) {
    && at <= |file| && Holds(s, f, file[..at])
    && s.dl[f].peer == peer && |file| <= s.dl[f].cap
    && (s.dl[f].total == |file| || (s.dl[f].total == 0 && at == 0))
  }

  /** The operation belongs to other transfers and leaves this one alone. */
  ghost predicate Bystander(s: Store, op: Op, f: FileId)
    requires f in s.dl
  {
    && PathsApart(s) && Spares(s, op, f)
    && match op
       case DoBegin(_, env) => !Stale(s.dl[f], env.now)
       case DoChunk(g, _, _, _, _) => g != f
       case DoDigest(g, _, _) => g != f
       case DoFinish(g, _, _, _) => g != f
       case DoLimits(_) => true
  }

  /** The frame is handed to the receiver, and neither the budget nor the disk refuses it. */
  ghost predicate Handed(s: Store, op: Op, f: FileId, peer: Pid, frame: Downloads.Frame)
    requires f in s.dl
  {
    && frame.ChunkFrame? && op.DoChunk? && op.f == f && op.peer == peer
    && op.data == frame.data && op.total == frame.total
    && PathsApart(s)
    && (s.dl[f].total == 0 ==>
          Fits(s.limits, Reserved(s.dl) - s.dl[f].written, frame.total, op.cenv.freeAtTotal, s.dl[f].cap))
    && op.cenv.writes
    && (Decode(frame.data).Some? ==> !ProbeFails(s.limits, op.cenv.freeAtWrite, |Decode(frame.data).value|))
  }

  /** From state `i` to state `k` the chunk frames arrive in order, other transfers in between. */
  ghost predicate Delivers(
      states: seq<Store>, ops: seq<Op>, i: nat, k: nat, f: FileId, peer: Pid, frames: seq<Downloads.Frame>)
    requires i <= k <= |ops| < |states|
    decreases k - i
  {
    if i == k then |frames| == 1
    else
      && f in states[i].dl
      && if Bystander(states[i], ops[i], f) then Delivers(states, ops, i + 1, k, f, peer, frames)
         else |frames| > 0 && Handed(states[i], ops[i], f, peer, frames[0])
              && Delivers(states, ops, i + 1, k, f, peer, frames[1..])
  }

  lemma {:induction false} BystanderKeeps(
      s: Store, op: Op, f: FileId, peer: Pid, file: seq<byte>, at: nat, hash: seq<byte> -> string)
    requires Receiving(s, f, peer, file, at) && Bystander(s, op, f)
    ensures Receiving(Apply(s, op, hash), f, peer, file, at)
  {
    if op.DoBegin? { PurgeSpares(s, op.benv.now, f); }
    ContentStep(s, op, f, hash);
    assert file[..at] + [] == file[..at];
  }

  lemma {:induction false} HandedAdvances(
      s: Store, op: Op, f: FileId, peer: Pid, file: seq<byte>, at: nat, next: nat, seqNo: nat,
      hash: seq<byte> -> string)
    requires Receiving(s, f, peer, file, at) && at < next <= |file|
    requires Handed(s, op, f, peer, Downloads.ChunkFrame(seqNo, |file|, Encode(file[at..next])))
    ensures Receiving(Apply(s, op, hash), f, peer, file, next)
  {
    RoundTrip(file[at..next]);
    assert Chunk(s, f, peer, op.data, op.total, op.cenv).ok;
    ContentStep(s, op, f, hash);
    assert file[..at] + file[at..next] == file[..next];
  }

  lemma {:induction false} OnlyTheEndIsLeft(file: seq<byte>, at: nat, seqNo: nat, hash: seq<byte> -> string)
    requires at <= |file|
    ensures |Downloads.FramesFrom(file, at, seqNo, hash)| >= 1
    ensures |Downloads.FramesFrom(file, at, seqNo, hash)| == 1 ==> at == |file|
  {
    if at < |file| {
      var next := if at + CHUNK_RAW < |file| then at + CHUNK_RAW else |file|;
      assert |Downloads.FramesFrom(file, next, seqNo + 1, hash)| >= 1;
    }
  }

  /** One turn of a delivery: what is still to arrive afterwards are again the frames of the file,
      from wherever it has got to. */
  lemma {:induction false} TurnArrives(
      s: Store, op: Op, f: FileId, peer: Pid, file: seq<byte>, at: nat, seqNo: nat, hash: seq<byte> -> string)
    returns (at': nat, seqNo': nat)
    requires Receiving(s, f, peer, file, at)
    requires var frames := Downloads.FramesFrom(file, at, seqNo, hash);
             Bystander(s, op, f) || (|frames| > 0 && Handed(s, op, f, peer, frames[0]))
    ensures at' <= |file| && Receiving(Apply(s, op, hash), f, peer, file, at')
    ensures var frames := Downloads.FramesFrom(file, at, seqNo, hash);
            Downloads.FramesFrom(file, at', seqNo', hash) == if Bystander(s, op, f) then frames else frames[1..]
  {
    at', seqNo' := at, seqNo;
    if Bystander(s, op, f) {
      BystanderKeeps(s, op, f, peer, file, at, hash);
    } else {
      at', seqNo' := if at + CHUNK_RAW < |file| then at + CHUNK_RAW else |file|, seqNo + 1;
      HandedAdvances(s, op, f, peer, file, at, at', seqNo, hash);
    }
  }

  /** Some part of the file has arrived and these are the frames of the rest. */
  ghost predicate Halfway(
      s: Store, f: FileId, peer: Pid, file: seq<byte>, frames: seq<Downloads.Frame>, hash: seq<byte> -> string)
  {
    exists at: nat, seqNo: nat ::
      at <= |file| && Receiving(s, f, peer, file, at) && frames == Downloads.FramesFrom(file, at, seqNo, hash)
  }

  lemma {:induction false} HalfwayTurn(
      s: Store, op: Op, f: FileId, peer: Pid, file: seq<byte>, frames: seq<Downloads.Frame>, hash: seq<byte> -> string)
    requires Halfway(s, f, peer, file, frames, hash)
    requires Bystander(s, op, f) || (|frames| > 0 && Handed(s, op, f, peer, frames[0]))
    ensures |frames| > 0
    ensures Halfway(Apply(s, op, hash), f, peer, file, if Bystander(s, op, f) then frames else frames[1..], hash)
  {
    var at: nat, seqNo: nat :|
      at <= |file| && Receiving(s, f, peer, file, at) && frames == Downloads.FramesFrom(file, at, seqNo, hash);
    var at', seqNo' := TurnArrives(s, op, f, peer, file, at, seqNo, hash);
  }

  lemma {:induction false} WholeFileArrives(
      states: seq<Store>, ops: seq<Op>, hash: seq<byte> -> string, i: nat, k: nat,
      f: FileId, peer: Pid, file: seq<byte>, frames: seq<Downloads.Frame>)
    requires IsRun(states, ops, hash) && i <= k <= |ops|
    requires Halfway(states[i], f, peer, file, frames, hash)
    requires Delivers(states, ops, i, k, f, peer, frames)
    ensures Receiving(states[k], f, peer, file, |file|)
    decreases k - i
  {
    hide Apply, Bystander, Handed, Receiving;
    if i == k {
      var at: nat, seqNo: nat :|
        at <= |file| && Receiving(states[i], f, peer, file, at) && frames
            == Downloads.FramesFrom(file, at, seqNo, hash);
      OnlyTheEndIsLeft(file, at, seqNo, hash);
    } else {
      assert StepAt(states, ops, hash, i);
      HalfwayTurn(states[i], ops[i], f, peer, file, frames, hash);
      var rest := if Bystander(states[i], ops[i], f) then frames else frames[1..];
      WholeFileArrives(states, ops, hash, i + 1, k, f, peer, file, rest);
    }
  }

  /** A transfer that was just begun, for a file within the cap whose size is announced or unknown. */
  lemma {:induction false} BegunIsReceiving(s: Store, op: Op, file: seq<byte>, hash: seq<byte> -> string)
    requires op.DoBegin? && Begin(s, op.q, op.benv).1 == Reason.Accepted
    requires op.q.total == 0 || op.q.total == |file|
    requires |file| <= s.limits.maxBytes
    ensures Receiving(Apply(s, op, hash), op.q.fileId, op.q.peer, file, 0)
  {
    assert file[..0] == [];
  }

  /** The digest and the end: the file is saved, byte for byte. */
  lemma {:induction false} EndSaves(s: Store, f: FileId, peer: Pid, file: seq<byte>, hash: seq<byte> -> string)
    requires Receiving(s, f, peer, file, |file|)
    requires s.dl[f].sha256 == "" || s.dl[f].sha256 == hash(file)
    ensures var s1 := Apply(s, DoDigest(f, peer, hash(file)), hash);
            var s2 := Apply(s1, DoFinish(f, peer, true, true), hash);
            && f in s1.dl && f !in s2.dl && Finish(s1, f, peer, true, hash, true).1 == Some(Saved)
            && s1.dl[f].saveTo in s2.files && s2.files[s1.dl[f].saveTo] == file
  {
    assert file[..|file|] == file;
  }

  /** Begun, and every frame delivered. */
  lemma {:induction false} FileHasArrived(
      states: seq<Store>, ops: seq<Op>, hash: seq<byte> -> string, j: nat, k: nat, file: seq<byte>)
    requires IsRun(states, ops, hash) && j < k <= |ops|
    requires ops[j].DoBegin? && Begin(states[j], ops[j].q, ops[j].benv).1 == Reason.Accepted
    requires ops[j].q.total in {0, |file|} && |file| <= states[j].limits.maxBytes
    requires Delivers(states, ops, j + 1, k, ops[j].q.fileId, ops[j].q.peer, Downloads.FramesFrom(file, 0, 0, hash))
    ensures Receiving(states[k], ops[j].q.fileId, ops[j].q.peer, file, |file|)
  {
    hide Apply, Begin, Delivers, Receiving;
    assert StepAt(states, ops, hash, j);
    BegunIsReceiving(states[j], ops[j], file, hash);
    var frames := Downloads.FramesFrom(file, 0, 0, hash);
    assert Halfway(states[j + 1], ops[j].q.fileId, ops[j].q.peer, file, frames, hash);
    WholeFileArrives(states, ops, hash, j + 1, k, ops[j].q.fileId, ops[j].q.peer, file, frames);
  }

  /** Round trip: a file that does not change while it is streamed, whose frames arrive in order among
      whatever other transfers with other target paths do, ends up saved with exactly its bytes. */
  lemma {:induction false} StreamedFileIsSaved(
      states: seq<Store>, ops: seq<Op>, hash: seq<byte> -> string, j: nat, k: nat, file: seq<byte>)
    requires IsRun(states, ops, hash) && j < k && k + 2 <= |ops|
    requires ops[j].DoBegin? && Begin(states[j], ops[j].q, ops[j].benv).1 == Reason.Accepted
    requires ops[j].q.total in {0, |file|} && |file| <= states[j].limits.maxBytes
    requires Delivers(states, ops, j + 1, k, ops[j].q.fileId, ops[j].q.peer, Downloads.FramesFrom(file, 0, 0, hash))
    requires ops[k] == DoDigest(ops[j].q.fileId, ops[j].q.peer, hash(file))
    requires ops[k + 1] == DoFinish(ops[j].q.fileId, ops[j].q.peer, true, true)
    requires ops[j].q.fileId in states[k].dl ==> states[k].dl[ops[j].q.fileId].sha256 in {"", hash(file)}
    ensures var f := ops[j].q.fileId;
            && f in states[k + 1].dl && f !in states[k + 2].dl
            && Finish(states[k + 1], f, ops[j].q.peer, true, hash, true).1 == Some(Saved)
            && states[k + 1].dl[f].saveTo in states[k + 2].files
            && states[k + 2].files[states[k + 1].dl[f].saveTo] == file
  {
    hide Apply, Begin, Finish, Delivers;
    assert StepAt(states, ops, hash, k) && StepAt(states, ops, hash, k + 1);
    FileHasArrived(states, ops, hash, j, k, file);
    EndSaves(states[k], ops[j].q.fileId, ops[j].q.peer, file, hash);
  }
}
