/** What the receiver ever promises to store: the counts and the budget over declared totals, the
    per-file cap, and the bytes in progress. */
module DownloadBudget {
  import opened Base64
  import opened Bytes
  import opened Options
  import opened Sums
  import opened DownloadModel
  import InboundReader

  function TotalOf(e: Entry): int { e.total }
  function WrittenOf(e: Entry): int { e.written }

  /** No transfer passes the cap it was admitted under, and its next free-space check is never more
      than one interval ahead of what it has written. */
  ghost predicate EntryOk(e: Entry) {
    0 <= e.total <= e.cap && 0 <= e.written <= e.cap && e.nextCheck <= e.written + CHECK_INTERVAL
  }

  ghost predicate EntriesOk(s: Store) { forall f | f in s.dl :: EntryOk(s.dl[f]) }

  ghost predicate BudgetInv(s: Store) {
    && 0 <= s.limits.maxBytes && 0 <= s.limits.maxReserved && 1 <= s.limits.maxPerPeer
    && |s.dl| <= MAX_CONCURRENT
    && (forall p :: |FromPeer(s.dl, p)| <= s.limits.maxPerPeer)
    && SumBy(s.dl, TotalOf) <= s.limits.maxReserved
    && EntriesOk(s)
  }

  lemma {:induction false} SubsetSize<T>(a: set<T>, b: set<T>)
    requires a <= b
    ensures |a| <= |b|
  {
    assert b == a + (b - a);
  }

  // ---------------------------------------------------------------------------------------------
  // Fewer transfers
  // ---------------------------------------------------------------------------------------------

  /** Dropping transfers keeps everything within bounds. */
  lemma {:induction false} FewerTransfers(s: Store, s': Store)
    requires BudgetInv(s) && s'.limits == s.limits
    requires s'.dl.Keys <= s.dl.Keys && forall f | f in s'.dl :: s'.dl[f] == s.dl[f]
    ensures BudgetInv(s')
    ensures SumBy(s'.dl, Charge) <= SumBy(s.dl, Charge)
  {
    forall f | f in s'.dl ensures EntryOk(s'.dl[f]) { assert EntryOk(s.dl[f]); }
    forall f | f in s.dl ensures 0 <= TotalOf(s.dl[f]) && 0 <= Charge(s.dl[f]) { assert EntryOk(s.dl[f]); }
    SumOfPart(s'.dl, s.dl, TotalOf);
    SumOfPart(s'.dl, s.dl, Charge);
    SubsetSize(s'.dl.Keys, s.dl.Keys);
    forall p ensures |FromPeer(s'.dl, p)| <= s.limits.maxPerPeer {
      SubsetSize(FromPeer(s'.dl, p), FromPeer(s.dl, p));
    }
  }

  lemma {:induction false} DeclaredWithinReserved(s: Store)
    requires EntriesOk(s)
    ensures SumBy(s.dl, TotalOf) <= Reserved(s.dl)
  {
    forall f | f in s.dl ensures TotalOf(s.dl[f]) <= Charge(s.dl[f]) { assert EntryOk(s.dl[f]); }
    SumBounded(s.dl, TotalOf, Charge);
  }

  // ---------------------------------------------------------------------------------------------
  // One operation
  // ---------------------------------------------------------------------------------------------

  lemma {:induction false} OneMoreFromPeer(dl: map<FileId, Entry>, f: FileId, e: Entry, p: Pid)
    ensures |FromPeer(dl[f := e], p)| <= |FromPeer(dl, p)| + (if p == e.peer then 1 else 0)
  {
    if p == e.peer { SubsetSize(FromPeer(dl[f := e], p), FromPeer(dl, p) + {f}); }
    else { SubsetSize(FromPeer(dl[f := e], p), FromPeer(dl, p)); }
  }

  lemma {:induction false} InsertedFits(s: Store, q: Request, env: BeginEnv)
    requires BudgetInv(s) && BeginVerdict(s, q, env) == Accepted
    ensures SumBy(Settle(s, q, env.now, Accepted).dl, TotalOf) <= s.limits.maxReserved
  {
    DeclaredWithinReserved(s);
    SumUpdate(s.dl, TotalOf, q.fileId, FreshEntry(s, q, env.now));
    hide FromPeer;
    if q.fileId in s.dl { assert EntryOk(s.dl[q.fileId]); }
  }

  lemma {:induction false} InsertedWithinPeerLimit(s: Store, q: Request, env: BeginEnv)
    requires BudgetInv(s) && BeginVerdict(s, q, env) == Accepted
    ensures forall p :: |FromPeer(Settle(s, q, env.now, Accepted).dl, p)| <= s.limits.maxPerPeer
  {
    hide FromPeer, SumBy, OpenVerdict;
    forall p ensures |FromPeer(Settle(s, q, env.now, Accepted).dl, p)| <= s.limits.maxPerPeer {
      OneMoreFromPeer(s.dl, q.fileId, FreshEntry(s, q, env.now), p);
    }
  }

  lemma {:induction false} InsertKeeps(s: Store, q: Request, env: BeginEnv)
    requires BudgetInv(s) && BeginVerdict(s, q, env) == Accepted
    ensures BudgetInv(Settle(s, q, env.now, Accepted))
  {
    hide FromPeer, SumBy;
    InsertedFits(s, q, env);
    InsertedWithinPeerLimit(s, q, env);
    var s' := Settle(s, q, env.now, Accepted);
    assert s'.dl.Keys == s.dl.Keys + {q.fileId};
    SubsetSize(s'.dl.Keys, s.dl.Keys + {q.fileId});
  }

  lemma {:induction false} RefusalKeeps(s: Store, q: Request, env: BeginEnv)
    requires BudgetInv(s) && BeginVerdict(s, q, env) != Accepted
    ensures BudgetInv(Open(s, q, env).0)
  {
    FewerTransfers(s, Open(s, q, env).0);
  }

  lemma {:induction false} BeginKeeps(s: Store, q: Request, env: BeginEnv)
    requires BudgetInv(s)
    ensures BudgetInv(Begin(s, q, env).0)
  {
    var purged := PurgeStale(s, env.now);
    FewerTransfers(s, purged);
    hide PurgeStale, BeginVerdict, BudgetInv;
    if BeginVerdict(purged, q, env) == Accepted { InsertKeeps(purged, q, env); }
    else { RefusalKeeps(purged, q, env); }
  }

  /** Replacing one entry by a later state of the same transfer. */
  lemma {:induction false} ReplaceKeeps(s: Store, f: FileId, e: Entry, files: map<Path, seq<byte>>)
    requires BudgetInv(s) && f in s.dl && EntryOk(e) && e.peer == s.dl[f].peer
    requires SumBy(s.dl, TotalOf) - s.dl[f].total + e.total <= s.limits.maxReserved
    ensures BudgetInv(Store(s.dl[f := e], s.limits, files))
  {
    var s' := Store(s.dl[f := e], s.limits, files);
    SumUpdate(s.dl, TotalOf, f, e);
    assert s'.dl.Keys == s.dl.Keys;
    forall g | g in s'.dl ensures EntryOk(s'.dl[g]) { if g != f { assert EntryOk(s.dl[g]); } }
    forall p ensures |FromPeer(s'.dl, p)| <= s.limits.maxPerPeer { assert FromPeer(s'.dl, p) == FromPeer(s.dl, p); }
  }

  lemma {:induction false} TotalKeeps(s: Store, f: FileId, total: int, env: ChunkEnv)
    requires BudgetInv(s) && f in s.dl && !TotalRefused(s, f, total, env)
    ensures BudgetInv(WithTotal(s, f, total))
  {
    if total != 0 {
      var d := s.dl[f];
      assert EntryOk(d);
      SumRemove(s.dl, TotalOf, f);
      SumRemove(s.dl, Charge, f);
      var rest := s.(dl := s.dl - {f});
      assert EntriesOk(rest) by { forall g | g in rest.dl ensures EntryOk(rest.dl[g]) { assert EntryOk(s.dl[g]); } }
      DeclaredWithinReserved(rest);
      ReplaceKeeps(s, f, d.(total := total), s.files);
    }
  }

  lemma {:induction false} ChunkKeeps(s: Store, f: FileId, peer: Pid, data: string, total: int, env: ChunkEnv)
    requires BudgetInv(s)
    ensures BudgetInv(Chunk(s, f, peer, data, total, env).store)
  {
    var r := Chunk(s, f, peer, data, total, env);
    if f !in s.dl || s.dl[f].peer != peer {
    } else if TotalRefused(s, f, total, env) {
      FewerTransfers(s, r.store);
    } else {
      var s1 := WithTotal(s, f, total);
      TotalKeeps(s, f, total, env);
      var d, raw := s1.dl[f], Decode(data);
      if raw.None? {
      } else if WriteRefused(s.limits, d, |raw.value|, env) {
        FewerTransfers(s1, r.store);
      } else {
        assert EntryOk(d);
        ReplaceKeeps(s1, f, Grown(d, |raw.value|, env.now), r.store.files);
      }
    }
  }

  /** Limits are fixed or raised by this operation. */
  ghost predicate NotLowered(s: Store, op: Op) {
    op.DoLimits? ==>
      var l := ApplyConfig(s.limits, op.config);
      s.limits.maxReserved <= l.maxReserved && s.limits.maxPerPeer <= l.maxPerPeer
  }

  lemma {:induction false} StepKeepsBudget(s: Store, op: Op, hash: seq<byte> -> string)
    requires BudgetInv(s) && NotLowered(s, op)
    ensures BudgetInv(Apply(s, op, hash))
  {
    match op
    case DoBegin(q, env) => BeginKeeps(s, q, env);
    case DoChunk(f, peer, data, total, env) => ChunkKeeps(s, f, peer, data, total, env);
    case DoDigest(f, peer, digest) =>
      if f in s.dl && s.dl[f].peer == peer {
        assert EntryOk(s.dl[f]);
        ReplaceKeeps(s, f, s.dl[f].(sha256 := digest), s.files);
      }
    case DoFinish(f, peer, ok, renames) => FewerTransfers(s, Apply(s, op, hash));
    case DoLimits(c) =>
      var s' := Apply(s, op, hash);
      forall p ensures |FromPeer(s'.dl, p)| <= s'.limits.maxPerPeer {
        assert |FromPeer(s.dl, p)| <= s.limits.maxPerPeer;
      }
      forall f | f in s'.dl ensures EntryOk(s'.dl[f]) { assert EntryOk(s.dl[f]); }
  }

  // ---------------------------------------------------------------------------------------------
  // Runs
  // ---------------------------------------------------------------------------------------------

  /** The k-th operation takes the k-th store to the next. */
  ghost predicate StepAt(states: seq<Store>, ops: seq<Op>, hash: seq<byte> -> string, k: int) {
    0 <= k < |ops| && k + 1 < |states| && states[k + 1] == Apply(states[k], ops[k], hash)
  }

  /** A run from an empty table under the default limits, over whatever files are there. */
  ghost predicate IsRun(states: seq<Store>, ops: seq<Op>, hash: seq<byte> -> string) {
    && |states| == |ops| + 1 && states[0] == Store(map[], DEFAULT_LIMITS, states[0].files)
    && forall k | 0 <= k < |ops| :: StepAt(states, ops, hash, k)
  }

  /** In every run whose limits are never lowered: at most eight transfers, at most the per-peer slots
      from any peer, and declared totals that together fit the aggregate budget. */
  lemma {:induction false} DeclaredTotalsFitTheBudget(
      states: seq<Store>, ops: seq<Op>, hash: seq<byte> -> string, k: nat)
    requires IsRun(states, ops, hash) && k < |states|
    requires forall j | 0 <= j < k :: NotLowered(states[j], ops[j])
    ensures BudgetInv(states[k])
  {
    if k > 0 {
      DeclaredTotalsFitTheBudget(states, ops, hash, k - 1);
      assert StepAt(states, ops, hash, k - 1);
      StepKeepsBudget(states[k - 1], ops[k - 1], hash);
    } else {
      forall p ensures |FromPeer(states[0].dl, p)| <= DEFAULT_LIMITS.maxPerPeer {
        assert FromPeer(states[0].dl, p) == {};
      }
    }
  }

  lemma {:induction false} StepKeepsCaps(s: Store, op: Op, hash: seq<byte> -> string)
    requires EntriesOk(s) && 0 <= s.limits.maxBytes && 0 <= s.limits.maxReserved
    ensures var s' := Apply(s, op, hash);
            EntriesOk(s') && 0 <= s'.limits.maxBytes && 0 <= s'.limits.maxReserved
    ensures var s' := Apply(s, op, hash);
            forall f | f in s.dl && f in s'.dl && !(op.DoBegin? && op.q.fileId == f) :: s'.dl[f].cap == s.dl[f].cap
  {
    if op.DoChunk? {
      ChunkKeepsCaps(s, op);
      hide Chunk;
    } else {
      hide Chunk;
      forall f | f in s.dl ensures EntryOk(s.dl[f]) {}
    }
  }

  lemma {:induction false} ChunkKeepsCaps(s: Store, op: Op)
    requires EntriesOk(s) && op.DoChunk?
    ensures var s' := Chunk(s, op.f, op.peer, op.data, op.total, op.cenv).store;
            && EntriesOk(s') && s'.limits == s.limits
            && forall f | f in s.dl && f in s'.dl :: s'.dl[f].cap == s.dl[f].cap
  {
    hide Decode;
    forall f | f in s.dl ensures EntryOk(s.dl[f]) {}
  }

  /** The cap a transfer was admitted under bounds it for life, however the ceiling is changed, even
      lowered, afterwards. */
  lemma {:induction false} CapsSurviveAnyLimits(states: seq<Store>, ops: seq<Op>, hash: seq<byte> -> string, k: nat)
    requires IsRun(states, ops, hash) && k < |states|
    ensures EntriesOk(states[k]) && 0 <= states[k].limits.maxBytes && 0 <= states[k].limits.maxReserved
    ensures forall j, f | 0 <= j <= k && f in states[j].dl && f in states[k].dl
              && (forall i | j <= i < k :: f in states[i].dl && !(ops[i].DoBegin? && ops[i].q.fileId == f)) ::
              states[k].dl[f].cap == states[j].dl[f].cap
  {
    if k > 0 {
      CapsSurviveAnyLimits(states, ops, hash, k - 1);
      assert StepAt(states, ops, hash, k - 1);
      StepKeepsCaps(states[k - 1], ops[k - 1], hash);
      forall j, f | 0 <= j <= k && f in states[j].dl && f in states[k].dl
          && (forall i | j <= i < k :: f in states[i].dl && !(ops[i].DoBegin? && ops[i].q.fileId == f))
        ensures states[k].dl[f].cap == states[j].dl[f].cap
      {
        if j < k { assert f in states[k - 1].dl; }
      }
    }
  }

  // ---------------------------------------------------------------------------------------------
  // Bytes in progress
  // ---------------------------------------------------------------------------------------------

  /** Every chunk announces a size. */
  ghost predicate Announces(op: Op) { op.DoChunk? ==> op.total > 0 }

  ghost predicate WithinTotals(s: Store) {
    forall f | f in s.dl :: s.dl[f].written <= s.dl[f].total
  }

  lemma {:induction false} StepKeepsWithinTotals(s: Store, op: Op, hash: seq<byte> -> string)
    requires EntriesOk(s) && WithinTotals(s) && Announces(op)
    ensures WithinTotals(Apply(s, op, hash))
  {
    forall f | f in s.dl ensures EntryOk(s.dl[f]) {}
  }

  /** When every chunk announces a size, what is written never passes what was declared, and the
      bytes of all transfers in progress fit the aggregate budget. */
  lemma {:induction false} BytesInProgressFitTheBudget(
      states: seq<Store>, ops: seq<Op>, hash: seq<byte> -> string, k: nat)
    requires IsRun(states, ops, hash) && k < |states|
    requires forall j | 0 <= j < k :: NotLowered(states[j], ops[j]) && Announces(ops[j])
    ensures WithinTotals(states[k])
    ensures SumBy(states[k].dl, WrittenOf) <= states[k].limits.maxReserved
  {
    DeclaredTotalsFitTheBudget(states, ops, hash, k);
    if k > 0 {
      BytesInProgressFitTheBudget(states, ops, hash, k - 1);
      DeclaredTotalsFitTheBudget(states, ops, hash, k - 1);
      assert StepAt(states, ops, hash, k - 1);
      StepKeepsWithinTotals(states[k - 1], ops[k - 1], hash);
    }
    SumBounded(states[k].dl, WrittenOf, TotalOf);
  }

  ghost predicate NotOverrun(e: Entry) { e.total == 0 || e.written <= e.total }

  ghost predicate NoneOverrun(s: Store) { forall f | f in s.dl :: NotOverrun(s.dl[f]) }

  /** A chunk that first declares a total, below what is already written and let in by the cap, the
      budget and the free space, with data that does not decode. */
  ghost predicate DeclaresTooLate(s: Store, op: Op) {
    && op.DoChunk? && op.f in s.dl && s.dl[op.f].peer == op.peer
    && s.dl[op.f].total == 0 && 0 < op.total < s.dl[op.f].written && Decode(op.data).None?
    && Fits(s.limits, Reserved(s.dl) - s.dl[op.f].written, op.total, op.cenv.freeAtTotal, s.dl[op.f].cap)
  }

  /** After a chunk the transfer is gone or has written no more than it declared, except exactly when the
      chunk declared too late. */
  lemma {:induction false} OverrunOnlyByLateTotal(s: Store, op: Op)
    requires op.DoChunk? && op.f in s.dl && NotOverrun(s.dl[op.f]) && EntryOk(s.dl[op.f])
    ensures var s' := Chunk(s, op.f, op.peer, op.data, op.total, op.cenv).store;
            (op.f in s'.dl ==> NotOverrun(s'.dl[op.f])) <==> !DeclaresTooLate(s, op)
  {
  }

  lemma {:induction false} ChunkOverruns(s: Store, op: Op)
    requires EntriesOk(s) && NoneOverrun(s) && op.DoChunk?
    ensures NoneOverrun(Chunk(s, op.f, op.peer, op.data, op.total, op.cenv).store) <==> !DeclaresTooLate(s, op)
  {
    hide Decode;
    var s' := Chunk(s, op.f, op.peer, op.data, op.total, op.cenv).store;
    if op.f in s.dl {
      assert EntryOk(s.dl[op.f]) && NotOverrun(s.dl[op.f]);
      OverrunOnlyByLateTotal(s, op);
      forall f | f in s'.dl && f != op.f ensures NotOverrun(s'.dl[f]) { assert s'.dl[f] == s.dl[f]; }
    }
  }

  /** The same of every operation and all transfers. */
  lemma {:induction false} StepOverruns(s: Store, op: Op, hash: seq<byte> -> string)
    requires EntriesOk(s) && NoneOverrun(s)
    ensures NoneOverrun(Apply(s, op, hash)) <==> !DeclaresTooLate(s, op)
  {
    hide Chunk;
    if op.DoChunk? {
      ChunkOverruns(s, op);
    } else {
      var s' := Apply(s, op, hash);
      forall f | f in s'.dl ensures NotOverrun(s'.dl[f]) { if f in s.dl { assert NotOverrun(s.dl[f]); } }
    }
  }

  /** In every run, whatever the limits do, no transfer has written more than it declared up to a moment
      if and only if no chunk before it declared too late. */
  lemma {:induction false} NoneOverrunIffNoneTooLate(
      states: seq<Store>, ops: seq<Op>, hash: seq<byte> -> string, k: nat)
    requires IsRun(states, ops, hash) && k < |states|
    ensures (forall j | 0 <= j <= k :: NoneOverrun(states[j])) <==>
            (forall j | 0 <= j < k :: !DeclaresTooLate(states[j], ops[j]))
  {
    hide Apply, DeclaresTooLate;
    if k > 0 {
      NoneOverrunIffNoneTooLate(states, ops, hash, k - 1);
      CapsSurviveAnyLimits(states, ops, hash, k - 1);
      assert StepAt(states, ops, hash, k - 1);
      if NoneOverrun(states[k - 1]) { StepOverruns(states[k - 1], ops[k - 1], hash); }
    }
  }

  // ---------------------------------------------------------------------------------------------
  // Undeclared bytes
  // ---------------------------------------------------------------------------------------------

  const BIG := 4 * 1024 * 1024 * 1024
  const DISK := 100 * 1024 * 1024 * 1024

  /** One more operation at the end of a run. */
  lemma {:induction false} OneMore(states: seq<Store>, ops: seq<Op>, op: Op, hash: seq<byte> -> string)
    requires IsRun(states, ops, hash)
    ensures IsRun(states + [Apply(states[|ops|], op, hash)], ops + [op], hash)
  {
    var states', ops' := states + [Apply(states[|ops|], op, hash)], ops + [op];
    forall k | 0 <= k < |ops'| ensures StepAt(states', ops', hash, k) {
      if k < |ops| { assert StepAt(states, ops, hash, k); }
    }
  }

  ghost function Free(s: Store): int { DISK - SumBy(s.dl, WrittenOf) }

  /** An operation as a peer that keeps quiet about sizes can bring it about: a begin or a chunk without
      a size, the chunk no bigger than a sender makes it and well within one frame, over a disk whose
      free space goes down with every byte written. */
  ghost predicate Plain(s: Store, op: Op) {
    || (op.DoBegin? && op.q.total == 0 && op.benv.free == Some(Free(s)))
    || (op.DoChunk? && op.total == 0 && |op.data| <= InboundReader.MAX_FRAME_BUF / 2
        && Decode(op.data).Some? && |Decode(op.data).value| <= CHUNK_RAW && op.cenv.freeAtWrite == Some(Free(s)))
  }

  function Clock(op: Op): real {
    match op
    case DoBegin(_, env) => env.now
    case DoChunk(_, _, _, _, env) => env.now
    case _ => 0.0
  }

  /** A run of such operations by a clock that does not go back. */
  ghost predicate PlainRun(states: seq<Store>, ops: seq<Op>, hash: seq<byte> -> string) {
    && IsRun(states, ops, hash)
    && (forall k | 0 <= k < |ops| :: Plain(states[k], ops[k]))
    && forall j, k | 0 <= j < k < |ops| :: Clock(ops[j]) <= Clock(ops[k])
  }

  predicate NotBefore(ops: seq<Op>, now: real) { ops != [] ==> Clock(ops[|ops| - 1]) <= now }

  lemma {:induction false} OneMorePlain(states: seq<Store>, ops: seq<Op>, op: Op, hash: seq<byte> -> string)
    requires PlainRun(states, ops, hash) && Plain(states[|ops|], op) && NotBefore(ops, Clock(op))
    ensures PlainRun(states + [Apply(states[|ops|], op, hash)], ops + [op], hash)
  {
    hide Apply, Plain;
    var states', ops' := states + [Apply(states[|ops|], op, hash)], ops + [op];
    OneMore(states, ops, op, hash);
    forall k | 0 <= k < |ops'| ensures Plain(states'[k], ops'[k]) {
      if k < |ops| { assert Plain(states[k], ops[k]); }
    }
    forall j, k | 0 <= j < k < |ops'| ensures Clock(ops'[j]) <= Clock(ops'[k]) {
      if k == |ops| && j < |ops| - 1 { assert Clock(ops[j]) <= Clock(ops[|ops| - 1]); }
    }
  }

  /** A transfer of unknown size of which so much was written, the last of it then. */
  ghost predicate Unsized(s: Store, f: FileId, peer: Pid, written: int, last: real) {
    && f in s.dl && s.dl[f].peer == peer && s.dl[f].total == 0 && s.dl[f].written == written
    && s.dl[f].ts == last && s.dl[f].cap == BIG
  }

  lemma {:induction false} BeginUnsized(
      states: seq<Store>, ops: seq<Op>, f: FileId, peer: Pid, hash: seq<byte> -> string)
    returns (s: Store, op: Op)
    requires PlainRun(states, ops, hash) && NotBefore(ops, 0.0)
    requires var s0 := states[|ops|];
             && s0.limits == DEFAULT_LIMITS && |s0.dl| < MAX_CONCURRENT && |FromPeer(s0.dl, peer)| < 2 && f !in s0.dl
             && Reserved(s0.dl) == 0 == SumBy(s0.dl, WrittenOf) && forall g | g in s0.dl :: s0.dl[g].ts == 0.0
    ensures PlainRun(states + [s], ops + [op], hash) && Clock(op) == 0.0
    ensures s.limits == DEFAULT_LIMITS && Reserved(s.dl) == 0 == SumBy(s.dl, WrittenOf)
    ensures Unsized(s, f, peer, 0, 0.0) && s.dl == states[|ops|].dl[f := s.dl[f]]
  {
    var s0 := states[|ops|];
    op := DoBegin(Request(f, peer, f, "", "", "", 0), BeginEnv(0.0, true, Some(Free(s0))));
    OneMorePlain(states, ops, op, hash);
    s := Apply(s0, op, hash);
    assert PurgeStale(s0, 0.0).dl == s0.dl;
    SumUpdate(s0.dl, Charge, f, s.dl[f]);
    SumUpdate(s0.dl, WrittenOf, f, s.dl[f]);
  }

  /** Three transfers, one from another peer, that have got equally far. */
  ghost predicate Level(s: Store, written: int, last: real) {
    && s.limits == DEFAULT_LIMITS && SumBy(s.dl, WrittenOf) == 3 * written
    && Unsized(s, "a", "p", written, last) && Unsized(s, "b", "p", written, last)
    && Unsized(s, "c", "q", written, last)
  }

  lemma {:induction false} TwoUnsized(hash: seq<byte> -> string) returns (states: seq<Store>, ops: seq<Op>)
    ensures PlainRun(states, ops, hash) && NotBefore(ops, 0.0)
    ensures var s := states[|ops|];
            && s.dl.Keys == {"a", "b"} && s.limits == DEFAULT_LIMITS
            && Reserved(s.dl) == 0 == SumBy(s.dl, WrittenOf)
            && Unsized(s, "a", "p", 0, 0.0) && Unsized(s, "b", "p", 0, 0.0)
  {
    hide Apply, Plain, StepAt;
    states, ops := [Store(map[], DEFAULT_LIMITS, map[])], [];
    assert FromPeer(states[0].dl, "p") == {};
    var s1, op1 := BeginUnsized(states, ops, "a", "p", hash);
    states, ops := states + [s1], ops + [op1];
    assert s1.dl.Keys == {"a"} && FromPeer(s1.dl, "p") == {"a"};
    var s2, op2 := BeginUnsized(states, ops, "b", "p", hash);
    states, ops := states + [s2], ops + [op2];
  }

  lemma {:induction false} ThreeUnsized(hash: seq<byte> -> string) returns (states: seq<Store>, ops: seq<Op>)
    ensures PlainRun(states, ops, hash) && Level(states[|ops|], 0, 0.0) && NotBefore(ops, 0.0)
  {
    hide Apply, Plain, StepAt;
    states, ops := TwoUnsized(hash);
    assert FromPeer(states[|ops|].dl, "q") == {};
    var s3, op3 := BeginUnsized(states, ops, "c", "q", hash);
    states, ops := states + [s3], ops + [op3];
  }

  /** A chunk's worth of bytes as it travels. */
  ghost function Piece(): string { Encode(seq(CHUNK_RAW, _ => 0)) }

  lemma {:induction false} PieceDecodes()
    ensures Decode(Piece()).Some? && |Decode(Piece()).value| == CHUNK_RAW
    ensures |Piece()| <= InboundReader.MAX_FRAME_BUF / 2
  {
    hide Encode, Decode;
    RoundTrip(seq(CHUNK_RAW, _ => 0));
    EncodedLength(seq(CHUNK_RAW, _ => 0));
  }

  /** Another piece arrives for one transfer, within the grace period; the others stay as they are. */
  lemma {:induction false} OnePiece(
      states: seq<Store>, ops: seq<Op>, f: FileId, peer: Pid, written: nat, last: real, now: real,
      hash: seq<byte> -> string)
    returns (s: Store, op: Op)
    requires PlainRun(states, ops, hash) && NotBefore(ops, now) && now - last <= TOTAL_GRACE
    requires states[|ops|].limits == DEFAULT_LIMITS && SumBy(states[|ops|].dl, WrittenOf) <= 4 * BIG
    requires Unsized(states[|ops|], f, peer, written, last) && written + CHUNK_RAW <= BIG
    ensures PlainRun(states + [s], ops + [op], hash) && Clock(op) == now && s.limits == DEFAULT_LIMITS
    ensures Unsized(s, f, peer, written + CHUNK_RAW, now) && s.dl == states[|ops|].dl[f := s.dl[f]]
    ensures SumBy(s.dl, WrittenOf) == SumBy(states[|ops|].dl, WrittenOf) + CHUNK_RAW
  {
    hide Decode, Piece;
    var s0 := states[|ops|];
    PieceDecodes();
    op := DoChunk(f, peer, Piece(), 0, ChunkEnv(now, Some(Free(s0)), Some(Free(s0)), true));
    OneMorePlain(states, ops, op, hash);
    s := Apply(s0, op, hash);
    SumUpdate(s0.dl, WrittenOf, f, s.dl[f]);
  }

  /** A second later a piece arrives for each of the three. */
  lemma {:induction false} OneRound(
      states: seq<Store>, ops: seq<Op>, written: nat, last: real, hash: seq<byte> -> string)
    returns (states': seq<Store>, ops': seq<Op>)
    requires PlainRun(states, ops, hash) && NotBefore(ops, last)
    requires Level(states[|ops|], written, last) && written + CHUNK_RAW <= BIG
    ensures PlainRun(states', ops', hash) && NotBefore(ops', last + 1.0)
    ensures Level(states'[|ops'|], written + CHUNK_RAW, last + 1.0)
  {
    hide Apply, Plain, StepAt;
    var s1, op1 := OnePiece(states, ops, "a", "p", written, last, last + 1.0, hash);
    states', ops' := states + [s1], ops + [op1];
    var s2, op2 := OnePiece(states', ops', "b", "p", written, last, last + 1.0, hash);
    states', ops' := states' + [s2], ops' + [op2];
    var s3, op3 := OnePiece(states', ops', "c", "q", written, last, last + 1.0, hash);
    states', ops' := states' + [s3], ops' + [op3];
  }

  /** So do any number of rounds, up to the cap. */
  lemma {:induction false} ManyRounds(n: nat, hash: seq<byte> -> string)
    returns (states: seq<Store>, ops: seq<Op>)
    requires n * CHUNK_RAW <= BIG
    ensures PlainRun(states, ops, hash) && NotBefore(ops, n as real) && Level(states[|ops|], n * CHUNK_RAW, n as real)
  {
    hide Apply, Plain, Level, Unsized;
    if n == 0 {
      states, ops := ThreeUnsized(hash);
    } else {
      states, ops := ManyRounds(n - 1, hash);
      states, ops := OneRound(states, ops, (n - 1) * CHUNK_RAW, (n - 1) as real, hash);
    }
  }

  /** The announcement of sizes is needed: three transfers whose chunks, of the size every sender uses and
      a second apart, never announce one are all admitted, and together they write more than the
      aggregate budget under the default limits. */
  lemma {:induction false} UnannouncedBytesEscapeTheBudget(hash: seq<byte> -> string)
    returns (states: seq<Store>, ops: seq<Op>)
    ensures PlainRun(states, ops, hash)
    ensures forall k | 0 <= k < |ops| && ops[k].DoChunk? ::
              Decode(ops[k].data).Some? && |Decode(ops[k].data).value| <= CHUNK_RAW
    ensures SumBy(states[|ops|].dl, WrittenOf) > states[|ops|].limits.maxReserved
  {
    hide Apply, Decode;
    states, ops := ManyRounds(BIG / CHUNK_RAW, hash);
    forall k | 0 <= k < |ops| && ops[k].DoChunk?
      ensures Decode(ops[k].data).Some? && |Decode(ops[k].data).value| <= CHUNK_RAW { assert Plain(states[k], ops[k]); }
  }

  /** The overrun happens: one chunk without a size, then one that declares a single byte and does not
      decode. */
  lemma {:induction false} LateTotalOverruns(hash: seq<byte> -> string) returns (states: seq<Store>, ops: seq<Op>)
    ensures |ops| == 3 && IsRun(states, ops, hash)
    ensures "a" in states[2].dl && NotOverrun(states[2].dl["a"])
    ensures "a" in states[3].dl && !NotOverrun(states[3].dl["a"])
  {
    hide Apply, Plain;
    states, ops := [Store(map[], DEFAULT_LIMITS, map[])], [];
    assert FromPeer(states[0].dl, "p") == {};
    var s1, op1 := BeginUnsized(states, ops, "a", "p", hash);
    states, ops := states + [s1], ops + [op1];
    var s2, op2 := OnePiece(states, ops, "a", "p", 0, 0.0, 1.0, hash);
    states, ops := states + [s2], ops + [op2];
    var s3, op3 := LateTotal(s2, hash);
    OneMore(states, ops, op3, hash);
    states, ops := states + [s3], ops + [op3];
  }

  lemma {:induction false} LateTotal(s: Store, hash: seq<byte> -> string) returns (s': Store, op: Op)
    requires Unsized(s, "a", "p", CHUNK_RAW, 1.0) && s.limits == DEFAULT_LIMITS && s.dl == map["a" := s.dl["a"]]
    ensures s' == Apply(s, op, hash) && "a" in s'.dl && !NotOverrun(s'.dl["a"])
  {
    op := DoChunk("a", "p", "A", 1, ChunkEnv(2.0, Some(DISK), Some(DISK), true));
    s' := Apply(s, op, hash);
    LoneLetter();
    SumUpdate(map[], Charge, "a", s.dl["a"]);
  }

  lemma {:induction false} LoneLetter()
    ensures Decode("A").None?
  {
    assert "A"[1..] == "";
    assert DecodeFrom("A", START) == DecodeFrom("", Scan(1, 0, 0));
  }
}
