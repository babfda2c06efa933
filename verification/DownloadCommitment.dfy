/** The promise that space committed to transfers (the declared total where one is known, the bytes
    written otherwise) never exceeds the aggregate budget: exactly when it is kept. */
module DownloadCommitment {
  import opened Base64
  import opened Bytes
  import opened Sums
  import opened DownloadModel
  import opened DownloadBudget

  ghost predicate WithinBudget(s: Store) { Reserved(s.dl) <= s.limits.maxReserved }

  ghost function Size(op: Op): nat
    requires op.DoChunk?
  {
    if Decode(op.data).Some? then |Decode(op.data).value| else 0
  }

  /** A chunk that announces no size, for a transfer of unknown size, and passes what a chunk is tested
      for: its peer, the grace period, its encoding, the cap, the free space where it is read again, and
      the write. */
  ghost predicate Unannounced(s: Store, op: Op) {
    && op.DoChunk? && op.total == 0 && op.f in s.dl && s.dl[op.f].total == 0
    && s.dl[op.f].peer == op.peer && op.cenv.now - s.dl[op.f].ts <= TOTAL_GRACE
    && Decode(op.data).Some? && s.dl[op.f].written + Size(op) <= s.dl[op.f].cap
    && (s.dl[op.f].written + Size(op) >= s.dl[op.f].nextCheck ==>
          op.cenv.freeAtWrite.Some? && op.cenv.freeAtWrite.value - Size(op) >= s.limits.minFree)
    && op.cenv.writes
  }

  /** The one way past the budget: such a chunk, bigger than the room that is left. */
  ghost predicate Overdraws(s: Store, op: Op) {
    Unannounced(s, op) && Reserved(s.dl) + Size(op) > s.limits.maxReserved
  }

  lemma {:induction false} LessIsCommitted(s: Store, s': Store)
    requires EntriesOk(s) && s'.dl.Keys <= s.dl.Keys && forall f | f in s'.dl :: s'.dl[f] == s.dl[f]
    ensures Reserved(s'.dl) <= Reserved(s.dl)
  {
    forall f | f in s.dl ensures 0 <= Charge(s.dl[f]) { assert EntryOk(s.dl[f]); }
    SumOfPart(s'.dl, s.dl, Charge);
  }

  lemma {:induction false} InsertCommits(s: Store, q: Request, env: BeginEnv)
    requires EntriesOk(s) && 0 <= s.limits.maxBytes && WithinBudget(s) && BeginVerdict(s, q, env) == Accepted
    ensures WithinBudget(Settle(s, q, env.now, Accepted))
  {
    if q.fileId in s.dl { assert EntryOk(s.dl[q.fileId]); }
    SumUpdate(s.dl, Charge, q.fileId, FreshEntry(s, q, env.now));
  }

  lemma {:induction false} BeginCommits(s: Store, q: Request, env: BeginEnv)
    requires EntriesOk(s) && 0 <= s.limits.maxBytes && WithinBudget(s)
    ensures WithinBudget(Begin(s, q, env).0)
  {
    var purged, s' := PurgeStale(s, env.now), Begin(s, q, env).0;
    LessIsCommitted(s, purged);
    assert EntriesOk(purged) by { forall f | f in purged.dl ensures EntryOk(purged.dl[f]) { assert EntryOk(s.dl[f]); } }
    if BeginVerdict(purged, q, env) == Accepted {
      InsertCommits(purged, q, env);
    } else {
      LessIsCommitted(purged, s');
    }
  }

  /** A first total is only let in if it fits beside the other transfers. */
  lemma {:induction false} TotalCommits(s: Store, f: FileId, total: int, env: ChunkEnv)
    requires EntriesOk(s) && WithinBudget(s) && f in s.dl && !TotalRefused(s, f, total, env)
    ensures WithinBudget(WithTotal(s, f, total)) && EntriesOk(WithTotal(s, f, total))
  {
    var d, s1 := s.dl[f], WithTotal(s, f, total);
    assert EntryOk(d);
    if total != 0 {
      SumUpdate(s.dl, Charge, f, d.(total := total));
      forall g | g in s1.dl ensures EntryOk(s1.dl[g]) { if g != f { assert EntryOk(s.dl[g]); } }
    }
  }

  lemma {:induction false} ChunkCommits(s: Store, op: Op, hash: seq<byte> -> string)
    requires EntriesOk(s) && WithinBudget(s) && op.DoChunk?
    ensures WithinBudget(Apply(s, op, hash)) <==> !Overdraws(s, op)
  {
    var f, r := op.f, Chunk(s, op.f, op.peer, op.data, op.total, op.cenv);
    if f !in s.dl || s.dl[f].peer != op.peer {
    } else if TotalRefused(s, f, op.total, op.cenv) {
      LessIsCommitted(s, r.store);
    } else {
      var s1 := WithTotal(s, f, op.total);
      TotalCommits(s, f, op.total, op.cenv);
      if r.ok {
        SumUpdate(s1.dl, Charge, f, Grown(s1.dl[f], Size(op), op.cenv.now));
        assert Reserved(r.store.dl) == Reserved(s1.dl) + if s1.dl[f].total != 0 then 0 else Size(op);
      } else {
        LessIsCommitted(s1, r.store);
      }
    }
  }

  lemma {:induction false} StepCommits(s: Store, op: Op, hash: seq<byte> -> string)
    requires EntriesOk(s) && 0 <= s.limits.maxBytes && WithinBudget(s) && NotLowered(s, op)
    ensures WithinBudget(Apply(s, op, hash)) <==> !Overdraws(s, op)
  {
    match op
    case DoBegin(q, env) => BeginCommits(s, q, env);
    case DoChunk(_, _, _, _, _) => ChunkCommits(s, op, hash);
    case DoDigest(f, peer, digest) => if f in s.dl { SumUpdate(s.dl, Charge, f, s.dl[f].(sha256 := digest)); }
    case DoFinish(_, _, _, _) => LessIsCommitted(s, Apply(s, op, hash));
    case DoLimits(_) =>
  }

  /** In every run whose limits are never lowered, the committed space stays within the budget up to a
      moment if and only if no chunk before it overdrew it. */
  lemma {:induction false} CommittedFitsIffNeverOverdrawn(
      states: seq<Store>, ops: seq<Op>, hash: seq<byte> -> string, k: nat)
    requires IsRun(states, ops, hash) && k < |states|
    requires forall j | 0 <= j < k :: NotLowered(states[j], ops[j])
    ensures (forall j | 0 <= j <= k :: WithinBudget(states[j])) <==>
            (forall j | 0 <= j < k :: !Overdraws(states[j], ops[j]))
  {
    hide Apply, Overdraws;
    if k > 0 {
      CommittedFitsIffNeverOverdrawn(states, ops, hash, k - 1);
      CapsSurviveAnyLimits(states, ops, hash, k - 1);
      assert StepAt(states, ops, hash, k - 1);
      if WithinBudget(states[k - 1]) { StepCommits(states[k - 1], ops[k - 1], hash); }
    }
  }
}
