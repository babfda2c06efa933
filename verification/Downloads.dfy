/** The receiver's transfer table and the sender's streaming loop, in place. Each method leaves the
    table exactly as DownloadModel says. */
module Downloads {
  import opened Base64
  import opened Bytes
  import opened Options
  import opened Sums
  import opened DownloadModel

  /** A store purged of its stale transfers, apart from those still to look at. */
  ghost function PurgedBut(s: Store, now: real, todo: set<FileId>): Store {
    Store(map f | f in s.dl && (f in todo || !Stale(s.dl[f], now)) :: s.dl[f],
          s.limits,
          s.files - (set f | f in s.dl && f !in todo && Stale(s.dl[f], now) :: s.dl[f].tmp))
  }

  lemma {:induction false} PurgeOneMore(s: Store, now: real, todo: set<FileId>, f: FileId)
    requires f in todo && todo <= s.dl.Keys
    ensures var s' := PurgedBut(s, now, todo);
            f in s'.dl && s'.dl[f] == s.dl[f]
            && PurgedBut(s, now, todo - {f}) == if Stale(s.dl[f], now) then Abort(s', f) else s'
  {
    var s', s'' := PurgedBut(s, now, todo), PurgedBut(s, now, todo - {f});
    var gone := set g | g in s.dl && g !in todo && Stale(s.dl[g], now) :: s.dl[g].tmp;
    var gone' := set g | g in s.dl && g !in todo - {f} && Stale(s.dl[g], now) :: s.dl[g].tmp;
    assert gone' == gone + if Stale(s.dl[f], now) then {s.dl[f].tmp} else {};
    if Stale(s.dl[f], now) {
      assert s''.dl == s'.dl - {f};
      assert s.files - gone' == (s.files - gone) - {s.dl[f].tmp};
    } else {
      assert s''.dl == s'.dl;
    }
  }


  class DownloadTable {
    var dl: map<FileId, Entry>
    var limits: Limits
    var files: map<Path, seq<byte>>
    var lastRefusal: Reason

    ghost function State(): Store
      reads this
    {
      Store(dl, limits, files)
    }

    constructor ()
      ensures State() == Store(map[], DEFAULT_LIMITS, map[]) && lastRefusal == Accepted
    {
      dl, files, limits, lastRefusal := map[], map[], DEFAULT_LIMITS, Accepted;
    }

    /** Space committed by the transfers in progress. */
    method ReservedBytes() returns (reserved: int)
      ensures reserved == Reserved(dl)
    {
      reserved := 0;
      var todo := dl;
      while todo != map[]
        invariant todo.Keys <= dl.Keys && forall f | f in todo :: todo[f] == dl[f]
        invariant reserved + SumBy(todo, Charge) == Reserved(dl)
        decreases |todo|
      {
        var f :| f in todo;
        SumSplit(todo, Charge, f);
        var e := todo[f];
        reserved := reserved + (if e.total != 0 then e.total else e.written);
        assert todo - {f} == map g | g in todo && g != f :: todo[g];
        todo := todo - {f};
      }
    }

    method AbortTransfer(f: FileId)
      requires f in dl
      modifies this`dl, this`files
      ensures State() == Abort(old(State()), f)
    {
      var tmp := dl[f].tmp;
      dl := dl - {f};
      files := files - {tmp};
    }

    method PurgeStaleTransfers(now: real)
      modifies this`dl, this`files
      ensures State() == PurgeStale(old(State()), now)
    {
      ghost var before := State();
      var todo := dl.Keys;
      while todo != {}
        invariant todo <= before.dl.Keys && State() == PurgedBut(before, now, todo)
        decreases todo
      {
        var f :| f in todo;
        PurgeOneMore(before, now, todo, f);
        todo := todo - {f};
        if now - dl[f].ts > TRANSFER_TTL { AbortTransfer(f); }
      }
    }

    method PeerCount(peer: Pid) returns (n: nat)
      ensures n == |FromPeer(dl, peer)|
    {
      n := 0;
      var todo := dl.Keys;
      ghost var counted: set<FileId> := {};
      while todo != {}
        invariant todo <= dl.Keys
        invariant counted == set f | f in dl && f !in todo && dl[f].peer == peer
        invariant n == |counted|
        decreases todo
      {
        var f :| f in todo;
        if dl[f].peer == peer { n := n + 1; counted := counted + {f}; }
        todo := todo - {f};
      }
      assert counted == FromPeer(dl, peer);
    }

    method CheckCapacity(total: int, free: Option<int>) returns (verdict: Reason)
      ensures verdict == CapacityVerdict(dl, limits, total, free)
    {
      if free.None? { return DiskUnknown; }
      var reserved := ReservedBytes();
      var cap := limits.maxBytes;
      if total != 0 {
        if total > cap { return FileCap; }
        return if Fits(limits, reserved, total, free, cap) then Accepted else DiskBudget;
      }
      return if Fits(limits, reserved, WorstCase(limits, free.value), free, cap) then Accepted else DiskBudget;
    }

    method DlBegin(q: Request, env: BeginEnv) returns (ok: bool)
      modifies this
      ensures (State(), lastRefusal) == Begin(old(State()), q, env) && ok == (lastRefusal == Accepted)
    {
      PurgeStaleTransfers(env.now);
      ok := OpenTransfer(q, env);
    }

    method OpenTransfer(q: Request, env: BeginEnv) returns (ok: bool)
      modifies this
      ensures (State(), lastRefusal) == Open(old(State()), q, env) && ok == (lastRefusal == Accepted)
    {
      var peerCount := PeerCount(q.peer);
      if peerCount >= limits.maxPerPeer { lastRefusal := PerPeer; return false; }
      if |dl| >= MAX_CONCURRENT { lastRefusal := TooMany; return false; }
      ok := OpenAndDecide(q, env);
    }

    method OpenAndDecide(q: Request, env: BeginEnv) returns (ok: bool)
      modifies this
      ensures lastRefusal == OpenVerdict(old(State()), q, env) && ok == (lastRefusal == Accepted)
      ensures State() == Settle(old(State()), q, env.now, lastRefusal)
    {
      ghost var s := State();
      var total := if q.total < 0 then 0 else q.total;
      lastRefusal := OpenFailed;
      if env.opens {
        // The file is opened first, so that the free space read next is that of a real destination.
        files := files[q.saveTo + ".part" := []];
        lastRefusal := CheckCapacity(total, env.free);
      }
      SettleTransfer(q, env.now, lastRefusal);
      SettleAfterOpen(s, q, env.now, lastRefusal);
      return lastRefusal == Accepted;
    }

    method SettleTransfer(q: Request, now: real, verdict: Reason)
      modifies this`dl, this`files
      ensures State() == DownloadModel.Settle(old(State()), q, now, verdict)
    {
      var tmp := q.saveTo + ".part";
      if verdict == Accepted {
        files := files[tmp := []];
        dl := dl[q.fileId := Entry(q.saveTo, tmp, q.mid, q.sha256, if q.total < 0 then 0 else q.total, 0, q.peer, now,
                                   q.room, limits.maxBytes, CHECK_INTERVAL)];
      } else {
        files := files - {tmp};
      }
    }

    method DlChunk(f: FileId, peer: Pid, data: string, total: int, env: ChunkEnv)
      returns (ok: bool, reportedTotal: int, written: int)
      modifies this`dl, this`files
      ensures var r := Chunk(old(State()), f, peer, data, total, env);
              State() == r.store && ok == r.ok && reportedTotal == r.total && written == r.written
    {
      if f !in dl || dl[f].peer != peer { return false, 0, 0; }
      var d := dl[f];
      if total != 0 {
        if total < 0 { AbortTransfer(f); return false, 0, d.written; }
        if total > d.cap { AbortTransfer(f); return false, total, d.written; }
        if d.total != 0 && total != d.total { AbortTransfer(f); return false, d.total, d.written; }
        if d.total == 0 {
          var reserved := ReservedBytes();
          reserved := reserved - d.written;
          if !Fits(limits, reserved, total, env.freeAtTotal, d.cap) {
            AbortTransfer(f);
            return false, total, d.written;
          }
        }
        d := d.(total := total);
        dl := dl[f := d];
      } else if d.total == 0 && env.now - d.ts > TOTAL_GRACE {
        AbortTransfer(f);
        return false, 0, d.written;
      }
      var raw := Decode(data);
      if raw.None? { return false, d.total, d.written; }
      var more := |raw.value|;
      if d.written + more > d.cap { AbortTransfer(f); return false, d.total, d.written; }
      if d.total != 0 && d.written + more > d.total { AbortTransfer(f); return false, d.total, d.written; }
      var next := d.nextCheck;
      if d.written + more >= d.nextCheck {
        if env.freeAtWrite.None? || env.freeAtWrite.value - more < limits.minFree {
          AbortTransfer(f);
          return false, d.total, d.written;
        }
        next := d.written + CHECK_INTERVAL;
      }
      if !env.writes { AbortTransfer(f); return false, d.total, d.written; }
      if d.tmp in files { files := files[d.tmp := files[d.tmp] + raw.value]; }
      dl := dl[f := d.(written := d.written + more, ts := env.now, nextCheck := next)];
      return true, d.total, d.written + more;
    }

    method SetExpectedDigest(f: FileId, peer: Pid, digest: string)
      modifies this`dl
      ensures State() == SetDigest(old(State()), f, peer, digest)
    {
      if digest == "" { return; }
      if f in dl && dl[f].peer == peer && dl[f].sha256 == "" { dl := dl[f := dl[f].(sha256 := digest)]; }
    }

    method DlFinish(f: FileId, peer: Pid, ok: bool, hash: seq<byte> -> string, renames: bool)
      returns (status: Option<Status>)
      modifies this`dl, this`files
      ensures (State(), status) == Finish(old(State()), f, peer, ok, hash, renames)
    {
      if f !in dl || dl[f].peer != peer { return None; }
      var d := dl[f];
      dl := dl - {f};
      if !ok { files := files - {d.tmp}; return Some(Aborted); }
      if d.total > 0 && d.written != d.total { files := files - {d.tmp}; return Some(Incomplete); }
      var digest := FileDigest(files, d.tmp, hash);
      if d.sha256 != "" && digest != d.sha256 { files := files - {d.tmp}; return Some(Mismatch); }
      if !renames || d.tmp !in files { files := files - {d.tmp}; return Some(Aborted); }
      var content := files[d.tmp];
      files := files - {d.tmp};
      files := files[d.saveTo := content];
      return Some(Saved);
    }

    method ApplyConfigLimits(c: Config)
      modifies this`limits
      ensures State() == old(State()).(limits := ApplyConfig(old(limits), c))
    {
      var l := limits;
      if c.maxBytes.Some? && c.maxBytes.value >= LIMIT_MIN {
        l := l.(maxBytes := if c.maxBytes.value > LIMIT_HARD_MAX then LIMIT_HARD_MAX else c.maxBytes.value);
      }
      if c.maxReserved.Some? && c.maxReserved.value >= LIMIT_MIN {
        l := l.(maxReserved := if c.maxReserved.value > LIMIT_HARD_MAX then LIMIT_HARD_MAX else c.maxReserved.value);
      }
      if c.minFree.Some? && c.minFree.value >= LIMIT_MIN {
        l := l.(minFree := if c.minFree.value > LIMIT_HARD_MAX then LIMIT_HARD_MAX else c.minFree.value);
      }
      // The slot count passes the byte loop too, and is then set again by its own rule.
      if c.maxPerPeer.Some? && c.maxPerPeer.value >= LIMIT_MIN {
        l := l.(maxPerPeer := if c.maxPerPeer.value > LIMIT_HARD_MAX then LIMIT_HARD_MAX else c.maxPerPeer.value);
      }
      if c.maxPerPeer.Some? && c.maxPerPeer.value >= 1 {
        l := l.(maxPerPeer := if c.maxPerPeer.value > MAX_PER_PEER_MAX then MAX_PER_PEER_MAX else c.maxPerPeer.value);
      }
      if l.maxBytes > l.maxReserved { l := l.(maxBytes := l.maxReserved); }
      limits := l;
    }
  }

  // ---------------------------------------------------------------------------------------------
  // The sender
  // ---------------------------------------------------------------------------------------------

  datatype Frame =
    | ChunkFrame(seqNo: nat, total: int, data: string)
    | EndFrame(total: int, sha256: string)

  /** The frames a whole file is sent as, from byte `at` on. */
  function FramesFrom(file: seq<byte>, at: nat, seqNo: nat, hash: seq<byte> -> string): seq<Frame>
    requires at <= |file|
    decreases |file| - at
  {
    if at == |file| then [EndFrame(|file|, hash(file))]
    else
      var next := if at + CHUNK_RAW < |file| then at + CHUNK_RAW else |file|;
      [ChunkFrame(seqNo, |file|, Encode(file[at..next]))] + FramesFrom(file, next, seqNo + 1, hash)
  }

  /** Stream a file that does not change while it is read; the socket takes the first `alive` writes. */
  method ServeAttachment(file: seq<byte>, hash: seq<byte> -> string, alive: nat) returns (sent: seq<Frame>)
    ensures var all := FramesFrom(file, 0, 0, hash);
            sent == if alive < |all| then all[..alive] else all
  {
    hide Encode;
    sent := [];
    var at, seqNo := 0, 0;
    ghost var all := FramesFrom(file, 0, 0, hash);
    var hashed: seq<byte> := [];
    while at < |file|
      invariant 0 <= at <= |file| && seqNo == |sent| <= alive
      invariant all == sent + FramesFrom(file, at, seqNo, hash)
      invariant hashed == file[..at]
    {
      var next := if at + CHUNK_RAW < |file| then at + CHUNK_RAW else |file|;
      var chunk := file[at..next];
      hashed := hashed + chunk;
      ghost var rest := FramesFrom(file, next, seqNo + 1, hash);
      if |sent| == alive { return; }
      sent := sent + [ChunkFrame(seqNo, |file|, Encode(chunk))];
      assert all == sent + rest;
      seqNo := seqNo + 1;
      at := next;
    }
    assert hashed == file;
    if |sent| < alive { sent := sent + [EndFrame(|file|, hash(hashed))]; }
  }

  /** The frame is the file's chunk of this number. */
  predicate IsChunkOf(file: seq<byte>, n: nat, frame: Frame) {
    var from, to := n * CHUNK_RAW, if (n + 1) * CHUNK_RAW < |file| then (n + 1) * CHUNK_RAW else |file|;
    from < |file| && frame == ChunkFrame(n, |file|, Encode(file[from..to]))
  }

  /** These are the chunks of the file from number `n` on, to its last byte, and the end. */
  ghost predicate IsRest(file: seq<byte>, n: nat, frames: seq<Frame>, hash: seq<byte> -> string) {
    var left := |frames| - 1;
    && left >= 0 && |file| <= (n + left) * CHUNK_RAW && frames[left] == EndFrame(|file|, hash(file))
    && forall i | 0 <= i < left :: IsChunkOf(file, n + i, frames[i])
  }

  lemma {:induction false} OneChunkMore(
      file: seq<byte>, n: nat, first: Frame, rest: seq<Frame>, hash: seq<byte> -> string)
    requires IsChunkOf(file, n, first) && IsRest(file, n + 1, rest, hash)
    ensures IsRest(file, n, [first] + rest, hash)
  {
    hide IsChunkOf;
    var frames := [first] + rest;
    forall i | 0 <= i < |frames| - 1 ensures IsChunkOf(file, n + i, frames[i]) {
      if i > 0 { assert IsChunkOf(file, n + 1 + (i - 1), rest[i - 1]); }
    }
  }

  /** The frames of a file: one chunk for each 128 kilobytes begun, numbered from zero and announcing the size
      of the file, and in the end its digest. */
  lemma {:induction false} FramesAre(file: seq<byte>, n: nat, hash: seq<byte> -> string)
    requires n * CHUNK_RAW <= |file|
    ensures IsRest(file, n, FramesFrom(file, n * CHUNK_RAW, n, hash), hash)
    decreases |file| - n * CHUNK_RAW
  {
    hide Encode;
    var at := n * CHUNK_RAW;
    if at < |file| {
      var next := if at + CHUNK_RAW < |file| then at + CHUNK_RAW else |file|;
      var first, rest := ChunkFrame(n, |file|, Encode(file[at..next])), FramesFrom(file, next, n + 1, hash);
      assert FramesFrom(file, at, n, hash) == [first] + rest;
      assert IsChunkOf(file, n, first);
      if next < |file| { FramesAre(file, n + 1, hash); } else { assert rest == [EndFrame(|file|, hash(file))]; }
      assert IsRest(file, n + 1, rest, hash);
      hide FramesFrom, IsRest;
      OneChunkMore(file, n, first, rest, hash);
    }
  }
}
