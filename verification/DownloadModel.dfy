/** Reassembly of attachments on the receiving side: the table of transfers in progress, the limits
    they are admitted under, and the files they write, as functions from store to store.
    Downloads.DownloadTable is the table itself, proved to follow these functions. */
module DownloadModel {
  import opened Base64
  import opened Bytes
  import opened Options
  import opened Sums

  type FileId = string
  type Path = string
  type Pid = string

  const CHUNK_RAW := 128 * 1024
  const CHECK_INTERVAL := 8 * 1024 * 1024
  const MAX_CONCURRENT := 8
  const MAX_PER_PEER_MAX := 8
  const LIMIT_MIN := 64 * 1024 * 1024
  const LIMIT_HARD_MAX := 1024 * 1024 * 1024 * 1024
  const TOTAL_GRACE := 10.0
  const TRANSFER_TTL := 600.0

  /** The live limits: per file, over all transfers, space to keep free, transfers of one peer. */
  datatype Limits = Limits(maxBytes: int, maxReserved: int, minFree: int, maxPerPeer: int)

  const DEFAULT_LIMITS :=
    Limits(4 * 1024 * 1024 * 1024, 8 * 1024 * 1024 * 1024, 4 * 1024 * 1024 * 1024, 2)

  /** One transfer. `cap` is the per-file limit it was admitted under, `total` the declared size (0
      while unknown), `nextCheck` the size at which free space is read again. */
  datatype Entry = Entry(
    saveTo: Path, tmp: Path, mid: string, sha256: string, total: int, written: int,
    peer: Pid, ts: real, room: string, cap: int, nextCheck: int)

  datatype Store = Store(dl: map<FileId, Entry>, limits: Limits, files: map<Path, seq<byte>>)

  function PartOf(saveTo: Path): Path { saveTo + ".part" }

  function DropFile(s: Store, path: Path): Store { s.(files := s.files - {path}) }

  /** Tear a transfer down: its entry and its partial file go. */
  function Abort(s: Store, f: FileId): Store
    requires f in s.dl
  {
    Store(s.dl - {f}, s.limits, s.files - {s.dl[f].tmp})
  }

  // ---------------------------------------------------------------------------------------------
  // Capacity
  // ---------------------------------------------------------------------------------------------

  /** What a transfer counts for: its declared total once known, else the bytes written so far. */
  function Charge(e: Entry): int { if e.total != 0 then e.total else e.written }

  ghost function Reserved(dl: map<FileId, Entry>): int { SumBy(dl, Charge) }

  function FromPeer(dl: map<FileId, Entry>, peer: Pid): set<FileId> { set f | f in dl && dl[f].peer == peer }

  /** The one admission rule: under the file's cap, within the budget with everybody else, and on a
      disk known to hold it above the keep-free floor. */
  predicate Fits(limits: Limits, reserved: int, need: int, free: Option<int>, cap: int) {
    && need <= cap
    && reserved + need <= limits.maxReserved
    && free.Some? && need <= free.value - limits.minFree
  }

  // ---------------------------------------------------------------------------------------------
  // Begin
  // ---------------------------------------------------------------------------------------------

  datatype Request = Request(
    fileId: FileId, peer: Pid, saveTo: Path, sha256: string, mid: string, room: string, total: int)

  /** What begin reads: the clock, whether the partial file could be opened, the free space then. */
  datatype BeginEnv = BeginEnv(now: real, opens: bool, free: Option<int>)

  datatype Reason = Accepted | PerPeer | TooMany | OpenFailed | DiskUnknown | FileCap | DiskBudget

  predicate Stale(e: Entry, now: real) { now - e.ts > TRANSFER_TTL }

  function PurgeStale(s: Store, now: real): Store {
    Store(map f | f in s.dl && !Stale(s.dl[f], now) :: s.dl[f],
          s.limits,
          s.files - (set f | f in s.dl && Stale(s.dl[f], now) :: s.dl[f].tmp))
  }

  function Declared(total: int): int { if total < 0 then 0 else total }

  /** The worst case a transfer of unknown size is admitted for. */
  function WorstCase(limits: Limits, free: int): int {
    var room := if free - limits.minFree < 0 then 0 else free - limits.minFree;
    if limits.maxBytes < room then limits.maxBytes else room
  }

  ghost function BeginVerdict(s: Store, q: Request, env: BeginEnv): Reason {
    if |FromPeer(s.dl, q.peer)| >= s.limits.maxPerPeer then PerPeer
    else if |s.dl| >= MAX_CONCURRENT then TooMany
    else OpenVerdict(s, q, env)
  }

  ghost function OpenVerdict(s: Store, q: Request, env: BeginEnv): Reason {
    if !env.opens then OpenFailed else CapacityVerdict(s.dl, s.limits, Declared(q.total), env.free)
  }

  /** The capacity decision, taken once the partial file is open. */
  ghost function CapacityVerdict(dl: map<FileId, Entry>, limits: Limits, total: int, free: Option<int>): Reason {
    if free.None? then DiskUnknown
    else if total != 0 && total > limits.maxBytes then FileCap
    else
      var need := if total != 0 then total else WorstCase(limits, free.value);
      if Fits(limits, Reserved(dl), need, free, limits.maxBytes) then Accepted else DiskBudget
  }

  function FreshEntry(s: Store, q: Request, now: real): Entry {
    Entry(q.saveTo, PartOf(q.saveTo), q.mid, q.sha256, Declared(q.total), 0, q.peer, now, q.room,
          s.limits.maxBytes, CHECK_INTERVAL)
  }

  /** The end of begin: the entry is made, or the partial file is removed again. */
  function Settle(s: Store, q: Request, now: real, verdict: Reason): Store {
    if verdict == Accepted
    then Store(s.dl[q.fileId := FreshEntry(s, q, now)], s.limits, s.files[PartOf(q.saveTo) := []])
    else DropFile(s, PartOf(q.saveTo))
  }

  /** Settling forgets whether the partial file was there before. */
  lemma {:induction false} SettleAfterOpen(s: Store, q: Request, now: real, verdict: Reason)
    ensures Settle(s.(files := s.files[PartOf(q.saveTo) := []]), q, now, verdict) == Settle(s, q, now, verdict)
  {
    var tmp := PartOf(q.saveTo);
    assert s.files[tmp := []] - {tmp} == s.files - {tmp};
    assert s.files[tmp := []][tmp := []] == s.files[tmp := []];
  }

  ghost function Open(s: Store, q: Request, env: BeginEnv): (Store, Reason) {
    var verdict := BeginVerdict(s, q, env);
    if verdict == PerPeer || verdict == TooMany then (s, verdict) else (Settle(s, q, env.now, verdict), verdict)
  }

  /** Stale transfers go first. */
  ghost function Begin(s: Store, q: Request, env: BeginEnv): (Store, Reason) {
    Open(PurgeStale(s, env.now), q, env)
  }

  // ---------------------------------------------------------------------------------------------
  // Chunk
  // ---------------------------------------------------------------------------------------------

  /** What a chunk reads: the clock, free space when a first total arrives and before the write, and
      whether the write succeeds. */
  datatype ChunkEnv = ChunkEnv(now: real, freeAtTotal: Option<int>, freeAtWrite: Option<int>, writes: bool)

  datatype ChunkResult = ChunkResult(store: Store, ok: bool, total: int, written: int)

  /** Does the announced total (0: none) abort the transfer? */
  ghost predicate TotalRefused(s: Store, f: FileId, total: int, env: ChunkEnv)
    requires f in s.dl
  {
    var d := s.dl[f];
    if total != 0 then
      || total < 0 || total > d.cap || (d.total != 0 && total != d.total)
      || (d.total == 0 && !Fits(s.limits, Reserved(s.dl) - d.written, total, env.freeAtTotal, d.cap))
    else
      d.total == 0 && env.now - d.ts > TOTAL_GRACE
  }

  /** What an aborting announced total reports back. */
  function RefusedTotal(d: Entry, total: int): int {
    if total <= 0 then 0
    else if total > d.cap || d.total == 0 then total
    else d.total
  }

  predicate NeedsProbe(d: Entry, more: int) { d.written + more >= d.nextCheck }

  predicate ProbeFails(limits: Limits, free: Option<int>, more: int) {
    free.None? || free.value - more < limits.minFree
  }

  /** Does writing these bytes abort the transfer? */
  predicate WriteRefused(limits: Limits, d: Entry, more: int, env: ChunkEnv) {
    || d.written + more > d.cap
    || (d.total != 0 && d.written + more > d.total)
    || (NeedsProbe(d, more) && ProbeFails(limits, env.freeAtWrite, more))
    || !env.writes
  }

  /** Appending through the open handle. */
  function Append(files: map<Path, seq<byte>>, path: Path, raw: seq<byte>): map<Path, seq<byte>> {
    if path in files then files[path := files[path] + raw] else files
  }

  function Grown(d: Entry, more: int, now: real): Entry {
    d.(written := d.written + more, ts := now,
       nextCheck := if NeedsProbe(d, more) then d.written + CHECK_INTERVAL else d.nextCheck)
  }

  function WithTotal(s: Store, f: FileId, total: int): Store
    requires f in s.dl
  {
    if total == 0 then s else s.(dl := s.dl[f := s.dl[f].(total := total)])
  }

  ghost function Chunk(s: Store, f: FileId, peer: Pid, data: string, total: int, env: ChunkEnv): ChunkResult {
    if f !in s.dl || s.dl[f].peer != peer then ChunkResult(s, false, 0, 0)
    else if TotalRefused(s, f, total, env) then
      ChunkResult(Abort(s, f), false, RefusedTotal(s.dl[f], total), s.dl[f].written)
    else
      var s1 := WithTotal(s, f, total);
      var d := s1.dl[f];
      var raw := Decode(data);
      if raw.None? then ChunkResult(s1, false, d.total, d.written)
      else if WriteRefused(s.limits, d, |raw.value|, env) then ChunkResult(Abort(s1, f), false, d.total, d.written)
      else
        ChunkResult(
          Store(s1.dl[f := Grown(d, |raw.value|, env.now)], s.limits, Append(s.files, d.tmp, raw.value)),
          true, d.total, d.written + |raw.value|)
  }

  // ---------------------------------------------------------------------------------------------
  // Digest, finish, limits
  // ---------------------------------------------------------------------------------------------

  /** A digest from the end frame fills in only what the message metadata left empty. */
  function SetDigest(s: Store, f: FileId, peer: Pid, digest: string): Store {
    if digest == "" || f !in s.dl || s.dl[f].peer != peer || s.dl[f].sha256 != "" then s
    else s.(dl := s.dl[f := s.dl[f].(sha256 := digest)])
  }

  datatype Status = Saved | Mismatch | Aborted | Incomplete

  /** The digest of a file on disk, empty when it cannot be read. */
  function FileDigest(files: map<Path, seq<byte>>, path: Path, hash: seq<byte> -> string): string {
    if path in files then hash(files[path]) else ""
  }

  function FinishStatus(s: Store, d: Entry, ok: bool, hash: seq<byte> -> string, renames: bool): Status {
    if !ok then Aborted
    else if d.total > 0 && d.written != d.total then Incomplete
    else if d.sha256 != "" && FileDigest(s.files, d.tmp, hash) != d.sha256 then Mismatch
    else if !renames || d.tmp !in s.files then Aborted
    else Saved
  }

  /** An end or error frame of anybody but the recorded peer does nothing. */
  function Finish(s: Store, f: FileId, peer: Pid, ok: bool, hash: seq<byte> -> string, renames: bool)
    : (Store, Option<Status>)
  {
    if f !in s.dl || s.dl[f].peer != peer then (s, None) else
    var d := s.dl[f];
    var status := FinishStatus(s, d, ok, hash, renames);
    var files := if status == Saved then (s.files - {d.tmp})[d.saveTo := s.files[d.tmp]] else s.files - {d.tmp};
    (Store(s.dl - {f}, s.limits, files), Some(status))
  }

  /** The configuration's numbers; None for an absent key or a value of the wrong type. */
  datatype Config = Config(
    maxBytes: Option<int>, maxReserved: Option<int>, minFree: Option<int>, maxPerPeer: Option<int>)

  function Clamped(current: int, raw: Option<int>): int {
    if raw.None? || raw.value < LIMIT_MIN then current
    else if raw.value > LIMIT_HARD_MAX then LIMIT_HARD_MAX else raw.value
  }

  function Slots(current: int, raw: Option<int>): int {
    if raw.None? || raw.value < 1 then current
    else if raw.value > MAX_PER_PEER_MAX then MAX_PER_PEER_MAX else raw.value
  }

  function ApplyConfig(l: Limits, c: Config): Limits {
    var reserved := Clamped(l.maxReserved, c.maxReserved);
    var bytes := Clamped(l.maxBytes, c.maxBytes);
    Limits(if bytes > reserved then reserved else bytes, reserved, Clamped(l.minFree, c.minFree),
           Slots(Clamped(l.maxPerPeer, c.maxPerPeer), c.maxPerPeer))
  }

  // ---------------------------------------------------------------------------------------------
  // Runs
  // ---------------------------------------------------------------------------------------------

  datatype Op =
    | DoBegin(q: Request, benv: BeginEnv)
    | DoChunk(f: FileId, peer: Pid, data: string, total: int, cenv: ChunkEnv)
    | DoDigest(f: FileId, peer: Pid, digest: string)
    | DoFinish(f: FileId, peer: Pid, ok: bool, renames: bool)
    | DoLimits(config: Config)

  ghost function Apply(s: Store, op: Op, hash: seq<byte> -> string): Store {
    match op
    case DoBegin(q, env) => Begin(s, q, env).0
    case DoChunk(f, peer, data, total, env) => Chunk(s, f, peer, data, total, env).store
    case DoDigest(f, peer, digest) => SetDigest(s, f, peer, digest)
    case DoFinish(f, peer, ok, renames) => Finish(s, f, peer, ok, hash, renames).0
    case DoLimits(c) => s.(limits := ApplyConfig(s.limits, c))
  }
}
