/** Which signed friend packets a daemon honours: the checks on one packet, the memory of consumed
    nonces that outlives the process, and what this means over whole runs with restarts. */
module PacketGuard {
  import opened Options
  import opened SignatureBlob

  const VALIDITY := 120.0
  const CLOCK_SLACK := 30.0

  /** An inbound packet. An instant is None when its field is absent, zero or not a number. */
  datatype Packet = Packet(
    kind: string, id: string, cert: string, to: string, nonce: string, sig: string, iat: Option<int>, exp: Option<int>)

  /** The fingerprint of a certificate, and whether a signature verifies over a text under it. */
  datatype Crypto = Crypto(fingerprint: string -> string, verifies: (string, string, string) -> bool)

  /** Consumed nonces with the signed expiry they were consumed under: in memory, and on disk (None
      when the file cannot be read). */
  datatype Memory = Memory(seen: map<string, real>, loaded: bool, disk: Option<map<string, real>>)

  // ---------------------------------------------------------------------------------------------
  // Consumed nonces
  // ---------------------------------------------------------------------------------------------

  function Load(m: Memory): Memory {
    if m.loaded then m else Memory(if m.disk.Some? then m.disk.value else m.seen, true, m.disk)
  }

  predicate Expired(exp: real, now: real) { exp + CLOCK_SLACK < now }

  function Prune(seen: map<string, real>, now: real): map<string, real> {
    map k | k in seen && !Expired(seen[k], now) :: seen[k]
  }

  /** First use of a key wins; the memory that remembers it is saved when the disk takes it. */
  function Consume(m: Memory, key: string, exp: real, now: real, saves: bool): (Memory, bool) {
    var seen := Prune(Load(m).seen, now);
    if key in seen then (Memory(seen, true, m.disk), false)
    else (Memory(seen[key := exp], true, if saves then Some(seen[key := exp]) else m.disk), true)
  }

  // ---------------------------------------------------------------------------------------------
  // One packet
  // ---------------------------------------------------------------------------------------------

  /** The signed window is neither inverted nor too long, and the clock is inside it. */
  predicate InWindow(iat: int, exp: int, now: real) {
    && iat < exp && exp as real <= iat as real + VALIDITY + CLOCK_SLACK
    && iat as real - CLOCK_SLACK <= now <= exp as real + CLOCK_SLACK
  }

  function Claims(p: Packet, me: string): Operation
    requires p.iat.Some? && p.exp.Some?
  {
    Operation(p.kind, p.id, me, p.nonce, p.iat.value, p.exp.value)
  }

  /** Everything that is checked before the nonce is consumed. */
  predicate Genuine(p: Packet, me: string, now: real, crypto: Crypto) {
    && p.id != "" && p.id != me
    && crypto.fingerprint(p.cert) == p.id
    && p.to == me
    && p.iat.Some? && p.exp.Some? && InWindow(p.iat.value, p.exp.value, now)
    && p.nonce != "" && crypto.verifies(p.cert, Blob(Claims(p, me)), p.sig)
  }

  /** Honour a packet, or drop it. */
  function Verify(m: Memory, p: Packet, me: string, now: real, saves: bool, crypto: Crypto): (Memory, bool) {
    if !Genuine(p, me, now, crypto) then (m, false)
    else Consume(m, SeenKey(p.id, p.nonce), p.exp.value as real, now, saves)
  }

  /** The guard itself. */
  class Guard {
    const me: string
    var seen: map<string, real>
    var loaded: bool
    var disk: Option<map<string, real>>

    ghost function State(): Memory
      reads this
    {
      Memory(seen, loaded, disk)
    }

    /** A process starts with nothing in memory and whatever the last one left on disk. */
    constructor (id: string, saved: Option<map<string, real>>)
      ensures me == id && State() == Memory(map[], false, saved)
    {
      me, seen, loaded, disk := id, map[], false, saved;
    }

    method SeenLoad()
      requires !loaded
      modifies this
      ensures State() == Load(old(State()))
    {
      loaded := true;
      if disk.Some? { seen := disk.value; }
    }

    method PruneSeen(now: real)
      modifies this`seen
      ensures seen == Prune(old(seen), now)
    {
      var stale := set k | k in seen && seen[k] + CLOCK_SLACK < now;
      ghost var gone: set<string> := {};
      while stale != {}
        invariant gone + stale == set k | k in old(seen) && Expired(old(seen)[k], now)
        invariant seen == map k | k in old(seen) && k !in gone :: old(seen)[k]
        decreases stale
      {
        var k :| k in stale;
        seen := seen - {k};
        stale := stale - {k};
        gone := gone + {k};
      }
    }

    method SeenCheck(sender: string, nonce: string, exp: real, now: real, saves: bool) returns (first: bool)
      modifies this
      ensures (State(), first) == Consume(old(State()), SeenKey(sender, nonce), exp, now, saves)
    {
      if !loaded { SeenLoad(); }
      PruneSeen(now);
      var key := SeenKey(sender, nonce);
      if key in seen { return false; }
      seen := seen[key := exp];
      if saves { disk := Some(seen); }
      return true;
    }

    /** Returns the verified sender, or the empty name to drop the packet. */
    method VerifyPacket(p: Packet, now: real, saves: bool, crypto: Crypto) returns (sender: string)
      modifies this
      ensures var (m, ok) := Verify(old(State()), p, me, now, saves, crypto);
              State() == m && sender == if ok then p.id else ""
    {
      if p.id == "" || p.id == me { return ""; }
      if crypto.fingerprint(p.cert) != p.id { return ""; }
      if p.to != me { return ""; }
      if p.iat.None? || p.exp.None? { return ""; }
      var iat, exp := p.iat.value, p.exp.value;
      if exp <= iat || exp as real > iat as real + VALIDITY + CLOCK_SLACK
         || now > exp as real + CLOCK_SLACK || now < iat as real - CLOCK_SLACK {
        return "";
      }
      if p.nonce == "" || !crypto.verifies(p.cert, Blob(Operation(p.kind, p.id, me, p.nonce, iat, exp)), p.sig) {
        return "";
      }
      var first := SeenCheck(p.id, p.nonce, exp as real, now, saves);
      return if first then p.id else "";
    }
  }

  /** The packet is acceptable only inside an interval of at most 210 seconds. */
  lemma {:induction false} AcceptableFor210Seconds(p: Packet, me: string, crypto: Crypto, t: real, u: real)
    requires Genuine(p, me, t, crypto) && Genuine(p, me, u, crypto)
    ensures u - t <= 210.0
  {
  }

  // ---------------------------------------------------------------------------------------------
  // Runs
  // ---------------------------------------------------------------------------------------------

  /** A packet arrives (and the disk takes a save or not), or the process restarts. */
  datatype Event = Arrive(p: Packet, now: real, saves: bool) | Restart

  function After(m: Memory, e: Event, me: string, crypto: Crypto): Memory {
    match e
    case Arrive(p, now, saves) => Verify(m, p, me, now, saves, crypto).0
    case Restart => Memory(map[], false, m.disk)
  }

  function Reach(events: seq<Event>, me: string, crypto: Crypto): Memory {
    if events == [] then Memory(map[], false, Some(map[]))
    else After(Reach(events[..|events| - 1], me, crypto), events[|events| - 1], me, crypto)
  }

  /** The `i`-th event is a packet that gets honoured. */
  predicate Honoured(events: seq<Event>, i: nat, me: string, crypto: Crypto) {
    && i < |events| && events[i].Arrive?
    && Verify(Reach(events[..i], me, crypto), events[i].p, me, events[i].now, events[i].saves, crypto).1
  }

  /** The clock does not go back between two arrivals. */
  predicate Forward(events: seq<Event>) {
    forall i, j | 0 <= i < j < |events| && events[i].Arrive? && events[j].Arrive? :: events[i].now <= events[j].now
  }

  /** Between the two events the memory is never lost: no restart, or no failed save. */
  predicate Kept(events: seq<Event>, i: nat, j: nat) {
    || (forall k | i <= k < j && k < |events| :: events[k] != Restart)
    || (forall k | i <= k < j && k < |events| :: events[k].Arrive? ==> events[k].saves)
  }

  predicate Holds(m: Memory, key: string, exp: real, durable: bool) {
    && (m.loaded ==> key in m.seen && m.seen[key] == exp)
    && (if durable then m.disk.Some? && key in m.disk.value && m.disk.value[key] == exp else m.loaded)
  }

  lemma {:induction false} StillHeld(
      m: Memory, e: Event, key: string, exp: real, durable: bool, me: string, crypto: Crypto)
    requires Holds(m, key, exp, durable)
    requires if durable then e.Arrive? ==> e.saves else e != Restart
    ensures Holds(After(m, e, me, crypto), key, exp, durable) || (e.Arrive? && Expired(exp, e.now))
  {
  }

  lemma {:induction false} NextState(events: seq<Event>, k: nat, me: string, crypto: Crypto)
    requires k < |events|
    ensures Reach(events[..k + 1], me, crypto) == After(Reach(events[..k], me, crypto), events[k], me, crypto)
  {
    assert events[..k + 1][..k] == events[..k];
  }

  /** What an honoured packet leaves in memory stays there until its signed expiry is past. */
  lemma {:induction false} HeldUntilExpiry(
      events: seq<Event>, i: nat, j: nat, durable: bool, me: string, crypto: Crypto)
    requires Honoured(events, i, me, crypto) && i < j <= |events| && Forward(events)
    requires if durable then forall k | i <= k < j :: events[k].Arrive? ==> events[k].saves
             else forall k | i <= k < j :: events[k] != Restart
    ensures var p := events[i].p;
            || Holds(Reach(events[..j], me, crypto), SeenKey(p.id, p.nonce), p.exp.value as real, durable)
            || exists k | i <= k < j :: events[k].Arrive? && Expired(p.exp.value as real, events[k].now)
    decreases j
  {
    NextState(events, j - 1, me, crypto);
    if i < j - 1 {
      var p := events[i].p;
      HeldUntilExpiry(events, i, j - 1, durable, me, crypto);
      var m := Reach(events[..j - 1], me, crypto);
      if Holds(m, SeenKey(p.id, p.nonce), p.exp.value as real, durable) {
        StillHeld(m, events[j - 1], SeenKey(p.id, p.nonce), p.exp.value as real, durable, me, crypto);
      }
    }
  }

  /** Two honoured packets with the same sender and nonce: the first had expired before the second
      came. So no packet is honoured twice, and no signed window is opened a second time. */
  lemma {:induction false} NonceHonouredOncePerWindow(events: seq<Event>, i: nat, j: nat, me: string, crypto: Crypto)
    requires Honoured(events, i, me, crypto) && Honoured(events, j, me, crypto) && i < j
    requires Forward(events) && Kept(events, i, j)
    requires events[i].p.id == events[j].p.id && events[i].p.nonce == events[j].p.nonce
    ensures events[i].p.exp.value as real + CLOCK_SLACK < events[j].now
    ensures events[i].p.exp.value < events[j].p.exp.value
  {
    var durable := exists k | i <= k < j :: events[k] == Restart;
    HeldUntilExpiry(events, i, j, durable, me, crypto);
  }

  // ---------------------------------------------------------------------------------------------
  // What gets through
  // ---------------------------------------------------------------------------------------------

  /** The packet as a sender makes it for us at instant `iat`: addressed to us, valid for 120 seconds,
      and signed over its fields under the certificate its id is the fingerprint of. */
  predicate MadeAt(p: Packet, iat: int, me: string, crypto: Crypto) {
    && p.id != "" && p.id != me && crypto.fingerprint(p.cert) == p.id && p.to == me && p.nonce != ""
    && p.iat == Some(iat) && p.exp == Some(iat + 120)
    && crypto.verifies(p.cert, Blob(Operation(p.kind, p.id, me, p.nonce, iat, iat + 120)), p.sig)
  }

  /** What the memory of the first `k` events, or the file behind it, still holds of a sender's nonce at
      an instant. */
  predicate Recalls(events: seq<Event>, k: nat, p: Packet, now: real, me: string, crypto: Crypto)
    requires k <= |events|
  {
    var m := Load(Reach(events[..k], me, crypto));
    SeenKey(p.id, p.nonce) in m.seen && now <= m.seen[SeenKey(p.id, p.nonce)] + 30.0
  }

  /** Every packet of every run: it is honoured exactly if it comes from somebody else under a certificate
      of that id, is addressed to us, says when it was made and until when it is valid, at most 150 seconds
      later, arrives in that time give or take 30 seconds, carries a nonce and a signature over all of this,
      and its nonce is not remembered. */
  lemma {:induction false} HonouredExactly(events: seq<Event>, k: nat, me: string, crypto: Crypto)
    requires k < |events| && events[k].Arrive?
    ensures var p, now := events[k].p, events[k].now;
            Honoured(events, k, me, crypto) <==>
              && p.id !in {"", me} && crypto.fingerprint(p.cert) == p.id && p.to == me && p.nonce != ""
              && p.iat.Some? && p.exp.Some? && 0 < p.exp.value - p.iat.value <= 150
              && p.iat.value as real - 30.0 <= now <= p.exp.value as real + 30.0
              && crypto.verifies(
                   p.cert, Blob(Operation(p.kind, p.id, me, p.nonce, p.iat.value, p.exp.value)), p.sig)
              && !Recalls(events, k, p, now, me, crypto)
  {
    var p := events[k].p;
    if p.iat.Some? && p.exp.Some? {
      assert p.exp.value - p.iat.value <= 150 <==> p.exp.value as real <= p.iat.value as real + VALIDITY + CLOCK_SLACK;
    }
  }

  /** A packet as its sender makes it, arriving from 30 seconds before it was made to 150 after, is
      honoured exactly if its nonce is not remembered; at any other time it is not. */
  lemma {:induction false} HonouredInItsWindow(events: seq<Event>, k: nat, iat: int, me: string, crypto: Crypto)
    requires k < |events| && events[k].Arrive? && MadeAt(events[k].p, iat, me, crypto)
    ensures Honoured(events, k, me, crypto) <==>
              && iat as real - 30.0 <= events[k].now <= iat as real + 150.0
              && !Recalls(events, k, events[k].p, events[k].now, me, crypto)
  {
    HonouredExactly(events, k, me, crypto);
    hide Honoured, Recalls;
  }

  /** In particular it is honoured if no packet before it used the sender and the nonce, whatever else
      came, however the disk behaved and however often the process restarted. */
  lemma {:induction false} FirstUseIsHonoured(events: seq<Event>, k: nat, iat: int, me: string, crypto: Crypto)
    requires k < |events| && events[k].Arrive? && MadeAt(events[k].p, iat, me, crypto)
    requires iat as real - 30.0 <= events[k].now <= iat as real + 150.0
    requires forall i | 0 <= i < k && events[i].Arrive? ::
               events[i].p.id != events[k].p.id || events[i].p.nonce != events[k].p.nonce
    ensures Honoured(events, k, me, crypto)
  {
    var p := events[k].p;
    HonouredInItsWindow(events, k, iat, me, crypto);
    EntriesAreTraced(events[..k], me, crypto);
    forall i: nat | Honoured(events[..k], i, me, crypto)
      ensures SeenKey(events[i].p.id, events[i].p.nonce) != SeenKey(p.id, p.nonce)
    {
      if SeenKey(events[i].p.id, events[i].p.nonce) == SeenKey(p.id, p.nonce) {
        SeenKeyInjective(events[i].p.id, events[i].p.nonce, p.id, p.nonce);
      }
    }
  }

  // ---------------------------------------------------------------------------------------------
  // Operations
  // ---------------------------------------------------------------------------------------------

  /** A signature that verifies was made, by the holder of the certificate's key, over the text of an
      operation of its own. */
  ghost predicate Unforgeable(crypto: Crypto, issued: set<Operation>) {
    forall cert, text, sig | crypto.verifies(cert, text, sig) ::
      exists op :: op in issued && Blob(op) == text && op.sender == crypto.fingerprint(cert)
  }

  /** A packet that passes the checks carries an operation its claimed sender issued for this very
      daemon: the same type, recipient, nonce and window. */
  lemma {:induction false} GenuineWasIssued(p: Packet, me: string, now: real, crypto: Crypto, issued: set<Operation>)
    requires Genuine(p, me, now, crypto) && Unforgeable(crypto, issued)
    ensures Claims(p, me) in issued
  {
    var op :| op in issued && Blob(op) == Blob(Claims(p, me)) && op.sender == crypto.fingerprint(p.cert);
    BlobInjective(op, Claims(p, me));
  }

  /** Over any run, with any number of restarts, every honoured packet is an operation that was issued
      to this daemon, and each operation is honoured at most once. */
  lemma {:induction false} OperationHonouredAtMostOnce(
      events: seq<Event>, i: nat, j: nat, me: string, crypto: Crypto, issued: set<Operation>)
    requires Honoured(events, i, me, crypto) && Honoured(events, j, me, crypto) && Unforgeable(crypto, issued)
    requires Forward(events) && Kept(events, i, j) && Kept(events, j, i)
    ensures Claims(events[i].p, me) in issued
    ensures Claims(events[i].p, me) == Claims(events[j].p, me) ==> i == j
  {
    GenuineWasIssued(events[i].p, me, events[i].now, crypto, issued);
    if Claims(events[i].p, me) == Claims(events[j].p, me) {
      if i < j { NonceHonouredOncePerWindow(events, i, j, me, crypto); }
      if j < i { NonceHonouredOncePerWindow(events, j, i, me, crypto); }
    }
  }

  // ---------------------------------------------------------------------------------------------
  // The memory stays small
  // ---------------------------------------------------------------------------------------------

  /** The entry was made by an honoured packet. */
  ghost predicate HasOrigin(events: seq<Event>, key: string, exp: real, me: string, crypto: Crypto) {
    exists i: nat :: Honoured(events, i, me, crypto) && IsOrigin(events[i].p, key, exp)
  }

  predicate IsOrigin(p: Packet, key: string, exp: real)
    requires p.exp.Some?
  {
    SeenKey(p.id, p.nonce) == key && p.exp.value as real == exp
  }

  ghost predicate AllFrom(events: seq<Event>, entries: map<string, real>, me: string, crypto: Crypto) {
    forall key | key in entries :: HasOrigin(events, key, entries[key], me, crypto)
  }

  ghost predicate Traced(events: seq<Event>, me: string, crypto: Crypto) {
    var m := Reach(events, me, crypto);
    AllFrom(events, m.seen, me, crypto) && m.disk.Some? && AllFrom(events, m.disk.value, me, crypto)
  }

  lemma {:induction false} StillFrom(events: seq<Event>, key: string, exp: real, me: string, crypto: Crypto)
    requires events != [] && HasOrigin(events[..|events| - 1], key, exp, me, crypto)
    ensures HasOrigin(events, key, exp, me, crypto)
  {
    var before := events[..|events| - 1];
    var i: nat :| Honoured(before, i, me, crypto) && IsOrigin(before[i].p, key, exp);
    assert before[..i] == events[..i];
    assert Honoured(events, i, me, crypto) && IsOrigin(events[i].p, key, exp);
  }

  lemma {:induction false} EntriesAreTraced(events: seq<Event>, me: string, crypto: Crypto)
    ensures Traced(events, me, crypto)
  {
    if events != [] {
      var k := |events| - 1;
      EntriesAreTraced(events[..k], me, crypto);
      var m, e := Reach(events[..k], me, crypto), events[k];
      forall key, exp | HasOrigin(events[..k], key, exp, me, crypto)
        ensures HasOrigin(events, key, exp, me, crypto) { StillFrom(events, key, exp, me, crypto); }
      if Honoured(events, k, me, crypto) {
        assert HasOrigin(events, SeenKey(e.p.id, e.p.nonce), e.p.exp.value as real, me, crypto) by {
          assert IsOrigin(e.p, SeenKey(e.p.id, e.p.nonce), e.p.exp.value as real);
        }
      }
    }
  }

  /** After any packet that gets as far as the nonce check, whatever is remembered was put there by a
      packet honoured at most 210 seconds ago: nothing older survives, in memory or across restarts. */
  lemma {:induction false} NothingOlderThan210Seconds(events: seq<Event>, key: string, me: string, crypto: Crypto)
    returns (i: nat)
    requires events != [] && events[|events| - 1].Arrive?
    requires Genuine(events[|events| - 1].p, me, events[|events| - 1].now, crypto)
    requires key in Reach(events, me, crypto).seen
    ensures Honoured(events, i, me, crypto) && SeenKey(events[i].p.id, events[i].p.nonce) == key
    ensures events[|events| - 1].now <= events[i].now + 210.0
  {
    EntriesAreTraced(events, me, crypto);
    var exp := Reach(events, me, crypto).seen[key];
    i :| Honoured(events, i, me, crypto) && IsOrigin(events[i].p, key, exp);
    if i < |events| - 1 { assert !Expired(exp, events[|events| - 1].now); }
  }

  // ---------------------------------------------------------------------------------------------
  // Why the conditions are needed
  // ---------------------------------------------------------------------------------------------

  /** Some packet honoured from event `i` on, before event `j`, was followed by a successful save. */
  predicate SavedBy(events: seq<Event>, i: nat, j: nat, me: string, crypto: Crypto)
    requires i <= j <= |events|
  {
    i < j && (SavedBy(events, i, j - 1, me, crypto) || (Honoured(events, j - 1, me, crypto) && events[j - 1].saves))
  }

  /** The process restarted at a moment when nothing had been saved since event `i`. */
  predicate ForgottenBy(events: seq<Event>, i: nat, j: nat, me: string, crypto: Crypto)
    requires i <= j <= |events|
  {
    i < j && (ForgottenBy(events, i, j - 1, me, crypto)
              || (events[j - 1] == Restart && !SavedBy(events, i, j - 1, me, crypto)))
  }

  /** No entry for the key, or one that no check after `t` still sees. */
  predicate Gone(entries: map<string, real>, key: string, t: real) { key in entries ==> Expired(entries[key], t) }

  predicate Has(entries: map<string, real>, key: string, exp: real) { key in entries && entries[key] == exp }

  /** Where the entry of a packet honoured at time `t` is, given whether it was saved or forgotten since. */
  predicate Tracked(m: Memory, key: string, exp: real, t: real, saved: bool, forgotten: bool) {
    && m.disk.Some? && (!m.loaded ==> m.seen == map[])
    && if forgotten then Gone(m.seen, key, t) && Gone(m.disk.value, key, t)
       else (m.loaded ==> Has(m.seen, key, exp))
            && (if saved then Has(m.disk.value, key, exp) else m.loaded && Gone(m.disk.value, key, t))
  }

  lemma {:induction false} TrackedStep(
      m: Memory, e: Event, key: string, exp: real, t: real, saved: bool, forgotten: bool, me: string, crypto: Crypto)
    requires Tracked(m, key, exp, t, saved, forgotten)
    requires e.Arrive? ==> t <= e.now && !Expired(exp, e.now)
    requires var honoured := e.Arrive? && Verify(m, e.p, me, e.now, e.saves, crypto).1;
             honoured ==> SeenKey(e.p.id, e.p.nonce) != key
    ensures var honoured := e.Arrive? && Verify(m, e.p, me, e.now, e.saves, crypto).1;
            Tracked(After(m, e, me, crypto), key, exp, t, saved || (honoured && e.saves),
                forgotten || (e == Restart && !saved))
  {
  }

  /** Nobody else uses the nonce between the two events. */
  predicate Alone(events: seq<Event>, i: nat, j: nat, me: string, crypto: Crypto)
    requires i < j < |events| && events[i].Arrive?
  {
    forall k | i < k < j && Honoured(events, k, me, crypto) ::
      SeenKey(events[k].p.id, events[k].p.nonce) != SeenKey(events[i].p.id, events[i].p.nonce)
  }

  /** The file can be read, and what it knows and the memory does not has expired by time `t`. */
  predicate Covered(m: Memory, key: string, t: real) {
    && m.disk.Some? && (!m.loaded ==> m.seen == map[])
    && (m.loaded && key in m.disk.value ==> Has(m.seen, key, m.disk.value[key]) || Expired(m.disk.value[key], t))
  }

  lemma {:induction false} CoveredStep(m: Memory, e: Event, key: string, t: real, me: string, crypto: Crypto)
    requires Covered(m, key, t) && (e.Arrive? ==> e.now <= t)
    ensures Covered(After(m, e, me, crypto), key, t)
  {
  }

  lemma {:induction false} AlwaysCovered(events: seq<Event>, key: string, t: real, me: string, crypto: Crypto)
    requires forall e | e in events && e.Arrive? :: e.now <= t
    ensures Covered(Reach(events, me, crypto), key, t)
  {
    if events != [] {
      var before, e := events[..|events| - 1], events[|events| - 1];
      assert e in events;
      AlwaysCovered(before, key, t, me, crypto);
      CoveredStep(Reach(before, me, crypto), e, key, t, me, crypto);
    }
  }

  lemma {:induction false} TrackedFromStart(m: Memory, e: Event, me: string, crypto: Crypto)
    requires e.Arrive? && Verify(m, e.p, me, e.now, e.saves, crypto).1
    requires Covered(m, SeenKey(e.p.id, e.p.nonce), e.now)
    ensures Tracked(After(m, e, me, crypto), SeenKey(e.p.id, e.p.nonce), e.p.exp.value as real, e.now, e.saves, false)
  {
  }

  ghost predicate TrackedAt(events: seq<Event>, i: nat, k: nat, me: string, crypto: Crypto)
    requires i < k <= |events| && Honoured(events, i, me, crypto)
  {
    var p := events[i].p;
    Tracked(Reach(events[..k], me, crypto), SeenKey(p.id, p.nonce), p.exp.value as real, events[i].now,
            SavedBy(events, i, k, me, crypto), ForgottenBy(events, i, k, me, crypto))
  }

  lemma {:induction false} SavedAtFirst(events: seq<Event>, i: nat, me: string, crypto: Crypto)
    requires Honoured(events, i, me, crypto)
    ensures SavedBy(events, i, i + 1, me, crypto) == events[i].saves && !ForgottenBy(events, i, i + 1, me, crypto)
  {
    hide Verify, Reach;
    assert !SavedBy(events, i, i, me, crypto) && !ForgottenBy(events, i, i, me, crypto);
  }

  lemma {:induction false} TrackedFirst(events: seq<Event>, i: nat, me: string, crypto: Crypto)
    requires Honoured(events, i, me, crypto) && Forward(events)
    ensures TrackedAt(events, i, i + 1, me, crypto)
  {
    hide Tracked, Covered, Reach, Genuine;
    SavedAtFirst(events, i, me, crypto);
    NextState(events, i, me, crypto);
    AlwaysCovered(events[..i], SeenKey(events[i].p.id, events[i].p.nonce), events[i].now, me, crypto);
    TrackedFromStart(Reach(events[..i], me, crypto), events[i], me, crypto);
  }

  lemma {:induction false} TrackedNext(events: seq<Event>, i: nat, j: nat, k: nat, me: string, crypto: Crypto)
    requires Honoured(events, i, me, crypto) && i < k < j < |events| && Forward(events)
    requires Alone(events, i, j, me, crypto)
    requires events[j].Arrive? && !Expired(events[i].p.exp.value as real, events[j].now)
    requires TrackedAt(events, i, k, me, crypto)
    ensures TrackedAt(events, i, k + 1, me, crypto)
  {
    var key, exp := SeenKey(events[i].p.id, events[i].p.nonce), events[i].p.exp.value as real;
    hide Tracked, Verify, Reach;
    NextState(events, k, me, crypto);
    TrackedStep(Reach(events[..k], me, crypto), events[k], key, exp, events[i].now,
                SavedBy(events, i, k, me, crypto), ForgottenBy(events, i, k, me, crypto), me, crypto);
  }

  lemma {:induction false} TrackedUntil(events: seq<Event>, i: nat, j: nat, k: nat, me: string, crypto: Crypto)
    requires Honoured(events, i, me, crypto) && i < k <= j < |events| && Forward(events)
    requires Alone(events, i, j, me, crypto)
    requires events[j].Arrive? && !Expired(events[i].p.exp.value as real, events[j].now)
    ensures TrackedAt(events, i, k, me, crypto)
  {
    hide TrackedAt, Verify, Reach;
    if k == i + 1 {
      TrackedFirst(events, i, me, crypto);
    } else {
      TrackedUntil(events, i, j, k - 1, me, crypto);
      TrackedNext(events, i, j, k - 1, me, crypto);
    }
  }

  /** Exactly when a nonce is honoured a second time inside its signed window: if and only if the process
      restarted at a moment when nothing had been saved since the first time. */
  lemma {:induction false} HonouredAgainIffForgotten(events: seq<Event>, i: nat, j: nat, me: string, crypto: Crypto)
    requires Honoured(events, i, me, crypto) && i < j < |events| && Forward(events) && Alone(events, i, j, me, crypto)
    requires events[j].Arrive? && Genuine(events[j].p, me, events[j].now, crypto)
    requires events[j].p.id == events[i].p.id && events[j].p.nonce == events[i].p.nonce
    requires !Expired(events[i].p.exp.value as real, events[j].now)
    ensures Honoured(events, j, me, crypto) <==> ForgottenBy(events, i, j, me, crypto)
  {
    TrackedUntil(events, i, j, j, me, crypto);
  }

  /** Such a restart happens: a failed save, then a restart while the packet is still acceptable. */
  lemma {:induction false} FailedSaveReopensTheWindow(p: Packet, t: real, u: real, me: string, crypto: Crypto)
    requires Genuine(p, me, t, crypto) && Genuine(p, me, u, crypto) && t <= u
    ensures var events := [Arrive(p, t, false), Restart, Arrive(p, u, true)];
            Forward(events) && Honoured(events, 0, me, crypto) && Honoured(events, 2, me, crypto)
  {
    var events := [Arrive(p, t, false), Restart, Arrive(p, u, true)];
    assert events[..0] == [];
    NextState(events, 0, me, crypto);
    NextState(events, 1, me, crypto);
    assert Reach(events[..2], me, crypto) == Memory(map[], false, Some(map[]));
  }

  /** After event `i` and before event `j`, or at it, a packet got to the nonce check by a clock past
      this expiry. */
  predicate PurgedBy(events: seq<Event>, i: nat, j: nat, exp: real, me: string, crypto: Crypto)
    requires i <= j < |events|
  {
    exists k | i < k <= j :: Purges(events[k], exp, me, crypto)
  }

  predicate Purges(e: Event, exp: real, me: string, crypto: Crypto) {
    e.Arrive? && Genuine(e.p, me, e.now, crypto) && Expired(exp, e.now)
  }

  lemma {:induction false} PurgeStep(
      m: Memory, e: Event, key: string, exp: real, purged: bool, me: string, crypto: Crypto)
    requires m.loaded && (if purged then key !in m.seen else Has(m.seen, key, exp)) && e.Arrive?
    requires Verify(m, e.p, me, e.now, e.saves, crypto).1 ==> SeenKey(e.p.id, e.p.nonce) != key
    ensures var m' := After(m, e, me, crypto);
            m'.loaded && if purged || Purges(e, exp, me, crypto) then key !in m'.seen else Has(m'.seen, key, exp)
  {
  }

  function KeyOf(p: Packet): string { SeenKey(p.id, p.nonce) }

  predicate SeenUnlessPurged(events: seq<Event>, i: nat, k: nat, me: string, crypto: Crypto)
    requires Honoured(events, i, me, crypto) && i <= k < |events|
  {
    var m, key, exp := Reach(events[..k + 1], me, crypto), KeyOf(events[i].p), events[i].p.exp.value as real;
    m.loaded && if PurgedBy(events, i, k, exp, me, crypto) then key !in m.seen else Has(m.seen, key, exp)
  }

  lemma {:induction false} SeenAtFirst(events: seq<Event>, i: nat, me: string, crypto: Crypto)
    requires Honoured(events, i, me, crypto)
    ensures SeenUnlessPurged(events, i, i, me, crypto)
  {
    NextState(events, i, me, crypto);
    NotPurgedYet(events, i, events[i].p.exp.value as real, me, crypto);
    hide Reach, PurgedBy, Genuine;
  }

  lemma {:induction false} SeenLater(events: seq<Event>, i: nat, k: nat, me: string, crypto: Crypto)
    requires Honoured(events, i, me, crypto) && i < k < |events| && SeenUnlessPurged(events, i, k - 1, me, crypto)
    requires events[k].Arrive? && (Honoured(events, k, me, crypto) ==> KeyOf(events[k].p) != KeyOf(events[i].p))
    ensures SeenUnlessPurged(events, i, k, me, crypto)
  {
    var key, exp := KeyOf(events[i].p), events[i].p.exp.value as real;
    NextState(events, k, me, crypto);
    PurgedLater(events, i, k, exp, me, crypto);
    hide Verify, PurgedBy, Purges, Reach;
    var purged := PurgedBy(events, i, k - 1, exp, me, crypto);
    PurgeStep(Reach(events[..k], me, crypto), events[k], key, exp, purged, me, crypto);
  }

  /** Without a restart the memory keeps the entry exactly until a packet purges it. */
  lemma {:induction false} SeenUntilPurged(events: seq<Event>, i: nat, j: nat, k: nat, me: string, crypto: Crypto)
    requires Honoured(events, i, me, crypto) && i <= k < j < |events| && Alone(events, i, j, me, crypto)
    requires forall l | i < l <= j :: events[l] != Restart
    ensures SeenUnlessPurged(events, i, k, me, crypto)
  {
    hide SeenUnlessPurged, Verify, Reach;
    if k == i {
      SeenAtFirst(events, i, me, crypto);
    } else {
      SeenUntilPurged(events, i, j, k - 1, me, crypto);
      SeenLater(events, i, k, me, crypto);
    }
  }

  lemma {:induction false} NotPurgedYet(events: seq<Event>, i: nat, exp: real, me: string, crypto: Crypto)
    requires i < |events|
    ensures !PurgedBy(events, i, i, exp, me, crypto)
  {
  }

  lemma {:induction false} PurgedLater(events: seq<Event>, i: nat, k: nat, exp: real, me: string, crypto: Crypto)
    requires i < k < |events|
    ensures PurgedBy(events, i, k, exp, me, crypto) <==>
            PurgedBy(events, i, k - 1, exp, me, crypto) || Purges(events[k], exp, me, crypto)
  {
    if PurgedBy(events, i, k - 1, exp, me, crypto) {
      var l :| i < l <= k - 1 && Purges(events[l], exp, me, crypto);
      assert Purges(events[l], exp, me, crypto);
    }
  }

  /** Whatever the clock does, while the process runs on: a nonce nobody else uses is honoured a second
      time if and only if some packet got to the nonce check, in between or this time, by a clock past
      the first packet's expiry. A clock that goes back is not enough by itself. */
  lemma {:induction false} HonouredAgainIffPurged(events: seq<Event>, i: nat, j: nat, me: string, crypto: Crypto)
    requires Honoured(events, i, me, crypto) && i < j < |events| && Alone(events, i, j, me, crypto)
    requires forall l | i < l <= j :: events[l] != Restart
    requires Genuine(events[j].p, me, events[j].now, crypto)
    requires events[j].p.id == events[i].p.id && events[j].p.nonce == events[i].p.nonce
    ensures Honoured(events, j, me, crypto) <==> PurgedBy(events, i, j, events[i].p.exp.value as real, me, crypto)
  {
    hide PurgedBy, Reach;
    SeenUntilPurged(events, i, j, j - 1, me, crypto);
    PurgedLater(events, i, j, events[i].p.exp.value as real, me, crypto);
  }

  // ---------------------------------------------------------------------------------------------
  // The exact condition, whatever the clock, the disk and the restarts do
  // ---------------------------------------------------------------------------------------------

  /** Does the memory still hold the nonce of the packet honoured at event `i` when the first `k` events
      are over? A purge removes it, and a restart leaves what is on disk. */
  predicate InMemory(events: seq<Event>, i: nat, k: nat, me: string, crypto: Crypto)
    requires Honoured(events, i, me, crypto) && i < k <= |events|
    decreases k, 0
  {
    || k - 1 == i
    || ((if events[k - 1].Restart? then OnDisk(events, i, k - 1, me, crypto)
         else InMemory(events, i, k - 1, me, crypto))
        && !Purges(events[k - 1], events[i].p.exp.value as real, me, crypto))
  }

  /** And the file? A packet that is honoured and saved leaves what is in memory. */
  predicate OnDisk(events: seq<Event>, i: nat, k: nat, me: string, crypto: Crypto)
    requires Honoured(events, i, me, crypto) && i < k <= |events|
    decreases k, 1
  {
    if Honoured(events, k - 1, me, crypto) && events[k - 1].saves then InMemory(events, i, k, me, crypto)
    else i < k - 1 && OnDisk(events, i, k - 1, me, crypto)
  }

  /** Nobody else uses the nonce before event `j`. */
  predicate OnlyUse(events: seq<Event>, i: nat, j: nat, me: string, crypto: Crypto)
    requires i < j <= |events| && events[i].Arrive?
  {
    forall k: nat | k < j && k != i && Honoured(events, k, me, crypto) :: KeyOf(events[k].p) != KeyOf(events[i].p)
  }

  predicate Copy(entries: map<string, real>, key: string, exp: real, there: bool) {
    if there then Has(entries, key, exp) else key !in entries
  }

  /** What a check would see of the key now, and after a restart. */
  predicate Copies(m: Memory, key: string, exp: real, inMemory: bool, onDisk: bool) {
    m.disk.Some? && Copy(Load(m).seen, key, exp, inMemory) && Copy(m.disk.value, key, exp, onDisk)
  }

  lemma {:induction false} CopiesStep(
      m: Memory, e: Event, key: string, exp: real, inMemory: bool, onDisk: bool, me: string, crypto: Crypto)
    requires Copies(m, key, exp, inMemory, onDisk)
    requires e.Arrive? && Verify(m, e.p, me, e.now, e.saves, crypto).1 ==> KeyOf(e.p) != key
    ensures var still := (if e.Restart? then onDisk else inMemory) && !Purges(e, exp, me, crypto);
            var saved := e.Arrive? && Verify(m, e.p, me, e.now, e.saves, crypto).1 && e.saves;
            Copies(After(m, e, me, crypto), key, exp, still, if saved then still else onDisk)
  {
  }

  lemma {:induction false} UnusedIsAbsent(events: seq<Event>, i: nat, me: string, crypto: Crypto)
    requires Honoured(events, i, me, crypto) && OnlyUse(events, i, i + 1, me, crypto)
    ensures Copies(Reach(events[..i], me, crypto), KeyOf(events[i].p), 0.0, false, false)
  {
    EntriesAreTraced(events[..i], me, crypto);
    var key := KeyOf(events[i].p);
    forall k: nat | Honoured(events[..i], k, me, crypto) ensures KeyOf(events[..i][k].p) != key {
      assert events[..i][..k] == events[..k];
      assert Honoured(events, k, me, crypto);
    }
  }

  ghost predicate CopiesAt(events: seq<Event>, i: nat, k: nat, me: string, crypto: Crypto)
    requires Honoured(events, i, me, crypto) && i < k <= |events|
  {
    Copies(Reach(events[..k], me, crypto), KeyOf(events[i].p), events[i].p.exp.value as real,
           InMemory(events, i, k, me, crypto), OnDisk(events, i, k, me, crypto))
  }

  lemma {:induction false} CopiesFirst(events: seq<Event>, i: nat, me: string, crypto: Crypto)
    requires Honoured(events, i, me, crypto) && OnlyUse(events, i, i + 1, me, crypto)
    ensures CopiesAt(events, i, i + 1, me, crypto)
  {
    UnusedIsAbsent(events, i, me, crypto);
    NextState(events, i, me, crypto);
    hide Reach, Genuine, OnlyUse;
  }

  lemma {:induction false} CopiesNext(events: seq<Event>, i: nat, k: nat, me: string, crypto: Crypto)
    requires Honoured(events, i, me, crypto) && i < k < |events| && OnlyUse(events, i, k + 1, me, crypto)
    requires CopiesAt(events, i, k, me, crypto)
    ensures CopiesAt(events, i, k + 1, me, crypto)
  {
    var key, exp := KeyOf(events[i].p), events[i].p.exp.value as real;
    NextState(events, k, me, crypto);
    hide Copies, Verify, Reach, Purges;
    CopiesStep(Reach(events[..k], me, crypto), events[k], key, exp,
               InMemory(events, i, k, me, crypto), OnDisk(events, i, k, me, crypto), me, crypto);
  }

  lemma {:induction false} CopiesAreRemembered(events: seq<Event>, i: nat, k: nat, me: string, crypto: Crypto)
    requires Honoured(events, i, me, crypto) && i < k <= |events| && OnlyUse(events, i, k, me, crypto)
    ensures CopiesAt(events, i, k, me, crypto)
  {
    hide CopiesAt, Verify, Reach;
    if k == i + 1 {
      CopiesFirst(events, i, me, crypto);
    } else {
      CopiesAreRemembered(events, i, k - 1, me, crypto);
      CopiesNext(events, i, k - 1, me, crypto);
    }
  }

  /** Over every run, with any clock, any failed saves and any restarts: a nonce nobody else uses is
      honoured again if and only if its copy in memory is gone or its signed expiry is past. */
  lemma {:induction false} HonouredAgainIffNotInMemory(
      events: seq<Event>, i: nat, j: nat, me: string, crypto: Crypto)
    requires Honoured(events, i, me, crypto) && i < j < |events| && OnlyUse(events, i, j, me, crypto)
    requires events[j].Arrive? && Genuine(events[j].p, me, events[j].now, crypto)
    requires events[j].p.id == events[i].p.id && events[j].p.nonce == events[i].p.nonce
    ensures Honoured(events, j, me, crypto) <==>
            !InMemory(events, i, j, me, crypto) || Expired(events[i].p.exp.value as real, events[j].now)
  {
    CopiesAreRemembered(events, i, j, me, crypto);
    hide Reach, Genuine, InMemory, OnDisk;
  }

  /** This happens: a packet from after the expiry purges the nonce, the clock goes back, and the first
      packet is honoured again. */
  lemma {:induction false} ClockGoingBackReopensTheWindow(
      p: Packet, q: Packet, t: real, u: real, me: string, crypto: Crypto)
    requires Genuine(p, me, t, crypto) && Genuine(q, me, u, crypto)
    requires SeenKey(p.id, p.nonce) != SeenKey(q.id, q.nonce) && Expired(p.exp.value as real, u)
    ensures var events := [Arrive(p, t, true), Arrive(q, u, true), Arrive(p, t, true)];
            Kept(events, 0, 2) && Honoured(events, 0, me, crypto) && Honoured(events, 2, me, crypto)
  {
    var events := [Arrive(p, t, true), Arrive(q, u, true), Arrive(p, t, true)];
    assert events[..0] == [];
    NextState(events, 0, me, crypto);
    NextState(events, 1, me, crypto);
    assert SeenKey(p.id, p.nonce) !in Reach(events[..2], me, crypto).seen;
  }
}
