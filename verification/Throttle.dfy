/** The sliding-window throttle of the HTTP API. */
module Throttle {

  function Recent(log: seq<real>, window: real, now: real): seq<real> {
    if log == [] then []
    else
      var t := log[|log| - 1];
      Recent(log[..|log| - 1], window, now) + if now - t < window then [t] else []
  }

  /** A bucket that forgets what has left the window. */
  class Bucket {
    var stamps: seq<real>

    constructor ()
      ensures stamps == []
    {
      stamps := [];
    }

    method Allow(limit: int, window: real, now: real) returns (ok: bool)
      modifies this
      ensures ok == (|Recent(old(stamps), window, now)| < limit)
      ensures stamps == Recent(old(stamps), window, now) + if ok then [now] else []
    {
      var left: seq<real> := [];
      for i := 0 to |stamps|
        invariant stamps == old(stamps) && left == Recent(stamps[..i], window, now)
      {
        assert stamps[..i + 1][..i] == stamps[..i];
        if now - stamps[i] < window { left := left + [stamps[i]]; }
      }
      assert stamps[..|stamps|] == stamps;
      stamps := left;
      if |stamps| >= limit { return false; }
      stamps := stamps + [now];
      return true;
    }
  }

  // ---------------------------------------------------------------------------------------------
  // Runs
  // ---------------------------------------------------------------------------------------------

  /** What the bucket holds after the calls at these times. */
  function Held(times: seq<real>, limit: int, window: real): seq<real> {
    if times == [] then []
    else
      var now := times[|times| - 1];
      var left := Recent(Held(times[..|times| - 1], limit, window), window, now);
      left + if |left| < limit then [now] else []
  }

  /** Whether the last of the calls was allowed. */
  predicate Allowed(times: seq<real>, limit: int, window: real)
    requires times != []
  {
    |Recent(Held(times[..|times| - 1], limit, window), window, times[|times| - 1])| < limit
  }

  /** The full record of allowed calls, of which nothing is ever forgotten. */
  function Log(times: seq<real>, limit: int, window: real): seq<real> {
    if times == [] then []
    else Log(times[..|times| - 1], limit, window) + if Allowed(times, limit, window) then [times[|times| - 1]] else []
  }

  predicate Forward(times: seq<real>) { forall i, j | 0 <= i < j < |times| :: times[i] <= times[j] }

  lemma {:induction false} RecentTwice(log: seq<real>, window: real, before: real, now: real)
    requires before <= now
    ensures Recent(Recent(log, window, before), window, now) == Recent(log, window, now)
  {
    if log != [] {
      var t, shorter := log[|log| - 1], log[..|log| - 1];
      RecentTwice(shorter, window, before, now);
      if now - t < window || before - t < window {
        var r := Recent(shorter, window, before);
        assert (r + [t])[..|r|] == r;
        assert Recent(log, window, before) == r + [t];
      } else {
        assert Recent(log, window, before) == Recent(shorter, window, before);
        assert Recent(log, window, now) == Recent(shorter, window, now);
      }
    }
  }

  lemma {:induction false} RecentOfBoth(a: seq<real>, t: real, window: real, now: real)
    ensures Recent(a + [t], window, now) == Recent(a, window, now) + if now - t < window then [t] else []
  {
    assert (a + [t])[..|a|] == a;
  }

  lemma {:induction false} LogIsEarlier(times: seq<real>, limit: int, window: real, t: real)
    requires t in Log(times, limit, window)
    ensures t in times
  {
    if t in Log(times[..|times| - 1], limit, window) { LogIsEarlier(times[..|times| - 1], limit, window, t); }
  }

  /** Forgetting is safe: the bucket is what the full record shows inside the window. */
  lemma {:induction false} BucketIsRecentLog(times: seq<real>, limit: int, window: real)
    requires Forward(times) && times != [] && window > 0.0
    ensures Held(times, limit, window) == Recent(Log(times, limit, window), window, times[|times| - 1])
  {
    var before, now := times[..|times| - 1], times[|times| - 1];
    var log := Log(before, limit, window);
    if before == [] {
      assert Held(before, limit, window) == [] && log == [];
    } else {
      BucketIsRecentLog(before, limit, window);
      RecentTwice(log, window, before[|before| - 1], now);
    }
    assert Recent(Held(before, limit, window), window, now) == Recent(log, window, now);
    RecentOfBoth(log, now, window, now);
    if !Allowed(times, limit, window) { assert Log(times, limit, window) == log; }
  }

  /** A call is allowed exactly if fewer than `limit` allowed calls lie within the window before it. */
  lemma {:induction false} AllowedIffRoomInWindow(times: seq<real>, limit: int, window: real)
    requires Forward(times) && times != [] && window > 0.0
    ensures var before, now := times[..|times| - 1], times[|times| - 1];
            Allowed(times, limit, window) <==> |Recent(Log(before, limit, window), window, now)| < limit
  {
    var before, now := times[..|times| - 1], times[|times| - 1];
    if before != [] {
      BucketIsRecentLog(before, limit, window);
      RecentTwice(Log(before, limit, window), window, before[|before| - 1], now);
    }
  }

  lemma {:induction false} RecentHasTheLast(log: seq<real>, window: real, now: real, n: nat)
    requires n <= |log| && forall k | |log| - n <= k < |log| :: now - log[k] < window
    ensures |Recent(log, window, now)| >= n
  {
    if n > 0 { RecentHasTheLast(log[..|log| - 1], window, now, n - 1); }
  }

  lemma {:induction false} LogForward(times: seq<real>, limit: int, window: real)
    requires Forward(times)
    ensures Forward(Log(times, limit, window))
  {
    if times != [] {
      var before, now := times[..|times| - 1], times[|times| - 1];
      var log := Log(before, limit, window);
      LogForward(before, limit, window);
      forall j | 0 <= j < |log| ensures log[j] <= now {
        LogIsEarlier(before, limit, window, log[j]);
        var i :| 0 <= i < |before| && before[i] == log[j];
        assert times[i] <= times[|before|];
      }
      assert Log(times, limit, window) == log || Log(times, limit, window) == log + [now];
    }
  }

  lemma {:induction false} WindowWithRoom(log: seq<real>, limit: nat, window: real, now: real, i: nat)
    requires Forward(log) && i < |log| && i + limit == |log| && |Recent(log, window, now)| < limit
    ensures now - log[i] >= window
  {
    if now - log[i] < window {
      forall k | i <= k < |log| ensures now - log[k] < window {}
      RecentHasTheLast(log, window, now, limit);
    }
  }

  /** No window ever holds more than `limit` allowed calls: the call `limit` places after another comes
      at least a whole window later. */
  lemma {:induction false} NeverMoreThanLimit(times: seq<real>, limit: nat, window: real, i: nat)
    requires Forward(times) && window > 0.0 && limit > 0
    requires i + limit < |Log(times, limit, window)|
    ensures Log(times, limit, window)[i + limit] - Log(times, limit, window)[i] >= window
  {
    var before, now := times[..|times| - 1], times[|times| - 1];
    var log := Log(before, limit, window);
    if i + limit < |log| {
      NeverMoreThanLimit(before, limit, window, i);
    } else {
      AllowedIffRoomInWindow(times, limit, window);
      LogForward(before, limit, window);
      WindowWithRoom(log, limit, window, now, i);
    }
  }

  /** What is still inside the window, counted by its places in the log. */
  lemma {:induction false} RecentIsTheWindow(log: seq<real>, window: real, now: real)
    ensures |Recent(log, window, now)| == |set k | 0 <= k < |log| && now - log[k] < window|
    ensures forall t :: t in Recent(log, window, now) <==> t in log && now - t < window
  {
    var inside := set k | 0 <= k < |log| && now - log[k] < window;
    if log == [] {
      assert inside == {};
    } else {
      var n := |log| - 1;
      var before := set k | 0 <= k < n && now - log[k] < window;
      RecentIsTheWindow(log[..n], window, now);
      assert before == set k | 0 <= k < n && now - log[..n][k] < window;
      assert inside == before + if now - log[n] < window then {n} else {};
      assert log == log[..n] + [log[n]];
    }
  }
}
