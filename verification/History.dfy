/** The message history of one process: what is kept, and which inbound messages are recorded. */
module History {
  const HISTORY_LIMIT := 500

  datatype Message = Message(mid: string, from: string, to: string, text: string)

  /** `seen` are the mids appended since the process started. `recorded` is a history: the mids under
      which plain inbound messages were recorded. */
  datatype Log = Log(entries: seq<Message>, seen: set<string>, recorded: seq<string>)

  function LastEntries(ms: seq<Message>): seq<Message> {
    if |ms| > HISTORY_LIMIT then ms[|ms| - HISTORY_LIMIT..] else ms
  }

  /** Append; a message without a mid is given a spare one. */
  function Append(l: Log, m: Message, spare: string): Log {
    var named := if m.mid == "" then m.(mid := spare) else m;
    l.(entries := LastEntries(l.entries + [named]), seen := l.seen + {named.mid})
  }

  function Receive(l: Log, m: Message, spare: string): Log {
    if m.mid == "" then Append(l, m, spare)
    else if m.mid in l.seen then l
    else Append(l, m, spare).(recorded := l.recorded + [m.mid])
  }

  function Keep(ms: seq<Message>, drop: Message -> bool): seq<Message> {
    if ms == [] then [] else Keep(ms[..|ms| - 1], drop) + if drop(ms[|ms| - 1]) then [] else [ms[|ms| - 1]]
  }

  function OfMid(mid: string): Message -> bool { (m: Message) => m.mid == mid }

  function OfPeer(peer: string): Message -> bool { (m: Message) => m.to == peer || m.from == peer }

  /** What happens to the log. Sent and revealed messages are recorded without looking. */
  datatype Event =
    | Inbound(m: Message, spare: string)
    | Record(m: Message, spare: string)
    | Delete(mid: string)
    | ClearPeer(peer: string)
    | ClearAll

  function Apply(l: Log, e: Event): Log {
    match e
    case Inbound(m, spare) => Receive(l, m, spare)
    case Record(m, spare) => Append(l, m, spare)
    case Delete(mid) => l.(entries := Keep(l.entries, OfMid(mid)))
    case ClearPeer(peer) => l.(entries := Keep(l.entries, OfPeer(peer)))
    case ClearAll => l.(entries := [])
  }

  /** A process that loads what was saved. */
  function Boot(saved: seq<Message>): Log { Log(LastEntries(saved), {}, []) }

  function Reach(saved: seq<Message>, events: seq<Event>): Log {
    if events == [] then Boot(saved) else Apply(Reach(saved, events[..|events| - 1]), events[|events| - 1])
  }

  // ---------------------------------------------------------------------------------------------
  // The log itself
  // ---------------------------------------------------------------------------------------------

  class HistoryLog {
    var entries: seq<Message>
    var seen: set<string>
    ghost var recorded: seq<string>

    ghost function State(): Log
      reads this
    {
      Log(entries, seen, recorded)
    }

    constructor (saved: seq<Message>)
      ensures State() == Boot(saved)
    {
      entries := if |saved| > HISTORY_LIMIT then saved[|saved| - HISTORY_LIMIT..] else saved;
      seen, recorded := {}, [];
    }

    method AppendHistory(m: Message, spare: string)
      modifies this
      ensures State() == Append(old(State()), m, spare)
    {
      var named := m;
      if m.mid == "" { named := m.(mid := spare); }
      seen := seen + {named.mid};
      entries := entries + [named];
      if |entries| > HISTORY_LIMIT { entries := entries[|entries| - HISTORY_LIMIT..]; }
    }

    predicate HasMid(mid: string)
      reads this
    {
      mid in seen
    }

    method HandleIncoming(m: Message, spare: string)
      modifies this
      ensures State() == Receive(old(State()), m, spare)
    {
      if m.mid != "" && HasMid(m.mid) { return; }
      AppendHistory(m, spare);
      if m.mid != "" { recorded := recorded + [m.mid]; }
    }

    method DropWhere(drop: Message -> bool) returns (removed: nat)
      modifies this`entries
      ensures entries == Keep(old(entries), drop)
      ensures removed == |old(entries)| - |entries|
    {
      var left: seq<Message> := [];
      for i := 0 to |entries|
        invariant entries == old(entries) && |left| <= i && left == Keep(entries[..i], drop)
      {
        assert entries[..i + 1][..i] == entries[..i];
        if !drop(entries[i]) { left := left + [entries[i]]; }
      }
      assert entries[..|entries|] == entries;
      removed := |entries| - |left|;
      entries := left;
    }

    method DeleteMessage(mid: string) returns (removed: bool)
      modifies this
      ensures State() == Apply(old(State()), Delete(mid))
    {
      var n := DropWhere(OfMid(mid));
      removed := n != 0;
    }

    method ClearForPeer(peer: string) returns (removed: nat)
      modifies this
      ensures State() == Apply(old(State()), ClearPeer(peer))
    {
      removed := DropWhere(OfPeer(peer));
    }

    method ClearEverything() returns (removed: nat)
      modifies this
      ensures State() == Apply(old(State()), ClearAll)
    {
      removed := |entries|;
      entries := [];
    }
  }

  // ---------------------------------------------------------------------------------------------
  // Every mid once
  // ---------------------------------------------------------------------------------------------

  /** The mid an event appends under, if it appends. */
  predicate Uses(e: Event, mid: string) {
    match e
    case Inbound(m, spare) => mid == if m.mid == "" then spare else m.mid
    case Record(m, spare) => mid == if m.mid == "" then spare else m.mid
    case _ => false
  }

  lemma {:induction false} SeenMeansUsed(saved: seq<Message>, events: seq<Event>, mid: string)
    ensures mid in Reach(saved, events).seen <==> exists e | e in events :: Uses(e, mid)
  {
    if events != [] {
      var before, e := events[..|events| - 1], events[|events| - 1];
      SeenMeansUsed(saved, before, mid);
      assert events == before + [e];
      assert e in events;
      if mid in Reach(saved, before).seen {
        var d :| d in before && Uses(d, mid);
        assert d in events;
      }
    }
  }

  /** A plain inbound message that carries a mid is recorded exactly if no message was appended under
      that mid since the process started, whatever was deleted, cleared or trimmed meanwhile. */
  lemma {:induction false} RecordedIffFirst(saved: seq<Message>, events: seq<Event>, m: Message, spare: string)
    requires m.mid != ""
    ensures var l, l' := Reach(saved, events), Reach(saved, events + [Inbound(m, spare)]);
            if exists e | e in events :: Uses(e, m.mid) then l' == l
            else l'.recorded == l.recorded + [m.mid] && l'.entries != [] && l'.entries[|l'.entries| - 1] == m
  {
    SeenMeansUsed(saved, events, m.mid);
    assert (events + [Inbound(m, spare)])[..|events|] == events;
  }

  /** Deleting by mid or by peer takes away exactly the entries of that mid, or from or to that peer, and
      leaves all others, each as often as before. */
  lemma {:induction false} DropsExactly(l: Log, e: Event, m: Message)
    requires !e.Inbound? && !e.Record?
    ensures var gone := match e
                        case Delete(mid) => m.mid == mid
                        case ClearPeer(peer) => m.from == peer || m.to == peer
                        case _ => true;
            multiset(Apply(l, e).entries)[m] == if gone then 0 else multiset(l.entries)[m]
  {
    match e
    case Delete(mid) => KeepCounts(l.entries, OfMid(mid), m);
    case ClearPeer(peer) => KeepCounts(l.entries, OfPeer(peer), m);
    case ClearAll =>
  }

  lemma {:induction false} KeepCounts(ms: seq<Message>, drop: Message -> bool, m: Message)
    ensures multiset(Keep(ms, drop))[m] == if drop(m) then 0 else multiset(ms)[m]
  {
    if ms != [] {
      var n := |ms| - 1;
      KeepCounts(ms[..n], drop, m);
      assert ms == ms[..n] + [ms[n]];
    }
  }

  /** What is kept is in the order it was. */
  lemma {:induction false} KeepOfBoth(a: seq<Message>, b: seq<Message>, drop: Message -> bool)
    ensures Keep(a + b, drop) == Keep(a, drop) + Keep(b, drop)
  {
    if b == [] {
      assert a + b == a;
    } else {
      var n := |b| - 1;
      assert (a + b)[..|a| + n] == a + b[..n];
      KeepOfBoth(a, b[..n], drop);
    }
  }

  /** A recorded message is the last entry; those before it stay in order, the oldest making room when
      there are 500. */
  lemma {:induction false} AppendKeepsTheLast(l: Log, m: Message, spare: string)
    ensures var named := Message(if m.mid == "" then spare else m.mid, m.from, m.to, m.text);
            var entries := Append(l, m, spare).entries;
            && |entries| == (if |l.entries| < 500 then |l.entries| + 1 else 500)
            && entries[|entries| - 1] == named
            && entries[..|entries| - 1] == l.entries[|l.entries| + 1 - |entries|..]
  {
  }

  /** A message that is only in the saved history is recorded a second time when it comes again after a
      restart: the mids seen are not saved. */
  lemma {:induction false} RestartForgetsMids(saved: seq<Message>, m: Message, spare: string)
    requires m in saved && m.mid != ""
    ensures Reach(saved, [Inbound(m, spare)]).recorded == [m.mid]
  {
    assert [Inbound(m, spare)][..0] == [];
  }

  /** Each mid at its first place only. */
  function FirstUses(mids: seq<string>): seq<string> {
    if mids == [] then []
    else
      var before, mid := mids[..|mids| - 1], mids[|mids| - 1];
      FirstUses(before) + if mid in before then [] else [mid]
  }

  lemma {:induction false} FirstUsesSnoc(mids: seq<string>, mid: string)
    ensures FirstUses(mids + [mid]) == FirstUses(mids) + if mid in mids then [] else [mid]
  {
    assert (mids + [mid])[..|mids|] == mids;
  }

  /** The mids of the plain inbound messages that carry one, in order of arrival. */
  function InboundMids(events: seq<Event>): seq<string> {
    if events == [] then []
    else
      var e := events[|events| - 1];
      InboundMids(events[..|events| - 1]) + if e.Inbound? && e.m.mid != "" then [e.m.mid] else []
  }

  /** Sent, revealed and unnamed messages go under other mids. */
  ghost predicate OthersApart(events: seq<Event>, mids: seq<string>) {
    forall e, mid | e in events && mid in mids :: Uses(e, mid) ==> e.Inbound? && e.m.mid != ""
  }

  lemma {:induction false} UsedMeansInbound(events: seq<Event>, mid: string)
    requires forall e | e in events && Uses(e, mid) :: e.Inbound? && e.m.mid != ""
    ensures (exists e | e in events :: Uses(e, mid)) <==> mid in InboundMids(events)
  {
    if events != [] {
      var before, e := events[..|events| - 1], events[|events| - 1];
      assert events == before + [e] && e in events;
      UsedMeansInbound(before, mid);
      if d :| d in before && Uses(d, mid) { assert d in events; }
      if mid in InboundMids(before) { var d :| d in before && Uses(d, mid); }
    }
  }

  /** Those of the mids that belong to a group. */
  function Among(mids: seq<string>, group: seq<string>): seq<string> {
    if mids == [] then []
    else
      var mid := mids[|mids| - 1];
      Among(mids[..|mids| - 1], group) + if mid in group then [mid] else []
  }

  lemma {:induction false} AmongSnoc(mids: seq<string>, mid: string, group: seq<string>)
    ensures Among(mids + [mid], group) == Among(mids, group) + if mid in group then [mid] else []
  {
    assert (mids + [mid])[..|mids|] == mids;
  }

  lemma {:induction false} AmongSame(mids: seq<string>, mid: string, group: seq<string>)
    ensures mid in Among(mids, group) <==> mid in mids && mid in group
  {
    if mids != [] {
      var n := |mids| - 1;
      AmongSame(mids[..n], mid, group);
      assert mids == mids[..n] + [mids[n]];
    }
  }

  /** What a process records of a group of mids that nothing else is appended under is the first of each,
      in order of arrival, whatever else arrives. */
  lemma {:induction false} RecordedIsFirstUses(saved: seq<Message>, events: seq<Event>, group: seq<string>)
    requires OthersApart(events, group)
    ensures Among(Reach(saved, events).recorded, group) == FirstUses(Among(InboundMids(events), group))
  {
    if events != [] {
      var before, e := events[..|events| - 1], events[|events| - 1];
      assert events == before + [e];
      RecordedIsFirstUses(saved, before, group);
      hide Among, FirstUses, Reach, InboundMids;
      if e.Inbound? && e.m.mid != "" {
        NextInbound(saved, before, e.m, e.spare, group);
      } else {
        RecordsNothing(saved, before, e);
      }
    }
  }

  lemma {:induction false} RecordsNothing(saved: seq<Message>, before: seq<Event>, e: Event)
    requires !(e.Inbound? && e.m.mid != "")
    ensures Reach(saved, before + [e]).recorded == Reach(saved, before).recorded
    ensures InboundMids(before + [e]) == InboundMids(before)
  {
    hide Keep, LastEntries;
    assert (before + [e])[..|before|] == before;
  }

  lemma {:induction false} NextInbound(
      saved: seq<Message>, before: seq<Event>, m: Message, spare: string, group: seq<string>)
    requires m.mid != "" && OthersApart(before, group)
    requires Among(Reach(saved, before).recorded, group) == FirstUses(Among(InboundMids(before), group))
    ensures var after := before + [Inbound(m, spare)];
            Among(Reach(saved, after).recorded, group) == FirstUses(Among(InboundMids(after), group))
  {
    var after := before + [Inbound(m, spare)];
    assert after[..|before|] == before;
    RecordedIffFirst(saved, before, m, spare);
    AmongSnoc(InboundMids(before), m.mid, group);
    AmongSnoc(Reach(saved, before).recorded, m.mid, group);
    if m.mid in group {
      UsedMeansInbound(before, m.mid);
      AmongSame(InboundMids(before), m.mid, group);
      FirstUsesSnoc(Among(InboundMids(before), group), m.mid);
    } else {
      assert Among(InboundMids(after), group) == Among(InboundMids(before), group);
    }
  }
}
