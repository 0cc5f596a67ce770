/**
 The challenger's pending events (challenger/eventhandler): what happened on L1 waits, in memory and in the database,
 until the same thing happens on L2, where it is compared, or until its time is up.
 */
module ChallengerEvents {
  import opened Prelude

  datatype Kind = Deposits | Outputs | Oracles | OracleRelays

  datatype Id = Id(kind: Kind, number: nat)

  /** The fields two events are compared by. */
  datatype Content =
    | Deposit(sequence: nat, l1BlockHeight: int, from: string, to: string, l1Denom: string, amount: string)
    | Output(l2BlockNumber: int, outputIndex: nat, outputRoot: Bytes)
    | Oracle(l1Height: nat, data: Bytes)
    | OracleRelay(l1Height: nat, oraclePriceHash: Bytes)

  /** time 0 is the zero time. */
  datatype Event = Event(content: Content, time: nat, timeout: bool)

  function IdOf(e: Event): Id
  {
    match e.content
    case Deposit(sequence, _, _, _, _, _) => Id(Deposits, sequence)
    case Output(_, outputIndex, _) => Id(Outputs, outputIndex)
    case Oracle(l1Height, _) => Id(Oracles, l1Height)
    case OracleRelay(l1Height, _) => Id(OracleRelays, l1Height)
  }

  /** None if the events are of different kinds. */
  function Equal(pending: Event, event: Event): Option<bool>
  {
    if IdOf(pending).kind != IdOf(event).kind then None else Some(pending.content == event.content)
  }

  datatype Reason = Mismatch | Overdue

  datatype Challenge = Challenge(id: Id, reason: Reason, time: nat)

  type Table = map<Id, Event>

  // ----- Order -----

  function Rank(k: Kind): nat
  {
    match k
    case Deposits => 0
    case Outputs => 1
    case Oracles => 2
    case OracleRelays => 3
  }

  predicate Before(a: Id, b: Id)
  {
    if a.kind == b.kind then a.number < b.number else Rank(a.kind) < Rank(b.kind)
  }

  predicate Sorted(events: seq<Event>)
  {
    forall i, j :: 0 <= i < j < |events| ==> Before(IdOf(events[i]), IdOf(events[j]))
  }

  /** The list is the table without the given ids. */
  predicate Lists(events: seq<Event>, t: Table, without: set<Id>)
  {
    && (forall e :: e in events ==> IdOf(e) in t && IdOf(e) !in without && t[IdOf(e)] == e)
    && (forall id :: id in t && id !in without ==> t[id] in events)
  }

  predicate Keyed(t: Table)
  {
    forall id :: id in t ==> IdOf(t[id]) == id
  }

  /** Whatever order a table is walked in, there is one sorted list of its events. */
  lemma {:induction false} SortedUnique(a: seq<Event>, b: seq<Event>)
    requires Sorted(a) && Sorted(b) && forall e :: e in a <==> e in b
    ensures a == b
    decreases |a|
  {
    assert |b| > 0 ==> b[0] in a;
    if |a| > 0 {
      assert a[0] in b;
      assert a[0] == b[0];
      var a', b' := a[1..], b[1..];
      forall e
        ensures e in a' <==> e in b'
      {
        assert a == [a[0]] + a' && b == [b[0]] + b';
        if e in a' {
          var i :| 0 <= i < |a'| && a'[i] == e;
          assert a[i + 1] == e;
          assert e in a && e != a[0];
        }
        if e in b' {
          var i :| 0 <= i < |b'| && b'[i] == e;
          assert b[i + 1] == e;
          assert e in b && e != b[0];
        }
      }
      SortedUnique(a', b');
    }
  }

  lemma BeforeTransitive(a: Id, b: Id, c: Id)
    requires Before(a, b) && Before(b, c)
    ensures Before(a, c)
  {
  }

  lemma SortedInsert(events: seq<Event>, e: Event, i: nat)
    requires Sorted(events) && i <= |events|
    requires forall k :: 0 <= k < i ==> Before(IdOf(events[k]), IdOf(e))
    requires i < |events| ==> Before(IdOf(e), IdOf(events[i]))
    ensures var r := events[..i] + [e] + events[i..]; Sorted(r) && forall x :: x in r <==> x in events || x == e
  {
    hide IdOf, Before;
    var r := events[..i] + [e] + events[i..];
    forall k | i <= k < |events|
      ensures Before(IdOf(e), IdOf(events[k]))
    {
      if i < k {
        BeforeTransitive(IdOf(e), IdOf(events[i]), IdOf(events[k]));
      }
    }
    forall a, b | 0 <= a < b < |r|
      ensures Before(IdOf(r[a]), IdOf(r[b]))
    {
      assert a != i ==> r[a] == events[if a < i then a else a - 1];
      assert b != i ==> r[b] == events[if b < i then b else b - 1];
    }
    assert events == events[..i] + events[i..];
  }

  // ----- Comparing -----

  /** The other events an oracle update settles: pending ones of its kind from earlier L1 blocks. */
  function Older(t: Table, event: Event): set<Id>
  {
    var id := IdOf(event);
    if id.kind == Oracles || id.kind == OracleRelays then
      set k | k in t && k.kind == id.kind && k.number < id.number
    else {}
  }

  /** What the events seen on L2 settle. */
  function Processed(t: Table, queue: seq<Event>): set<Id>
  {
    if |queue| == 0 then {}
    else
      var event := queue[|queue| - 1];
      Processed(t, queue[..|queue| - 1]) + {IdOf(event)} + Older(t, event)
  }

  /** One challenge for each event that differs from its pending counterpart. */
  function Mismatches(t: Table, queue: seq<Event>): seq<Challenge>
  {
    if |queue| == 0 then []
    else
      var event := queue[|queue| - 1];
      var rest := Mismatches(t, queue[..|queue| - 1]);
      if IdOf(event) in t && t[IdOf(event)].content != event.content
      then rest + [Challenge(IdOf(event), Mismatch, event.time)] else rest
  }

  predicate AllPending(t: Table, queue: seq<Event>)
  {
    forall i :: 0 <= i < |queue| ==> IdOf(queue[i]) in t
  }

  // ----- Overdue -----

  predicate IsOverdue(e: Event, blockTime: nat, duration: nat)
  {
    e.time != 0 && !e.timeout && blockTime > e.time + duration
  }

  function OverdueOf(events: seq<Event>, blockTime: nat, duration: nat): seq<Event>
  {
    if |events| == 0 then []
    else
      var rest := OverdueOf(events[..|events| - 1], blockTime, duration);
      var e := events[|events| - 1];
      if IsOverdue(e, blockTime, duration) then rest + [e.(timeout := true)] else rest
  }

  function OverdueChallenges(overdue: seq<Event>, blockTime: nat): (cs: seq<Challenge>)
    ensures |cs| == |overdue|
    ensures forall i :: 0 <= i < |cs| ==> cs[i] == Challenge(IdOf(overdue[i]), Overdue, blockTime)
  {
    seq(|overdue|, i requires 0 <= i < |overdue| => Challenge(IdOf(overdue[i]), Overdue, blockTime))
  }

  /** The table with each of these events in place of the one with its id. */
  function Put(t: Table, events: seq<Event>): Table
  {
    if |events| == 0 then t
    else Put(t, events[..|events| - 1])[IdOf(events[|events| - 1]) := events[|events| - 1]]
  }

  // ----- The handler -----

  /** An end-of-block pass, up to the commit. */
  datatype Pass = Refused | Checked(challenges: seq<Challenge>, processed: set<Id>, overdue: seq<Event>)

  class EventHandler {
    var pendingEvents: Table
    var db: Table
    var timeoutDuration: nat

    constructor (db: Table)
      ensures this.db == db && pendingEvents == map[] && timeoutDuration == 0
    {
      this.db, pendingEvents, timeoutDuration := db, map[], 0;
    }

    method Initialize(timeoutDuration: nat)
      modifies this`pendingEvents, this`timeoutDuration
      ensures pendingEvents == old(pendingEvents) + db && this.timeoutDuration == timeoutDuration
    {
      pendingEvents := pendingEvents + db;
      this.timeoutDuration := timeoutDuration;
    }

    method SetPendingEvents(events: seq<Event>)
      modifies this`pendingEvents
      ensures pendingEvents == Put(old(pendingEvents), events)
    {
      for i := 0 to |events|
        invariant pendingEvents == Put(old(pendingEvents), events[..i])
      {
        assert events[..i + 1][..i] == events[..i];
        pendingEvents := pendingEvents[IdOf(events[i]) := events[i]];
      }
      assert events[..|events|] == events;
    }

    method DeletePendingEvents(processed: set<Id>)
      modifies this`pendingEvents
      ensures pendingEvents == old(pendingEvents) - processed
    {
      pendingEvents := pendingEvents - processed;
    }

    /** Walks the table in no particular order and sorts. */
    method GetUnprocessedPendingEvents(processed: set<Id>) returns (events: seq<Event>)
      requires Keyed(pendingEvents)
      ensures Sorted(events) && Lists(events, pendingEvents, processed)
    {
      var copied := pendingEvents - processed;
      var left := copied.Keys;
      events := [];
      while left != {}
        invariant left <= copied.Keys
        invariant Sorted(events) && Lists(events, pendingEvents, processed + left)
      {
        var id :| id in left;
        events := InsertSorted(events, pendingEvents[id]);
        left := left - {id};
      }
      assert processed + left == processed;
    }

    static method InsertSorted(events: seq<Event>, e: Event) returns (r: seq<Event>)
      requires Sorted(events) && forall x :: x in events ==> IdOf(x) != IdOf(e)
      ensures Sorted(r) && forall x :: x in r <==> x in events || x == e
    {
      var i := 0;
      while i < |events| && Before(IdOf(events[i]), IdOf(e))
        invariant 0 <= i <= |events|
        invariant forall k :: 0 <= k < i ==> Before(IdOf(events[k]), IdOf(e))
      {
        i := i + 1;
      }
      assert i < |events| ==> events[i] in events && Before(IdOf(e), IdOf(events[i]));
      SortedInsert(events, e, i);
      r := events[..i] + [e] + events[i..];
    }

    /** Compares the block's events with the pending ones. */
    method CheckValue(queue: seq<Event>) returns (ok: bool, challenges: seq<Challenge>, processed: set<Id>)
      requires Keyed(pendingEvents)
      ensures ok == AllPending(pendingEvents, queue)
      ensures ok ==> challenges == Mismatches(pendingEvents, queue) && processed == Processed(pendingEvents, queue)
    {
      ok, challenges, processed := true, [], {};
      for i := 0 to |queue|
        invariant AllPending(pendingEvents, queue[..i])
        invariant challenges == Mismatches(pendingEvents, queue[..i])
        invariant processed == Processed(pendingEvents, queue[..i])
      {
        var event := queue[i];
        assert queue[..i + 1][..i] == queue[..i];
        if IdOf(event) !in pendingEvents {
          return false, [], {};
        }
        var pending := pendingEvents[IdOf(event)];
        var equal := Equal(pending, event);
        if equal.None? {
          return false, [], {};
        } else if !equal.value {
          challenges := challenges + [Challenge(IdOf(event), Mismatch, event.time)];
        }
        processed := processed + {IdOf(pending)};
        if IdOf(event).kind == Oracles {
          processed := processed + GetOlder(Oracles, IdOf(event).number);
        }
        if IdOf(event).kind == OracleRelays {
          processed := processed + GetOlder(OracleRelays, IdOf(event).number);
        }
      }
      assert queue[..|queue|] == queue;
    }

    function GetOlder(kind: Kind, toL1BlockHeight: nat): set<Id>
      reads this
    {
      set k | k in pendingEvents && k.kind == kind && k.number < toL1BlockHeight
    }

    /** Marks the overdue events where they are, in memory, and reports them. */
    method CheckTimeout(blockTime: nat, events: seq<Event>) returns (challenges: seq<Challenge>, overdue: seq<Event>)
      requires forall e :: e in events ==> Get(pendingEvents, IdOf(e)) == Some(e)
      modifies this`pendingEvents
      ensures forall c :: c in challenges <==>
                exists e :: e in events && e.time != 0 && !e.timeout && e.time + timeoutDuration < blockTime
                            && c == Challenge(IdOf(e), Overdue, blockTime)
      ensures overdue == OverdueOf(events, blockTime, timeoutDuration)
      ensures challenges == OverdueChallenges(overdue, blockTime)
      ensures pendingEvents == Put(old(pendingEvents), overdue)
    {
      challenges, overdue := [], [];
      for i := 0 to |events|
        invariant overdue == OverdueOf(events[..i], blockTime, timeoutDuration)
        invariant challenges == OverdueChallenges(overdue, blockTime)
        invariant forall c :: c in challenges <==>
                    exists k :: 0 <= k < i && events[k].time != 0 && !events[k].timeout && events[k].time + timeoutDuration < blockTime
                                && c == Challenge(IdOf(events[k]), Overdue, blockTime)
        invariant pendingEvents == Put(old(pendingEvents), overdue)
      {
        var e := events[i];
        assert events[..i + 1][..i] == events[..i];
        if e.time != 0 && !e.timeout && blockTime > e.time + timeoutDuration {
          challenges := challenges + [Challenge(IdOf(e), Overdue, blockTime)];
          assert (overdue + [e.(timeout := true)])[..|overdue|] == overdue;
          overdue := overdue + [e.(timeout := true)];
          pendingEvents := pendingEvents[IdOf(e) := e.(timeout := true)];
        }
      }
      assert events[..|events|] == events;
    }

    /** The end of an L2 block. The commit may fail; what CheckTimeout marked in memory stays marked. */
    method EndBlock(queue: seq<Event>, blockTime: nat, commits: bool) returns (pass: Pass)
      requires Keyed(pendingEvents)
      modifies this`pendingEvents, this`db
      ensures pass.Refused? == !AllPending(old(pendingEvents), queue)
      ensures pass.Refused? ==> pendingEvents == old(pendingEvents) && db == old(db)
      ensures pass.Checked? ==>
                && Checks(pass, old(pendingEvents), queue, blockTime, timeoutDuration)
                && pendingEvents == (if commits then Put(Put(old(pendingEvents), pass.overdue) - pass.processed, pass.overdue)
                                     else Put(old(pendingEvents), pass.overdue))
                && db == (if commits then Put(old(db), pass.overdue) - pass.processed else old(db))
    {
      var ok, challenges, processed := CheckValue(queue);
      if !ok {
        return Refused;
      }
      var unprocessed := GetUnprocessedPendingEvents(processed);
      var late, overdue := CheckTimeout(blockTime, unprocessed);
      pass := Checked(challenges + late, processed, overdue);
      if !commits {
        return;
      }
      db := Put(db, overdue) - processed;
      DeletePendingEvents(processed);
      SetPendingEvents(overdue);
    }
  }

  /** What a pass over the pending events reports, settles and marks. */
  ghost predicate Checks(pass: Pass, t: Table, queue: seq<Event>, blockTime: nat, duration: nat)
  {
    && pass.Checked?
    && pass.processed == Processed(t, queue)
    && pass.challenges == Mismatches(t, queue) + OverdueChallenges(pass.overdue, blockTime)
    && exists events :: Sorted(events) && Lists(events, t, pass.processed) && pass.overdue == OverdueOf(events, blockTime, duration)
  }
}
