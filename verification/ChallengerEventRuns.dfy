/** The child's pending events over whole runs: host blocks register, child blocks settle, attempts fail, the process restarts. */
module ChallengerEventRuns {
  import opened Prelude
  import opened ChallengerEvents

  // ----- What a block does to the tables -----

  /** The pending events a block reports as overdue. */
  function Reported(t: Table, processed: set<Id>, blockTime: nat, duration: nat): set<Id>
  {
    set id | id in t && id !in processed && IsOverdue(t[id], blockTime, duration)
  }

  function Marks(t: Table, ids: set<Id>): Table
    requires ids <= t.Keys
  {
    map id | id in ids :: t[id].(timeout := true)
  }

  /** The overdue events of a list, marked. */
  lemma {:induction false} OverdueOfIs(events: seq<Event>, blockTime: nat, duration: nat)
    ensures forall e :: e in OverdueOf(events, blockTime, duration) <==>
              e.timeout && e.(timeout := false) in events && IsOverdue(e.(timeout := false), blockTime, duration)
  {
    if |events| > 0 {
      var init, last := events[..|events| - 1], events[|events| - 1];
      assert events == init + [last];
      OverdueOfIs(init, blockTime, duration);
      if IsOverdue(last, blockTime, duration) {
        assert last.(timeout := true).(timeout := false) == last;
      }
    }
  }

  lemma {:induction false} PutIs(t: Table, events: seq<Event>, marks: Table)
    requires forall e :: e in events ==> Get(marks, IdOf(e)) == Some(e)
    ensures var r := Put(t, events);
            && (forall id :: id in r ==> (id in marks && r[id] == marks[id]) || (id in t && r[id] == t[id]))
            && (forall id :: id in t ==> id in r)
            && (forall e :: e in events ==> Get(r, IdOf(e)) == Some(e))
  {
    if |events| > 0 {
      var init, last := events[..|events| - 1], events[|events| - 1];
      assert events == init + [last];
      PutIs(t, init, marks);
    }
  }

  lemma PutAll(t: Table, events: seq<Event>, marks: Table)
    requires forall e :: e in events ==> Get(marks, IdOf(e)) == Some(e)
    requires forall id :: id in marks ==> marks[id] in events && IdOf(marks[id]) == id
    ensures Put(t, events) == t + marks
  {
    PutIs(t, events, marks);
    hide Put, IdOf;
    var r := Put(t, events);
    forall id | id in marks
      ensures id in r && r[id] == marks[id]
    {
      assert Get(r, IdOf(marks[id])) == Some(marks[id]);
    }
  }

  lemma SameId(e: Event, timeout: bool)
    ensures IdOf(e.(timeout := timeout)) == IdOf(e)
  {
  }

  lemma ListedMarks(events: seq<Event>, t: Table, processed: set<Id>, blockTime: nat, duration: nat)
    requires Keyed(t) && Lists(events, t, processed)
    ensures var marks := Marks(t, Reported(t, processed, blockTime, duration));
            var overdue := OverdueOf(events, blockTime, duration);
            && (forall e :: e in overdue ==> Get(marks, IdOf(e)) == Some(e))
            && (forall id :: id in marks ==> marks[id] in overdue && IdOf(marks[id]) == id)
  {
    var marks := Marks(t, Reported(t, processed, blockTime, duration));
    var overdue := OverdueOf(events, blockTime, duration);
    OverdueOfIs(events, blockTime, duration);
    hide OverdueOf, IdOf;
    forall e | e in overdue
      ensures Get(marks, IdOf(e)) == Some(e)
    {
      SameId(e, false);
    }
    forall id | id in marks
      ensures marks[id] in overdue && IdOf(marks[id]) == id
    {
      SameId(t[id], true);
      assert marks[id].(timeout := false) == t[id];
    }
  }

  /** A pass marks exactly the overdue events it does not settle. */
  lemma PassMarks(pass: Pass, t: Table, queue: seq<Event>, blockTime: nat, duration: nat, base: Table)
    requires Keyed(t) && Checks(pass, t, queue, blockTime, duration)
    ensures Put(base, pass.overdue) == base + Marks(t, Reported(t, Processed(t, queue), blockTime, duration))
  {
    var events :| Sorted(events) && Lists(events, t, pass.processed) && pass.overdue == OverdueOf(events, blockTime, duration);
    hide Keyed, Lists, Reported, Marks, Put, OverdueOf, Sorted;
    ListedMarks(events, t, pass.processed, blockTime, duration);
    PutAll(base, pass.overdue, Marks(t, Reported(t, pass.processed, blockTime, duration)));
  }

  // ----- Steps -----

  /** publishing: what the host has committed and not yet put in memory. */
  datatype Sys = Sys(mem: Table, db: Table, publishing: seq<Event>)

  datatype Action =
    | Register(events: seq<Event>)
    | Publish
    | End(queue: seq<Event>, blockTime: nat)
    | Abort(queue: seq<Event>, blockTime: nat)
    | HostMarks(id: Id)
    | Restart

  predicate Distinct(events: seq<Event>)
  {
    forall i, j :: 0 <= i < j < |events| ==> IdOf(events[i]) != IdOf(events[j])
  }

  predicate Enabled(s: Sys, a: Action)
  {
    match a
    // a host block registers ids that are not pending
    case Register(events) =>
      && s.publishing == [] && Distinct(events)
      && forall e :: e in events ==> IdOf(e) !in s.mem && IdOf(e) !in s.db && !e.timeout
    case Publish => true
    // otherwise the block is refused and nothing changes
    case End(queue, _) => AllPending(s.mem, queue)
    case Abort(queue, _) => AllPending(s.mem, queue)
    // the host keeps the last output, the same object, among its own pending events
    case HostMarks(id) => id.kind == Outputs && id in s.mem
    case Restart => true
  }

  function Ended(s: Sys, queue: seq<Event>, blockTime: nat, duration: nat): Sys
  {
    var processed := Processed(s.mem, queue);
    var marks := Marks(s.mem, Reported(s.mem, processed, blockTime, duration));
    s.(mem := s.mem + marks - processed, db := s.db + marks - processed)
  }

  function Next(s: Sys, a: Action, duration: nat): Sys
    requires Enabled(s, a)
  {
    match a
    case Register(events) => s.(db := Put(s.db, events), publishing := events)
    case Publish => s.(mem := Put(s.mem, s.publishing), publishing := [])
    case End(queue, blockTime) => Ended(s, queue, blockTime, duration)
    case Abort(queue, blockTime) =>
      s.(mem := s.mem + Marks(s.mem, Reported(s.mem, Processed(s.mem, queue), blockTime, duration)))
    case HostMarks(id) => s.(mem := s.mem[id := s.mem[id].(timeout := true)])
    case Restart => s.(mem := s.db, publishing := [])
  }

  /** The handler's end of block is this step. */
  lemma EndBlockSteps(s: Sys, s': Sys, pass: Pass, queue: seq<Event>, blockTime: nat, duration: nat, commits: bool)
    requires Keyed(s.mem) && Checks(pass, s.mem, queue, blockTime, duration) && AllPending(s.mem, queue)
    requires s'.publishing == s.publishing
    requires s'.mem == if commits then Put(Put(s.mem, pass.overdue) - pass.processed, pass.overdue) else Put(s.mem, pass.overdue)
    requires s'.db == if commits then Put(s.db, pass.overdue) - pass.processed else s.db
    ensures s' == Next(s, if commits then End(queue, blockTime) else Abort(queue, blockTime), duration)
  {
    var processed := Processed(s.mem, queue);
    var marks := Marks(s.mem, Reported(s.mem, processed, blockTime, duration));
    PassMarks(pass, s.mem, queue, blockTime, duration, s.mem);
    PassMarks(pass, s.mem, queue, blockTime, duration, s.mem + marks - processed);
    PassMarks(pass, s.mem, queue, blockTime, duration, s.db);
    assert pass.processed == processed;
    assert marks.Keys !! processed;
    hide Checks, Put, Processed, Reported, Marks, AllPending, Keyed;
    MarkedTwice(s.mem, marks, processed);
  }

  lemma MarkedTwice(t: Table, marks: Table, processed: set<Id>)
    requires marks.Keys !! processed
    ensures t + marks - processed + marks == t + marks - processed
  {
  }

  ghost predicate Run(states: seq<Sys>, actions: seq<Action>, duration: nat)
  {
    && |states| == |actions| + 1
    && forall i :: 0 <= i < |actions| ==> Enabled(states[i], actions[i]) && states[i + 1] == Next(states[i], actions[i], duration)
  }

  // ----- Memory and database agree -----

  /** Same event; what the database says is overdue, memory says too. */
  predicate Agrees(stored: Event, live: Event)
  {
    stored.content == live.content && stored.time == live.time && (stored.timeout ==> live.timeout)
  }

  predicate Announced(publishing: seq<Event>, id: Id)
  {
    exists i :: 0 <= i < |publishing| && IdOf(publishing[i]) == id
  }

  ghost predicate Inv(s: Sys)
  {
    && Keyed(s.mem) && Keyed(s.db)
    && (forall id :: id in s.mem ==> id in s.db && Agrees(s.db[id], s.mem[id]))
    && (forall id :: id in s.db ==> id in s.mem || Announced(s.publishing, id))
    && Distinct(s.publishing)
    && (forall i :: 0 <= i < |s.publishing| ==>
          Get(s.db, IdOf(s.publishing[i])) == Some(s.publishing[i]) && IdOf(s.publishing[i]) !in s.mem)
  }

  lemma RegisterKeeps(s: Sys, events: seq<Event>)
    requires Inv(s) && Enabled(s, Register(events))
    ensures Inv(s.(db := Put(s.db, events), publishing := events))
  {
    PutFresh(s.db, events);
    hide Put, IdOf;
    forall i | 0 <= i < |events|
      ensures IdOf(events[i]) !in s.mem
    {
      assert events[i] in events;
    }
  }

  /** Events with new ids are added and nothing else changes. */
  lemma {:induction false} PutFresh(t: Table, events: seq<Event>)
    requires Distinct(events)
    ensures var r := Put(t, events);
            && (forall i :: 0 <= i < |events| ==> Get(r, IdOf(events[i])) == Some(events[i]))
            && (forall id :: id in r <==> id in t || Announced(events, id))
            && (forall id :: id in t && !Announced(events, id) ==> r[id] == t[id])
            && (Keyed(t) ==> Keyed(r))
  {
    if |events| > 0 {
      var init, last := events[..|events| - 1], events[|events| - 1];
      PutFresh(t, init);
      AnnouncedLast(init, last);
      assert events == init + [last];
    }
  }

  lemma AnnouncedLast(events: seq<Event>, e: Event)
    ensures forall id :: Announced(events + [e], id) <==> Announced(events, id) || IdOf(e) == id
  {
    var all := events + [e];
    forall id
      ensures Announced(all, id) <==> Announced(events, id) || IdOf(e) == id
    {
      if Announced(events, id) {
        var i :| 0 <= i < |events| && IdOf(events[i]) == id;
        assert all[i] == events[i];
      } else if IdOf(e) == id {
        assert all[|events|] == e;
      }
    }
  }

  lemma PublishKeeps(s: Sys)
    requires Inv(s)
    ensures Inv(s.(mem := Put(s.mem, s.publishing), publishing := []))
  {
    PutFresh(s.mem, s.publishing);
    hide Put, IdOf;
    var mem' := Put(s.mem, s.publishing);
    forall id | id in mem'
      ensures id in s.db && Agrees(s.db[id], mem'[id])
    {
      if Announced(s.publishing, id) {
        var i :| 0 <= i < |s.publishing| && IdOf(s.publishing[i]) == id;
        assert Get(mem', IdOf(s.publishing[i])) == Some(s.publishing[i]);
      }
    }
  }

  lemma {:induction false} ProcessedPending(t: Table, queue: seq<Event>)
    requires AllPending(t, queue)
    ensures Processed(t, queue) <= t.Keys
  {
    if |queue| > 0 {
      ProcessedPending(t, queue[..|queue| - 1]);
    }
  }

  lemma EndKeeps(s: Sys, queue: seq<Event>, blockTime: nat, duration: nat)
    requires Inv(s) && AllPending(s.mem, queue)
    ensures Inv(Ended(s, queue, blockTime, duration))
  {
    ProcessedPending(s.mem, queue);
    var processed := Processed(s.mem, queue);
    var ids := Reported(s.mem, processed, blockTime, duration);
    MarkedKeyed(s.mem, ids);
    hide Processed, AllPending, IdOf, Keyed;
    MarkedMore(s.mem, Marks(s.mem, ids), processed);
    MarkedMore(s.db, Marks(s.mem, ids), processed);
    hide Distinct;
  }

  lemma MarkedMore(t: Table, marks: Table, processed: set<Id>)
    requires Keyed(t) && Keyed(marks)
    ensures Keyed(t + marks - processed)
  {
  }

  lemma MarkedKeyed(t: Table, ids: set<Id>)
    requires Keyed(t) && ids <= t.Keys
    ensures Keyed(Marks(t, ids))
  {
  }

  lemma StepKeeps(s: Sys, a: Action, duration: nat)
    requires Inv(s) && Enabled(s, a)
    ensures Inv(Next(s, a, duration))
  {
    match a
    case Register(events) => RegisterKeeps(s, events);
    case Publish => PublishKeeps(s);
    case End(queue, blockTime) => EndKeeps(s, queue, blockTime, duration);
    case Abort(queue, blockTime) =>
      MarkedKeyed(s.mem, Reported(s.mem, Processed(s.mem, queue), blockTime, duration));
    case HostMarks(id) => SameId(s.mem[id], true);
    case Restart =>
  }

  predicate Initial(s: Sys)
  {
    s == Sys(map[], map[], [])
  }

  lemma {:induction false} RunKeeps(states: seq<Sys>, actions: seq<Action>, duration: nat)
    requires Run(states, actions, duration) && Initial(states[0])
    ensures forall i :: 0 <= i < |states| ==> Inv(states[i])
  {
    hide Inv, Enabled, Next;
    var n := |actions|;
    if n == 0 {
      EmptyInv(states[0]);
    } else {
      RunKeeps(states[..n], actions[..n - 1], duration);
      assert states[..n][n - 1] == states[n - 1];
      StepKeeps(states[n - 1], actions[n - 1], duration);
      forall i | 0 <= i < |states|
        ensures Inv(states[i])
      {
        if i < n {
          assert states[..n][i] == states[i];
        }
      }
    }
  }

  lemma EmptyInv(s: Sys)
    requires Initial(s)
    ensures Inv(s)
  {
  }
}
