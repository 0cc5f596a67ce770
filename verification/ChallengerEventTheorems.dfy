/** What the challenger promises about pending events over every run. */
module ChallengerEventTheorems {
  import opened Prelude
  import opened ChallengerEvents
  import opened ChallengerEventRuns

  // ----- Comparing -----

  /** An L2 event settles its own counterpart and, for oracle updates, the earlier ones of its kind. */
  predicate Settles(t: Table, event: Event, id: Id)
  {
    || id == IdOf(event)
    || (id in t && IdOf(event).kind in {Oracles, OracleRelays} && id.kind == IdOf(event).kind && id.number < IdOf(event).number)
  }

  lemma {:induction false} SettledExactly(t: Table, queue: seq<Event>, id: Id)
    ensures id in Processed(t, queue) <==> exists i :: 0 <= i < |queue| && Settles(t, queue[i], id)
  {
    if |queue| > 0 {
      var init, last := queue[..|queue| - 1], queue[|queue| - 1];
      SettledExactly(t, init, id);
      assert id in {IdOf(last)} + Older(t, last) <==> Settles(t, last, id);
      if i :| 0 <= i < |init| && Settles(t, init[i], id) {
        assert Settles(t, queue[i], id);
      }
      if i :| 0 <= i < |queue| && Settles(t, queue[i], id) {
        assert i < |init| ==> Settles(t, init[i], id);
      }
    }
  }

  /** A block leaves exactly the events it does not settle, the overdue ones marked, in memory and on disk. */
  lemma BlockLeaves(s: Sys, queue: seq<Event>, blockTime: nat, duration: nat, id: Id)
    requires Inv(s) && AllPending(s.mem, queue)
    ensures var s' := Next(s, End(queue, blockTime), duration);
            var settled := exists i :: 0 <= i < |queue| && Settles(s.mem, queue[i], id);
            && (id in s'.mem <==> id in s.mem && !settled)
            && (id in s'.db <==> id in s.db && !settled)
            && (id in s'.mem ==> s'.mem[id] == s.mem[id].(timeout :=
                  s.mem[id].timeout || (s.mem[id].time != 0 && s.mem[id].time + duration < blockTime)))
            && (id in s'.db && id in s.mem ==> s'.db[id] == s.db[id].(timeout :=
                  s.db[id].timeout || (s.mem[id].time != 0 && !s.mem[id].timeout && s.mem[id].time + duration < blockTime)))
  {
    SettledExactly(s.mem, queue, id);
    hide Processed;
  }

  predicate Differs(t: Table, event: Event)
  {
    IdOf(event) in t && t[IdOf(event)].content != event.content
  }

  /** A challenge is raised for exactly the events that differ from their counterparts. */
  lemma {:induction false} ChallengedIffDiffers(t: Table, queue: seq<Event>, c: Challenge)
    ensures c in Mismatches(t, queue) <==>
            exists i :: 0 <= i < |queue| && Differs(t, queue[i]) && c == Challenge(IdOf(queue[i]), Mismatch, queue[i].time)
  {
    if |queue| > 0 {
      var init, last := queue[..|queue| - 1], queue[|queue| - 1];
      ChallengedIffDiffers(t, init, c);
      if i :| 0 <= i < |init| && Differs(t, init[i]) && c == Challenge(IdOf(init[i]), Mismatch, init[i].time) {
        assert Differs(t, queue[i]);
      }
      if i :| 0 <= i < |queue| && Differs(t, queue[i]) && c == Challenge(IdOf(queue[i]), Mismatch, queue[i].time) {
        assert i < |init| ==> Differs(t, init[i]);
      }
    }
  }

  /** Between two blocks that compare the same id, the host has registered it anew. */
  lemma RunComparesOnce(states: seq<Sys>, actions: seq<Action>, duration: nat, i: nat, j: nat, id: Id)
    requires Run(states, actions, duration) && Initial(states[0]) && i < j < |actions|
    requires actions[i].End? && id in Processed(states[i].mem, actions[i].queue)
    requires actions[j].End? && id in Processed(states[j].mem, actions[j].queue)
    ensures exists k :: i < k < j && Registers(actions[k], id)
  {
    if forall k :: i < k < j ==> !Registers(actions[k], id) {
      assert id !in states[i + 1].db by {
        assert states[i + 1] == Next(states[i], actions[i], duration);
      }
      AbsentStays(states, actions, duration, i + 1, j, id);
      RunKeeps(states, actions, duration);
      assert Inv(states[j]);
      ProcessedPending(states[j].mem, actions[j].queue);
    }
  }

  predicate Registers(a: Action, id: Id)
  {
    a.Register? && Announced(a.events, id)
  }

  lemma {:induction false} AbsentStays(states: seq<Sys>, actions: seq<Action>, duration: nat, i: nat, j: nat, id: Id)
    requires Run(states, actions, duration) && Initial(states[0]) && i <= j <= |actions|
    requires id !in states[i].db
    requires forall k :: i <= k < j ==> !Registers(actions[k], id)
    ensures id !in states[j].db
    decreases j
  {
    hide Inv, Enabled, Next, Initial, Announced, Done, Reports;
    if i < j {
      AbsentStays(states, actions, duration, i, j - 1, id);
      RunKeeps(states, actions, duration);
      assert !Registers(actions[j - 1], id);
      DoneStep(states[j - 1], actions[j - 1], duration, id);
      assert states[j - 1 + 1] == Next(states[j - 1], actions[j - 1], duration);
    }
  }

  // ----- Reporting -----

  /** The ids a step reports as overdue, for good. */
  function Reports(s: Sys, a: Action, duration: nat): set<Id>
  {
    if a.End? then Reported(s.mem, Processed(s.mem, a.queue), a.blockTime, duration) else {}
  }

  /** A block reports exactly the pending events that are past their deadline, not marked yet, and not settled by it. */
  lemma ReportedIff(s: Sys, queue: seq<Event>, blockTime: nat, duration: nat, id: Id)
    ensures id in Reports(s, End(queue, blockTime), duration) <==>
            && id in s.mem && s.mem[id].time != 0 && !s.mem[id].timeout && s.mem[id].time + duration < blockTime
            && forall i :: 0 <= i < |queue| ==> !Settles(s.mem, queue[i], id)
  {
    SettledExactly(s.mem, queue, id);
  }

  /** What is reported is what challenges are raised for; nothing is challenged before its deadline. */
  lemma ChallengedIffLate(pass: Pass, t: Table, queue: seq<Event>, blockTime: nat, duration: nat, id: Id)
    requires Keyed(t) && Checks(pass, t, queue, blockTime, duration)
    ensures Challenge(id, Overdue, blockTime) in pass.challenges <==>
            && id in t && t[id].time != 0 && !t[id].timeout && t[id].time + duration < blockTime
            && forall i :: 0 <= i < |queue| ==> !Settles(t, queue[i], id)
  {
    var c, late := Challenge(id, Overdue, blockTime), OverdueChallenges(pass.overdue, blockTime);
    var events :| Sorted(events) && Lists(events, t, pass.processed) && pass.overdue == OverdueOf(events, blockTime, duration);
    ChallengedIffDiffers(t, queue, c);
    SettledExactly(t, queue, id);
    ListedMarks(events, t, pass.processed, blockTime, duration);
    hide Processed, Mismatches, OverdueOf, IdOf, Sorted, Lists, Keyed, Settles;
    if c in late {
      var i :| 0 <= i < |late| && late[i] == c;
      assert pass.overdue[i] in pass.overdue;
    }
    var marks := Marks(t, Reported(t, pass.processed, blockTime, duration));
    if id in marks {
      var i :| 0 <= i < |pass.overdue| && pass.overdue[i] == marks[id];
      assert late[i] == c;
    }
  }

  /** Settled, or already reported. */
  predicate Done(s: Sys, id: Id)
  {
    id in s.db ==> s.db[id].timeout
  }

  lemma DoneStep(s: Sys, a: Action, duration: nat, id: Id)
    requires Inv(s) && Enabled(s, a) && !Registers(a, id)
    ensures Done(s, id) ==> Done(Next(s, a, duration), id) && id !in Reports(s, a, duration)
    ensures id !in s.db ==> id !in Next(s, a, duration).db
    ensures id in Reports(s, a, duration) ==> Done(Next(s, a, duration), id)
  {
    hide Processed;
    match a
    case Register(events) => PutFresh(s.db, events);
    case _ =>
  }

  lemma {:induction false} DoneStays(states: seq<Sys>, actions: seq<Action>, duration: nat, i: nat, j: nat, id: Id)
    requires Run(states, actions, duration) && Initial(states[0]) && i <= j <= |actions|
    requires Done(states[i], id)
    requires forall k :: i <= k < j ==> !Registers(actions[k], id)
    ensures Done(states[j], id)
    decreases j
  {
    hide Inv, Enabled, Next, Initial, Announced, Done, Reports;
    if i < j {
      DoneStays(states, actions, duration, i, j - 1, id);
      RunKeeps(states, actions, duration);
      assert !Registers(actions[j - 1], id);
      DoneStep(states[j - 1], actions[j - 1], duration, id);
      assert states[j - 1 + 1] == Next(states[j - 1], actions[j - 1], duration);
    }
  }

  /** Through failed attempts and restarts, no registered event is reported overdue twice. */
  lemma RunReportsOnce(states: seq<Sys>, actions: seq<Action>, duration: nat, i: nat, j: nat, id: Id)
    requires Run(states, actions, duration) && Initial(states[0]) && i < j < |actions|
    requires id in Reports(states[i], actions[i], duration) && id in Reports(states[j], actions[j], duration)
    ensures exists k :: i < k < j && Registers(actions[k], id)
  {
    hide Inv, Enabled, Next, Initial, Done, Reported;
    if forall k :: i < k < j ==> !Registers(actions[k], id) {
      RunKeeps(states, actions, duration);
      DoneStep(states[i], actions[i], duration, id);
      assert states[i + 1] == Next(states[i], actions[i], duration);
      DoneStays(states, actions, duration, i + 1, j, id);
      DoneStep(states[j], actions[j], duration, id);
    }
  }

  /** Marked in memory, not on disk. */
  predicate MarkedOnly(s: Sys, id: Id)
  {
    id in s.mem && id in s.db && s.mem[id].timeout && !s.db[id].timeout
  }

  /** An event that is late and not on record as such is left unreported exactly if it is marked in memory only. */
  lemma UnreportedIff(s: Sys, queue: seq<Event>, blockTime: nat, duration: nat, id: Id)
    requires Inv(s) && AllPending(s.mem, queue)
    requires id in s.mem && id !in Processed(s.mem, queue)
    requires s.db[id].time != 0 && !s.db[id].timeout && s.db[id].time + duration < blockTime
    ensures id !in Reports(s, End(queue, blockTime), duration) <==> MarkedOnly(s, id)
  {
  }

  /** The step marks the event in memory and no more: a failed attempt that found it late, or the host's own deadline. */
  predicate MarkStep(s: Sys, a: Action, duration: nat, id: Id)
  {
    match a
    case Abort(queue, blockTime) => id in Reported(s.mem, Processed(s.mem, queue), blockTime, duration)
    case HostMarks(k) => k == id && Done(s, id) == false
    case _ => false
  }

  ghost predicate MarkedSince(states: seq<Sys>, actions: seq<Action>, duration: nat, i: nat, id: Id)
    requires |states| == |actions| + 1 && i <= |actions|
  {
    exists k :: 0 <= k < i && MarkStep(states[k], actions[k], duration, id) && Undisturbed(states, actions, k + 1, i, id)
  }

  /** Pending all along, and no restart. */
  predicate Undisturbed(states: seq<Sys>, actions: seq<Action>, from: nat, i: nat, id: Id)
    requires |states| == |actions| + 1 && from <= i <= |actions|
  {
    && (forall m :: from <= m < i ==> actions[m] != Restart)
    && (forall m :: from <= m <= i ==> id in states[m].mem)
  }

  lemma MarkedStep(s: Sys, a: Action, duration: nat, id: Id)
    requires Inv(s) && Enabled(s, a)
    ensures MarkedOnly(Next(s, a, duration), id) <==>
            (MarkStep(s, a, duration, id) || (MarkedOnly(s, id) && a != Restart)) && id in Next(s, a, duration).mem
  {
    hide Processed;
    match a
    case Register(events) =>
      PutFresh(s.db, events);
      hide Put, IdOf;
    case Publish =>
      PutFresh(s.mem, s.publishing);
      hide Put, IdOf;
      if Announced(s.publishing, id) {
        var i :| 0 <= i < |s.publishing| && IdOf(s.publishing[i]) == id;
        assert Get(s.db, IdOf(s.publishing[i])) == Some(s.publishing[i]);
      }
    case _ =>
  }

  /** An event is marked in memory only if and only if, since the last restart, a step marked it and it has stayed pending. */
  lemma {:induction false} RunMarkedIff(states: seq<Sys>, actions: seq<Action>, duration: nat, i: nat, id: Id)
    requires Run(states, actions, duration) && Initial(states[0]) && i <= |actions|
    ensures MarkedOnly(states[i], id) <==> MarkedSince(states, actions, duration, i, id)
    decreases i
  {
    if i > 0 {
      var n := i - 1;
      RunMarkedIff(states, actions, duration, n, id);
      RunKeeps(states, actions, duration);
      hide Inv, Enabled, Next, Initial, MarkStep, MarkedOnly;
      MarkedStep(states[n], actions[n], duration, id);
      assert states[n + 1] == Next(states[n], actions[n], duration);
      MarkedSinceStep(states, actions, duration, n, id);
    }
  }

  lemma MarkedSinceStep(states: seq<Sys>, actions: seq<Action>, duration: nat, n: nat, id: Id)
    requires |states| == |actions| + 1 && n < |actions|
    ensures MarkedSince(states, actions, duration, n + 1, id) <==>
            (MarkStep(states[n], actions[n], duration, id) || (MarkedSince(states, actions, duration, n, id) && actions[n] != Restart))
            && id in states[n + 1].mem
  {
    hide MarkStep;
    if MarkedSince(states, actions, duration, n + 1, id) {
      var k :| 0 <= k < n + 1 && MarkStep(states[k], actions[k], duration, id) && Undisturbed(states, actions, k + 1, n + 1, id);
      assert k < n ==> Undisturbed(states, actions, k + 1, n, id);
    }
    if MarkStep(states[n], actions[n], duration, id) && id in states[n + 1].mem {
      assert Undisturbed(states, actions, n + 1, n + 1, id);
    }
    if MarkedSince(states, actions, duration, n, id) && actions[n] != Restart && id in states[n + 1].mem {
      var k :| 0 <= k < n && MarkStep(states[k], actions[k], duration, id) && Undisturbed(states, actions, k + 1, n, id);
      assert Undisturbed(states, actions, k + 1, n + 1, id);
    }
  }

  /** Without failed attempts and the host's marks every late event is on record as reported by the end of the block. */
  lemma RunReportsAll(states: seq<Sys>, actions: seq<Action>, duration: nat, i: nat, id: Id)
    requires Run(states, actions, duration) && Initial(states[0]) && i < |actions| && actions[i].End?
    requires forall k :: 0 <= k < i ==> !actions[k].Abort? && !actions[k].HostMarks?
    requires id in states[i].mem && id in states[i].db && id in states[i + 1].mem
    requires states[i].db[id].time != 0 && actions[i].blockTime > states[i].db[id].time + duration
    ensures id in states[i + 1].db && states[i + 1].db[id].timeout
    ensures id in Reports(states[i], actions[i], duration) <==> !states[i].db[id].timeout
  {
    hide Processed;
    RunKeeps(states, actions, duration);
    RunMarkedIff(states, actions, duration, i, id);
    assert Inv(states[i]) && states[i + 1] == Next(states[i], actions[i], duration);
    assert !MarkedSince(states, actions, duration, i, id) by {
      hide Run, Inv;
      forall k | 0 <= k < i
        ensures !MarkStep(states[k], actions[k], duration, id)
      {
        assert !actions[k].Abort? && !actions[k].HostMarks?;
      }
    }
  }

  /** A failed attempt can silence a report: the event is late in the block that commits and nothing is reported. */
  lemma FailedAttemptSilences(duration: nat) returns (states: seq<Sys>, actions: seq<Action>, id: Id)
    ensures Run(states, actions, duration) && Initial(states[0]) && |actions| == 4 && actions[3].End? && actions[3].queue == []
    ensures id in states[3].mem && id in states[3].db && states[3].db[id].time + duration < actions[3].blockTime
    ensures states[3].db[id].time != 0 && !states[3].db[id].timeout
    ensures Reports(states[3], actions[3], duration) == {}
  {
    var e := Event(Oracle(1, []), 1, false);
    var late := e.(timeout := true);
    id := Id(Oracles, 1);
    var t := duration + 2;
    var s0 := Sys(map[], map[], []);
    var s1 := Sys(map[], map[id := e], [e]);
    var s2 := Sys(map[id := e], map[id := e], []);
    var s3 := Sys(map[id := late], map[id := e], []);
    states := [s0, s1, s2, s3, s3];
    actions := [Register([e]), Publish, Abort([], t), End([], t)];
    assert Put(map[], [e]) == map[id := e] by {
      assert [e][..0] == [];
    }
    assert Reported(s2.mem, {}, t, duration) == {id};
    assert s2.mem + Marks(s2.mem, {id}) == s3.mem;
    assert Reported(s3.mem, {}, t, duration) == {};
    assert Marks(s3.mem, {}) == map[];
    assert s3.mem + map[] - {} == s3.mem && s3.db + map[] - {} == s3.db;
    assert Next(s0, actions[0], duration) == s1;
    assert Next(s1, actions[1], duration) == s2;
    assert Next(s2, actions[2], duration) == s3;
    assert Next(s3, actions[3], duration) == s3;
  }
}
