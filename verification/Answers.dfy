/** A task whose units are all completed is SUCCEEDED, or some operation is about
    to make it so: exactly what can take that away, and that what is lost stays
    lost. */
module Answers {
  import opened Tables
  import opened Ledger
  import opened TaskRules
  import opened TaskLifecycle
  import opened SqliteDb
  import opened Interleaving
  import opened Staleness
  import opened Announcements

  ghost predicate ThreadAnnounces(s: Sys, task: string) {
    exists tid :: tid in s.threads && Announces(s.threads[tid], task)
  }

  ghost predicate Answered(s: Sys, task: string) { HasSucceeded(s.db, task) || ThreadAnnounces(s, task) }

  // Every completed task is SUCCEEDED, or about to be.
  ghost predicate AllAnswered(s: Sys) {
    forall t | t in s.db.tasks && AllDone(s.db.status, t) :: Answered(s, t)
  }

  // ---- The three losses ---------------------------------------------------------

  // The Edge stops while a completed task is not SUCCEEDED.
  ghost predicate StopsUnanswered(s: Sys, a: Action) {
    a.Restart? && exists t :: t in s.db.tasks && AllDone(s.db.status, t) && !HasSucceeded(s.db, t)
  }

  // The call settles the last units of a task that its report does not name and
  // that nothing answers.
  ghost predicate SettlesUnanswered(s: Sys, a: Action) {
    && a.Advance? && a.tid in s.threads && s.threads[a.tid].Recorded?
    && FinishesElsewhere(s.db, s.threads[a.tid].e)
    && !Answered(s, s.db.allocs[FindOpen(s.db.allocs, s.threads[a.tid].e.request, s.threads[a.tid].e.robot)].task)
  }

  // The call writes another state over SUCCEEDED, and no operation is about to
  // write it again.
  ghost predicate OverwritesAnswered(s: Sys, a: Action) {
    && a.Advance? && a.tid in s.threads
    && exists t :: HasSucceeded(s.db, t) && Overwrites(s.threads[a.tid], t, a.healthy) && !ThreadAnnounces(s, t)
  }

  ghost predicate Unanswers(s: Sys, a: Action) {
    StopsUnanswered(s, a) || SettlesUnanswered(s, a) || OverwritesAnswered(s, a)
  }

  // ---- Calls --------------------------------------------------------------------

  // An announcing operation goes on announcing until the task is SUCCEEDED.
  lemma ContinueAnswers(db: Db, pc: Pc, healthy: set<string>, task: string)
    requires Announces(pc, task) && task in db.tasks && AllDone(db.status, task)
    ensures var (d, after) := Continue(db, pc, healthy);
      HasSucceeded(d, task) || (after.Some? && Announces(after.value, task))
  {
    hide AllDone;
  }

  // Only a settled completion that names the task sets an operation announcing it.
  lemma ContinueStartsAnnouncing(db: Db, pc: Pc, healthy: set<string>, task: string)
    requires task in db.tasks && !Announces(pc, task)
    ensures var (d, after) := Continue(db, pc, healthy);
      && (HasSucceeded(d, task) ==> HasSucceeded(db, task))
      && (after.Some? && Announces(after.value, task)
          <==> pc.Recorded? && pc.e.task == task && pc.e.eventType.CarryCompleted? && CanCarry(db, pc.e))
  {
    hide AllDone, CanSettle, CanApprove, AllAbnormal;
    if pc.Recorded? {
      assert Settle(db, pc.e.request, pc.e.robot, Outcome(pc.e)).tasks == db.tasks;
    }
  }

  lemma OverwriterIsSilent(pc: Pc, healthy: set<string>, task: string)
    requires Overwrites(pc, task, healthy)
    ensures !Announces(pc, task) && !pc.Recorded?
  {
  }

  lemma BeginIsSilent(db: Db, op: Op, task: string)
    ensures var pc := Begin(db, op).1; pc.Some? ==> !Announces(pc.value, task)
  {
    hide ListsActive;
  }

  // ---- One step -------------------------------------------------------------------

  // Other threads' announcements stand.
  lemma OthersAnnounce(s: Sys, a: Action, tid: nat, task: string)
    requires !a.Restart? && tid in s.threads && Announces(s.threads[tid], task) && (a.Advance? ==> a.tid != tid)
    ensures ThreadAnnounces(Next(s, a), task)
  {
    hide Begin, Continue, Announces;
    var n := Next(s, a);
    assert tid in n.threads && Announces(n.threads[tid], task);
  }

  lemma AnswerStands(s: Sys, a: Action, task: string)
    requires Answered(s, task) && task in s.db.tasks && AllDone(s.db.status, task)
    requires !StopsUnanswered(s, a) && !OverwritesAnswered(s, a)
    ensures Answered(Next(s, a), task)
  {
    hide Begin, Continue, AllDone, Announces, Overwrites;
    if a.Restart? {
      assert HasSucceeded(s.db, task);
    } else if tid :| tid in s.threads && Announces(s.threads[tid], task) {
      if a.Advance? && a.tid == tid {
        ContinueAnswers(s.db, s.threads[tid], a.healthy, task);
        var n := Next(s, a);
        assert !HasSucceeded(n.db, task) ==> tid in n.threads && Announces(n.threads[tid], task);
      } else {
        OthersAnnounce(s, a, tid, task);
      }
    } else {
      SucceededIsLeftExactly(s, a, task);
    }
  }

  lemma NewlyDoneIsAnswered(s: Sys, a: Action, task: string)
    requires Inv(s) && RecordedOk(s) && a.Advance? && a.tid in s.threads && !SettlesUnanswered(s, a)
    requires AllDone(Next(s, a).db.status, task) && !AllDone(s.db.status, task)
    ensures Answered(Next(s, a), task)
  {
    SafeParts(s.db);
    hide Safe, LedgerInv, Continue, AllDone, PcOk, HoldsLastUnits, AllocsAssigned, FinishesElsewhere, Announces;
    ContinueCompletes(s.db, s.threads[a.tid], a.healthy, task);
    var e := s.threads[a.tid].e;
    AdvanceLeavesOthers(s, a.tid, a.healthy);
    hide Next;
    if e.task == task {
      CompletionIsAnnounced(s.db, s.threads[a.tid], a.healthy);
      AnnouncingSettled(Next(s, a), a.tid, task);
    } else {
      CompletesElsewhere(s.db, e, a.healthy, task);
      SettledElsewhereIsAnswered(s, a, task);
    }
  }

  lemma AnnouncingSettled(s: Sys, tid: nat, task: string)
    requires tid in s.threads && s.threads[tid] == Settled(task)
    ensures ThreadAnnounces(s, task)
  {
    assert Announces(s.threads[tid], task);
  }

  lemma SettledElsewhereIsAnswered(s: Sys, a: Action, task: string)
    requires SucceededSound(s.db) && !AllDone(s.db.status, task) && !SettlesUnanswered(s, a)
    requires a.Advance? && a.tid in s.threads && s.threads[a.tid].Recorded?
    requires FinishesElsewhere(s.db, s.threads[a.tid].e)
    requires var e := s.threads[a.tid].e; s.db.allocs[FindOpen(s.db.allocs, e.request, e.robot)].task == task
    ensures ThreadAnnounces(Next(s, a), task)
  {
    assert !HasSucceeded(s.db, task);
    hide AllDone, Continue, FinishesElsewhere, SucceededSound;
    var tid :| tid in s.threads && Announces(s.threads[tid], task);
    OthersAnnounce(s, a, tid, task);
  }

  lemma NextKeepsAnswered(s: Sys, a: Action)
    requires Inv(s) && RecordedOk(s) && AllAnswered(s) && !Unanswers(s, a)
    ensures AllAnswered(Next(s, a))
  {
    var n := Next(s, a);
    SafeParts(s.db);
    hide Safe, LedgerInv, SucceededSound, AllocsAssigned, Begin, Continue, AllDone, PcOk, RecordedOk, Answered;
    hide SettlesUnanswered, OverwritesAnswered, StopsUnanswered;
    forall t | t in n.db.tasks && AllDone(n.db.status, t) ensures Answered(n, t) {
      if AllDone(s.db.status, t) {
        DoneTaskExists(s.db, t);
        AnswerStands(s, a, t);
      } else {
        if a.Start? {
          BeginRecords(s.db, a.op);
        }
        NewlyDoneIsAnswered(s, a, t);
      }
    }
  }

  lemma StopUnanswers(s: Sys, a: Action)
    requires StopsUnanswered(s, a)
    ensures !AllAnswered(Next(s, a))
  {
    hide AllDone, HasSucceeded;
    var t :| t in s.db.tasks && AllDone(s.db.status, t) && !HasSucceeded(s.db, t);
    assert !Answered(Next(s, a), t);
  }

  lemma SettlingUnanswers(s: Sys, a: Action)
    requires LedgerInv(s.db) && SettlesUnanswered(s, a)
    ensures !AllAnswered(Next(s, a))
  {
    hide LedgerInv, Continue, AllDone, FinishesElsewhere, Announces;
    var n := Next(s, a);
    var e := s.threads[a.tid].e;
    var t := SettlesElsewhere(s.db, e, a.healthy);
    assert n.threads == s.threads[a.tid := Settled(e.task)];
    forall tid | tid in n.threads ensures !Announces(n.threads[tid], t) {
      if tid == a.tid {
        OtherIsNotAnnounced(e.task, t);
      } else {
        assert n.threads[tid] == s.threads[tid];
      }
    }
    assert !Answered(n, t);
  }

  // After a call of an operation that was silent about the task, the task is
  // answered as before, unless the call overwrites it or starts announcing it.
  lemma SilentCall(s: Sys, tid: nat, healthy: set<string>, task: string)
    requires task in s.db.tasks && tid in s.threads && !Announces(s.threads[tid], task)
    ensures var n := Next(s, Advance(tid, healthy)); var pc := s.threads[tid];
      && (HasSucceeded(n.db, task) ==> HasSucceeded(s.db, task))
      && (ThreadAnnounces(n, task) <==>
            ThreadAnnounces(s, task)
            || (pc.Recorded? && pc.e.task == task && pc.e.eventType.CarryCompleted? && CanCarry(s.db, pc.e)))
  {
    AdvanceLeavesOthers(s, tid, healthy);
    ContinueStartsAnnouncing(s.db, s.threads[tid], healthy, task);
    hide Continue, Announces, HasSucceeded, CanCarry, Next;
    var n := Next(s, Advance(tid, healthy));
    if t :| t in s.threads && Announces(s.threads[t], task) {
      assert t in n.threads && Announces(n.threads[t], task);
    }
    if t :| t in n.threads && Announces(n.threads[t], task) {
      assert t != tid ==> t in s.threads && Announces(s.threads[t], task);
    }
    if tid in n.threads && Announces(n.threads[tid], task) {
      assert ThreadAnnounces(n, task);
    }
  }

  lemma OverwritingUnanswers(s: Sys, a: Action)
    requires Inv(s) && OverwritesAnswered(s, a)
    ensures !AllAnswered(Next(s, a))
  {
    var t :| HasSucceeded(s.db, t) && Overwrites(s.threads[a.tid], t, a.healthy) && !ThreadAnnounces(s, t);
    SafeParts(s.db);
    assert AllDone(s.db.status, t);
    hide Inv, SucceededSound, AllDone, Continue, Announces, Overwrites, Grows, ThreadAnnounces, Next;
    NextKeeps(s, a);
    DoneGrows(s.db, Next(s, a).db, t);
    SucceededIsLeftExactly(s, a, t);
    OverwriterIsSilent(s.threads[a.tid], a.healthy, t);
    SilentCall(s, a.tid, a.healthy, t);
    assert !Answered(Next(s, a), t);
  }

  lemma DoneGrows(a: Db, b: Db, task: string)
    requires Grows(a, b) && AllDone(a.status, task)
    ensures AllDone(b.status, task)
    ensures task in a.tasks ==> task in b.tasks
  {
  }

  /** A step keeps every completed task SUCCEEDED, or about to be, exactly when
      it is none of the three losses: a stop of the Edge while a completed task
      is not SUCCEEDED, the settling of the last units of a task its report does
      not name and nothing answers, or a stale write over SUCCEEDED. */
  lemma AnsweredExactly(s: Sys, a: Action)
    requires Inv(s) && RecordedOk(s) && AllAnswered(s)
    ensures AllAnswered(Next(s, a)) <==> !Unanswers(s, a)
  {
    SafeParts(s.db);
    hide Inv, LedgerInv, RecordedOk, AllAnswered, Next, StopsUnanswered, SettlesUnanswered, OverwritesAnswered;
    if StopsUnanswered(s, a) {
      StopUnanswers(s, a);
    } else if SettlesUnanswered(s, a) {
      SettlingUnanswers(s, a);
    } else if OverwritesAnswered(s, a) {
      OverwritingUnanswers(s, a);
    } else {
      NextKeepsAnswered(s, a);
    }
  }

  // ---- Runs --------------------------------------------------------------------------

  ghost predicate NeverUnanswers(s: Sys, actions: seq<Action>)
    decreases |actions|
  {
    actions == [] || (!Unanswers(s, actions[0]) && NeverUnanswers(Next(s, actions[0]), actions[1..]))
  }

  // In every state the run goes through, every completed task is answered.
  ghost predicate AlwaysAnswered(s: Sys, actions: seq<Action>)
    decreases |actions|
  {
    AllAnswered(s) && (actions == [] || AlwaysAnswered(Next(s, actions[0]), actions[1..]))
  }

  lemma {:induction false} RunAnswersExactly(s: Sys, actions: seq<Action>)
    requires Inv(s) && RecordedOk(s) && AllAnswered(s)
    ensures AlwaysAnswered(s, actions) <==> NeverUnanswers(s, actions)
    ensures Inv(Run(s, actions)) && (NeverUnanswers(s, actions) ==> AllAnswered(Run(s, actions)))
    decreases |actions|
  {
    hide Inv, Next, RecordedOk, AllAnswered, Unanswers;
    if actions != [] {
      NextKeeps(s, actions[0]);
      NextKeepsRecorded(s, actions[0]);
      AnsweredExactly(s, actions[0]);
      if Unanswers(s, actions[0]) {
        RunKeepsInv(s, actions);
      } else {
        RunAnswersExactly(Next(s, actions[0]), actions[1..]);
      }
    }
  }

  /** Along a run every completed task is, in every state, SUCCEEDED or about to
      be, exactly when no step of the run is one of the three losses. Whenever no
      operation is under way after such a run, a task is SUCCEEDED exactly when
      all its units are completed. */
  lemma CompletedTasksAreAnswered(actions: seq<Action>, task: string)
    ensures AlwaysAnswered(START, actions) <==> NeverUnanswers(START, actions)
    ensures var s := Run(START, actions);
      NeverUnanswers(START, actions) && s.threads == map[] && task in s.db.tasks ==>
        (s.db.tasks[task].state.Succeeded? <==> EveryUnitCompleted(s.db, task))
  {
    assert Inv(START) by { EmptyIsSafe(); }
    RunAnswersExactly(START, actions);
    var s := Run(START, actions);
    if task in s.db.tasks {
      DoneMeansCompleted(s.db, task);
      SafeParts(s.db);
    }
    hide NeverUnanswers, AlwaysAnswered, Run, AllDone, EveryUnitCompleted;
  }

  // ---- What is lost stays lost ----------------------------------------------------------

  ghost predicate Lost(s: Sys, task: string) {
    task in s.db.tasks && AllDone(s.db.status, task) && !Answered(s, task)
  }

  // The call settles a completion, of other units, that names the task.
  ghost predicate NamesLost(s: Sys, a: Action, task: string) {
    && a.Advance? && a.tid in s.threads && s.threads[a.tid].Recorded?
    && var e := s.threads[a.tid].e;
       e.eventType.CarryCompleted? && e.task == task && HasOpen(s.db.allocs, e.request, e.robot)
  }

  /** A completed task that is neither SUCCEEDED nor about to be is answered again
      exactly by the settling of a completion that names it. */
  lemma LostIsAnsweredExactly(s: Sys, a: Action, task: string)
    requires Inv(s) && RecordedOk(s) && Lost(s, task)
    ensures Lost(Next(s, a), task) <==> !NamesLost(s, a, task)
  {
    var n := Next(s, a);
    SafeParts(s.db);
    hide Inv, LedgerInv, SucceededSound, AllocsAssigned, AllDone, Begin, Continue, Announces, Grows, Next;
    NextKeeps(s, a);
    DoneGrows(s.db, n.db, task);
    if a.Start? {
      StartIsSilent(s, a, task);
    } else if a.Advance? && a.tid in s.threads {
      assert !Announces(s.threads[a.tid], task);
      SilentCall(s, a.tid, a.healthy, task);
      if s.threads[a.tid].Recorded? {
        CarriesExactly(s, a.tid);
      }
    } else {
      StopIsSilent(s, a, task);
    }
  }

  lemma CarriesExactly(s: Sys, tid: nat)
    requires LedgerInv(s.db) && RecordedOk(s) && tid in s.threads && s.threads[tid].Recorded?
    ensures var e := s.threads[tid].e;
      e.eventType.CarryCompleted? ==> (CanCarry(s.db, e) <==> HasOpen(s.db.allocs, e.request, e.robot))
  {
    var e := s.threads[tid].e;
    SettleNeverRollsBack(s.db, e.request, e.robot, Outcome(e));
    hide LedgerInv, CanSettle;
  }

  lemma StartIsSilent(s: Sys, a: Action, task: string)
    requires a.Start? && !Answered(s, task)
    ensures !Answered(Next(s, a), task)
  {
    if a.tid !in s.threads {
      BeginRecords(s.db, a.op);
      BeginIsSilent(s.db, a.op, task);
      StartLeavesOthers(s, a.tid, a.op);
      hide Begin, Announces, Next;
    }
  }

  lemma StopIsSilent(s: Sys, a: Action, task: string)
    requires !a.Start? && (a.Advance? ==> a.tid !in s.threads) && !Answered(s, task)
    ensures !Answered(Next(s, a), task)
  {
    hide Begin, Continue, Announces;
  }

  // Every carry report that is settled names its allocation's own task.
  ghost predicate SettlesOwn(s: Sys, a: Action) {
    a.Advance? && a.tid in s.threads && s.threads[a.tid].Recorded? && IsCarry(s.threads[a.tid].e) ==>
      var e := s.threads[a.tid].e;
      HasOpen(s.db.allocs, e.request, e.robot) ==>
        s.db.allocs[FindOpen(s.db.allocs, e.request, e.robot)].task == e.task
  }

  ghost predicate AllSettleOwn(s: Sys, actions: seq<Action>)
    decreases |actions|
  {
    actions == [] || (SettlesOwn(s, actions[0]) && AllSettleOwn(Next(s, actions[0]), actions[1..]))
  }

  // A completed task has no open allocation left to be settled.
  lemma OwnNeverNamesLost(s: Sys, a: Action, task: string)
    requires LedgerInv(s.db) && Lost(s, task) && SettlesOwn(s, a)
    ensures !NamesLost(s, a, task)
  {
    if NamesLost(s, a, task) {
      var e := s.threads[a.tid].e;
      SettleNeverRollsBack(s.db, e.request, e.robot, Completed);
      hide LedgerInv, AllDone, HoldsLastUnits, CanSettle, HasOpen;
      SettleFinishesOnly(s.db, e.request, e.robot, Completed);
      assert false;
    }
  }

  /** What was lost stays lost in every run of threads and restarts in which carry
      reports name their allocation's own task: the task is never SUCCEEDED. */
  lemma {:induction false} LostStaysLost(s: Sys, actions: seq<Action>, task: string)
    requires Inv(s) && RecordedOk(s) && Lost(s, task) && AllSettleOwn(s, actions)
    ensures var n := Run(s, actions);
      && task in n.db.tasks && !n.db.tasks[task].state.Succeeded? && EveryUnitCompleted(n.db, task)
    decreases |actions|
  {
    if actions == [] {
      DoneMeansCompleted(s.db, task);
    } else {
      var a := actions[0];
      SafeParts(s.db);
      hide Inv, LedgerInv, Next, RecordedOk, Lost, SettlesOwn, NamesLost, EveryUnitCompleted;
      NextKeeps(s, a);
      NextKeepsRecorded(s, a);
      OwnNeverNamesLost(s, a, task);
      LostIsAnsweredExactly(s, a, task);
      LostStaysLost(Next(s, a), actions[1..], task);
    }
  }

  /** So what a stop between settling and announcing loses is lost for good. */
  lemma RestartLosesForGood(s: Sys, e: AmrEvent, consumer: nat, actions: seq<Action>)
    requires Inv(s) && LastReport(s.db, e) && consumer !in s.threads
    requires AllSettleOwn(Run(s, StopAfterSettling(e, consumer)), actions)
    ensures var n := Run(Run(s, StopAfterSettling(e, consumer)), actions);
      e.task in n.db.tasks && !n.db.tasks[e.task].state.Succeeded? && EveryUnitCompleted(n.db, e.task)
  {
    hide Safe, LedgerInv, LastReport, Run, AllSettleOwn, AllDone, EveryUnitCompleted, PcOk;
    SafeParts(s.db);
    RestartLosesSuccess(s, e, consumer);
    RunKeepsInv(s, StopAfterSettling(e, consumer));
    LostStaysLost(Run(s, StopAfterSettling(e, consumer)), actions, e.task);
  }
}
