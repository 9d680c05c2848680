/** Runs that leave the assumptions: one commits a file twice, one leaves a committed import FAILED, free
    to be retried, and two move a stored status against the table, a lost `fail` and a stale worker. */
module ImportRaces {
  import opened OrderedMaps
  import opened ImportStatus
  import opened ImportProtocol
  import opened ImportSafety
  import opened ImportEdges

  const UNQUIET: Assumed := Assumed(false, true, true)
  const UNBOOKED: Assumed := Assumed(true, false, true)

  // An import up to its QUEUED write.

  function Queued1(): State {
    State(map[], map[], map[], map[], map[0 := Checked(5)])
  }

  function Queued2(): State {
    State(map[1 := Row(5, Uploaded, None)], map[1 := Book(5, 0, 0, 0, 0)], map[], map[], map[0 := Created(1, true)])
  }

  function Queued3(): State {
    State(map[1 := Row(5, Validating, None)], map[1 := Book(5, 0, 0, 0, 0)],
          map[], map[], map[0 := Preparing(1, true)])
  }

  function Queued4(): State {
    State(map[1 := Row(5, Validating, None)], map[1 := Book(5, 0, 0, 0, 0)],
          map[], map[], map[0 := Prepared(1, true)])
  }

  function Queued5(): State {
    State(map[1 := Row(5, Queued, None)], map[1 := Book(5, 0, 0, 0, 1)], map[], map[], map[0 := Enqueueing(1, true)])
  }

  lemma QueuedStep1()
    ensures Leads(UNQUIET, INITIAL, Create(0, Check(5)), Queued1())
  {
  }

  lemma QueuedStep2()
    ensures Leads(UNQUIET, Queued1(), Create(0, Insert(1, true)), Queued2())
  {
  }

  lemma QueuedStep3()
    ensures Leads(UNQUIET, Queued2(), Create(0, Validate), Queued3())
  {
  }

  lemma QueuedStep4()
    ensures Leads(UNQUIET, Queued3(), Create(0, PrepareDone), Queued4())
  {
  }

  lemma QueuedStep5()
    ensures Leads(UNQUIET, Queued4(), Create(0, Admit(None)), Queued5())
  {
  }

  lemma QueuedReachable()
    ensures Reachable(UNQUIET, Queued5())
  {
    StartReachable(UNQUIET);
    QueuedStep1();
    Extend(UNQUIET, [], INITIAL, Create(0, Check(5)), Queued1());
    QueuedStep2();
    Extend(UNQUIET, [], Queued1(), Create(0, Insert(1, true)), Queued2());
    QueuedStep3();
    Extend(UNQUIET, [], Queued2(), Create(0, Validate), Queued3());
    QueuedStep4();
    Extend(UNQUIET, [], Queued3(), Create(0, PrepareDone), Queued4());
    QueuedStep5();
    Extend(UNQUIET, [], Queued4(), Create(0, Admit(None)), Queued5());
  }

  // A cancelled import keeps its job when the job id was not attached yet; after a retry the stale
  // job is claimed, the refused enqueue of the retry marks the running import FAILED, and so it can
  // be retried once more while its first execution goes on.

  function Raced1(): State {
    State(map[1 := Row(5, Queued, None)], map[1 := Book(5, 0, 0, 0, 1)],
          map[0 := 1], map[0 := 1], map[0 := Attaching(1, true, 0)])
  }

  function Raced2(): State {
    State(map[1 := Row(5, Queued, None)], map[1 := Book(5, 0, 0, 0, 1)],
          map[0 := 1], map[0 := 1], map[0 := Attaching(1, true, 0), 2 := Cancelling(1, None)])
  }

  function Raced3(): State {
    State(map[1 := Row(5, Queued, None)], map[1 := Book(5, 0, 0, 0, 1)],
          map[0 := 1], map[0 := 1], map[0 := Attaching(1, true, 0), 2 := JobRemoved(1)])
  }

  function Raced4(): State {
    State(map[1 := Row(5, Cancelled, None)], map[1 := Book(5, 0, 0, 1, 1)],
          map[0 := 1], map[0 := 1], map[0 := Attaching(1, true, 0)])
  }

  function Raced5(): State {
    State(map[1 := Row(5, Cancelled, None)], map[1 := Book(5, 0, 0, 1, 1)],
          map[0 := 1], map[0 := 1], map[0 := Attaching(1, true, 0), 3 := Retrying(1, Cancelled)])
  }

  function Raced6(): State {
    State(map[1 := Row(5, Queued, None)], map[1 := Book(5, 0, 0, 1, 2)],
          map[0 := 1], map[0 := 1], map[0 := Attaching(1, true, 0), 3 := Enqueueing(1, false)])
  }

  function Raced7(): State {
    State(map[1 := Row(5, Queued, None)], map[1 := Book(5, 0, 0, 1, 2)],
          map[], map[0 := 1], map[0 := Attaching(1, true, 0), 1 := Delivered(1), 3 := Enqueueing(1, false)])
  }

  function Raced8(): State {
    State(map[1 := Row(5, Processing, None)], map[1 := Book(5, 0, 1, 1, 2)],
          map[], map[0 := 1], map[0 := Attaching(1, true, 0), 1 := Executing(1), 3 := Enqueueing(1, false)])
  }

  function Raced9(): State {
    State(map[1 := Row(5, Processing, None)], map[1 := Book(5, 0, 1, 1, 2)],
          map[], map[0 := 1], map[0 := Attaching(1, true, 0), 1 := Executing(1), 3 := Failing(1, Lost)])
  }

  function Raced10(): State {
    State(map[1 := Row(5, Failed, None)], map[1 := Book(5, 0, 1, 1, 2)],
          map[], map[0 := 1], map[0 := Attaching(1, true, 0), 1 := Executing(1)])
  }

  function Raced11(): State {
    State(map[1 := Row(5, Failed, None)], map[1 := Book(5, 0, 1, 1, 2)],
          map[], map[0 := 1], map[0 := Attaching(1, true, 0), 1 := Executing(1), 2 := Retrying(1, Failed)])
  }

  function Raced12(): State {
    State(map[1 := Row(5, Queued, None)], map[1 := Book(5, 0, 1, 1, 3)],
          map[], map[0 := 1], map[0 := Attaching(1, true, 0), 1 := Executing(1), 2 := Enqueueing(1, false)])
  }

  function Raced13(): State {
    State(map[1 := Row(5, Queued, None)], map[1 := Book(5, 0, 1, 1, 3)], map[1 := 1], map[0 := 1, 1 := 1],
          map[0 := Attaching(1, true, 0), 1 := Executing(1), 2 := Attaching(1, false, 1)])
  }

  function Raced14(): State {
    State(map[1 := Row(5, Queued, None)], map[1 := Book(5, 0, 1, 1, 3)], map[], map[0 := 1, 1 := 1],
          map[0 := Attaching(1, true, 0), 1 := Executing(1), 2 := Attaching(1, false, 1), 3 := Delivered(1)])
  }

  function Raced15(): State {
    State(map[1 := Row(5, Processing, None)], map[1 := Book(5, 0, 2, 1, 3)], map[], map[0 := 1, 1 := 1],
          map[0 := Attaching(1, true, 0), 1 := Executing(1), 2 := Attaching(1, false, 1), 3 := Executing(1)])
  }

  function Raced16(): State {
    State(map[1 := Row(5, Processing, None)], map[1 := Book(5, 1, 2, 1, 3)], map[], map[0 := 1, 1 := 1],
          map[0 := Attaching(1, true, 0), 1 := Executing(1), 2 := Attaching(1, false, 1), 3 := Committed(1, false)])
  }

  function Raced17(): State {
    State(map[1 := Row(5, Processing, None)], map[1 := Book(5, 2, 2, 1, 3)], map[], map[0 := 1, 1 := 1],
          map[0 := Attaching(1, true, 0), 1 := Committed(1, false), 2 := Attaching(1, false, 1),
              3 := Committed(1, false)])
  }

  lemma RacedStep1()
    ensures Leads(UNQUIET, Queued5(), Enqueue(0, EnqueueOk(0)), Raced1())
  {
  }

  lemma RacedStep2()
    ensures Leads(UNQUIET, Raced1(), Control(2, CancelRead(1)), Raced2())
  {
  }

  lemma RacedStep3()
    ensures Leads(UNQUIET, Raced2(), Control(2, RemoveJob), Raced3())
  {
  }

  lemma RacedStep4()
    ensures Leads(UNQUIET, Raced3(), Control(2, CancelWrite), Raced4())
  {
  }

  lemma RacedStep5()
    ensures Leads(UNQUIET, Raced4(), Control(3, RetryRead(1)), Raced5())
  {
  }

  lemma RacedStep6()
    ensures Leads(UNQUIET, Raced5(), Control(3, RetryWrite), Raced6())
  {
  }

  lemma RacedStep7()
    ensures Leads(UNQUIET, Raced6(), Work(1, Deliver(0)), Raced7())
  {
  }

  lemma RacedStep8()
    ensures Leads(UNQUIET, Raced7(), Work(1, Claim), Raced8())
  {
  }

  lemma RacedStep9()
    ensures Leads(UNQUIET, Raced8(), Enqueue(3, EnqueueFails), Raced9())
  {
  }

  lemma RacedStep10()
    ensures Leads(UNQUIET, Raced9(), Work(3, SaveFailed(None)), Raced10())
  {
  }

  lemma RacedStep11()
    ensures Leads(UNQUIET, Raced10(), Control(2, RetryRead(1)), Raced11())
  {
  }

  lemma RacedStep12()
    ensures Leads(UNQUIET, Raced11(), Control(2, RetryWrite), Raced12())
  {
  }

  lemma RacedStep13()
    ensures Leads(UNQUIET, Raced12(), Enqueue(2, EnqueueOk(1)), Raced13())
  {
  }

  lemma RacedStep14()
    ensures Leads(UNQUIET, Raced13(), Work(3, Deliver(1)), Raced14())
  {
  }

  lemma RacedStep15()
    ensures Leads(UNQUIET, Raced14(), Work(3, Claim), Raced15())
  {
  }

  lemma RacedStep16()
    ensures Leads(UNQUIET, Raced15(), Work(3, Commit(false)), Raced16())
  {
  }

  lemma RacedStep17()
    ensures Leads(UNQUIET, Raced16(), Work(1, Commit(false)), Raced17())
  {
  }

  lemma FailedReachable()
    ensures Reachable(UNQUIET, Raced10())
  {
    QueuedReachable();
    RacedStep1();
    Extend(UNQUIET, [], Queued5(), Enqueue(0, EnqueueOk(0)), Raced1());
    RacedStep2();
    Extend(UNQUIET, [], Raced1(), Control(2, CancelRead(1)), Raced2());
    RacedStep3();
    Extend(UNQUIET, [], Raced2(), Control(2, RemoveJob), Raced3());
    RacedStep4();
    Extend(UNQUIET, [], Raced3(), Control(2, CancelWrite), Raced4());
    RacedStep5();
    Extend(UNQUIET, [], Raced4(), Control(3, RetryRead(1)), Raced5());
    RacedStep6();
    Extend(UNQUIET, [], Raced5(), Control(3, RetryWrite), Raced6());
    RacedStep7();
    Extend(UNQUIET, [], Raced6(), Work(1, Deliver(0)), Raced7());
    RacedStep8();
    Extend(UNQUIET, [], Raced7(), Work(1, Claim), Raced8());
    RacedStep9();
    Extend(UNQUIET, [], Raced8(), Enqueue(3, EnqueueFails), Raced9());
    RacedStep10();
    Extend(UNQUIET, [], Raced9(), Work(3, SaveFailed(None)), Raced10());
  }

  lemma RacedReachable()
    ensures Reachable(UNQUIET, Raced17())
  {
    FailedReachable();
    RacedStep11();
    Extend(UNQUIET, [], Raced10(), Control(2, RetryRead(1)), Raced11());
    RacedStep12();
    Extend(UNQUIET, [], Raced11(), Control(2, RetryWrite), Raced12());
    RacedStep13();
    Extend(UNQUIET, [], Raced12(), Enqueue(2, EnqueueOk(1)), Raced13());
    RacedStep14();
    Extend(UNQUIET, [], Raced13(), Work(3, Deliver(1)), Raced14());
    RacedStep15();
    Extend(UNQUIET, [], Raced14(), Work(3, Claim), Raced15());
    RacedStep16();
    Extend(UNQUIET, [], Raced15(), Work(3, Commit(false)), Raced16());
    RacedStep17();
    Extend(UNQUIET, [], Raced16(), Work(1, Commit(false)), Raced17());
  }

  lemma RefusedEnqueueCommitsTwice()
    ensures var s := Raced17();
      && Reachable(UNQUIET, s) && 1 in s.rows && s.books[1].commits == 2
  {
    RacedReachable();
  }

  // The same run up to the FAILED row: its first worker goes on, and saves COMPLETED over FAILED.

  function Stale1(): State {
    State(map[1 := Row(5, Failed, None)], map[1 := Book(5, 1, 1, 1, 2)],
          map[], map[0 := 1], map[0 := Attaching(1, true, 0), 1 := Committed(1, false)])
  }

  function Stale2(): State {
    State(map[1 := Row(5, Completed, None)], map[1 := Book(5, 1, 1, 1, 2)],
          map[], map[0 := 1], map[0 := Attaching(1, true, 0)])
  }

  lemma StaleStep1()
    ensures Leads(UNQUIET, Raced10(), Work(1, Commit(false)), Stale1())
  {
  }

  lemma StaleStep2()
    ensures Leads(UNQUIET, Stale1(), Work(1, Complete(None)), Stale2())
  {
  }

  lemma StaleReachable()
    ensures Reachable(UNQUIET, Stale2())
  {
    FailedReachable();
    StaleStep1();
    Extend(UNQUIET, [], Raced10(), Work(1, Commit(false)), Stale1());
    StaleStep2();
    Extend(UNQUIET, [], Stale1(), Work(1, Complete(None)), Stale2());
  }

  lemma StaleWorkerLeavesTheTable()
    ensures var s, a, s' := Stale1(), Work(1, Complete(None)), Stale2();
      && Reachable(UNQUIET, s') && Leads(UNQUIET, s, a, s')
      && LeavesTable(s, a) && !FollowsEdge(RowAt(s, 1), RowAt(s', 1)) && !SavesLost(TaskAt(s, 1), a)
  {
    StaleReachable();
    StaleStep2();
  }

  // An import is cancelled while its creator waits for the queue; the refused enqueue then saves FAILED
  // over CANCELLED.

  function Overwritten1(): State {
    State(map[1 := Row(5, Queued, None)], map[1 := Book(5, 0, 0, 0, 1)],
          map[], map[], map[0 := Enqueueing(1, true), 2 := Cancelling(1, None)])
  }

  function Overwritten2(): State {
    State(map[1 := Row(5, Queued, None)], map[1 := Book(5, 0, 0, 0, 1)],
          map[], map[], map[0 := Enqueueing(1, true), 2 := JobRemoved(1)])
  }

  function Overwritten3(): State {
    State(map[1 := Row(5, Cancelled, None)], map[1 := Book(5, 0, 0, 1, 1)],
          map[], map[], map[0 := Enqueueing(1, true)])
  }

  function Overwritten4(): State {
    State(map[1 := Row(5, Cancelled, None)], map[1 := Book(5, 0, 0, 1, 1)], map[], map[], map[0 := Failing(1, Lost)])
  }

  function Overwritten5(): State {
    State(map[1 := Row(5, Failed, None)], map[1 := Book(5, 0, 0, 1, 1)], map[], map[], map[])
  }

  lemma OverwrittenStep1()
    ensures Leads(UNQUIET, Queued5(), Control(2, CancelRead(1)), Overwritten1())
  {
  }

  lemma OverwrittenStep2()
    ensures Leads(UNQUIET, Overwritten1(), Control(2, RemoveJob), Overwritten2())
  {
  }

  lemma OverwrittenStep3()
    ensures Leads(UNQUIET, Overwritten2(), Control(2, CancelWrite), Overwritten3())
  {
  }

  lemma OverwrittenStep4()
    ensures Leads(UNQUIET, Overwritten3(), Enqueue(0, EnqueueFails), Overwritten4())
  {
  }

  lemma OverwrittenStep5()
    ensures Leads(UNQUIET, Overwritten4(), Work(0, SaveFailed(None)), Overwritten5())
  {
  }

  lemma OverwrittenReachable()
    ensures Reachable(UNQUIET, Overwritten5())
  {
    QueuedReachable();
    OverwrittenStep1();
    Extend(UNQUIET, [], Queued5(), Control(2, CancelRead(1)), Overwritten1());
    OverwrittenStep2();
    Extend(UNQUIET, [], Overwritten1(), Control(2, RemoveJob), Overwritten2());
    OverwrittenStep3();
    Extend(UNQUIET, [], Overwritten2(), Control(2, CancelWrite), Overwritten3());
    OverwrittenStep4();
    Extend(UNQUIET, [], Overwritten3(), Enqueue(0, EnqueueFails), Overwritten4());
    OverwrittenStep5();
    Extend(UNQUIET, [], Overwritten4(), Work(0, SaveFailed(None)), Overwritten5());
  }

  lemma LostFailLeavesTheTable()
    ensures var s, a, s' := Overwritten4(), Work(0, SaveFailed(None)), Overwritten5();
      && Reachable(UNQUIET, s') && Leads(UNQUIET, s, a, s')
      && LeavesTable(s, a) && !FollowsEdge(RowAt(s, 1), RowAt(s', 1)) && !Harms(s, a)
  {
    OverwrittenReachable();
    OverwrittenStep5();
  }

  // The row errors of a committed COPY cannot be saved, so the import is marked FAILED.

  function Unbooked1(): State {
    State(map[], map[], map[], map[], map[0 := Checked(5)])
  }

  function Unbooked2(): State {
    State(map[1 := Row(5, Uploaded, None)], map[1 := Book(5, 0, 0, 0, 0)], map[], map[], map[0 := Created(1, false)])
  }

  function Unbooked3(): State {
    State(map[1 := Row(5, Validating, None)], map[1 := Book(5, 0, 0, 0, 0)],
          map[], map[], map[0 := Preparing(1, false)])
  }

  function Unbooked4(): State {
    State(map[1 := Row(5, Validating, None)], map[1 := Book(5, 0, 0, 0, 0)],
          map[], map[], map[0 := Prepared(1, false)])
  }

  function Unbooked5(): State {
    State(map[1 := Row(5, Processing, None)], map[1 := Book(5, 0, 0, 0, 0)], map[], map[], map[0 := Executing(1)])
  }

  function Unbooked6(): State {
    State(map[1 := Row(5, Processing, None)], map[1 := Book(5, 1, 0, 0, 0)],
          map[], map[], map[0 := Committed(1, true)])
  }

  function Unbooked7(): State {
    State(map[1 := Row(5, Processing, None)], map[1 := Book(5, 1, 0, 0, 0)], map[], map[], map[0 := Failing(1, Run)])
  }

  function Unbooked8(): State {
    State(map[1 := Row(5, Failed, None)], map[1 := Book(5, 1, 0, 0, 0)], map[], map[], map[])
  }

  lemma UnbookedStep1()
    ensures Leads(UNBOOKED, INITIAL, Create(0, Check(5)), Unbooked1())
  {
  }

  lemma UnbookedStep2()
    ensures Leads(UNBOOKED, Unbooked1(), Create(0, Insert(1, false)), Unbooked2())
  {
  }

  lemma UnbookedStep3()
    ensures Leads(UNBOOKED, Unbooked2(), Create(0, Validate), Unbooked3())
  {
  }

  lemma UnbookedStep4()
    ensures Leads(UNBOOKED, Unbooked3(), Create(0, PrepareDone), Unbooked4())
  {
  }

  lemma UnbookedStep5()
    ensures Leads(UNBOOKED, Unbooked4(), Create(0, Admit(None)), Unbooked5())
  {
  }

  lemma UnbookedStep6()
    ensures Leads(UNBOOKED, Unbooked5(), Work(0, Commit(true)), Unbooked6())
  {
  }

  lemma UnbookedStep7()
    ensures Leads(UNBOOKED, Unbooked6(), Work(0, ErrorRowsFail), Unbooked7())
  {
  }

  lemma UnbookedStep8()
    ensures Leads(UNBOOKED, Unbooked7(), Work(0, SaveFailed(None)), Unbooked8())
  {
  }

  lemma UnbookedReachable()
    ensures Reachable(UNBOOKED, Unbooked8())
  {
    StartReachable(UNBOOKED);
    UnbookedStep1();
    Extend(UNBOOKED, [], INITIAL, Create(0, Check(5)), Unbooked1());
    UnbookedStep2();
    Extend(UNBOOKED, [], Unbooked1(), Create(0, Insert(1, false)), Unbooked2());
    UnbookedStep3();
    Extend(UNBOOKED, [], Unbooked2(), Create(0, Validate), Unbooked3());
    UnbookedStep4();
    Extend(UNBOOKED, [], Unbooked3(), Create(0, PrepareDone), Unbooked4());
    UnbookedStep5();
    Extend(UNBOOKED, [], Unbooked4(), Create(0, Admit(None)), Unbooked5());
    UnbookedStep6();
    Extend(UNBOOKED, [], Unbooked5(), Work(0, Commit(true)), Unbooked6());
    UnbookedStep7();
    Extend(UNBOOKED, [], Unbooked6(), Work(0, ErrorRowsFail), Unbooked7());
    UnbookedStep8();
    Extend(UNBOOKED, [], Unbooked7(), Work(0, SaveFailed(None)), Unbooked8());
  }

  lemma LostRowErrorsHideACommit()
    ensures var s := Unbooked8();
      Reachable(UNBOOKED, s) && 1 in s.rows && s.rows[1].status == Failed && s.books[1].commits == 1
  {
    UnbookedReachable();
  }
}
