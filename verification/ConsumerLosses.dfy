/** Runs in which a lost FAILED update loses a message, and a slow handler undoes COMPLETED. */
module ConsumerLosses {
  import opened ConsumerMachine
  import opened ConsumerTheorems

  const CFG := Config(5, 300000)
  const NEWS := OtherType("account_opened")

  function Row1(status: RowStatus, claimedAt: Millis): map<RowKey, Row> {
    map[RowKey(Audit, 1) := Row(status, claimedAt)]
  }

  function Of(attempts: nat, handling: Handling): Copy {
    Copy(Audit, 1, NEWS, attempts, handling)
  }

  // ---------- a lost FAILED update loses the message ----------

  const LOST := [Publish(1, NEWS), Deliver(0), Claim(0), ThrowWork(0, true), LoseMarkFailed(0), Settle(0, Sent),
                 Deliver(1), Claim(1)]

  lemma LostUpTo5()
    ensures Run(CFG, EMPTY, LOST[..5]) == System(0, [Of(0, Settling(true))], Row1(Claimed, 0), [], 1)
  {
    assert LOST[..0] == [];
    RunTo(CFG, EMPTY, LOST, 1);
    RunTo(CFG, EMPTY, LOST, 2);
    RunTo(CFG, EMPTY, LOST, 3);
    RunTo(CFG, EMPTY, LOST, 4);
    RunTo(CFG, EMPTY, LOST, 5);
    assert Run(CFG, EMPTY, LOST[..1]) == System(0, [Of(0, Queued)], map[], [], 1);
    assert Run(CFG, EMPTY, LOST[..3]) == System(0, [Of(0, Working(0))], Row1(Claimed, 0), [], 1);
  }

  lemma LostUpTo6()
    ensures Run(CFG, EMPTY, LOST[..6]) == System(0, [Of(0, Acked), Of(1, Queued)], Row1(Claimed, 0), [], 1)
  {
    LostUpTo5();
    RunTo(CFG, EMPTY, LOST, 6);
  }

  lemma LostUpTo7()
    ensures Run(CFG, EMPTY, LOST[..7]) == System(0, [Of(0, Acked), Of(1, Received)], Row1(Claimed, 0), [], 1)
  {
    LostUpTo6();
    RunTo(CFG, EMPTY, LOST, 7);
  }

  /** The row stays CLAIMED, so the retried copy is taken for a duplicate and acknowledged: the message
      is in no queue and no handler, is not dead-lettered, and was never completed. */
  lemma LostFailedUpdateLosesTheMessage()
    ensures Run(CFG, EMPTY, LOST) == System(0, [Of(0, Acked), Of(1, Acked)], Row1(Claimed, 0), [], 1)
    ensures !Accounted(Run(CFG, EMPTY, LOST), RowKey(Audit, 1))
  {
    LostUpTo7();
    RunTo(CFG, EMPTY, LOST, 8);
    assert LOST[..8] == LOST;
  }

  // ---------- a slow handler undoes COMPLETED ----------

  const SLOW := [Publish(1, NEWS), Publish(1, NEWS), Deliver(0), Claim(0), Tick(300001), Deliver(1), Claim(1),
                 Dispatch(0), MarkCompleted(0), Dispatch(1), MarkCompleted(1), MarkFailed(1)]

  lemma SlowUpTo4()
    ensures Run(CFG, EMPTY, SLOW[..4]) == System(0, [Of(0, Working(0)), Of(0, Queued)], Row1(Claimed, 0), [], 2)
  {
    assert SLOW[..0] == [];
    RunTo(CFG, EMPTY, SLOW, 1);
    RunTo(CFG, EMPTY, SLOW, 2);
    RunTo(CFG, EMPTY, SLOW, 3);
    RunTo(CFG, EMPTY, SLOW, 4);
    assert Run(CFG, EMPTY, SLOW[..2]) == System(0, [Of(0, Queued), Of(0, Queued)], map[], [], 2);
  }

  lemma SlowUpTo6()
    ensures Run(CFG, EMPTY, SLOW[..6]) == System(300001, [Of(0, Working(0)), Of(0, Received)], Row1(Claimed, 0), [], 2)
  {
    SlowUpTo4();
    RunTo(CFG, EMPTY, SLOW, 5);
    RunTo(CFG, EMPTY, SLOW, 6);
  }

  lemma SlowUpTo7()
    ensures Run(CFG, EMPTY, SLOW[..7])
         == System(300001, [Of(0, Working(0)), Of(0, Working(300001))], Row1(Claimed, 300001), [], 2)
  {
    SlowUpTo6();
    RunTo(CFG, EMPTY, SLOW, 7);
  }

  lemma SlowUpTo8()
    ensures Run(CFG, EMPTY, SLOW[..8])
         == System(300001, [Of(0, Dispatched(0)), Of(0, Working(300001))], Row1(Claimed, 300001), [RowKey(Audit, 1)], 2)
  {
    SlowUpTo7();
    RunTo(CFG, EMPTY, SLOW, 8);
  }

  lemma SlowUpTo9()
    ensures Run(CFG, EMPTY, SLOW[..9])
         == System(300001, [Of(0, Marked), Of(0, Working(300001))], Row1(Completed, 300001), [RowKey(Audit, 1)], 2)
  {
    SlowUpTo8();
    RunTo(CFG, EMPTY, SLOW, 9);
    assert CompleteRow(Row1(Claimed, 300001), RowKey(Audit, 1)) == Row1(Completed, 300001);
  }

  const TWICE := [RowKey(Audit, 1), RowKey(Audit, 1)]

  lemma SlowUpTo10()
    ensures Run(CFG, EMPTY, SLOW[..10])
         == System(300001, [Of(0, Marked), Of(0, Dispatched(300001))], Row1(Completed, 300001), TWICE, 2)
  {
    SlowUpTo9();
    RunTo(CFG, EMPTY, SLOW, 10);
  }

  lemma SlowUpTo11()
    ensures Run(CFG, EMPTY, SLOW[..11])
         == System(300001, [Of(0, Marked), Of(0, Failing(300001, true))], Row1(Completed, 300001), TWICE, 2)
  {
    SlowUpTo10();
    RunTo(CFG, EMPTY, SLOW, 11);
  }

  /** A second handler takes over after the TTL, the first one completes the row under it, the second
      dispatches all the same, fails to complete and marks the completed row FAILED. */
  lemma SlowHandlerUndoesCompleted()
    ensures IsCompleted(Run(CFG, EMPTY, SLOW[..9]), RowKey(Audit, 1))
    ensures Run(CFG, EMPTY, SLOW).dispatched == TWICE
    ensures Run(CFG, EMPTY, SLOW).rows == Row1(Failed, 300001)
  {
    SlowUpTo9();
    SlowUpTo11();
    RunTo(CFG, EMPTY, SLOW, 12);
    assert SLOW[..12] == SLOW;
  }
}
