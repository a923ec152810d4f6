/**
 Exactly when the consumers' guarantees fail, with no assumption about time or lost updates: which step
 loses a message, which step lets a second handler in, and which step undoes COMPLETED.
 */
module ConsumerConditions {
  import opened ConsumerMachine
  import opened ConsumerTheorems

  // ---------- losing a message ----------

  ghost predicate Routed(s: System) {
    forall i :: 0 <= i < |s.copies| ==> s.copies[i].consumer in Routes(s.copies[i].eventType)
  }

  ghost predicate InSightBeside(s: System, i: nat, key: RowKey) {
    exists j :: 0 <= j < |s.copies| && j != i && KeyOf(s.copies[j]) == key && InSight(s.copies[j])
  }

  /** A refused claim acknowledges, as a duplicate, the last copy in sight of a message not completed. */
  ghost predicate Loses(cfg: Config, s: System, a: Action, key: RowKey) {
    && a.Claim? && a.copy < |s.copies| && s.copies[a.copy].handling == Received && KeyOf(s.copies[a.copy]) == key
    && !CanClaim(cfg, s.rows, key, s.now) && !IsCompleted(s, key) && !InSightBeside(s, a.copy, key)
  }

  lemma LossIsALoss(cfg: Config, s: System, a: Action, key: RowKey)
    requires Loses(cfg, s, a, key)
    ensures !Accounted(Next(cfg, s, a), key)
  {
    var t := Next(cfg, s, a);
    forall j | 0 <= j < |t.copies| && KeyOf(t.copies[j]) == key ensures !InSight(t.copies[j]) {
      if j != a.copy {
        assert t.copies[j] == s.copies[j];
      }
    }
  }

  /** The copy that moved is itself still accounted for, unless its claim was refused. */
  lemma MoverAccounted(cfg: Config, s: System, a: Action)
    requires Routed(s) && !a.Publish? && !a.Tick? && a.copy < |s.copies|
    requires Accounted(s, KeyOf(s.copies[a.copy])) && !Loses(cfg, s, a, KeyOf(s.copies[a.copy]))
    ensures Accounted(StepCopy(cfg, s, a), KeyOf(s.copies[a.copy]))
  {
    var t := StepCopy(cfg, s, a);
    var i := a.copy;
    var key := KeyOf(s.copies[i]);
    StepFrame(cfg, s, a);
    if InSight(t.copies[i]) {
      assert KeyOf(t.copies[i]) == key;
    } else if a.Settle? && s.copies[i].handling.Settling? {
      RepublishComesBack(cfg, s, i);
    } else if !IsCompleted(t, key) {
      var j :| 0 <= j < |s.copies| && KeyOf(s.copies[j]) == key && InSight(s.copies[j]) &&
               (j != i || t.copies[i] == s.copies[i]);
      assert t.copies[j] == s.copies[j];
    }
  }

  /** A step stops a message from being accounted for exactly if it loses it. */
  lemma LostExactly(cfg: Config, s: System, a: Action, key: RowKey)
    requires Routed(s) && Accounted(s, key)
    ensures Accounted(Next(cfg, s, a), key) <==> !Loses(cfg, s, a, key)
  {
    var t := Next(cfg, s, a);
    if Loses(cfg, s, a, key) {
      LossIsALoss(cfg, s, a, key);
    } else if a.Publish? || a.Tick? || a.copy >= |s.copies| {
      if !IsCompleted(s, key) {
        var j :| 0 <= j < |s.copies| && KeyOf(s.copies[j]) == key && InSight(s.copies[j]);
        assert t.copies[j] == s.copies[j];
      }
    } else if key == KeyOf(s.copies[a.copy]) {
      MoverAccounted(cfg, s, a);
    } else {
      StepFrame(cfg, s, a);
      StepRows(cfg, s, a);
      AccountedElsewhere(s, t, a.copy, key);
    }
  }

  ghost predicate AllAccounted(s: System) {
    forall i :: 0 <= i < |s.copies| ==> Accounted(s, KeyOf(s.copies[i]))
  }

  ghost predicate LosesSomething(cfg: Config, s: System, a: Action) {
    a.Claim? && a.copy < |s.copies| && Loses(cfg, s, a, KeyOf(s.copies[a.copy]))
  }

  lemma NewCopiesInSight(cfg: Config, s: System, a: Action)
    ensures |s.copies| <= |Next(cfg, s, a).copies|
    ensures forall i :: 0 <= i < |s.copies| ==> KeyOf(Next(cfg, s, a).copies[i]) == KeyOf(s.copies[i])
    ensures forall i :: |s.copies| <= i < |Next(cfg, s, a).copies| ==> InSight(Next(cfg, s, a).copies[i])
    ensures Routed(s) ==> Routed(Next(cfg, s, a))
  {
    if !a.Publish? && !a.Tick? && a.copy < |s.copies| {
      StepFrame(cfg, s, a);
    }
  }

  lemma AllAccountedExactly(cfg: Config, s: System, a: Action)
    requires Routed(s) && AllAccounted(s)
    ensures AllAccounted(Next(cfg, s, a)) <==> !LosesSomething(cfg, s, a)
  {
    var t := Next(cfg, s, a);
    NewCopiesInSight(cfg, s, a);
    forall i | 0 <= i < |t.copies|
      ensures Accounted(t, KeyOf(t.copies[i])) <==> !(i < |s.copies| && Loses(cfg, s, a, KeyOf(s.copies[i])))
    {
      if i < |s.copies| {
        LostExactly(cfg, s, a, KeyOf(s.copies[i]));
      }
    }
    if LosesSomething(cfg, s, a) {
      assert !Accounted(t, KeyOf(t.copies[a.copy]));
    }
  }

  ghost predicate AlwaysAccounted(cfg: Config, actions: seq<Action>) {
    AllAccounted(Run(cfg, EMPTY, actions)) && (|actions| > 0 ==> AlwaysAccounted(cfg, actions[..|actions| - 1]))
  }

  ghost predicate NeverLoses(cfg: Config, actions: seq<Action>) {
    |actions| > 0 ==>
      var front := actions[..|actions| - 1];
      NeverLoses(cfg, front) && !LosesSomething(cfg, Run(cfg, EMPTY, front), actions[|actions| - 1])
  }

  lemma {:induction false} RunRouted(cfg: Config, actions: seq<Action>)
    ensures Routed(Run(cfg, EMPTY, actions))
  {
    if |actions| > 0 {
      RunRouted(cfg, actions[..|actions| - 1]);
      NewCopiesInSight(cfg, Run(cfg, EMPTY, actions[..|actions| - 1]), actions[|actions| - 1]);
    }
  }

  /** All along a run every message is queued, in a live handler, dead-lettered or completed exactly if no
      step of it acknowledges the last copy in sight of a message not completed. */
  lemma {:induction false} NothingIsLostExactly(cfg: Config, actions: seq<Action>)
    ensures AlwaysAccounted(cfg, actions) <==> NeverLoses(cfg, actions)
  {
    if |actions| > 0 {
      var front := actions[..|actions| - 1];
      NothingIsLostExactly(cfg, front);
      RunRouted(cfg, front);
      if AlwaysAccounted(cfg, front) {
        AccountedNow(cfg, front);
        AllAccountedExactly(cfg, Run(cfg, EMPTY, front), actions[|actions| - 1]);
      }
    }
  }

  lemma AccountedNow(cfg: Config, actions: seq<Action>)
    requires AlwaysAccounted(cfg, actions)
    ensures AllAccounted(Run(cfg, EMPTY, actions))
  {
  }

  /** Every CLAIMED row has a handler at work on it. */
  ghost predicate ClaimedHeld(s: System) {
    forall key :: key in s.rows && s.rows[key].status == Claimed ==> HasHolder(s, key)
  }

  /** A handler leaves its work by a mark that goes through, and then its row is no longer CLAIMED. */
  lemma LeavesMarked(cfg: Config, s: System, a: Action)
    requires !a.Publish? && !a.Tick? && a.copy < |s.copies| && !a.LoseMarkFailed?
    ensures var t, key := StepCopy(cfg, s, a), KeyOf(s.copies[a.copy]);
      a.copy < |t.copies| &&
      (key in t.rows && t.rows[key].status == Claimed ==>
         Holding(t.copies[a.copy]) || (t.rows == s.rows && !Holding(s.copies[a.copy])))
  {
  }

  lemma StepKeepsHeld(cfg: Config, s: System, a: Action)
    requires ClaimedHeld(s) && !a.Publish? && !a.Tick? && a.copy < |s.copies| && !a.LoseMarkFailed?
    ensures ClaimedHeld(StepCopy(cfg, s, a))
  {
    var t := StepCopy(cfg, s, a);
    StepFrame(cfg, s, a);
    StepRows(cfg, s, a);
    LeavesMarked(cfg, s, a);
    forall key | key in t.rows && t.rows[key].status == Claimed ensures HasHolder(t, key) {
      if key == KeyOf(s.copies[a.copy]) && Holding(t.copies[a.copy]) {
        assert KeyOf(t.copies[a.copy]) == key;
      } else {
        assert HasHolder(s, key);
        var j :| 0 <= j < |s.copies| && KeyOf(s.copies[j]) == key && Holding(s.copies[j]);
        assert t.copies[j] == s.copies[j];
      }
    }
  }

  lemma NextKeepsHeld(cfg: Config, s: System, a: Action)
    requires ClaimedHeld(s) && !a.LoseMarkFailed?
    ensures ClaimedHeld(Next(cfg, s, a))
  {
    if !a.Publish? && !a.Tick? && a.copy < |s.copies| {
      StepKeepsHeld(cfg, s, a);
    } else {
      var t := Next(cfg, s, a);
      forall key | key in t.rows && t.rows[key].status == Claimed ensures HasHolder(t, key) {
        var j :| 0 <= j < |s.copies| && KeyOf(s.copies[j]) == key && Holding(s.copies[j]);
        assert t.copies[j] == s.copies[j];
      }
    }
  }

  /** A delivery acknowledged as a duplicate leaves behind a completed row or somebody at work on it. */
  lemma DuplicateIsCovered(cfg: Config, s: System, i: nat)
    requires ClaimedHeld(s) && i < |s.copies| && s.copies[i].handling == Received
    ensures Accounted(Next(cfg, s, Claim(i)), KeyOf(s.copies[i]))
    ensures !LosesSomething(cfg, s, Claim(i))
  {
    var key := KeyOf(s.copies[i]);
    var t := Next(cfg, s, Claim(i));
    if CanClaim(cfg, s.rows, key, s.now) {
      assert InSight(t.copies[i]) && KeyOf(t.copies[i]) == key;
    } else if s.rows[key].status == Claimed {
      var j :| 0 <= j < |s.copies| && KeyOf(s.copies[j]) == key && Holding(s.copies[j]);
      assert t.copies[j] == s.copies[j] && InSight(s.copies[j]);
    }
  }

  /** Handlers whose FAILED updates go through never lose a message, however long they take. */
  lemma {:induction false} FaithfulNeverLoses(cfg: Config, actions: seq<Action>)
    requires Faithful(actions)
    ensures NeverLoses(cfg, actions) && ClaimedHeld(Run(cfg, EMPTY, actions))
  {
    if |actions| > 0 {
      var front, a := actions[..|actions| - 1], actions[|actions| - 1];
      var s := Run(cfg, EMPTY, front);
      FaithfulNeverLoses(cfg, front);
      NextKeepsHeld(cfg, s, a);
      if LosesSomething(cfg, s, a) {
        DuplicateIsCovered(cfg, s, a.copy);
      }
    }
  }

  // ---------- a second handler ----------

  /** A claim succeeds while another handler of the message is between claim and mark. */
  ghost predicate TakesOver(cfg: Config, s: System, a: Action) {
    && a.Claim? && a.copy < |s.copies| && s.copies[a.copy].handling == Received
    && CanClaim(cfg, s.rows, KeyOf(s.copies[a.copy]), s.now) && HasHolder(s, KeyOf(s.copies[a.copy]))
  }

  /** At most one handler per (consumer, message) is between claim and mark. */
  ghost predicate Alone(s: System) {
    forall i, j :: 0 <= i < j < |s.copies| && Holding(s.copies[i]) && Holding(s.copies[j]) ==>
      KeyOf(s.copies[i]) != KeyOf(s.copies[j])
  }

  /** Alone, and each handler's claim is the one its row names. */
  ghost predicate HoldersInv(s: System) {
    && Alone(s)
    && (forall i :: 0 <= i < |s.copies| && Holding(s.copies[i]) ==>
          && KeyOf(s.copies[i]) in s.rows
          && s.rows[KeyOf(s.copies[i])] == Row(Claimed, s.copies[i].handling.claimedAt))
  }

  lemma TakeoverIsSeen(cfg: Config, s: System, a: Action)
    requires TakesOver(cfg, s, a)
    ensures !Alone(Next(cfg, s, a))
  {
    var t := Next(cfg, s, a);
    var key := KeyOf(s.copies[a.copy]);
    var j :| 0 <= j < |s.copies| && KeyOf(s.copies[j]) == key && Holding(s.copies[j]);
    assert t.copies[j] == s.copies[j] && Holding(t.copies[a.copy]) && KeyOf(t.copies[a.copy]) == key;
  }

  lemma HolderKeepsHolders(cfg: Config, s: System, a: Action)
    requires HoldersInv(s) && !a.Publish? && !a.Tick? && a.copy < |s.copies| && Holding(s.copies[a.copy])
    ensures HoldersInv(StepCopy(cfg, s, a))
  {
    var t := StepCopy(cfg, s, a);
    StepFrame(cfg, s, a);
    StepRows(cfg, s, a);
    assert s.rows[KeyOf(s.copies[a.copy])] == Row(Claimed, s.copies[a.copy].handling.claimedAt);
    assert forall i :: 0 <= i < |t.copies| && Holding(t.copies[i]) ==> i < |s.copies| && Holding(s.copies[i]);
  }

  lemma OutsiderKeepsHolders(cfg: Config, s: System, a: Action)
    requires HoldersInv(s) && !a.Publish? && !a.Tick? && a.copy < |s.copies| && !Holding(s.copies[a.copy])
    requires !TakesOver(cfg, s, a)
    ensures HoldersInv(StepCopy(cfg, s, a))
  {
    var t := StepCopy(cfg, s, a);
    var key := KeyOf(s.copies[a.copy]);
    StepFrame(cfg, s, a);
    StepRows(cfg, s, a);
    assert forall i :: 0 <= i < |t.copies| && i != a.copy && Holding(t.copies[i]) ==>
                         i < |s.copies| && Holding(s.copies[i]);
    if Holding(t.copies[a.copy]) {
      forall i | 0 <= i < |s.copies| && i != a.copy && Holding(s.copies[i]) ensures KeyOf(s.copies[i]) != key {
        if KeyOf(s.copies[i]) == key {
          assert HasHolder(s, key);
        }
      }
    }
  }

  /** A second handler is let in exactly by a claim that takes over from one still at work. */
  lemma SecondHandlerExactly(cfg: Config, s: System, a: Action)
    requires HoldersInv(s)
    ensures Alone(Next(cfg, s, a)) <==> !TakesOver(cfg, s, a)
    ensures !TakesOver(cfg, s, a) ==> HoldersInv(Next(cfg, s, a))
  {
    if TakesOver(cfg, s, a) {
      TakeoverIsSeen(cfg, s, a);
    } else if !a.Publish? && !a.Tick? && a.copy < |s.copies| {
      if Holding(s.copies[a.copy]) {
        HolderKeepsHolders(cfg, s, a);
      } else {
        OutsiderKeepsHolders(cfg, s, a);
      }
    } else {
      assert forall i :: 0 <= i < |Next(cfg, s, a).copies| && Holding(Next(cfg, s, a).copies[i]) ==> i < |s.copies|;
    }
  }

  ghost predicate AlwaysAlone(cfg: Config, actions: seq<Action>) {
    Alone(Run(cfg, EMPTY, actions)) && (|actions| > 0 ==> AlwaysAlone(cfg, actions[..|actions| - 1]))
  }

  ghost predicate NeverTakesOver(cfg: Config, s: System, actions: seq<Action>) {
    |actions| > 0 ==>
      var front := actions[..|actions| - 1];
      NeverTakesOver(cfg, s, front) && !TakesOver(cfg, Run(cfg, s, front), actions[|actions| - 1])
  }

  lemma {:induction false} NoTakeoverKeepsHolders(cfg: Config, s: System, actions: seq<Action>)
    requires HoldersInv(s) && NeverTakesOver(cfg, s, actions)
    ensures HoldersInv(Run(cfg, s, actions))
  {
    if |actions| > 0 {
      NoTakeoverKeepsHolders(cfg, s, actions[..|actions| - 1]);
      SecondHandlerExactly(cfg, Run(cfg, s, actions[..|actions| - 1]), actions[|actions| - 1]);
    }
  }

  /** All along a run at most one handler per (consumer, message) is at work exactly if no claim takes over
      from one that is. */
  lemma {:induction false} OneHandlerExactly(cfg: Config, actions: seq<Action>)
    ensures AlwaysAlone(cfg, actions) <==> NeverTakesOver(cfg, EMPTY, actions)
  {
    if |actions| > 0 {
      var front := actions[..|actions| - 1];
      OneHandlerExactly(cfg, front);
      if NeverTakesOver(cfg, EMPTY, front) {
        NoTakeoverKeepsHolders(cfg, EMPTY, front);
        SecondHandlerExactly(cfg, Run(cfg, EMPTY, front), actions[|actions| - 1]);
      }
    }
  }

  // ---------- undoing COMPLETED ----------

  /** A handler in its catch block marks a completed row FAILED. */
  predicate Undoes(s: System, a: Action, key: RowKey) {
    a.MarkFailed? && a.copy < |s.copies| && s.copies[a.copy].handling.Failing? && KeyOf(s.copies[a.copy]) == key
  }

  /** A completed row is undone exactly by the markFailed of a handler of the same message. */
  lemma UndoneExactly(cfg: Config, s: System, a: Action, key: RowKey)
    requires IsCompleted(s, key)
    ensures IsCompleted(Next(cfg, s, a), key) <==> !Undoes(s, a, key)
  {
  }

  /** Such a handler exists only if, earlier in the run, a claim took over from a handler still at work. */
  lemma UndoneOnlyAfterTakeover(cfg: Config, actions: seq<Action>, a: Action, key: RowKey)
    requires IsCompleted(Run(cfg, EMPTY, actions), key) && Undoes(Run(cfg, EMPTY, actions), a, key)
    ensures !NeverTakesOver(cfg, EMPTY, actions)
  {
    if NeverTakesOver(cfg, EMPTY, actions) {
      NoTakeoverKeepsHolders(cfg, EMPTY, actions);
      var s := Run(cfg, EMPTY, actions);
      assert Holding(s.copies[a.copy]);
      assert false;
    }
  }

  /** Without takeovers COMPLETED is final and nothing is dispatched for that message again. */
  lemma {:induction false} CompletedStaysWithoutTakeover(cfg: Config, s: System, actions: seq<Action>, key: RowKey)
    requires HoldersInv(s) && NeverTakesOver(cfg, s, actions) && IsCompleted(s, key)
    ensures IsCompleted(Run(cfg, s, actions), key)
    ensures CountKey(Run(cfg, s, actions).dispatched, key) == CountKey(s.dispatched, key)
  {
    if |actions| > 0 {
      var front, last := actions[..|actions| - 1], actions[|actions| - 1];
      CompletedStaysWithoutTakeover(cfg, s, front, key);
      NoTakeoverKeepsHolders(cfg, s, front);
      StaysCompleted(cfg, Run(cfg, s, front), last, key);
    }
  }

  lemma StaysCompleted(cfg: Config, s: System, a: Action, key: RowKey)
    requires HoldersInv(s) && IsCompleted(s, key)
    ensures IsCompleted(Next(cfg, s, a), key)
    ensures CountKey(Next(cfg, s, a).dispatched, key) == CountKey(s.dispatched, key)
  {
    UndoneExactly(cfg, s, a, key);
    if a.Dispatch? && a.copy < |s.copies| && s.copies[a.copy].handling.Working? {
      var more := KeyOf(s.copies[a.copy]);
      assert (s.dispatched + [more])[..|s.dispatched|] == s.dispatched;
    }
  }

  /** Handlers that finish within the claim TTL are never taken over. */
  lemma {:induction false} TimelyNeverTakesOver(cfg: Config, actions: seq<Action>)
    requires TimelyRun(cfg, EMPTY, actions)
    ensures NeverTakesOver(cfg, EMPTY, actions)
  {
    if |actions| > 0 {
      var front := actions[..|actions| - 1];
      TimelyPrefix(cfg, EMPTY, actions);
      TimelyNeverTakesOver(cfg, front);
      RunDedup(cfg, front);
    }
  }

  // ---------- completed means dispatched ----------

  ghost predicate DispatchInv(s: System) {
    && (forall key :: IsCompleted(s, key) ==> key in s.dispatched)
    && (forall i :: 0 <= i < |s.copies| && s.copies[i].handling.Dispatched? ==> KeyOf(s.copies[i]) in s.dispatched)
  }

  /** In every run a completed row has been dispatched. */
  lemma {:induction false} CompletedWasDispatched(cfg: Config, actions: seq<Action>)
    ensures DispatchInv(Run(cfg, EMPTY, actions))
  {
    if |actions| > 0 {
      var front, last := actions[..|actions| - 1], actions[|actions| - 1];
      CompletedWasDispatched(cfg, front);
      NextKeepsDispatch(cfg, Run(cfg, EMPTY, front), last);
    }
  }

  lemma NextKeepsDispatch(cfg: Config, s: System, a: Action)
    requires DispatchInv(s)
    ensures DispatchInv(Next(cfg, s, a))
  {
    if !a.Publish? && !a.Tick? && a.copy < |s.copies| {
      StepFrame(cfg, s, a);
    }
  }
}
