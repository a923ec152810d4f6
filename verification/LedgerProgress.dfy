/**
 Requests never deadlock: every transaction claims its reference key first and then account rows in
 ascending id order. In every reachable state the waits-for relation climbs a rank, some open
 transaction can step, and any set of requests can be driven to completion.
 */
module LedgerProgress {
  import opened LedgerStatements
  import opened LedgerMachine
  import opened LedgerInvariant

  /** How far along the lock order a request is: nothing held, its key held, or its last account. */
  function Rank(sess: Session): nat {
    if !sess.phase.InTransaction? || sess.phase.work.row.None? then 0
    else
      var n := MovesDone(sess.req, sess.phase.purpose, sess.phase.stage);
      if n == 0 || n > |Moves(sess.req)| then 1 else 2 + Moves(sess.req)[n - 1].account
  }

  lemma MovesAscend(req: Request)
    requires req.TransferRequest? ==> req.fromId != req.toId
    ensures |Moves(req)| == 2 ==> Moves(req)[0].account < Moves(req)[1].account
  {
  }

  /** Whoever waits stands strictly lower than whoever it waits for, so no cycle of waits exists. */
  lemma WaitsClimb(s: State, p: nat, q: nat)
    requires Inv(s) && WaitsFor(s, p, q)
    ensures q < |s.sessions| && Rank(s.sessions[p]) < Rank(s.sessions[q])
  {
    var mine, theirs := s.sessions[p], s.sessions[q];
    assert SessionInv(s, mine) && SessionInv(s, theirs);
    if mine.phase.stage.Moving? {
      MovesAscend(mine.req);
      var id := Moves(mine.req)[mine.phase.stage.done].account;
      var n := MovesDone(theirs.req, theirs.phase.purpose, theirs.phase.stage);
      var i :| 0 <= i < n && Moves(theirs.req)[i].account == id;
      MovesAscend(theirs.req);
    }
  }

  ghost predicate WaitPath(s: State, path: seq<nat>) {
    |path| > 0 && forall i :: 0 <= i < |path| - 1 ==> WaitsFor(s, path[i], path[i + 1])
  }

  /** No chain of waits ever returns to where it started. */
  lemma {:induction false} WaitsAreAcyclic(s: State, path: seq<nat>)
    requires Inv(s) && WaitPath(s, path) && |path| > 1
    ensures path[0] < |s.sessions| && path[|path| - 1] < |s.sessions|
    ensures Rank(s.sessions[path[0]]) < Rank(s.sessions[path[|path| - 1]])
    ensures path[0] != path[|path| - 1]
  {
    assert WaitsFor(s, path[0], path[1]);
    WaitsClimb(s, path[0], path[1]);
    if |path| > 2 {
      var rest := path[1..];
      forall i | 0 <= i < |rest| - 1 ensures WaitsFor(s, rest[i], rest[i + 1]) {
        assert WaitsFor(s, path[i + 1], path[i + 1 + 1]);
      }
      WaitsAreAcyclic(s, rest);
    }
  }

  predicate Open(s: State, p: nat) {
    p < |s.sessions| && s.sessions[p].phase.InTransaction?
  }

  /** Among the first n requests, an open one of highest rank. */
  lemma {:induction false} HighestOpen(s: State, n: nat) returns (best: nat)
    requires n <= |s.sessions| && exists p :: 0 <= p < n && Open(s, p)
    ensures best < n && Open(s, best)
    ensures forall p :: 0 <= p < n && Open(s, p) ==> Rank(s.sessions[p]) <= Rank(s.sessions[best])
  {
    if exists p :: 0 <= p < n - 1 && Open(s, p) {
      best := HighestOpen(s, n - 1);
      if Open(s, n - 1) && Rank(s.sessions[n - 1]) > Rank(s.sessions[best]) {
        best := n - 1;
      }
    } else {
      best := n - 1;
    }
  }

  /** As long as a transaction is open, some open transaction is not waiting for anybody. */
  lemma SomeoneCanStep(s: State) returns (p: nat)
    requires Inv(s) && exists p :: 0 <= p < |s.sessions| && Open(s, p)
    ensures Open(s, p) && !Blocked(s, p)
  {
    p := HighestOpen(s, |s.sessions|);
    if Blocked(s, p) {
      var q :| 0 <= q < |s.sessions| && WaitsFor(s, p, q);
      WaitsClimb(s, p, q);
      assert Open(s, q);
      assert false;
    }
  }

  // ---------- every request can finish ----------

  function StagesLeft(req: Request, stage: Stage): nat {
    match stage
    case Reading(i) => if i < 2 then 9 - i else 8
    case Checking => 7
    case Inserting => 6
    case Moving(j) => if j < 2 then 5 - j else 4
    case Marking => 3
    case Emitting => 2
    case Committing => 1
  }

  /** A bound on the steps a request still has before it, retries included. */
  function StepsLeft(sess: Session): nat {
    match sess.phase
    case Looking => 34
    case Screening => 33
    case InTransaction(_, stage, _) =>
      2 + StagesLeft(sess.req, stage) +
      (if sess.attempt < TRANSFER_ATTEMPTS then 10 * (TRANSFER_ATTEMPTS - 1 - sess.attempt) else 0)
    case Releasing(_) => 2
    case Resolving(_) => 1
    case Done(_) => 0
  }

  /** The action that moves request p on. */
  function Push(s: State, p: nat): Action
    requires p < |s.sessions|
  {
    if s.sessions[p].phase == Screening then Screen(p, []) else Advance(p)
  }

  /** An unblocked push strictly shortens its request and leaves the others where they were; so does any fault. */
  lemma PushShortens(s: State, p: nat)
    requires Inv(s) && p < |s.sessions| && !s.sessions[p].phase.Done?
    requires s.sessions[p].phase.InTransaction? ==> !Blocked(s, p)
    ensures var t := Next(s, Push(s, p));
      |t.sessions| == |s.sessions| && t.sessions == s.sessions[p := t.sessions[p]] &&
      StepsLeft(t.sessions[p]) < StepsLeft(s.sessions[p])
  {
    assert SessionInv(s, s.sessions[p]);
    if s.sessions[p].phase.InTransaction? {
      TransactionShortens(s, p);
    }
  }

  lemma TransactionShortens(s: State, p: nat)
    requires Inv(s) && p < |s.sessions| && s.sessions[p].phase.InTransaction?
    ensures var t := AdvanceTransaction(s, p);
      |t.sessions| == |s.sessions| && t.sessions == s.sessions[p := t.sessions[p]] &&
      StepsLeft(t.sessions[p]) < StepsLeft(s.sessions[p])
  {
    var sess := s.sessions[p];
    assert SessionInv(s, sess);
    var InTransaction(purpose, stage, work) := sess.phase;
    assert |Moves(sess.req)| <= 2 && |Reads(sess.req)| <= 2;
  }

  lemma FaultShortens(s: State, p: nat, retryable: bool)
    requires Inv(s) && p < |s.sessions|
    ensures var t := Next(s, Fault(p, retryable));
      t == s || (p < |t.sessions| && StepsLeft(t.sessions[p]) < StepsLeft(s.sessions[p]))
  {
    assert SessionInv(s, s.sessions[p]);
  }

  function TotalLeft(sessions: seq<Session>): nat {
    if |sessions| == 0 then 0
    else TotalLeft(sessions[..|sessions| - 1]) + StepsLeft(sessions[|sessions| - 1])
  }

  lemma {:induction false} LeftUpdate(sessions: seq<Session>, p: nat, sess: Session)
    requires p < |sessions|
    ensures TotalLeft(sessions[p := sess]) == TotalLeft(sessions) - StepsLeft(sessions[p]) + StepsLeft(sess)
  {
    var last := |sessions| - 1;
    var updated := sessions[p := sess];
    if p < last {
      LeftUpdate(sessions[..last], p, sess);
      assert updated[..last] == sessions[..last][p := sess];
    } else {
      assert updated[..last] == sessions[..last];
    }
  }

  ghost predicate AllDone(s: State) {
    forall p :: 0 <= p < |s.sessions| ==> s.sessions[p].phase.Done?
  }

  lemma SomeoneToPush(s: State) returns (p: nat)
    requires Inv(s) && !AllDone(s)
    ensures p < |s.sessions| && !s.sessions[p].phase.Done?
    ensures s.sessions[p].phase.InTransaction? ==> !Blocked(s, p)
  {
    if exists q :: 0 <= q < |s.sessions| && Open(s, q) {
      p := SomeoneCanStep(s);
    } else {
      p :| 0 <= p < |s.sessions| && !s.sessions[p].phase.Done?;
      assert !Open(s, p);
    }
  }

  /** From every reachable state there is a continuation in which every request gets its answer,
      within the number of steps they still have left. */
  lemma {:induction false} EveryoneCanFinish(s: State) returns (actions: seq<Action>)
    requires Inv(s)
    ensures AllDone(Run(s, actions))
    ensures |actions| <= TotalLeft(s.sessions)
    decreases TotalLeft(s.sessions)
  {
    actions := [];
    if !AllDone(s) {
      var p := SomeoneToPush(s);
      var t := Next(s, Push(s, p));
      PushShortens(s, p);
      LeftUpdate(s.sessions, p, t.sessions[p]);
      NextInv(s, Push(s, p));
      var rest := EveryoneCanFinish(t);
      RunThen(s, Push(s, p), rest);
      actions := [Push(s, p)] + rest;
    }
  }
}
