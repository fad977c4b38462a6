/**
 * What a commit does, as functions of the pending batch, the received
 * message and the environment's failures: the flush runs the plan's
 * operations in order and stops at the first one that raises; only a fully
 * successful flush is followed by completing the received message; any
 * failure abandons it and re-raises the original fault; every brokered
 * message that reached the dispose list is disposed at the end.
 */
module Commit {
  import opened Wrappers
  import opened Messages
  import opened Batching
  import opened ServiceBus

  /** The state of a flush: calls that took effect, brokered messages created,
      those put on the dispose list, attempts used, and the fault raised. */
  datatype Flushed = Flushed(
    calls: seq<Call>, created: seq<BrokeredMessage>, toDispose: seq<BrokeredMessage>,
    attempts: nat, fault: Option<Fault>)

  /**
   * Converts a chunk in order, stopping at the first envelope that raises:
   * `made` are the messages converted before that point; `ok` says whether
   * the whole chunk was converted.
   */
  function CreateAll(envelopes: seq<Envelope>): (r: (seq<BrokeredMessage>, bool))
    ensures r.1 <==> AllHaveHeaders(envelopes)
    ensures |r.0| <= |envelopes| && (r.1 ==> |r.0| == |envelopes|)
    ensures forall i :: 0 <= i < |r.0| ==> envelopes[i].headers.Some? && r.0[i] == Brokered(envelopes[i])
    ensures !r.1 ==> |r.0| < |envelopes| && envelopes[|r.0|].headers.None?
  {
    if envelopes == [] then ([], true)
    else
      match CreateBrokeredMessage(envelopes[0])
      case Failure(_) => ([], false)
      case Success(m) =>
        var rest := CreateAll(envelopes[1..]);
        ([m] + rest.0, rest.1)
  }

  /**
   * One operation of the flush, on a flush that has not failed. When an
   * envelope's conversion raises, the brokered message its constructor had
   * already built is created but never reaches the dispose list.
   */
  function ExecStep(f: Flushed, s: Step, fails: nat -> bool): (g: Flushed)
    ensures f.calls <= g.calls && f.created <= g.created && f.toDispose <= g.toDispose
    ensures f.toDispose == f.created ==> g.toDispose <= g.created
    ensures g.fault.None? <==> f.fault.None? && Convertible(s) && !fails(f.attempts)
    ensures !Convertible(s) ==>
      g.attempts == f.attempts && g.calls == f.calls && g.toDispose == f.toDispose && g.fault == Some(NullHeaders)
    ensures Convertible(s) ==>
      && g.attempts == f.attempts + 1
      && g.calls == f.calls + Try(fails, f.attempts, IdealCall(s))
      && (f.toDispose == f.created ==> g.toDispose == g.created)
  {
    match s
    case SendOne(dest, e) =>
      (match CreateBrokeredMessage(e)
       case Failure(err) => f.(created := f.created + [Constructed(e)], fault := Some(err))
       case Success(m) =>
         f.(calls := f.calls + Try(fails, f.attempts, Send(dest, m)),
            created := f.created + [m],
            toDispose := f.toDispose + [m],
            attempts := f.attempts + 1,
            fault := if fails(f.attempts) then Some(SendFailed(dest)) else f.fault))
    case SendMany(dest, es) =>
      var (made, allMade) := CreateAll(es);
      if !allMade then
        f.(created := f.created + made + [Constructed(es[|made|])], fault := Some(NullHeaders))
      else
        assert made == seq(|es|, i requires 0 <= i < |es| => Brokered(es[i]));
        f.(calls := f.calls + Try(fails, f.attempts, SendBatch(dest, made)),
           created := f.created + made,
           toDispose := f.toDispose + made,
           attempts := f.attempts + 1,
           fault := if fails(f.attempts) then Some(SendFailed(dest)) else f.fault)
  }

  /** The envelopes an operation carries. */
  function StepEnvelopes(s: Step): seq<Envelope>
  {
    match s
    case SendOne(_, e) => [e]
    case SendMany(_, es) => es
  }

  /** The brokered messages a send or batch send hands to the backend. */
  function Sent(c: Call): seq<BrokeredMessage>
  {
    match c
    case Send(_, m) => [m]
    case SendBatch(_, ms) => ms
    case _ => []
  }

  /**
   * What an operation creates. A convertible one creates one brokered message
   * per envelope, in order, exactly the messages its call sends, and lists them
   * all for disposal. Otherwise, with k the number of envelopes converted before
   * the first one without headers, it creates the k converted messages and then
   * the half-built message of envelope k, and lists none of them for disposal.
   */
  lemma StepCreates(f: Flushed, s: Step, fails: nat -> bool)
    ensures var g := ExecStep(f, s, fails);
      var es := StepEnvelopes(s);
      Convertible(s) ==>
        && Sent(IdealCall(s)) == seq(|es|, i requires 0 <= i < |es| => Brokered(es[i]))
        && g.created == f.created + Sent(IdealCall(s))
        && g.toDispose == f.toDispose + Sent(IdealCall(s))
    ensures var g := ExecStep(f, s, fails);
      var es := StepEnvelopes(s);
      var k := |CreateAll(es).0|;
      !Convertible(s) ==>
        && k < |es| && es[k].headers.None? && (forall i :: 0 <= i < k ==> es[i].headers.Some?)
        && g.created == f.created + seq(k, i requires 0 <= i < k => Brokered(es[i])) + [Constructed(es[k])]
        && g.toDispose == f.toDispose
  {
    var es := StepEnvelopes(s);
    var made := CreateAll(es).0;
    assert made == seq(|made|, i requires 0 <= i < |made| => Brokered(es[i]));
    match s
    case SendOne(dest, e) =>
      assert es[1..] == [];
    case SendMany(dest, chunk) =>
  }

  /** The operations run in order from attempt number `start`; once one raises, the rest are skipped. */
  function ExecFlush(steps: seq<Step>, fails: nat -> bool, start: nat): (f: Flushed)
    ensures f.toDispose <= f.created
    ensures f.fault.None? ==> |f.calls| == |steps| && f.attempts == start + |steps| && f.toDispose == f.created
  {
    if steps == [] then Flushed([], [], [], start, None)
    else
      var f := ExecFlush(steps[..|steps| - 1], fails, start);
      if f.fault.Some? then f else ExecStep(f, steps[|steps| - 1], fails)
  }

  predicate Convertible(s: Step) {
    match s
    case SendOne(_, e) => e.headers.Some?
    case SendMany(_, es) => AllHaveHeaders(es)
  }

  /** The call an operation makes when it goes through. */
  function IdealCall(s: Step): Call
    requires Convertible(s)
  {
    match s
    case SendOne(d, e) => Send(d, Brokered(e))
    case SendMany(d, es) => SendBatch(d, seq(|es|, i requires 0 <= i < |es| => Brokered(es[i])))
  }

  function IdealCalls(steps: seq<Step>): seq<Call>
    requires forall i :: 0 <= i < |steps| ==> Convertible(steps[i])
  {
    seq(|steps|, i requires 0 <= i < |steps| => IdealCall(steps[i]))
  }

  // ------------------------------------------------------------ flush lemmas

  /** Appending one operation runs it after the others (unless they failed). */
  lemma ExecSnoc(steps: seq<Step>, s: Step, fails: nat -> bool, start: nat)
    ensures ExecFlush(steps + [s], fails, start) ==
      var f := ExecFlush(steps, fails, start);
      if f.fault.Some? then f else ExecStep(f, s, fails)
  {
    assert (steps + [s])[..|steps|] == steps;
  }

  /** After a fault nothing more happens: the remaining operations are aborted. */
  lemma {:induction false} ExecAbortsAfterFault(steps: seq<Step>, rest: seq<Step>, fails: nat -> bool, start: nat)
    requires ExecFlush(steps, fails, start).fault.Some?
    ensures ExecFlush(steps + rest, fails, start) == ExecFlush(steps, fails, start)
  {
    if rest != [] {
      var n := |rest| - 1;
      ExecAbortsAfterFault(steps, rest[..n], fails, start);
      assert steps + rest == (steps + rest[..n]) + [rest[n]];
      ExecSnoc(steps + rest[..n], rest[n], fails, start);
    } else {
      assert steps + rest == steps;
    }
  }

  /** When no envelope lacks headers and no attempt fails, every operation goes
      through once, in plan order, and everything created is disposed. */
  lemma {:induction false} ExecAllSucceed(steps: seq<Step>, fails: nat -> bool, start: nat)
    requires forall i :: 0 <= i < |steps| ==> Convertible(steps[i])
    requires forall k :: start <= k < start + |steps| ==> !fails(k)
    ensures var f := ExecFlush(steps, fails, start);
      && f.fault.None?
      && f.calls == IdealCalls(steps)
      && f.attempts == start + |steps|
      && f.toDispose == f.created
  {
    if steps != [] {
      var n := |steps| - 1;
      ExecAllSucceed(steps[..n], fails, start);
      var f := ExecFlush(steps[..n], fails, start);
      assert IdealCalls(steps) == IdealCalls(steps[..n]) + [IdealCall(steps[n])];
      match steps[n]
      case SendOne(d, e) =>
      case SendMany(d, es) =>
        var made := CreateAll(es).0;
        assert made == seq(|es|, i requires 0 <= i < |es| => Brokered(es[i]));
    }
  }

  /** When operation k is the first whose attempt fails, exactly the operations
      before it went through, and the flush raises the send failure for k's destination. */
  lemma FirstFailureAborts(steps: seq<Step>, fails: nat -> bool, start: nat, k: nat)
    requires forall i :: 0 <= i < |steps| ==> Convertible(steps[i])
    requires k < |steps|
    requires forall j :: start <= j < start + k ==> !fails(j)
    requires fails(start + k)
    ensures var f := ExecFlush(steps, fails, start);
      && f.calls == IdealCalls(steps[..k])
      && f.fault == Some(SendFailed(steps[k].dest))
      && f.attempts == start + k + 1
      && f.toDispose == f.created
  {
    var pre := steps[..k];
    var f0 := ExecFlush(pre, fails, start);
    assert f0.fault.None? && f0.calls == IdealCalls(pre) && f0.attempts == start + k
        && f0.toDispose == f0.created by {
      forall i | 0 <= i < |pre| ensures Convertible(pre[i]) {
        assert pre[i] == steps[i];
      }
      ExecAllSucceed(pre, fails, start);
    }
    StepFails(f0, steps[k], fails);
    var g := ExecStep(f0, steps[k], fails);
    assert ExecFlush(steps[..k + 1], fails, start) == g by {
      assert steps[..k + 1][..k] == pre;
    }
    FaultedPrefixDecides(steps, k + 1, fails, start);
  }

  /** Once a prefix of the operations has raised, the flush's result is that prefix's. */
  lemma FaultedPrefixDecides(steps: seq<Step>, n: nat, fails: nat -> bool, start: nat)
    requires n <= |steps|
    requires ExecFlush(steps[..n], fails, start).fault.Some?
    ensures ExecFlush(steps, fails, start) == ExecFlush(steps[..n], fails, start)
  {
    ExecAbortsAfterFault(steps[..n], steps[n..], fails, start);
    assert steps == steps[..n] + steps[n..];
  }

  /** Running one more operation of a group whose earlier operations raised nothing. */
  lemma ExecExtend(done: seq<Step>, steps: seq<Step>, j: nat, fails: nat -> bool, start: nat)
    requires j < |steps|
    requires ExecFlush(done + steps[..j], fails, start).fault.None?
    ensures ExecFlush(done + steps[..j + 1], fails, start) ==
      ExecStep(ExecFlush(done + steps[..j], fails, start), steps[j], fails)
  {
    assert done + steps[..j + 1] == (done + steps[..j]) + [steps[j]];
    ExecSnoc(done + steps[..j], steps[j], fails, start);
  }

  /** A group's run is decided once all of its operations ran or one of them raised. */
  lemma ExecFinish(done: seq<Step>, steps: seq<Step>, j: nat, fails: nat -> bool, start: nat)
    requires j <= |steps|
    requires j == |steps| || ExecFlush(done + steps[..j], fails, start).fault.Some?
    ensures ExecFlush(done + steps, fails, start) == ExecFlush(done + steps[..j], fails, start)
  {
    if j == |steps| {
      assert steps[..j] == steps;
    } else {
      var all := done + steps;
      assert all[..|done| + j] == done + steps[..j];
      FaultedPrefixDecides(all, |done| + j, fails, start);
    }
  }

  /** The groups' run is decided once all groups ran or one of them raised. */
  lemma GroupsFinish(groups: seq<(Destination, seq<Envelope>)>, i: nat, fails: nat -> bool, start: nat)
    requires i <= |groups|
    requires i == |groups| || ExecFlush(PlanGroups(groups[..i]), fails, start).fault.Some?
    ensures ExecFlush(PlanGroups(groups), fails, start) == ExecFlush(PlanGroups(groups[..i]), fails, start)
  {
    if i == |groups| {
      assert groups[..i] == groups;
    } else {
      PlanGroupsPrefix(groups, i);
      FaultedPrefixDecides(PlanGroups(groups), |PlanGroups(groups[..i])|, fails, start);
    }
  }

  /** An operation whose attempt fails adds no call but still lists what it created for disposal. */
  lemma StepFails(f: Flushed, s: Step, fails: nat -> bool)
    requires f.fault.None? && Convertible(s) && fails(f.attempts)
    ensures var g := ExecStep(f, s, fails);
      && g.calls == f.calls
      && g.fault == Some(SendFailed(s.dest))
      && g.attempts == f.attempts + 1
      && (f.toDispose == f.created ==> g.toDispose == g.created)
  {
  }

  /** A flush only ever sends: it never completes, abandons or disposes anything. */
  lemma {:induction false} FlushOnlySends(steps: seq<Step>, fails: nat -> bool, start: nat)
    ensures forall i :: 0 <= i < |ExecFlush(steps, fails, start).calls| ==>
      ExecFlush(steps, fails, start).calls[i].Send? || ExecFlush(steps, fails, start).calls[i].SendBatch?
  {
    if steps != [] {
      FlushOnlySends(steps[..|steps| - 1], fails, start);
    }
  }

  /** A flush with every envelope convertible disposes everything it created,
      whatever the failures. */
  lemma {:induction false} FlushDisposesAllCreated(steps: seq<Step>, fails: nat -> bool, start: nat)
    requires forall i :: 0 <= i < |steps| ==> Convertible(steps[i])
    ensures ExecFlush(steps, fails, start).toDispose == ExecFlush(steps, fails, start).created
  {
    if steps != [] {
      FlushDisposesAllCreated(steps[..|steps| - 1], fails, start);
    }
  }

  /** Attempts are used at most one per planned operation, and every call that
      took effect used one. */
  lemma {:induction false} FlushBounds(steps: seq<Step>, fails: nat -> bool, start: nat)
    ensures var f := ExecFlush(steps, fails, start);
      start <= f.attempts <= start + |steps| && |f.calls| <= f.attempts - start
  {
    if steps != [] {
      FlushBounds(steps[..|steps| - 1], fails, start);
    }
  }

  /**
   * As written, a chunk whose conversion raises part-way leaves every brokered
   * message built for it off the dispose list: here, a chunk whose second
   * envelope has a null header dictionary builds the first message in full and
   * the second up to its constructor, and disposes neither.
   */
  lemma PartialChunkNotDisposed(dest: Destination, good: Envelope, bad: Envelope, fails: nat -> bool)
    requires good.headers.Some? && bad.headers.None?
    ensures var f := ExecFlush([SendMany(dest, [good, bad])], fails, 0);
      && f.created == [Brokered(good), Constructed(bad)]
      && f.toDispose == []
      && f.fault == Some(NullHeaders)
  {
    var es := [good, bad];
    assert es[1..] == [bad];
    assert CreateAll(es[1..]) == ([], false);
    assert [Brokered(good)] + [] == [Brokered(good)];
    assert CreateAll(es) == ([Brokered(good)], false);
    assert [SendMany(dest, es)][..0] == [];
  }

  /** Likewise a single send of an envelope with a null header dictionary builds
      a brokered message that is never disposed, and makes no attempt. */
  lemma NullHeaderSendNotDisposed(dest: Destination, bad: Envelope, fails: nat -> bool, start: nat)
    requires bad.headers.None?
    ensures var f := ExecFlush([SendOne(dest, bad)], fails, start);
      && f.created == [Constructed(bad)]
      && f.toDispose == [] && f.calls == [] && f.attempts == start
      && f.fault == Some(NullHeaders)
  {
    assert [SendOne(dest, bad)][..0] == [];
  }

  // ------------------------------------------------------------------ commit

  datatype Committed = Committed(calls: seq<Call>, attempts: nat, outcome: Outcome<Fault>)

  /** The flush as the commit runs it; a null pending batch raises before anything is sent. */
  function CommitFlush(pending: Option<Pending>, fails: nat -> bool, start: nat): (f: Flushed)
    ensures pending.None? ==>
      f.fault == Some(NoPendingBatch) && f.calls == [] && f.created == [] && f.attempts == start
    ensures pending == Some([]) ==> f.fault.None? && f.calls == [] && f.created == [] && f.attempts == start
    ensures start <= f.attempts && f.toDispose <= f.created
  {
    match pending
    case None => Flushed([], [], [], start, Some(NoPendingBatch))
    case Some(p) =>
      FlushBounds(Plan(p), fails, start);
      ExecFlush(Plan(p), fails, start)
  }

  /** What follows the flush: completing the received message if the flush went through,
      then abandoning it if anything raised. */
  datatype Settled = Settled(calls: seq<Call>, attempts: nat, fault: Option<Fault>)

  function Settle(flushFault: Option<Fault>, received: Option<Delivery>, fails: nat -> bool, start: nat): (s: Settled)
    ensures s.fault.Some? <==> flushFault.Some? || (received.Some? && fails(start))
    ensures flushFault.Some? ==> s.fault == flushFault
    ensures received.None? ==> s.calls == [] && s.attempts == start
    ensures received.Some? && flushFault.None? && !fails(start) ==>
      s.calls == [Complete(received.value)] && s.attempts == start + 1
    ensures received.Some? && flushFault.Some? ==>
      s.calls == Try(fails, start, Abandon(received.value)) && s.attempts == start + 1
    ensures received.Some? && flushFault.None? && fails(start) ==>
      s.calls == Try(fails, start + 1, Abandon(received.value)) && s.attempts == start + 2
    ensures received.Some? && s.fault.Some? ==>
      s.attempts > start && Complete(received.value) !in s.calls &&
      (Abandon(received.value) in s.calls <==> !fails(s.attempts - 1))
  {
    match received
    case None => Settled([], start, flushFault)
    case Some(d) =>
      if flushFault.Some? then Settled(Try(fails, start, Abandon(d)), start + 1, flushFault)
      else if !fails(start) then Settled([Complete(d)], start + 1, None)
      else Settled(Try(fails, start + 1, Abandon(d)), start + 2, Some(CompleteFailed))
  }

  /** The commit hook: the flush, then the settlement of the received message,
      then the disposal of everything on the dispose list, whatever the outcome. */
  function CommitRun(pending: Option<Pending>, received: Option<Delivery>, fails: nat -> bool, start: nat): (r: Committed)
    ensures var f := CommitFlush(pending, fails, start);
      && (r.outcome.Fail? <==> f.fault.Some? || (received.Some? && fails(f.attempts)))
      && (f.fault.Some? ==> r.outcome == Fail(f.fault.value))
      && r.attempts == f.attempts + (if received.None? then 0 else if f.fault.None? && fails(f.attempts) then 2 else 1)
  {
    Finish(CommitFlush(pending, fails, start), received, fails)
  }

  /**
   * The commit's log is laid out in three parts: the flush's calls first, then
   * at most one call, the Complete or the abandon of the received message, then the
   * disposal of the dispose list, in order, whatever failed.
   */
  lemma CommitLayout(pending: Option<Pending>, received: Option<Delivery>, fails: nat -> bool, start: nat)
    ensures var f := CommitFlush(pending, fails, start);
      var r := CommitRun(pending, received, fails, start);
      && |f.calls| + |f.toDispose| <= |r.calls| <= |f.calls| + 1 + |f.toDispose|
      && r.calls[..|f.calls|] == f.calls
      && r.calls[|r.calls| - |f.toDispose|..] == Disposals(f.toDispose)
      && (forall i :: |f.calls| <= i < |r.calls| - |f.toDispose| ==>
            received.Some? && (r.calls[i] == Complete(received.value) || r.calls[i] == Abandon(received.value)))
  {
    var f := CommitFlush(pending, fails, start);
    var s := Settle(f.fault, received, fails, f.attempts);
    var r := CommitRun(pending, received, fails, start);
    assert r.calls == f.calls + s.calls + Disposals(f.toDispose);
    assert r.calls[..|f.calls|] == f.calls;
    assert r.calls[|r.calls| - |f.toDispose|..] == Disposals(f.toDispose);
    assert forall i :: |f.calls| <= i < |r.calls| - |f.toDispose| ==> r.calls[i] == s.calls[i - |f.calls|];
    assert forall c :: c in s.calls ==> received.Some? && (c == Complete(received.value) || c == Abandon(received.value));
  }

  /** The settlement and the disposals that follow a flush. */
  function Finish(f: Flushed, received: Option<Delivery>, fails: nat -> bool): Committed
  {
    var s := Settle(f.fault, received, fails, f.attempts);
    Committed(f.calls + s.calls + Disposals(f.toDispose), s.attempts,
              if s.fault.Some? then Fail(s.fault.value) else Pass)
  }

  lemma NotCompleteOrAbandon(calls: seq<Call>, d: Delivery)
    requires forall i :: 0 <= i < |calls| ==> calls[i].Send? || calls[i].SendBatch?
    ensures Complete(d) !in calls && Abandon(d) !in calls
  {
  }

  lemma NotInDisposals(messages: seq<BrokeredMessage>, d: Delivery)
    ensures Complete(d) !in Disposals(messages) && Abandon(d) !in Disposals(messages)
  {
  }

  /** The received message is completed exactly when the commit succeeds, and
      then only after the whole flush has gone through. */
  lemma CompletedIffCommitted(pending: Option<Pending>, d: Delivery, fails: nat -> bool, start: nat)
    ensures var r := CommitRun(pending, Some(d), fails, start);
      var f := CommitFlush(pending, fails, start);
      && (Complete(d) in r.calls <==> r.outcome.Pass?)
      && (r.outcome.Pass? ==> f.fault.None? && r.calls == f.calls + [Complete(d)] + Disposals(f.toDispose))
  {
    var f := CommitFlush(pending, fails, start);
    if pending.Some? {
      FlushOnlySends(Plan(pending.value), fails, start);
    }
    NotCompleteOrAbandon(f.calls, d);
    NotInDisposals(f.toDispose, d);
  }

  /** A failed commit abandons the received message and re-raises the original
      fault, whether or not abandoning raises in turn. */
  lemma FailedCommitAbandons(pending: Option<Pending>, d: Delivery, fails: nat -> bool, start: nat)
    requires CommitRun(pending, Some(d), fails, start).outcome.Fail?
    ensures var r := CommitRun(pending, Some(d), fails, start);
      var f := CommitFlush(pending, fails, start);
      && (f.fault.Some? ==> r.outcome.error == f.fault.value)
      && (f.fault.None? ==> r.outcome.error == CompleteFailed)
      && (Abandon(d) in r.calls <==> !fails(r.attempts - 1))
      && Complete(d) !in r.calls
  {
    var f := CommitFlush(pending, fails, start);
    if pending.Some? {
      FlushOnlySends(Plan(pending.value), fails, start);
    }
    FinishFailed(f, d, fails);
  }

  /** FailedCommitAbandons for any flush that only sent. */
  lemma FinishFailed(f: Flushed, d: Delivery, fails: nat -> bool)
    requires forall i :: 0 <= i < |f.calls| ==> f.calls[i].Send? || f.calls[i].SendBatch?
    requires Finish(f, Some(d), fails).outcome.Fail?
    ensures var r := Finish(f, Some(d), fails);
      && (f.fault.Some? ==> r.outcome.error == f.fault.value)
      && (f.fault.None? ==> r.outcome.error == CompleteFailed)
      && (Abandon(d) in r.calls <==> !fails(r.attempts - 1))
      && Complete(d) !in r.calls
  {
    var s := Settle(f.fault, Some(d), fails, f.attempts);
    NotCompleteOrAbandon(f.calls, d);
    NotInDisposals(f.toDispose, d);
    assert s.fault.Some?;
  }

  /** A commit without a received message (sends outside a handler) neither completes nor abandons. */
  lemma SendOnlyCommit(pending: Option<Pending>, fails: nat -> bool, start: nat)
    ensures var r := CommitRun(pending, None, fails, start);
      var f := CommitFlush(pending, fails, start);
      && r.calls == f.calls + Disposals(f.toDispose)
      && r.attempts == f.attempts
      && (r.outcome.Pass? <==> f.fault.None?)
  {
    var f := CommitFlush(pending, fails, start);
    var s := Settle(f.fault, None, fails, f.attempts);
    assert s == Settled([], f.attempts, f.fault);
    assert f.calls + s.calls == f.calls;
  }

  /** Every brokered message on the dispose list is disposed, in order, as the last
      thing the commit does, whatever the outcome; when every pending envelope can be
      converted that is every brokered message the flush created. */
  lemma CommitDisposesEverything(pending: Option<Pending>, received: Option<Delivery>, fails: nat -> bool, start: nat)
    requires pending.Some? ==> forall i :: 0 <= i < |pending.value| ==> pending.value[i].1.headers.Some?
    ensures var r := CommitRun(pending, received, fails, start);
      var f := CommitFlush(pending, fails, start);
      && f.toDispose == f.created
      && |f.created| <= |r.calls|
      && r.calls[|r.calls| - |f.created|..] == Disposals(f.created)
  {
    if pending.Some? {
      PlanConvertible(pending.value);
      FlushDisposesAllCreated(Plan(pending.value), fails, start);
    }
  }

  /** If every pending envelope has headers, every planned operation can be converted. */
  lemma PlanConvertible(pending: Pending)
    requires forall i :: 0 <= i < |pending| ==> pending[i].1.headers.Some?
    ensures forall i :: 0 <= i < |Plan(pending)| ==> Convertible(Plan(pending)[i])
  {
    PlanIsPermutation(pending);
    var carried := Carried(Plan(pending));
    forall e | e in carried
      ensures e.headers.Some?
    {
      assert e in multiset(carried);
      assert e in multiset(EnvelopesOf(pending));
      var i :| 0 <= i < |pending| && EnvelopesOf(pending)[i] == e;
    }
    ConvertibleFromCarried(Plan(pending));
  }

  lemma {:induction false} ConvertibleFromCarried(steps: seq<Step>)
    requires forall e :: e in Carried(steps) ==> e.headers.Some?
    ensures forall i :: 0 <= i < |steps| ==> Convertible(steps[i])
  {
    if steps != [] {
      var n := |steps| - 1;
      var last := match steps[n] case SendOne(_, e) => [e] case SendMany(_, es) => es;
      assert Carried(steps) == Carried(steps[..n]) + last;
      ConvertibleFromCarried(steps[..n]);
      assert Convertible(steps[n]) by {
        match steps[n]
        case SendOne(d, e) =>
          assert e in last;
        case SendMany(d, es) =>
          forall i | 0 <= i < |es| ensures es[i].headers.Some? {
            assert es[i] in last;
          }
      }
      forall i | 0 <= i < |steps| ensures Convertible(steps[i]) {
        if i < n {
          assert steps[i] == steps[..n][i];
        }
      }
    }
  }

  /** A successful commit of 250 envelopes to one destination: three batch sends
      of 100, 100 and 50 messages, in order, then Complete, then the disposals. */
  lemma Commit250ToOneDestination(pending: Pending, dest: Destination, d: Delivery, fails: nat -> bool, start: nat)
    requires |pending| == 250
    requires forall i :: 0 <= i < |pending| ==> pending[i].0 == dest && pending[i].1.headers.Some?
    requires forall k :: start <= k < start + 4 ==> !fails(k)
    ensures var r := CommitRun(Some(pending), Some(d), fails, start);
      var f := CommitFlush(Some(pending), fails, start);
      && r.outcome == Pass
      && |r.calls| == 4 + 250
      && r.calls[3] == Complete(d)
      && (forall i :: 0 <= i < 3 ==> r.calls[i].SendBatch? && r.calls[i].dest == dest)
      && |r.calls[0].messages| == 100 && |r.calls[1].messages| == 100 && |r.calls[2].messages| == 50
      && r.calls[4..] == Disposals(f.created)
  {
    var plan := Plan(pending);
    TwoHundredFiftyToOneDestination(pending, dest);
    PlanConvertible(pending);
    ExecAllSucceed(plan, fails, start);
    var f := ExecFlush(plan, fails, start);
    assert f.attempts == start + 3;
    PlanCarriesAll(pending, dest);
    CarriedMadeCount(plan, fails, start);
    assert |f.created| == 250;
    var calls := f.calls + [Complete(d)] + Disposals(f.created);
    assert CommitRun(Some(pending), Some(d), fails, start) == Committed(calls, start + 4, Pass);
    assert f.calls == IdealCalls(plan);
  }

  /** A single-destination batch is planned as that destination's group, carrying all of it. */
  lemma PlanCarriesAll(pending: Pending, dest: Destination)
    requires pending != []
    requires forall i :: 0 <= i < |pending| ==> pending[i].0 == dest
    ensures |Carried(Plan(pending))| == |pending|
  {
    var es := EnvelopesOf(pending);
    SingleDestination(pending, dest);
    var groups := [(dest, es)];
    assert groups[..0] == [];
    assert PlanGroups(groups) == PlanGroups([]) + GroupSteps(dest, es);
    assert Plan(pending) == GroupSteps(dest, es);
    GroupStepsCarry(dest, es);
  }

  /** A commit that sends everything creates one brokered message per carried envelope. */
  lemma {:induction false} CarriedMadeCount(steps: seq<Step>, fails: nat -> bool, start: nat)
    requires forall i :: 0 <= i < |steps| ==> Convertible(steps[i])
    requires ExecFlush(steps, fails, start).fault.None?
    ensures |ExecFlush(steps, fails, start).created| == |Carried(steps)|
  {
    if steps != [] {
      var n := |steps| - 1;
      CarriedMadeCount(steps[..n], fails, start);
    }
  }
}
