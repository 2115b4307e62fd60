/** The command queue as a class: its contexts and its two queues change in place, one enqueue or one half of `process` at
  * a time. Time is what the caller's clock shows. */
module CommandQueue {
  import opened Bytes
  import opened CommandQueueSpec

  class Queue {
    var contexts: seq<Context>
    var later: seq<nat>
    var commands: seq<nat>
    var running: Option<nat>

    ghost function Value(): Queues
      reads this
    {
      Queues(contexts, later, commands, running)
    }

    constructor (size: nat)
      ensures Value() == Idle(size) && Inv(Value())
    {
      contexts := seq(size, _ => Context(0, 0, false, false, 0, -1, -1));
      later, commands, running := [], [], None;
    }

    method FindAvailable() returns (rc: int, idx: nat)
      ensures idx == FirstFree(contexts, 0)
      ensures rc == (if exists i :: 0 <= i < |contexts| && contexts[i].refCount == 0 then 0 else -1)
    {
      idx := FirstFree(contexts, 0);
      rc := if idx == |contexts| then -1 else 0;
    }

    /** A bounded queue refuses what does not fit. */
    method PutLater(idx: nat) returns (rc: int)
      modifies this`later
      ensures rc == (if |old(later)| < |contexts| then 0 else -1)
      ensures later == if |old(later)| < |contexts| then old(later) + [idx] else old(later)
    {
      if |later| < |contexts| { later := later + [idx]; rc := 0; } else { rc := -1; }
    }

    method PutCommand(idx: nat) returns (rc: int)
      modifies this`commands
      ensures rc == (if |old(commands)| < |contexts| then 0 else -1)
      ensures commands == if |old(commands)| < |contexts| then old(commands) + [idx] else old(commands)
    {
      if |commands| < |contexts| { commands := commands + [idx]; rc := 0; } else { rc := -1; }
    }

    method IncRefCount(idx: nat)
      requires idx < |contexts|
      modifies this`contexts
      ensures contexts == old(contexts)[idx := old(contexts)[idx].(refCount := old(contexts)[idx].refCount + 1)]
    {
      contexts := contexts[idx := contexts[idx].(refCount := contexts[idx].refCount + 1)];
    }

    method DecRefCount(idx: nat)
      requires idx < |contexts|
      modifies this`contexts
      ensures contexts == Released(old(contexts), idx)
    {
      contexts := contexts[idx := contexts[idx].(refCount := contexts[idx].refCount - 1)];
    }

    /** Succeeds exactly when some context is free: the queue itself never refuses. */
    method ExecuteAsync(func: int) returns (rc: int)
      modifies this
      ensures (Value(), rc) == Async(old(Value()), func)
      ensures old(Inv(Value())) ==>
        Inv(Value()) && rc == if exists i :: 0 <= i < |old(contexts)| && old(contexts)[i].refCount == 0 then 0 else -1
    {
      if Inv(Value()) { AsyncKeepsInv(Value(), func); }
      hide Inv;
      var found, idx := FindAvailable();
      if found < 0 { return -1; }
      contexts := contexts[idx := contexts[idx].(status := false, scheduledMs := 0, cmdId := -1, intervalMs := -1, cancelled := false)];
      contexts := contexts[idx := contexts[idx].(func := func, scheduledMs := 0, status := false)];
      IncRefCount(idx);
      assert contexts == old(contexts)[idx := Fresh(func, 0, -1, -1)];
      rc := PutCommand(idx);
      if rc != 0 {
        DecRefCount(idx);
        assert contexts == old(contexts)[idx := Fresh(func, 0, -1, -1).(refCount := 0)];
        return -1;
      }
    }

    /** Also `execute_async_interval`, which fills in one more field. */
    method ExecuteDelayed(func: int, delayMs: nat, id: int, intervalMs: int, now: nat) returns (rc: int)
      modifies this
      ensures (Value(), rc) == Delayed(old(Value()), func, delayMs, id, intervalMs, now)
      ensures old(Inv(Value())) ==>
        Inv(Value()) && rc == if exists i :: 0 <= i < |old(contexts)| && old(contexts)[i].refCount == 0 then 0 else -1
    {
      if Inv(Value()) { DelayedKeepsInv(Value(), func, delayMs, id, intervalMs, now); }
      hide Inv;
      var found, idx := FindAvailable();
      if found < 0 { return -1; }
      contexts := contexts[idx := contexts[idx].(status := false, scheduledMs := 0, cmdId := -1, intervalMs := -1, cancelled := false)];
      contexts := contexts[idx := contexts[idx].(func := func, scheduledMs := (now + delayMs) % MS, status := false)];
      IncRefCount(idx);
      contexts := contexts[idx := contexts[idx].(cmdId := id)];
      contexts := contexts[idx := contexts[idx].(intervalMs := intervalMs)];
      assert contexts == old(contexts)[idx := Fresh(func, (now + delayMs) % MS, id, intervalMs)];
      rc := PutLater(idx);
      if rc != 0 {
        DecRefCount(idx);
        assert contexts == old(contexts)[idx := Fresh(func, (now + delayMs) % MS, id, intervalMs).(refCount := 0)];
        return -1;
      }
    }

    method Cancel(id: int)
      requires Inv(Value())
      modifies this`contexts
      ensures Inv(Value()) && Value() == Cancelled(old(Value()), id)
    {
      CancelledKeepsInv(Value(), id);
      var i := FirstNamed(contexts, id, 0);
      if i != |contexts| {
        contexts := contexts[i := contexts[i].(cancelled := true)];
      }
    }

    /** The pop and put loop; seeing its first not-due command a second time ends it. */
    method EnqueueDelayedCommands(now: nat)
      requires InRange(Value()) && Distinct(later) && |later| <= |contexts|
      modifies this
      ensures Value() == DueMoved(old(Value()), now)
    {
      hide Inv, FirstDue, DueMoved, IsDue, NoneDue, Turned, InRange, Below, Places;
      NoneDueYet(Value(), now);
      ghost var q, n := Value(), |later|;
      ghost var turn: nat := 0;
      var start: Option<nat> := None;
      while later != []
        invariant turn <= n
        invariant Value() == q.(later := Turned(q.later, turn)) && NoneDue(q, now, turn)
        invariant start == if turn == 0 then None else Some(q.later[0])
        decreases n - turn
      {
        TurnedOnce(q.later, turn);
        var idx := later[0];
        DueMovedIs(q, now, turn);
        FirstAgain(q, now, turn);
        later := later[1..];
        if IsDue(contexts[idx], now) {
          var rc := PutCommand(idx);
          if rc != 0 { DecRefCount(idx); }
          break;
        } else {
          var _ := PutLater(idx);
        }
        if start == Some(idx) { break; }
        if start == None { start := Some(idx); }
        turn := turn + 1;
      }
    }

    /** `process` up to the call of the function it has popped. */
    method Begin(now: nat) returns (func: Option<int>)
      requires Inv(Value()) && running == None
      modifies this
      ensures Inv(Value()) && Value() == Popped(DueMoved(old(Value()), now))
      ensures func == if running.Some? then Some(contexts[running.value].func) else None
    {
      DueMovedKeepsInv(Value(), now);
      InvIsDistinct(Value());
      EnqueueDelayedCommands(now);
      PoppedKeepsInv(Value());
      hide Inv, DueMoved;
      func := None;
      if commands != [] {
        var idx := commands[0];
        commands := commands[1..];
        if contexts[idx].cancelled {
          DecRefCount(idx);
          return;
        }
        running := Some(idx);
        func := Some(contexts[idx].func);
      }
    }

    /** `process` after the call; meanwhile the function, or other threads, may have enqueued more. */
    method End(now: nat)
      requires InRange(Value()) && running.Some?
      modifies this
      ensures Value() == Finished(old(Value()), now)
      ensures old(Inv(Value())) ==> Inv(Value())
    {
      if Inv(Value()) { FinishedKeepsInv(Value(), now); }
      hide Inv;
      var idx := running.value;
      running := None;
      if contexts[idx].intervalMs > 0 {
        contexts := contexts[idx := contexts[idx].(scheduledMs := (now + contexts[idx].intervalMs) % MS)];
        var rc := PutLater(idx);
        if rc != 0 { DecRefCount(idx); }
      } else {
        contexts := contexts[idx := contexts[idx].(status := true)];
        DecRefCount(idx);
      }
    }
  }

  ghost predicate Distinct(s: seq<nat>) { forall j, k :: 0 <= j < k < |s| ==> s[j] != s[k] }

  function Turned(s: seq<nat>, k: nat): (r: seq<nat>)
    requires k <= |s|
    ensures |r| == |s|
  {
    s[k..] + s[..k]
  }

  /** One pop from the front and one put at the back turn the queue by one; a full turn changes nothing. */
  lemma TurnedOnce(s: seq<nat>, k: nat)
    requires k <= |s| && s != []
    ensures k == |s| ==> Turned(s, k)[1..] + [s[0]] == Turned(s, 1)
    ensures Turned(s, k)[0] == s[if k < |s| then k else 0]
    ensures k < |s| ==> Turned(s, k)[1..] == s[k + 1..] + s[..k] && Turned(s, k)[1..] + [s[k]] == Turned(s, k + 1)
  {}

  /** The first k delayed commands are not due. */
  ghost predicate NoneDue(q: Queues, now: nat, k: nat) {
    && InRange(q) && k <= |q.later|
    && forall j :: 0 <= j < k ==> !IsDue(q.contexts[q.later[j]], now)
  }

  lemma NoneDueYet(q: Queues, now: nat)
    requires InRange(q)
    ensures NoneDue(q, now, 0) && Turned(q.later, 0) == q.later
    ensures q.later == [] ==> DueMoved(q, now) == q
  {}

  /** Seeing the first command again means a full turn. */
  lemma FirstAgain(q: Queues, now: nat, k: nat)
    requires NoneDue(q, now, k) && Distinct(q.later) && q.later != []
    ensures 0 < k < |q.later| ==> q.later[k] != q.later[0]
  {}

  /** What the loop has to do after k commands that are not due: move the next one if it is due, stop after the last. */
  lemma DueMovedIs(q: Queues, now: nat, k: nat)
    requires NoneDue(q, now, k) && q.later != []
    ensures q.later[if k < |q.later| then k else 0] < |q.contexts|
    ensures k < |q.later| && !IsDue(q.contexts[q.later[k]], now) ==> NoneDue(q, now, k + 1)
    ensures k == |q.later| ==> !IsDue(q.contexts[q.later[0]], now)
    ensures k == |q.later| ==> DueMoved(q, now) == q.(later := Turned(q.later, 1))
    ensures k < |q.later| && IsDue(q.contexts[q.later[k]], now) ==>
      DueMoved(q, now) == if |q.commands| < |q.contexts| then
        q.(later := q.later[k + 1..] + q.later[..k], commands := q.commands + [q.later[k]])
      else q.(later := q.later[k + 1..] + q.later[..k], contexts := Released(q.contexts, q.later[k]))
  {
    FirstDueIs(q, now, k);
  }

  /** The first due command is the one at k when none before it is due and it is. */
  lemma FirstDueIs(q: Queues, now: nat, k: nat)
    requires InRange(q) && k <= |q.later|
    requires forall j :: 0 <= j < k ==> !IsDue(q.contexts[q.later[j]], now)
    ensures FirstDue(q, now, 0) == FirstDue(q, now, k)
  {}

  /** No command is twice in the delayed queue, so seeing the first one again means a full turn. */
  lemma InvIsDistinct(q: Queues)
    requires Inv(q)
    ensures Distinct(q.later) && InRange(q) && |q.later| <= |q.contexts|
  {
    forall i | i in multiset(q.later) ensures i < |q.contexts| && multiset(q.later)[i] <= 1 && i !in {} {
      assert Places(q, i) <= 1;
    }
    Pigeonhole(multiset(q.later), |q.contexts|, {});
    forall j, k | 0 <= j < k < |q.later| ensures q.later[j] != q.later[k] {
      var i := q.later[j];
      assert Places(q, i) <= 1;
      assert q.later == q.later[..k] + [q.later[k]] + q.later[k + 1..];
      assert q.later[..k][j] == i;
      assert multiset(q.later)[i] >= multiset(q.later[..k])[i] + multiset([q.later[k]])[i];
    }
  }
}
