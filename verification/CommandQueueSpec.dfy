/** The command queue of lib_util/command_queue.h: contexts that circulate between two bounded queues. */
module CommandQueueSpec {
  import opened Bytes

  /** A clock reading and a delay are unsigned 32-bit milliseconds; an interval is stored as a signed int. */
  const MS: nat := 0x1_0000_0000

  function AsInt(u: nat): int { if u % MS < 0x8000_0000 then u % MS else u % MS - MS }

  datatype Context = Context(func: int, refCount: int, status: bool, cancelled: bool, scheduledMs: nat, cmdId: int, intervalMs: int)

  /** `running` is the context whose function `process` has called and not yet come back from. */
  datatype Queues = Queues(contexts: seq<Context>, later: seq<nat>, commands: seq<nat>, running: Option<nat>)

  function Idle(size: nat): Queues {
    Queues(seq(size, _ => Context(0, 0, false, false, 0, -1, -1)), [], [], None)
  }

  /** The first free context from i on, or the number of contexts. */
  function FirstFree(contexts: seq<Context>, i: nat): (r: nat)
    requires i <= |contexts|
    ensures i <= r <= |contexts|
    ensures r < |contexts| ==> contexts[r].refCount == 0
    ensures forall j :: i <= j < r ==> contexts[j].refCount != 0
    decreases |contexts| - i
  {
    if i == |contexts| || contexts[i].refCount == 0 then i else FirstFree(contexts, i + 1)
  }

  /** The first context in use under the id from i on, or the number of contexts. */
  function FirstNamed(contexts: seq<Context>, id: int, i: nat): (r: nat)
    requires i <= |contexts|
    ensures i <= r <= |contexts|
    ensures r < |contexts| ==> contexts[r].cmdId == id && contexts[r].refCount > 0
    ensures forall j :: i <= j < r ==> !(contexts[j].cmdId == id && contexts[j].refCount > 0)
    decreases |contexts| - i
  {
    if i == |contexts| || (contexts[i].cmdId == id && contexts[i].refCount > 0) then i else FirstNamed(contexts, id, i + 1)
  }

  function Released(contexts: seq<Context>, i: nat): seq<Context>
    requires i < |contexts|
  {
    contexts[i := contexts[i].(refCount := contexts[i].refCount - 1)]
  }

  /** A context reset and filled in for one more command. */
  function Fresh(func: int, scheduledMs: nat, id: int, intervalMs: int): Context {
    Context(func, 1, false, false, scheduledMs, id, intervalMs)
  }

  /** execute_async: into the queue of commands. */
  function Async(q: Queues, func: int): (Queues, int) {
    var i := FirstFree(q.contexts, 0);
    if i == |q.contexts| then (q, -1)
    else if |q.commands| < |q.contexts| then
      (q.(contexts := q.contexts[i := Fresh(func, 0, -1, -1)], commands := q.commands + [i]), 0)
    else (q.(contexts := q.contexts[i := Fresh(func, 0, -1, -1).(refCount := 0)]), -1)
  }

  /** execute_async_later and execute_async_interval: into the queue of delayed commands. */
  function Delayed(q: Queues, func: int, delayMs: nat, id: int, intervalMs: int, now: nat): (Queues, int) {
    var i := FirstFree(q.contexts, 0);
    var c := Fresh(func, (now + delayMs) % MS, id, intervalMs);
    if i == |q.contexts| then (q, -1)
    else if |q.later| < |q.contexts| then (q.(contexts := q.contexts[i := c], later := q.later + [i]), 0)
    else (q.(contexts := q.contexts[i := c.(refCount := 0)]), -1)
  }

  function Cancelled(q: Queues, id: int): Queues {
    var i := FirstNamed(q.contexts, id, 0);
    if i == |q.contexts| then q
    else q.(contexts := q.contexts[i := q.contexts[i].(cancelled := true)])
  }

  predicate IsDue(c: Context, now: nat) { now % MS >= c.scheduledMs }

  predicate Below(s: seq<nat>, n: nat) { forall k :: 0 <= k < |s| ==> s[k] < n }

  predicate InRange(q: Queues) {
    && Below(q.later, |q.contexts|)
    && Below(q.commands, |q.contexts|)
    && (q.running.Some? ==> q.running.value < |q.contexts|)
  }

  /** The place in the delayed queue of the first due command from k on, or the length of the queue. */
  function FirstDue(q: Queues, now: nat, k: nat): (r: nat)
    requires InRange(q) && k <= |q.later|
    ensures k <= r <= |q.later|
    ensures r < |q.later| ==> IsDue(q.contexts[q.later[r]], now)
    ensures forall j :: k <= j < r ==> !IsDue(q.contexts[q.later[j]], now)
    decreases |q.later| - k
  {
    if k == |q.later| || IsDue(q.contexts[q.later[k]], now) then k else FirstDue(q, now, k + 1)
  }

  /** enqueue_delayed_commands: the first due command moves over; those before it go to the back of the delayed queue. With
    * none due only the first goes to the back. */
  function DueMoved(q: Queues, now: nat): (r: Queues)
    requires InRange(q)
    ensures InRange(r)
  {
    var k := FirstDue(q, now, 0);
    if q.later == [] then q
    else if k == |q.later| then q.(later := q.later[1..] + q.later[..1])
    else if |q.commands| < |q.contexts| then
      q.(later := q.later[k + 1..] + q.later[..k], commands := q.commands + [q.later[k]])
    else q.(later := q.later[k + 1..] + q.later[..k], contexts := Released(q.contexts, q.later[k]))
  }

  /** process from its pop to the call of the function: a cancelled command is dropped instead. */
  function Popped(q: Queues): Queues
    requires InRange(q)
  {
    if q.commands == [] then q
    else if q.contexts[q.commands[0]].cancelled then
      q.(commands := q.commands[1..], contexts := Released(q.contexts, q.commands[0]))
    else q.(commands := q.commands[1..], running := Some(q.commands[0]))
  }

  /** process after the call: an interval command is armed again, any other is done. */
  function Finished(q: Queues, now: nat): Queues
    requires InRange(q) && q.running.Some?
  {
    var i := q.running.value;
    var c := q.contexts[i];
    if c.intervalMs > 0 then
      var armed := q.contexts[i := c.(scheduledMs := (now + c.intervalMs) % MS)];
      if |q.later| < |q.contexts| then q.(contexts := armed, later := q.later + [i], running := None)
      else q.(contexts := Released(armed, i), running := None)
    else q.(contexts := Released(q.contexts[i := c.(status := true)], i), running := None)
  }

  /** In how many places the context with index i is. */
  ghost function Places(q: Queues, i: nat): nat {
    multiset(q.later)[i] + multiset(q.commands)[i] + if q.running == Some(i) then 1 else 0
  }

  /** Every context in use is in exactly one place, and every other one in none. */
  ghost predicate Inv(q: Queues) {
    && InRange(q)
    && forall i :: 0 <= i < |q.contexts| ==> 0 <= q.contexts[i].refCount <= 1 && Places(q, i) == q.contexts[i].refCount
  }

  /** Numbers below n, none of them twice: at most n of them, and fewer when one is missing. */
  lemma {:induction false} Pigeonhole(m: multiset<nat>, n: nat, missing: set<nat>)
    requires forall i <- m :: i < n && m[i] <= 1 && i !in missing
    requires forall i <- missing :: i < n
    ensures |m| + |missing| <= n
  {
    if n > 0 {
      var last := n - 1;
      var rest, others := m[last := 0], missing - {last};
      assert forall i <- rest :: i in m && i != last && rest[i] == m[i];
      Pigeonhole(rest, n - 1, others);
      if last in m {
        assert m == rest + multiset{last} && missing == others;
      } else {
        assert m == rest;
        if last in missing { assert missing == others + {last}; } else { assert missing == others; }
      }
    } else {
      assert m == multiset{};
      assert missing == {};
    }
  }

  /** While a context is free, or one is out of both queues, neither queue is full: a put cannot fail. */
  lemma RoomToPut(q: Queues, i: nat)
    requires Inv(q) && i < |q.contexts| && (q.contexts[i].refCount == 0 || q.running == Some(i))
    ensures |q.later| + |q.commands| < |q.contexts|
  {
    var m := multiset(q.later) + multiset(q.commands);
    assert m[i] + (if q.running == Some(i) then 1 else 0) == Places(q, i);
    forall j | j in m ensures j < |q.contexts| && m[j] <= 1 && j !in {i} {
      assert j in q.later || j in q.commands;
      assert m[j] <= Places(q, j);
    }
    Pigeonhole(m, |q.contexts|, {i});
  }

  /** Not in use, and in no place. */
  ghost predicate IsFree(q: Queues, i: nat) { i < |q.contexts| && q.contexts[i].refCount == 0 && Places(q, i) == 0 }

  /** What a queue gains or loses at its ends. */
  lemma CountAppend(s: seq<nat>, x: nat, i: nat)
    ensures multiset(s + [x])[i] == multiset(s)[i] + if i == x then 1 else 0
  {}

  lemma CountTail(s: seq<nat>, i: nat)
    requires s != []
    ensures multiset(s)[i] == multiset(s[1..])[i] + if i == s[0] then 1 else 0
  {
    assert s == [s[0]] + s[1..];
  }

  /** Taking one element out of a rotation. */
  lemma CountTaken(s: seq<nat>, k: nat, i: nat)
    requires k < |s|
    ensures multiset(s)[i] == multiset(s[k + 1..] + s[..k])[i] + if i == s[k] then 1 else 0
  {
    assert s == s[..k] + [s[k]] + s[k + 1..];
  }

  /** A context not in use is in neither queue and not running. */
  lemma FreeIsNowhere(q: Queues, i: nat)
    requires Inv(q) && i < |q.contexts| && q.contexts[i].refCount == 0
    ensures i !in q.later && i !in q.commands && q.running != Some(i)
  {
    assert Places(q, i) == 0;
  }

  /** A context that was free serves the function now, last in its queue; no other context has changed. */
  ghost predicate Queued(q: Queues, r: Queues, queue: seq<nat>, func: int) {
    && queue != []
    && var i := queue[|queue| - 1];
       && i < |q.contexts| == |r.contexts| && IsFree(q, i) && r.contexts == q.contexts[i := r.contexts[i]]
       && r.contexts[i].refCount == 1 && r.contexts[i].func == func && !r.contexts[i].cancelled && r.running == q.running
  }

  lemma AsyncKeepsInv(q: Queues, func: int)
    requires Inv(q)
    ensures var (r, rc) := Async(q, func);
            Inv(r) && (rc == 0 <==> exists i :: 0 <= i < |q.contexts| && q.contexts[i].refCount == 0) && (rc != 0 ==> r == q)
    ensures var (r, rc) := Async(q, func);
            rc == 0 ==> Queued(q, r, r.commands, func) && r.later == q.later && q.commands < r.commands
                        && r.contexts[r.commands[|r.commands| - 1]] == Context(func, 1, false, false, 0, -1, -1)
  {
    var (r, rc) := Async(q, func);
    var i := FirstFree(q.contexts, 0);
    if i < |q.contexts| {
      RoomToPut(q, i);
      forall j | 0 <= j < |q.contexts| ensures Places(r, j) == Places(q, j) + if j == i then 1 else 0 {
        CountAppend(q.commands, i, j);
      }
    }
  }

  lemma DelayedKeepsInv(q: Queues, func: int, delayMs: nat, id: int, intervalMs: int, now: nat)
    requires Inv(q)
    ensures var (r, rc) := Delayed(q, func, delayMs, id, intervalMs, now);
            Inv(r) && (rc == 0 <==> exists i :: 0 <= i < |q.contexts| && q.contexts[i].refCount == 0) && (rc != 0 ==> r == q)
    ensures var (r, rc) := Delayed(q, func, delayMs, id, intervalMs, now);
            rc == 0 ==> Queued(q, r, r.later, func) && r.commands == q.commands && q.later < r.later
                        && r.contexts[r.later[|r.later| - 1]]
                           == Context(func, 1, false, false, (now + delayMs) % MS, id, intervalMs)
  {
    var (r, rc) := Delayed(q, func, delayMs, id, intervalMs, now);
    var i := FirstFree(q.contexts, 0);
    if i < |q.contexts| {
      RoomToPut(q, i);
      forall j | 0 <= j < |q.contexts| ensures Places(r, j) == Places(q, j) + if j == i then 1 else 0 {
        CountAppend(q.later, i, j);
      }
    }
  }

  lemma CancelledKeepsInv(q: Queues, id: int)
    requires Inv(q)
    ensures Inv(Cancelled(q, id))
  {
    forall j | 0 <= j < |q.contexts| ensures Places(Cancelled(q, id), j) == Places(q, j) {}
  }

  lemma MovedPlaces(q: Queues, r: Queues, k: nat, j: nat)
    requires k < |q.later| && r.running == q.running
    requires r.later == q.later[k + 1..] + q.later[..k] && r.commands == q.commands + [q.later[k]]
    ensures Places(r, j) == Places(q, j)
  {
    CountAppend(q.commands, q.later[k], j);
    CountTaken(q.later, k, j);
  }

  /** Moving a due command loses nothing: no context changes, and every one stays in as many places as it was. */
  lemma DueMovedKeepsInv(q: Queues, now: nat)
    requires Inv(q)
    ensures Inv(DueMoved(q, now)) && DueMoved(q, now).contexts == q.contexts
    ensures multiset(DueMoved(q, now).later) + multiset(DueMoved(q, now).commands) == multiset(q.later) + multiset(q.commands)
  {
    var r := DueMoved(q, now);
    var k := FirstDue(q, now, 0);
    hide Places, FirstDue;
    if k < |q.later| {
      MovedRoom(q, q.later[k]);
      forall j: nat ensures Places(r, j) == Places(q, j) {
        MovedPlaces(q, r, k, j);
      }
    } else if q.later != [] {
      forall j: nat ensures Places(r, j) == Places(q, j) {
        TurnedPlaces(q, r, j);
      }
    }
    SameCounts(q, r);
  }

  lemma TurnedPlaces(q: Queues, r: Queues, j: nat)
    requires q.later != [] && r.running == q.running && r.commands == q.commands && r.later == q.later[1..] + q.later[..1]
    ensures Places(r, j) == Places(q, j)
  {
    assert q.later == q.later[..1] + q.later[1..];
  }

  lemma SameCounts(q: Queues, r: Queues)
    requires r.running == q.running && forall j: nat :: Places(r, j) == Places(q, j)
    ensures multiset(r.later) + multiset(r.commands) == multiset(q.later) + multiset(q.commands)
  {
    forall j: nat
      ensures (multiset(r.later) + multiset(r.commands))[j] == (multiset(q.later) + multiset(q.commands))[j]
    {
      assert Places(r, j) == Places(q, j);
    }
  }

  /** A command in the delayed queue has a place waiting in the other. */
  lemma MovedRoom(q: Queues, i: nat)
    requires Inv(q) && i in q.later
    ensures |q.commands| < |q.contexts|
  {
    var m := multiset(q.commands);
    assert multiset(q.later)[i] > 0;
    assert Places(q, i) == q.contexts[i].refCount;
    forall j | j in m ensures j < |q.contexts| && m[j] <= 1 && j !in {i} {
      assert m[j] <= Places(q, j);
    }
    Pigeonhole(m, |q.contexts|, {i});
  }

  lemma PoppedKeepsInv(q: Queues)
    requires Inv(q) && q.running == None
    ensures Inv(Popped(q))
    ensures q.commands != [] ==>
      var i := q.commands[0];
      && i < |q.contexts| && Popped(q).commands == q.commands[1..] && Popped(q).later == q.later
      && if q.contexts[i].cancelled then IsFree(Popped(q), i) && Popped(q).running == None else Popped(q).running == Some(i)
  {
    if q.commands != [] {
      var i, r := q.commands[0], Popped(q);
      forall j: nat ensures Places(r, j) == Places(q, j) - if j == i && r.running == None then 1 else 0 {
        CountTail(q.commands, j);
      }
    }
  }

  lemma FinishedKeepsInv(q: Queues, now: nat)
    requires Inv(q) && q.running.Some?
    ensures Inv(Finished(q, now))
    ensures var i, r := q.running.value, Finished(q, now);
            && r.running == None && r.commands == q.commands
            && if q.contexts[i].intervalMs > 0 then
                 && r.later == q.later + [i] && q.contexts[i].refCount == 1
                 && r.contexts == q.contexts[i := q.contexts[i].(scheduledMs := (now + q.contexts[i].intervalMs) % MS)]
               else IsFree(r, i) && r.later == q.later && r.contexts == q.contexts[i := r.contexts[i]] && r.contexts[i].status
  {
    var i, r := q.running.value, Finished(q, now);
    RoomToPut(q, i);
    if q.contexts[i].intervalMs > 0 {
      forall j: nat ensures Places(r, j) == Places(q, j) {
        CountAppend(q.later, i, j);
      }
    } else {
      forall j: nat ensures Places(r, j) == Places(q, j) - if j == i then 1 else 0 {}
    }
  }
}
