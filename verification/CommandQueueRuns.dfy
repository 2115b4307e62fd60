/** Whole runs of the command queue: any number of threads enqueue and cancel, one thread processes, the clock goes on.
  *
  * Every enqueue, every cancel, the delayed queue's turn, the pop and the end of a call are one step each, in any order the
  * processing thread allows. A log keeps one ticket for every command that was accepted. */
module CommandQueueRuns {
  import opened Bytes
  import opened CommandQueueSpec

  datatype Fate = Pending | Ran | Dropped | Lost

  /** What was asked for, and what has come of it. `fits` says that the deadline did not wrap the 32-bit clock. */
  datatype Ticket = Ticket(func: int, holder: nat, oneShot: bool, fits: bool, armedAt: nat, dueAt: nat, starts: nat, fate: Fate)

  /** `owner` says whose ticket a context last served; the clock counts milliseconds and does not wrap here. `admitted` are the
    * tickets that came into the command queue, at once or from the delayed queue, and `taken` those that came out of it, both in
    * their order. */
  datatype State = State(q: Queues, clock: nat, log: seq<Ticket>, owner: seq<nat>, admitted: seq<nat>, taken: seq<nat>)

  datatype Action =
    | Now(func: int)
    | Later(func: int, delayMs: nat, id: int)
    | Interval(func: int, intervalMs: nat, id: int)
    | Cancel(id: int)
    | Move          // process: enqueue_delayed_commands
    | Pop           // process: from the pop to the call
    | End           // process: after the call
    | Tick(ms: nat)

  predicate Enabled(s: State, a: Action) {
    match a
    case Later(_, delayMs, _) => delayMs < MS
    case Interval(_, intervalMs, _) => intervalMs < MS
    case Move => s.q.running == None
    case Pop => s.q.running == None
    case End => s.q.running.Some?
    case _ => true
  }

  predicate Fits(clock: nat, delayMs: nat) { clock % MS + delayMs < MS }

  /** An accepted command gets the next ticket. */
  function Posted(s: State, r: (Queues, int), t: Ticket, atOnce: bool): State
    requires |s.owner| == |s.q.contexts|
  {
    var i := FirstFree(s.q.contexts, 0);
    if r.1 != 0 || i == |s.q.contexts| then s.(q := r.0)
    else s.(q := r.0, log := s.log + [t.(holder := i)], owner := s.owner[i := |s.log|],
            admitted := if atOnce then s.admitted + [|s.log|] else s.admitted)
  }

  function NewTicket(s: State, func: int, oneShot: bool, delayMs: nat): Ticket {
    Ticket(func, 0, oneShot, Fits(s.clock, delayMs), s.clock, s.clock + delayMs, 0, Pending)
  }

  /** A command whose context is given back while it runs has run; given back otherwise, it was dropped for having been
    * cancelled, or else lost. */
  function Outcome(q: Queues, i: nat): Fate
    requires i < |q.contexts|
  {
    if q.running == Some(i) then Ran else if q.contexts[i].cancelled then Dropped else Lost
  }

  function Settled(s: State, t: Ticket, q': Queues): Ticket {
    var i := t.holder;
    if t.fate.Pending? && i < |s.q.contexts| == |q'.contexts| && s.q.contexts[i].refCount == 1 && q'.contexts[i].refCount != 1
    then t.(fate := Outcome(s.q, i)) else t
  }

  function AllSettled(s: State, q': Queues): (log: seq<Ticket>)
    ensures |log| == |s.log|
  {
    seq(|s.log|, k requires 0 <= k < |s.log| => Settled(s, s.log[k], q'))
  }

  function Moved(s: State): State
    requires InRange(s.q) && |s.owner| == |s.q.contexts|
  {
    var k := FirstDue(s.q, s.clock, 0);
    s.(q := DueMoved(s.q, s.clock), log := AllSettled(s, DueMoved(s.q, s.clock)),
       admitted := if k < |s.q.later| then s.admitted + [s.owner[s.q.later[k]]] else s.admitted)
  }

  function PoppedOne(s: State): State
    requires InRange(s.q) && |s.owner| == |s.q.contexts|
  {
    var q' := Popped(s.q);
    var log := AllSettled(s, q');
    if s.q.commands == [] then s.(q := q', log := log)
    else if q'.running.None? then s.(q := q', log := log, taken := s.taken + [s.owner[s.q.commands[0]]])
    else
      var k := s.owner[q'.running.value];
      s.(q := q', log := if k < |log| then log[k := log[k].(starts := log[k].starts + 1)] else log, taken := s.taken + [k])
  }

  function Ended(s: State): State
    requires InRange(s.q) && |s.owner| == |s.q.contexts| && s.q.running.Some?
  {
    var i := s.q.running.value;
    var q' := Finished(s.q, s.clock);
    var log := AllSettled(s, q');
    var interval := s.q.contexts[i].intervalMs;
    if interval <= 0 || s.owner[i] >= |log| then s.(q := q', log := log)
    else
      var k := s.owner[i];
      s.(q := q', log := log[k := log[k].(fits := Fits(s.clock, interval), armedAt := s.clock, dueAt := s.clock + interval)])
  }

  function Step(s: State, a: Action): State
    requires InRange(s.q) && |s.owner| == |s.q.contexts| && Enabled(s, a)
  {
    match a
    case Now(func) => Posted(s, Async(s.q, func), NewTicket(s, func, true, 0), true)
    case Later(func, delayMs, id) =>
      Posted(s, Delayed(s.q, func, delayMs, id, -1, s.clock), NewTicket(s, func, true, delayMs), false)
    case Interval(func, intervalMs, id) =>
      Posted(s, Delayed(s.q, func, intervalMs, id, AsInt(intervalMs), s.clock),
             NewTicket(s, func, AsInt(intervalMs) <= 0, intervalMs), false)
    case Cancel(id) => s.(q := Cancelled(s.q, id))
    case Move => Moved(s)
    case Pop => PoppedOne(s)
    case End => Ended(s)
    case Tick(ms) => s.(clock := s.clock + ms)
  }

  /** A pending command has a context of its own, holding its function. */
  ghost predicate Held(s: State, k: nat) {
    k < |s.log| && |s.owner| == |s.q.contexts| && s.log[k].fate.Pending? ==>
      var t := s.log[k];
      && t.holder < |s.q.contexts| && s.owner[t.holder] == k
      && s.q.contexts[t.holder].refCount == 1 && s.q.contexts[t.holder].func == t.func
      && (t.oneShot <==> s.q.contexts[t.holder].intervalMs <= 0)
  }

  /** A context in use serves a pending command. */
  ghost predicate Serves(s: State, i: nat) {
    i < |s.q.contexts| == |s.owner| && s.q.contexts[i].refCount == 1 ==>
      s.owner[i] < |s.log| && s.log[s.owner[i]].holder == i && s.log[s.owner[i]].fate.Pending?
  }

  /** A command that waits has its deadline in its context; one that is past the delayed queue is past its deadline. */
  ghost predicate Timed(s: State, k: nat) {
    k < |s.log| && s.log[k].fate.Pending? && s.log[k].fits && s.log[k].holder < |s.q.contexts| ==>
      var t := s.log[k];
      && (t.holder in s.q.later ==>
            s.q.contexts[t.holder].scheduledMs == t.dueAt % MS && t.dueAt / MS == t.armedAt / MS && t.armedAt <= s.clock)
      && (t.holder in s.q.commands || s.q.running == Some(t.holder) ==> t.dueAt <= s.clock)
  }

  /** A one-shot command starts once, when it runs, and not before. */
  ghost predicate StartedOnce(s: State, k: nat) {
    k < |s.log| && s.log[k].oneShot ==>
      var t := s.log[k];
      t.starts == if t.fate.Ran? || (t.fate.Pending? && s.q.running == Some(t.holder)) then 1 else 0
  }

  ghost predicate TicketOk(s: State, k: nat) {
    Held(s, k) && Timed(s, k) && StartedOnce(s, k) && (k < |s.log| ==> !s.log[k].fate.Lost?)
  }

  ghost predicate Good(s: State) {
    && Inv(s.q) && |s.owner| == |s.q.contexts|
    && (forall k: nat :: TicketOk(s, k))
    && (forall i: nat :: Serves(s, i))
  }

  /** Due by the 32-bit clock is due by the true one, within the clock's turn in which the command was armed. */
  lemma DueIsPast(armedAt: nat, dueAt: nat, clock: nat, c: Context)
    requires dueAt / MS == armedAt / MS && armedAt <= clock && c.scheduledMs == dueAt % MS && IsDue(c, clock)
    ensures dueAt <= clock
  {}

  lemma FitsSameTurn(clock: nat, delayMs: nat)
    requires Fits(clock, delayMs)
    ensures (clock + delayMs) / MS == clock / MS
  {}

  lemma PostedKeepsGood(s: State, r: (Queues, int), t: Ticket, c: Context, atOnce: bool)
    requires Good(s) && Inv(r.0)
    requires r.1 != 0 ==> r.0 == s.q
    requires r.1 == 0 ==> FirstFree(s.q.contexts, 0) < |s.q.contexts|
                          && r.0.contexts == s.q.contexts[FirstFree(s.q.contexts, 0) := c] && c.refCount == 1
                          && r.0.running == s.q.running
                          && (forall i :: i != FirstFree(s.q.contexts, 0) ==> (i in r.0.later <==> i in s.q.later) && (i in r.0.commands <==> i in s.q.commands))
    requires c.func == t.func && (t.oneShot <==> c.intervalMs <= 0) && t.starts == 0 && t.fate.Pending?
    requires FirstFree(s.q.contexts, 0) in r.0.later && t.fits ==> c.scheduledMs == t.dueAt % MS && t.dueAt / MS == t.armedAt / MS && t.armedAt <= s.clock
    requires FirstFree(s.q.contexts, 0) in r.0.commands ==> t.dueAt <= s.clock
    ensures Good(Posted(s, r, t, atOnce))
  {
    if r.1 == 0 {
      var i, s' := FirstFree(s.q.contexts, 0), Posted(s, r, t, atOnce);
      FreeIsNowhere(s.q, i);
      forall k: nat ensures TicketOk(s', k) {
        assert TicketOk(s, k);
      }
      forall j: nat ensures Serves(s', j) {
        assert Serves(s, j);
      }
    }
  }

  lemma PostKeepsGood(s: State, a: Action)
    requires Good(s) && Enabled(s, a) && (a.Now? || a.Later? || a.Interval?)
    ensures Good(Step(s, a))
  {
    hide Good, Inv, Queued;
    GoodQueue(s);
    var i := FirstFree(s.q.contexts, 0);
    match a
    case Now(func) =>
      AsyncKeepsInv(s.q, func);
      PostedKeepsGood(s, Async(s.q, func), NewTicket(s, func, true, 0), Fresh(func, 0, -1, -1), true);
    case Later(func, delayMs, id) =>
      DelayedKeepsInv(s.q, func, delayMs, id, -1, s.clock);
      PostedKeepsGood(s, Delayed(s.q, func, delayMs, id, -1, s.clock), NewTicket(s, func, true, delayMs),
                      Fresh(func, (s.clock + delayMs) % MS, id, -1), false);
    case Interval(func, intervalMs, id) =>
      DelayedKeepsInv(s.q, func, intervalMs, id, AsInt(intervalMs), s.clock);
      PostedKeepsGood(s, Delayed(s.q, func, intervalMs, id, AsInt(intervalMs), s.clock),
                      NewTicket(s, func, AsInt(intervalMs) <= 0, intervalMs),
                      Fresh(func, (s.clock + intervalMs) % MS, id, AsInt(intervalMs)), false);
  }

  lemma GoodQueue(s: State)
    requires Good(s)
    ensures Inv(s.q) && InRange(s.q) && |s.owner| == |s.q.contexts|
    ensures var i := FirstFree(s.q.contexts, 0);
            i < |s.q.contexts| ==> i !in s.q.later && i !in s.q.commands
  {
    var i := FirstFree(s.q.contexts, 0);
    if i < |s.q.contexts| { FreeIsNowhere(s.q, i); }
  }

  lemma CancelKeepsGood(s: State, id: int)
    requires Good(s)
    ensures Good(Step(s, Cancel(id)))
  {
    var s' := Step(s, Cancel(id));
    CancelledKeepsInv(s.q, id);
    forall k: nat ensures TicketOk(s', k) { assert TicketOk(s, k); }
    forall i: nat ensures Serves(s', i) { assert Serves(s, i); }
  }

  lemma TickKeepsGood(s: State, ms: nat)
    requires Good(s)
    ensures Good(Step(s, Tick(ms)))
  {
    var s' := Step(s, Tick(ms));
    forall k: nat ensures TicketOk(s', k) { assert TicketOk(s, k); }
    forall i: nat ensures Serves(s', i) { assert Serves(s, i); }
  }

  /** The turn of the delayed queue only moves a due command over. */
  lemma DueMovedMembers(q: Queues, now: nat)
    requires Inv(q)
    ensures var r := DueMoved(q, now);
            && r.running == q.running
            && (forall i <- r.later :: i in q.later)
            && (forall i <- r.commands :: i in q.commands || (i in q.later && IsDue(q.contexts[i], now)))
  {
    var k := FirstDue(q, now, 0);
    if k < |q.later| { MovedRoom(q, q.later[k]); }
  }

  lemma MoveTicket(s: State, k: nat)
    requires Good(s) && Enabled(s, Move)
    ensures TicketOk(Moved(s), k)
  {
    DueMovedKeepsInv(s.q, s.clock);
    DueMovedMembers(s.q, s.clock);
    assert TicketOk(s, k);
    hide DueMoved, Inv, Good;
    if k < |s.log| && s.log[k].fits && s.log[k].fate.Pending? && s.log[k].holder in s.q.later
       && IsDue(s.q.contexts[s.log[k].holder], s.clock)
    {
      DueIsPast(s.log[k].armedAt, s.log[k].dueAt, s.clock, s.q.contexts[s.log[k].holder]);
    }
  }

  lemma MoveKeepsGood(s: State)
    requires Good(s) && Enabled(s, Move)
    ensures Good(Step(s, Move))
  {
    DueMovedKeepsInv(s.q, s.clock);
    assert InRange(s.q);
    hide TicketOk, Inv, DueMoved;
    forall k: nat ensures TicketOk(Moved(s), k) { MoveTicket(s, k); }
    forall i: nat ensures Serves(Moved(s), i) { assert Serves(s, i); assert AllSettled(s, Moved(s).q) == s.log; }
  }

  lemma PopTicket(s: State, k: nat)
    requires Good(s) && Enabled(s, Pop)
    ensures TicketOk(PoppedOne(s), k)
  {
    assert TicketOk(s, k);
    if s.q.commands != [] {
      hide TicketOk, Inv, Serves, PoppedOne;
      if s.q.contexts[s.q.commands[0]].cancelled { DropTicket(s, k); } else { StartTicket(s, k); }
    }
    hide Good, Inv;
  }

  lemma DropTicket(s: State, k: nat)
    requires Good(s) && Enabled(s, Pop) && s.q.commands != [] && s.q.contexts[s.q.commands[0]].cancelled
    ensures TicketOk(PoppedOne(s), k)
  {
    var i := s.q.commands[0];
    InUse(s.q, i);
    assert Serves(s, i);
    assert TicketOk(s, k);
    hide Good, Inv;
    assert k < |s.log| && s.log[k].holder == i && s.log[k].fate.Pending? ==> PoppedOne(s).log[k].fate.Dropped?;
  }

  lemma StartTicket(s: State, k: nat)
    requires Good(s) && Enabled(s, Pop) && s.q.commands != [] && !s.q.contexts[s.q.commands[0]].cancelled
    ensures TicketOk(PoppedOne(s), k)
  {
    InUse(s.q, s.q.commands[0]);
    assert Serves(s, s.q.commands[0]);
    assert TicketOk(s, k);
    hide Good, Inv;
  }

  lemma PopServes(s: State, j: nat)
    requires Good(s) && Enabled(s, Pop)
    ensures Serves(PoppedOne(s), j)
  {
    if s.q.commands != [] {
      InUse(s.q, s.q.commands[0]);
      assert Serves(s, s.q.commands[0]);
    }
    assert Serves(s, j);
    hide Good, Inv;
  }

  lemma PopKeepsGood(s: State)
    requires Good(s) && Enabled(s, Pop)
    ensures Good(Step(s, Pop))
  {
    PoppedKeepsInv(s.q);
    assert InRange(s.q);
    hide TicketOk, Serves, Inv;
    forall k: nat ensures TicketOk(PoppedOne(s), k) { PopTicket(s, k); }
    forall j: nat ensures Serves(PoppedOne(s), j) { PopServes(s, j); }
  }

  /** A context that is somewhere is in use, and nowhere else. */
  lemma InUse(q: Queues, i: nat)
    requires Inv(q) && (i in q.later || i in q.commands || q.running == Some(i))
    ensures i < |q.contexts| && q.contexts[i].refCount == 1
    ensures q.running == Some(i) ==> i !in q.later && i !in q.commands
  {
    assert Places(q, i) > 0;
    assert i < |q.contexts|;
    assert Places(q, i) == q.contexts[i].refCount;
  }

  /** What the end of a call does to the ticket of the command that ran: it has run, or it is armed again. */
  lemma EndOfOwn(s: State)
    requires Good(s) && Enabled(s, End)
    ensures var k := s.owner[s.q.running.value]; k < |s.log| && TicketOk(Ended(s), k)
  {
    var i := s.q.running.value;
    FinishedKeepsInv(s.q, s.clock);
    InUse(s.q, i);
    assert Serves(s, i);
    assert TicketOk(s, s.owner[i]);
    hide Inv, Good;
    if s.q.contexts[i].intervalMs > 0 && Fits(s.clock, s.q.contexts[i].intervalMs) {
      FitsSameTurn(s.clock, s.q.contexts[i].intervalMs);
    }
  }

  /** No other ticket notices the end of a call. */
  lemma EndOfOther(s: State, k: nat)
    requires Good(s) && Enabled(s, End) && k != s.owner[s.q.running.value]
    ensures TicketOk(Ended(s), k)
  {
    var i := s.q.running.value;
    FinishedKeepsInv(s.q, s.clock);
    InUse(s.q, i);
    assert Serves(s, i) && TicketOk(s, k);
    hide Inv, Good;
  }

  lemma EndServes(s: State, j: nat)
    requires Good(s) && Enabled(s, End)
    ensures Serves(Ended(s), j)
  {
    var i := s.q.running.value;
    FinishedKeepsInv(s.q, s.clock);
    InUse(s.q, i);
    assert Serves(s, i) && Serves(s, j);
    hide Inv, Good;
  }

  lemma EndKeepsGood(s: State)
    requires Good(s) && Enabled(s, End)
    ensures Good(Step(s, End))
  {
    FinishedKeepsInv(s.q, s.clock);
    assert InRange(s.q);
    hide TicketOk, Serves, Inv;
    forall k: nat ensures TicketOk(Ended(s), k) {
      if k == s.owner[s.q.running.value] { EndOfOwn(s); } else { EndOfOther(s, k); }
    }
    forall j: nat ensures Serves(Ended(s), j) { EndServes(s, j); }
  }

  lemma StepKeepsGood(s: State, a: Action)
    requires Good(s) && Enabled(s, a)
    ensures Good(Step(s, a))
  {
    hide Step, Inv, TicketOk, Serves;
    match a
    case Cancel(id) => CancelKeepsGood(s, id);
    case Move => MoveKeepsGood(s);
    case Pop => PopKeepsGood(s);
    case End => EndKeepsGood(s);
    case Tick(ms) => TickKeepsGood(s, ms);
    case _ => PostKeepsGood(s, a);
  }

  /** Whether every action of a run can be taken when its turn comes. */
  ghost predicate Allowed(s: State, actions: seq<Action>)
    requires Good(s)
    decreases |actions|
  {
    actions != [] ==>
      Enabled(s, actions[0]) && (StepKeepsGood(s, actions[0]); Allowed(Step(s, actions[0]), actions[1..]))
  }

  ghost function Run(s: State, actions: seq<Action>): State
    requires Good(s) && Allowed(s, actions)
    decreases |actions|
  {
    if actions == [] then s else (StepKeepsGood(s, actions[0]); Run(Step(s, actions[0]), actions[1..]))
  }

  lemma {:induction false} RunKeepsGood(s: State, actions: seq<Action>)
    requires Good(s) && Allowed(s, actions)
    ensures Good(Run(s, actions))
    decreases |actions|
  {
    hide Inv, TicketOk, Serves, Step;
    GoodQueue(s);
    if actions != [] {
      StepKeepsGood(s, actions[0]);
      RunKeepsGood(Step(s, actions[0]), actions[1..]);
    }
  }

  /** A queue of this many contexts, before any action. */
  ghost function Start(size: nat): (s: State)
    ensures Good(s)
  {
    StartIsGood(size);
    State(Idle(size), 0, [], seq(size, _ => 0), [], [])
  }

  lemma StartIsGood(size: nat)
    ensures Good(State(Idle(size), 0, [], seq(size, _ => 0), [], []))
  {
    var s := State(Idle(size), 0, [], seq(size, _ => 0), [], []);
    forall i | 0 <= i < size ensures Places(s.q, i) == 0 {}
    forall k: nat ensures TicketOk(s, k) {}
    forall i: nat ensures Serves(s, i) {}
  }

  /** What a run of a queue of this many contexts leaves. */
  ghost function After(size: nat, actions: seq<Action>): (s: State)
    requires Allowed(Start(size), actions)
    ensures Good(s)
  {
    RunKeepsGood(Start(size), actions);
    Run(Start(size), actions)
  }

  /** No accepted command is lost in any run: it waits or runs, in exactly one place and with the function it came with, or it
    * has run, or it was dropped because it had been cancelled. A one-shot command that has run has started exactly once. */
  lemma NothingLost(size: nat, actions: seq<Action>, k: nat)
    requires Allowed(Start(size), actions) && k < |After(size, actions).log|
    ensures var s := After(size, actions);
            var t := s.log[k];
            && (t.fate.Ran? || t.fate.Dropped? || t.fate.Pending?)
            && (t.fate.Pending? ==>
                  t.holder < |s.q.contexts| && Places(s.q, t.holder) == 1 && s.q.contexts[t.holder].func == t.func)
            && (t.oneShot && t.fate.Ran? ==> t.starts == 1) && (t.oneShot && t.fate.Dropped? ==> t.starts == 0)
  {
    assert TicketOk(After(size, actions), k);
  }

  /** Two pending commands never share a context: the function of one is not overwritten by the other. */
  lemma ContextsAreDistinct(size: nat, actions: seq<Action>, k: nat, m: nat)
    requires Allowed(Start(size), actions) && k < |After(size, actions).log| && m < |After(size, actions).log| && k != m
    requires After(size, actions).log[k].fate.Pending? && After(size, actions).log[m].fate.Pending?
    ensures After(size, actions).log[k].holder != After(size, actions).log[m].holder
  {
    assert TicketOk(After(size, actions), k) && TicketOk(After(size, actions), m);
  }

  /** What process calls, in any run, is an accepted command's own function, and never before its deadline, if the deadline
    * fits. */
  lemma NeverEarly(size: nat, actions: seq<Action>)
    requires Allowed(Start(size), actions) && After(size, actions).q.running.Some?
    ensures var s := After(size, actions);
            var i := s.q.running.value;
            && i < |s.q.contexts| == |s.owner| && s.owner[i] < |s.log|
            && s.q.contexts[i].func == s.log[s.owner[i]].func
            && (s.log[s.owner[i]].fits ==> s.log[s.owner[i]].dueAt <= s.clock)
  {
    var s := After(size, actions);
    hide After;
    var i := s.q.running.value;
    InUse(s.q, i);
    assert Serves(s, i);
    assert TicketOk(s, s.owner[i]);
  }

  /** Armed at a clock reading, a delay keeps its command back for all of its length exactly when the sum fits in 32 bits. */
  lemma EarlyIff(armedAt: nat, delayMs: nat, c: Context)
    requires 0 < delayMs < MS && c.scheduledMs == (armedAt + delayMs) % MS
    ensures (forall t :: armedAt <= t < armedAt + delayMs ==> !IsDue(c, t)) <==> Fits(armedAt, delayMs)
  {
    if Fits(armedAt, delayMs) {
      forall t | armedAt <= t < armedAt + delayMs ensures !IsDue(c, t) {
        if IsDue(c, t) {
          FitsSameTurn(armedAt, delayMs);
          DueIsPast(armedAt, armedAt + delayMs, t, c);
        }
      }
    } else {
      assert IsDue(c, armedAt);
    }
  }

  /** A command that was cancelled and is not being run: it stays so until it is dropped. */
  ghost predicate Doomed(s: State, k: nat) {
    && k < |s.log| && (s.log[k].fate.Pending? || s.log[k].fate.Dropped?)
    && (s.log[k].fate.Pending? && s.log[k].holder < |s.q.contexts| ==>
          s.q.contexts[s.log[k].holder].cancelled && s.q.running != Some(s.log[k].holder))
  }

  /** What the ticket k has come to is still what it was, or it was dropped. */
  ghost predicate StaysDoomed(s: State, s': State, k: nat) {
    Doomed(s, k) ==> Doomed(s', k) && s'.log[k].starts == s.log[k].starts
  }

  lemma PostStaysDoomed(s: State, a: Action, k: nat)
    requires Good(s) && Enabled(s, a) && (a.Now? || a.Later? || a.Interval? || a.Cancel? || a.Tick?)
    ensures StaysDoomed(s, Step(s, a), k)
  {
    assert TicketOk(s, k);
    hide Good, Inv, Serves;
  }

  lemma MoveStaysDoomed(s: State, k: nat)
    requires Good(s) && Enabled(s, Move)
    ensures StaysDoomed(s, Step(s, Move), k)
  {
    DueMovedKeepsInv(s.q, s.clock);
    hide Good, Inv, TicketOk, Serves, DueMoved;
  }

  lemma PopStaysDoomed(s: State, k: nat)
    requires Good(s) && Enabled(s, Pop)
    ensures StaysDoomed(s, Step(s, Pop), k)
  {
    assert TicketOk(s, k);
    if s.q.commands != [] {
      InUse(s.q, s.q.commands[0]);
      assert Serves(s, s.q.commands[0]);
    }
    hide Good, Inv;
  }

  lemma EndStaysDoomed(s: State, k: nat)
    requires Good(s) && Enabled(s, End)
    ensures StaysDoomed(s, Step(s, End), k)
  {
    assert TicketOk(s, k);
    InUse(s.q, s.q.running.value);
    assert Serves(s, s.q.running.value);
    hide Good, Inv;
  }

  lemma StepStaysDoomed(s: State, a: Action, k: nat)
    requires Good(s) && Enabled(s, a)
    ensures StaysDoomed(s, Step(s, a), k)
  {
    hide Inv, TicketOk, Serves, Step, StaysDoomed;
    match a
    case Move => MoveStaysDoomed(s, k);
    case Pop => PopStaysDoomed(s, k);
    case End => EndStaysDoomed(s, k);
    case _ => PostStaysDoomed(s, a, k);
  }

  /** A command that is doomed never starts again, in any run. */
  lemma {:induction false} DoomedNeverRuns(s: State, actions: seq<Action>, k: nat)
    requires Good(s) && Allowed(s, actions) && Doomed(s, k)
    ensures Doomed(Run(s, actions), k)
    ensures Run(s, actions).log[k].starts == s.log[k].starts && !Run(s, actions).log[k].fate.Ran?
    decreases |actions|
  {
    hide Inv, TicketOk, Serves, Step;
    GoodQueue(s);
    if actions != [] {
      StepKeepsGood(s, actions[0]);
      StepStaysDoomed(s, actions[0], k);
      DoomedNeverRuns(Step(s, actions[0]), actions[1..], k);
    }
  }

  /** cancel(id) finds the first context in use under the id, and unless its function is just being called, it dooms the command
    * that the context serves. */
  lemma CancelDooms(s: State, id: int)
    requires Good(s) && FirstNamed(s.q.contexts, id, 0) < |s.q.contexts| && s.q.running != Some(FirstNamed(s.q.contexts, id, 0))
    ensures var i := FirstNamed(s.q.contexts, id, 0);
            && i < |s.owner| && s.owner[i] < |s.log| && s.log[s.owner[i]].fate.Pending?
            && Doomed(Step(s, Cancel(id)), s.owner[i])
  {
    var i := FirstNamed(s.q.contexts, id, 0);
    assert Serves(s, i);
    assert TicketOk(s, s.owner[i]);
  }

  /** After any run, cancel a command that is queued, and let any run follow: the command never starts. */
  lemma CancelledNeverRuns(size: nat, before: seq<Action>, id: int, after: seq<Action>)
    requires Allowed(Start(size), before)
    requires var q := After(size, before).q;
             FirstNamed(q.contexts, id, 0) < |q.contexts| && q.running != Some(FirstNamed(q.contexts, id, 0))
    ensures var s := After(size, before);
            var i, t := FirstNamed(s.q.contexts, id, 0), Step(s, Cancel(id));
            && i < |s.owner| && s.owner[i] < |s.log| && s.log[s.owner[i]].fate.Pending? && Good(t)
            && (Allowed(t, after) ==>
                  Doomed(Run(t, after), s.owner[i]) && Run(t, after).log[s.owner[i]].starts == s.log[s.owner[i]].starts
                  && !Run(t, after).log[s.owner[i]].fate.Ran?)
  {
    var s := After(size, before);
    CancelDooms(s, id);
    CancelKeepsGood(s, id);
    var t, k := Step(s, Cancel(id)), s.owner[FirstNamed(s.q.contexts, id, 0)];
    if Allowed(t, after) { DoomedNeverRuns(t, after, k); }
  }

  // ---- what was not cancelled is not dropped ----

  /** A command that was not dropped and, while it is pending, is not cancelled. */
  ghost predicate Live(s: State, k: nat) {
    && k < |s.log| && !s.log[k].fate.Dropped?
    && (s.log[k].fate.Pending? && s.log[k].holder < |s.q.contexts| ==> !s.q.contexts[s.log[k].holder].cancelled)
  }

  /** The action is no cancel that finds the command. */
  ghost predicate Spares(s: State, a: Action, k: nat) {
    a.Cancel? && k < |s.log| && s.log[k].fate.Pending? ==> FirstNamed(s.q.contexts, a.id, 0) != s.log[k].holder
  }

  ghost predicate StaysLive(s: State, s': State, k: nat) { Live(s, k) ==> Live(s', k) }

  lemma PostStaysLive(s: State, a: Action, k: nat)
    requires Good(s) && Enabled(s, a) && (a.Now? || a.Later? || a.Interval? || a.Cancel? || a.Tick?) && Spares(s, a, k)
    ensures StaysLive(s, Step(s, a), k)
  {
    assert TicketOk(s, k);
    hide Good, Inv, Serves;
  }

  lemma MoveStaysLive(s: State, k: nat)
    requires Good(s) && Enabled(s, Move)
    ensures StaysLive(s, Step(s, Move), k)
  {
    DueMovedKeepsInv(s.q, s.clock);
    hide Good, Inv, TicketOk, Serves, DueMoved;
  }

  lemma PopStaysLive(s: State, k: nat)
    requires Good(s) && Enabled(s, Pop)
    ensures StaysLive(s, Step(s, Pop), k)
  {
    assert TicketOk(s, k);
    if s.q.commands != [] {
      InUse(s.q, s.q.commands[0]);
      assert Serves(s, s.q.commands[0]);
    }
    hide Good, Inv;
  }

  lemma EndStaysLive(s: State, k: nat)
    requires Good(s) && Enabled(s, End)
    ensures StaysLive(s, Step(s, End), k)
  {
    assert TicketOk(s, k);
    InUse(s.q, s.q.running.value);
    assert Serves(s, s.q.running.value);
    hide Good, Inv;
  }

  lemma StepStaysLive(s: State, a: Action, k: nat)
    requires Good(s) && Enabled(s, a) && Spares(s, a, k)
    ensures StaysLive(s, Step(s, a), k)
  {
    hide Inv, TicketOk, Serves, Step, StaysLive;
    match a
    case Move => MoveStaysLive(s, k);
    case Pop => PopStaysLive(s, k);
    case End => EndStaysLive(s, k);
    case _ => PostStaysLive(s, a, k);
  }

  /** No cancel of a run finds the command. */
  ghost predicate Spared(s: State, actions: seq<Action>, k: nat)
    requires Good(s) && Allowed(s, actions)
    decreases |actions|
  {
    actions != [] ==>
      && Spares(s, actions[0], k)
      && (StepKeepsGood(s, actions[0]); Spared(Step(s, actions[0]), actions[1..], k))
  }

  /** A command that no cancel finds is never dropped, in any run: it waits, runs, or has run. */
  lemma {:induction false} SparedIsNeverDropped(s: State, actions: seq<Action>, k: nat)
    requires Good(s) && Allowed(s, actions) && Live(s, k) && Spared(s, actions, k)
    ensures Live(Run(s, actions), k)
    decreases |actions|
  {
    hide Inv, TicketOk, Serves, Step;
    GoodQueue(s);
    if actions != [] {
      StepKeepsGood(s, actions[0]);
      StepStaysLive(s, actions[0], k);
      SparedIsNeverDropped(Step(s, actions[0]), actions[1..], k);
    }
  }

  /** When it is accepted, a command is pending and not cancelled. */
  lemma AcceptedIsLive(s: State, post: Action)
    requires Good(s) && Enabled(s, post) && |Step(s, post).log| == |s.log| + 1
    ensures Live(Step(s, post), |s.log|) && Step(s, post).log[|s.log|].fate.Pending?
  {
    GoodQueue(s);
    hide Good, Inv;
  }

  /** After any run, post a command; unless a cancel finds it, it is never dropped, whatever follows: it waits, runs, or has run. */
  lemma PostedThenSpared(size: nat, before: seq<Action>, post: Action, after: seq<Action>)
    requires Allowed(Start(size), before) && Enabled(After(size, before), post)
    requires |Step(After(size, before), post).log| == |After(size, before).log| + 1
    ensures var k, t := |After(size, before).log|, Step(After(size, before), post);
            Good(t) && (Allowed(t, after) && Spared(t, after, k) ==>
                          k < |Run(t, after).log| && (Run(t, after).log[k].fate.Pending? || Run(t, after).log[k].fate.Ran?))
  {
    var s, k := After(size, before), |After(size, before).log|;
    var t := Step(s, post);
    StepKeepsGood(s, post);
    AcceptedIsLive(s, post);
    if Allowed(t, after) && Spared(t, after, k) {
      SparedIsNeverDropped(t, after, k);
      RunKeepsGood(t, after);
      assert TicketOk(Run(t, after), k);
    }
    hide Step, After, Spared;
  }

  // ---- order ----

  /** The tickets that wait in the command queue, first to last. */
  function Waiting(s: State): seq<nat>
    requires InRange(s.q) && |s.owner| == |s.q.contexts|
  {
    seq(|s.q.commands|, i requires 0 <= i < |s.q.commands| => s.owner[s.q.commands[i]])
  }

  /** What came into the command queue is what came out, and then what waits: first in, first out. */
  ghost predicate InOrder(s: State) {
    InRange(s.q) && |s.owner| == |s.q.contexts| && s.admitted == s.taken + Waiting(s)
  }

  lemma PostInOrder(s: State, a: Action)
    requires Good(s) && InOrder(s) && Enabled(s, a) && (a.Now? || a.Later? || a.Interval?)
    ensures InOrder(Step(s, a))
  {
    GoodQueue(s);
    PostKeepsGood(s, a);
    var i, s' := FirstFree(s.q.contexts, 0), Step(s, a);
    hide Good, Inv;
    if i < |s.q.contexts| && a.Now? && s'.q.commands == s.q.commands + [i] {
      assert Waiting(s') == Waiting(s) + [|s.log|];
    } else {
      assert s'.q.commands == s.q.commands;
      assert Waiting(s') == Waiting(s);
    }
  }

  lemma MoveInOrder(s: State)
    requires Good(s) && InOrder(s) && Enabled(s, Move)
    ensures InOrder(Step(s, Move))
  {
    var k, s' := FirstDue(s.q, s.clock, 0), Step(s, Move);
    if k < |s.q.later| {
      MovedRoom(s.q, s.q.later[k]);
      assert Waiting(s') == Waiting(s) + [s.owner[s.q.later[k]]];
    } else {
      assert Waiting(s') == Waiting(s);
    }
  }

  lemma PopInOrder(s: State)
    requires Good(s) && InOrder(s) && Enabled(s, Pop)
    ensures InOrder(Step(s, Pop))
  {
    var s' := Step(s, Pop);
    if s.q.commands != [] {
      assert Waiting(s) == [s.owner[s.q.commands[0]]] + Waiting(s');
    } else {
      assert Waiting(s') == Waiting(s);
    }
  }

  lemma StepInOrder(s: State, a: Action)
    requires Good(s) && InOrder(s) && Enabled(s, a)
    ensures InOrder(Step(s, a))
  {
    match a
    case Move => MoveInOrder(s);
    case Pop => PopInOrder(s);
    case Cancel(_) => SameWaiting(s, Step(s, a));
    case End => SameWaiting(s, Step(s, a));
    case Tick(_) => SameWaiting(s, Step(s, a));
    case _ => PostInOrder(s, a);
  }

  lemma SameWaiting(s: State, s': State)
    requires InOrder(s) && s'.q.commands == s.q.commands && s'.owner == s.owner && |s'.q.contexts| == |s.q.contexts|
    requires s'.admitted == s.admitted && s'.taken == s.taken
    requires InRange(s'.q)
    ensures InOrder(s')
  {
    assert Waiting(s') == Waiting(s);
  }

  lemma {:induction false} RunInOrder(s: State, actions: seq<Action>)
    requires Good(s) && Allowed(s, actions) && InOrder(s)
    ensures InOrder(Run(s, actions))
    decreases |actions|
  {
    hide Inv, TicketOk, Serves, Step, InOrder;
    GoodQueue(s);
    if actions != [] {
      StepKeepsGood(s, actions[0]);
      StepInOrder(s, actions[0]);
      RunInOrder(Step(s, actions[0]), actions[1..]);
    }
  }

  /** In every run commands come out of the command queue in the order in which they came in, at once by execute_async or with a
    * move from the delayed queue; those that are still in it wait in that order. */
  lemma FirstInFirstOut(size: nat, actions: seq<Action>)
    requires Allowed(Start(size), actions)
    ensures var s := After(size, actions);
            InRange(s.q) && |s.owner| == |s.q.contexts| && s.admitted == s.taken + Waiting(s)
  {
    assert Waiting(Start(size)) == [];
    RunInOrder(Start(size), actions);
  }

  /** A pop takes the command that came in first of all that wait. It starts that one and no other, or drops it if it was
    * cancelled; so none starts while one that came in earlier waits. */
  lemma NoOvertaking(size: nat, actions: seq<Action>)
    requires Allowed(Start(size), actions) && Enabled(After(size, actions), Pop) && After(size, actions).q.commands != []
    ensures var s := After(size, actions);
            var t, n := Step(s, Pop), |s.taken|;
            && n < |s.admitted| && t.taken == s.taken + [s.admitted[n]] && t.admitted == s.admitted
            && var k, c := s.admitted[n], s.q.contexts[s.q.commands[0]];
               && k < |s.log| == |t.log|
               && (forall j :: 0 <= j < |s.log| && j != k ==> t.log[j].starts == s.log[j].starts)
               && t.log[k].starts == s.log[k].starts + (if c.cancelled then 0 else 1)
               && (if c.cancelled then t.log[k].fate.Dropped? && t.q.running == None else t.q.running == Some(s.q.commands[0]))
  {
    FirstInFirstOut(size, actions);
    var s := After(size, actions);
    hide After;
    PopTakesFirst(s);
  }

  lemma PopTakesFirst(s: State)
    requires Good(s) && InOrder(s) && Enabled(s, Pop) && s.q.commands != []
    ensures var t, n := Step(s, Pop), |s.taken|;
            && n < |s.admitted| && t.taken == s.taken + [s.admitted[n]] && t.admitted == s.admitted
            && var k, c := s.admitted[n], s.q.contexts[s.q.commands[0]];
               && k < |s.log| == |t.log|
               && (forall j :: 0 <= j < |s.log| && j != k ==> t.log[j].starts == s.log[j].starts)
               && t.log[k].starts == s.log[k].starts + (if c.cancelled then 0 else 1)
               && (if c.cancelled then t.log[k].fate.Dropped? && t.q.running == None else t.q.running == Some(s.q.commands[0]))
  {
    var i := s.q.commands[0];
    InUse(s.q, i);
    assert Serves(s, i);
    assert TicketOk(s, s.owner[i]);
    assert s.admitted[|s.taken|] == Waiting(s)[0];
    hide Good, Inv;
  }

  /** A delayed or interval command is found under its id: post it when no other command in use has the id, cancel the id, and it
    * never starts, whatever follows. */
  lemma PostedThenCancelled(size: nat, before: seq<Action>, post: Action, after: seq<Action>)
    requires Allowed(Start(size), before) && (post.Later? || post.Interval?) && Enabled(After(size, before), post)
    requires var q := After(size, before).q;
             && FirstNamed(q.contexts, post.id, 0) == |q.contexts|
             && exists i :: 0 <= i < |q.contexts| && q.contexts[i].refCount == 0
    ensures var s := After(size, before);
            var k, t := |s.log|, Step(s, post);
            && |t.log| == k + 1 && Good(t) && t.log[k].func == post.func && t.log[k].fate.Pending? && t.log[k].starts == 0
            && var u := Step(t, Cancel(post.id));
               && Good(u)
               && (Allowed(u, after) ==>
                     Doomed(Run(u, after), k) && Run(u, after).log[k].starts == 0 && !Run(u, after).log[k].fate.Ran?)
  {
    var s := After(size, before);
    hide After;
    var k, t := |s.log|, Step(s, post);
    StepKeepsGood(s, post);
    PostedIsNamed(s, post);
    GoodQueue(t);
    CancelDooms(t, post.id);
    CancelKeepsGood(t, post.id);
    var u := Step(t, Cancel(post.id));
    assert u.log == t.log;
    hide Step, Good, Doomed;
    if Allowed(u, after) { DoomedNeverRuns(u, after, k); }
  }

  lemma PostedIsNamed(s: State, post: Action)
    requires Good(s) && (post.Later? || post.Interval?) && Enabled(s, post)
    requires FirstNamed(s.q.contexts, post.id, 0) == |s.q.contexts|
    requires exists i :: 0 <= i < |s.q.contexts| && s.q.contexts[i].refCount == 0
    ensures var t := Step(s, post);
            var i := FirstNamed(t.q.contexts, post.id, 0);
            && i < |t.q.contexts| == |t.owner| && t.owner[i] == |s.log| && |t.log| == |s.log| + 1 && t.q.running != Some(i)
            && t.log[|s.log|].func == post.func && t.log[|s.log|].fate.Pending? && t.log[|s.log|].starts == 0
  {
    GoodQueue(s);
    if post.Later? {
      NamedIn(s.q, post.func, post.delayMs, post.id, -1, s.clock);
    } else {
      NamedIn(s.q, post.func, post.intervalMs, post.id, AsInt(post.intervalMs), s.clock);
    }
    hide Good, Inv, Delayed, FirstNamed, FirstFree;
  }

  /** The context that a delayed command is given is the one found under its id. */
  lemma NamedIn(q: Queues, func: int, delayMs: nat, id: int, intervalMs: int, now: nat)
    requires Inv(q) && FirstNamed(q.contexts, id, 0) == |q.contexts| && exists i :: 0 <= i < |q.contexts| && q.contexts[i].refCount == 0
    ensures var (r, rc) := Delayed(q, func, delayMs, id, intervalMs, now);
            var i := FirstFree(q.contexts, 0);
            rc == 0 && i < |q.contexts| == |r.contexts| && FirstNamed(r.contexts, id, 0) == i && r.running == q.running != Some(i)
  {
    var i := FirstFree(q.contexts, 0);
    FreeIsNowhere(q, i);
    RoomToPut(q, i);
    hide Inv;
    var contexts := Delayed(q, func, delayMs, id, intervalMs, now).0.contexts;
    assert contexts[i].cmdId == id && contexts[i].refCount > 0;
    assert forall j :: 0 <= j < i ==> contexts[j] == q.contexts[j];
  }
}
