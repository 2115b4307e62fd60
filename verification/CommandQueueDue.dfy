/** The delayed queue is fair: a due command comes over to the command queue in so many turns as there are commands before it. */
module CommandQueueDue {
  import opened CommandQueueSpec

  function MovedTimes(q: Queues, now: nat, n: nat): (r: Queues)
    requires InRange(q)
    ensures InRange(r)
    decreases n
  {
    if n == 0 then q else MovedTimes(DueMoved(q, now), now, n - 1)
  }

  /** The first due command comes over, whichever that is; with none due nothing does. */
  lemma FirstDueMoves(q: Queues, now: nat, k: nat)
    requires Inv(q) && k <= |q.later| && forall j :: 0 <= j < k ==> !IsDue(q.contexts[q.later[j]], now)
    requires k < |q.later| ==> IsDue(q.contexts[q.later[k]], now)
    ensures DueMoved(q, now).commands == if k < |q.later| then q.commands + [q.later[k]] else q.commands
    ensures k < |q.later| ==> DueMoved(q, now).later == q.later[k + 1..] + q.later[..k]
  {
    assert FirstDue(q, now, 0) == k;
    if k < |q.later| { MovedRoom(q, q.later[k]); }
  }

  lemma MoveGrows(q: Queues, now: nat)
    requires Inv(q)
    ensures q.commands <= DueMoved(q, now).commands
  {
    FirstDueMoves(q, now, FirstDue(q, now, 0));
    hide DueMoved, Inv;
  }

  lemma {:induction false} MovesGrow(q: Queues, now: nat, n: nat)
    requires Inv(q)
    ensures q.commands <= MovedTimes(q, now, n).commands
    decreases n
  {
    if n > 0 {
      DueMovedKeepsInv(q, now);
      MoveGrows(q, now);
      hide DueMoved, Places;
      MovesGrow(DueMoved(q, now), now, n - 1);
    }
  }

  /** A due command with j others before it in the delayed queue is in the command queue after at most j + 1 turns. */
  lemma {:induction false} DueComesOver(q: Queues, now: nat, j: nat, n: nat)
    requires Inv(q) && j < |q.later| && IsDue(q.contexts[q.later[j]], now) && j < n
    ensures q.later[j] in MovedTimes(q, now, n).commands
    decreases n
  {
    hide *;
    Turn(q, now, n);
    var r := DueMoved(q, now);
    var k := FirstDueAt(q, now, j);
    if k == j {
      MovesGrow(r, now, n - 1);
      InPrefix(r.commands, MovedTimes(r, now, n - 1).commands, |q.commands|);
    } else {
      RotatedAt(q.later, k, j);
      DueComesOver(r, now, j - k - 1, n - 1);
    }
  }

  lemma Turn(q: Queues, now: nat, n: nat)
    requires Inv(q) && n > 0
    ensures InRange(q) && InRange(DueMoved(q, now)) && Inv(DueMoved(q, now)) && DueMoved(q, now).contexts == q.contexts
    ensures MovedTimes(q, now, n) == MovedTimes(DueMoved(q, now), now, n - 1)
  {
    DueMovedKeepsInv(q, now);
  }

  lemma FirstDueAt(q: Queues, now: nat, j: nat) returns (k: nat)
    requires Inv(q) && j < |q.later| && IsDue(q.contexts[q.later[j]], now)
    ensures k <= j && InRange(q)
    ensures DueMoved(q, now).commands == q.commands + [q.later[k]] && DueMoved(q, now).later == q.later[k + 1..] + q.later[..k]
  {
    k := FirstDue(q, now, 0);
    FirstDueMoves(q, now, k);
    hide DueMoved, Places;
  }

  lemma InPrefix(a: seq<nat>, b: seq<nat>, i: nat)
    requires a <= b && i < |a|
    ensures a[i] in b
  {
    assert b[i] == a[i];
  }

  lemma RotatedAt(s: seq<nat>, k: nat, j: nat)
    requires k < j < |s|
    ensures (s[k + 1..] + s[..k])[j - k - 1] == s[j]
  {}
}
