/**
 Every interleaving of the queue: producers, timers, the clock and any number of goroutines
 looping over Dequeue. One step is one critical section, one timer firing, or one move of a
 consumer between two critical sections. The consumer's program points are those of
 Reconciler.Start: it may have seen the slice empty and released the mutex, be blocked in the
 select, have received the notification without holding the mutex yet, or be reconciling.
 */
module QueueRuns {
  import opened QueueState

  type ConsumerId = nat

  datatype PC = Idle | SawEmpty | Blocked | Notified | Working(item: Item) | Panicked

  /** What the history records; none of it influences a step. */
  datatype Event =
    | Enqueued(item: Item)
    | Dequeued(item: Item)
    | Released(key: Key)
    | Emptied
    | Waits

  datatype System = System(q: State, now: int, pc: map<ConsumerId, PC>, hist: seq<Event>)

  /** `wake` is the consumer that receives on itemAdded, when one is blocked there. */
  datatype Step =
    | Enqueue(item: Item, wake: ConsumerId)
    | EnqueueAfter(item: Item, d: int)
    | TimerFires(i: nat, wake: ConsumerId)
    | ClockTicks(elapsed: nat)
    | Dequeue(c: ConsumerId)
    | EnterSelect(c: ConsumerId)
    | ContextDone(c: ConsumerId)
    | LockAfterNotify(c: ConsumerId)
    | AckDone(c: ConsumerId)
    | AckRequeue(c: ConsumerId, d: int)
    | OtherDone(item: Item)
    | OtherRequeue(item: Item, d: int)

  function Init(consumers: set<ConsumerId>): System {
    System(EMPTY, 0, map c | c in consumers :: Idle, [])
  }

  predicate At(s: System, c: ConsumerId, pc: PC) {
    c in s.pc && s.pc[c] == pc
  }

  predicate IsWorking(s: System, c: ConsumerId) {
    c in s.pc && s.pc[c].Working?
  }

  ghost predicate SomeBlocked(s: System) {
    exists c :: At(s, c, Blocked)
  }

  /** The non-blocking send reaches a blocked consumer whenever there is one. */
  ghost predicate ValidWake(s: System, wake: ConsumerId) {
    SomeBlocked(s) ==> At(s, wake, Blocked)
  }

  ghost predicate Enabled(s: System, step: Step) {
    match step
    case Enqueue(_, wake) => ValidWake(s, wake)
    case EnqueueAfter(_, _) => true
    case TimerFires(i, wake) => i < |s.q.timers| && s.q.timers[i].due <= s.now && ValidWake(s, wake)
    case ClockTicks(_) => true
    case Dequeue(c) => At(s, c, Idle)
    case EnterSelect(c) => At(s, c, SawEmpty)
    case ContextDone(c) => At(s, c, SawEmpty) || At(s, c, Blocked)
    case LockAfterNotify(c) => At(s, c, Notified)
    case AckDone(c) => IsWorking(s, c)
    case AckRequeue(c, _) => IsWorking(s, c)
    case OtherDone(_) => true
    case OtherRequeue(_, _) => true
  }

  function Appended(s: System, q: State, item: Item, wake: ConsumerId): System {
    s.(q := q, hist := s.hist + [Enqueued(item)],
       pc := if At(s, wake, Blocked) then s.pc[wake := Notified] else s.pc)
  }

  /** From the read of `q.queue[0]` on; an empty slice makes the index panic. */
  function Take(s: System, c: ConsumerId): System {
    if s.q.queue == [] then s.(pc := s.pc[c := Panicked])
    else
      var item := s.q.queue[0];
      s.(q := Pop(s.q), pc := s.pc[c := Working(item)], hist := s.hist + [Dequeued(item)])
  }

  function Release(s: System, q: State, key: Key): System {
    s.(q := q, hist := s.hist + [Released(key)])
  }

  function Apply(s: System, step: Step): System
    requires Enabled(s, step)
  {
    match step
    case Enqueue(item, wake) =>
      if Tracked(s.q, item.hash) then s else Appended(s, QueueState.Enqueue(s.q, item), item, wake)
    case EnqueueAfter(item, d) => s.(q := QueueState.EnqueueAfter(s.q, item, s.now + d))
    case TimerFires(i, wake) =>
      var item := s.q.timers[i].item;
      var q := Fire(s.q, i);
      if q.queue == s.q.queue then s.(q := q) else Appended(s, q, item, wake)
    case ClockTicks(elapsed) => s.(now := s.now + elapsed)
    case Dequeue(c) =>
      if s.q.queue == [] then s.(pc := s.pc[c := SawEmpty], hist := s.hist + [Emptied])
      else Take(s, c)
    case EnterSelect(c) => s.(pc := s.pc[c := Blocked], hist := s.hist + [Waits])
    case ContextDone(c) => s.(pc := s.pc[c := Idle])
    case LockAfterNotify(c) => Take(s, c)
    case AckDone(c) =>
      var item := s.pc[c].item;
      Release(s.(pc := s.pc[c := Idle]), Done(s.q, item), item.hash)
    case AckRequeue(c, d) =>
      var item := s.pc[c].item;
      Release(s.(pc := s.pc[c := Idle]), RequeueAfter(s.q, item, s.now + d), item.hash)
    case OtherDone(item) => Release(s, Done(s.q, item), item.hash)
    case OtherRequeue(item, d) => Release(s, RequeueAfter(s.q, item, s.now + d), item.hash)
  }

  // ---------- Runs ----------

  ghost predicate Legal(s: System, steps: seq<Step>)
    decreases |steps|, 0
  {
    steps == [] ||
    var n := |steps| - 1;
    Legal(s, steps[..n]) && Enabled(Run(s, steps[..n]), steps[n])
  }

  ghost function Run(s: System, steps: seq<Step>): System
    requires Legal(s, steps)
    decreases |steps|, 1
  {
    if steps == [] then s
    else
      var n := |steps| - 1;
      Apply(Run(s, steps[..n]), steps[n])
  }

  /** Only the consumer that holds an item acknowledges it, as Reconciler.Start does. */
  ghost predicate Disciplined(steps: seq<Step>) {
    forall i :: 0 <= i < |steps| ==> !steps[i].OtherDone? && !steps[i].OtherRequeue?
  }

  function Enqueues(hist: seq<Event>): seq<Item> {
    if hist == [] then []
    else
      var n := |hist| - 1;
      Enqueues(hist[..n]) + (if hist[n].Enqueued? then [hist[n].item] else [])
  }

  function Dequeues(hist: seq<Event>): seq<Item> {
    if hist == [] then []
    else
      var n := |hist| - 1;
      Dequeues(hist[..n]) + (if hist[n].Dequeued? then [hist[n].item] else [])
  }

  /** The last thing that happened to key k, dequeue or release, was a dequeue. */
  predicate Held(hist: seq<Event>, k: Key) {
    hist != [] &&
    var n := |hist| - 1;
    if hist[n].Dequeued? && hist[n].item.hash == k then true
    else if hist[n] == Released(k) then false
    else Held(hist[..n], k)
  }

  // ---------- The step invariant, for any number of consumers ----------

  ghost predicate SysInv(s: System) {
    && Inv(s.q)
    && Enqueues(s.hist) == Dequeues(s.hist) + s.q.queue
    && (forall k :: k in s.q.processing <==> Held(s.hist, k))
  }

  lemma HistAppend(hist: seq<Event>, e: Event)
    ensures (hist + [e])[..|hist|] == hist
    ensures Enqueues(hist + [e]) == Enqueues(hist) + (if e.Enqueued? then [e.item] else [])
    ensures Dequeues(hist + [e]) == Dequeues(hist) + (if e.Dequeued? then [e.item] else [])
    ensures forall k :: Held(hist + [e], k) <==>
      (if e.Dequeued? && e.item.hash == k then true else if e == Released(k) then false else Held(hist, k))
  {
    assert (hist + [e])[..|hist|] == hist;
  }

  lemma AppendedKeepsInv(s: System, q: State, item: Item, wake: ConsumerId)
    requires SysInv(s) && Inv(q) && q.queue == s.q.queue + [item] && q.processing == s.q.processing
    ensures SysInv(Appended(s, q, item, wake))
  {
    HistAppend(s.hist, Enqueued(item));
  }

  lemma TakeKeepsInv(s: System, c: ConsumerId)
    requires SysInv(s)
    ensures SysInv(Take(s, c))
  {
    if s.q.queue != [] {
      var item := s.q.queue[0];
      PopKeepsInv(s.q);
      HistAppend(s.hist, Dequeued(item));
      assert s.q.queue == [item] + s.q.queue[1..];
    }
  }

  lemma ReleaseKeepsSysInv(s: System, q: State, key: Key)
    requires SysInv(s) && Inv(q) && q.queue == s.q.queue && q.processing == s.q.processing - {key}
    ensures SysInv(Release(s, q, key))
  {
    HistAppend(s.hist, Released(key));
  }

  lemma AppendStepKeepsInv(s: System, step: Step)
    requires SysInv(s) && Enabled(s, step) && (step.Enqueue? || step.TimerFires?)
    ensures SysInv(Apply(s, step))
  {
    if step.TimerFires? {
      FireAppends(s.q, step.i);
      AppendedKeepsInv(s, Fire(s.q, step.i), s.q.timers[step.i].item, step.wake);
    } else if !Tracked(s.q, step.item.hash) {
      EnqueueKeepsInv(s.q, step.item);
      AppendedKeepsInv(s, QueueState.Enqueue(s.q, step.item), step.item, step.wake);
    }
  }

  lemma DequeueStepKeepsInv(s: System, step: Step)
    requires SysInv(s) && Enabled(s, step)
    requires step.Dequeue? || step.LockAfterNotify? || step.EnterSelect? || step.ContextDone?
    ensures SysInv(Apply(s, step))
  {
    if step.Dequeue? && s.q.queue == [] {
      HistAppend(s.hist, Emptied);
    } else if step.EnterSelect? {
      HistAppend(s.hist, Waits);
    } else if step.Dequeue? || step.LockAfterNotify? {
      TakeKeepsInv(s, step.c);
    }
  }

  lemma ReleaseStepKeepsInv(s: System, step: Step)
    requires SysInv(s) && Enabled(s, step)
    requires step.AckDone? || step.AckRequeue? || step.OtherDone? || step.OtherRequeue?
    ensures SysInv(Apply(s, step))
  {
    var item := if step.AckDone? || step.AckRequeue? then s.pc[step.c].item else step.item;
    var s0 := if step.AckDone? || step.AckRequeue? then s.(pc := s.pc[step.c := Idle]) else s;
    var due := if step.AckRequeue? || step.OtherRequeue? then s.now + step.d else 0;
    ReleaseKeepsInv(s.q, item, due);
    var q' := if step.AckRequeue? || step.OtherRequeue? then RequeueAfter(s.q, item, due) else Done(s.q, item);
    ReleaseKeepsSysInv(s0, q', item.hash);
  }

  lemma StepKeepsInv(s: System, step: Step)
    requires SysInv(s) && Enabled(s, step)
    ensures SysInv(Apply(s, step))
  {
    if step.Enqueue? || step.TimerFires? {
      AppendStepKeepsInv(s, step);
    } else if step.EnqueueAfter? {
      EnqueueAfterKeepsInv(s.q, step.item, s.now + step.d);
    } else if step.Dequeue? || step.LockAfterNotify? || step.EnterSelect? || step.ContextDone? {
      DequeueStepKeepsInv(s, step);
    } else if !step.ClockTicks? {
      ReleaseStepKeepsInv(s, step);
    }
  }

  lemma {:induction false} RunKeepsInv(s: System, steps: seq<Step>)
    requires SysInv(s) && Legal(s, steps)
    ensures SysInv(Run(s, steps))
  {
    if steps == [] {
    } else {
      var n := |steps| - 1;
      RunKeepsInv(s, steps[..n]);
      StepKeepsInv(Run(s, steps[..n]), steps[n]);
    }
  }

  /**
   In every interleaving, with any number of consumers: the sets describe the slice, the
   processing items and the sleeping timers exactly and do not overlap, and the items enqueued
   so far are the items dequeued so far followed by the slice.
   */
  lemma EveryRunIsConsistentAndFifo(consumers: set<ConsumerId>, steps: seq<Step>)
    requires Legal(Init(consumers), steps)
    ensures var s := Run(Init(consumers), steps);
            && Inv(s.q)
            && Enqueues(s.hist) == Dequeues(s.hist) + s.q.queue
  {
    assert SysInv(Init(consumers));
    RunKeepsInv(Init(consumers), steps);
  }

  // ---------- One consumer at a time per key ----------

  lemma HeldUntilReleased(hist: seq<Event>, i: nat, k: Key)
    requires i < |hist| && hist[i].Dequeued? && hist[i].item.hash == k
    requires forall m :: i < m < |hist| ==> hist[m] != Released(k)
    ensures Held(hist, k)
  {
    if i < |hist| - 1 {
      HeldUntilReleased(hist[..|hist| - 1], i, k);
    }
  }

  ghost predicate ReleasedBetweenDequeues(hist: seq<Event>) {
    forall i, j :: 0 <= i < j < |hist| && hist[i].Dequeued? && hist[j].Dequeued?
      && hist[i].item.hash == hist[j].item.hash
      ==> exists m :: i < m < j && hist[m] == Released(hist[i].item.hash)
  }

  lemma StepKeepsRelease(s: System, step: Step)
    requires SysInv(s) && Enabled(s, step) && ReleasedBetweenDequeues(s.hist)
    ensures ReleasedBetweenDequeues(Apply(s, step).hist)
  {
    var hist' := Apply(s, step).hist;
    var n := |s.hist|;
    forall i, j | 0 <= i < j < |hist'| && hist'[i].Dequeued? && hist'[j].Dequeued?
      && hist'[i].item.hash == hist'[j].item.hash
      ensures exists m :: i < m < j && hist'[m] == Released(hist'[i].item.hash)
    {
      var k := hist'[i].item.hash;
      if j < n {
        var m :| i < m < j && s.hist[m] == Released(k);
        assert hist'[m] == Released(k);
      } else {
        PopKeepsInv(s.q);
        assert !Held(s.hist, k);
        if forall m :: i < m < n ==> s.hist[m] != Released(k) {
          HeldUntilReleased(s.hist, i, k);
        }
        var m :| i < m < n && s.hist[m] == Released(k);
        assert hist'[m] == Released(k);
      }
    }
  }

  /** Between two dequeues of one key there is a Done or RequeueAfter of that key. */
  lemma {:induction false} KeyReleasedBetweenDequeues(consumers: set<ConsumerId>, steps: seq<Step>)
    requires Legal(Init(consumers), steps)
    ensures ReleasedBetweenDequeues(Run(Init(consumers), steps).hist)
  {
    if steps == [] {
    } else {
      var n := |steps| - 1;
      KeyReleasedBetweenDequeues(consumers, steps[..n]);
      assert SysInv(Init(consumers));
      RunKeepsInv(Init(consumers), steps[..n]);
      StepKeepsRelease(Run(Init(consumers), steps[..n]), steps[n]);
    }
  }

  /** Two consumers never reconcile one key, and `processing` holds exactly the keys in work. */
  ghost predicate Exclusive(s: System) {
    && (forall c, c' :: IsWorking(s, c) && IsWorking(s, c') && c != c' ==> s.pc[c].item.hash != s.pc[c'].item.hash)
    && (forall k :: k in s.q.processing <==> exists c :: IsWorking(s, c) && s.pc[c].item.hash == k)
  }

  lemma TakeKeepsExclusive(s: System, c: ConsumerId)
    requires SysInv(s) && Exclusive(s) && c in s.pc && !s.pc[c].Working?
    ensures Exclusive(Take(s, c))
  {
    var s' := Take(s, c);
    forall k
      ensures k in s'.q.processing <==> exists d :: IsWorking(s', d) && s'.pc[d].item.hash == k
    {
      if k in s.q.processing {
        var d :| IsWorking(s, d) && s.pc[d].item.hash == k;
        assert IsWorking(s', d) && s'.pc[d].item.hash == k;
      } else if k in s'.q.processing {
        assert IsWorking(s', c) && s'.pc[c].item.hash == k;
      }
    }
    if s.q.queue != [] {
      PopKeepsInv(s.q);
      forall d | IsWorking(s, d)
        ensures s.pc[d].item.hash != s.q.queue[0].hash
      {
      }
    }
  }

  lemma AckKeepsExclusive(s: System, s': System, c: ConsumerId)
    requires Exclusive(s) && IsWorking(s, c) && s'.pc == s.pc[c := Idle]
    requires s'.q.processing == s.q.processing - {s.pc[c].item.hash}
    ensures Exclusive(s')
  {
    forall k
      ensures k in s'.q.processing <==> exists d :: IsWorking(s', d) && s'.pc[d].item.hash == k
    {
      if k in s'.q.processing {
        var d :| IsWorking(s, d) && s.pc[d].item.hash == k;
        assert IsWorking(s', d) && s'.pc[d].item.hash == k;
      }
      assert forall d :: IsWorking(s', d) ==> IsWorking(s, d) && d != c;
    }
  }

  lemma FrameKeepsExclusive(s: System, s': System)
    requires Exclusive(s) && s'.q.processing == s.q.processing
    requires forall c :: IsWorking(s', c) <==> IsWorking(s, c)
    requires forall c :: IsWorking(s, c) && IsWorking(s', c) ==> s'.pc[c] == s.pc[c]
    ensures Exclusive(s')
  {
    forall k
      ensures k in s'.q.processing <==> exists c :: IsWorking(s', c) && s'.pc[c].item.hash == k
    {
      if k in s'.q.processing {
        var c :| IsWorking(s, c) && s.pc[c].item.hash == k;
        assert IsWorking(s', c);
      }
    }
  }

  lemma StepKeepsExclusive(s: System, step: Step)
    requires SysInv(s) && Enabled(s, step) && Exclusive(s)
    requires !step.OtherDone? && !step.OtherRequeue?
    ensures Exclusive(Apply(s, step))
  {
    var s' := Apply(s, step);
    if step.LockAfterNotify? || (step.Dequeue? && s.q.queue != []) {
      TakeKeepsExclusive(s, step.c);
    } else if step.AckDone? || step.AckRequeue? {
      AckKeepsExclusive(s, s', step.c);
    } else {
      if step.TimerFires? { FireAppends(s.q, step.i); }
      FrameKeepsExclusive(s, s');
    }
  }

  lemma {:induction false} ReconcilingIsExclusive(consumers: set<ConsumerId>, steps: seq<Step>)
    requires Legal(Init(consumers), steps) && Disciplined(steps)
    ensures Exclusive(Run(Init(consumers), steps))
  {
    if steps == [] {
    } else {
      var n := |steps| - 1;
      ReconcilingIsExclusive(consumers, steps[..n]);
      assert SysInv(Init(consumers));
      RunKeepsInv(Init(consumers), steps[..n]);
      StepKeepsExclusive(Run(Init(consumers), steps[..n]), steps[n]);
    }
  }

  // ---------- Each key's life cycle ----------

  datatype Phase = Absent | Waiting | Queued | Processing

  function PhaseOf(s: State, k: Key): Phase {
    if k in s.inqueue then Queued
    else if k in s.processing then Processing
    else if k in s.waiting then Waiting
    else Absent
  }

  predicate LifeCycleEdge(p: Phase, p': Phase) {
    || p == p'
    || (p == Absent && p' in {Waiting, Queued})
    || (p == Waiting && p' == Queued)
    || (p == Queued && p' == Processing)
    || (p == Processing && p' in {Absent, Waiting})
  }

  /** Every step moves every key along one edge of its life cycle, and at most one key moves. */
  lemma StepFollowsLifeCycle(s: System, step: Step, k: Key, k': Key)
    requires SysInv(s) && Enabled(s, step)
    ensures LifeCycleEdge(PhaseOf(s.q, k), PhaseOf(Apply(s, step).q, k))
    ensures k != k' && PhaseOf(s.q, k) != PhaseOf(Apply(s, step).q, k) ==>
      PhaseOf(s.q, k') == PhaseOf(Apply(s, step).q, k')
  {
    if step.TimerFires? {
      FireAppends(s.q, step.i);
      assert TimerKeys(s.q.timers)[step.i] in TimerKeys(s.q.timers);
    } else if s.q.queue != [] {
      assert QueueKeys(s.q.queue)[0] in QueueKeys(s.q.queue);
    }
  }

  // ---------- Delayed items ----------

  ghost predicate Delayed(s: System, t: Timer) {
    t in s.q.timers && PhaseOf(s.q, t.item.hash) == Waiting
  }

  lemma StepKeepsDelayed(s: System, step: Step, t: Timer)
    requires SysInv(s) && Enabled(s, step) && Delayed(s, t) && Apply(s, step).now < t.due
    ensures Delayed(Apply(s, step), t)
  {
    if step.TimerFires? {
      FireAppends(s.q, step.i);
      var j :| 0 <= j < |s.q.timers| && s.q.timers[j] == t;
      assert j != step.i;
      var keys := TimerKeys(s.q.timers);
      assert keys[j] != keys[step.i];
      var q' := Fire(s.q, step.i);
      assert q'.timers[if j < step.i then j else j - 1] == t;
      assert keys[j] in s.q.waiting && keys[j] in q'.waiting;
    } else if s.q.queue != [] {
      assert QueueKeys(s.q.queue)[0] in QueueKeys(s.q.queue);
    }
  }

  lemma ClockMovesForward(s: System, step: Step)
    requires Enabled(s, step)
    ensures s.now <= Apply(s, step).now
  {
  }

  /** As long as its time has not come, no step takes a delayed item out of `waiting`. */
  lemma {:induction false} DelayedNotEarly(s: System, steps: seq<Step>, t: Timer)
    requires SysInv(s) && Legal(s, steps) && Delayed(s, t) && Run(s, steps).now < t.due
    ensures Delayed(Run(s, steps), t)
  {
    if steps == [] {
    } else {
      var n := |steps| - 1;
      ClockMovesForward(Run(s, steps[..n]), steps[n]);
      DelayedNotEarly(s, steps[..n], t);
      RunKeepsInv(s, steps[..n]);
      StepKeepsDelayed(Run(s, steps[..n]), steps[n], t);
    }
  }

  /**
   An accepted EnqueueAfter keeps the key out of the slice and out of `processing` for its whole
   delay, whatever the other goroutines do in between.
   */
  lemma EnqueueAfterHoldsForItsDelay(consumers: set<ConsumerId>, before: seq<Step>, item: Item, d: int,
      after: seq<Step>)
    requires Legal(Init(consumers), before)
    requires var s := Run(Init(consumers), before); !Tracked(s.q, item.hash)
    requires var s := Apply(Run(Init(consumers), before), EnqueueAfter(item, d));
             Legal(s, after) && Run(s, after).now < Run(Init(consumers), before).now + d
    ensures var s := Run(Apply(Run(Init(consumers), before), EnqueueAfter(item, d)), after);
            && item.hash in s.q.waiting
            && item.hash !in QueueKeys(s.q.queue)
            && item.hash !in s.q.processing
  {
    assert SysInv(Init(consumers));
    RunKeepsInv(Init(consumers), before);
    var s0 := Run(Init(consumers), before);
    var s1 := Apply(s0, EnqueueAfter(item, d));
    StepKeepsInv(s0, EnqueueAfter(item, d));
    var t := Timer(item, s0.now + d);
    assert s1.q.timers[|s0.q.timers|] == t;
    DelayedNotEarly(s1, after, t);
    RunKeepsInv(s1, after);
  }

  /** The item that a step acknowledges by RequeueAfter. */
  function Requeued(s: System, step: Step): Item
    requires step.OtherRequeue? || (step.AckRequeue? && IsWorking(s, step.c))
  {
    if step.OtherRequeue? then step.item else s.pc[step.c].item
  }

  /**
   The same for every accepted RequeueAfter, whoever calls it: it is accepted when the item is
   neither queued nor waiting, and then keeps its key waiting for the whole delay.
   */
  lemma RequeueAfterHoldsForItsDelay(consumers: set<ConsumerId>, before: seq<Step>, step: Step, after: seq<Step>)
    requires Legal(Init(consumers), before)
    requires step.OtherRequeue? || (step.AckRequeue? && IsWorking(Run(Init(consumers), before), step.c))
    requires var s := Run(Init(consumers), before);
             var key := Requeued(s, step).hash;
             key !in s.q.inqueue && key !in s.q.waiting
    requires var s := Apply(Run(Init(consumers), before), step);
             Legal(s, after) && Run(s, after).now < Run(Init(consumers), before).now + step.d
    ensures var key := Requeued(Run(Init(consumers), before), step).hash;
            var s := Run(Apply(Run(Init(consumers), before), step), after);
            key in s.q.waiting && key !in QueueKeys(s.q.queue) && key !in s.q.processing
  {
    assert SysInv(Init(consumers));
    RunKeepsInv(Init(consumers), before);
    var s0 := Run(Init(consumers), before);
    var item := Requeued(s0, step);
    var s1 := Apply(s0, step);
    StepKeepsInv(s0, step);
    var t := Timer(item, s0.now + step.d);
    assert s1.q.timers[|s0.q.timers|] == t;
    DelayedNotEarly(s1, after, t);
    RunKeepsInv(s1, after);
  }

  /** Where only the holder of an item acknowledges it, a RequeueAfter is always accepted. */
  lemma HeldItemIsAccepted(consumers: set<ConsumerId>, steps: seq<Step>, c: ConsumerId)
    requires Legal(Init(consumers), steps) && Disciplined(steps)
    requires IsWorking(Run(Init(consumers), steps), c)
    ensures var s := Run(Init(consumers), steps);
            s.pc[c].item.hash in s.q.processing && s.pc[c].item.hash !in s.q.inqueue
              && s.pc[c].item.hash !in s.q.waiting
  {
    assert SysInv(Init(consumers));
    RunKeepsInv(Init(consumers), steps);
    ReconcilingIsExclusive(consumers, steps);
    hide Run;
    hide Legal;
  }

  // ---------- And no later than that ----------

  /** The step is the firing of a timer of key k. */
  predicate FiresKey(s: System, step: Step, k: Key) {
    step.TimerFires? && step.i < |s.q.timers| && s.q.timers[step.i].item.hash == k
  }

  ghost predicate NeverFires(s: System, steps: seq<Step>, k: Key)
    requires Legal(s, steps)
  {
    steps == [] ||
    var n := |steps| - 1;
    NeverFires(s, steps[..n], k) && !FiresKey(Run(s, steps[..n]), steps[n], k)
  }

  /** The call delays an item: it is not known to the queue, or is the one being acknowledged. */
  predicate Delays(s: System, step: Step) {
    match step
    case EnqueueAfter(item, _) => !Tracked(s.q, item.hash)
    case AckRequeue(c, _) => IsWorking(s, c) && s.pc[c].item.hash !in s.q.inqueue && s.pc[c].item.hash !in s.q.waiting
    case OtherRequeue(item, _) => item.hash !in s.q.inqueue && item.hash !in s.q.waiting
    case _ => false
  }

  function DelayedItem(s: System, step: Step): Item
    requires Delays(s, step)
  {
    if step.AckRequeue? then s.pc[step.c].item else step.item
  }

  lemma StepKeepsTimer(s: System, step: Step, t: Timer)
    requires SysInv(s) && Enabled(s, step) && Delayed(s, t) && !FiresKey(s, step, t.item.hash)
    ensures Delayed(Apply(s, step), t)
  {
    if step.TimerFires? {
      FireAppends(s.q, step.i);
      var j :| 0 <= j < |s.q.timers| && s.q.timers[j] == t;
      var keys := TimerKeys(s.q.timers);
      assert keys[j] != keys[step.i];
      var q' := Fire(s.q, step.i);
      assert q'.timers[if j < step.i then j else j - 1] == t;
      assert keys[j] in s.q.waiting && keys[j] in q'.waiting;
    } else if s.q.queue != [] {
      assert QueueKeys(s.q.queue)[0] in QueueKeys(s.q.queue);
    }
  }

  lemma {:induction false} TimerStays(s: System, steps: seq<Step>, t: Timer)
    requires SysInv(s) && Legal(s, steps) && Delayed(s, t) && NeverFires(s, steps, t.item.hash)
    ensures Delayed(Run(s, steps), t)
  {
    if steps == [] {
    } else {
      var n := |steps| - 1;
      TimerStays(s, steps[..n], t);
      RunKeepsInv(s, steps[..n]);
      StepKeepsTimer(Run(s, steps[..n]), steps[n], t);
    }
  }

  /** A timer whose time has come can fire, and then its item is in the slice. */
  lemma DueTimerFires(s: System, t: Timer) returns (i: nat, wake: ConsumerId)
    requires SysInv(s) && Delayed(s, t) && t.due <= s.now
    ensures Enabled(s, TimerFires(i, wake)) && FiresKey(s, TimerFires(i, wake), t.item.hash)
    ensures Apply(s, TimerFires(i, wake)).q.queue == s.q.queue + [t.item]
  {
    i :| 0 <= i < |s.q.timers| && s.q.timers[i] == t;
    wake := 0;
    if c :| At(s, c, Blocked) { wake := c; }
    FireAppends(s.q, i);
  }

  /**
   An item accepted at time t with delay d can be queued from t + d on: as long as its timer has
   not fired, whatever else has happened, the timer can fire then, and that queues the item.
   */
  lemma DelayedItemIsDueInTime(consumers: set<ConsumerId>, before: seq<Step>, step: Step, after: seq<Step>)
      returns (i: nat, wake: ConsumerId)
    requires Legal(Init(consumers), before) && Delays(Run(Init(consumers), before), step)
    requires var s := Apply(Run(Init(consumers), before), step);
             && Legal(s, after)
             && NeverFires(s, after, DelayedItem(Run(Init(consumers), before), step).hash)
             && Run(s, after).now >= Run(Init(consumers), before).now + step.d
    ensures var item := DelayedItem(Run(Init(consumers), before), step);
            var s := Run(Apply(Run(Init(consumers), before), step), after);
            && Enabled(s, TimerFires(i, wake)) && FiresKey(s, TimerFires(i, wake), item.hash)
            && Apply(s, TimerFires(i, wake)).q.queue == s.q.queue + [item]
  {
    assert SysInv(Init(consumers));
    RunKeepsInv(Init(consumers), before);
    var s0 := Run(Init(consumers), before);
    var t := Timer(DelayedItem(s0, step), s0.now + step.d);
    StepKeepsInv(s0, step);
    NewTimer(s0, step);
    hide Legal;
    hide Apply;
    TimerStays(Apply(s0, step), after, t);
    RunKeepsInv(Apply(s0, step), after);
    i, wake := DueTimerFires(Run(Apply(s0, step), after), t);
  }

  lemma NewTimer(s: System, step: Step)
    requires SysInv(s) && Delays(s, step)
    ensures Delayed(Apply(s, step), Timer(DelayedItem(s, step), s.now + step.d))
  {
    var s', t := Apply(s, step), Timer(DelayedItem(s, step), s.now + step.d);
    assert s'.q.timers[|s.q.timers|] == t;
  }

  lemma OneTick(s: System, elapsed: nat, k: Key)
    ensures var run := [ClockTicks(elapsed)];
            Legal(s, run) && NeverFires(s, run, k) && Run(s, run) == s.(now := s.now + elapsed)
  {
    EmptyRun(s);
    var none: seq<Step> := [];
    LegalExtend(s, none, ClockTicks(elapsed));
    assert none + [ClockTicks(elapsed)] == [ClockTicks(elapsed)];
    assert [ClockTicks(elapsed)][..0] == none;
  }

  lemma DelayStarts(s: System, step: Step)
    requires Delays(s, step)
    ensures Enabled(s, step) && Apply(s, step).now == s.now && Apply(s, step).q.queue == s.q.queue
  {
  }

  /** The shortest such run: the clock ticks for the delay, the timer fires, the item is queued. */
  lemma QueuedAfterItsDelay(consumers: set<ConsumerId>, before: seq<Step>, step: Step) returns (after: seq<Step>)
    requires Legal(Init(consumers), before) && Delays(Run(Init(consumers), before), step)
    ensures var s := Run(Init(consumers), before);
            && |after| == 2 && after[0] == ClockTicks(if step.d > 0 then step.d else 0) && after[1].TimerFires?
            && Legal(Apply(s, step), after)
            && Run(Apply(s, step), after).q.queue == s.q.queue + [DelayedItem(s, step)]
            && Run(Apply(s, step), after).now == s.now + (if step.d > 0 then step.d else 0)
  {
    var s := Run(Init(consumers), before);
    var elapsed := if step.d > 0 then step.d else 0;
    DelayStarts(s, step);
    var s1 := Apply(s, step);
    var tick := [ClockTicks(elapsed)];
    OneTick(s1, elapsed, DelayedItem(s, step).hash);
    var i, wake := DelayedItemIsDueInTime(consumers, before, step, tick);
    LegalExtend(s1, tick, TimerFires(i, wake));
    FiringTakesNoTime(Run(s1, tick), i, wake);
    after := tick + [TimerFires(i, wake)];
    hide *;
  }

  lemma FiringTakesNoTime(s: System, i: nat, wake: ConsumerId)
    requires Enabled(s, TimerFires(i, wake))
    ensures Apply(s, TimerFires(i, wake)).now == s.now
  {
  }

  /** A waiting key is never lost: it has a timer, only one, and when that fires the item is queued. */
  lemma WaitingKeyIsQueuedByItsTimer(consumers: set<ConsumerId>, steps: seq<Step>, k: Key) returns (i: nat)
    requires Legal(Init(consumers), steps) && k in Run(Init(consumers), steps).q.waiting
    ensures var q := Run(Init(consumers), steps).q;
            && i < |q.timers| && q.timers[i].item.hash == k
            && (forall j :: 0 <= j < |q.timers| && q.timers[j].item.hash == k ==> j == i)
            && Fire(q, i).queue == q.queue + [q.timers[i].item]
            && k !in Fire(q, i).waiting
  {
    assert SysInv(Init(consumers));
    RunKeepsInv(Init(consumers), steps);
    var q := Run(Init(consumers), steps).q;
    var keys := TimerKeys(q.timers);
    assert k in keys;
    i :| 0 <= i < |keys| && keys[i] == k;
    FireAppends(q, i);
    forall j | 0 <= j < |q.timers| && q.timers[j].item.hash == k
      ensures j == i
    {
      assert keys[j] == keys[i];
    }
  }

  // ---------- The index read in Dequeue ----------

  ghost predicate NeverPanics(consumers: set<ConsumerId>) {
    forall steps, c :: Legal(Init(consumers), steps) ==> !At(Run(Init(consumers), steps), c, Panicked)
  }

  ghost predicate NotifiedHasItem(s: System) {
    forall c :: !At(s, c, Panicked) && (At(s, c, Notified) ==> s.q.queue != [])
  }

  lemma StepKeepsNotified(s: System, step: Step, only: ConsumerId)
    requires SysInv(s) && Enabled(s, step) && NotifiedHasItem(s)
    requires forall c :: c in s.pc ==> c == only
    ensures NotifiedHasItem(Apply(s, step)) && Apply(s, step).pc.Keys == s.pc.Keys
  {
    if step.TimerFires? { FireAppends(s.q, step.i); }
    var s' := Apply(s, step);
    assert s'.pc.Keys == s.pc.Keys;
    forall c | c in s'.pc
      ensures s'.pc[c] != Panicked && (s'.pc[c] == Notified ==> s'.q.queue != [])
    {
      assert c == only && !At(s, only, Panicked);
      assert At(s, only, Notified) ==> s.q.queue != [];
      if step.LockAfterNotify? || step.Dequeue? { assert step.c in s.pc; }
    }
  }

  /** The one consumer there is, if there is one. */
  lemma TheConsumer(consumers: set<ConsumerId>) returns (only: ConsumerId)
    requires |consumers| <= 1
    ensures forall c :: c in consumers ==> c == only
  {
    if consumers == {} {
      only := 0;
    } else {
      only :| only in consumers;
      assert |consumers - {only}| == 0;
      forall c | c in consumers
        ensures c == only
      {
        assert c != only ==> c in consumers - {only};
      }
    }
  }

  lemma {:induction false} SingleConsumerRun(consumers: set<ConsumerId>, steps: seq<Step>)
    requires |consumers| <= 1 && Legal(Init(consumers), steps)
    ensures var s := Run(Init(consumers), steps); NotifiedHasItem(s) && s.pc.Keys == consumers
  {
    if steps != [] {
      var n := |steps| - 1;
      SingleConsumerRun(consumers, steps[..n]);
      assert SysInv(Init(consumers));
      RunKeepsInv(Init(consumers), steps[..n]);
      var only := TheConsumer(consumers);
      StepKeepsNotified(Run(Init(consumers), steps[..n]), steps[n], only);
    } else {
      assert Init(consumers).pc.Keys == consumers;
    }
  }

  lemma LegalExtend(s: System, steps: seq<Step>, step: Step)
    requires Legal(s, steps) && Enabled(Run(s, steps), step)
    ensures Legal(s, steps + [step]) && Run(s, steps + [step]) == Apply(Run(s, steps), step)
  {
    assert (steps + [step])[..|steps|] == steps;
  }

  lemma EmptyRun(s: System)
    ensures Legal(s, []) && Run(s, []) == s
  {
  }

  /** A run in which one consumer has been woken for the only item while another one is idle. */
  lemma NotifiedBesideIdle(consumers: set<ConsumerId>, c: ConsumerId, c': ConsumerId) returns (steps: seq<Step>)
    requires c in consumers && c' in consumers && c != c'
    ensures Legal(Init(consumers), steps)
    ensures var s := Run(Init(consumers), steps);
            At(s, c, Notified) && At(s, c', Idle) && |s.q.queue| == 1
  {
    var s0 := Init(consumers);
    EmptyRun(s0);
    hide Legal;
    hide Run;
    var run0: seq<Step> := [];
    LegalExtend(s0, run0, Dequeue(c));
    var run1 := run0 + [Dequeue(c)];
    LegalExtend(s0, run1, EnterSelect(c));
    var run2 := run1 + [EnterSelect(c)];
    var enqueue := Enqueue(Item("", ""), c);
    LegalExtend(s0, run2, enqueue);
    steps := run2 + [enqueue];
  }

  /** Two consumers: one is woken for the only item, the other takes it first. */
  lemma TwoConsumersCanPanic(consumers: set<ConsumerId>, c: ConsumerId, c': ConsumerId)
    requires c in consumers && c' in consumers && c != c'
    ensures !NeverPanics(consumers)
  {
    var s0 := Init(consumers);
    var run3 := NotifiedBesideIdle(consumers, c, c');
    hide Init;
    hide Legal;
    hide Run;
    LegalExtend(s0, run3, Dequeue(c'));
    var run4 := run3 + [Dequeue(c')];
    LegalExtend(s0, run4, LockAfterNotify(c));
    assert At(Run(s0, run4 + [LockAfterNotify(c)]), c, Panicked);
  }

  /** The read of `q.queue[0]` is in bounds in every run exactly when at most one goroutine dequeues. */
  lemma IndexInBoundsIffOneConsumer(consumers: set<ConsumerId>)
    ensures NeverPanics(consumers) <==> |consumers| <= 1
  {
    if |consumers| <= 1 {
      forall steps, c | Legal(Init(consumers), steps)
        ensures !At(Run(Init(consumers), steps), c, Panicked)
      {
        SingleConsumerRun(consumers, steps);
      }
    } else {
      var c :| c in consumers;
      assert consumers == (consumers - {c}) + {c};
      var c' :| c' in consumers - {c};
      TwoConsumersCanPanic(consumers, c, c');
    }
  }

  // ---------- The wake-up ----------

  /**
   The items enqueued after the last time Dequeue found the slice empty and before the consumer
   entered the select: those for which the send on itemAdded found nobody.
   */
  function Missed(hist: seq<Event>): seq<Item> {
    if hist == [] then []
    else
      var n := |hist| - 1;
      match hist[n]
      case Emptied => []
      case Enqueued(item) => if Waited(hist[..n]) then Missed(hist[..n]) else Missed(hist[..n]) + [item]
      case _ => Missed(hist[..n])
  }

  /** The consumer entered the select after it last found the slice empty. */
  predicate Waited(hist: seq<Event>) {
    hist != [] &&
    var n := |hist| - 1;
    hist[n].Waits? || (!hist[n].Emptied? && Waited(hist[..n]))
  }

  ghost predicate MissedInv(s: System) {
    forall c ::
      && (At(s, c, SawEmpty) ==> s.q.queue == Missed(s.hist) && !Waited(s.hist))
      && (At(s, c, Blocked) ==> s.q.queue == Missed(s.hist) && Waited(s.hist))
  }

  lemma StepKeepsMissed(s: System, step: Step, only: ConsumerId)
    requires SysInv(s) && Enabled(s, step) && MissedInv(s)
    requires forall c :: c in s.pc ==> c == only
    ensures MissedInv(Apply(s, step))
  {
    if step.TimerFires? { FireAppends(s.q, step.i); }
    var s' := Apply(s, step);
    if s'.hist != s.hist {
      assert s'.hist[..|s.hist|] == s.hist;
    }
    assert s'.pc.Keys == s.pc.Keys;
    forall c | c in s'.pc
      ensures s'.pc[c] == SawEmpty ==> s'.q.queue == Missed(s'.hist) && !Waited(s'.hist)
      ensures s'.pc[c] == Blocked ==> s'.q.queue == Missed(s'.hist) && Waited(s'.hist)
    {
      assert c == only;
      assert At(s, only, SawEmpty) ==> s.q.queue == Missed(s.hist) && !Waited(s.hist);
      assert At(s, only, Blocked) ==> s.q.queue == Missed(s.hist) && Waited(s.hist);
    }
  }

  /**
   A blocked consumer leaves behind exactly the items that were enqueued in the gap between its
   unlock and its select; so it sleeps on a non-empty queue if and only if there were some.
   */
  lemma {:induction false} BlockedWithMissedItems(consumers: set<ConsumerId>, steps: seq<Step>, c: ConsumerId)
    requires |consumers| <= 1 && Legal(Init(consumers), steps)
    ensures var s := Run(Init(consumers), steps);
            MissedInv(s) && (At(s, c, Blocked) ==> s.q.queue == Missed(s.hist))
  {
    if steps == [] {
    } else {
      var n := |steps| - 1;
      BlockedWithMissedItems(consumers, steps[..n], c);
      assert SysInv(Init(consumers));
      RunKeepsInv(Init(consumers), steps[..n]);
      SingleConsumerRun(consumers, steps[..n]);
      var only := TheConsumer(consumers);
      StepKeepsMissed(Run(Init(consumers), steps[..n]), steps[n], only);
    }
  }

  /** It does happen: the item is queued, the only consumer is asleep, nothing is pending. */
  lemma LostWakeup(c: ConsumerId, item: Item) returns (steps: seq<Step>)
    ensures Legal(Init({c}), steps)
    ensures var s := Run(Init({c}), steps);
            At(s, c, Blocked) && s.q.queue == [item] && s.q.timers == []
  {
    var s0 := Init({c});
    EmptyRun(s0);
    hide Legal;
    hide Run;
    var run0: seq<Step> := [];
    LegalExtend(s0, run0, Dequeue(c));
    var run1 := run0 + [Dequeue(c)];
    LegalExtend(s0, run1, Enqueue(item, c));
    var run2 := run1 + [Enqueue(item, c)];
    assert At(Run(s0, run2), c, SawEmpty) && Run(s0, run2).q.queue == [item];
    LegalExtend(s0, run2, EnterSelect(c));
    steps := run2 + [EnterSelect(c)];
  }

  /** From there, only a newly appended item or the end of the context gets the consumer going. */
  lemma OnlyAppendWakes(s: System, step: Step, c: ConsumerId)
    requires SysInv(s) && Enabled(s, step) && At(s, c, Blocked) && s.pc.Keys == {c}
    ensures At(Apply(s, step), c, Notified) <==> |Enqueues(Apply(s, step).hist)| > |Enqueues(s.hist)|
    ensures !At(Apply(s, step), c, Notified) && step != ContextDone(c) ==> At(Apply(s, step), c, Blocked)
  {
    if step.TimerFires? { FireAppends(s.q, step.i); }
    var s' := Apply(s, step);
    if s'.hist != s.hist {
      HistAppend(s.hist, s'.hist[|s.hist|]);
      assert s'.hist == s.hist + [s'.hist[|s.hist|]];
    }
  }
}
