/**
 The de-duplicating work queue of the orchestrator: its four containers, the goroutines that
 sleep until a delayed item is due, and every operation that runs under its mutex.
 Each operation is a function on `State` here, and a method that updates fields in place in
 `WorkQueue.Queue`, proved to do what the function says.
 */
module QueueState {
  type Key = string

  /** A reconcile event: what `Hash()` returns, and everything else the event carries. */
  datatype Item = Item(hash: Key, body: string)

  /** A goroutine sleeping in enqueueAfter, with the instant at which its timer fires. */
  datatype Timer = Timer(item: Item, due: int)

  datatype State = State(
    queue: seq<Item>,
    inqueue: set<Key>,
    processing: set<Key>,
    waiting: set<Key>,
    timers: seq<Timer>)

  const EMPTY := State([], {}, {}, {}, [])

  predicate Tracked(s: State, k: Key) {
    k in s.inqueue || k in s.processing || k in s.waiting
  }

  function Enqueue(s: State, item: Item): State {
    if Tracked(s, item.hash) then s
    else s.(queue := s.queue + [item], inqueue := s.inqueue + {item.hash})
  }

  function EnqueueAfter(s: State, item: Item, due: int): State {
    if Tracked(s, item.hash) then s
    else s.(waiting := s.waiting + {item.hash}, timers := s.timers + [Timer(item, due)])
  }

  function Fire(s: State, i: nat): State
    requires i < |s.timers|
  {
    var item := s.timers[i].item;
    Enqueue(s.(waiting := s.waiting - {item.hash}, timers := s.timers[..i] + s.timers[i + 1..]), item)
  }

  function Pop(s: State): State
    requires s.queue != []
  {
    var key := s.queue[0].hash;
    s.(queue := s.queue[1..], inqueue := s.inqueue - {key}, processing := s.processing + {key})
  }

  function Done(s: State, item: Item): State {
    s.(processing := s.processing - {item.hash})
  }

  function RequeueAfter(s: State, item: Item, due: int): State {
    EnqueueAfter(Done(s, item), item, due)
  }

  function EnqueueAll(s: State, items: seq<Item>): State {
    if items == [] then s
    else Enqueue(EnqueueAll(s, items[..|items| - 1]), items[|items| - 1])
  }

  // ---------- What every operation keeps ----------

  ghost predicate Distinct(keys: seq<Key>) {
    forall i, j :: 0 <= i < j < |keys| ==> keys[i] != keys[j]
  }

  function QueueKeys(q: seq<Item>): (r: seq<Key>) {
    seq(|q|, i requires 0 <= i < |q| => q[i].hash)
  }

  function TimerKeys(ts: seq<Timer>): (r: seq<Key>) {
    seq(|ts|, i requires 0 <= i < |ts| => ts[i].item.hash)
  }

  ghost predicate Inv(s: State) {
    && Distinct(QueueKeys(s.queue))
    && (forall k :: k in s.inqueue <==> k in QueueKeys(s.queue))
    && Distinct(TimerKeys(s.timers))
    && (forall k :: k in s.waiting <==> k in TimerKeys(s.timers))
    && s.inqueue !! s.processing
    && s.inqueue !! s.waiting
    && s.processing !! s.waiting
  }

  lemma EnqueueKeepsInv(s: State, item: Item)
    requires Inv(s)
    ensures Inv(Enqueue(s, item))
  {
    var s' := Enqueue(s, item);
    if !Tracked(s, item.hash) {
      assert QueueKeys(s'.queue) == QueueKeys(s.queue) + [item.hash];
    }
  }

  lemma EnqueueAfterKeepsInv(s: State, item: Item, due: int)
    requires Inv(s)
    ensures Inv(EnqueueAfter(s, item, due))
  {
    var s' := EnqueueAfter(s, item, due);
    if !Tracked(s, item.hash) {
      assert TimerKeys(s'.timers) == TimerKeys(s.timers) + [item.hash];
    }
  }

  /** A timer that fires always appends its item, and only its own timer goes. */
  lemma FireAppends(s: State, i: nat)
    requires Inv(s) && i < |s.timers|
    ensures Inv(Fire(s, i))
    ensures Fire(s, i).queue == s.queue + [s.timers[i].item]
    ensures Fire(s, i).waiting == s.waiting - {s.timers[i].item.hash}
    ensures Fire(s, i).processing == s.processing
    ensures Fire(s, i).timers == s.timers[..i] + s.timers[i + 1..]
  {
    var item := s.timers[i].item;
    var mid := s.(waiting := s.waiting - {item.hash}, timers := s.timers[..i] + s.timers[i + 1..]);
    var keys, keys' := TimerKeys(s.timers), TimerKeys(mid.timers);
    assert keys' == keys[..i] + keys[i + 1..];
    assert keys[i] == item.hash;
    assert item.hash in s.waiting;
    forall k
      ensures k in mid.waiting <==> k in keys'
    {
      if k in mid.waiting {
        assert k in keys;
        var j :| 0 <= j < |keys| && keys[j] == k;
        assert keys'[if j < i then j else j - 1] == k;
      }
    }
    assert Inv(mid);
    EnqueueKeepsInv(mid, item);
  }

  lemma PopKeepsInv(s: State)
    requires Inv(s) && s.queue != []
    ensures Inv(Pop(s))
    ensures s.queue[0].hash !in s.processing
  {
    var s' := Pop(s);
    var keys := QueueKeys(s.queue);
    assert QueueKeys(s'.queue) == keys[1..];
    assert keys[0] == s.queue[0].hash;
    assert keys[0] in keys;
  }

  lemma ReleaseKeepsInv(s: State, item: Item, due: int)
    requires Inv(s)
    ensures Inv(Done(s, item)) && Inv(RequeueAfter(s, item, due))
  {
    EnqueueAfterKeepsInv(Done(s, item), item, due);
  }

  // ---------- One poll: which items reach the slice ----------

  /** The items of one poll that are not tracked already, each key once, in the order given. */
  function Fresh(s: State, items: seq<Item>): (r: seq<Item>) {
    if items == [] then []
    else
      var init, last := items[..|items| - 1], items[|items| - 1];
      if Tracked(s, last.hash) || last.hash in QueueKeys(init) then Fresh(s, init)
      else Fresh(s, init) + [last]
  }

  /** Fresh items have distinct keys: those of the polled items that are not tracked yet. */
  lemma {:induction false} FreshMeaning(s: State, items: seq<Item>)
    ensures Distinct(QueueKeys(Fresh(s, items)))
    ensures forall k :: k in QueueKeys(Fresh(s, items)) <==> k in QueueKeys(items) && !Tracked(s, k)
  {
    if items == [] {
    } else {
      var init, last := items[..|items| - 1], items[|items| - 1];
      FreshMeaning(s, init);
      assert QueueKeys(items) == QueueKeys(init) + [last.hash];
      assert QueueKeys(Fresh(s, init) + [last]) == QueueKeys(Fresh(s, init)) + [last.hash];
    }
  }

  /**
   Enqueuing a whole poll appends exactly its fresh items: whatever is queued, processing or
   waiting is left alone, and afterwards every polled key is tracked.
   */
  lemma {:induction false} EnqueueAllAppendsFresh(s: State, items: seq<Item>)
    requires Inv(s)
    ensures var s' := EnqueueAll(s, items);
            && Inv(s')
            && s'.queue == s.queue + Fresh(s, items)
            && (s'.processing, s'.waiting, s'.timers) == (s.processing, s.waiting, s.timers)
            && forall k :: Tracked(s', k) <==> Tracked(s, k) || k in QueueKeys(items)
  {
    if items != [] {
      var init, last := items[..|items| - 1], items[|items| - 1];
      EnqueueAllAppendsFresh(s, init);
      EnqueueKeepsInv(EnqueueAll(s, init), last);
      assert QueueKeys(items) == QueueKeys(init) + [last.hash];
      assert s.queue + (Fresh(s, init) + [last]) == (s.queue + Fresh(s, init)) + [last];
    } else {
      assert s.queue + [] == s.queue;
    }
  }
}

/** The queue object: one method for each critical section, updating the fields in place. */
module WorkQueue {
  import opened Common
  import opened Spec = QueueState

  class Queue {
    var queue: seq<Item>
    var inqueue: set<Key>
    var processing: set<Key>
    var waitingForEnqueue: set<Key>
    var timers: seq<Timer>

    ghost function View(): State
      reads this
    {
      State(queue, inqueue, processing, waitingForEnqueue, timers)
    }

    ghost predicate Valid()
      reads this
    {
      Inv(View())
    }

    constructor ()
      ensures View() == EMPTY && Valid()
    {
      queue, inqueue, processing, waitingForEnqueue, timers := [], {}, {}, {}, [];
    }

    /** `notify` says whether the body reaches the send on itemAdded. */
    method Enqueue(item: Item) returns (notify: bool)
      requires Valid()
      modifies this
      ensures Valid() && View() == Spec.Enqueue(old(View()), item)
      ensures notify <==> queue == old(queue) + [item]
    {
      EnqueueKeepsInv(View(), item);
      notify := item.hash !in inqueue && item.hash !in processing && item.hash !in waitingForEnqueue;
      if notify {
        queue := queue + [item];
        inqueue := inqueue + {item.hash};
      }
    }

    method EnqueueAfter(item: Item, d: int, now: int)
      requires Valid()
      modifies this
      ensures Valid() && View() == Spec.EnqueueAfter(old(View()), item, now + d)
    {
      EnqueueAfterKeepsInv(View(), item, now + d);
      if item.hash in inqueue || item.hash in processing || item.hash in waitingForEnqueue {
        return;
      }
      waitingForEnqueue := waitingForEnqueue + {item.hash};
      timers := timers + [Timer(item, now + d)];
    }

    /** The tail of the goroutine started by EnqueueAfter, once its timer has fired. */
    method TimerFired(i: nat) returns (notify: bool)
      requires Valid() && i < |timers|
      modifies this
      ensures Valid() && View() == Fire(old(View()), i)
      ensures notify && queue == old(queue) + [old(timers)[i].item]
    {
      FireAppends(View(), i);
      var item := timers[i].item;
      timers := timers[..i] + timers[i + 1..];
      waitingForEnqueue := waitingForEnqueue - {item.hash};
      notify := item.hash !in inqueue && item.hash !in processing && item.hash !in waitingForEnqueue;
      if notify {
        queue := queue + [item];
        inqueue := inqueue + {item.hash};
      }
    }

    /** The last part of Dequeue, from the read of the head on; the index must be in bounds. */
    method TakeHead() returns (item: Item)
      requires Valid() && queue != []
      modifies this
      ensures Valid() && View() == Pop(old(View()))
      ensures item == old(queue)[0] && item.hash !in old(processing)
    {
      PopKeepsInv(View());
      item := queue[0];
      queue := queue[1..];
      inqueue := inqueue - {item.hash};
      processing := processing + {item.hash};
    }

    /** The first critical section of Dequeue: without an item the caller goes on to wait. */
    method FirstSection() returns (item: Option<Item>)
      requires Valid()
      modifies this
      ensures Valid() && (item.None? <==> old(queue) == [])
      ensures item.None? ==> View() == old(View())
      ensures item.Some? ==> View() == Pop(old(View())) && item.value == old(queue)[0]
    {
      if |queue| == 0 {
        return None;
      }
      var head := TakeHead();
      return Some(head);
    }

    method Done(item: Item)
      requires Valid()
      modifies this`processing
      ensures Valid() && View() == Spec.Done(old(View()), item)
    {
      ReleaseKeepsInv(View(), item, 0);
      processing := processing - {item.hash};
    }

    method RequeueAfter(item: Item, d: int, now: int)
      requires Valid()
      modifies this
      ensures Valid() && View() == Spec.RequeueAfter(old(View()), item, now + d)
    {
      ReleaseKeepsInv(View(), item, now + d);
      processing := processing - {item.hash};
      EnqueueAfter(item, d, now);
    }

    method Has(item: Item) returns (has: bool)
      requires Valid()
      ensures has <==> item.hash in QueueKeys(queue) || item.hash in processing || item.hash in TimerKeys(timers)
    {
      has := item.hash in inqueue || item.hash in processing || item.hash in waitingForEnqueue;
    }

    /** The enqueuing half of one poll. */
    method EnqueuePolled(items: seq<Item>)
      requires Valid()
      modifies this
      ensures Valid() && queue == old(queue) + Fresh(old(View()), items)
      ensures (processing, waitingForEnqueue, timers) == old((processing, waitingForEnqueue, timers))
    {
      ghost var before := View();
      for i := 0 to |items|
        invariant Valid() && View() == EnqueueAll(before, items[..i])
      {
        var _ := Enqueue(items[i]);
        assert items[..i + 1][..i] == items[..i];
      }
      assert items[..|items|] == items;
      EnqueueAllAppendsFresh(before, items);
    }
  }
}
