/** The ring used by one thread at a time, and two threads whose stale loads no FIFO queue explains. */
module SpscRing {
  import opened Bits
  import opened SpscQueue

  function PushActions<T>(item: T, seen: nat): seq<Action<T>> {
    [LoadTail(item), CheckFull(seen), WriteSlot, StoreTail]
  }

  function PopActions<T>(seen: nat): seq<Action<T>> {
    [LoadHead, CheckEmpty(seen), ReadSlot, StoreHead]
  }

  /** The completed operations of an interleaving, in order. */
  ghost function Operations<T>(q: Queue<T>, actions: seq<Action<T>>): seq<Event<T>>
    requires Inv(q)
    decreases |actions|
  {
    if actions == [] then []
    else
      var e := EventOf(q, actions[0]);
      (if e == Internal then [] else [e]) + Operations(Next(q, actions[0]), actions[1..])
  }

  lemma RunOne<T>(q: Queue<T>, a: Action<T>, rest: seq<Action<T>>)
    requires Inv(q)
    ensures WellFormed(q)
    ensures Run(q, [a] + rest) == Run(Next(q, a), rest)
    ensures Operations(q, [a] + rest)
         == (if EventOf(q, a) == Internal then [] else [EventOf(q, a)]) + Operations(Next(q, a), rest)
  {
    hide EventOf, Step;
    assert ([a] + rest)[0] == a && ([a] + rest)[1..] == rest;
  }

  lemma RunNone<T>(q: Queue<T>)
    requires Inv(q)
    ensures Run(q, []) == q && Operations(q, []) == []
  {
  }

  lemma {:induction false} InTurn<T>(q: Queue<T>, a: seq<Action<T>>, b: seq<Action<T>>)
    requires Inv(q)
    ensures Run(q, a + b) == Run(Run(q, a), b)
    ensures Operations(q, a + b) == Operations(q, a) + Operations(Run(q, a), b)
    decreases |a|
  {
    hide Inv, Next, EventOf, Operations, Run;
    if a == [] {
      assert a + b == b;
      RunNone(q);
    } else {
      assert a + b == [a[0]] + (a[1..] + b) && a == [a[0]] + a[1..];
      RunOne(q, a[0], a[1..] + b);
      RunOne(q, a[0], a[1..]);
      InTurn(Next(q, a[0]), a[1..], b);
    }
  }

  /** Four actions, of which the first and the third complete nothing. */
  lemma FourSteps<T>(q: Queue<T>, a: Action<T>, b: Action<T>, c: Action<T>, d: Action<T>)
    requires Inv(q)
    requires WellFormed(q) && EventOf(q, a) == Internal
    requires var q2 := Next(Next(q, a), b); WellFormed(q2) && EventOf(q2, c) == Internal
    ensures var q1 := Next(q, a); var q2 := Next(q1, b); var q3 := Next(q2, c);
            && WellFormed(q1) && WellFormed(q3)
            && Run(q, [a, b, c, d]) == Next(q3, d)
            && Operations(q, [a, b, c, d])
               == (if EventOf(q1, b) == Internal then [] else [EventOf(q1, b)])
                  + (if EventOf(q3, d) == Internal then [] else [EventOf(q3, d)])
  {
    hide Next, Inv, Run, EventOf, Operations, WellFormed;
    var q1 := Next(q, a);
    var q2 := Next(q1, b);
    var q3 := Next(q2, c);
    OneStep(q, a, [b, c, d], [a, b, c, d]);
    OneStep(q1, b, [c, d], [b, c, d]);
    OneStep(q2, c, [d], [c, d]);
    OneStep(q3, d, [], [d]);
    RunNone(Next(q3, d));
  }

  lemma OneStep<T>(q: Queue<T>, a: Action<T>, rest: seq<Action<T>>, all: seq<Action<T>>)
    requires Inv(q) && all == [a] + rest
    ensures WellFormed(q)
    ensures Run(q, all) == Run(Next(q, a), rest)
    ensures Operations(q, all)
         == if EventOf(q, a) == Internal then Operations(Next(q, a), rest)
            else [EventOf(q, a)] + Operations(Next(q, a), rest)
  {
    hide Next, Inv, Run, EventOf, Operations;
    RunOne(q, a, rest);
    assert [] + Operations(Next(q, a), rest) == Operations(Next(q, a), rest);
  }

  // ---------- Uninterrupted operations ----------

  /** What a whole push leaves behind when its load of head reads the given store. */
  function Pushed<T>(q: Queue<T>, item: T, seen: nat): Queue<T>
    requires WellFormed(q) && Last(q.tails) < q.capacity && MayReadHead(q, seen)
  {
    var i := Last(q.tails);
    var next := Successor(i, q.capacity);
    if next == q.heads[seen] then q.(headSeen := seen)
    else q.(headSeen := seen, buffer := q.buffer[i := item], tails := q.tails + [next], pushed := q.pushed + [item])
  }

  function Popped<T>(q: Queue<T>, seen: nat): Queue<T>
    requires WellFormed(q) && Last(q.heads) < q.capacity && MayReadTail(q, seen)
  {
    var i := Last(q.heads);
    if i == q.tails[seen] then q.(tailSeen := seen)
    else q.(tailSeen := seen, heads := q.heads + [Successor(i, q.capacity)], popped := q.popped + [q.buffer[i]])
  }

  lemma IndicesAreSlots<T>(q: Queue<T>)
    requires Inv(q)
    ensures WellFormed(q) && q.headSeen < |q.heads| && q.tailSeen < |q.tails|
    ensures Last(q.tails) == |q.pushed| % q.capacity < q.capacity
    ensures Last(q.heads) == |q.popped| % q.capacity < q.capacity
    ensures |q.heads| == |q.popped| + 1 && |q.tails| == |q.pushed| + 1
    ensures |Contents(q)| == |q.pushed| - |q.popped| <= q.capacity - 1
  {
  }

  lemma PushStages<T>(q: Queue<T>, item: T, seen: nat)
    requires Inv(q) && q.producer == PushIdle && MayReadHead(q, seen)
    ensures WellFormed(q) && Last(q.tails) < q.capacity
    ensures var q1 := Next(q, LoadTail(item));
            var q2 := Next(q1, CheckFull(seen));
            var q3 := Next(q2, WriteSlot);
            var full := Successor(Last(q.tails), q.capacity) == q.heads[seen];
            && Next(q3, StoreTail) == Pushed(q, item, seen)
            && EventOf(q, LoadTail(item)) == Internal && EventOf(q2, WriteSlot) == Internal
            && EventOf(q1, CheckFull(seen)) == (if full then RefusedFull else Internal)
            && EventOf(q3, StoreTail) == if full then Internal else Enqueued(item)
  {
    hide Successor, Inv;
    IndicesAreSlots(q);
  }

  lemma PopStages<T>(q: Queue<T>, seen: nat)
    requires Inv(q) && q.consumer == PopIdle && MayReadTail(q, seen)
    ensures WellFormed(q) && Last(q.heads) < q.capacity
    ensures var q1 := Next(q, LoadHead);
            var q2 := Next(q1, CheckEmpty(seen));
            var q3 := Next(q2, ReadSlot);
            var empty := Last(q.heads) == q.tails[seen];
            && Next(q3, StoreHead) == Popped(q, seen)
            && EventOf(q, LoadHead) == Internal && EventOf(q2, ReadSlot) == Internal
            && EventOf(q1, CheckEmpty(seen)) == (if empty then RefusedEmpty else Internal)
            && EventOf(q3, StoreHead) == if empty then Internal else Dequeued(q.buffer[Last(q.heads)])
  {
    hide Successor, Inv;
    IndicesAreSlots(q);
  }

  /** A push without interruption, whichever store of head its load reads. */
  lemma PushSteps<T>(q: Queue<T>, item: T, seen: nat)
    requires Inv(q) && q.producer == PushIdle && MayReadHead(q, seen)
    ensures WellFormed(q) && Last(q.tails) < q.capacity
    ensures Run(q, PushActions(item, seen)) == Pushed(q, item, seen)
    ensures var full := |q.pushed| - seen == q.capacity - 1;
            && (full <==> Successor(Last(q.tails), q.capacity) == q.heads[seen])
            && Operations(q, PushActions(item, seen)) == [if full then RefusedFull else Enqueued(item)]
  {
    PushStages(q, item, seen);
    PushIsRefused(q, item, seen);
    hide Successor, Inv, Run, EventOf, Next, Operations, Pushed, WellFormed, MayReadHead, Last;
    FourSteps(q, LoadTail(item), CheckFull(seen), WriteSlot, StoreTail);
  }

  lemma PushIsRefused<T>(q: Queue<T>, item: T, seen: nat)
    requires Inv(q) && q.producer == PushIdle && MayReadHead(q, seen)
    ensures WellFormed(q) && Last(q.tails) < q.capacity
    ensures |q.pushed| - seen == q.capacity - 1 <==> Successor(Last(q.tails), q.capacity) == q.heads[seen]
  {
    var q1 := Next(q, LoadTail(item));
    IndicesAreSlots(q);
    hide Successor, Inv;
    PushRefusal(q1, seen);
  }

  /** A pop without interruption, whichever store of tail its load reads. */
  lemma PopSteps<T>(q: Queue<T>, seen: nat)
    requires Inv(q) && q.consumer == PopIdle && MayReadTail(q, seen)
    ensures WellFormed(q) && Last(q.heads) < q.capacity
    ensures Run(q, PopActions(seen)) == Popped(q, seen)
    ensures var empty := seen == |q.popped|;
            && (empty <==> Last(q.heads) == q.tails[seen])
            && Operations(q, PopActions(seen)) == [if empty then RefusedEmpty else Dequeued(q.buffer[Last(q.heads)])]
            && (!empty ==> Contents(q) != [] && q.buffer[Last(q.heads)] == Contents(q)[0])
  {
    PopStages(q, seen);
    PopIsRefused(q, seen);
    hide Successor, Inv, Run, EventOf, Next, Operations, Popped, WellFormed, MayReadTail, Last, Contents;
    FourSteps(q, LoadHead, CheckEmpty(seen), ReadSlot, StoreHead);
  }

  lemma PopIsRefused<T>(q: Queue<T>, seen: nat)
    requires Inv(q) && q.consumer == PopIdle && MayReadTail(q, seen)
    ensures WellFormed(q) && Last(q.heads) < q.capacity
    ensures seen == |q.popped| <==> Last(q.heads) == q.tails[seen]
    ensures seen != |q.popped| ==> Contents(q) != [] && q.buffer[Last(q.heads)] == Contents(q)[0]
  {
    var q1 := Next(q, LoadHead);
    IndicesAreSlots(q);
    PopRefusal(q1, seen);
    if seen != |q.popped| {
      FrontIsInSlot(q);
    }
  }

  lemma FrontIsInSlot<T>(q: Queue<T>)
    requires Inv(q) && Contents(q) != []
    ensures WellFormed(q) && Last(q.heads) < q.capacity && q.buffer[Last(q.heads)] == Contents(q)[0]
  {
    IndicesAreSlots(q);
    assert q.buffer[|q.popped| % q.capacity] == q.pushed[|q.popped|];
  }

  // ---------- Refusals that no order explains ----------

  predicate Idle<T>(q: Queue<T>) {
    q.producer.PushIdle? && q.consumer.PopIdle?
  }

  lemma Accepted<T>(q: Queue<T>, item: T, seen: nat)
    requires Inv(q) && Idle(q) && q.headSeen <= seen <= |q.popped| && |q.pushed| - seen < q.capacity - 1
    ensures var r := Run(q, PushActions(item, seen));
            && Idle(r) && r.headSeen == seen && r.tailSeen == q.tailSeen
            && r.pushed == q.pushed + [item] && r.popped == q.popped
    ensures Operations(q, PushActions(item, seen)) == [Enqueued(item)]
  {
    hide Inv, Run, Operations, Successor, PushActions;
    IndicesAreSlots(q);
    PushSteps(q, item, seen);
  }

  lemma Refused<T>(q: Queue<T>, item: T, seen: nat)
    requires Inv(q) && Idle(q) && q.headSeen <= seen <= |q.popped| && |q.pushed| - seen == q.capacity - 1
    ensures Run(q, PushActions(item, seen)) == q.(headSeen := seen)
    ensures Operations(q, PushActions(item, seen)) == [RefusedFull]
  {
    hide Inv, Run, Operations, Successor, PushActions;
    IndicesAreSlots(q);
    PushSteps(q, item, seen);
  }

  lemma Taken<T>(q: Queue<T>, seen: nat)
    requires Inv(q) && Idle(q) && q.tailSeen <= seen <= |q.pushed| && seen != |q.popped|
    ensures |q.popped| < |q.pushed|
    ensures var r := Run(q, PopActions(seen));
            && Idle(r) && r.headSeen == q.headSeen && r.tailSeen == seen
            && r.pushed == q.pushed && r.popped == q.popped + [q.pushed[|q.popped|]]
    ensures Operations(q, PopActions(seen)) == [Dequeued(q.pushed[|q.popped|])]
  {
    hide Inv, Run, Operations, Successor, PopActions;
    IndicesAreSlots(q);
    PopSteps(q, seen);
  }

  lemma NothingTaken<T>(q: Queue<T>, seen: nat)
    requires Inv(q) && Idle(q) && q.tailSeen <= seen == |q.popped|
    ensures Run(q, PopActions(seen)) == q.(tailSeen := seen)
    ensures Operations(q, PopActions(seen)) == [RefusedEmpty]
  {
    hide Inv, Run, Operations, Successor, PopActions;
    IndicesAreSlots(q);
    PopSteps(q, seen);
  }

  /** The events are those of two threads, each thread's in its own order. */
  predicate Merges<T(==)>(events: seq<Event<T>>, left: seq<Event<T>>, right: seq<Event<T>>)
    decreases |events|
  {
    if events == [] then left == [] && right == []
    else
      || (left != [] && events[0] == left[0] && Merges(events[1..], left[1..], right))
      || (right != [] && events[0] == right[0] && Merges(events[1..], left, right[1..]))
  }

  /** Some such order is a history of a FIFO queue of n places that holds c. */
  predicate Orderable<T(==)>(n: nat, c: seq<T>, left: seq<Event<T>>, right: seq<Event<T>>)
    decreases |left| + |right|
  {
    || (left == [] && right == [])
    || (left != [] && Allowed(n, c, left[0]) && Orderable(n, After(c, left[0]), left[1..], right))
    || (right != [] && Allowed(n, c, right[0]) && Orderable(n, After(c, right[0]), left, right[1..]))
  }

  lemma {:induction false} LegalOrder<T>(n: nat, c: seq<T>, events: seq<Event<T>>, left: seq<Event<T>>,
                                         right: seq<Event<T>>)
    requires Merges(events, left, right) && Legal(n, c, events)
    ensures Orderable(n, c, left, right)
    decreases |events|
  {
    hide Allowed, After;
    if events != [] {
      if left != [] && events[0] == left[0] && Merges(events[1..], left[1..], right) {
        LegalOrder(n, After(c, left[0]), events[1..], left[1..], right);
      } else {
        LegalOrder(n, After(c, right[0]), events[1..], left, right[1..]);
      }
    }
  }

  lemma NoStep<T>(n: nat, c: seq<T>, left: seq<Event<T>>, right: seq<Event<T>>)
    requires left != [] || right != []
    requires left != [] && Allowed(n, c, left[0]) ==> !Orderable(n, After(c, left[0]), left[1..], right)
    requires right != [] && Allowed(n, c, right[0]) ==> !Orderable(n, After(c, right[0]), left, right[1..])
    ensures !Orderable(n, c, left, right)
  {
  }

  /** The full refusal needs all three pushes and no pop before it, the empty one the pop and no second
      push: the four states after the pop and the four before it, last first. */
  lemma NoOrder<T>(x: T, y: T, z: T)
    ensures !Orderable(3, [], [Enqueued(x), Enqueued(y), Enqueued(z), RefusedFull], [Dequeued(x), RefusedEmpty])
  {
    hide Orderable;
    var full, empty := [RefusedFull], [RefusedEmpty];
    var third := [Enqueued(z), RefusedFull];
    var second := [Enqueued(y), Enqueued(z), RefusedFull];
    var first := [Enqueued(x), Enqueued(y), Enqueued(z), RefusedFull];
    var pop := [Dequeued(x), RefusedEmpty];
    assert first[1..] == second && second[1..] == third && third[1..] == full && pop[1..] == empty;
    assert full[1..] == [] && empty[1..] == [];
    assert [y, z][..] == [y, z] && [x, y, z][1..] == [y, z] && [x, y][1..] == [y] && [x][1..] == [];
    assert [] + [x] == [x] && [x] + [y] == [x, y] && [x, y] + [z] == [x, y, z];
    assert [] + [y] == [y] && [y] + [z] == [y, z];
    NoStep(3, [y, z], full, []);
    NoStep(3, [y], third, []);
    NoStep(3, [], second, []);
    NoStep(3, [y, z], [], empty);
    NoStep(3, [y, z], full, empty);
    NoStep(3, [y], third, empty);
    NoStep(3, [], second, empty);
    NoStep(3, [x, y, z], [], pop);
    NoStep(3, [x, y, z], full, pop);
    NoStep(3, [x, y], third, pop);
    NoStep(3, [x], second, pop);
    NoStep(3, [], first, pop);
  }

  lemma FourIsPowerOfTwo()
    ensures PowerOfTwo(4)
  {
    assert Pow2(0) == 1;
    assert Pow2(1) == 2;
    assert Pow2(2) == 4;
  }

  /** Three pushes, a pop, and then a push and a pop whose loads read old stores. */
  function StaleActions<T>(x: T, y: T, z: T, more: T): seq<Action<T>> {
    PushActions(x, 0) + PushActions(y, 0) + PushActions(z, 0) + PopActions(1) + PushActions(more, 0) + PopActions(1)
  }

  /** With four slots and two items inside, this run refuses both a push and a pop, and no order of the six
      operations is a history of a FIFO queue of three places. */
  lemma StaleLoadsAreNoFifo<T>(buffer: seq<T>, x: T, y: T, z: T, more: T)
    requires |buffer| == 4
    ensures Inv(Empty(4, buffer))
    ensures var q, actions := Empty(4, buffer), StaleActions(x, y, z, more);
            && Operations(q, actions)
               == [Enqueued(x), Enqueued(y), Enqueued(z), Dequeued(x), RefusedFull, RefusedEmpty]
            && Contents(Run(q, actions)) == [y, z]
    ensures forall events ::
              Merges(events, [Enqueued(x), Enqueued(y), Enqueued(z), RefusedFull], [Dequeued(x), RefusedEmpty]) ==>
                !Legal(3, [], events)
  {
    hide Inv, Run, Operations, PushActions, PopActions, Merges, Legal, Orderable;
    FourIsPowerOfTwo();
    EveryInterleaving(4, buffer, []);
    var q := Empty(4, buffer);
    Accepted(q, x, 0);
    var one := Run(q, PushActions(x, 0));
    Accepted(one, y, 0);
    var two := Run(one, PushActions(y, 0));
    Accepted(two, z, 0);
    var three := Run(two, PushActions(z, 0));
    Taken(three, 1);
    var four := Run(three, PopActions(1));
    Refused(four, more, 0);
    var five := Run(four, PushActions(more, 0));
    NothingTaken(five, 1);
    InTurn(q, PushActions(x, 0), PushActions(y, 0));
    InTurn(q, PushActions(x, 0) + PushActions(y, 0), PushActions(z, 0));
    InTurn(q, PushActions(x, 0) + PushActions(y, 0) + PushActions(z, 0), PopActions(1));
    InTurn(q, PushActions(x, 0) + PushActions(y, 0) + PushActions(z, 0) + PopActions(1), PushActions(more, 0));
    InTurn(q, PushActions(x, 0) + PushActions(y, 0) + PushActions(z, 0) + PopActions(1) + PushActions(more, 0),
           PopActions(1));
    NoOrder(x, y, z);
    forall events | Merges(events, [Enqueued(x), Enqueued(y), Enqueued(z), RefusedFull], [Dequeued(x), RefusedEmpty])
      ensures !Legal(3, [], events)
    {
      if Legal(3, [], events) {
        LegalOrder(3, [], events, [Enqueued(x), Enqueued(y), Enqueued(z), RefusedFull], [Dequeued(x), RefusedEmpty]);
      }
    }
  }

  // ---------- The queue object, used by one thread at a time ----------

  class Ring<T> {
    const capacity: nat
    const buffer: array<T>
    var head: nat
    var tail: nat
    ghost var heads: seq<nat>
    ghost var tails: seq<nat>
    ghost var headSeen: nat
    ghost var tailSeen: nat
    ghost var pushed: seq<T>
    ghost var popped: seq<T>

    ghost function State(): Queue<T>
      reads this, buffer
    {
      Queue(capacity, buffer[..], heads, tails, headSeen, tailSeen, PushIdle, PopIdle, pushed, popped)
    }

    ghost predicate Valid()
      reads this, buffer
    {
      Inv(State()) && heads != [] && tails != [] && head == Last(heads) && tail == Last(tails)
    }

    ghost function Held(): seq<T>
      requires Valid()
      reads this, buffer
    {
      Contents(State())
    }

    constructor (capacity: nat, buffer: array<T>)
      requires PowerOfTwo(capacity) && buffer.Length == capacity
      ensures Valid() && State() == Empty(capacity, buffer[..]) && Held() == []
      ensures this.buffer == buffer && this.capacity == capacity
    {
      this.capacity, this.buffer := capacity, buffer;
      head, tail := 0, 0;
      heads, tails, headSeen, tailSeen, pushed, popped := [0], [0], 0, 0, [], [];
      new;
      EveryInterleaving(capacity, buffer[..], []);
    }

    /** The four steps of a push, uninterrupted, with all stores visible. */
    method Push(item: T) returns (ok: bool)
      requires Valid()
      modifies this, buffer
      ensures Valid()
      ensures State() == Run(old(State()), PushActions(item, |old(popped)|))
      ensures ok <==> |old(Held())| < capacity - 1
      ensures Held() == if ok then old(Held()) + [item] else old(Held())
    {
      hide Inv, Run, Operations, PushActions, Successor;
      ghost var q := State();
      IndicesAreSlots(q);
      PushSteps(q, item, |popped|);
      headSeen := |popped|;
      var currentTail := tail;
      var nextTail := Successor(currentTail, capacity);
      if nextTail == head {
        return false;
      }
      buffer[currentTail] := item;
      tail := nextTail;
      tails := tails + [nextTail];
      pushed := pushed + [item];
      assert buffer[..] == q.buffer[currentTail := item];
      return true;
    }

    /** The four steps of a pop, uninterrupted, with all stores visible. */
    method Pop(default: T) returns (ok: bool, item: T)
      requires Valid()
      modifies this
      ensures Valid()
      ensures State() == Run(old(State()), PopActions(|old(pushed)|))
      ensures ok <==> old(Held()) != []
      ensures ok ==> [item] + Held() == old(Held())
      ensures !ok ==> item == default && Held() == old(Held())
    {
      hide Inv, Run, Operations, PopActions, Successor;
      ghost var q := State();
      IndicesAreSlots(q);
      PopSteps(q, |pushed|);
      tailSeen := |pushed|;
      var currentHead := head;
      if currentHead == tail {
        return false, default;
      }
      item := buffer[currentHead];
      head := Successor(currentHead, capacity);
      heads := heads + [head];
      popped := popped + [item];
      return true, item;
    }

    method IsEmpty() returns (r: bool)
      requires Valid()
      ensures r <==> Held() == []
    {
      SizeIsDistance(|popped|, |pushed|, capacity);
      r := head == tail;
    }

    method Size() returns (n: nat)
      requires Valid()
      ensures n == |Held()|
    {
      SizeIsDistance(|popped|, |pushed|, capacity);
      if tail >= head {
        return tail - head;
      }
      return capacity - (head - tail);
    }
  }
}
