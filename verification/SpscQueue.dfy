/** The single-producer single-consumer ring.  Each thread's operation is four atomic steps: load
    its own index, load the other thread's index, touch the slot, store its own index.  Either thread
    may also look at the fill level, which takes a load of each index.  The other thread may move between
    any two steps; and a load of its index need not return the newest store, only one that is no older
    than the store this thread has read before. */
module SpscQueue {
  import opened Bits

  /** The index that a look at the fill level loads first: size() loads head, empty() leaves it open. */
  datatype Side = Head | Tail

  datatype Producer<T> =
    | PushIdle
    | PushStarted(item: T, index: nat)
    | PushRoom(item: T, index: nat)
    | PushWritten(item: T, index: nat)
    | ProducerLooking(first: Side, index: nat)

  datatype Consumer<T> =
    | PopIdle
    | PopStarted(index: nat)
    | PopReady(index: nat)
    | PopRead(index: nat, item: T)
    | ConsumerLooking(first: Side, index: nat)

  /** The slots; all values ever stored in head and in tail, in order; which of them the other thread has
      read last; the two program counters with their registers; and the history: the items whose push has
      returned true and the items that pops have returned. */
  datatype Queue<T> = Queue(
    capacity: nat, buffer: seq<T>, heads: seq<nat>, tails: seq<nat>, headSeen: nat, tailSeen: nat,
    producer: Producer<T>, consumer: Consumer<T>,
    pushed: seq<T>, popped: seq<T>)

  /** A load of the other thread's index names the store it reads. */
  datatype Action<T> =
    | LoadTail(item: T) | CheckFull(seen: nat) | WriteSlot | StoreTail
    | LoadHead | CheckEmpty(seen: nat) | ReadSlot | StoreHead
    | ProducerLoads(first: Side, seen: nat) | ProducerAnswers(seen: nat)
    | ConsumerLoads(first: Side, seen: nat) | ConsumerAnswers(seen: nat)

  /** (i + 1) & (capacity - 1). */
  function Successor(i: nat, capacity: nat): nat
    requires capacity > 0
  {
    And(i + 1, capacity - 1)
  }

  function Last(stores: seq<nat>): nat
    requires stores != []
  {
    stores[|stores| - 1]
  }

  /** What size() computes from its two loads. */
  function SizeOf(head: nat, tail: nat, capacity: nat): int {
    if tail >= head then tail - head else capacity - (head - tail)
  }

  predicate WellFormed<T>(q: Queue<T>) {
    q.capacity > 0 && |q.buffer| == q.capacity && q.heads != [] && q.tails != []
    && (q.producer.PushRoom? ==> q.producer.index < q.capacity)
    && (q.consumer.PopReady? ==> q.consumer.index < q.capacity)
  }

  /** The producer's next load of head may read this store, the consumer's next load of tail that one. */
  predicate MayReadHead<T>(q: Queue<T>, seen: nat) {
    q.headSeen <= seen < |q.heads|
  }

  predicate MayReadTail<T>(q: Queue<T>, seen: nat) {
    q.tailSeen <= seen < |q.tails|
  }

  /** One atomic step; an action that its thread is not ready for, or a load that is not possible, does
      nothing. */
  function Step<T>(q: Queue<T>, a: Action<T>): Queue<T>
    requires WellFormed(q)
  {
    match (a, q.producer, q.consumer)
    case (LoadTail(item), PushIdle, _) => q.(producer := PushStarted(item, Last(q.tails)))
    case (CheckFull(seen), PushStarted(item, i), _) =>
      if !MayReadHead(q, seen) then q
      else if Successor(i, q.capacity) == q.heads[seen] then q.(headSeen := seen, producer := PushIdle)
      else q.(headSeen := seen, producer := PushRoom(item, i))
    case (WriteSlot, PushRoom(item, i), _) => q.(buffer := q.buffer[i := item], producer := PushWritten(item, i))
    case (StoreTail, PushWritten(item, i), _) =>
      q.(tails := q.tails + [Successor(i, q.capacity)], producer := PushIdle, pushed := q.pushed + [item])
    case (LoadHead, _, PopIdle) => q.(consumer := PopStarted(Last(q.heads)))
    case (CheckEmpty(seen), _, PopStarted(i)) =>
      if !MayReadTail(q, seen) then q
      else if i == q.tails[seen] then q.(tailSeen := seen, consumer := PopIdle)
      else q.(tailSeen := seen, consumer := PopReady(i))
    case (ReadSlot, _, PopReady(i)) => q.(consumer := PopRead(i, q.buffer[i]))
    case (StoreHead, _, PopRead(i, item)) =>
      q.(heads := q.heads + [Successor(i, q.capacity)], consumer := PopIdle, popped := q.popped + [item])
    case (ProducerLoads(Tail, _), PushIdle, _) => q.(producer := ProducerLooking(Tail, Last(q.tails)))
    case (ProducerLoads(Head, seen), PushIdle, _) =>
      if !MayReadHead(q, seen) then q
      else q.(headSeen := seen, producer := ProducerLooking(Head, q.heads[seen]))
    case (ProducerAnswers(_), ProducerLooking(Head, _), _) => q.(producer := PushIdle)
    case (ProducerAnswers(seen), ProducerLooking(Tail, _), _) =>
      if !MayReadHead(q, seen) then q else q.(headSeen := seen, producer := PushIdle)
    case (ConsumerLoads(Head, _), _, PopIdle) => q.(consumer := ConsumerLooking(Head, Last(q.heads)))
    case (ConsumerLoads(Tail, seen), _, PopIdle) =>
      if !MayReadTail(q, seen) then q
      else q.(tailSeen := seen, consumer := ConsumerLooking(Tail, q.tails[seen]))
    case (ConsumerAnswers(_), _, ConsumerLooking(Tail, _)) => q.(consumer := PopIdle)
    case (ConsumerAnswers(seen), _, ConsumerLooking(Head, _)) =>
      if !MayReadTail(q, seen) then q else q.(tailSeen := seen, consumer := PopIdle)
    case _ => q
  }

  // ---------- The abstract queue ----------

  /** A completed operation, or nothing.  A look is answered with what empty() and size() return. */
  datatype Event<T> =
    | Internal | Enqueued(item: T) | RefusedFull | Dequeued(item: T) | RefusedEmpty
    | ProducerSees(empty: bool, size: int) | ConsumerSees(empty: bool, size: int)

  /** What a step shows to the outside. */
  function EventOf<T>(q: Queue<T>, a: Action<T>): Event<T>
    requires WellFormed(q)
  {
    match (a, q.producer, q.consumer)
    case (CheckFull(seen), PushStarted(item, i), _) =>
      if MayReadHead(q, seen) && Successor(i, q.capacity) == q.heads[seen] then RefusedFull else Internal
    case (StoreTail, PushWritten(item, i), _) => Enqueued(item)
    case (CheckEmpty(seen), _, PopStarted(i)) =>
      if MayReadTail(q, seen) && i == q.tails[seen] then RefusedEmpty else Internal
    case (StoreHead, _, PopRead(i, item)) => Dequeued(item)
    case (ProducerAnswers(_), ProducerLooking(Head, h), _) =>
      ProducerSees(h == Last(q.tails), SizeOf(h, Last(q.tails), q.capacity))
    case (ProducerAnswers(seen), ProducerLooking(Tail, t), _) =>
      if !MayReadHead(q, seen) then Internal
      else ProducerSees(q.heads[seen] == t, SizeOf(q.heads[seen], t, q.capacity))
    case (ConsumerAnswers(_), _, ConsumerLooking(Tail, t)) =>
      ConsumerSees(Last(q.heads) == t, SizeOf(Last(q.heads), t, q.capacity))
    case (ConsumerAnswers(seen), _, ConsumerLooking(Head, h)) =>
      if !MayReadTail(q, seen) then Internal
      else ConsumerSees(h == q.tails[seen], SizeOf(h, q.tails[seen], q.capacity))
    case _ => Internal
  }

  /** What a FIFO queue of n places that holds c may do.  To the producer it may look fuller than it is,
      to the consumer emptier, for the other thread may have moved on since the store that was read ... */
  predicate Allowed<T(==)>(n: nat, c: seq<T>, e: Event<T>) {
    match e
    case Internal => true
    case Enqueued(_) => |c| < n
    case RefusedFull => |c| == n
    case Dequeued(x) => c != [] && x == c[0]
    case RefusedEmpty => c == []
    case ProducerSees(empty, size) => |c| <= size <= n && (empty <==> size == 0)
    case ConsumerSees(empty, size) => 0 <= size <= |c| && (empty <==> size == 0)
  }

  /** ... and what it holds afterwards. */
  function After<T>(c: seq<T>, e: Event<T>): seq<T> {
    match e
    case Enqueued(x) => c + [x]
    case Dequeued(_) => if c == [] then c else c[1..]
    case _ => c
  }

  /** A whole history a FIFO queue of n places could have. */
  predicate Legal<T(==)>(n: nat, c: seq<T>, events: seq<Event<T>>)
    decreases |events|
  {
    events == [] || (Allowed(n, c, events[0]) && Legal(n, After(c, events[0]), events[1..]))
  }

  function AfterAll<T>(c: seq<T>, events: seq<Event<T>>): seq<T>
    decreases |events|
  {
    if events == [] then c else AfterAll(After(c, events[0]), events[1..])
  }

  /** The elements pushed and not yet popped. */
  function Contents<T>(q: Queue<T>): seq<T>
    requires |q.popped| <= |q.pushed|
  {
    q.pushed[|q.popped|..]
  }

  // ---------- The invariant ----------

  /** Store k of an index, counted from the initial one, is the slot of position k. */
  ghost predicate Stores(stores: seq<nat>, n: nat, capacity: nat) {
    capacity > 0 && |stores| == n + 1 && forall k :: 0 <= k < |stores| ==> stores[k] == k % capacity
  }

  ghost predicate ProducerInv<T>(q: Queue<T>)
    requires q.capacity > 0
  {
    match q.producer
    case PushIdle => true
    case PushStarted(_, i) => i == |q.pushed| % q.capacity
    case PushRoom(_, i) => i == |q.pushed| % q.capacity && |q.pushed| + 2 <= q.headSeen + q.capacity
    case PushWritten(item, i) =>
      && i == |q.pushed| % q.capacity && i < |q.buffer|
      && |q.pushed| + 2 <= q.headSeen + q.capacity && q.buffer[i] == item
    case ProducerLooking(Head, i) => i == q.headSeen % q.capacity
    case ProducerLooking(Tail, i) => i == |q.pushed| % q.capacity
  }

  ghost predicate ConsumerInv<T>(q: Queue<T>)
    requires q.capacity > 0
  {
    match q.consumer
    case PopIdle => true
    case PopStarted(i) => i == |q.popped| % q.capacity
    case PopReady(i) => i == |q.popped| % q.capacity && |q.popped| < q.tailSeen
    case PopRead(i, item) =>
      && i == |q.popped| % q.capacity && |q.popped| < q.tailSeen <= |q.pushed|
      && item == q.pushed[|q.popped|]
    case ConsumerLooking(Head, i) => i == |q.popped| % q.capacity
    case ConsumerLooking(Tail, i) => i == q.tailSeen % q.capacity
  }

  /** The slots from head to tail hold exactly what was pushed and not yet popped. */
  ghost predicate SlotsHold<T>(q: Queue<T>)
    requires q.capacity > 0 && |q.buffer| == q.capacity
  {
    forall k :: |q.popped| <= k < |q.pushed| ==> q.buffer[k % q.capacity] == q.pushed[k]
  }

  ghost predicate Inv<T>(q: Queue<T>) {
    && WellFormed(q) && PowerOfTwo(q.capacity)
    && q.headSeen <= |q.popped| <= q.tailSeen <= |q.pushed| < q.headSeen + q.capacity
    && Stores(q.heads, |q.popped|, q.capacity)
    && Stores(q.tails, |q.pushed|, q.capacity)
    && q.popped == q.pushed[..|q.popped|]
    && SlotsHold(q)
    && ProducerInv(q)
    && ConsumerInv(q)
  }

  lemma SuccessorIsMod(i: nat, capacity: nat)
    requires PowerOfTwo(capacity)
    ensures capacity > 0 && Successor(i, capacity) == (i + 1) % capacity
  {
    var k: nat :| Pow2(k) == capacity;
    MaskIsMod(i + 1, k);
  }

  /** Positions less than a lap apart share a slot only when they are equal. */
  lemma SameSlot(a: nat, b: nat, m: nat)
    requires m > 0 && a <= b <= a + m
    ensures a % m == b % m <==> b == a || b == a + m
  {
    var q, r := a / m, a % m;
    assert a == q * m + r;
    if b == a + m {
      assert b == (q + 1) * m + r;
      RemainderUnique(b, m, q + 1, r);
    } else if r + (b - a) < m {
      RemainderUnique(b, m, q, r + (b - a));
    } else {
      assert b == (q + 1) * m + (r + (b - a) - m);
      RemainderUnique(b, m, q + 1, r + (b - a) - m);
    }
  }

  lemma ModSuccessor(a: nat, m: nat)
    requires m > 0
    ensures (a % m + 1) % m == (a + 1) % m
  {
    var q, r := a / m, a % m;
    assert a == q * m + r;
    if r + 1 < m {
      RemainderUnique(a + 1, m, q, r + 1);
      RemainderUnique(r + 1, m, 0, r + 1);
    } else {
      assert a + 1 == (q + 1) * m + 0;
      RemainderUnique(a + 1, m, q + 1, 0);
      assert m == 1 * m + 0;
      RemainderUnique(m, m, 1, 0);
    }
  }

  lemma NextSlot(n: nat, capacity: nat)
    requires PowerOfTwo(capacity)
    ensures capacity > 0 && Successor(n % capacity, capacity) == (n + 1) % capacity
  {
    hide Successor, PowerOfTwo;
    SuccessorIsMod(n, capacity);
    SuccessorIsMod(n % capacity, capacity);
    ModSuccessor(n, capacity);
  }

  /** A push is refused exactly when the ring is full up to the store of head it reads.  The refusal is
      right exactly when that store is the newest one; a push that is not refused always has room. */
  lemma PushRefusal<T>(q: Queue<T>, seen: nat)
    requires Inv(q) && q.producer.PushStarted? && MayReadHead(q, seen)
    ensures EventOf(q, CheckFull(seen)) in {RefusedFull, Internal}
    ensures EventOf(q, CheckFull(seen)) == RefusedFull <==> |q.pushed| - seen == q.capacity - 1
    ensures EventOf(q, CheckFull(seen)) == RefusedFull ==>
              (|Contents(q)| == q.capacity - 1 <==> seen == |q.heads| - 1)
    ensures EventOf(q, CheckFull(seen)) != RefusedFull ==> |Contents(q)| < q.capacity - 1
  {
    hide PowerOfTwo, Successor, SlotsHold;
    NextSlot(|q.pushed|, q.capacity);
    SameSlot(seen, |q.pushed| + 1, q.capacity);
  }

  /** A pop is refused exactly when it reads the store of tail that its own head has reached.  The refusal
      is right exactly when that store is the newest one; a pop that is not refused always has an item. */
  lemma PopRefusal<T>(q: Queue<T>, seen: nat)
    requires Inv(q) && q.consumer.PopStarted? && MayReadTail(q, seen)
    ensures EventOf(q, CheckEmpty(seen)) in {RefusedEmpty, Internal}
    ensures EventOf(q, CheckEmpty(seen)) == RefusedEmpty <==> seen == |q.popped|
    ensures EventOf(q, CheckEmpty(seen)) == RefusedEmpty ==> (Contents(q) == [] <==> seen == |q.tails| - 1)
    ensures EventOf(q, CheckEmpty(seen)) != RefusedEmpty ==> Contents(q) != []
  {
    hide PowerOfTwo, Successor, SlotsHold;
    SameSlot(|q.popped|, seen, q.capacity);
  }

  /** The slot about to be written is never the slot about to be read. */
  lemma NoSlotConflict<T>(q: Queue<T>)
    requires Inv(q)
    requires (q.producer.PushRoom? || q.producer.PushWritten?) && (q.consumer.PopReady? || q.consumer.PopRead?)
    ensures q.producer.index != q.consumer.index
  {
    SameSlot(|q.popped|, |q.pushed|, q.capacity);
  }

  /** Every access of a slot is ordered after the other thread's accesses of it that matter, by a store that
      this thread has read: whatever the slot held before it is written has been popped at a store of head
      that the producer has seen, and what is read was pushed at a store of tail that the consumer has seen. */
  lemma SlotAccessesAreOrdered<T>(q: Queue<T>, k: nat)
    requires Inv(q)
    ensures q.producer.PushRoom? && k < |q.pushed| && k % q.capacity == q.producer.index ==> k < q.headSeen
    ensures q.consumer.PopReady? ==> |q.popped| < q.tailSeen
  {
    if q.producer.PushRoom? && k < |q.pushed| <= k + q.capacity {
      SameSlot(k, |q.pushed|, q.capacity);
    }
  }

  /** The stores that the two loads of the producer's look read, when they are possible. */
  lemma ProducerLook<T>(q: Queue<T>, seen: nat)
    requires Inv(q) && q.producer.ProducerLooking? && (q.producer.first == Tail ==> MayReadHead(q, seen))
    ensures var popped := if q.producer.first == Head then q.headSeen else seen;
            var size := |q.pushed| - popped;
            && EventOf(q, ProducerAnswers(seen)) == ProducerSees(size == 0, size)
            && |Contents(q)| <= size <= q.capacity - 1
            && (size == |Contents(q)| <==> popped == |q.heads| - 1)
            && Step(q, ProducerAnswers(seen)).headSeen == popped
  {
    hide PowerOfTwo, SlotsHold;
    SizeIsDistance(if q.producer.first == Head then q.headSeen else seen, |q.pushed|, q.capacity);
  }

  lemma ConsumerLook<T>(q: Queue<T>, seen: nat)
    requires Inv(q) && q.consumer.ConsumerLooking? && (q.consumer.first == Head ==> MayReadTail(q, seen))
    ensures var pushed := if q.consumer.first == Tail then q.tailSeen else seen;
            var size := pushed - |q.popped|;
            && EventOf(q, ConsumerAnswers(seen)) == ConsumerSees(size == 0, size)
            && 0 <= size <= |Contents(q)| <= q.capacity - 1
            && (size == |Contents(q)| <==> pushed == |q.tails| - 1)
            && Step(q, ConsumerAnswers(seen)).tailSeen == pushed
  {
    hide PowerOfTwo, SlotsHold;
    SizeIsDistance(|q.popped|, if q.consumer.first == Tail then q.tailSeen else seen, q.capacity);
  }

  lemma SizeIsDistance(a: nat, b: nat, m: nat)
    requires m > 0 && a <= b < a + m
    ensures SizeOf(a % m, b % m, m) == b - a
    ensures a % m == b % m <==> a == b
  {
    SlotDistance(a, b, m);
    SameSlot(a, b, m);
  }

  lemma WriteSlotKeepsInv<T>(q: Queue<T>)
    requires Inv(q) && q.producer.PushRoom?
    ensures Inv(Step(q, WriteSlot))
  {
    hide PowerOfTwo, Stores;
    var q' := Step(q, WriteSlot);
    forall k | |q.popped| <= k < |q.pushed| ensures q'.buffer[k % q.capacity] == q.pushed[k] {
      SameSlot(k, |q.pushed|, q.capacity);
    }
  }

  lemma StoreTailKeepsInv<T>(q: Queue<T>)
    requires Inv(q) && q.producer.PushWritten?
    ensures Inv(Step(q, StoreTail))
  {
    hide PowerOfTwo, Successor;
    NextSlot(|q.pushed|, q.capacity);
  }

  lemma StoreHeadKeepsInv<T>(q: Queue<T>)
    requires Inv(q) && q.consumer.PopRead?
    ensures Inv(Step(q, StoreHead))
  {
    hide PowerOfTwo, Successor;
    NextSlot(|q.popped|, q.capacity);
  }

  lemma CheckFullKeepsInv<T>(q: Queue<T>, seen: nat)
    requires Inv(q) && q.producer.PushStarted?
    ensures Inv(Step(q, CheckFull(seen)))
  {
    hide PowerOfTwo, Successor;
    if MayReadHead(q, seen) {
      PushRefusal(q, seen);
    }
  }

  lemma CheckEmptyKeepsInv<T>(q: Queue<T>, seen: nat)
    requires Inv(q) && q.consumer.PopStarted?
    ensures Inv(Step(q, CheckEmpty(seen)))
  {
    hide PowerOfTwo, Successor;
    if MayReadTail(q, seen) {
      PopRefusal(q, seen);
    }
  }

  lemma IsWellFormed<T>(q: Queue<T>)
    requires Inv(q)
    ensures WellFormed(q)
  {
  }

  lemma LooksKeepInv<T>(q: Queue<T>, a: Action<T>)
    requires Inv(q) && (a.ProducerLoads? || a.ProducerAnswers? || a.ConsumerLoads? || a.ConsumerAnswers?)
    ensures Inv(Step(q, a))
  {
    hide PowerOfTwo, Successor;
  }

  lemma LoadsKeepInv<T>(q: Queue<T>, a: Action<T>)
    requires Inv(q) && (a.LoadTail? || a.LoadHead? || a.ReadSlot?)
    ensures Inv(Step(q, a))
  {
    hide PowerOfTwo, Successor;
  }

  /** Every atomic step, in every state, keeps the invariant. */
  lemma StepKeepsInv<T>(q: Queue<T>, a: Action<T>)
    requires Inv(q)
    ensures Inv(Step(q, a))
  {
    hide Inv, WellFormed;
    IsWellFormed(q);
    if Step(q, a) != q {
      match a
      case CheckFull(seen) => CheckFullKeepsInv(q, seen);
      case WriteSlot => WriteSlotKeepsInv(q);
      case StoreTail => StoreTailKeepsInv(q);
      case CheckEmpty(seen) => CheckEmptyKeepsInv(q, seen);
      case StoreHead => StoreHeadKeepsInv(q);
      case LoadTail(_) => LoadsKeepInv(q, a);
      case LoadHead => LoadsKeepInv(q, a);
      case ReadSlot => LoadsKeepInv(q, a);
      case _ => LooksKeepInv(q, a);
    }
  }

  /** A refusal on the strength of a store that is no longer the newest. */
  predicate StaleRefusal<T>(q: Queue<T>, a: Action<T>)
    requires WellFormed(q)
  {
    || (a.CheckFull? && EventOf(q, a).RefusedFull? && a.seen < |q.heads| - 1)
    || (a.CheckEmpty? && EventOf(q, a).RefusedEmpty? && a.seen < |q.tails| - 1)
  }

  lemma OtherStepsMoveNothing<T>(q: Queue<T>, a: Action<T>)
    requires WellFormed(q) && !a.StoreTail? && !a.StoreHead?
    ensures Step(q, a).pushed == q.pushed && Step(q, a).popped == q.popped
    ensures !EventOf(q, a).Enqueued? && !EventOf(q, a).Dequeued?
  {
  }

  lemma StoreTailMoves<T>(q: Queue<T>)
    requires WellFormed(q) && |q.popped| <= |q.pushed|
    ensures |Step(q, StoreTail).popped| <= |Step(q, StoreTail).pushed|
    ensures Contents(Step(q, StoreTail)) == After(Contents(q), EventOf(q, StoreTail))
  {
    hide Successor, SizeOf;
  }

  lemma StoreHeadMoves<T>(q: Queue<T>)
    requires WellFormed(q) && |q.popped| <= |q.pushed| && (q.consumer.PopRead? ==> |q.popped| < |q.pushed|)
    ensures |Step(q, StoreHead).popped| <= |Step(q, StoreHead).pushed|
    ensures Contents(Step(q, StoreHead)) == After(Contents(q), EventOf(q, StoreHead))
  {
    hide Successor, SizeOf;
  }

  lemma ReadItemIsThere<T>(q: Queue<T>)
    requires Inv(q)
    ensures WellFormed(q) && |q.popped| <= |q.pushed| && (q.consumer.PopRead? ==> |q.popped| < |q.pushed|)
  {
  }

  lemma StepMovesContents<T>(q: Queue<T>, a: Action<T>)
    requires Inv(q)
    ensures |Step(q, a).popped| <= |Step(q, a).pushed|
    ensures Contents(Step(q, a)) == After(Contents(q), EventOf(q, a))
  {
    ReadItemIsThere(q);
    hide Inv, Step, EventOf;
    if a.StoreTail? {
      StoreTailMoves(q);
    } else if a.StoreHead? {
      StoreHeadMoves(q);
    } else {
      OtherStepsMoveNothing(q, a);
    }
  }

  lemma LooksAreAllowed<T>(q: Queue<T>, seen: nat)
    requires Inv(q)
    ensures Allowed(q.capacity - 1, Contents(q), EventOf(q, ProducerAnswers(seen)))
    ensures Allowed(q.capacity - 1, Contents(q), EventOf(q, ConsumerAnswers(seen)))
  {
    hide PowerOfTwo, Successor, SlotsHold, SizeOf, Stores;
    if q.producer.ProducerLooking? && (q.producer.first == Head || MayReadHead(q, seen)) {
      ProducerLook(q, seen);
    }
    if q.consumer.ConsumerLooking? && (q.consumer.first == Tail || MayReadTail(q, seen)) {
      ConsumerLook(q, seen);
    }
  }

  lemma ChecksAreAllowed<T>(q: Queue<T>, seen: nat)
    requires Inv(q)
    ensures Allowed(q.capacity - 1, Contents(q), EventOf(q, CheckFull(seen))) <==> !StaleRefusal(q, CheckFull(seen))
    ensures Allowed(q.capacity - 1, Contents(q), EventOf(q, CheckEmpty(seen))) <==> !StaleRefusal(q, CheckEmpty(seen))
  {
    hide PowerOfTwo, Successor, SlotsHold, SizeOf, Stores;
    if q.producer.PushStarted? && MayReadHead(q, seen) {
      PushRefusal(q, seen);
    }
    if q.consumer.PopStarted? && MayReadTail(q, seen) {
      PopRefusal(q, seen);
    }
  }

  lemma OthersAreAllowed<T>(q: Queue<T>, a: Action<T>)
    requires Inv(q) && !a.CheckFull? && !a.CheckEmpty? && !a.ProducerAnswers? && !a.ConsumerAnswers?
    ensures Allowed(q.capacity - 1, Contents(q), EventOf(q, a)) && !StaleRefusal(q, a)
  {
    hide PowerOfTwo, Successor, SlotsHold, SizeOf, Stores;
  }

  /** Every atomic step moves the contents as a FIFO queue with capacity - 1 places does, and is a step of
      that queue if and only if it is no refusal on a stale store. */
  lemma StepRefinesFifo<T>(q: Queue<T>, a: Action<T>)
    requires Inv(q)
    ensures Inv(Step(q, a))
    ensures Allowed(q.capacity - 1, Contents(q), EventOf(q, a)) <==> !StaleRefusal(q, a)
    ensures Contents(Step(q, a)) == After(Contents(q), EventOf(q, a))
  {
    StepKeepsInv(q, a);
    StepMovesContents(q, a);
    hide Step, EventOf, Allowed, Contents, After;
    match a
    case CheckFull(seen) => ChecksAreAllowed(q, seen);
    case CheckEmpty(seen) => ChecksAreAllowed(q, seen);
    case ProducerAnswers(seen) => LooksAreAllowed(q, seen);
    case ConsumerAnswers(seen) => LooksAreAllowed(q, seen);
    case _ => OthersAreAllowed(q, a);
  }

  // ---------- Interleavings ----------

  /** A new queue, whatever its slots contain. */
  function Empty<T>(capacity: nat, buffer: seq<T>): Queue<T> {
    Queue(capacity, buffer, [0], [0], 0, 0, PushIdle, PopIdle, [], [])
  }

  ghost function Next<T>(q: Queue<T>, a: Action<T>): (r: Queue<T>)
    requires Inv(q)
    ensures Inv(r) && r.capacity == q.capacity
  {
    StepKeepsInv(q, a);
    Step(q, a)
  }

  /** The state after an interleaving of the two threads' steps. */
  ghost function Run<T>(q: Queue<T>, actions: seq<Action<T>>): (r: Queue<T>)
    requires Inv(q)
    ensures Inv(r) && r.capacity == q.capacity
    decreases |actions|
  {
    if actions == [] then q else Run(Next(q, actions[0]), actions[1..])
  }

  /** The events of an interleaving. */
  ghost function Events<T>(q: Queue<T>, actions: seq<Action<T>>): seq<Event<T>>
    requires Inv(q)
    decreases |actions|
  {
    if actions == [] then [] else [EventOf(q, actions[0])] + Events(Next(q, actions[0]), actions[1..])
  }

  /** Every refused operation of an interleaving has read the newest store. */
  ghost predicate RefusalsAreFresh<T>(q: Queue<T>, actions: seq<Action<T>>)
    requires Inv(q)
    decreases |actions|
  {
    actions == [] || (!StaleRefusal(q, actions[0]) && RefusalsAreFresh(Next(q, actions[0]), actions[1..]))
  }

  lemma NextRefinesFifo<T>(q: Queue<T>, a: Action<T>)
    requires Inv(q)
    ensures Allowed(q.capacity - 1, Contents(q), EventOf(q, a)) <==> !StaleRefusal(q, a)
    ensures Contents(Next(q, a)) == After(Contents(q), EventOf(q, a))
  {
    hide EventOf, Step, Inv, Contents, Allowed, After, StaleRefusal;
    StepRefinesFifo(q, a);
  }

  /** Any interleaving of the two threads moves the contents as a FIFO queue of capacity - 1 places does,
      and is a history of that queue if and only if every refusal in it has read the newest store. */
  lemma {:induction false} RunRefinesFifo<T>(q: Queue<T>, actions: seq<Action<T>>)
    requires Inv(q)
    ensures Legal(q.capacity - 1, Contents(q), Events(q, actions)) <==> RefusalsAreFresh(q, actions)
    ensures AfterAll(Contents(q), Events(q, actions)) == Contents(Run(q, actions))
    decreases |actions|
  {
    hide EventOf, Step, Inv, Contents, Allowed, After, Next, StaleRefusal;
    if actions != [] {
      NextRefinesFifo(q, actions[0]);
      RunRefinesFifo(Next(q, actions[0]), actions[1..]);
      assert Events(q, actions)[1..] == Events(Next(q, actions[0]), actions[1..]);
    }
  }

  /** Every load of the other thread's index that decides a push or a pop reads the newest store. */
  ghost predicate LoadsAreNewest<T>(q: Queue<T>, actions: seq<Action<T>>)
    requires Inv(q)
    decreases |actions|
  {
    actions == []
    || (var a := actions[0];
        && (a.CheckFull? ==> a.seen == |q.heads| - 1)
        && (a.CheckEmpty? ==> a.seen == |q.tails| - 1)
        && LoadsAreNewest(Next(q, a), actions[1..]))
  }

  /** Under sequential consistency every interleaving is a history of that queue. */
  lemma {:induction false} NewestLoadsAreFifo<T>(q: Queue<T>, actions: seq<Action<T>>)
    requires Inv(q) && LoadsAreNewest(q, actions)
    ensures RefusalsAreFresh(q, actions) && Legal(q.capacity - 1, Contents(q), Events(q, actions))
    decreases |actions|
  {
    RunRefinesFifo(q, actions);
    hide Inv, Next, Legal, Contents, Events, EventOf;
    if actions != [] {
      NewestLoadsAreFifo(Next(q, actions[0]), actions[1..]);
    }
  }

  /** From an empty queue of power-of-two capacity, after any interleaving, whichever stores the loads
      read: what was popped is a prefix of what was pushed, at most capacity - 1 items are in between, the
      slots from head on hold them, and no slot is being written and read at once. */
  lemma EveryInterleaving<T>(capacity: nat, buffer: seq<T>, actions: seq<Action<T>>)
    requires PowerOfTwo(capacity) && |buffer| == capacity
    ensures Inv(Empty(capacity, buffer))
    ensures var q := Run(Empty(capacity, buffer), actions);
            && q.popped <= q.pushed
            && |q.pushed| - |q.popped| <= capacity - 1
            && (forall k :: 0 <= k < |q.pushed| - |q.popped| ==>
                  q.buffer[(|q.popped| + k) % capacity] == Contents(q)[k])
            && ((q.producer.PushRoom? || q.producer.PushWritten?) && (q.consumer.PopReady? || q.consumer.PopRead?) ==>
                  q.producer.index != q.consumer.index)
  {
    var k: nat :| Pow2(k) == capacity;
    assert 0 % capacity == 0;
    var q := Run(Empty(capacity, buffer), actions);
    if (q.producer.PushRoom? || q.producer.PushWritten?) && (q.consumer.PopReady? || q.consumer.PopRead?) {
      NoSlotConflict(q);
    }
  }

  // ---------- What a look is good for ----------

  /** How many items the consumer takes, and the producer adds, in a list of steps, at most. */
  function Pops<T>(actions: seq<Action<T>>): nat {
    if actions == [] then 0 else (if actions[0].StoreHead? then 1 else 0) + Pops(actions[1..])
  }

  function Pushes<T>(actions: seq<Action<T>>): nat {
    if actions == [] then 0 else (if actions[0].StoreTail? then 1 else 0) + Pushes(actions[1..])
  }

  lemma NextKeepsItems<T>(q: Queue<T>, a: Action<T>)
    requires Inv(q) && |q.popped| < q.tailSeen
    ensures EventOf(q, a) != RefusedEmpty
    ensures Next(q, a).tailSeen >= q.tailSeen
    ensures |Next(q, a).popped| <= |q.popped| + if a.StoreHead? then 1 else 0
  {
    hide PowerOfTwo, Successor, SlotsHold;
    if a.CheckEmpty? && q.consumer.PopStarted? && MayReadTail(q, a.seen) {
      PopRefusal(q, a.seen);
    }
  }

  /** As long as the consumer takes fewer items than it has seen, no pop is refused. */
  lemma {:induction false} ItemsStay<T>(q: Queue<T>, actions: seq<Action<T>>)
    requires Inv(q) && |q.popped| + Pops(actions) < q.tailSeen
    ensures RefusedEmpty !in Events(q, actions)
    decreases |actions|
  {
    hide EventOf, Step, Inv, Next;
    if actions != [] {
      NextKeepsItems(q, actions[0]);
      ItemsStay(Next(q, actions[0]), actions[1..]);
    }
  }

  lemma NextKeepsRoom<T>(q: Queue<T>, a: Action<T>)
    requires Inv(q) && |q.pushed| + 1 < q.headSeen + q.capacity
    ensures EventOf(q, a) != RefusedFull
    ensures Next(q, a).headSeen >= q.headSeen
    ensures |Next(q, a).pushed| <= |q.pushed| + if a.StoreTail? then 1 else 0
  {
    hide PowerOfTwo, Successor, SlotsHold;
    if a.CheckFull? && q.producer.PushStarted? && MayReadHead(q, a.seen) {
      PushRefusal(q, a.seen);
    }
  }

  /** As long as the producer adds fewer items than it has seen free places, no push is refused. */
  lemma {:induction false} RoomStays<T>(q: Queue<T>, actions: seq<Action<T>>)
    requires Inv(q) && |q.pushed| + Pushes(actions) + 1 < q.headSeen + q.capacity
    ensures RefusedFull !in Events(q, actions)
    decreases |actions|
  {
    hide EventOf, Step, Inv, Next;
    if actions != [] {
      NextKeepsRoom(q, actions[0]);
      RoomStays(Next(q, actions[0]), actions[1..]);
    }
  }

  lemma AnswersKeepHistory<T>(q: Queue<T>, seen: nat)
    requires Inv(q) && WellFormed(q)
    ensures Next(q, ProducerAnswers(seen)).pushed == q.pushed && Next(q, ConsumerAnswers(seen)).popped == q.popped
    ensures Next(q, ProducerAnswers(seen)) == Step(q, ProducerAnswers(seen))
    ensures Next(q, ConsumerAnswers(seen)) == Step(q, ConsumerAnswers(seen))
  {
    hide Inv;
  }

  /** As many pops as size() tells the consumer succeed, so one does when empty() is false; as many pushes
      succeed as size() tells the producer there are places.  The other thread may do what it likes, and
      the loads may read what they may. */
  lemma LookPromises<T>(q: Queue<T>, seen: nat, actions: seq<Action<T>>)
    requires Inv(q)
    ensures q.consumer.ConsumerLooking? && (q.consumer.first == Head ==> MayReadTail(q, seen)) ==>
              var answer := EventOf(q, ConsumerAnswers(seen));
              && answer.ConsumerSees? && (!answer.empty <==> answer.size > 0)
              && (Pops(actions) < answer.size ==> RefusedEmpty !in Events(Next(q, ConsumerAnswers(seen)), actions))
    ensures q.producer.ProducerLooking? && (q.producer.first == Tail ==> MayReadHead(q, seen)) ==>
              var answer := EventOf(q, ProducerAnswers(seen));
              && answer.ProducerSees?
              && (answer.size + Pushes(actions) < q.capacity - 1 ==>
                    RefusedFull !in Events(Next(q, ProducerAnswers(seen)), actions))
  {
    hide EventOf, Step, Inv, Contents, Next, Events, Pops, Pushes;
    IsWellFormed(q);
    AnswersKeepHistory(q, seen);
    if q.consumer.ConsumerLooking? && (q.consumer.first == Head ==> MayReadTail(q, seen)) {
      ConsumerLook(q, seen);
      if Pops(actions) < EventOf(q, ConsumerAnswers(seen)).size {
        ItemsStay(Next(q, ConsumerAnswers(seen)), actions);
      }
    }
    if q.producer.ProducerLooking? && (q.producer.first == Tail ==> MayReadHead(q, seen)) {
      ProducerLook(q, seen);
      if EventOf(q, ProducerAnswers(seen)).size + Pushes(actions) < q.capacity - 1 {
        RoomStays(Next(q, ProducerAnswers(seen)), actions);
      }
    }
  }

  lemma NextGrows<T>(q: Queue<T>, a: Action<T>)
    requires Inv(q)
    ensures |q.pushed| <= |Next(q, a).pushed| && |q.popped| <= |Next(q, a).popped|
  {
    hide Inv;
  }

  /** The histories only grow. */
  lemma {:induction false} HistoriesGrow<T>(q: Queue<T>, actions: seq<Action<T>>)
    requires Inv(q)
    ensures var r := Run(q, actions);
            |q.pushed| <= |r.pushed| && |q.popped| <= |r.popped|
    decreases |actions|
  {
    hide Inv, Next;
    if actions != [] {
      NextGrows(q, actions[0]);
      HistoriesGrow(Next(q, actions[0]), actions[1..]);
    }
  }

  lemma StoreIsPosition<T>(q: Queue<T>, k: nat)
    requires Inv(q)
    ensures k < |q.heads| ==> q.heads[k] == k % q.capacity
    ensures k < |q.tails| ==> q.tails[k] == k % q.capacity
    ensures |q.heads| == |q.popped| + 1 && |q.tails| == |q.pushed| + 1 && q.capacity > 0
  {
  }

  /** Any other thread reads some store h of head, and later some store t of tail.  It is told a number
      below the capacity: the items pushed by store t less those popped by store h, modulo the capacity. */
  lemma OutsiderSees<T>(q: Queue<T>, actions: seq<Action<T>>, h: nat, t: nat)
    requires Inv(q) && h < |q.heads| && t < |Run(q, actions).tails|
    ensures h <= |q.popped| && t <= |Run(q, actions).pushed|
    ensures SizeOf(q.heads[h], Run(q, actions).tails[t], q.capacity) == (t - h) % q.capacity
  {
    hide Inv, SizeOf;
    StoreIsPosition(q, h);
    StoreIsPosition(Run(q, actions), t);
    DistanceModulo(h, t, q.capacity);
  }

  lemma SlotDistance(a: nat, b: nat, m: nat)
    requires m > 0 && a <= b < a + m
    ensures b - a == if b % m >= a % m then b % m - a % m else m - (a % m - b % m)
  {
    var q, r := a / m, a % m;
    assert a == q * m + r;
    if r + (b - a) < m {
      RemainderUnique(b, m, q, r + (b - a));
    } else {
      assert b == (q + 1) * m + (r + (b - a) - m);
      RemainderUnique(b, m, q + 1, r + (b - a) - m);
    }
  }

  lemma DistanceModulo(a: nat, b: nat, m: nat)
    requires m > 0
    ensures SizeOf(a % m, b % m, m) == (b - a) % m
  {
    hide SizeOf;
    var q, r, q', r' := a / m, a % m, b / m, b % m;
    assert a == q * m + r && b == q' * m + r';
    LapsApart(q, r, q', r', m);
  }

  lemma LapsApart(q: nat, r: nat, q': nat, r': nat, m: nat)
    requires r < m && r' < m
    ensures SizeOf(r, r', m) == ((q' * m + r') - (q * m + r)) % m
  {
    var d := if r' >= r then r' - r else m - (r - r');
    var laps := if r' >= r then q' - q else q' - q - 1;
    Laps(q, q', laps, m, r' >= r);
    WholeLaps((q' * m + r') - (q * m + r), m, laps, d);
  }

  lemma Laps(q: nat, q': nat, laps: int, m: nat, same: bool)
    requires laps == if same then q' - q else q' - q - 1
    ensures laps * m == q' * m - q * m - if same then 0 else m
  {
  }

  lemma WholeLaps(x: int, m: nat, laps: int, d: nat)
    requires d < m && x == laps * m + d
    ensures x % m == d
  {
    var q, r := x / m, x % m;
    assert x == q * m + r;
    if q < laps {
      LapsGrow(q, laps, m);
    } else if laps < q {
      LapsGrow(laps, q, m);
    }
  }

  lemma LapsGrow(a: int, b: int, m: nat)
    requires a < b
    ensures a * m + m <= b * m
  {
    NonNegativeProduct(b - a - 1, m);
    assert b * m == a * m + m + (b - a - 1) * m;
  }

  lemma NonNegativeProduct(a: nat, m: nat)
    ensures a * m >= 0
  {
  }
}
