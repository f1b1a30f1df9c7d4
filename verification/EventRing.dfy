/** The single-producer single-consumer event ring of net_stubs.c. The two sides interleave freely, an event is copied
    into and out of its slot one word at a time, and each side checks the other's index once, before its copy. */
module EventRing {

  const SIZE: nat := 32
  const MASK: bv32 := 31
  /** net_event_t is a type, a socket id and a union of four words. */
  const WORDS: nat := 6

  type Event = seq<int>

  /** (i + 1) & NET_EVENT_QUEUE_MASK, for an index in range. */
  function NextIndex(i: nat): nat
  {
    (i + 1) % SIZE
  }

  /** The mask is the remainder, for every 32-bit index. */
  lemma MaskIsRemainder(x: bv32)
    ensures x & MASK == x % 32
  {
  }

  /** event_enqueue line by line: read head, check full, copy word j, publish. */
  datatype Producer =
    | Idle
    | ReadHead(event: Event)
    | CheckFull(event: Event, head: nat)
    | CopyIn(event: Event, head: nat, j: nat)
    | Publish(event: Event, head: nat)

  /** net_event_get line by line. */
  datatype Consumer =
    | Ready
    | ReadTail
    | CheckEmpty(tail: nat)
    | CopyOut(tail: nat, got: Event)
    | Release(tail: nat, got: Event)

  /** accepted and delivered are history: the events whose enqueue returned 0 and those that net_event_get returned. */
  datatype State = State(
    slots: seq<Event>,
    head: nat,
    tail: nat,
    producer: Producer,
    consumer: Consumer,
    accepted: seq<Event>,
    delivered: seq<Event>)

  datatype Action = Enqueue(event: Event) | Get | StepProducer | StepConsumer

  predicate Shaped(s: State)
  {
    && s.head < SIZE && s.tail < SIZE
    && |s.slots| == SIZE && (forall i :: 0 <= i < SIZE ==> |s.slots[i]| == WORDS)
    && (match s.producer
        case Idle => true
        case ReadHead(e) => |e| == WORDS
        case CheckFull(e, h) => |e| == WORDS && h < SIZE
        case CopyIn(e, h, j) => |e| == WORDS && h < SIZE && j <= WORDS
        case Publish(e, h) => |e| == WORDS && h < SIZE)
    && (match s.consumer
        case CheckEmpty(t) => t < SIZE
        case CopyOut(t, got) => t < SIZE && |got| <= WORDS
        case Release(t, got) => t < SIZE
        case _ => true)
  }

  predicate Enabled(s: State, a: Action)
  {
    && Shaped(s)
    && match a
       case Enqueue(e) => s.producer.Idle? && |e| == WORDS
       case Get => s.consumer.Ready?
       case StepProducer => !s.producer.Idle?
       case StepConsumer => !s.consumer.Ready?
  }

  function ProducerStep(s: State): State
    requires Shaped(s) && !s.producer.Idle?
  {
    match s.producer
    case ReadHead(e) => s.(producer := CheckFull(e, s.head))
    case CheckFull(e, h) =>
      if NextIndex(h) == s.tail then s.(producer := Idle) else s.(producer := CopyIn(e, h, 0))
    case CopyIn(e, h, j) =>
      if j == WORDS then s.(producer := Publish(e, h))
      else s.(slots := s.slots[h := s.slots[h][j := e[j]]], producer := CopyIn(e, h, j + 1))
    case Publish(e, h) => s.(head := NextIndex(h), producer := Idle, accepted := s.accepted + [e])
  }

  function ConsumerStep(s: State): State
    requires Shaped(s) && !s.consumer.Ready?
  {
    match s.consumer
    case ReadTail => s.(consumer := CheckEmpty(s.tail))
    case CheckEmpty(t) =>
      if t == s.head then s.(consumer := Ready) else s.(consumer := CopyOut(t, []))
    case CopyOut(t, got) =>
      if |got| == WORDS then s.(consumer := Release(t, got))
      else s.(consumer := CopyOut(t, got + [s.slots[t][|got|]]))
    case Release(t, got) => s.(tail := NextIndex(t), consumer := Ready, delivered := s.delivered + [got])
  }

  function Step(s: State, a: Action): State
    requires Enabled(s, a)
  {
    match a
    case Enqueue(e) => s.(producer := ReadHead(e))
    case Get => s.(consumer := ReadTail)
    case StepProducer => ProducerStep(s)
    case StepConsumer => ConsumerStep(s)
  }

  ghost predicate IsRun(s: State, run: seq<Action>)
    decreases |run|
  {
    run == [] || (Enabled(s, run[0]) && IsRun(Step(s, run[0]), run[1..]))
  }

  ghost function After(s: State, run: seq<Action>): State
    requires IsRun(s, run)
    decreases |run|
  {
    if run == [] then s else After(Step(s, run[0]), run[1..])
  }

  predicate Initial(s: State)
  {
    && Shaped(s) && s.head == 0 && s.tail == 0 && s.producer == Idle && s.consumer == Ready
    && s.accepted == [] && s.delivered == []
  }

  // The invariant

  predicate IndicesOk(s: State)
  {
    && |s.delivered| <= |s.accepted| <= |s.delivered| + SIZE - 1
    && s.head == |s.accepted| % SIZE && s.tail == |s.delivered| % SIZE
    && s.delivered <= s.accepted
    && (forall i :: 0 <= i < |s.accepted| ==> |s.accepted[i]| == WORDS)
  }

  /** Every pending event sits untorn in its slot. */
  predicate SlotsOk(s: State)
    requires Shaped(s)
  {
    forall i :: |s.delivered| <= i < |s.accepted| ==> s.slots[i % SIZE] == s.accepted[i]
  }

  predicate ProducerOk(s: State)
    requires Shaped(s)
  {
    match s.producer
    case Idle => true
    case ReadHead(e) => true
    case CheckFull(e, h) => h == s.head
    case CopyIn(e, h, j) =>
      h == s.head && |s.accepted| < |s.delivered| + SIZE - 1 && forall k :: 0 <= k < j ==> s.slots[h][k] == e[k]
    case Publish(e, h) => h == s.head && |s.accepted| < |s.delivered| + SIZE - 1 && s.slots[h] == e
  }

  predicate ConsumerOk(s: State)
    requires Shaped(s) && IndicesOk(s)
  {
    match s.consumer
    case Ready => true
    case ReadTail => true
    case CheckEmpty(t) => t == s.tail
    case CopyOut(t, got) => t == s.tail && |s.delivered| < |s.accepted| && got == s.accepted[|s.delivered|][..|got|]
    case Release(t, got) => t == s.tail && |s.delivered| < |s.accepted| && got == s.accepted[|s.delivered|]
  }

  predicate Inv(s: State)
  {
    Shaped(s) && IndicesOk(s) && SlotsOk(s) && ProducerOk(s) && ConsumerOk(s)
  }

  lemma NextIndexSteps(n: nat)
    ensures NextIndex(n % SIZE) == (n + 1) % SIZE
  {
  }

  lemma DistinctSlots(i: nat, j: nat)
    requires i < j < i + SIZE
    ensures i % SIZE != j % SIZE
  {
  }

  lemma CopyKeepsInv(s: State)
    requires Inv(s) && s.producer.CopyIn?
    ensures Inv(ProducerStep(s))
  {
    var s' := ProducerStep(s);
    forall i | |s.delivered| <= i < |s.accepted| ensures s'.slots[i % SIZE] == s.accepted[i] {
      DistinctSlots(i, |s.accepted|);
      assert s.slots[i % SIZE] == s.accepted[i];
    }
  }

  lemma PublishKeepsInv(s: State)
    requires Inv(s) && s.producer.Publish?
    ensures Inv(ProducerStep(s))
  {
    var s' := ProducerStep(s);
    NextIndexSteps(|s.accepted|);
    assert forall i :: 0 <= i < |s.accepted| ==> s'.accepted[i] == s.accepted[i];
    forall i | |s'.delivered| <= i < |s'.accepted| ensures s'.slots[i % SIZE] == s'.accepted[i] {
      assert i < |s.accepted| ==> s.slots[i % SIZE] == s.accepted[i];
    }
  }

  lemma CheckKeepsInv(s: State)
    requires Inv(s) && (s.producer.ReadHead? || s.producer.CheckFull?)
    ensures Inv(ProducerStep(s))
  {
    NextIndexSteps(|s.accepted|);
    FullExactly(|s.delivered|, |s.accepted|);
  }

  lemma ProducerKeepsInv(s: State)
    requires Inv(s) && !s.producer.Idle?
    ensures Inv(ProducerStep(s))
  {
    match s.producer
    case CopyIn(_, _, _) => CopyKeepsInv(s);
    case Publish(_, _) => PublishKeepsInv(s);
    case _ => CheckKeepsInv(s);
  }

  lemma FullExactly(delivered: nat, accepted: nat)
    requires delivered <= accepted <= delivered + SIZE - 1
    ensures (accepted + 1) % SIZE == delivered % SIZE <==> accepted == delivered + SIZE - 1
  {
    if accepted < delivered + SIZE - 1 {
      DistinctSlots(delivered, accepted + 1);
    }
  }

  lemma EmptyExactly(delivered: nat, accepted: nat)
    requires delivered <= accepted <= delivered + SIZE - 1
    ensures accepted % SIZE == delivered % SIZE <==> accepted == delivered
  {
    if accepted > delivered {
      DistinctSlots(delivered, accepted);
    }
  }

  lemma EmptyCheckKeepsInv(s: State)
    requires Inv(s) && (s.consumer.ReadTail? || s.consumer.CheckEmpty?)
    ensures Inv(ConsumerStep(s))
  {
    EmptyExactly(|s.delivered|, |s.accepted|);
  }

  lemma CopyOutKeepsInv(s: State)
    requires Inv(s) && s.consumer.CopyOut?
    ensures Inv(ConsumerStep(s))
  {
    var e := s.accepted[|s.delivered|];
    if |s.consumer.got| < WORDS {
      assert s.slots[s.tail] == e;
      assert e[..|s.consumer.got| + 1] == e[..|s.consumer.got|] + [e[|s.consumer.got|]];
    } else {
      assert e[..WORDS] == e;
    }
  }

  lemma ReleaseKeepsInv(s: State)
    requires Inv(s) && s.consumer.Release?
    ensures Inv(ConsumerStep(s))
  {
    var s' := ConsumerStep(s);
    NextIndexSteps(|s.delivered|);
    assert s'.delivered[..|s.delivered|] == s.delivered;
    forall i | |s'.delivered| <= i < |s'.accepted| ensures s'.slots[i % SIZE] == s'.accepted[i] {
      assert s.slots[i % SIZE] == s.accepted[i];
    }
  }

  lemma ConsumerKeepsInv(s: State)
    requires Inv(s) && !s.consumer.Ready?
    ensures Inv(ConsumerStep(s))
  {
    match s.consumer
    case CopyOut(_, _) => CopyOutKeepsInv(s);
    case Release(_, _) => ReleaseKeepsInv(s);
    case _ => EmptyCheckKeepsInv(s);
  }

  lemma StepKeepsInv(s: State, a: Action)
    requires Inv(s) && Enabled(s, a)
    ensures Inv(Step(s, a))
  {
    match a
    case StepProducer => ProducerKeepsInv(s);
    case StepConsumer => ConsumerKeepsInv(s);
    case _ =>
  }

  lemma {:induction false} RunKeepsInv(s: State, run: seq<Action>)
    requires Inv(s) && IsRun(s, run)
    ensures Inv(After(s, run))
    decreases |run|
  {
    if run != [] {
      StepKeepsInv(s, run[0]);
      RunKeepsInv(Step(s, run[0]), run[1..]);
    }
  }

  lemma ReachableInv(s0: State, run: seq<Action>)
    requires Initial(s0) && IsRun(s0, run)
    ensures Inv(After(s0, run))
  {
    RunKeepsInv(s0, run);
  }

  // Main results

  /** The pending events: accepted and not yet delivered. */
  function Pending(s: State): seq<Event>
    requires |s.delivered| <= |s.accepted|
  {
    s.accepted[|s.delivered|..]
  }

  /** A bounded FIFO: whatever the interleaving, what was dequeued is a prefix of what was accepted, in order, whole
      events only, and never more than SIZE - 1 are pending. */
  lemma DeliversInOrder(s0: State, run: seq<Action>)
    requires Initial(s0) && IsRun(s0, run)
    ensures var s := After(s0, run);
            s.delivered <= s.accepted && s.accepted == s.delivered + Pending(s) && |Pending(s)| <= SIZE - 1
  {
    ReachableInv(s0, run);
  }

  /** No torn access: while one side copies into a slot and the other out of one, the slots differ. */
  lemma NeverTheSameSlot(s0: State, run: seq<Action>)
    requires Initial(s0) && IsRun(s0, run)
    ensures var s := After(s0, run);
            s.producer.CopyIn? && (s.consumer.CopyOut? || s.consumer.Release?) ==> s.producer.head != s.consumer.tail
  {
    ReachableInv(s0, run);
    var s := After(s0, run);
    if s.producer.CopyIn? && (s.consumer.CopyOut? || s.consumer.Release?) {
      DistinctSlots(|s.delivered|, |s.accepted|);
    }
  }

  lemma FullCheck(s: State)
    requires Inv(s) && s.producer.CheckFull?
    ensures var s' := ProducerStep(s);
            s'.producer == if |Pending(s)| == SIZE - 1 then Idle else CopyIn(s.producer.event, s.producer.head, 0)
  {
    NextIndexSteps(|s.accepted|);
    FullExactly(|s.delivered|, |s.accepted|);
  }

  lemma EmptyCheck(s: State)
    requires Inv(s) && s.consumer.CheckEmpty?
    ensures var s' := ConsumerStep(s);
            if Pending(s) == [] then s'.consumer == Ready else s'.consumer == CopyOut(s.consumer.tail, [])
  {
    EmptyExactly(|s.delivered|, |s.accepted|);
  }

  /** The checks are exact when they are made: an enqueue is refused if and only if SIZE - 1 events are pending, and a
      get finds nothing if and only if none is. */
  lemma ChecksAreExact(s0: State, run: seq<Action>)
    requires Initial(s0) && IsRun(s0, run)
    ensures var s := After(s0, run);
            && Shaped(s) && |s.delivered| <= |s.accepted|
            && (s.producer.CheckFull? ==> (ProducerStep(s).producer == Idle <==> |Pending(s)| == SIZE - 1))
            && (s.consumer.CheckEmpty? ==> (ConsumerStep(s).consumer == Ready <==> Pending(s) == []))
  {
    ReachableInv(s0, run);
    var s := After(s0, run);
    if s.producer.CheckFull? {
      FullCheck(s);
    }
    if s.consumer.CheckEmpty? {
      EmptyCheck(s);
    }
  }

  /** What each side publishes: the event it was given, and the oldest pending event. */
  lemma PublishesTheEvent(s0: State, run: seq<Action>)
    requires Initial(s0) && IsRun(s0, run)
    ensures var s := After(s0, run);
            && Shaped(s) && |s.delivered| <= |s.accepted|
            && (s.producer.Publish? ==> s.head < SIZE && s.slots[s.head] == s.producer.event)
            && (s.producer.Publish? ==> ProducerStep(s).accepted == s.accepted + [s.producer.event])
            && (s.consumer.Release? ==> Pending(s) != [] && ConsumerStep(s).delivered == s.delivered + [Pending(s)[0]])
  {
    ReachableInv(s0, run);
  }

  // The ring as the source has it: a static array and two indices changed in place

  class Ring {
    const buffer: array<Event>
    var head: nat
    var tail: nat
    var producer: Producer
    var consumer: Consumer
    ghost var accepted: seq<Event>
    ghost var delivered: seq<Event>

    ghost function View(): State
      reads this, buffer
    {
      State(buffer[..], head, tail, producer, consumer, accepted, delivered)
    }

    ghost predicate Valid()
      reads this, buffer
    {
      Inv(View())
    }

    constructor ()
      ensures Valid() && fresh(buffer) && Initial(View())
    {
      buffer := new Event[SIZE](_ => [0, 0, 0, 0, 0, 0]);
      head, tail, producer, consumer := 0, 0, Idle, Ready;
      accepted, delivered := [], [];
    }

    method StepProducer()
      requires Valid() && producer != Idle
      modifies this`head, this`producer, this`accepted, buffer
      ensures Valid() && View() == ProducerStep(old(View()))
    {
      ghost var s := View();
      match producer {
        case ReadHead(e) => producer := CheckFull(e, head);
        case CheckFull(e, h) =>
          var nextHead := (h + 1) % SIZE;
          producer := if nextHead == tail then Idle else CopyIn(e, h, 0);
        case CopyIn(e, h, j) =>
          if j == WORDS {
            producer := Publish(e, h);
          } else {
            buffer[h] := buffer[h][j := e[j]];
            producer := CopyIn(e, h, j + 1);
          }
        case Publish(e, h) =>
          head := (h + 1) % SIZE;
          producer := Idle;
          accepted := accepted + [e];
      }
      assert View() == ProducerStep(s);
      ProducerKeepsInv(s);
    }

    method StepConsumer()
      requires Valid() && consumer != Ready
      modifies this`tail, this`consumer, this`delivered
      ensures Valid() && View() == ConsumerStep(old(View()))
    {
      ghost var s := View();
      match consumer {
        case ReadTail => consumer := CheckEmpty(tail);
        case CheckEmpty(t) => consumer := if t == head then Ready else CopyOut(t, []);
        case CopyOut(t, got) =>
          consumer := if |got| == WORDS then Release(t, got) else CopyOut(t, got + [buffer[t][|got|]]);
        case Release(t, got) =>
          tail := (t + 1) % SIZE;
          consumer := Ready;
          delivered := delivered + [got];
      }
      assert View() == ConsumerStep(s);
      ConsumerKeepsInv(s);
    }

    /** The read of the head and the check for a full ring. */
    method CheckIn(event: Event) returns (room: bool)
      requires Valid() && producer == Idle && |event| == WORDS
      modifies this`head, this`producer, this`accepted, buffer
      ensures Valid() && accepted == old(accepted) && delivered == old(delivered)
      ensures room <==> |old(Pending(View()))| < SIZE - 1
      ensures if room then producer.CopyIn? && producer.event == event else producer == Idle
    {
      producer := ReadHead(event);
      assert Valid();
      StepProducer();
      FullCheck(View());
      StepProducer();
      room := producer != Idle;
    }

    /** The copy into the slot, word by word, and the new head. */
    method CopyInAndPublish()
      requires Valid() && producer.CopyIn?
      modifies this`head, this`producer, this`accepted, buffer
      ensures Valid() && producer == Idle && accepted == old(accepted) + [old(producer).event]
    {
      while producer.CopyIn?
        invariant Valid() && accepted == old(accepted)
        invariant (producer.CopyIn? || producer.Publish?) && producer.event == old(producer).event
        decreases if producer.CopyIn? then WORDS - producer.j + 2 else 0
      {
        StepProducer();
      }
      StepProducer();
    }

    /** event_enqueue undisturbed: 0 and one more pending event, or -1 and nothing changed. */
    method Enqueue(event: Event) returns (r: int)
      requires Valid() && producer == Idle && |event| == WORDS
      modifies this`head, this`producer, this`accepted, buffer
      ensures Valid() && producer == Idle && delivered == old(delivered)
      ensures r == if |old(Pending(View()))| == SIZE - 1 then -1 else 0
      ensures Pending(View()) == if r == 0 then old(Pending(View())) + [event] else old(Pending(View()))
    {
      var room := CheckIn(event);
      if !room {
        return -1;
      }
      CopyInAndPublish();
      r := 0;
    }

    /** The read of the tail and the check for an empty ring. */
    method CheckOut() returns (found: bool)
      requires Valid() && consumer == Ready
      modifies this`tail, this`consumer, this`delivered
      ensures Valid() && accepted == old(accepted) && delivered == old(delivered)
      ensures found <==> old(Pending(View())) != []
      ensures if found then consumer.CopyOut? else consumer == Ready
    {
      consumer := ReadTail;
      assert Valid();
      StepConsumer();
      EmptyCheck(View());
      StepConsumer();
      found := consumer != Ready;
    }

    /** The copy out of the slot, word by word. */
    method CopyOutAll()
      requires Valid() && consumer.CopyOut?
      modifies this`tail, this`consumer, this`delivered
      ensures Valid() && consumer.Release? && delivered == old(delivered)
    {
      while consumer.CopyOut?
        invariant Valid() && delivered == old(delivered) && (consumer.CopyOut? || consumer.Release?)
        decreases if consumer.CopyOut? then WORDS - |consumer.got| + 1 else 0
      {
        StepConsumer();
      }
    }

    /** net_event_get undisturbed: 1 and the oldest pending event, or 0 and nothing changed. */
    method Get() returns (r: int, event: Event)
      requires Valid() && consumer == Ready
      modifies this`tail, this`consumer, this`delivered
      ensures Valid() && consumer == Ready && accepted == old(accepted)
      ensures r == if old(Pending(View())) == [] then 0 else 1
      ensures r == 1 ==> [event] + Pending(View()) == old(Pending(View()))
      ensures r == 0 ==> Pending(View()) == old(Pending(View()))
    {
      var found := CheckOut();
      if !found {
        return 0, [];
      }
      CopyOutAll();
      event := consumer.got;
      OldestReleased(View());
      StepConsumer();
      r := 1;
    }
  }

  lemma OldestReleased(s: State)
    requires Inv(s) && s.consumer.Release?
    ensures [s.consumer.got] + s.accepted[|s.delivered| + 1..] == Pending(s)
  {
  }
}
