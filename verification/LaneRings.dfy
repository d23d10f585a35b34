/** The rings of one producer thread and their consumers (`LaneRings.swift` over
    `LaneRingBuffer.swift`), interleaved at every atomic load, slot access and publishing store. */
module LaneRings {
  import opened Arithmetic
  import opened LaneRing
  import opened Samples

  /** What the two threads share of one ring. */
  datatype Ring<S> = Ring(storage: seq<S>, write: nat, read: nat, dropped: nat)

  /** A block is one run of samples a lane, all of one length. */
  type Block<S> = seq<seq<S>>

  /** Where the producer stands: `reserve`, then one `write` a lane, then `commit`. A write loads
      the indices again, stores its samples one by one and publishes them. */
  datatype Producer<S> =
    | Idle
    | Checking(block: Block<S>, count: nat, lane: nat)
    | Dropping(count: nat, lane: nat)
    | Loading(block: Block<S>, count: nat, lane: nat)
    | Storing(block: Block<S>, count: nat, lane: nat, index: nat)

  /** Where one ring's consumer stands in `read(into:count:)`. */
  datatype Consumer<S> = Waiting | Wanting(count: nat) | Copying(count: nat, got: seq<S>)

  /** `published`, `taken`, `blocks`, `refused` and `lost` record the run: the samples each ring
      published and its consumer took, the blocks `reserve` accepted and finished, the samples of
      those it refused, and blocks a lane's own check refused after the reservation. */
  datatype State<S> = State(
    rings: seq<Ring<S>>,
    producer: Producer<S>,
    consumers: seq<Consumer<S>>,
    published: seq<seq<S>>,
    taken: seq<seq<S>>,
    blocks: seq<Block<S>>,
    refused: nat,
    lost: nat)

  datatype Action<S> =
    | Begin(block: Block<S>, count: nat)
    | Produce
    | Ask(ring: nat, count: nat)
    | Consume(ring: nat)

  predicate Shaped<S>(block: Block<S>, lanes: nat, count: nat) {
    |block| == lanes && forall l :: 0 <= l < lanes ==> |block[l]| == count
  }

  ghost predicate Room<S>(r: Ring<S>, count: nat) {
    r.write + count <= r.read + |r.storage|
  }

  /** One step of the producer. */
  function Producing<S>(s: State<S>): State<S>
    requires |s.rings| == |s.published| && forall r :: 0 <= r < |s.rings| ==> |s.rings[r].storage| > 0
  {
    match s.producer
    case Idle => s
    case Checking(block, count, lane) =>
      if lane >= |s.rings| then s.(producer := Loading(block, count, 0))
      else
        // hasRoom: its own write index and a load of the read index.
        var r := s.rings[lane];
        if |r.storage| - (r.write - r.read) >= count then s.(producer := Checking(block, count, lane + 1))
        else s.(producer := Dropping(count, 0))
    case Dropping(count, lane) =>
      if lane >= |s.rings| then s.(producer := Idle, refused := s.refused + count)
      else
        var r := s.rings[lane];
        s.(producer := Dropping(count, lane + 1), rings := s.rings[lane := r.(dropped := r.dropped + count)])
    case Loading(block, count, lane) =>
      if lane >= |s.rings| || lane >= |block| then s.(producer := Idle, blocks := s.blocks + [block])
      else
        var r := s.rings[lane];
        if count == 0 then s.(producer := Loading(block, count, lane + 1))
        else if |r.storage| - (r.write - r.read) >= count then s.(producer := Storing(block, count, lane, 0))
        else
          s.(producer := Loading(block, count, lane + 1), lost := s.lost + 1,
             rings := s.rings[lane := r.(dropped := r.dropped + count)])
    case Storing(block, count, lane, index) =>
      if lane >= |s.rings| || lane >= |block| then s
      else
        var r := s.rings[lane];
        if index < count && index < |block[lane]| then
          var storage := r.storage[Slot(r.write + index, |r.storage|) := block[lane][index]];
          s.(producer := Storing(block, count, lane, index + 1), rings := s.rings[lane := r.(storage := storage)])
        else
          s.(producer := Loading(block, count, lane + 1),
             rings := s.rings[lane := r.(write := r.write + count)],
             published := s.published[lane := s.published[lane] + block[lane]])
  }

  /** One step of ring `ring`'s consumer. */
  function Consuming<S>(s: State<S>, ring: nat): State<S>
    requires ring < |s.rings| == |s.consumers| == |s.taken| && |s.rings[ring].storage| > 0
  {
    var r := s.rings[ring];
    match s.consumers[ring]
    case Waiting => s
    case Wanting(count) =>
      if r.write - r.read < count || count == 0 then s.(consumers := s.consumers[ring := Waiting])
      else s.(consumers := s.consumers[ring := Copying(count, [])])
    case Copying(count, got) =>
      if |got| < count then
        var sample := r.storage[Slot(r.read + |got|, |r.storage|)];
        s.(consumers := s.consumers[ring := Copying(count, got + [sample])])
      else
        s.(consumers := s.consumers[ring := Waiting],
           rings := s.rings[ring := r.(read := r.read + count)],
           taken := s.taken[ring := s.taken[ring] + got])
  }

  ghost predicate Formed<S>(s: State<S>) {
    && |s.rings| == |s.consumers| == |s.published| == |s.taken|
    && forall r :: 0 <= r < |s.rings| ==> |s.rings[r].storage| > 0
  }

  function Next<S>(s: State<S>, a: Action<S>): State<S>
    requires Formed(s)
  {
    match a
    case Begin(block, count) =>
      if s.producer.Idle? && Shaped(block, |s.rings|, count) then s.(producer := Checking(block, count, 0)) else s
    case Produce => Producing(s)
    case Ask(ring, count) =>
      if ring < |s.rings| && s.consumers[ring].Waiting? then s.(consumers := s.consumers[ring := Wanting(count)]) else s
    case Consume(ring) => if ring < |s.rings| then Consuming(s, ring) else s
  }

  function Initial<S>(storages: seq<seq<S>>): State<S> {
    var n := |storages|;
    State(
      seq(n, i requires 0 <= i < n => Ring(storages[i], 0, 0, 0)), Idle, seq(n, _ => Waiting),
      seq(n, _ => []), seq(n, _ => []), [], 0, 0)
  }

  /** Lane `lane` of the blocks, end to end. */
  function LaneOf<S>(blocks: seq<Block<S>>, lane: nat): seq<S> {
    if blocks == [] then []
    else
      var last := blocks[|blocks| - 1];
      LaneOf(blocks[..|blocks| - 1], lane) + (if lane < |last| then last[lane] else [])
  }

  /** The block being written, for the lanes it has already reached. */
  function InFlight<S>(p: Producer<S>, lane: nat): seq<S> {
    if (p.Loading? || p.Storing?) && lane < p.lane && lane < |p.block| then p.block[lane] else []
  }

  ghost predicate ProducerHolds<S>(s: State<S>)
    requires Formed(s)
  {
    match s.producer
    case Idle => true
    case Dropping(count, lane) => lane <= |s.rings|
    case Checking(block, count, lane) =>
      && lane <= |s.rings| && Shaped(block, |s.rings|, count)
      && forall r :: 0 <= r < lane ==> Room(s.rings[r], count)
    case Loading(block, count, lane) =>
      && lane <= |s.rings| && Shaped(block, |s.rings|, count)
      && forall r :: lane <= r < |s.rings| ==> Room(s.rings[r], count)
    case Storing(block, count, lane, index) =>
      && lane < |s.rings| && index <= count && Shaped(block, |s.rings|, count)
      && (forall r :: lane <= r < |s.rings| ==> Room(s.rings[r], count))
      && Queue(s.rings[lane].storage, s.rings[lane].write, index) == block[lane][..index]
  }

  /** One ring: what is unread is what was published, in its slots, and a read in progress has
      copied a prefix of it. */
  ghost predicate RingHolds<S>(r: Ring<S>, c: Consumer<S>, published: seq<S>, taken: seq<S>) {
    && |r.storage| > 0
    && r.read <= r.write <= r.read + |r.storage|
    && |published| == r.write && taken == published[..r.read]
    && Queue(r.storage, r.read, r.write - r.read) == published[r.read..]
    && (c.Copying? ==> r.read + c.count <= r.write && |c.got| <= c.count
                       && c.got == published[r.read..r.read + |c.got|])
  }

  /** Every lane has the same history: the finished blocks, the block in flight where it has
      arrived, and the refusals. */
  ghost predicate LaneHolds<S>(s: State<S>, r: nat)
    requires r < |s.rings| == |s.published|
  {
    && s.published[r] == LaneOf(s.blocks, r) + InFlight(s.producer, r)
    && s.rings[r].dropped == s.refused + (if s.producer.Dropping? && r < s.producer.lane then s.producer.count else 0)
  }

  ghost predicate Inv<S>(s: State<S>) {
    && Formed(s)
    && ProducerHolds(s)
    && s.lost == 0
    && (forall b :: 0 <= b < |s.blocks| ==> |s.blocks[b]| == |s.rings|)
    && (forall b, l, m :: 0 <= b < |s.blocks| && 0 <= l < |s.rings| && 0 <= m < |s.rings| ==>
          |s.blocks[b][l]| == |s.blocks[b][m]|)
    && (forall r :: 0 <= r < |s.rings| ==> RingHolds(s.rings[r], s.consumers[r], s.published[r], s.taken[r]))
    && (forall r :: 0 <= r < |s.rings| ==> LaneHolds(s, r))
  }

  lemma InitialHolds<S>(storages: seq<seq<S>>)
    requires forall i :: 0 <= i < |storages| ==> |storages[i]| > 0
    ensures Inv(Initial(storages))
  {}

  /** Filling the next slot of a ring with room leaves its unread samples in place and adds the
      sample behind those stored before it. */
  lemma StoreKeeps<S>(r: Ring<S>, index: nat, sample: S)
    requires |r.storage| > 0 && r.read <= r.write && r.write + index < r.read + |r.storage|
    ensures var after := r.storage[Slot(r.write + index, |r.storage|) := sample];
      && Queue(after, r.read, r.write - r.read) == Queue(r.storage, r.read, r.write - r.read)
      && Queue(after, r.write, index + 1) == Queue(r.storage, r.write, index) + [sample]
  {
    hide Slot;
    PutExtends(r.storage, r.write, index, sample);
    var after := r.storage[Slot(r.write + index, |r.storage|) := sample];
    var (q, t) := (Queue(r.storage, r.read, r.write - r.read), Queue(after, r.read, r.write - r.read));
    forall i: nat | i < r.write - r.read ensures t[i] == q[i] {
      SlotsDiffer(r.read + i, r.write + index, |r.storage|);
    }
  }

  /** Two queues end to end. */
  lemma QueueJoins<S>(storage: seq<S>, from: nat, first: nat, second: nat)
    requires |storage| > 0
    ensures Queue(storage, from, first) + Queue(storage, from + first, second) == Queue(storage, from, first + second)
  {
    hide Slot;
    var (q, r) := (Queue(storage, from + first, second), Queue(storage, from, first + second));
    forall i: nat | i < second ensures r[first + i] == q[i] {
      assert from + first + i == from + (first + i);
    }
  }

  lemma StoreStep<S>(s: State<S>)
    requires Inv(s) && s.producer.Storing? && s.producer.index < s.producer.count
    ensures Inv(Producing(s))
  {
    hide Slot, Queue;
    var Storing(block, count, lane, index) := s.producer;
    var r := s.rings[lane];
    assert RingHolds(r, s.consumers[lane], s.published[lane], s.taken[lane]);
    StoreKeeps(r, index, block[lane][index]);
    var t := Producing(s);
    assert block[lane][..index + 1] == block[lane][..index] + [block[lane][index]];
    forall k | 0 <= k < |s.rings| ensures LaneHolds(t, k) {
      assert LaneHolds(s, k);
    }
  }

  /** Publishing a stored block queues it behind what is unread. */
  lemma Published<S>(r: Ring<S>, c: Consumer<S>, p: seq<S>, taken: seq<S>, block: seq<S>)
    requires RingHolds(r, c, p, taken) && r.write + |block| <= r.read + |r.storage|
    requires Queue(r.storage, r.write, |block|) == block
    ensures RingHolds(r.(write := r.write + |block|), c, p + block, taken)
  {
    hide Slot, Queue;
    QueueJoins(r.storage, r.read, r.write - r.read, |block|);
    assert (p + block)[r.read..] == p[r.read..] + block;
  }

  lemma PublishStep<S>(s: State<S>)
    requires Inv(s) && s.producer.Storing? && s.producer.index == s.producer.count
    ensures Inv(Producing(s))
  {
    hide Slot, Queue, RingHolds;
    var Storing(block, count, lane, index) := s.producer;
    assert RingHolds(s.rings[lane], s.consumers[lane], s.published[lane], s.taken[lane]);
    assert block[lane][..index] == block[lane];
    Published(s.rings[lane], s.consumers[lane], s.published[lane], s.taken[lane], block[lane]);
    var t := Producing(s);
    forall k | 0 <= k < |s.rings| ensures LaneHolds(t, k) {
      assert LaneHolds(s, k);
    }
  }

  /** The block is finished: every lane has it. */
  lemma CommitStep<S>(s: State<S>)
    requires Inv(s) && s.producer.Loading? && s.producer.lane == |s.rings|
    ensures Inv(Producing(s))
  {
    hide Slot, Queue;
    var t := Producing(s);
    assert t.blocks[..|t.blocks| - 1] == s.blocks;
    forall k | 0 <= k < |s.rings| ensures LaneHolds(t, k) {
      assert LaneHolds(s, k);
    }
  }

  /** The steps that move no samples: checks, refusals and loads. A load after a reservation
      always finds the room still there. */
  lemma QuietStep<S>(s: State<S>)
    requires Inv(s) && !s.producer.Storing? && (s.producer.Loading? ==> s.producer.lane < |s.rings|)
    ensures Inv(Producing(s))
  {
    hide Slot, Queue;
    var t := Producing(s);
    forall k | 0 <= k < |s.rings| ensures LaneHolds(t, k) {
      assert LaneHolds(s, k) && RingHolds(s.rings[k], s.consumers[k], s.published[k], s.taken[k]);
    }
  }

  /** A read copies what was published next. */
  lemma Copied<S>(r: Ring<S>, c: Consumer<S>, p: seq<S>, taken: seq<S>)
    requires RingHolds(r, c, p, taken) && c.Copying? && |c.got| < c.count
    ensures RingHolds(r, Copying(c.count, c.got + [r.storage[Slot(r.read + |c.got|, |r.storage|)]]), p, taken)
  {
    hide Slot, Queue;
    var q := Queue(r.storage, r.read, r.write - r.read);
    assert q[|c.got|] == p[r.read..][|c.got|] == p[r.read + |c.got|];
    SliceGrows([], p, r.read, r.read + |c.got|);
    assert q[|c.got|] == r.storage[Slot(r.read + |c.got|, |r.storage|)];
  }

  /** Taking what was read leaves the rest queued. */
  lemma TakenOff<S>(r: Ring<S>, c: Consumer<S>, p: seq<S>, taken: seq<S>)
    requires RingHolds(r, c, p, taken) && c.Copying? && |c.got| == c.count
    ensures RingHolds(r.(read := r.read + c.count), Waiting, p, taken + c.got)
  {
    hide Slot, Queue;
    QueueTail(r.storage, r.read, r.write - r.read, c.count);
    assert p[..r.read] + p[r.read..r.read + c.count] == p[..r.read + c.count];
    assert p[r.read..][c.count..] == p[r.read + c.count..];
  }

  lemma ReaderStep<S>(s: State<S>, ring: nat)
    requires Formed(s) && ring < |s.rings|
    requires RingHolds(s.rings[ring], s.consumers[ring], s.published[ring], s.taken[ring])
    ensures var t := Consuming(s, ring);
      RingHolds(t.rings[ring], t.consumers[ring], t.published[ring], t.taken[ring])
  {
    var (r, c, p) := (s.rings[ring], s.consumers[ring], s.published[ring]);
    if c.Copying? {
      CountsFit(r, c, p, s.taken[ring]);
      hide Slot, Queue, RingHolds;
      if |c.got| < c.count {
        Copied(r, c, p, s.taken[ring]);
      } else {
        TakenOff(r, c, p, s.taken[ring]);
      }
    } else {
      hide Slot, Queue;
    }
  }

  lemma CountsFit<S>(r: Ring<S>, c: Consumer<S>, p: seq<S>, taken: seq<S>)
    requires RingHolds(r, c, p, taken) && c.Copying?
    ensures |c.got| <= c.count
  {}

  lemma ConsumerStep<S>(s: State<S>, ring: nat)
    requires Inv(s) && ring < |s.rings|
    ensures Inv(Consuming(s, ring))
  {
    hide Slot, Queue;
    var t := Consuming(s, ring);
    ReaderStep(s, ring);
    forall k | 0 <= k < |s.rings| ensures LaneHolds(t, k) {
      assert LaneHolds(s, k);
    }
  }

  lemma NextHolds<S>(s: State<S>, a: Action<S>)
    requires Inv(s)
    ensures Inv(Next(s, a))
  {
    hide Slot, Queue;
    match a {
      case Produce =>
        if s.producer.Storing? {
          if s.producer.index < s.producer.count { StoreStep(s); } else { PublishStep(s); }
        } else if s.producer.Loading? && s.producer.lane == |s.rings| {
          CommitStep(s);
        } else {
          QuietStep(s);
        }
      case Consume(ring) =>
        if ring < |s.rings| { ConsumerStep(s, ring); }
      case _ =>
        forall k | 0 <= k < |s.rings| ensures LaneHolds(Next(s, a), k) {
          assert LaneHolds(s, k);
        }
    }
  }

  ghost predicate Run<S>(run: seq<State<S>>, actions: seq<Action<S>>) {
    && |run| == |actions| + 1
    && forall i :: 0 <= i < |actions| ==> Formed(run[i]) && run[i + 1] == Next(run[i], actions[i])
  }

  lemma {:induction false} RunHolds<S>(run: seq<State<S>>, actions: seq<Action<S>>, i: nat)
    requires Run(run, actions) && Inv(run[0]) && i < |run|
    ensures Inv(run[i])
    decreases i
  {
    if i > 0 {
      RunHolds(run, actions, i - 1);
      NextHolds(run[i - 1], actions[i - 1]);
    }
  }

  // What one block and one read come to.

  /** Every ring has room for a block. */
  ghost predicate Fits<S>(s: State<S>, count: nat) {
    forall r :: 0 <= r < |s.rings| ==> Room(s.rings[r], count)
  }

  /** The producer at work on the block begun in `s0`: nothing is decided yet, and it is only refused where
      it did not fit. */
  ghost predicate Working<S>(s: State<S>, s0: State<S>, block: Block<S>, count: nat) {
    && |s.rings| == |s0.rings| && s.blocks == s0.blocks && s.refused == s0.refused
    && match s.producer
       case Idle => false
       case Checking(b, c, _) => b == block && c == count && (Fits(s0, count) ==> Fits(s, count))
       case Dropping(c, _) => c == count && !Fits(s0, count)
       case Loading(b, c, _) => b == block && c == count
       case Storing(b, c, _, _) => b == block && c == count
  }

  /** The block taken whole behind the others, or refused whole. */
  ghost predicate Decided<S>(s: State<S>, s0: State<S>, block: Block<S>, count: nat) {
    || (s.blocks == s0.blocks + [block] && s.refused == s0.refused)
    || (s.blocks == s0.blocks && s.refused == s0.refused + count && !Fits(s0, count))
  }

  lemma WorkingStep<S>(s: State<S>, s0: State<S>, block: Block<S>, count: nat, a: Action<S>)
    requires Inv(s) && Working(s, s0, block, count)
    ensures var t := Next(s, a);
      if t.producer.Idle? then Decided(t, s0, block, count) else Working(t, s0, block, count)
  {
    hide Slot, Queue, LaneHolds, Shaped;
    var t := Next(s, a);
    match a {
      case Consume(ring) =>
        if ring < |s.rings| {
          assert RingHolds(s.rings[ring], s.consumers[ring], s.published[ring], s.taken[ring]);
          if Fits(s, count) {
            forall r | 0 <= r < |t.rings| ensures Room(t.rings[r], count) { assert Room(s.rings[r], count); }
          }
        }
      case _ =>
        if s.producer.Checking? && s.producer.lane < |s.rings| {
          if Fits(s, count) { assert Room(s.rings[s.producer.lane], count); }
        }
    }
  }

  lemma {:induction false} WorkingInRun<S>(
    run: seq<State<S>>, actions: seq<Action<S>>, i: nat, j: nat, block: Block<S>, count: nat)
    requires Run(run, actions) && Inv(run[0]) && i < j < |run| && run[i].producer.Idle?
    requires actions[i] == Begin(block, count) && Shaped(block, |run[i].rings|, count)
    requires forall k :: i < k < j ==> !run[k].producer.Idle?
    ensures if run[j].producer.Idle? then Decided(run[j], run[i], block, count) else Working(run[j], run[i], block, count)
    decreases j
  {
    RunHolds(run, actions, j - 1);
    if i < j - 1 {
      WorkingInRun(run, actions, i, j - 1, block, count);
      hide Inv, Next, Working, Decided;
      WorkingStep(run[j - 1], run[i], block, count, actions[j - 1]);
    }
  }

  /** Main result, for every interleaving: a block begun is, when the producer is idle again, taken whole
      behind the others or refused whole, and where every ring had room for it when it began it is taken,
      whatever the consumers did meanwhile. */
  lemma ABlockThatFitsIsTaken<S>(run: seq<State<S>>, actions: seq<Action<S>>, i: nat, j: nat, block: Block<S>, count: nat)
    requires Run(run, actions) && Inv(run[0]) && i < j < |run| && run[i].producer.Idle? && run[j].producer.Idle?
    requires actions[i] == Begin(block, count) && Shaped(block, |run[i].rings|, count)
    requires forall k :: i < k < j ==> !run[k].producer.Idle?
    ensures (run[j].blocks == run[i].blocks + [block] && run[j].refused == run[i].refused)
         || (run[j].blocks == run[i].blocks && run[j].refused == run[i].refused + count)
    ensures (forall r :: 0 <= r < |run[i].rings| ==> Room(run[i].rings[r], count)) ==> run[j].blocks == run[i].blocks + [block]
  {
    WorkingInRun(run, actions, i, j, block, count);
  }

  /** The steps the producer still takes at most. */
  function StepsLeft<S>(p: Producer<S>, rings: nat): int {
    match p
    case Idle => 0
    case Checking(_, count, lane) => rings - lane + 2 + rings * (count + 2)
    case Dropping(_, lane) => rings - lane + 1
    case Loading(_, count, lane) => (rings - lane) * (count + 2) + 1
    case Storing(_, count, lane, index) => (rings - lane - 1) * (count + 2) + 1 + (count + 1 - index)
  }

  /** The producer waits for nobody: each of its steps brings it nearer to idle. */
  lemma TheProducerNeverWaits<S>(s: State<S>)
    requires Inv(s) && !s.producer.Idle?
    ensures 0 <= StepsLeft(Producing(s).producer, |s.rings|) < StepsLeft(s.producer, |s.rings|)
  {
    hide Slot, Queue, LaneHolds, RingHolds;
    var n := |s.rings|;
    match s.producer {
      case Loading(_, count, lane) =>
        if lane < n { assert (n - lane) * (count + 2) == (n - lane - 1) * (count + 2) + (count + 2); }
        StepsSign(n, lane, count);
      case Storing(_, count, lane, index) => StepsSign(n, lane + 1, count);
      case Checking(_, count, lane) => StepsSign(n, 0, count);
      case _ =>
    }
  }

  lemma StepsSign(rings: nat, lane: nat, count: nat)
    ensures lane <= rings ==> (rings - lane) * (count + 2) >= 0
    ensures lane < rings ==> (rings - lane - 1) * (count + 2) >= 0
  {}

  /** A read in progress on the ring, asked for in `s0`. */
  ghost predicate Reading<S>(s: State<S>, s0: State<S>, ring: nat, count: nat) {
    && |s.rings| == |s0.rings| && ring < |s.rings| == |s.consumers| == |s.taken| == |s0.taken| && s.taken[ring] == s0.taken[ring]
    && s.rings[ring].read == s0.rings[ring].read && s.rings[ring].write >= s0.rings[ring].write
    && match s.consumers[ring]
       case Waiting => false
       case Wanting(c) => c == count
       case Copying(c, _) => c == count > 0
  }

  /** The read over: exactly `count` samples taken, or none because there were fewer. */
  ghost predicate ReadDone<S>(s: State<S>, s0: State<S>, ring: nat, count: nat) {
    && |s.rings| == |s0.rings| && ring < |s.rings| == |s.taken| == |s0.taken|
    && (|s.taken[ring]| == |s0.taken[ring]| + count
        || (s.taken[ring] == s0.taken[ring] && (count == 0 || s0.rings[ring].write - s0.rings[ring].read < count)))
  }

  /** The producer reads no ring, and takes nothing back. */
  lemma ProducerLeavesReads<S>(s: State<S>, ring: nat)
    requires Formed(s) && ring < |s.rings|
    ensures var t := Producing(s);
      && |t.rings| == |s.rings| && t.consumers == s.consumers && t.taken == s.taken && |t.published| == |s.published|
      && t.rings[ring].read == s.rings[ring].read && t.rings[ring].write >= s.rings[ring].write
      && forall r :: 0 <= r < |t.rings| ==> |t.rings[r].storage| > 0
  {
    hide Slot;
  }

  lemma ReadingStep<S>(s: State<S>, s0: State<S>, ring: nat, count: nat, a: Action<S>)
    requires Inv(s) && Reading(s, s0, ring, count)
    ensures Formed(Next(s, a)) && |Next(s, a).rings| == |s.rings|
    ensures if Next(s, a).consumers[ring].Waiting? then ReadDone(Next(s, a), s0, ring, count)
            else Reading(Next(s, a), s0, ring, count)
  {
    NextHolds(s, a);
    assert RingHolds(s.rings[ring], s.consumers[ring], s.published[ring], s.taken[ring]);
    hide Slot, Queue, Inv;
    if a.Produce? {
      ProducerLeavesReads(s, ring);
      hide Producing;
    }
    hide Producing, Shaped, Formed;
  }

  predicate IsWaiting<S>(s: State<S>, ring: nat) {
    ring < |s.consumers| && s.consumers[ring].Waiting?
  }

  lemma ReadBegins<S>(s: State<S>, ring: nat, count: nat)
    requires Formed(s) && ring < |s.rings| && IsWaiting(s, ring)
    ensures var t := Next(s, Ask(ring, count)); !IsWaiting(t, ring) && Reading(t, s, ring, count)
  {}

  ghost predicate ReadFrom<S>(s: State<S>, s0: State<S>, ring: nat, count: nat) {
    if IsWaiting(s, ring) then ReadDone(s, s0, ring, count) else Reading(s, s0, ring, count)
  }

  lemma ReadGoesOn<S>(s: State<S>, s0: State<S>, ring: nat, count: nat, a: Action<S>)
    requires Inv(s) && ReadFrom(s, s0, ring, count) && !IsWaiting(s, ring)
    ensures ReadFrom(Next(s, a), s0, ring, count)
  {
    ReadingStep(s, s0, ring, count, a);
    hide Inv, Next, ReadDone;
  }

  lemma {:induction false} ReadingInRun<S>(run: seq<State<S>>, actions: seq<Action<S>>, i: nat, j: nat, ring: nat, count: nat)
    requires Run(run, actions) && Inv(run[0]) && i < j < |run| && ring < |run[i].rings|
    requires IsWaiting(run[i], ring) && actions[i] == Ask(ring, count)
    requires forall k :: i < k < j ==> !IsWaiting(run[k], ring)
    ensures ReadFrom(run[j], run[i], ring, count)
    decreases j
  {
    RunHolds(run, actions, j - 1);
    hide Inv, Next, ReadFrom, IsWaiting;
    if i < j - 1 {
      ReadingInRun(run, actions, i, j - 1, ring, count);
      ReadGoesOn(run[j - 1], run[i], ring, count, actions[j - 1]);
    } else {
      ReadStarts(run[i], ring, count);
    }
  }

  lemma ReadStarts<S>(s: State<S>, ring: nat, count: nat)
    requires Formed(s) && ring < |s.rings| && IsWaiting(s, ring)
    ensures ReadFrom(Next(s, Ask(ring, count)), s, ring, count)
  {
    ReadBegins(s, ring, count);
    hide Next;
  }

  /** Main result, for every interleaving: a read of samples that are there takes exactly those, the next
      ones published, whatever the producer does meanwhile; one of more than are there takes that many or
      none. */
  lemma AReadOfWhatIsThereGetsIt<S>(run: seq<State<S>>, actions: seq<Action<S>>, i: nat, j: nat, ring: nat, count: nat)
    requires Run(run, actions) && Inv(run[0]) && i < j < |run| && ring < |run[i].rings| && actions[i] == Ask(ring, count)
    requires IsWaiting(run[i], ring) && IsWaiting(run[j], ring)
    requires forall k :: i < k < j ==> !IsWaiting(run[k], ring)
    ensures ring < |run[i].taken| && ring < |run[j].taken| == |run[j].published|
    ensures |run[j].taken[ring]| <= |run[j].published[ring]| && run[j].taken[ring] == run[j].published[ring][..|run[j].taken[ring]|]
    ensures |run[j].taken[ring]| == |run[i].taken[ring]| + count || run[j].taken[ring] == run[i].taken[ring]
    ensures 0 < count <= run[i].rings[ring].write - run[i].rings[ring].read ==>
      |run[j].taken[ring]| == |run[i].taken[ring]| + count
  {
    ReadingInRun(run, actions, i, j, ring, count);
    RunHolds(run, actions, j);
    assert RingHolds(run[j].rings[ring], run[j].consumers[ring], run[j].published[ring], run[j].taken[ring]);
  }

  /** Main result, for every interleaving: what a consumer has read is a prefix of what was
      published, a ring never holds more than its capacity, no block accepted by `reserve` is
      refused by a lane afterwards, and between blocks every lane has accepted the same blocks and
      refused the same samples. */
  lemma {:induction false} EveryInterleavingIsSafe<S>(
    storages: seq<seq<S>>, run: seq<State<S>>, actions: seq<Action<S>>, i: nat)
    requires forall k :: 0 <= k < |storages| ==> |storages[k]| > 0
    requires Run(run, actions) && run[0] == Initial(storages) && i < |run|
    ensures Formed(run[i]) && run[i].lost == 0
    ensures forall r :: 0 <= r < |run[i].rings| ==>
      && run[i].taken[r] <= run[i].published[r]
      && 0 <= run[i].rings[r].write - run[i].rings[r].read <= |run[i].rings[r].storage|
    ensures run[i].producer.Idle? ==> forall r :: 0 <= r < |run[i].rings| ==>
      run[i].published[r] == LaneOf(run[i].blocks, r) && run[i].rings[r].dropped == run[i].refused
    ensures run[i].producer.Idle? ==> forall r, q :: 0 <= r < |run[i].rings| && 0 <= q < |run[i].rings| ==>
      |run[i].published[r]| == |run[i].published[q]|
  {
    InitialHolds(storages);
    RunHolds(run, actions, i);
    var s := run[i];
    forall r | 0 <= r < |s.rings|
      ensures LaneHolds(s, r) && RingHolds(s.rings[r], s.consumers[r], s.published[r], s.taken[r]) {}
    if s.producer.Idle? {
      forall r, q | 0 <= r < |s.rings| && 0 <= q < |s.rings| ensures |s.published[r]| == |s.published[q]| {
        LanesAgree(s.blocks, |s.rings|, r, q);
      }
    }
  }

  lemma {:induction false} LanesAgree<S>(blocks: seq<Block<S>>, lanes: nat, r: nat, q: nat)
    requires r < lanes && q < lanes
    requires forall b :: 0 <= b < |blocks| ==> |blocks[b]| == lanes
    requires forall b, l, m :: 0 <= b < |blocks| && 0 <= l < lanes && 0 <= m < lanes ==> |blocks[b][l]| == |blocks[b][m]|
    ensures |LaneOf(blocks, r)| == |LaneOf(blocks, q)|
    decreases |blocks|
  {
    if blocks != [] {
      LanesAgree(blocks[..|blocks| - 1], lanes, r, q);
    }
  }

  /** No step stores into a slot that holds an unread sample. */
  lemma NoUnreadSlotIsOverwritten<S>(s: State<S>, a: Action<S>, r: nat, k: nat)
    requires Inv(s) && r < |s.rings|
    requires Next(s, a).rings[r].read <= k < s.rings[r].write
    ensures |Next(s, a).rings[r].storage| == |s.rings[r].storage|
    ensures Next(s, a).rings[r].storage[Slot(k, |s.rings[r].storage|)] == s.rings[r].storage[Slot(k, |s.rings[r].storage|)]
  {
    hide Slot, Queue;
    assert RingHolds(s.rings[r], s.consumers[r], s.published[r], s.taken[r]);
    if a.Produce? && s.producer.Storing? && s.producer.lane == r && s.producer.index < s.producer.count {
      SlotsDiffer(k, s.rings[r].write + s.producer.index, |s.rings[r].storage|);
    }
  }

  /** The bundle on its own thread: `reserve` asks every ring before it touches one. */
  class LaneRings<S(0)> {
    const rings: seq<LaneRingBuffer<S>>

    ghost predicate Valid()
      reads set r | 0 <= r < |rings| :: rings[r]
    {
      && (forall r :: 0 <= r < |rings| ==> rings[r].Valid())
      && (forall r, q :: 0 <= r < q < |rings| ==> rings[r] != rings[q])
    }

    ghost predicate AllHaveRoom(count: int)
      reads set r | 0 <= r < |rings| :: rings[r]
      reads set r | 0 <= r < |rings| :: rings[r].storage
      requires Valid()
    {
      forall r :: 0 <= r < |rings| ==> |rings[r].Contents()| + count <= rings[r].capacity
    }

    constructor (count: nat, capacity: nat, arith: Samples.Arith<S>)
      ensures Valid() && |rings| == count
      ensures forall r :: 0 <= r < count ==> fresh(rings[r]) && rings[r].Contents() == [] && rings[r].dropped == 0
    {
      var made: seq<LaneRingBuffer<S>> := [];
      while |made| < count
        invariant |made| <= count
        invariant forall r :: 0 <= r < |made| ==>
          fresh(made[r]) && fresh(made[r].storage) && made[r].Valid() && made[r].Contents() == [] && made[r].dropped == 0
        invariant forall r, q :: 0 <= r < q < |made| ==> made[r] != made[q]
      {
        var ring := new LaneRingBuffer<S>(capacity, arith);
        made := made + [ring];
      }
      rings := made;
    }

    method HasRoom(count: int) returns (room: bool)
      requires Valid()
      ensures room <==> AllHaveRoom(count)
    {
      var index := 0;
      while index < |rings|
        invariant 0 <= index <= |rings|
        invariant forall r :: 0 <= r < index ==> |rings[r].Contents()| + count <= rings[r].capacity
      {
        var fits := rings[index].HasRoom(count);
        if !fits { return false; }
        index := index + 1;
      }
      return true;
    }

    /** All or nothing: the block is refused on every ring or on none, and no sample moves. */
    method Reserve(count: nat) returns (reserved: bool)
      requires Valid()
      modifies set r | 0 <= r < |rings| :: rings[r]
      ensures Valid() && reserved == old(AllHaveRoom(count))
      ensures forall r :: 0 <= r < |rings| ==>
        && rings[r].dropped == old(rings[r].dropped) + (if reserved then 0 else count)
        && rings[r].writeIndex == old(rings[r].writeIndex) && rings[r].readIndex == old(rings[r].readIndex)
    {
      reserved := HasRoom(count);
      if reserved { return; }
      var index := 0;
      while index < |rings|
        invariant 0 <= index <= |rings| && Valid()
        invariant forall r :: 0 <= r < |rings| ==>
          && rings[r].dropped == old(rings[r].dropped) + (if r < index then count else 0)
          && rings[r].writeIndex == old(rings[r].writeIndex) && rings[r].readIndex == old(rings[r].readIndex)
      {
        rings[index].dropped := rings[index].dropped + count;
        index := index + 1;
      }
    }

    /** The minimum over the rings, 0 without any. */
    method AvailableToRead() returns (minimum: nat)
      requires Valid()
      ensures forall r :: 0 <= r < |rings| ==> minimum <= |rings[r].Contents()|
      ensures if |rings| == 0 then minimum == 0 else exists r :: 0 <= r < |rings| && minimum == |rings[r].Contents()|
    {
      minimum := 0;
      var index := 0;
      while index < |rings|
        invariant 0 <= index <= |rings|
        invariant forall r :: 0 <= r < index ==> minimum <= |rings[r].Contents()|
        invariant if index == 0 then minimum == 0 else exists r :: 0 <= r < index && minimum == |rings[r].Contents()|
      {
        var available := rings[index].writeIndex - rings[index].readIndex;
        if index == 0 || available < minimum { minimum := available; }
        index := index + 1;
      }
    }
  }
}
