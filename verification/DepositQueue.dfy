/**
 * The deposit load's batch queue (bench-tps/src/load_deposit.rs): one generator, which checks the
 * depth in one critical section and pushes in another, and any number of sender threads.
 */
module DepositQueue {
  import opened Common

  const MAX_QUEUE_DEPTH: nat := 32

  /** Nonces wrap as the sequence counter does. */
  const WORD: nat := U64_MAX + 1

  /** A deposit's memo nonce and the keypair that signs it. */
  datatype Deposit = Deposit(nonce: nat, keypair: nat)

  type Batch = seq<Deposit>

  /** The deposits built from sequence number `seq0` on. */
  function BuiltFrom(seq0: nat, n: nat, keypairs: nat): Batch
    requires keypairs > 0
  {
    if n == 0 then []
    else BuiltFrom(seq0, n - 1, keypairs) + [Deposit((seq0 + n - 1) % WORD, (seq0 + n - 1) % WORD % keypairs)]
  }

  lemma {:induction false} BuiltJoin(seq0: nat, m: nat, n: nat, keypairs: nat)
    requires keypairs > 0
    ensures BuiltFrom(seq0, m, keypairs) + BuiltFrom(seq0 + m, n, keypairs) == BuiltFrom(seq0, m + n, keypairs)
    decreases n
  {
    if n == 0 {
      assert BuiltFrom(seq0, m, keypairs) + [] == BuiltFrom(seq0, m, keypairs);
    } else {
      BuiltJoin(seq0, m, n - 1, keypairs);
      var d := Deposit((seq0 + m + n - 1) % WORD, (seq0 + m + n - 1) % WORD % keypairs);
      assert BuiltFrom(seq0, m, keypairs) + (BuiltFrom(seq0 + m, n - 1, keypairs) + [d])
             == (BuiltFrom(seq0, m, keypairs) + BuiltFrom(seq0 + m, n - 1, keypairs)) + [d];
    }
  }

  lemma {:induction false} BuiltAt(seq0: nat, n: nat, keypairs: nat, i: nat)
    requires keypairs > 0 && i < n
    ensures |BuiltFrom(seq0, n, keypairs)| == n
    ensures BuiltFrom(seq0, n, keypairs)[i] == Deposit((seq0 + i) % WORD, (seq0 + i) % WORD % keypairs)
    decreases n
  {
    if n > 1 {
      BuiltAt(seq0, n - 1, keypairs, if i < n - 1 then i else 0);
    }
  }

  // ---------------------------------------------------------------------------
  // The generator's batch and the shared queue
  // ---------------------------------------------------------------------------

  /** One batch: consecutive nonces, keypairs in rotation, and the wrapped counter for the next. */
  method BuildBatch(txSeq: nat, batchSize: nat, keypairs: nat, ghost built: nat) returns (batch: Batch, next: nat)
    requires keypairs > 0 && txSeq == built % WORD
    ensures batch == BuiltFrom(built, batchSize, keypairs)
    ensures next == (built + batchSize) % WORD
  {
    batch, next := [], txSeq;
    for n := 0 to batchSize
      invariant batch == BuiltFrom(built, n, keypairs) && next == (built + n) % WORD
    {
      batch := batch + [Deposit(next, next % keypairs)];
      WrapStep(built + n);
      next := (next + 1) % WORD;
    }
  }

  lemma {:induction false} WrapStep(a: nat)
    ensures (a % WORD + 1) % WORD == (a + 1) % WORD
  {
  }

  /** The deposits queued, in the order senders will take them. */
  function Flat(batches: seq<Batch>): Batch {
    if batches == [] then [] else Flat(batches[..|batches| - 1]) + batches[|batches| - 1]
  }

  lemma {:induction false} FlatCons(batches: seq<Batch>)
    requires batches != []
    ensures Flat(batches) == batches[0] + Flat(batches[1..])
  {
    var n := |batches|;
    if n == 1 {
      assert batches[1..] == [] && batches[..0] == [];
      assert [] + batches[0] == batches[0] + [];
    } else {
      FlatCons(batches[..n - 1]);
      assert batches[..n - 1][1..] == batches[1..][..n - 2];
    }
  }

  predicate HasRoom(queue: seq<Batch>) {
    |queue| < MAX_QUEUE_DEPTH
  }

  function Pushed(queue: seq<Batch>, batch: Batch): seq<Batch> {
    queue + [batch]
  }

  lemma {:induction false} PushedFlat(queue: seq<Batch>, batch: Batch)
    ensures Flat(Pushed(queue, batch)) == Flat(queue) + batch
    ensures HasRoom(queue) <==> |Pushed(queue, batch)| <= MAX_QUEUE_DEPTH
  {
    assert Pushed(queue, batch)[..|queue|] == queue;
  }

  /** The mutex-guarded deque. */
  class BatchQueue {
    var batches: seq<Batch>

    constructor ()
      ensures batches == []
    {
      batches := [];
    }

    /** The generator's first critical section: room is what one more batch needs. */
    method CheckRoom() returns (room: bool)
      ensures room <==> HasRoom(batches)
      ensures forall batch :: room <==> |Pushed(batches, batch)| <= MAX_QUEUE_DEPTH
    {
      room := |batches| < MAX_QUEUE_DEPTH;
    }

    /** The second: the batch goes behind every deposit already queued. */
    method PushBack(batch: Batch)
      modifies this
      ensures batches == Pushed(old(batches), batch)
      ensures Flat(batches) == Flat(old(batches)) + batch
    {
      PushedFlat(batches, batch);
      batches := batches + [batch];
    }

    /** A sender's: the deposits taken are the first of those queued, and the rest stay in order. */
    method PopFront() returns (batch: Option<Batch>)
      modifies this
      ensures batch.Some? <==> old(batches) != []
      ensures batch.Some? ==> batch.value == old(batches)[0] && batches == old(batches)[1..]
      ensures Flat(old(batches)) == (if batch.Some? then batch.value else []) + Flat(batches)
    {
      if batches == [] {
        assert [] + Flat(batches) == Flat(batches);
        return None;
      }
      FlatCons(batches);
      batch := Some(batches[0]);
      batches := batches[1..];
    }
  }

  // ---------------------------------------------------------------------------
  // Interleavings
  // ---------------------------------------------------------------------------

  /** Between its two critical sections the generator holds a checked turn, then a built batch. */
  datatype Generator = Idle | Checked | Holding(batch: Batch)

  /** `built` counts every deposit ever built; the source's counter is that number wrapped. */
  datatype State = State(queue: seq<Batch>, generator: Generator, built: nat, delivered: Batch)

  const START := State([], Idle, 0, [])

  /** A failed check changes nothing and is no event; a pop is by any sender. */
  datatype Event = Check | Build(batchSize: nat) | Push | Pop

  predicate Enabled(s: State, e: Event) {
    match e
    case Check => s.generator.Idle? && HasRoom(s.queue)
    case Build(_) => s.generator.Checked?
    case Push => s.generator.Holding?
    case Pop => s.queue != []
  }

  function Step(s: State, e: Event, keypairs: nat): State
    requires Enabled(s, e) && keypairs > 0
  {
    match e
    case Check => s.(generator := Checked)
    case Build(n) => s.(generator := Holding(BuiltFrom(s.built, n, keypairs)), built := s.built + n)
    case Push => s.(queue := Pushed(s.queue, s.generator.batch), generator := Idle)
    case Pop => s.(queue := s.queue[1..], delivered := s.delivered + s.queue[0])
  }

  function InHand(s: State): Batch {
    if s.generator.Holding? then s.generator.batch else []
  }

  /**
   * There is room for what the generator is about to push, and the deposits taken by senders, then
   * those queued, then those in hand, are exactly those built, in order.
   */
  predicate Inv(s: State, keypairs: nat)
    requires keypairs > 0
  {
    && (if s.generator.Idle? then |s.queue| <= MAX_QUEUE_DEPTH else HasRoom(s.queue))
    && s.delivered + Flat(s.queue) + InHand(s) == BuiltFrom(0, s.built, keypairs)
  }

  lemma {:induction false} PushKeepsOrder(delivered: Batch, queue: seq<Batch>, batch: Batch)
    ensures delivered + Flat(queue) + batch == delivered + Flat(Pushed(queue, batch)) + []
  {
    PushedFlat(queue, batch);
    assert delivered + Flat(queue) + batch == delivered + (Flat(queue) + batch) + [];
  }

  lemma {:induction false} PopKeepsOrder(delivered: Batch, queue: seq<Batch>, hand: Batch)
    requires queue != []
    ensures delivered + Flat(queue) + hand == (delivered + queue[0]) + Flat(queue[1..]) + hand
  {
    FlatCons(queue);
    assert delivered + (queue[0] + Flat(queue[1..])) == (delivered + queue[0]) + Flat(queue[1..]);
  }

  lemma {:induction false} StepKeepsInv(s: State, e: Event, keypairs: nat)
    requires keypairs > 0 && Inv(s, keypairs) && Enabled(s, e)
    ensures Inv(Step(s, e, keypairs), keypairs)
  {
    match e
    case Check =>
    case Build(n) =>
      BuiltJoin(0, s.built, n, keypairs);
      assert s.delivered + Flat(s.queue) + [] == s.delivered + Flat(s.queue);
    case Push =>
      PushKeepsOrder(s.delivered, s.queue, s.generator.batch);
    case Pop =>
      PopKeepsOrder(s.delivered, s.queue, InHand(s));
  }

  /** Runs, newest event last. */
  datatype Run = Start | More(run: Run, last: Event)

  predicate Valid(r: Run, keypairs: nat)
    requires keypairs > 0
    decreases r, 0
  {
    r.More? ==> Valid(r.run, keypairs) && Enabled(Reached(r.run, keypairs), r.last)
  }

  function Reached(r: Run, keypairs: nat): State
    requires keypairs > 0
    decreases r, 1
  {
    match r
    case Start => START
    case More(before, e) =>
      var s := Reached(before, keypairs);
      if Enabled(s, e) then Step(s, e, keypairs) else s
  }

  lemma {:induction false} RunKeepsInv(r: Run, keypairs: nat)
    requires keypairs > 0 && Valid(r, keypairs)
    ensures Inv(Reached(r, keypairs), keypairs)
  {
    if r.More? {
      RunKeepsInv(r.run, keypairs);
      StepKeepsInv(Reached(r.run, keypairs), r.last, keypairs);
    } else {
      assert Reached(r, keypairs) == START;
    }
  }

  /** The queue never passes its depth, though the generator checks and pushes in separate critical sections. */
  lemma {:induction false} DepthHolds(r: Run, keypairs: nat)
    requires keypairs > 0 && Valid(r, keypairs)
    ensures |Reached(r, keypairs).queue| <= MAX_QUEUE_DEPTH
  {
    RunKeepsInv(r, keypairs);
  }

  /**
   * Senders between them take exactly the first deposits built, in order, each signed by the next
   * keypair in rotation; so within one wrap of the counter no nonce is delivered twice.
   */
  lemma {:induction false} DeliveredInOrder(r: Run, keypairs: nat, i: nat)
    requires keypairs > 0 && Valid(r, keypairs) && i < |Reached(r, keypairs).delivered|
    ensures |Reached(r, keypairs).delivered| <= Reached(r, keypairs).built
    ensures Reached(r, keypairs).delivered[i] == Deposit(i % WORD, i % WORD % keypairs)
  {
    RunKeepsInv(r, keypairs);
    var s := Reached(r, keypairs);
    var all := s.delivered + Flat(s.queue) + InHand(s);
    assert all[i] == s.delivered[i];
    BuiltSize(0, s.built, keypairs);
    BuiltAt(0, s.built, keypairs, i);
  }

  lemma {:induction false} BuiltSize(seq0: nat, n: nat, keypairs: nat)
    requires keypairs > 0
    ensures |BuiltFrom(seq0, n, keypairs)| == n
    decreases n
  {
    if n > 0 {
      BuiltSize(seq0, n - 1, keypairs);
    }
  }

  /** Two deliveries carry one nonce exactly when they are a whole number of wraps apart. */
  lemma {:induction false} NonceRepeatsIffWrapped(r: Run, keypairs: nat, i: nat, j: nat)
    requires keypairs > 0 && Valid(r, keypairs) && i < j < |Reached(r, keypairs).delivered|
    ensures Reached(r, keypairs).delivered[i].nonce == Reached(r, keypairs).delivered[j].nonce <==> (j - i) % WORD == 0
  {
    DeliveredInOrder(r, keypairs, i);
    DeliveredInOrder(r, keypairs, j);
    SameRemainder(i, j);
  }

  lemma {:induction false} SameRemainder(i: nat, j: nat)
    requires i <= j
    ensures i % WORD == j % WORD <==> (j - i) % WORD == 0
  {
  }
}
