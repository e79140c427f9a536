/**
 * The withdraw indexer's restore detector (indexer/src/channel_fence.rs): at boot it asks a
 * read node whether the channel still holds the last block the indexer committed.
 */
module ChannelFence {
  import opened Common
  import opened Slots

  // ---------------------------------------------------------------------------
  // The check, over the replies it receives
  // ---------------------------------------------------------------------------

  datatype Fence = Fence(slot: nat, blockhash: string)

  /** The fence block with the checkpoint flushed beside it. */
  datatype FenceRecord = FenceRecord(fence: Fence, checkpoint: nat)

  /** `(blockhash, parentSlot)` of one block. */
  datatype Summary = Summary(hash: string, parent: nat)

  datatype Reply<+T> = Failed | Got(value: T)

  /** The replies one probe may draw, in call order. A call not made leaves its reply unread. */
  datatype Replies = Replies(
    tip: Reply<nat>,
    fenceBlock: Reply<Option<Summary>>,
    floor: Reply<nat>,
    laterSlots: Reply<seq<nat>>,
    laterBlock: Reply<Option<Summary>>)

  datatype Evidence =
    | OtherHash(hash: string)
    | FillsGap(next: nat)
    | SkipsFence(later: nat, parent: nat)

  datatype Verdict = Sound | Mismatch(evidence: Evidence) | Unavailable

  datatype Probe = Final(verdict: Verdict) | Retry

  /** `probe`: the tip, then the fence block, then whichever proof its presence calls for. */
  function ProbeOnce(record: FenceRecord, r: Replies): Probe {
    if r.tip.Failed? then Final(Unavailable)
    else if r.tip.value < record.fence.slot then Retry
    else
      match r.fenceBlock
      case Failed => Final(Unavailable)
      case Got(None) => ProbeMissingBlock(record.fence, r)
      case Got(Some(block)) =>
        if block.hash == record.fence.blockhash then ProbeGap(record, r)
        else Final(Mismatch(OtherHash(block.hash)))
  }

  /** `probe_gap`: slots between the fence block and the checkpoint must still be empty. */
  function ProbeGap(record: FenceRecord, r: Replies): Probe {
    if record.checkpoint <= record.fence.slot then Final(Sound)
    else if r.laterSlots.Failed? then Final(Unavailable)
    else if r.laterSlots.value == [] then Retry
    else if r.laterSlots.value[0] <= record.checkpoint then Final(Mismatch(FillsGap(r.laterSlots.value[0])))
    else Final(Sound)
  }

  /** `probe_missing_block`: only a later block whose parent is below the fence proves a skip. */
  function ProbeMissingBlock(fence: Fence, r: Replies): Probe {
    if r.floor.Failed? || fence.slot < r.floor.value then Final(Unavailable)
    else if r.laterSlots.Failed? then Final(Unavailable)
    else if r.laterSlots.value == [] then Retry
    else
      match r.laterBlock
      case Failed => Final(Unavailable)
      case Got(None) => Retry
      case Got(Some(block)) =>
        if block.parent < fence.slot then Final(Mismatch(SkipsFence(r.laterSlots.value[0], block.parent)))
        else Retry
  }

  /** The run ends at probe `n`: every earlier one asked for another look within the budget. */
  ghost predicate EndsAt(
    record: FenceRecord, budget: nat, replies: nat -> Replies, elapsed: nat -> nat, n: nat, verdict: Verdict)
  {
    && (forall k: nat :: k < n ==> ProbeOnce(record, replies(k)).Retry? && elapsed(k) < budget)
    && (match ProbeOnce(record, replies(n))
        case Final(v) => verdict == v
        case Retry => budget <= elapsed(n) && verdict == Unavailable)
  }

  /**
   * `verify_channel_fence`: probe until a verdict or until the budget is spent. `replies(k)` and
   * `elapsed(k)` are what the k-th probe and the clock after it return; each sleep lasts `poll`.
   */
  method VerifyChannelFence(
    record: Option<FenceRecord>, poll: nat, budget: nat, replies: nat -> Replies, elapsed: nat -> nat)
    returns (verdict: Verdict, probes: nat)
    requires 0 < poll
    requires forall k: nat :: elapsed(k) + poll <= elapsed(k + 1)
    ensures record.None? ==> verdict == Sound && probes == 0
    ensures record.Some? ==> probes > 0 && EndsAt(record.value, budget, replies, elapsed, probes - 1, verdict)
  {
    if record.None? {
      return Sound, 0;
    }
    probes := 0;
    while true
      invariant forall k: nat :: k < probes ==> ProbeOnce(record.value, replies(k)).Retry? && elapsed(k) < budget
      decreases budget - elapsed(probes)
    {
      var probe := ProbeOnce(record.value, replies(probes));
      probes := probes + 1;
      match probe {
        case Final(v) => return v, probes;
        case Retry =>
      }
      if budget <= elapsed(probes - 1) {
        return Unavailable, probes;
      }
      assert elapsed(probes - 1) + poll <= elapsed(probes - 1 + 1);
    }
  }

  // ---------------------------------------------------------------------------
  // The channel and the nodes that serve it
  // ---------------------------------------------------------------------------

  datatype Block = Block(slot: nat, hash: string, parent: nat)

  /** Slots increase, each block names the one before it, and the first names itself. */
  predicate ValidChain(c: seq<Block>) {
    && (forall i, j :: 0 <= i < j < |c| ==> c[i].slot < c[j].slot)
    && (forall i :: 0 < i < |c| ==> c[i].parent == c[i - 1].slot)
    && (c != [] ==> c[0].parent == c[0].slot)
  }

  /**
   * A read node at one instant: the first `synced` blocks replicated in order, those below
   * `floor` truncated, a cached `tip` that may run ahead, and blocks served from a cache.
   */
  datatype Node = Node(chain: seq<Block>, synced: nat, floor: nat, tip: nat, cached: set<nat>)

  predicate ValidNode(n: Node) {
    ValidChain(n.chain) && n.synced <= |n.chain|
  }

  function BlockSlots(c: seq<Block>): seq<int> {
    seq(|c|, i requires 0 <= i < |c| => c[i].slot)
  }

  /** Index of the first block at or after slot `s`. */
  function FirstFrom(c: seq<Block>, s: nat): (i: nat)
    ensures i <= |c|
  {
    CountBelow(BlockSlots(c), s)
  }

  function SummaryAt(n: Node, slot: nat): Option<Summary> {
    var i := FirstFrom(n.chain, slot);
    if i < |n.chain| && n.chain[i].slot == slot && (slot in n.cached || (i < n.synced && n.floor <= slot))
    then Some(Summary(n.chain[i].hash, n.chain[i].parent)) else None
  }

  /** `getBlocksWithLimit(start, 1)`, which reads the replica and never the cache. */
  function FirstListed(n: Node, start: nat): seq<nat>
    requires n.synced <= |n.chain|
  {
    var i := FirstFrom(n.chain, Max(start, n.floor));
    if i < n.synced then [n.chain[i].slot] else []
  }

  /** Each reply is an error, or what the node held when that call reached it. */
  predicate Served(r: Replies, at: seq<Node>, fenceSlot: nat)
    requires ValidNodes(at)
  {
    assert ValidNode(at[3]);
    && (r.tip.Got? ==> r.tip.value == at[0].tip)
    && (r.fenceBlock.Got? ==> r.fenceBlock.value == SummaryAt(at[1], fenceSlot))
    && (r.floor.Got? ==> r.floor.value == at[2].floor)
    && (r.laterSlots.Got? ==> r.laterSlots.value == FirstListed(at[3], fenceSlot + 1))
    && (r.laterSlots.Got? && r.laterSlots.value != [] && r.laterBlock.Got?
        ==> r.laterBlock.value == SummaryAt(at[4], r.laterSlots.value[0]))
  }

  predicate ValidNodes(at: seq<Node>) {
    |at| == 5 && forall j :: 0 <= j < 5 ==> ValidNode(at[j])
  }

  /**
   * The chain holds the fence block at `i`, and shows every slot up to the checkpoint empty:
   * the next block, which the indexer saw, is past it.
   */
  predicate Witnesses(record: FenceRecord, c: seq<Block>, i: nat) {
    && i < |c|
    && c[i].slot == record.fence.slot
    && c[i].hash == record.fence.blockhash
    && (record.fence.slot < record.checkpoint ==> i + 1 < |c| && record.checkpoint < c[i + 1].slot)
  }

  // ---------------------------------------------------------------------------
  // Indexing
  // ---------------------------------------------------------------------------

  lemma {:induction false} FirstFromSplits(c: seq<Block>, s: nat)
    ensures forall i :: 0 <= i < FirstFrom(c, s) ==> c[i].slot < s
    ensures FirstFrom(c, s) < |c| ==> s <= c[FirstFrom(c, s)].slot
  {
    CountBelowSplits(BlockSlots(c), s);
    forall i | 0 <= i < FirstFrom(c, s) ensures c[i].slot < s {
      assert BlockSlots(c)[i] == c[i].slot;
    }
  }

  lemma {:induction false} FirstFromIs(c: seq<Block>, s: nat, i: nat)
    requires i <= |c|
    requires forall k :: 0 <= k < i ==> c[k].slot < s
    requires i < |c| ==> s <= c[i].slot
    ensures FirstFrom(c, s) == i
  {
    CountBelowIs(BlockSlots(c), s, i);
  }

  /** In a chain holding slot `s` at `i`, looking from `s` finds it and from after `s` its successor. */
  lemma {:induction false} FirstFromHeld(c: seq<Block>, i: nat)
    requires ValidChain(c) && i < |c|
    ensures FirstFrom(c, c[i].slot) == i
    ensures FirstFrom(c, c[i].slot + 1) == i + 1
  {
    FirstFromIs(c, c[i].slot, i);
    FirstFromIs(c, c[i].slot + 1, i + 1);
  }

  /** Looking from a later slot never finds an earlier block. */
  lemma {:induction false} FirstFromMonotone(c: seq<Block>, a: nat, b: nat)
    requires a <= b
    ensures FirstFrom(c, a) <= FirstFrom(c, b)
  {
    CountBelowMonotone(BlockSlots(c), a, b);
  }

  /** Whatever a grown chain lists after the fence is past every slot proven empty. */
  lemma {:induction false} ListedAfterFence(record: FenceRecord, n: Node, i: nat)
    requires ValidNode(n) && Witnesses(record, n.chain, i)
    requires FirstListed(n, record.fence.slot + 1) != []
    ensures record.fence.slot < FirstListed(n, record.fence.slot + 1)[0]
    ensures record.fence.slot < record.checkpoint ==> record.checkpoint < FirstListed(n, record.fence.slot + 1)[0]
  {
    var c, start := n.chain, record.fence.slot + 1;
    FirstFromHeld(c, i);
    FirstFromMonotone(c, start, Max(start, n.floor));
    var k := FirstFrom(c, Max(start, n.floor));
    assert i + 1 <= k;
    assert k == i + 1 || c[i + 1].slot < c[k].slot;
    FirstFromSplits(c, Max(start, n.floor));
  }

  /** A block after the fence block names a parent at or after it. */
  lemma {:induction false} ParentAfterFence(record: FenceRecord, n: Node, i: nat, later: nat)
    requires ValidNode(n) && Witnesses(record, n.chain, i)
    requires record.fence.slot < later && SummaryAt(n, later).Some?
    ensures record.fence.slot <= SummaryAt(n, later).value.parent
  {
    var c := n.chain;
    var k := FirstFrom(c, later);
    assert c[k].slot == later;
    assert i < k;
    assert i == k - 1 || c[i].slot < c[k - 1].slot;
  }

  // ---------------------------------------------------------------------------
  // No false alarm
  // ---------------------------------------------------------------------------

  /** Every node of one probe serves a growth of the chain the indexer saw. */
  predicate GrownFrom(indexed: seq<Block>, at: seq<Node>)
    requires ValidNodes(at)
  {
    forall j :: 0 <= j < 5 ==> indexed <= at[j].chain
  }

  lemma {:induction false} ProbeNeverCriesWolf(
    record: FenceRecord, r: Replies, at: seq<Node>, indexed: seq<Block>, i: nat)
    requires ValidNodes(at) && Served(r, at, record.fence.slot)
    requires Witnesses(record, indexed, i) && GrownFrom(indexed, at)
    ensures ProbeOnce(record, r) != Final(Sound) ==> ProbeOnce(record, r) in {Final(Unavailable), Retry}
  {
    assert forall j :: 0 <= j < 5 ==> Witnesses(record, at[j].chain, i);
    FirstFromHeld(at[1].chain, i);
    if r.laterSlots.Got? && r.laterSlots.value != [] {
      ListedAfterFence(record, at[3], i);
      if r.laterBlock.Got? && r.laterBlock.value.Some? {
        ParentAfterFence(record, at[4], i, r.laterSlots.value[0]);
      }
    }
  }

  /**
   * Over every run in which the channel only grows from the chain the indexer saw, whatever the
   * lag, truncation, caching or errors between calls, the check never reports a mismatch.
   */
  lemma {:induction false} NeverCriesWolf(
    record: FenceRecord, budget: nat, replies: nat -> Replies, elapsed: nat -> nat, nodes: nat -> seq<Node>,
    indexed: seq<Block>, i: nat, n: nat, verdict: Verdict)
    requires Witnesses(record, indexed, i)
    requires forall k: nat ::
               && ValidNodes(nodes(k)) && GrownFrom(indexed, nodes(k))
               && Served(replies(k), nodes(k), record.fence.slot)
    requires EndsAt(record, budget, replies, elapsed, n, verdict)
    ensures !verdict.Mismatch?
  {
    assert ValidNodes(nodes(n));
    ProbeNeverCriesWolf(record, replies(n), nodes(n), indexed, i);
  }

  // ---------------------------------------------------------------------------
  // Lag is waited out, errors decide nothing
  // ---------------------------------------------------------------------------

  predicate ErrorFree(r: Replies) {
    r.tip.Got? && r.fenceBlock.Got? && r.floor.Got? && r.laterSlots.Got? && r.laterBlock.Got?
  }

  /** A probe without errors of a channel that only grew, on nodes not truncated past the fence. */
  predicate HonestView(record: FenceRecord, r: Replies, at: seq<Node>, indexed: seq<Block>, i: nat) {
    && ErrorFree(r) && ValidNodes(at) && Served(r, at, record.fence.slot)
    && Witnesses(record, indexed, i) && GrownFrom(indexed, at) && at[2].floor <= record.fence.slot
  }

  /** The tip has reached the fence, its block is served, and a block past the gap is if there is one to check. */
  predicate CaughtUp(record: FenceRecord, at: seq<Node>)
    requires ValidNodes(at)
  {
    assert ValidNode(at[3]);
    && record.fence.slot <= at[0].tip && SummaryAt(at[1], record.fence.slot).Some?
    && (record.fence.slot < record.checkpoint ==> FirstListed(at[3], record.fence.slot + 1) != [])
  }

  /** Such a probe is sound once the nodes have caught up, and until then asks for another look. */
  lemma {:induction false} HonestProbeWaits(
    record: FenceRecord, r: Replies, at: seq<Node>, indexed: seq<Block>, i: nat)
    requires HonestView(record, r, at, indexed, i)
    ensures ProbeOnce(record, r) == if CaughtUp(record, at) then Final(Sound) else Retry
  {
    ProbeNeverCriesWolf(record, r, at, indexed, i);
  }

  /** A run ends at one probe and with one verdict. */
  lemma {:induction false} EndsOnce(
    record: FenceRecord, budget: nat, replies: nat -> Replies, elapsed: nat -> nat, n: nat, v: Verdict,
    m: nat, w: Verdict)
    requires EndsAt(record, budget, replies, elapsed, n, v) && EndsAt(record, budget, replies, elapsed, m, w)
    ensures n == m && v == w
  {
  }

  /**
   * Every lag is waited out: if all probes up to the `n`-th are honest, those before it within budget, and
   * the `n`-th is the first to meet nodes that caught up, the run ends there, and sound.
   */
  lemma {:induction false} LagIsWaitedOut(
    record: FenceRecord, budget: nat, replies: nat -> Replies, elapsed: nat -> nat, nodes: nat -> seq<Node>,
    indexed: seq<Block>, i: nat, n: nat)
    requires forall k: nat :: k < n ==>
               && HonestView(record, replies(k), nodes(k), indexed, i) && !CaughtUp(record, nodes(k))
               && elapsed(k) < budget
    requires HonestView(record, replies(n), nodes(n), indexed, i) && CaughtUp(record, nodes(n))
    ensures EndsAt(record, budget, replies, elapsed, n, Sound)
    ensures forall m: nat, v :: EndsAt(record, budget, replies, elapsed, m, v) ==> m == n && v == Sound
  {
    forall k: nat | k <= n
      ensures ProbeOnce(record, replies(k)) == if k == n then Final(Sound) else Retry
    {
      HonestProbeWaits(record, replies(k), nodes(k), indexed, i);
    }
    forall m: nat, v | EndsAt(record, budget, replies, elapsed, m, v)
      ensures m == n && v == Sound
    {
      EndsOnce(record, budget, replies, elapsed, n, Sound, m, v);
    }
  }

  /** Where one set of replies has an answer, so does the other, and the same. */
  predicate Repairs<T(==)>(a: Reply<T>, b: Reply<T>) {
    a.Got? ==> b == a
  }

  /**
   * A failed call decides nothing but that the check is unavailable: any other result stands whatever the
   * failed calls would have said.
   */
  lemma {:induction false} ErrorsDecideNothing(record: FenceRecord, r: Replies, s: Replies)
    requires Repairs(r.tip, s.tip) && Repairs(r.fenceBlock, s.fenceBlock) && Repairs(r.floor, s.floor)
    requires Repairs(r.laterSlots, s.laterSlots) && Repairs(r.laterBlock, s.laterBlock)
    ensures ProbeOnce(record, r) != Final(Unavailable) ==> ProbeOnce(record, s) == ProbeOnce(record, r)
  {
  }

  /** Without errors it is unavailable if and only if the fence block is not served, being truncated away. */
  lemma {:induction false} UnavailableIffTruncated(record: FenceRecord, r: Replies)
    requires ErrorFree(r)
    ensures ProbeOnce(record, r) == Final(Unavailable)
            <==> record.fence.slot <= r.tip.value && r.fenceBlock.value == None && record.fence.slot < r.floor.value
  {
  }

  // ---------------------------------------------------------------------------
  // A sound verdict is safe
  // ---------------------------------------------------------------------------

  /** A block hash fixes the block and everything before it. */
  predicate HashesBind(a: seq<Block>, b: seq<Block>) {
    forall i, j :: 0 <= i < |a| && 0 <= j < |b| && a[i].hash == b[j].hash ==> a[..i + 1] == b[..j + 1]
  }

  /** A listing from the slot after a block, on a view not truncated past it, starts at that block's successor. */
  lemma {:induction false} ListingStartsNext(node: Node, channel: seq<Block>, i: nat)
    requires ValidNode(node) && ValidChain(channel) && node.chain <= channel && i < |channel|
    requires node.floor <= channel[i].slot + 1 && FirstListed(node, channel[i].slot + 1) != []
    ensures i + 1 < |channel| && FirstListed(node, channel[i].slot + 1) == [channel[i + 1].slot]
  {
    var m := FirstFrom(node.chain, channel[i].slot + 1);
    FirstFromSplits(node.chain, channel[i].slot + 1);
    assert node.chain[m] == channel[m];
    assert i < m;
    FirstFromHeld(node.chain, i);
  }

  lemma {:induction false} SoundFindsFence(
    record: FenceRecord, r: Replies, at: seq<Node>, channel: seq<Block>, indexed: seq<Block>, i: nat)
    requires ValidNodes(at) && Served(r, at, record.fence.slot)
    requires ValidChain(channel) && at[1].chain <= channel
    requires Witnesses(record, indexed, i) && HashesBind(indexed, channel)
    requires ProbeOnce(record, r) == Final(Sound)
    ensures indexed[..i + 1] <= channel
  {
    var k := FirstFrom(at[1].chain, record.fence.slot);
    assert at[1].chain[k] == channel[k];
    assert indexed[..i + 1] == channel[..k + 1];
  }

  /**
   * A sound verdict means the channel, and whatever it grows into, agrees with the indexed chain
   * through the checkpoint, provided the node had not truncated past the fence if it had to list a gap.
   */
  lemma {:induction false} SoundIsSafe(
    record: FenceRecord, r: Replies, at: seq<Node>, channel: seq<Block>, indexed: seq<Block>, i: nat)
    requires ValidNodes(at) && Served(r, at, record.fence.slot)
    requires ValidChain(channel) && forall j :: 0 <= j < 5 ==> at[j].chain <= channel
    requires Witnesses(record, indexed, i) && HashesBind(indexed, channel)
    requires record.fence.slot < record.checkpoint ==> at[3].floor <= record.fence.slot + 1
    requires ProbeOnce(record, r) == Final(Sound)
    ensures indexed[..i + 1] <= channel
    ensures Witnesses(record, channel, i)
  {
    SoundFindsFence(record, r, at, channel, indexed, i);
    assert indexed[..i + 1][i] == channel[i];
    if record.fence.slot < record.checkpoint {
      ListingStartsNext(at[3], channel, i);
    }
  }

  /** A restored channel the probe calls sound although it fills slots the indexer saw empty. */
  ghost predicate HidesGap(
    record: FenceRecord, floor: nat, indexed: seq<Block>, channel: seq<Block>, at: seq<Node>, r: Replies)
  {
    && ValidNodes(at) && Served(r, at, record.fence.slot)
    && (forall j :: 0 <= j < 5 ==> at[j].chain == channel)
    && at[1].floor == 0 && at[3].floor == floor
    && Witnesses(record, indexed, 0) && HashesBind(indexed, channel)
    && ProbeOnce(record, r) == Final(Sound)
    && !Witnesses(record, channel, 0)
  }

  /**
   * The proviso is exact: for any floor past the slot after the fence there is a restored chain
   * that fills the gap and is still reported sound.
   */
  lemma {:induction false} TruncatedGapCanHide(
    record: FenceRecord, floor: nat, seen: string, fill: string, next: string)
    requires record.fence.slot + 1 < floor && record.fence.slot < record.checkpoint
    requires seen != fill && fill != next && seen != next && record.fence.blockhash !in {seen, fill, next}
    ensures exists indexed, channel, at, r :: HidesGap(record, floor, indexed, channel, at, r)
  {
    var top := Max(floor, record.checkpoint + 1);
    GapUnindexed(record, top, seen, fill, next);
    GapFilledAnswers(record.fence, top, fill, next, 0);
    GapFilledAnswers(record.fence, top, fill, next, floor);
    var indexed, channel := GapEmpty(record.fence, top, seen), GapFilled(record.fence, top, fill, next);
    ListedPastHidesGap(record, indexed, channel, floor, top);
  }

  /** The fence block and one at `top`. */
  function GapEmpty(fence: Fence, top: nat, seen: string): seq<Block> {
    [Block(fence.slot, fence.blockhash, fence.slot), Block(top, seen, fence.slot)]
  }

  lemma {:induction false} GapUnindexed(record: FenceRecord, top: nat, seen: string, fill: string, next: string)
    requires record.fence.slot < record.checkpoint < top
    requires seen != fill && fill != next && seen != next && record.fence.blockhash !in {seen, fill, next}
    ensures var indexed, channel := GapEmpty(record.fence, top, seen), GapFilled(record.fence, top, fill, next);
            HashesBind(indexed, channel) && Witnesses(record, indexed, 0) && !Witnesses(record, channel, 0)
  {
    OnlyFirstShared(GapEmpty(record.fence, top, seen), GapFilled(record.fence, top, fill, next));
  }

  /** A node that truncates between a probe's reads of the fence and its listing. */
  function CutAfterFence(channel: seq<Block>, floor: nat): seq<Node> {
    var whole, truncated := Holding(channel, 0), Holding(channel, floor);
    [whole, whole, whole, truncated, truncated]
  }

  function PastTheGap(record: FenceRecord, top: nat): Replies {
    var fence := record.fence;
    Replies(Got(top), Got(Some(Summary(fence.blockhash, fence.slot))), Failed, Got([top]), Failed)
  }

  lemma {:induction false} ListedPastHidesGap(
    record: FenceRecord, indexed: seq<Block>, channel: seq<Block>, floor: nat, top: nat)
    requires ValidChain(channel) && record.fence.slot < record.checkpoint < top == Holding(channel, 0).tip
    requires SummaryAt(Holding(channel, 0), record.fence.slot)
             == Some(Summary(record.fence.blockhash, record.fence.slot))
    requires FirstListed(Holding(channel, floor), record.fence.slot + 1) == [top]
    requires HashesBind(indexed, channel) && Witnesses(record, indexed, 0) && !Witnesses(record, channel, 0)
    ensures HidesGap(record, floor, indexed, channel, CutAfterFence(channel, floor), PastTheGap(record, top))
  {
  }

  /** The fence block, a block right after it, and one at `top`. */
  function GapFilled(fence: Fence, top: nat, fill: string, next: string): seq<Block> {
    [Block(fence.slot, fence.blockhash, fence.slot), Block(fence.slot + 1, fill, fence.slot),
      Block(top, next, fence.slot + 1)]
  }

  /** A node holding all of a chain, truncated below `floor`. */
  function Holding(channel: seq<Block>, floor: nat): Node {
    Node(channel, |channel|, floor, if channel == [] then 0 else channel[|channel| - 1].slot, {})
  }

  lemma {:induction false} GapFilledAnswers(fence: Fence, top: nat, fill: string, next: string, floor: nat)
    requires fence.slot + 1 < top && floor <= top
    ensures var channel := GapFilled(fence, top, fill, next);
            var node := Holding(channel, floor);
            && ValidChain(channel) && node.tip == top
            && (floor <= fence.slot ==> SummaryAt(node, fence.slot) == Some(Summary(fence.blockhash, fence.slot)))
            && FirstListed(node, fence.slot + 1) == [if floor <= fence.slot + 1 then fence.slot + 1 else top]
  {
    var channel := GapFilled(fence, top, fill, next);
    FirstFromIs(channel, fence.slot, 0);
    FirstFromIs(channel, Max(fence.slot + 1, floor), if floor <= fence.slot + 1 then 1 else 2);
  }

  lemma {:induction false} OnlyFirstShared(a: seq<Block>, b: seq<Block>)
    requires a != [] && b != [] && a[0] == b[0]
    requires forall i, j :: 0 <= i < |a| && 0 <= j < |b| && (i, j) != (0, 0) ==> a[i].hash != b[j].hash
    ensures HashesBind(a, b)
  {
    assert a[..1] == b[..1];
  }

  // ---------------------------------------------------------------------------
  // A restore is caught
  // ---------------------------------------------------------------------------

  /** An error-free view: untruncated at the fence, and replicated past it. */
  predicate ClearView(r: Replies, at: seq<Node>, channel: seq<Block>, fenceSlot: nat)
    requires ValidNodes(at)
  {
    && r.tip.Got? && r.fenceBlock.Got? && r.floor.Got? && r.laterSlots.Got? && r.laterBlock.Got?
    && fenceSlot <= at[0].tip
    && (forall j :: 0 <= j < 5 ==>
          && at[j].chain == channel
          && at[j].floor <= fenceSlot
          && FirstFrom(channel, fenceSlot + 1) < at[j].synced)
  }

  /** What the first block at or after the fence, and the first after it, show. */
  function Expected(record: FenceRecord, here: Block, next: Block): Verdict {
    if here.slot != record.fence.slot then Mismatch(SkipsFence(next.slot, next.parent))
    else if here.hash != record.fence.blockhash then Mismatch(OtherHash(here.hash))
    else if record.fence.slot < record.checkpoint && next.slot <= record.checkpoint then Mismatch(FillsGap(next.slot))
    else Sound
  }

  lemma {:induction false} FenceBeforeNext(channel: seq<Block>, slot: nat)
    requires ValidChain(channel) && FirstFrom(channel, slot + 1) < |channel|
    ensures var i, k := FirstFrom(channel, slot), FirstFrom(channel, slot + 1);
            && i < |channel| && slot <= channel[i].slot && slot < channel[k].slot
            && k == (if channel[i].slot == slot then i + 1 else i)
            && (channel[0].slot <= slot < channel[i].slot ==> channel[k].parent < slot)
  {
    FirstFromMonotone(channel, slot, slot + 1);
    FirstFromSplits(channel, slot);
    FirstFromSplits(channel, slot + 1);
    var i := FirstFrom(channel, slot);
    if channel[i].slot == slot {
      FirstFromHeld(channel, i);
    } else {
      FirstFromIs(channel, slot + 1, i);
      if channel[0].slot <= slot {
        assert channel[i].parent == channel[i - 1].slot;
      }
    }
  }

  /**
   * One clear view decides: a chain that replaces the fence block, skips its slot or fills the gap
   * is reported with that evidence, and any other is sound. Nothing is left to a retry.
   */
  lemma {:induction false} ClearViewDecides(
    record: FenceRecord, r: Replies, at: seq<Node>, channel: seq<Block>, i: nat, k: nat)
    requires ValidNodes(at) && Served(r, at, record.fence.slot) && ValidChain(channel)
    requires ClearView(r, at, channel, record.fence.slot)
    requires channel[0].slot <= record.fence.slot
    requires i == FirstFrom(channel, record.fence.slot) && k == FirstFrom(channel, record.fence.slot + 1)
    ensures i < |channel| && k < |channel|
    ensures ProbeOnce(record, r) == Final(Expected(record, channel[i], channel[k]))
    ensures Expected(record, channel[i], channel[k]) == Sound <==> Witnesses(record, channel, i)
  {
    var slot := record.fence.slot;
    FenceBeforeNext(channel, slot);
    assert r.laterSlots.value == [channel[k].slot];
    FirstFromHeld(channel, k);
    assert r.laterBlock.value == Some(Summary(channel[k].hash, channel[k].parent));
    assert r.fenceBlock.value == if channel[i].slot == slot then Some(Summary(channel[i].hash, channel[i].parent))
      else None;
  }

  /** A chain shows the indexer's fence nowhere but at the first block from the fence slot. */
  lemma {:induction false} WitnessedOnce(record: FenceRecord, channel: seq<Block>, j: nat)
    requires ValidChain(channel) && Witnesses(record, channel, j)
    ensures j == FirstFrom(channel, record.fence.slot)
  {
    FirstFromHeld(channel, j);
  }

  // ---------------------------------------------------------------------------
  // Verdicts stand
  // ---------------------------------------------------------------------------

  /** Node `b` is a later state of the node that was `a`: a block leaves the cache only once it is replicated. */
  predicate Later(a: Node, b: Node) {
    && a.chain <= b.chain && a.synced <= b.synced && a.floor <= b.floor
    && forall s :: s in a.cached ==> s in b.cached || FirstFrom(b.chain, s) < b.synced
  }

  /** One probe's calls meet a node that only ever truncates more. */
  predicate FloorsRise(at: seq<Node>)
    requires ValidNodes(at)
  {
    forall j, k :: 0 <= j < k < 5 ==> at[j].floor <= at[k].floor
  }

  /**
   * What a later probe must still find to repeat a verdict. If it is served the fence block and has a gap
   * to list, the list starts right after the fence, or the verdict was sound and anything is listed. If
   * it is not, and does not see the slot truncated, the list starts there and its block is still served.
   */
  predicate Retains(record: FenceRecord, verdict: Verdict, at: seq<Node>)
    requires ValidNodes(at)
  {
    assert ValidNode(at[3]);
    var f := record.fence.slot;
    var listed := FirstListed(at[3], f + 1);
    match SummaryAt(at[1], f)
    case Some(block) =>
      block.hash == record.fence.blockhash && f < record.checkpoint ==>
        at[3].floor <= f + 1 || (verdict == Sound && listed != [])
    case None =>
      at[2].floor <= f ==>
        && at[3].floor <= f + 1
        && (listed != [] ==> at[4].floor <= listed[0] || listed[0] in at[4].cached)
  }

  /** A later view serves the same summary, unless it has truncated the slot away. */
  lemma {:induction false} SummaryStands(a: Node, b: Node, slot: nat)
    requires ValidNode(a) && ValidNode(b) && Later(a, b) && (b.floor <= slot || slot in b.cached)
    requires SummaryAt(a, slot).Some?
    ensures SummaryAt(b, slot) == SummaryAt(a, slot)
  {
    var i := FirstFrom(a.chain, slot);
    assert b.chain[i] == a.chain[i];
    FirstFromHeld(b.chain, i);
  }

  /** A later view lists the same first block after the fence while it is retained. */
  lemma {:induction false} ListedStands(a: Node, b: Node, start: nat)
    requires ValidNode(a) && ValidNode(b) && Later(a, b) && b.floor <= start
    requires FirstListed(a, start) != []
    ensures FirstListed(b, start) == FirstListed(a, start)
  {
    var i := FirstFrom(a.chain, start);
    FirstFromSplits(a.chain, start);
    assert forall k :: 0 <= k <= i ==> b.chain[k] == a.chain[k];
    FirstFromIs(b.chain, start, i);
  }

  /** A served block past the fence whose parent is below it rules the fence slot out of every growth. */
  lemma {:induction false} SkipStands(a: Node, b: Node, fenceSlot: nat, later: nat)
    requires ValidNode(a) && ValidNode(b) && a.chain <= b.chain
    requires fenceSlot < later && SummaryAt(a, later).Some? && SummaryAt(a, later).value.parent < fenceSlot
    ensures SummaryAt(b, fenceSlot) == None
  {
    var k := FirstFrom(a.chain, later);
    assert b.chain[k] == a.chain[k] && b.chain[k - 1] == a.chain[k - 1];
    FirstFromIs(b.chain, fenceSlot, k);
  }

  /** Two views of one chain that both serve a slot serve the same block. */
  lemma {:induction false} SummariesAgree(a: Node, b: Node, slot: nat)
    requires ValidNode(a) && ValidNode(b) && a.chain <= b.chain
    requires SummaryAt(a, slot).Some? && SummaryAt(b, slot).Some?
    ensures SummaryAt(b, slot) == SummaryAt(a, slot)
  {
    var i := FirstFrom(a.chain, slot);
    assert b.chain[i] == a.chain[i];
    FirstFromHeld(b.chain, i);
  }

  /** Whatever a later view lists from a slot is at or past what an earlier one did. */
  lemma {:induction false} ListedLater(a: Node, b: Node, start: nat)
    requires ValidNode(a) && ValidNode(b) && Later(a, b)
    requires FirstListed(a, start) != [] && FirstListed(b, start) != []
    ensures FirstListed(a, start)[0] <= FirstListed(b, start)[0]
  {
    var from, to := Max(start, a.floor), Max(start, b.floor);
    var i := FirstFrom(a.chain, from);
    FirstFromSplits(a.chain, from);
    assert forall k :: 0 <= k <= i ==> b.chain[k] == a.chain[k];
    FirstFromIs(b.chain, from, i);
    FirstFromMonotone(b.chain, from, to);
    assert i == FirstFrom(b.chain, to) || b.chain[i].slot < b.chain[FirstFrom(b.chain, to)].slot;
  }

  /**
   * Sound and mismatch verdicts stand as the node's view grows: a later probe repeats the verdict,
   * evidence included, or becomes unavailable, so long as it retains what the verdict rests on.
   */
  lemma {:induction false} VerdictsStand(record: FenceRecord, r: Replies, at: seq<Node>, r2: Replies, at2: seq<Node>)
    requires ValidNodes(at) && Served(r, at, record.fence.slot)
    requires ValidNodes(at2) && Served(r2, at2, record.fence.slot)
    requires forall j, k :: 0 <= j < 5 && 0 <= k < 5 ==> Later(at[j], at2[k])
    requires FloorsRise(at2) && record.fence.slot <= at2[0].tip
    requires ProbeOnce(record, r).Final? && ProbeOnce(record, r).verdict != Unavailable
    requires Retains(record, ProbeOnce(record, r).verdict, at2)
    ensures ProbeOnce(record, r2) in {ProbeOnce(record, r), Final(Unavailable)}
  {
    assert Later(at[1], at2[1]) && Later(at[3], at2[3]) && Later(at[4], at2[4]) && Later(at[4], at2[1]);
    assert at2[1].floor <= at2[2].floor;
    if r.fenceBlock.value.Some? {
      HeldVerdictStands(record, r, at, r2, at2);
    } else {
      assert Later(at[3], at2[4]);
      SkippedVerdictStands(record, r, at, r2, at2);
    }
  }

  lemma {:induction false} HeldVerdictStands(
    record: FenceRecord, r: Replies, at: seq<Node>, r2: Replies, at2: seq<Node>)
    requires ValidNodes(at) && Served(r, at, record.fence.slot)
    requires ValidNodes(at2) && Served(r2, at2, record.fence.slot)
    requires Later(at[1], at2[1]) && Later(at[3], at2[3])
    requires at2[1].floor <= at2[2].floor && record.fence.slot <= at2[0].tip
    requires ProbeOnce(record, r).Final? && ProbeOnce(record, r).verdict != Unavailable
    requires Retains(record, ProbeOnce(record, r).verdict, at2)
    requires r.fenceBlock.value.Some?
    ensures ProbeOnce(record, r2) in {ProbeOnce(record, r), Final(Unavailable)}
  {
    var f := record.fence.slot;
    if SummaryAt(at2[1], f).Some? {
      SummariesAgree(at[1], at2[1], f);
      if r.fenceBlock.value.value.hash == record.fence.blockhash && f < record.checkpoint {
        GapVerdictStands(record, r, r2, at[3], at2[3]);
      }
    } else if at2[1].floor <= f {
      SummaryStands(at[1], at2[1], f);
      assert false;
    }
  }

  lemma {:induction false} GapVerdictStands(record: FenceRecord, r: Replies, r2: Replies, a: Node, b: Node)
    requires ValidNode(a) && ValidNode(b) && Later(a, b) && record.fence.slot < record.checkpoint
    requires r.laterSlots.Got? ==> r.laterSlots.value == FirstListed(a, record.fence.slot + 1)
    requires r2.laterSlots.Got? ==> r2.laterSlots.value == FirstListed(b, record.fence.slot + 1)
    requires ProbeGap(record, r).Final? && ProbeGap(record, r).verdict != Unavailable
    requires || b.floor <= record.fence.slot + 1
             || (ProbeGap(record, r) == Final(Sound) && FirstListed(b, record.fence.slot + 1) != [])
    ensures ProbeGap(record, r2) in {ProbeGap(record, r), Final(Unavailable)}
  {
    if b.floor <= record.fence.slot + 1 {
      ListedStands(a, b, record.fence.slot + 1);
    } else {
      ListedLater(a, b, record.fence.slot + 1);
    }
  }

  lemma {:induction false} SkippedVerdictStands(
    record: FenceRecord, r: Replies, at: seq<Node>, r2: Replies, at2: seq<Node>)
    requires ValidNodes(at) && Served(r, at, record.fence.slot)
    requires ValidNodes(at2) && Served(r2, at2, record.fence.slot)
    requires Later(at[3], at2[3]) && Later(at[4], at2[4]) && Later(at[4], at2[1])
    requires record.fence.slot <= at2[0].tip
    requires ProbeOnce(record, r).Final? && ProbeOnce(record, r).verdict != Unavailable
    requires Retains(record, ProbeOnce(record, r).verdict, at2)
    requires r.fenceBlock.value.None?
    ensures ProbeOnce(record, r2) in {ProbeOnce(record, r), Final(Unavailable)}
  {
    var slot, later := record.fence.slot, r.laterSlots.value[0];
    FirstFromSplits(at[3].chain, Max(slot + 1, at[3].floor));
    SkipStands(at[4], at2[1], slot, later);
    if at2[2].floor <= slot {
      ListedStands(at[3], at2[3], slot + 1);
      SummaryStands(at[4], at2[4], later);
    }
  }

  // ---------------------------------------------------------------------------
  // And only while their evidence is retained
  // ---------------------------------------------------------------------------

  /** Floors one probe's five calls may meet. */
  predicate RisingFloors(floors: seq<nat>) {
    |floors| == 5 && forall j, k :: 0 <= j < k < 5 ==> floors[j] <= floors[k]
  }

  function HoldingAll(channel: seq<Block>, floors: seq<nat>): seq<Node> {
    seq(|floors|, j requires 0 <= j < |floors| => Holding(channel, floors[j]))
  }

  const WHOLE: seq<nat> := [0, 0, 0, 0, 0]

  /** What a probe without errors is told. */
  function Answers(at: seq<Node>, fenceSlot: nat): Replies
    requires ValidNodes(at)
  {
    assert ValidNode(at[3]);
    var listed := FirstListed(at[3], fenceSlot + 1);
    Replies(Got(at[0].tip), Got(SummaryAt(at[1], fenceSlot)), Got(at[2].floor), Got(listed),
            if listed == [] then Failed else Got(SummaryAt(at[4], listed[0])))
  }

  /** A probe without errors of one chain, each call meeting it truncated at its own floor. */
  function Probed(record: FenceRecord, channel: seq<Block>, floors: seq<nat>): Probe
    requires ValidChain(channel) && RisingFloors(floors)
  {
    ProbeOnce(record, Answers(HoldingAll(channel, floors), record.fence.slot))
  }

  /**
   * A probe of the whole chain and one at `floors` meet all that a verdict's standing asks for, but for
   * what the later one retains.
   */
  predicate OnlyTruncates(record: FenceRecord, channel: seq<Block>, floors: seq<nat>)
    requires ValidChain(channel) && RisingFloors(floors)
  {
    var f, at, at2 := record.fence.slot, HoldingAll(channel, WHOLE), HoldingAll(channel, floors);
    && Served(Answers(at, f), at, f) && Served(Answers(at2, f), at2, f)
    && (forall j, k :: 0 <= j < 5 && 0 <= k < 5 ==> Later(at[j], at2[k]))
    && FloorsRise(at2) && f <= at2[0].tip
  }

  /** Under it, the same chain gives one verdict while whole and another result once truncated. */
  predicate Overturns(record: FenceRecord, channel: seq<Block>, floors: seq<nat>, verdict: Verdict, later: Probe) {
    && ValidChain(channel) && RisingFloors(floors) && OnlyTruncates(record, channel, floors)
    && Probed(record, channel, WHOLE) == Final(verdict)
    && Probed(record, channel, floors) == later
  }

  ghost predicate CanOverturn(record: FenceRecord, floors: seq<nat>, verdict: Verdict, later: Probe) {
    exists channel :: Overturns(record, channel, floors, verdict, later)
  }

  lemma {:induction false} ProbesOverturn(
    record: FenceRecord, channel: seq<Block>, floors: seq<nat>, verdict: Verdict, later: Probe)
    requires ValidChain(channel) && RisingFloors(floors)
    requires channel != [] && record.fence.slot <= channel[|channel| - 1].slot
    requires Probed(record, channel, WHOLE) == Final(verdict) && Probed(record, channel, floors) == later
    ensures CanOverturn(record, floors, verdict, later)
  {
    var f, at, at2 := record.fence.slot, HoldingAll(channel, WHOLE), HoldingAll(channel, floors);
    AnswersAreServed(at, f);
    AnswersAreServed(at2, f);
    HoldingGrows(channel, floors);
    assert OnlyTruncates(record, channel, floors);
    assert Overturns(record, channel, floors, verdict, later);
  }

  lemma {:induction false} AnswersAreServed(at: seq<Node>, fenceSlot: nat)
    requires ValidNodes(at)
    ensures Served(Answers(at, fenceSlot), at, fenceSlot)
  {
  }

  lemma {:induction false} HoldingGrows(channel: seq<Block>, floors: seq<nat>)
    requires ValidChain(channel) && RisingFloors(floors)
    ensures var at, at2 := HoldingAll(channel, WHOLE), HoldingAll(channel, floors);
            FloorsRise(at2) && forall j, k :: 0 <= j < 5 && 0 <= k < 5 ==> Later(at[j], at2[k])
  {
  }

  /**
   * A listing truncated any further past the fence can turn a filled gap into a sound verdict: for all
   * floors that still serve the fence block and list from later on, some chain is reported as filling
   * the gap while whole and as sound at those floors.
   */
  lemma {:induction false} TruncationOverturnsFilledGap(record: FenceRecord, floors: seq<nat>)
    requires RisingFloors(floors) && floors[1] <= record.fence.slot && record.fence.slot + 1 < floors[3]
    requires record.fence.slot < record.checkpoint
    ensures CanOverturn(record, floors, Mismatch(FillsGap(record.fence.slot + 1)), Final(Sound))
  {
    var top := Max(floors[3], record.checkpoint + 1);
    var channel := GapFilled(record.fence, top, "fill", "next");
    GapFilledAnswers(record.fence, top, "fill", "next", 0);
    GapFilledAnswers(record.fence, top, "fill", "next", floors[1]);
    GapFilledAnswers(record.fence, top, "fill", "next", floors[3]);
    HeldProbe(record, channel, WHOLE, [record.fence.slot + 1]);
    HeldProbe(record, channel, floors, [top]);
    ProbesOverturn(record, channel, floors, Mismatch(FillsGap(record.fence.slot + 1)), Final(Sound));
  }

  /** A probe served the fence block goes by the first slot listed. */
  lemma {:induction false} HeldProbe(record: FenceRecord, channel: seq<Block>, floors: seq<nat>, listed: seq<nat>)
    requires ValidChain(channel) && RisingFloors(floors) && record.fence.slot < record.checkpoint
    requires channel != [] && record.fence.slot <= channel[|channel| - 1].slot
    requires SummaryAt(Holding(channel, floors[1]), record.fence.slot)
             == Some(Summary(record.fence.blockhash, record.fence.slot))
    requires FirstListed(Holding(channel, floors[3]), record.fence.slot + 1) == listed && |listed| <= 1
    ensures Probed(record, channel, floors)
            == if listed == [] then Retry
               else if record.checkpoint < listed[0] then Final(Sound)
               else Final(Mismatch(FillsGap(listed[0])))
  {
  }

  /**
   * One truncated past the checkpoint can take a sound verdict back: for all floors that still serve the
   * fence block and list from past the slot after the checkpoint, some chain is reported sound while whole
   * and for another look at those floors.
   */
  lemma {:induction false} TruncationOverturnsSound(record: FenceRecord, floors: seq<nat>)
    requires RisingFloors(floors) && floors[1] <= record.fence.slot < record.checkpoint
    requires record.checkpoint + 1 < floors[3]
    ensures CanOverturn(record, floors, Sound, Retry)
  {
    var top := record.checkpoint + 1;
    var channel := GapEmpty(record.fence, top, "seen");
    GapEmptyAnswers(record.fence, top, "seen", 0);
    GapEmptyAnswers(record.fence, top, "seen", floors[1]);
    GapEmptyAnswers(record.fence, top, "seen", floors[3]);
    HeldProbe(record, channel, WHOLE, [top]);
    HeldProbe(record, channel, floors, []);
    ProbesOverturn(record, channel, floors, Sound, Retry);
  }

  lemma {:induction false} GapEmptyAnswers(fence: Fence, top: nat, seen: string, floor: nat)
    requires fence.slot < top
    ensures var channel := GapEmpty(fence, top, seen);
            var node := Holding(channel, floor);
            && ValidChain(channel)
            && (floor <= fence.slot ==> SummaryAt(node, fence.slot) == Some(Summary(fence.blockhash, fence.slot)))
            && FirstListed(node, fence.slot + 1) == if floor <= top then [top] else []
  {
    var channel := GapEmpty(fence, top, seen);
    FirstFromIs(channel, fence.slot, 0);
    FirstFromIs(channel, Max(fence.slot + 1, floor), if floor <= top then 1 else 2);
  }

  /** A chain without the fence block: one below it, one right after, and one at `top`, hashes alike. */
  function FenceSkipped(below: nat, f: nat, top: nat, hash: string): seq<Block> {
    [Block(below, hash, below), Block(f + 1, hash, below), Block(top, hash, f + 1)]
  }

  lemma {:induction false} FenceSkippedAnswers(below: nat, f: nat, top: nat, hash: string, floor: nat)
    requires below < f && f + 1 < top && floor <= top
    ensures var node := Holding(FenceSkipped(below, f, top, hash), floor);
            && ValidChain(node.chain) && node.tip == top
            && SummaryAt(node, f) == None
            && FirstListed(node, f + 1) == [if floor <= f + 1 then f + 1 else top]
            && SummaryAt(node, f + 1) == (if floor <= f + 1 then Some(Summary(hash, below)) else None)
            && SummaryAt(node, top) == Some(Summary(hash, f + 1))
  {
    var channel := FenceSkipped(below, f, top, hash);
    FirstFromIs(channel, f, 1);
    FirstFromIs(channel, f + 1, 1);
    FirstFromIs(channel, top, 2);
    FirstFromIs(channel, Max(f + 1, floor), if floor <= f + 1 then 1 else 2);
  }

  /**
   * Likewise for a skipped fence: for all floors that do not own up to the truncation and cut the listing,
   * or only the last read, some chain is reported as skipping the fence while whole and for another look
   * at those floors.
   */
  lemma {:induction false} TruncationOverturnsSkip(record: FenceRecord, floors: seq<nat>, below: nat)
    requires RisingFloors(floors) && floors[2] <= record.fence.slot && record.fence.slot + 1 < floors[4]
    requires below < record.fence.slot
    ensures CanOverturn(record, floors, Mismatch(SkipsFence(record.fence.slot + 1, below)), Retry)
  {
    var channel := FenceSkipped(below, record.fence.slot, floors[4], "");
    SkippedProbe(record, WHOLE, below, floors[4], "");
    SkippedProbe(record, floors, below, floors[4], "");
    ProbesOverturn(record, channel, floors, Mismatch(SkipsFence(record.fence.slot + 1, below)), Retry);
  }

  lemma {:induction false} SkippedProbe(record: FenceRecord, floors: seq<nat>, below: nat, top: nat, hash: string)
    requires RisingFloors(floors) && floors[2] <= record.fence.slot && floors[4] <= top
    requires below < record.fence.slot && record.fence.slot + 1 < top
    ensures ValidChain(FenceSkipped(below, record.fence.slot, top, hash))
    ensures Probed(record, FenceSkipped(below, record.fence.slot, top, hash), floors)
            == if floors[4] <= record.fence.slot + 1 then Final(Mismatch(SkipsFence(record.fence.slot + 1, below)))
               else Retry
  {
    var f := record.fence.slot;
    var channel := FenceSkipped(below, f, top, hash);
    SkippedNodeAnswers(channel, floors, below, f, top, hash);
    MissingBlockProbe(record, HoldingAll(channel, floors), if floors[3] <= f + 1 then f + 1 else top);
  }

  lemma {:induction false} SkippedNodeAnswers(
    channel: seq<Block>, floors: seq<nat>, below: nat, f: nat, top: nat, hash: string)
    requires channel == FenceSkipped(below, f, top, hash)
    requires RisingFloors(floors) && floors[4] <= top && below < f && f + 1 < top
    ensures ValidChain(channel) && ValidNodes(HoldingAll(channel, floors))
    ensures var at := HoldingAll(channel, floors);
            && at[0].tip == top && SummaryAt(at[1], f) == None && at[2].floor == floors[2]
            && FirstListed(at[3], f + 1) == [if floors[3] <= f + 1 then f + 1 else top]
            && SummaryAt(at[4], f + 1) == (if floors[4] <= f + 1 then Some(Summary(hash, below)) else None)
            && SummaryAt(at[4], top) == Some(Summary(hash, f + 1))
  {
    FenceSkippedAnswers(below, f, top, hash, floors[0]);
    FenceSkippedAnswers(below, f, top, hash, floors[1]);
    FenceSkippedAnswers(below, f, top, hash, floors[3]);
    FenceSkippedAnswers(below, f, top, hash, floors[4]);
  }

  /** A probe not served the fence block, nor told it was truncated, goes by the first block listed. */
  lemma {:induction false} MissingBlockProbe(record: FenceRecord, at: seq<Node>, listed: nat)
    requires ValidNodes(at) && record.fence.slot <= at[0].tip
    requires SummaryAt(at[1], record.fence.slot) == None && at[2].floor <= record.fence.slot
    requires FirstListed(at[3], record.fence.slot + 1) == [listed]
    ensures var block := SummaryAt(at[4], listed);
            ProbeOnce(record, Answers(at, record.fence.slot))
            == if block.Some? && block.value.parent < record.fence.slot
               then Final(Mismatch(SkipsFence(listed, block.value.parent))) else Retry
  {
  }
}
