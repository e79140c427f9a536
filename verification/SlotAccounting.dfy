/**
 * Connection and listing slots (auth/src/serve.rs, gateway/src/lib.rs): a global semaphore and a
 * per-client count, each taken and dropped by its own atomic step, interleaved in any order the
 * two services allow.
 */
module SlotAccounting {
  import opened Common

  // ---------------------------------------------------------------------------
  // Client keys and limits
  // ---------------------------------------------------------------------------

  datatype Ip = V4(octets: Bytes) | V6(octets: Bytes)

  predicate ValidIp(ip: Ip) {
    match ip
    case V4(octets) => |octets| == 4
    case V6(octets) => |octets| == 16
  }

  /** IPv4 as it is; IPv6 masked to its /64 prefix. */
  function ClientKey(ip: Ip): (key: Ip)
    requires ValidIp(ip)
    ensures ValidIp(key)
  {
    match ip
    case V4(_) => ip
    case V6(octets) => V6(octets[..8] + [0, 0, 0, 0, 0, 0, 0, 0])
  }

  /** Two addresses share a budget exactly when they are equal, or both IPv6 in one /64; keys are their own keys. */
  lemma {:induction false} SameClientIffSamePrefix(a: Ip, b: Ip)
    requires ValidIp(a) && ValidIp(b)
    ensures ClientKey(a) == ClientKey(b) <==> a == b || (a.V6? && b.V6? && a.octets[..8] == b.octets[..8])
    ensures ClientKey(ClientKey(a)) == ClientKey(a)
  {
    if a.V6? && b.V6? {
      assert ClientKey(a).octets[..8] == a.octets[..8];
      assert ClientKey(b).octets[..8] == b.octets[..8];
    }
  }

  /** Listing slots for a read pool, and the share of them one client may hold. */
  function BlockListSlots(poolSize: nat): nat {
    Max(poolSize / 4, 1)
  }

  function BlockListsPerIp(slots: nat): nat {
    Max(slots / 4, 1)
  }

  // ---------------------------------------------------------------------------
  // The counts
  // ---------------------------------------------------------------------------

  type Counts = map<Ip, nat>

  function CountOf(counts: Counts, ip: Ip): nat {
    if ip in counts then counts[ip] else 0
  }

  /** `try_acquire_ip`: the entry is made before the cap is looked at. */
  function TryAcquired(counts: Counts, ip: Ip, max: nat): (Counts, bool) {
    var entered := counts[ip := CountOf(counts, ip)];
    if entered[ip] >= max then (entered, false) else (entered[ip := entered[ip] + 1], true)
  }

  /** `IpConnGuard::drop`: the entry goes when its count reaches zero. */
  function Dropped(counts: Counts, ip: Ip): Counts
    requires ip in counts ==> counts[ip] > 0
  {
    if ip !in counts then counts
    else if counts[ip] == 1 then counts - {ip}
    else counts[ip := counts[ip] - 1]
  }

  predicate NoZeroEntry(counts: Counts) {
    forall ip :: ip in counts ==> counts[ip] > 0
  }

  /** A refusal leaves a zero entry behind exactly when the cap is zero, which the limits' types rule out. */
  lemma {:induction false} ZeroEntryIffZeroCap(counts: Counts, ip: Ip, max: nat)
    requires NoZeroEntry(counts)
    ensures NoZeroEntry(TryAcquired(counts, ip, max).0) <==> max >= 1 || ip in counts
    ensures max >= 1 && !TryAcquired(counts, ip, max).1 ==> TryAcquired(counts, ip, max).0 == counts
  {
    var after := TryAcquired(counts, ip, max).0;
    assert ip in after;
    if max >= 1 && !TryAcquired(counts, ip, max).1 {
      assert after == counts;
    }
  }

  /** The shared budgets both services keep: free global permits and the per-client counts. */
  class Budgets {
    var free: nat
    var counts: Counts

    constructor (cap: nat)
      ensures free == cap && counts == map[]
    {
      free, counts := cap, map[];
    }

    method TryAcquirePermit() returns (ok: bool)
      modifies this`free
      ensures ok <==> old(free) > 0
      ensures free == if ok then old(free) - 1 else old(free)
    {
      ok := free > 0;
      if ok {
        free := free - 1;
      }
    }

    method DropPermit()
      modifies this`free
      ensures free == old(free) + 1
    {
      free := free + 1;
    }

    method TryAcquireIp(ip: Ip, max: nat) returns (ok: bool)
      modifies this`counts
      ensures (counts, ok) == TryAcquired(old(counts), ip, max)
    {
      if ip !in counts {
        counts := counts[ip := 0];
      }
      assert counts == old(counts)[ip := CountOf(old(counts), ip)];
      if counts[ip] >= max {
        return false;
      }
      counts := counts[ip := counts[ip] + 1];
      ok := true;
    }

    method DropIp(ip: Ip)
      requires ip in counts ==> counts[ip] > 0
      modifies this`counts
      ensures counts == Dropped(old(counts), ip)
    {
      if ip in counts {
        counts := counts[ip := counts[ip] - 1];
        if counts[ip] == 0 {
          counts := counts - {ip};
        }
      }
    }

    /** One turn of the accept loop: the global permit first, and given back when the client is at its cap. */
    method Accept(ip: Ip, max: nat) returns (accepted: bool)
      requires max >= 1 && NoZeroEntry(counts)
      modifies this
      ensures accepted <==> old(free) > 0 && CountOf(old(counts), ip) < max
      ensures accepted ==> free == old(free) - 1 && counts == old(counts)[ip := CountOf(old(counts), ip) + 1]
      ensures !accepted ==> free == old(free) && counts == old(counts)
    {
      accepted := TryAcquirePermit();
      if accepted {
        ZeroEntryIffZeroCap(counts, ip, max);
        accepted := TryAcquireIp(ip, max);
        if !accepted {
          DropPermit();
        }
      }
    }

    /** A public listing's two slots: the client's share first, and given back when no global slot is free. */
    method TakeListing(ip: Ip, max: nat) returns (taken: bool)
      requires max >= 1 && NoZeroEntry(counts)
      modifies this
      ensures taken <==> CountOf(old(counts), ip) < max && old(free) > 0
      ensures taken ==> free == old(free) - 1 && counts == old(counts)[ip := CountOf(old(counts), ip) + 1]
      ensures !taken ==> free == old(free) && counts == old(counts)
    {
      ZeroEntryIffZeroCap(counts, ip, max);
      ghost var before := counts;
      taken := TryAcquireIp(ip, max);
      if taken {
        taken := TryAcquirePermit();
        if !taken {
          DropUndoesAcquire(before, ip, max);
          DropIp(ip);
        }
      }
    }
  }

  /** Dropping a share just taken leaves the counts as they were before it. */
  lemma {:induction false} DropUndoesAcquire(counts: Counts, ip: Ip, max: nat)
    requires NoZeroEntry(counts) && TryAcquired(counts, ip, max).1
    ensures NoZeroEntry(TryAcquired(counts, ip, max).0)
    ensures Dropped(TryAcquired(counts, ip, max).0, ip) == counts
  {
    assert Dropped(TryAcquired(counts, ip, max).0, ip) == counts;
  }

  // ---------------------------------------------------------------------------
  // Interleavings
  // ---------------------------------------------------------------------------

  type Id = nat

  /** What one connection or listing holds, and whether a budget refused it. */
  datatype Guard = Guard(ip: Ip, permit: bool, share: bool, refused: bool)

  datatype State = State(free: nat, counts: Counts, guards: map<Id, Guard>)

  /**
   * Connections take the permit, then the share, and drop the share first. Listings take the share,
   * then the permit; headers arriving drop the permit alone, and the ends drop in either order. Once
   * refused, neither tries again.
   */
  datatype Service = Connections | Listings

  datatype Event =
    | Begin(id: Id, ip: Ip)
    | TakePermit(id: Id)
    | TakeShare(id: Id)
    | DropPermit(id: Id)
    | DropShare(id: Id)
    | End(id: Id)

  predicate Enabled(service: Service, s: State, e: Event) {
    if e.Begin? then e.id !in s.guards
    else
      && e.id in s.guards
      && var g := s.guards[e.id];
         match e
         case TakePermit(_) => !g.refused && !g.permit && (g.share <==> service.Listings?)
         case TakeShare(_) => !g.refused && !g.share && (g.permit <==> service.Connections?)
         case DropPermit(_) => g.permit && (service.Connections? ==> !g.share)
         case DropShare(_) => g.share
         case _ => !g.permit && !g.share
  }

  function Step(s: State, e: Event, max: nat): State
    requires !e.Begin? ==> e.id in s.guards
    requires e.DropShare? ==> NoZeroEntry(s.counts)
  {
    match e
    case Begin(id, ip) => s.(guards := s.guards[id := Guard(ip, false, false, false)])
    case TakePermit(id) =>
      if s.free == 0 then s.(guards := s.guards[id := s.guards[id].(refused := true)])
      else s.(free := s.free - 1, guards := s.guards[id := s.guards[id].(permit := true)])
    case TakeShare(id) =>
      var (counts, ok) := TryAcquired(s.counts, s.guards[id].ip, max);
      s.(counts := counts, guards := s.guards[id := s.guards[id].(share := ok, refused := !ok)])
    case DropPermit(id) => s.(free := s.free + 1, guards := s.guards[id := s.guards[id].(permit := false)])
    case DropShare(id) =>
      s.(counts := Dropped(s.counts, s.guards[id].ip), guards := s.guards[id := s.guards[id].(share := false)])
    case End(id) => s.(guards := s.guards - {id})
  }

  /** The first and second budget a newcomer takes. */
  function Takes(service: Service, id: Id): (Event, Event) {
    if service.Connections? then (TakePermit(id), TakeShare(id)) else (TakeShare(id), TakePermit(id))
  }

  /**
   * A newcomer takes both budgets if both are free, each in its service's order; the first that is not refuses it,
   * and then it holds what it took before that and nothing more.
   */
  lemma {:induction false} AcceptedIffBothFree(service: Service, s: State, id: Id, ip: Ip, max: nat)
    requires id !in s.guards
    ensures var begun := Step(s, Begin(id, ip), max);
            var (first, second) := Takes(service, id);
            var permit, share := s.free > 0, CountOf(s.counts, ip) < max;
            && Enabled(service, s, Begin(id, ip)) && Enabled(service, begun, first)
            && var once := Step(begun, first, max);
               if service.Connections? && !permit then once.guards[id] == Guard(ip, false, false, true)
               else if service.Listings? && !share then once.guards[id] == Guard(ip, false, false, true)
               else
                 && Enabled(service, once, second)
                 && var twice := Step(once, second, max);
                    && twice.guards[id] == Guard(ip, permit, share, !(permit && share))
                    && twice.free == s.free - (if permit then 1 else 0)
                    && CountOf(twice.counts, ip) == CountOf(s.counts, ip) + if share then 1 else 0
  {
  }

  function PermitHolders(s: State): set<Id> {
    set id | id in s.guards && s.guards[id].permit
  }

  function ShareHolders(s: State, ip: Ip): set<Id> {
    set id | id in s.guards && s.guards[id].share && s.guards[id].ip == ip
  }

  /** The permits add up to the cap, every count is the number of live shares, and every client is within its cap. */
  ghost predicate Inv(service: Service, s: State, cap: nat, max: nat) {
    && s.free + |PermitHolders(s)| == cap
    && NoZeroEntry(s.counts)
    && (forall ip :: CountOf(s.counts, ip) == |ShareHolders(s, ip)| <= max)
    && (service.Connections? ==> forall id :: id in s.guards && s.guards[id].share ==> s.guards[id].permit)
  }

  predicate HoldsPermit(s: State, id: Id) {
    id in s.guards && s.guards[id].permit
  }

  predicate HoldsShare(s: State, id: Id, ip: Ip) {
    id in s.guards && s.guards[id].share && s.guards[id].ip == ip
  }

  /** The two states agree on every guard but one. */
  ghost predicate SameButOne(s: State, t: State, id: Id) {
    forall i :: i != id ==> (i in s.guards <==> i in t.guards) && (i in s.guards ==> s.guards[i] == t.guards[i])
  }

  function Bit(b: bool): nat {
    if b then 1 else 0
  }

  lemma {:induction false} SizeWithout(a: set<Id>, id: Id)
    ensures |a| == |a - {id}| + Bit(id in a)
  {
    if id in a {
      assert a == (a - {id}) + {id};
    } else {
      assert a == a - {id};
    }
  }

  lemma {:induction false} MovesByOne(a: set<Id>, b: set<Id>, id: Id)
    requires forall i :: i != id ==> (i in a <==> i in b)
    ensures |b| + Bit(id in a) == |a| + Bit(id in b)
  {
    assert b - {id} == a - {id};
    SizeWithout(a, id);
    SizeWithout(b, id);
  }

  /** A change of one guard moves the holders by that guard alone. */
  lemma {:induction false} HoldersMove(s: State, t: State, id: Id, ip: Ip)
    requires SameButOne(s, t, id)
    ensures |PermitHolders(t)| + Bit(HoldsPermit(s, id)) == |PermitHolders(s)| + Bit(HoldsPermit(t, id))
    ensures |ShareHolders(t, ip)| + Bit(HoldsShare(s, id, ip)) == |ShareHolders(s, ip)| + Bit(HoldsShare(t, id, ip))
  {
    MovesByOne(PermitHolders(s), PermitHolders(t), id);
    MovesByOne(ShareHolders(s, ip), ShareHolders(t, ip), id);
  }

  lemma {:induction false} StepTouchesOne(service: Service, s: State, e: Event, max: nat)
    requires NoZeroEntry(s.counts) && Enabled(service, s, e)
    ensures SameButOne(s, Step(s, e, max), e.id)
  {
  }

  lemma {:induction false} StepMovesPermits(service: Service, s: State, e: Event, max: nat)
    requires NoZeroEntry(s.counts) && Enabled(service, s, e)
    ensures var t := Step(s, e, max); t.free + Bit(HoldsPermit(t, e.id)) == s.free + Bit(HoldsPermit(s, e.id))
  {
  }

  lemma {:induction false} StepMovesShares(service: Service, s: State, e: Event, max: nat, ip: Ip)
    requires NoZeroEntry(s.counts) && Enabled(service, s, e) && CountOf(s.counts, ip) <= max
    requires e.DropShare? ==> s.guards[e.id].ip in s.counts
    ensures var t := Step(s, e, max);
            && CountOf(t.counts, ip) + Bit(HoldsShare(s, e.id, ip))
              == CountOf(s.counts, ip) + Bit(HoldsShare(t, e.id, ip))
            && CountOf(t.counts, ip) <= max
  {
  }

  lemma {:induction false} StepKeepsShares(service: Service, s: State, e: Event, cap: nat, max: nat, ip: Ip)
    requires Inv(service, s, cap, max) && Enabled(service, s, e)
    ensures CountOf(Step(s, e, max).counts, ip) == |ShareHolders(Step(s, e, max), ip)| <= max
  {
    if e.DropShare? {
      var held := s.guards[e.id].ip;
      assert e.id in ShareHolders(s, held);
      assert CountOf(s.counts, held) == |ShareHolders(s, held)|;
    }
    assert CountOf(s.counts, ip) == |ShareHolders(s, ip)| <= max;
    StepTouchesOne(service, s, e, max);
    HoldersMove(s, Step(s, e, max), e.id, ip);
    StepMovesShares(service, s, e, max, ip);
  }

  lemma {:induction false} StepKeepsInv(service: Service, s: State, e: Event, cap: nat, max: nat)
    requires max >= 1 && Inv(service, s, cap, max) && Enabled(service, s, e)
    ensures Inv(service, Step(s, e, max), cap, max)
  {
    StepTouchesOne(service, s, e, max);
    HoldersMove(s, Step(s, e, max), e.id, V4([]));
    StepMovesPermits(service, s, e, max);
    forall ip
      ensures CountOf(Step(s, e, max).counts, ip) == |ShareHolders(Step(s, e, max), ip)| <= max
    {
      StepKeepsShares(service, s, e, cap, max, ip);
    }
    if e.TakeShare? {
      ZeroEntryIffZeroCap(s.counts, s.guards[e.id].ip, max);
    }
  }

  /** Runs from full budgets, newest event last. */
  datatype Run = Start | More(run: Run, last: Event)

  predicate Valid(service: Service, r: Run, cap: nat, max: nat) {
    match r
    case Start => true
    case More(before, e) => Valid(service, before, cap, max) && Enabled(service, Reached(before, cap, max), e)
  }

  /** The state a run reaches; a step the state cannot take leaves it as it is. */
  function Reached(r: Run, cap: nat, max: nat): State {
    match r
    case Start => State(cap, map[], map[])
    case More(before, e) =>
      var s := Reached(before, cap, max);
      if (e.Begin? || e.id in s.guards) && NoZeroEntry(s.counts) then Step(s, e, max) else s
  }

  lemma {:induction false} StartIsFull(service: Service, cap: nat, max: nat)
    ensures Inv(service, State(cap, map[], map[]), cap, max)
  {
    var s := State(cap, map[], map[]);
    assert PermitHolders(s) == {};
    assert forall ip :: ShareHolders(s, ip) == {};
  }

  lemma {:induction false} RunKeepsInv(service: Service, r: Run, cap: nat, max: nat)
    requires max >= 1 && Valid(service, r, cap, max)
    ensures Inv(service, Reached(r, cap, max), cap, max)
  {
    match r
    case Start =>
      StartIsFull(service, cap, max);
    case More(before, e) =>
      RunKeepsInv(service, before, cap, max);
      StepKeepsInv(service, Reached(before, cap, max), e, cap, max);
  }

  /** Over every interleaving: the caps hold, and once nothing is held every budget is back to full. */
  lemma {:induction false} BudgetsBalance(service: Service, r: Run, cap: nat, max: nat)
    requires max >= 1 && Valid(service, r, cap, max)
    ensures var s := Reached(r, cap, max);
            && |PermitHolders(s)| <= cap
            && (forall ip :: |ShareHolders(s, ip)| == CountOf(s.counts, ip) <= max)
            && (forall ip :: ip in s.counts <==> ShareHolders(s, ip) != {})
            && ((forall id :: id in s.guards ==> !s.guards[id].permit && !s.guards[id].share)
              ==> s.free == cap && s.counts == map[])
  {
    RunKeepsInv(service, r, cap, max);
    var s := Reached(r, cap, max);
    forall ip
      ensures ip in s.counts <==> ShareHolders(s, ip) != {}
    {
      assert CountOf(s.counts, ip) == |ShareHolders(s, ip)|;
    }
    if forall id :: id in s.guards ==> !s.guards[id].permit && !s.guards[id].share {
      assert PermitHolders(s) == {};
      assert forall ip :: ShareHolders(s, ip) == {};
      assert s.counts.Keys == {};
    }
  }

  // ---------------------------------------------------------------------------
  // The map is bounded; one client leaves room
  // ---------------------------------------------------------------------------

  lemma {:induction false} FewerKeysThanHolders(keys: set<Ip>, guards: map<Id, Guard>, holders: set<Id>)
    requires holders <= guards.Keys
    requires forall ip :: ip in keys ==> exists id :: id in holders && guards[id].ip == ip
    ensures |keys| <= |holders|
    decreases holders
  {
    if keys != {} {
      var ip :| ip in keys;
      var id :| id in holders && guards[id].ip == ip;
      forall other | other in keys - {ip}
        ensures exists i :: i in holders - {id} && guards[i].ip == other
      {
        var i :| i in holders && guards[i].ip == other;
        assert i in holders - {id};
      }
      FewerKeysThanHolders(keys - {ip}, guards, holders - {id});
      assert |keys| == |keys - {ip}| + 1 && |holders| == |holders - {id}| + 1;
    }
  }

  /** The connection map never outgrows the global cap. */
  lemma {:induction false} ConnectionMapIsBounded(r: Run, cap: nat, max: nat)
    requires max >= 1 && Valid(Connections, r, cap, max)
    ensures |Reached(r, cap, max).counts| <= cap
  {
    RunKeepsInv(Connections, r, cap, max);
    var s := Reached(r, cap, max);
    forall ip | ip in s.counts.Keys
      ensures exists id :: id in PermitHolders(s) && s.guards[id].ip == ip
    {
      BudgetsBalance(Connections, r, cap, max);
      var id :| id in ShareHolders(s, ip);
      assert id in PermitHolders(s) && s.guards[id].ip == ip;
    }
    FewerKeysThanHolders(s.counts.Keys, s.guards, PermitHolders(s));
    assert |s.counts| == |s.counts.Keys|;
  }

  /** A client's share is below the listing budget exactly when there are two slots, whatever the pool. */
  lemma {:induction false} ListingShareLeavesRoom(poolSize: nat)
    ensures 1 <= BlockListsPerIp(BlockListSlots(poolSize))
    ensures BlockListsPerIp(BlockListSlots(poolSize)) < BlockListSlots(poolSize) <==> poolSize >= 8
    ensures 16 <= poolSize ==> 16 * BlockListsPerIp(BlockListSlots(poolSize)) <= poolSize
                               < 16 * (BlockListsPerIp(BlockListSlots(poolSize)) + 1)
  {
  }

  /** Holders of a global slot that do not hold this client's share with it: other clients', or between the two. */
  function OtherHolders(s: State, ip: Ip): set<Id> {
    PermitHolders(s) - ShareHolders(s, ip)
  }

  /**
   * One client never takes more than its cap of the global slots: whatever it does, all the others
   * remain but for those held by other clients, or midway through their acquisition or drop.
   */
  lemma {:induction false} OneClientLeavesRest(service: Service, r: Run, cap: nat, max: nat, ip: Ip)
    requires 1 <= max && Valid(service, r, cap, max)
    ensures var s := Reached(r, cap, max); cap <= s.free + max + |OtherHolders(s, ip)|
  {
    RunKeepsInv(service, r, cap, max);
    var s := Reached(r, cap, max);
    var both := PermitHolders(s) * ShareHolders(s, ip);
    var rest := ShareHolders(s, ip) - both;
    assert PermitHolders(s) == both + OtherHolders(s, ip);
    assert ShareHolders(s, ip) == both + rest;
    assert CountOf(s.counts, ip) == |ShareHolders(s, ip)| <= max;
  }

  /** So with the per-client cap below the global one, a client alone always leaves a slot free. */
  lemma {:induction false} OneClientLeavesRoom(service: Service, r: Run, cap: nat, max: nat, ip: Ip)
    requires 1 <= max < cap && Valid(service, r, cap, max)
    requires OtherHolders(Reached(r, cap, max), ip) == {}
    ensures Reached(r, cap, max).free > 0
  {
    OneClientLeavesRest(service, r, cap, max, ip);
  }

  function Held(g: Guard): nat {
    Bit(g.permit) + Bit(g.share)
  }

  /**
   * Half-acquired is fully released: a refused connection or listing holds at most one of its budgets,
   * and each of its remaining steps gives that back or ends it holding nothing.
   */
  lemma {:induction false} RefusedOnlyReleases(service: Service, r: Run, cap: nat, max: nat, e: Event)
    requires 1 <= max && Valid(service, r, cap, max)
    requires var s := Reached(r, cap, max);
             Enabled(service, s, e) && e.id in s.guards && s.guards[e.id].refused
    ensures var s := Reached(r, cap, max);
            var t := Reached(More(r, e), cap, max);
            && Held(s.guards[e.id]) <= 1
            && (if e.End? then Held(s.guards[e.id]) == 0 && t.guards == s.guards - {e.id} && t.free == s.free
              && t.counts == s.counts
                else e.id in t.guards && t.guards[e.id].refused && Held(t.guards[e.id]) < Held(s.guards[e.id]))
  {
    RunKeepsInv(service, r, cap, max);
    RefusedHoldsOne(service, r, cap, max, e.id);
  }

  /** A refused guard never gets hold of its second budget. */
  lemma {:induction false} RefusedHoldsOne(service: Service, r: Run, cap: nat, max: nat, id: Id)
    requires 1 <= max && Valid(service, r, cap, max)
    requires id in Reached(r, cap, max).guards && Reached(r, cap, max).guards[id].refused
    ensures Held(Reached(r, cap, max).guards[id]) <= 1
  {
    if r.More? {
      RunKeepsInv(service, r.run, cap, max);
      var s := Reached(r.run, cap, max);
      if id in s.guards && s.guards[id].refused {
        RefusedHoldsOne(service, r.run, cap, max, id);
      }
    }
  }
}
