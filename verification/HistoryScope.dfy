/**
 * `resolve_owned_slot_ranges` (gateway/src/auth.rs): which slots of a token account's
 * history a caller may read, judged against the account's true ledger.
 */
module HistoryScope {
  import opened Common
  import opened TokenAccount
  import opened OwnerTimeline
  import opened OwnerChainRead

  datatype DbError = DbError

  function Candidates(changes: seq<OwnerChange>): set<Wallet> {
    (set i | 0 <= i < |changes| :: changes[i].prevOwner) + (set i | 0 <= i < |changes| :: changes[i].newOwner)
  }

  /**
   * The slot ranges the caller may read: `None` means unscoped, an empty list hides the page.
   * `chain` and `wallets` are the two database replies.
   */
  function ResolveOwnedSlotRanges(
    keys: Keys, data: Bytes, programOwner: string, pubkey: string, fetchedSlot: u64,
    chain: Result<OwnerChain, DbError>, wallets: Result<set<Wallet>, DbError>): Result<Option<seq<Window>>, DbError>
  {
    if !IsTokenProgram(programOwner) || !IsTokenAccount(data) then Ok(None)
    else if !keys.isBase58(pubkey) || fetchedSlot > I64_MAX then Ok(Some([]))
    else if chain.Err? then Err(chain.error)
    else if chain.value.coverage.None? then Ok(Some([]))
    else
      var vouched := chain.value.coverage.value;
      var coverage := Coverage(vouched.indexedFrom, Min(vouched.tip, fetchedSlot));
      var changes := chain.value.changes;
      if changes == [] then
        if !DerivesAsOwnAta(keys, data, programOwner, pubkey) then Ok(Some([]))
        else Ok(Some(ClipToCoverage([Window(0, I64_MAX)], coverage)))
      else if wallets.Err? then Err(wallets.error)
      else
        var complete := |changes| <= MAX_OWNER_CHANGES;
        var owned := wallets.value * Candidates(changes);
        Ok(Some(ClipToCoverage(OwnerWindows(changes, OwnerOf(keys, data), owned, complete), coverage)))
  }

  /**
   * For every argument: a page is unscoped if and only if the account is no token account; it is an error if
   * and only if a query it waits for failed; and without an address, a slot or a coverage to go by it is hidden.
   */
  lemma {:induction false} ScopeByCase(
    keys: Keys, data: Bytes, programOwner: string, pubkey: string, fetchedSlot: u64,
    chain: Result<OwnerChain, DbError>, wallets: Result<set<Wallet>, DbError>)
    ensures var r := ResolveOwnedSlotRanges(keys, data, programOwner, pubkey, fetchedSlot, chain, wallets);
            var token := programOwner in {SPL_TOKEN_PROGRAM, SPL_TOKEN_2022_PROGRAM} && IsTokenAccount(data);
            var placed := keys.isBase58(pubkey) && fetchedSlot <= I64_MAX;
            && (r == Ok(None) <==> !token)
            && (r.Err? <==>
                  && token && placed
                  && (chain.Err? || (chain.value.coverage.Some? && chain.value.changes != [] && wallets.Err?)))
            && (token && !placed ==> r == Ok(Some([])))
            && (token && chain.Ok? && chain.value.coverage.None? ==> r == Ok(Some([])))
  {
  }

  // ---------------------------------------------------------------------------
  // Environment
  // ---------------------------------------------------------------------------

  /** One snapshot of the table, cut to one row past the cap. */
  predicate OneSnapshot(chain: OwnerChain, early: seq<OwnerChange>, l: Ledger, coverage: Coverage) {
    var rows := early + Covered(l.handoffs, coverage);
    && TableRows(rows, early, l, coverage)
    && chain == OwnerChain(Some(coverage), Newest(rows, MAX_OWNER_CHANGES + 1))
  }

  /** Bytes read in coverage, or just before it; or coverage that reaches back to the first slot. */
  predicate ReadInTime(coverage: Coverage, readAt: int) {
    coverage.indexedFrom <= 0 || coverage.indexedFrom - 1 <= readAt <= coverage.tip
  }

  /**
   * With no handoff in coverage only the account bytes say who holds the account: unless coverage is
   * empty or reaches back to the first slot, they must show the holder at a slot `readAt` in time.
   */
  predicate BytesVouch(l: Ledger, coverage: Coverage, owner: Wallet, readAt: int) {
    Covered(l.handoffs, coverage) == [] && 0 < coverage.indexedFrom <= coverage.tip
    ==> ReadInTime(coverage, readAt) && OwnerAt(l, readAt) == owner
  }

  /** The read found the account a caller's wallet owns, at its associated address. */
  ghost predicate OwnedAccount(
    keys: Keys, data: Bytes, programOwner: string, pubkey: string, l: Ledger, wallets: set<Wallet>)
  {
    && IsTokenProgram(programOwner)
    && IsTokenAccount(data)
    && keys.isBase58(pubkey)
    && InjectiveAta(keys)
    && pubkey == keys.ata(l.initialOwner, MintOf(keys, data), programOwner)
    && OwnerOf(keys, data) in wallets
  }

  /** The chain accounts for the current owner. */
  predicate Accepted(keys: Keys, data: Bytes, programOwner: string, pubkey: string, changes: seq<OwnerChange>)
    requires IsTokenAccount(data)
  {
    if changes == [] then DerivesAsOwnAta(keys, data, programOwner, pubkey)
    else ChainLinks(changes, OwnerOf(keys, data))
  }

  // ---------------------------------------------------------------------------
  // Rows in hand against the ledger
  // ---------------------------------------------------------------------------

  /** The rows read name the ledger's owner of every covered slot they can speak for. */
  lemma {:induction false} ReadRowsNameOwner(
    chain: OwnerChain, early: seq<OwnerChange>, l: Ledger, coverage: Coverage, owner: Wallet, readAt: int, s: int)
    requires ValidLedger(l) && OneSnapshot(chain, early, l, coverage)
    requires chain.changes != [] && ChainLinks(chain.changes, owner)
    requires BytesVouch(l, coverage, owner, readAt)
    requires coverage.indexedFrom <= s <= coverage.tip
    requires |chain.changes| <= MAX_OWNER_CHANGES || chain.changes[0].slot < s
    ensures RowOwner(chain.changes, s) == OwnerAt(l, s)
    ensures IsHandoffSlot(chain.changes, s) <==> IsHandoffSlot(l.handoffs, s)
  {
    var rows := early + Covered(l.handoffs, coverage);
    var k := |rows| - |chain.changes|;
    assert chain.changes == rows[k..];
    TableRowsSorted(rows, early, l, coverage);
    HandoffSlotsAgree(rows, early, l, coverage, s);
    if k > 0 {
      SuffixRowOwner(rows, k, s);
    }
    JoinIntoCoverage(rows, early, k, owner, s);
    if |early| == |rows| {
      EarlyRowsEndAtOwner(rows, early, l, coverage, owner, readAt, s);
    }
    RowOwnerIsLedgerOwner(rows, early, l, coverage, s);
  }

  /** The link from the last early row into the first covered one was read, or is not needed. */
  lemma {:induction false} JoinIntoCoverage(
    rows: seq<OwnerChange>, early: seq<OwnerChange>, k: nat, owner: Wallet, s: int)
    requires k < |rows| && early <= rows && Sorted(rows)
    requires ChainLinks(rows[k..], owner)
    requires k > 0 ==> rows[k].slot < s
    ensures early != [] && |early| < |rows| && Below(rows, s + 1) == |early|
            ==> early[|early| - 1].newOwner == rows[|early|].prevOwner
  {
    var e := |early|;
    if 0 < e < |rows| && Below(rows, s + 1) == e {
      if k > 0 {
        BelowSuffix(rows, k, s + 1);
        assert rows[k..][0].slot < s;
      }
      assert k < e;
      assert rows[k..][e - 1 - k].newOwner == rows[k..][e - 1 - k + 1].prevOwner;
    }
  }

  lemma {:induction false} EarlyRowsEndAtOwner(
    rows: seq<OwnerChange>, early: seq<OwnerChange>, l: Ledger, coverage: Coverage, owner: Wallet, readAt: int,
    s: int)
    requires ValidLedger(l) && TableRows(rows, early, l, coverage)
    requires rows == early && early != []
    requires BytesVouch(l, coverage, owner, readAt)
    requires coverage.indexedFrom <= s <= coverage.tip
    ensures OwnerAt(l, s) == owner
  {
    assert Covered(l.handoffs, coverage) == [];
    assert 0 <= early[0].slot < coverage.indexedFrom;
    QuietCoverage(l, coverage, s, readAt);
  }

  /** With no row at all, an address that still derives was the owner's over all of coverage. */
  lemma {:induction false} NeverHandedOn(
    keys: Keys, data: Bytes, programOwner: string, pubkey: string, l: Ledger, wallets: set<Wallet>,
    coverage: Coverage, readAt: int, s: int)
    requires ValidLedger(l) && OwnedAccount(keys, data, programOwner, pubkey, l, wallets)
    requires Covered(l.handoffs, coverage) == [] && BytesVouch(l, coverage, OwnerOf(keys, data), readAt)
    requires DerivesAsOwnAta(keys, data, programOwner, pubkey)
    requires 0 <= s && coverage.indexedFrom <= s <= coverage.tip
    ensures OwnerAt(l, s) == OwnerOf(keys, data)
    ensures !IsHandoffSlot(l.handoffs, s)
  {
    var owner := OwnerOf(keys, data);
    assert owner == l.initialOwner;
    QuietCoverage(l, coverage, s, s);
    if coverage.indexedFrom <= 0 {
      BelowCovered(l.handoffs, coverage, s);
      assert Below(l.handoffs, coverage.indexedFrom) == 0;
    } else {
      QuietCoverage(l, coverage, s, readAt);
    }
  }

  lemma {:induction false} RowOwnerIsCandidate(changes: seq<OwnerChange>, s: int)
    requires changes != []
    ensures RowOwner(changes, s) in Candidates(changes)
  {
    var n := Below(changes, s + 1);
    assert changes[0].prevOwner in Candidates(changes);
    assert n > 0 ==> changes[n - 1].newOwner in Candidates(changes);
  }

  // ---------------------------------------------------------------------------
  // The theorems
  // ---------------------------------------------------------------------------

  /** What the caller may read of slot `s`, in terms of the ledger alone. */
  predicate Readable(
    l: Ledger, wallets: set<Wallet>, coverage: Coverage, fetchedSlot: u64, changes: seq<OwnerChange>, s: int)
  {
    && 0 <= s
    && coverage.indexedFrom <= s <= Min(coverage.tip, fetchedSlot)
    && !IsHandoffSlot(l.handoffs, s)
    && OwnerAt(l, s) in wallets
    && (|changes| <= MAX_OWNER_CHANGES || changes[0].slot < s)
  }

  /**
   * Exactness: a chain that accounts for the current owner serves precisely the covered,
   * non-handoff slots the caller's wallets owned, above the oldest row when the chain was cut;
   * a chain that does not serves nothing.
   */
  lemma {:induction false} HistoryWindowsExact(
    keys: Keys, data: Bytes, programOwner: string, pubkey: string, fetchedSlot: u64,
    chain: OwnerChain, wallets: set<Wallet>, early: seq<OwnerChange>, l: Ledger, coverage: Coverage, readAt: int,
    s: int)
    requires ValidLedger(l) && OneSnapshot(chain, early, l, coverage)
    requires OwnedAccount(keys, data, programOwner, pubkey, l, wallets)
    requires BytesVouch(l, coverage, OwnerOf(keys, data), readAt)
    requires fetchedSlot <= I64_MAX
    ensures var r := ResolveOwnedSlotRanges(keys, data, programOwner, pubkey, fetchedSlot, Ok(chain), Ok(wallets));
            && r.Ok? && r.value.Some?
            && (!Accepted(keys, data, programOwner, pubkey, chain.changes) ==> r.value.value == [])
            && (Accepted(keys, data, programOwner, pubkey, chain.changes) ==>
                  (InWindows(s, r.value.value) <==> Readable(l, wallets, coverage, fetchedSlot, chain.changes, s)))
  {
    if chain.changes == [] && DerivesAsOwnAta(keys, data, programOwner, pubkey) {
      EmptyChainExact(keys, data, programOwner, pubkey, fetchedSlot, wallets, l, coverage, readAt, s);
    } else if chain.changes != [] {
      RowsExact(chain, OwnerOf(keys, data), fetchedSlot, wallets, early, l, coverage, readAt, s);
    }
  }

  lemma {:induction false} EmptyChainExact(
    keys: Keys, data: Bytes, programOwner: string, pubkey: string, fetchedSlot: u64,
    wallets: set<Wallet>, l: Ledger, coverage: Coverage, readAt: int, s: int)
    requires ValidLedger(l) && OwnedAccount(keys, data, programOwner, pubkey, l, wallets)
    requires Covered(l.handoffs, coverage) == [] && BytesVouch(l, coverage, OwnerOf(keys, data), readAt)
    requires fetchedSlot <= I64_MAX
    requires DerivesAsOwnAta(keys, data, programOwner, pubkey)
    ensures var clipped := Coverage(coverage.indexedFrom, Min(coverage.tip, fetchedSlot));
            InWindows(s, ClipToCoverage([Window(0, I64_MAX)], clipped))
            <==> Readable(l, wallets, coverage, fetchedSlot, [], s)
  {
    var clipped := Coverage(coverage.indexedFrom, Min(coverage.tip, fetchedSlot));
    ClipHolds([Window(0, I64_MAX)], clipped, s);
    InWindowsSingle(s, Window(0, I64_MAX));
    if 0 <= s && coverage.indexedFrom <= s <= coverage.tip {
      NeverHandedOn(keys, data, programOwner, pubkey, l, wallets, coverage, readAt, s);
    }
  }

  lemma {:induction false} RowsExact(
    chain: OwnerChain, owner: Wallet, fetchedSlot: u64, wallets: set<Wallet>,
    early: seq<OwnerChange>, l: Ledger, coverage: Coverage, readAt: int, s: int)
    requires ValidLedger(l) && OneSnapshot(chain, early, l, coverage)
    requires BytesVouch(l, coverage, owner, readAt)
    requires fetchedSlot <= I64_MAX
    requires chain.changes != []
    ensures var clipped := Coverage(coverage.indexedFrom, Min(coverage.tip, fetchedSlot));
            var ranges := OwnerWindows(chain.changes, owner, wallets * Candidates(chain.changes),
              |chain.changes| <= MAX_OWNER_CHANGES);
            && (!ChainLinks(chain.changes, owner) ==> ClipToCoverage(ranges, clipped) == [])
            && (ChainLinks(chain.changes, owner) ==>
                  (InWindows(s, ClipToCoverage(ranges, clipped))
                   <==> Readable(l, wallets, coverage, fetchedSlot, chain.changes, s)))
  {
    var changes := chain.changes;
    var complete := |changes| <= MAX_OWNER_CHANGES;
    var owned := wallets * Candidates(changes);
    var clipped := Coverage(coverage.indexedFrom, Min(coverage.tip, fetchedSlot));
    ClipHolds(OwnerWindows(changes, owner, owned, complete), clipped, s);
    RowOwnerIsCandidate(changes, s);
    ReadRowsSorted(chain, early, l, coverage);
    WindowsByRowOwner(changes, owned, complete, s);
    if ChainLinks(changes, owner) && coverage.indexedFrom <= s <= coverage.tip && (complete || changes[0].slot < s) {
      ReadRowsNameOwner(chain, early, l, coverage, owner, readAt, s);
    }
  }

  lemma {:induction false} ReadRowsSorted(chain: OwnerChain, early: seq<OwnerChange>, l: Ledger, coverage: Coverage)
    requires ValidLedger(l) && OneSnapshot(chain, early, l, coverage)
    ensures Sorted(chain.changes) && LedgerSlots(chain.changes)
  {
    TableRowsSorted(early + Covered(l.handoffs, coverage), early, l, coverage);
  }

  /** Handoffs appended above the tip change nothing at or below it. */
  lemma {:induction false} LaterHandoffsChangeNothing(l: Ledger, later: Ledger, tip: i64, s: int)
    requires l.initialOwner == later.initialOwner && l.handoffs <= later.handoffs
    requires forall i :: |l.handoffs| <= i < |later.handoffs| ==> tip < later.handoffs[i].slot
    requires s <= tip
    ensures OwnerAt(later, s) == OwnerAt(l, s)
    ensures IsHandoffSlot(later.handoffs, s) <==> IsHandoffSlot(l.handoffs, s)
  {
    assert later.handoffs[..|l.handoffs|] == l.handoffs;
    BelowPrefix(later.handoffs, |l.handoffs|, s + 1);
    HandoffSlotsBelowTip(l.handoffs, later.handoffs, s);
  }

  lemma {:induction false} HandoffSlotsBelowTip(hs: seq<OwnerChange>, more: seq<OwnerChange>, s: int)
    requires hs <= more
    requires forall i :: |hs| <= i < |more| ==> s < more[i].slot
    ensures IsHandoffSlot(more, s) <==> IsHandoffSlot(hs, s)
  {
    if IsHandoffSlot(hs, s) {
      var i :| 0 <= i < |hs| && hs[i].slot == s;
      assert more[i].slot == s;
    }
    if IsHandoffSlot(more, s) {
      var i :| 0 <= i < |more| && more[i].slot == s;
      assert hs[i].slot == s;
    }
  }

  /**
   * Soundness under growth: whatever lands above the tip after the chain was read, each slot
   * served is covered, is no handoff's, and was the caller's.
   */
  lemma {:induction false} HistoryWindowsSound(
    keys: Keys, data: Bytes, programOwner: string, pubkey: string, fetchedSlot: u64,
    chain: OwnerChain, wallets: set<Wallet>, early: seq<OwnerChange>, l: Ledger, coverage: Coverage, readAt: int,
    later: Ledger, s: int)
    requires ValidLedger(l) && OneSnapshot(chain, early, l, coverage)
    requires OwnedAccount(keys, data, programOwner, pubkey, l, wallets)
    requires BytesVouch(l, coverage, OwnerOf(keys, data), readAt)
    requires ValidLedger(later) && l.initialOwner == later.initialOwner && l.handoffs <= later.handoffs
    requires forall i :: |l.handoffs| <= i < |later.handoffs| ==> coverage.tip < later.handoffs[i].slot
    ensures var r := ResolveOwnedSlotRanges(keys, data, programOwner, pubkey, fetchedSlot, Ok(chain), Ok(wallets));
            && r.Ok? && r.value.Some?
            && StrictlyIncreasing(r.value.value)
            && (InWindows(s, r.value.value) ==>
                  && coverage.indexedFrom <= s <= Min(coverage.tip, fetchedSlot)
                  && !IsHandoffSlot(later.handoffs, s)
                  && OwnerAt(later, s) in wallets)
  {
    if fetchedSlot <= I64_MAX {
      HistoryWindowsExact(keys, data, programOwner, pubkey, fetchedSlot, chain, wallets, early, l, coverage, readAt, s);
      var clipped := Coverage(coverage.indexedFrom, Min(coverage.tip, fetchedSlot));
      ReadRowsSorted(chain, early, l, coverage);
      WindowsAreOrdered(chain.changes, OwnerOf(keys, data), wallets * Candidates(chain.changes),
                        |chain.changes| <= MAX_OWNER_CHANGES, clipped);
      ClipKeepsOrder([Window(0, I64_MAX)], clipped);
      if s <= coverage.tip {
        LaterHandoffsChangeNothing(l, later, coverage.tip, s);
      }
    }
  }

  // ---------------------------------------------------------------------------
  // When the chain is accepted, and what it takes to trust it
  // ---------------------------------------------------------------------------

  /** The early rows among those read, with the first covered one they lead up to. */
  function EarlyPart(changes: seq<OwnerChange>, covered: nat): seq<OwnerChange>
    requires covered > 0
  {
    if covered < |changes| then changes[..|changes| - covered + 1] else []
  }

  /**
   * With bytes as fresh as the tip and a handoff in coverage, the chain read accounts for the owner if and
   * only if what was read of the early rows links up: coverage itself never breaks it.
   */
  lemma {:induction false} FreshBytesLinkIffEarlyRowsDo(
    keys: Keys, data: Bytes, programOwner: string, pubkey: string, changes: seq<OwnerChange>,
    early: seq<OwnerChange>, l: Ledger, coverage: Coverage)
    requires Joined(l.handoffs)
    requires coverage.indexedFrom <= coverage.tip && Covered(l.handoffs, coverage) != []
    requires changes == Newest(early + Covered(l.handoffs, coverage), MAX_OWNER_CHANGES + 1)
    requires IsTokenAccount(data) && OwnerOf(keys, data) == OwnerAt(l, coverage.tip)
    ensures Accepted(keys, data, programOwner, pubkey, changes)
            <==> Joined(EarlyPart(changes, |Covered(l.handoffs, coverage)|))
  {
    var covered := Covered(l.handoffs, coverage);
    CoveredEndAtTip(l, coverage);
    SuffixJoins(early, covered, Max(|early + covered| - MAX_OWNER_CHANGES - 1, 0));
  }

  /** The covered handoffs link up to whoever holds the account at the tip. */
  lemma {:induction false} CoveredEndAtTip(l: Ledger, coverage: Coverage)
    requires Joined(l.handoffs)
    requires coverage.indexedFrom <= coverage.tip && Covered(l.handoffs, coverage) != []
    ensures ChainLinks(Covered(l.handoffs, coverage), OwnerAt(l, coverage.tip))
  {
    var from, to := Below(l.handoffs, coverage.indexedFrom), Below(l.handoffs, coverage.tip + 1);
    BelowMonotone(l.handoffs, coverage.indexedFrom, coverage.tip + 1);
    SliceLinks(l.handoffs, from, to);
  }

  /** So with no early row it always does. */
  lemma {:induction false} FreshBytesAlwaysLink(
    keys: Keys, data: Bytes, programOwner: string, pubkey: string, changes: seq<OwnerChange>, l: Ledger,
    coverage: Coverage)
    requires Joined(l.handoffs)
    requires coverage.indexedFrom <= coverage.tip && Covered(l.handoffs, coverage) != []
    requires changes == Newest(Covered(l.handoffs, coverage), MAX_OWNER_CHANGES + 1)
    requires IsTokenAccount(data) && OwnerOf(keys, data) == OwnerAt(l, coverage.tip)
    ensures Accepted(keys, data, programOwner, pubkey, changes)
  {
    assert [] + Covered(l.handoffs, coverage) == Covered(l.handoffs, coverage);
    FreshBytesLinkIffEarlyRowsDo(keys, data, programOwner, pubkey, changes, [], l, coverage);
  }

  lemma {:induction false} SuffixJoins(early: seq<OwnerChange>, covered: seq<OwnerChange>, k: nat)
    requires covered != [] && Joined(covered) && k < |early + covered|
    ensures var changes := (early + covered)[k..];
            && changes[|changes| - 1] == covered[|covered| - 1]
            && (Joined(changes) <==> Joined(EarlyPart(changes, |covered|)))
  {
    var changes := (early + covered)[k..];
    var n := |changes| - |covered|;
    if Joined(EarlyPart(changes, |covered|)) {
      forall i | 0 <= i < |changes| - 1 ensures changes[i].newOwner == changes[i + 1].prevOwner {
        if i < n {
          var part := EarlyPart(changes, |covered|);
          assert part[i].newOwner == part[i + 1].prevOwner;
        } else {
          assert covered[i - n].newOwner == covered[i - n + 1].prevOwner;
        }
      }
    }
  }

  lemma {:induction false} SliceLinks(hs: seq<OwnerChange>, from: nat, to: nat)
    requires from < to <= |hs| && Joined(hs)
    ensures ChainLinks(hs[from..to], hs[to - 1].newOwner)
  {
    var slice := hs[from..to];
    forall i | 0 <= i < |slice| - 1 ensures slice[i].newOwner == slice[i + 1].prevOwner {
      assert hs[from + i].newOwner == hs[from + i + 1].prevOwner;
    }
  }

  /**
   * Handoffs the detector missed in a row, `a` up to `b`, break a link, and so hide the page, unless they
   * were the account's first or brought it back to whoever gave it away: links show no more than that.
   */
  lemma {:induction false} MissedRunNoticedUnless(hs: seq<OwnerChange>, a: nat, b: nat)
    requires Joined(hs) && a < b <= |hs| && b - a < |hs|
    ensures ChainLinks(hs[..a] + hs[b..], hs[|hs| - 1].newOwner)
            <==> a == 0 || hs[a].prevOwner == hs[b - 1].newOwner
  {
    var rows := hs[..a] + hs[b..];
    if a == 0 || hs[a].prevOwner == hs[b - 1].newOwner {
      forall i | 0 <= i < |rows| - 1 ensures rows[i].newOwner == rows[i + 1].prevOwner {
        RowsJoinAt(hs, a, b, i);
      }
      assert a > 0 ==> hs[a - 1].newOwner == hs[a - 1 + 1].prevOwner;
    } else {
      RowsJoinAt(hs, a, b, a - 1);
    }
  }

  /** Consecutive rows join wherever consecutive handoffs do, but at the gap only if the run came back. */
  lemma {:induction false} RowsJoinAt(hs: seq<OwnerChange>, a: nat, b: nat, i: nat)
    requires Joined(hs) && a < b <= |hs|
    ensures var rows := hs[..a] + hs[b..];
            && (i + 1 < |rows| ==>
                  (rows[i].newOwner == rows[i + 1].prevOwner <==> i != a - 1 || hs[a].prevOwner == hs[b - 1].newOwner))
            && (i + 1 == |rows| && a == |rows| ==> rows[i].newOwner == hs[a].prevOwner)
  {
    var rows := hs[..a] + hs[b..];
    if i + 1 < a {
      assert hs[i].newOwner == hs[i + 1].prevOwner;
    } else if i + 1 == a {
      assert hs[i].newOwner == hs[i + 1].prevOwner;
      if b < |hs| {
        assert hs[b - 1].newOwner == hs[b - 1 + 1].prevOwner;
      }
    } else if i + 1 < |rows| {
      assert hs[b + i - a].newOwner == hs[b + i - a + 1].prevOwner;
    }
  }

  /** One missed handoff between different wallets is noticed unless it was the first. */
  lemma {:induction false} MissedHandoffIsNoticedUnlessFirst(hs: seq<OwnerChange>, k: nat)
    requires Joined(hs) && |hs| >= 2 && k < |hs|
    requires hs[k].prevOwner != hs[k].newOwner
    ensures ChainLinks(hs[..k] + hs[k + 1..], hs[|hs| - 1].newOwner) <==> k == 0
  {
    MissedRunNoticedUnless(hs, k, k + 1);
  }

  /**
   * What is served when missed handoffs go unnoticed: the whole stretch from the handoff before them to the
   * one after goes to whoever held it last, though before each missed handoff its giver held it, and after
   * each its receiver.
   */
  lemma {:induction false} MissedRunServedToLast(l: Ledger, a: nat, b: nat, owned: set<Wallet>, s: int)
    requires ValidLedger(l) && a < b <= |l.handoffs| && b - a < |l.handoffs|
    requires a == 0 || l.handoffs[a].prevOwner == l.handoffs[b - 1].newOwner
    requires 0 <= s <= I64_MAX && (a > 0 ==> l.handoffs[a - 1].slot < s)
    requires b < |l.handoffs| ==> s < l.handoffs[b].slot
    ensures var rows := l.handoffs[..a] + l.handoffs[b..];
            InWindows(s, OwnerWindows(rows, l.handoffs[|l.handoffs| - 1].newOwner, owned, true))
            <==> l.handoffs[b - 1].newOwner in owned
    ensures s < l.handoffs[a].slot ==> OwnerAt(l, s) == l.handoffs[a].prevOwner
    ensures forall i :: a <= i < b && l.handoffs[i].slot <= s && (i + 1 < b ==> s < l.handoffs[i + 1].slot)
              ==> OwnerAt(l, s) == l.handoffs[i].newOwner
  {
    var hs := l.handoffs;
    if s < hs[a].slot {
      HolderBeforeRun(l, a, s);
    }
    forall i | a <= i < b && hs[i].slot <= s && (i + 1 < b ==> s < hs[i + 1].slot)
      ensures OwnerAt(l, s) == hs[i].newOwner
    {
      HolderWithinRun(l, i, s);
    }
    MissedRunNoticedUnless(hs, a, b);
    MissedRowsSorted(hs, a, b, s);
    MissedRunHolder(hs, a, b);
    StretchServed(hs[..a] + hs[b..], hs[|hs| - 1].newOwner, a, owned, s);
  }

  lemma {:induction false} MissedRowsSorted(hs: seq<OwnerChange>, a: nat, b: nat, s: int)
    requires Sorted(hs) && LedgerSlots(hs) && a <= b <= |hs|
    requires (a > 0 ==> hs[a - 1].slot < s) && (b < |hs| ==> s < hs[b].slot)
    ensures var rows := hs[..a] + hs[b..];
            && Sorted(rows) && LedgerSlots(rows)
            && (a > 0 ==> rows[a - 1].slot < s) && (a < |rows| ==> s < rows[a].slot)
  {
  }

  /** Between two rows the chain serves whoever the first left holding the account. */
  lemma {:induction false} StretchServed(
    rows: seq<OwnerChange>, currentOwner: Wallet, a: nat, owned: set<Wallet>, s: int)
    requires rows != [] && a <= |rows| && Sorted(rows) && LedgerSlots(rows) && ChainLinks(rows, currentOwner)
    requires 0 <= s <= I64_MAX && (a > 0 ==> rows[a - 1].slot < s) && (a < |rows| ==> s < rows[a].slot)
    ensures InWindows(s, OwnerWindows(rows, currentOwner, owned, true)) <==> Holder(rows[0].prevOwner, rows, a) in owned
  {
    NotAtAnyRow(rows, a, s);
    assert forall i :: 0 <= i < a ==> rows[i].slot <= rows[a - 1].slot;
    BelowIs(rows, s + 1, a);
    WindowsByRowOwner(rows, owned, true, s);
  }

  lemma {:induction false} MissedRunHolder(hs: seq<OwnerChange>, a: nat, b: nat)
    requires Joined(hs) && a < b <= |hs| && b - a < |hs|
    requires a == 0 || hs[a].prevOwner == hs[b - 1].newOwner
    ensures var rows := hs[..a] + hs[b..]; Holder(rows[0].prevOwner, rows, a) == hs[b - 1].newOwner
  {
    if a > 0 {
      assert hs[a - 1].newOwner == hs[a - 1 + 1].prevOwner;
    } else {
      assert hs[b - 1].newOwner == hs[b - 1 + 1].prevOwner;
    }
  }

  lemma {:induction false} NotAtAnyRow(rows: seq<OwnerChange>, a: nat, s: int)
    requires Sorted(rows) && a <= |rows|
    requires a > 0 ==> rows[a - 1].slot < s
    requires a < |rows| ==> s < rows[a].slot
    ensures !IsHandoffSlot(rows, s)
  {
    forall i | 0 <= i < |rows| ensures rows[i].slot != s {
      if i < a {
        assert rows[i].slot <= rows[a - 1].slot;
      } else {
        assert rows[a].slot <= rows[i].slot;
      }
    }
  }

  lemma {:induction false} HolderBeforeRun(l: Ledger, a: nat, s: int)
    requires ValidLedger(l) && a < |l.handoffs| && s < l.handoffs[a].slot
    requires a > 0 ==> l.handoffs[a - 1].slot < s
    ensures OwnerAt(l, s) == l.handoffs[a].prevOwner
  {
    assert forall i :: 0 <= i < a ==> l.handoffs[i].slot <= l.handoffs[a - 1].slot;
    BelowIs(l.handoffs, s + 1, a);
    assert a > 0 ==> l.handoffs[a - 1].newOwner == l.handoffs[a - 1 + 1].prevOwner;
  }

  /** Between two handoffs of the run the ledger's holder is the one in between. */
  lemma {:induction false} HolderWithinRun(l: Ledger, i: nat, s: int)
    requires ValidLedger(l) && i < |l.handoffs| && l.handoffs[i].slot <= s
    requires i + 1 < |l.handoffs| ==> s < l.handoffs[i + 1].slot
    ensures OwnerAt(l, s) == l.handoffs[i].newOwner
  {
    BelowIs(l.handoffs, s + 1, i + 1);
  }

  /** A ledger that fits what a read with no row saw: no handoff in coverage, and `owner` holding at `readAt`. */
  predicate FitsQuietRead(l: Ledger, owner: Wallet, coverage: Coverage, readAt: int) {
    FitsEarlyRead(l, owner, coverage, readAt) && l.initialOwner == owner
  }

  /** One that fits a read with rows below the watermark alone, which say nothing of the first owner. */
  predicate FitsEarlyRead(l: Ledger, owner: Wallet, coverage: Coverage, readAt: int) {
    && ValidLedger(l)
    && Covered(l.handoffs, coverage) == []
    && OwnerAt(l, readAt) == owner
  }

  /** Sold at one slot and, if `back` is past it, bought back at another. */
  function SoldAndBack(owner: Wallet, other: Wallet, sold: i64, back: i64): Ledger {
    Ledger(owner, [OwnerChange(sold, owner, other)] + if sold < back then [OwnerChange(back, other, owner)] else [])
  }

  lemma {:induction false} SoldAndBackHolders(owner: Wallet, other: Wallet, sold: i64, back: i64, s: int)
    requires 0 <= sold < I64_MAX && back < I64_MAX
    ensures ValidLedger(SoldAndBack(owner, other, sold, back))
    ensures OwnerAt(SoldAndBack(owner, other, sold, back), s)
            == if sold <= s && !(sold < back <= s) then other else owner
  {
    var n := if s < sold then 0 else if sold < back <= s then 2 else 1;
    BelowIs(SoldAndBack(owner, other, sold, back).handoffs, s + 1, n);
  }

  lemma {:induction false} SoldBeforeCoverage(owner: Wallet, other: Wallet, coverage: Coverage, back: i64)
    requires 0 < coverage.indexedFrom <= coverage.tip
    requires back < coverage.indexedFrom || coverage.tip < back
    ensures Covered(SoldAndBack(owner, other, coverage.indexedFrom - 1, back).handoffs, coverage) == []
  {
    var hs := SoldAndBack(owner, other, coverage.indexedFrom - 1, back).handoffs;
    BelowIs(hs, coverage.indexedFrom, 1);
    BelowIs(hs, coverage.tip + 1, 1);
  }

  /**
   * Reading in time is exactly what makes a quiet read safe: every ledger that fits it gives the owner
   * every covered slot if and only if coverage reaches back to the first slot, or the bytes were read
   * in coverage or just before it.
   */
  lemma {:induction false} QuietReadSafeIffInTime(owner: Wallet, other: Wallet, coverage: Coverage, readAt: int, s: int)
    requires owner != other && 0 <= readAt < I64_MAX
    requires 0 <= s && coverage.indexedFrom <= s <= coverage.tip
    ensures (forall l :: FitsQuietRead(l, owner, coverage, readAt) ==> OwnerAt(l, s) == owner)
            <==> ReadInTime(coverage, readAt)
  {
    if ReadInTime(coverage, readAt) {
      forall l | FitsQuietRead(l, owner, coverage, readAt)
        ensures OwnerAt(l, s) == owner
      {
        QuietLedgerHolder(l, owner, coverage, readAt, s);
      }
    } else {
      var l := OutOfTimeLedger(owner, other, coverage, readAt);
      OutOfTimeMisleads(owner, other, coverage, readAt, s);
      assert FitsQuietRead(l, owner, coverage, readAt);
    }
  }

  /** Sold just before coverage, and bought back just after it if the bytes were read later still. */
  function OutOfTimeLedger(owner: Wallet, other: Wallet, coverage: Coverage, readAt: int): Ledger
    requires 0 < coverage.indexedFrom && readAt < I64_MAX
  {
    var sold := coverage.indexedFrom - 1;
    SoldAndBack(owner, other, sold, if coverage.tip < readAt then coverage.tip + 1 else sold)
  }

  lemma {:induction false} OutOfTimeMisleads(owner: Wallet, other: Wallet, coverage: Coverage, readAt: int, s: int)
    requires 0 < coverage.indexedFrom <= s <= coverage.tip && 0 <= readAt < I64_MAX && !ReadInTime(coverage, readAt)
    ensures FitsQuietRead(OutOfTimeLedger(owner, other, coverage, readAt), owner, coverage, readAt)
    ensures OwnerAt(OutOfTimeLedger(owner, other, coverage, readAt), s) == other
  {
    var sold := coverage.indexedFrom - 1;
    SoldAndBackMisleads(owner, other, coverage, if coverage.tip < readAt then coverage.tip + 1 else sold, readAt, s);
  }

  lemma {:induction false} SoldAndBackMisleads(
    owner: Wallet, other: Wallet, coverage: Coverage, back: i64, readAt: int, s: int)
    requires 0 < coverage.indexedFrom <= s <= coverage.tip && back < I64_MAX
    requires (back < coverage.indexedFrom && readAt < coverage.indexedFrom - 1) || coverage.tip < back <= readAt
    ensures var l := SoldAndBack(owner, other, coverage.indexedFrom - 1, back);
            FitsQuietRead(l, owner, coverage, readAt) && OwnerAt(l, s) == other
  {
    SoldAndBackHolders(owner, other, coverage.indexedFrom - 1, back, readAt);
    SoldAndBackHolders(owner, other, coverage.indexedFrom - 1, back, s);
    SoldBeforeCoverage(owner, other, coverage, back);
  }

  /** The same holds of rows below the watermark alone, whoever held the account first. */
  lemma {:induction false} EarlyReadSafeIffInTime(owner: Wallet, other: Wallet, coverage: Coverage, readAt: int, s: int)
    requires owner != other && 0 <= readAt < I64_MAX
    requires 0 < coverage.indexedFrom <= s <= coverage.tip
    ensures (forall l :: FitsEarlyRead(l, owner, coverage, readAt) ==> OwnerAt(l, s) == owner)
            <==> ReadInTime(coverage, readAt)
  {
    if ReadInTime(coverage, readAt) {
      forall l | FitsEarlyRead(l, owner, coverage, readAt)
        ensures OwnerAt(l, s) == owner
      {
        QuietCoverage(l, coverage, s, readAt);
      }
    } else {
      OutOfTimeMisleads(owner, other, coverage, readAt, s);
      assert FitsEarlyRead(OutOfTimeLedger(owner, other, coverage, readAt), owner, coverage, readAt);
    }
  }

  lemma {:induction false} QuietLedgerHolder(l: Ledger, owner: Wallet, coverage: Coverage, readAt: int, s: int)
    requires FitsQuietRead(l, owner, coverage, readAt) && ReadInTime(coverage, readAt)
    requires coverage.indexedFrom <= s <= coverage.tip
    ensures OwnerAt(l, s) == owner
  {
    if coverage.indexedFrom <= 0 {
      BelowCovered(l.handoffs, coverage, s);
      BelowSplits(l.handoffs, coverage.indexedFrom);
      assert Below(l.handoffs, coverage.indexedFrom) == 0;
    } else {
      QuietCoverage(l, coverage, s, readAt);
    }
  }

  /**
   * What that comes to for the gateway: with no row, every slot served is the caller's under every ledger
   * that fits the read if and only if the bytes were read in time. The node reads them at or after the
   * fetch slot it names, but for a replica behind its cache; then that is a zero watermark or a read
   * within the tip.
   */
  lemma {:induction false} QuietWindowSoundIffReadInTime(
    keys: Keys, data: Bytes, programOwner: string, pubkey: string, fetchedSlot: u64, readAt: int,
    coverage: Coverage, wallets: Result<set<Wallet>, DbError>, other: Wallet, s: int)
    requires IsTokenProgram(programOwner) && IsTokenAccount(data) && keys.isBase58(pubkey)
    requires DerivesAsOwnAta(keys, data, programOwner, pubkey) && other != OwnerOf(keys, data)
    requires fetchedSlot <= I64_MAX && 0 <= readAt < I64_MAX
    requires 0 <= s && coverage.indexedFrom <= s <= Min(coverage.tip, fetchedSlot)
    ensures var owner := OwnerOf(keys, data);
            var r := ResolveOwnedSlotRanges(keys, data, programOwner, pubkey, fetchedSlot,
                                            Ok(OwnerChain(Some(coverage), [])), wallets);
            && r.Ok? && r.value.Some? && InWindows(s, r.value.value)
            && ((forall l :: FitsQuietRead(l, owner, coverage, readAt) ==> OwnerAt(l, s) == owner)
                <==> ReadInTime(coverage, readAt))
            && (fetchedSlot <= readAt ==>
                  (ReadInTime(coverage, readAt) <==> coverage.indexedFrom <= 0 || readAt <= coverage.tip))
  {
    var clipped := Coverage(coverage.indexedFrom, Min(coverage.tip, fetchedSlot));
    ClipHolds([Window(0, I64_MAX)], clipped, s);
    InWindowsSingle(s, Window(0, I64_MAX));
    QuietReadSafeIffInTime(OwnerOf(keys, data), other, coverage, readAt, s);
  }

  /** A ledger that fits a quiet read at some slot from the fetch slot on, which is all the gateway knows of it. */
  ghost predicate MayFit(l: Ledger, owner: Wallet, coverage: Coverage, fetchedSlot: u64) {
    exists readAt: int :: fetchedSlot <= readAt < I64_MAX && FitsQuietRead(l, owner, coverage, readAt)
  }

  /** So by what the gateway can know, a quiet window is safe if and only if the watermark is zero. */
  lemma {:induction false} QuietWindowSafeIffFromFirstSlot(
    owner: Wallet, other: Wallet, coverage: Coverage, fetchedSlot: u64, s: int)
    requires owner != other && 0 <= s && coverage.indexedFrom <= s <= Min(coverage.tip, fetchedSlot)
    requires fetchedSlot < I64_MAX && coverage.tip + 1 < I64_MAX
    ensures (forall l :: MayFit(l, owner, coverage, fetchedSlot) ==> OwnerAt(l, s) == owner)
            <==> coverage.indexedFrom <= 0
  {
    if coverage.indexedFrom <= 0 {
      forall l | MayFit(l, owner, coverage, fetchedSlot)
        ensures OwnerAt(l, s) == owner
      {
        var readAt: int :| fetchedSlot <= readAt < I64_MAX && FitsQuietRead(l, owner, coverage, readAt);
        QuietLedgerHolder(l, owner, coverage, readAt, s);
      }
    } else {
      var readAt := Max(coverage.tip + 1, fetchedSlot);
      OutOfTimeMisleads(owner, other, coverage, readAt, s);
      assert MayFit(OutOfTimeLedger(owner, other, coverage, readAt), owner, coverage, fetchedSlot);
    }
  }

  /**
   * Bytes read past the tip can mislead: sold below the watermark at slot 5, bought back at
   * slot 30 after the tip 20, and the seller is served slots the buyer held.
   */
  lemma {:induction false} BytesPastTheTipMislead(
    keys: Keys, data: Bytes, programOwner: string, pubkey: string, buyer: Wallet)
    requires IsTokenProgram(programOwner) && IsTokenAccount(data) && keys.isBase58(pubkey)
    requires DerivesAsOwnAta(keys, data, programOwner, pubkey)
    requires buyer != OwnerOf(keys, data)
    ensures var owner := OwnerOf(keys, data);
            var l := Ledger(owner, [OwnerChange(5, owner, buyer), OwnerChange(30, buyer, owner)]);
            var r := ResolveOwnedSlotRanges(keys, data, programOwner, pubkey, 35,
                                            Ok(OwnerChain(Some(Coverage(10, 20)), [])), Ok({owner}));
            && ValidLedger(l) && Covered(l.handoffs, Coverage(10, 20)) == []
            && r == Ok(Some([Window(10, 20)]))
            && OwnerAt(l, 15) == buyer && OwnerAt(l, 35) == owner
  {
    var owner := OwnerOf(keys, data);
    var hs := [OwnerChange(5, owner, buyer), OwnerChange(30, buyer, owner)];
    BelowIs(hs, 10, 1);
    BelowIs(hs, 16, 1);
    BelowIs(hs, 21, 1);
    BelowIs(hs, 36, 2);
    assert Covered(hs, Coverage(10, 20)) == [];
    assert OwnerAt(Ledger(owner, hs), 15) == buyer && OwnerAt(Ledger(owner, hs), 35) == owner;
    assert ValidLedger(Ledger(owner, hs));
    var all := [Window(0, I64_MAX)];
    assert all[1..] == [];
    assert ClipToCoverage(all, Coverage(10, 20)) == [Window(10, 20)] + ClipToCoverage(all[1..], Coverage(10, 20));
    assert ClipToCoverage(all, Coverage(10, 20)) == [Window(10, 20)];
    assert Coverage(10, Min(20, 35)) == Coverage(10, 20);
  }

  /** With the first handoff missed, what came before it is served to whoever it went to, not to whoever held it. */
  lemma {:induction false} MissedFirstHandoffMovesHead(l: Ledger, owned: set<Wallet>, s: int)
    requires ValidLedger(l) && |l.handoffs| >= 2 && 0 <= s < l.handoffs[0].slot
    ensures OwnerAt(l, s) == l.initialOwner
    ensures var rows := l.handoffs[1..];
            InWindows(s, OwnerWindows(rows, rows[|rows| - 1].newOwner, owned, true))
            <==> l.handoffs[0].newOwner in owned
  {
    BelowIs(l.handoffs, s + 1, 0);
    assert l.handoffs[..0] + l.handoffs[1..] == l.handoffs[1..];
    MissedRunServedToLast(l, 0, 1, owned, s);
  }

  /** Slots as the table may hold them, the last i64 slot among them. */
  predicate TableSlots(changes: seq<OwnerChange>) {
    forall i :: 0 <= i < |changes| ==> 0 <= changes[i].slot
  }

  lemma {:induction false} WindowAfterAtHandoff(changes: seq<OwnerChange>, owned: set<Wallet>, i: nat, h: nat)
    requires Sorted(changes) && TableSlots(changes) && i < |changes| && h < |changes|
    ensures InWindows(changes[h].slot, WindowAfter(changes, owned, i))
            <==> i == |changes| - 1 && changes[h].slot == I64_MAX && changes[i].newOwner in owned
  {
    var s := changes[h].slot;
    var end := if i + 1 < |changes| then SaturatingPrev(changes[i + 1].slot) else I64_MAX;
    InWindowsSingle(s, Window(SaturatingNext(changes[i].slot), end));
    if h <= i {
      assert s <= changes[i].slot;
    } else {
      assert changes[i + 1].slot <= s;
    }
  }

  lemma {:induction false} HeadNotAtHandoff(changes: seq<OwnerChange>, owned: set<Wallet>, complete: bool, h: nat)
    requires Sorted(changes) && TableSlots(changes) && h < |changes|
    ensures !InWindows(changes[h].slot, HeadWindow(changes, owned, complete))
  {
    InWindowsSingle(changes[h].slot, Window(0, SaturatingPrev(changes[0].slot)));
    assert changes[0].slot <= changes[h].slot;
  }

  /** No window but the last handoff's holds a handoff's slot. */
  lemma {:induction false} WindowsUpToAtHandoff(
    changes: seq<OwnerChange>, owned: set<Wallet>, complete: bool, n: nat, h: nat)
    requires Sorted(changes) && TableSlots(changes) && n < |changes| && h < |changes|
    ensures !InWindows(changes[h].slot, WindowsUpTo(changes, owned, complete, n))
  {
    if n == 0 {
      HeadNotAtHandoff(changes, owned, complete, h);
    } else {
      WindowsUpToAtHandoff(changes, owned, complete, n - 1, h);
      WindowAfterAtHandoff(changes, owned, n - 1, h);
      InWindowsConcat(changes[h].slot, WindowsUpTo(changes, owned, complete, n - 1),
        WindowAfter(changes, owned, n - 1));
    }
  }

  /**
   * A handoff's own slot is served if and only if it is the last i64 slot, where adding one saturates,
   * and the current owner is the caller's.
   */
  lemma {:induction false} HandoffSlotServedIffSaturated(
    changes: seq<OwnerChange>, currentOwner: Wallet, owned: set<Wallet>, complete: bool, h: nat)
    requires Sorted(changes) && TableSlots(changes) && h < |changes| && ChainLinks(changes, currentOwner)
    ensures InWindows(changes[h].slot, OwnerWindows(changes, currentOwner, owned, complete))
            <==> changes[h].slot == I64_MAX && currentOwner in owned
  {
    var n := |changes| - 1;
    WindowsUpToAtHandoff(changes, owned, complete, n, h);
    WindowAfterAtHandoff(changes, owned, n, h);
    InWindowsConcat(changes[h].slot, WindowsUpTo(changes, owned, complete, n), WindowAfter(changes, owned, n));
  }
}
