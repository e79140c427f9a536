/**
 * Ownership-timeline scoping of transaction history: the slot windows a caller may read
 * of a token account that changed hands (gateway/src/auth.rs), rebuilt from the handoffs
 * the ledger recorded (gateway/src/db.rs).
 */
module OwnerTimeline {
  import opened Common
  import opened Slots
  import opened TokenAccount

  // ---------------------------------------------------------------------------
  // Data model
  // ---------------------------------------------------------------------------

  /** A wallet, base58-encoded as in `verified_wallets.pubkey`. */
  type Wallet = string

  /** One recorded handoff of a token account between wallets. */
  datatype OwnerChange = OwnerChange(slot: i64, prevOwner: Wallet, newOwner: Wallet)

  /** The slots the handoff table can vouch for. */
  datatype Coverage = Coverage(indexedFrom: i64, tip: i64)

  /** An inclusive window of slots. */
  datatype Window = Window(first: i64, last: i64)

  const MAX_OWNER_CHANGES: nat := 64

  // ---------------------------------------------------------------------------
  // The windows, as the gateway builds them
  // ---------------------------------------------------------------------------

  function SaturatingNext(s: i64): i64 {
    if s == I64_MAX then I64_MAX else s + 1
  }

  function SaturatingPrev(s: i64): i64 {
    if s == I64_MIN then I64_MIN else s - 1
  }

  /** Each handoff's new owner is the next one's previous owner, ending at `currentOwner`. */
  predicate ChainLinks(changes: seq<OwnerChange>, currentOwner: Wallet)
    requires changes != []
  {
    && Joined(changes)
    && changes[|changes| - 1].newOwner == currentOwner
  }

  predicate Joined(changes: seq<OwnerChange>) {
    forall i :: 0 <= i < |changes| - 1 ==> changes[i].newOwner == changes[i + 1].prevOwner
  }

  /** The window before the oldest handoff read, when it is the account's first. */
  function HeadWindow(changes: seq<OwnerChange>, owned: set<Wallet>, complete: bool): seq<Window>
    requires changes != []
  {
    var end := SaturatingPrev(changes[0].slot);
    if complete && changes[0].prevOwner in owned && end >= 0 then [Window(0, end)] else []
  }

  /** The window handoff `i` opens, up to the next handoff or to the end of time. */
  function WindowAfter(changes: seq<OwnerChange>, owned: set<Wallet>, i: nat): seq<Window>
    requires i < |changes|
  {
    var start := SaturatingNext(changes[i].slot);
    var end := if i + 1 < |changes| then SaturatingPrev(changes[i + 1].slot) else I64_MAX;
    if start <= end && changes[i].newOwner in owned then [Window(start, end)] else []
  }

  /** The head window, then the windows the first `n` handoffs open. */
  function WindowsUpTo(changes: seq<OwnerChange>, owned: set<Wallet>, complete: bool, n: nat): seq<Window>
    requires changes != []
    requires n <= |changes|
  {
    if n == 0 then HeadWindow(changes, owned, complete)
    else WindowsUpTo(changes, owned, complete, n - 1) + WindowAfter(changes, owned, n - 1)
  }

  function OwnerWindows(
    changes: seq<OwnerChange>, currentOwner: Wallet, owned: set<Wallet>, complete: bool): seq<Window>
  {
    if changes == [] || !ChainLinks(changes, currentOwner) then []
    else WindowsUpTo(changes, owned, complete, |changes|)
  }

  /** `slot_ranges_for_owner`: the loop over the handoffs, pushing the caller's windows. */
  method SlotRangesForOwner(changes: seq<OwnerChange>, currentOwner: Wallet, owned: set<Wallet>, complete: bool)
    returns (ranges: seq<Window>)
    ensures ranges == OwnerWindows(changes, currentOwner, owned, complete)
  {
    if changes == [] {
      return [];
    }
    var links := changes[|changes| - 1].newOwner == currentOwner;
    for i := 0 to |changes| - 1
      invariant links <==> changes[|changes| - 1].newOwner == currentOwner
                           && Joined(changes[..i + 1])
    {
      assert changes[..i + 2][..i + 1] == changes[..i + 1];
      assert Joined(changes[..i + 2])
        <==> Joined(changes[..i + 1]) && changes[i].newOwner == changes[i + 1].prevOwner by {
        JoinedSnoc(changes, i + 1);
      }
      links := links && changes[i].newOwner == changes[i + 1].prevOwner;
    }
    assert changes[..|changes|] == changes;
    if !links {
      return [];
    }

    ranges := [];
    var headEnd := SaturatingPrev(changes[0].slot);
    if complete && changes[0].prevOwner in owned && headEnd >= 0 {
      ranges := ranges + [Window(0, headEnd)];
    }
    for index := 0 to |changes|
      invariant ranges == WindowsUpTo(changes, owned, complete, index)
    {
      var start := SaturatingNext(changes[index].slot);
      var end := I64_MAX;
      if index + 1 < |changes| {
        end := SaturatingPrev(changes[index + 1].slot);
      }
      // Two handoffs in the same slot leave no window between them.
      if start <= end && changes[index].newOwner in owned {
        ranges := ranges + [Window(start, end)];
      }
    }
  }

  lemma {:induction false} JoinedSnoc(changes: seq<OwnerChange>, n: nat)
    requires 1 <= n < |changes|
    ensures Joined(changes[..n + 1]) <==> Joined(changes[..n]) && changes[n - 1].newOwner == changes[n].prevOwner
  {
    var a, b := changes[..n], changes[..n + 1];
    if Joined(b) {
      assert b[n - 1].newOwner == b[n].prevOwner;
      forall i | 0 <= i < |a| - 1 ensures a[i].newOwner == a[i + 1].prevOwner {
        assert b[i].newOwner == b[i + 1].prevOwner;
      }
    }
  }

  /** `clip_to_coverage`: none below the watermark, none above the tip, empty windows dropped. */
  function ClipToCoverage(ranges: seq<Window>, coverage: Coverage): seq<Window> {
    if ranges == [] then []
    else
      var first := Max(ranges[0].first, coverage.indexedFrom);
      var last := Min(ranges[0].last, coverage.tip);
      (if first <= last then [Window(first, last)] else []) + ClipToCoverage(ranges[1..], coverage)
  }

  // ---------------------------------------------------------------------------
  // The ledger the windows are judged against
  // ---------------------------------------------------------------------------

  /** Every handoff of one account that ever ran, in execution order. */
  datatype Ledger = Ledger(initialOwner: Wallet, handoffs: seq<OwnerChange>)

  predicate Sorted(hs: seq<OwnerChange>) {
    forall i, j :: 0 <= i < j < |hs| ==> hs[i].slot <= hs[j].slot
  }

  /** Slots are never negative, and the last i64 slot is past any the channel reaches. */
  predicate LedgerSlots(hs: seq<OwnerChange>) {
    forall i :: 0 <= i < |hs| ==> 0 <= hs[i].slot < I64_MAX
  }

  predicate ValidLedger(l: Ledger) {
    && Sorted(l.handoffs)
    && LedgerSlots(l.handoffs)
    && Joined(l.handoffs)
    && (l.handoffs != [] ==> l.handoffs[0].prevOwner == l.initialOwner)
  }

  function HandoffSlots(hs: seq<OwnerChange>): seq<int> {
    seq(|hs|, i requires 0 <= i < |hs| => hs[i].slot)
  }

  /** How many leading handoffs ran below slot `s`. */
  function Below(hs: seq<OwnerChange>, s: int): (n: nat)
    ensures n <= |hs|
  {
    CountBelow(HandoffSlots(hs), s)
  }

  lemma {:induction false} BelowSplits(hs: seq<OwnerChange>, s: int)
    ensures forall i :: 0 <= i < Below(hs, s) ==> hs[i].slot < s
    ensures Below(hs, s) < |hs| ==> s <= hs[Below(hs, s)].slot
  {
    CountBelowSplits(HandoffSlots(hs), s);
    forall i | 0 <= i < Below(hs, s) ensures hs[i].slot < s {
      assert HandoffSlots(hs)[i] == hs[i].slot;
    }
  }

  /** The owner once every handoff up to and including slot `s` has run. */
  function OwnerAt(l: Ledger, s: int): Wallet {
    Holder(l.initialOwner, l.handoffs, Below(l.handoffs, s + 1))
  }

  /** Who holds the account after the first `n` handoffs, having started with `first`. */
  function Holder(first: Wallet, hs: seq<OwnerChange>, n: nat): Wallet
    requires n <= |hs|
  {
    if n == 0 then first else hs[n - 1].newOwner
  }

  predicate IsHandoffSlot(hs: seq<OwnerChange>, s: int) {
    exists i :: 0 <= i < |hs| && hs[i].slot == s
  }

  /** The handoffs the table must hold: all those the coverage vouches for. */
  function Covered(hs: seq<OwnerChange>, coverage: Coverage): seq<OwnerChange>
  {
    var from, to := Below(hs, coverage.indexedFrom), Below(hs, coverage.tip + 1);
    if from <= to then hs[from..to] else []
  }

  predicate InWindows(s: int, ranges: seq<Window>) {
    exists w :: w in ranges && w.first <= s <= w.last
  }

  /** Windows in increasing slot order, none touching the next. */
  predicate StrictlyIncreasing(ranges: seq<Window>) {
    && (forall i :: 0 <= i < |ranges| ==> ranges[i].first <= ranges[i].last)
    && (forall i, j :: 0 <= i < j < |ranges| ==> ranges[i].last < ranges[j].first)
  }

  // ---------------------------------------------------------------------------
  // Which slots the windows hold
  // ---------------------------------------------------------------------------

  /** Slot `s` lies strictly between handoff `i` and the next, and the caller owned it then. */
  predicate Holds(changes: seq<OwnerChange>, owned: set<Wallet>, i: int, s: int)
    requires 0 <= i < |changes|
  {
    && changes[i].slot < s <= I64_MAX
    && (i + 1 < |changes| ==> s < changes[i + 1].slot)
    && changes[i].newOwner in owned
  }

  predicate HeadHolds(changes: seq<OwnerChange>, owned: set<Wallet>, complete: bool, s: int)
    requires changes != []
  {
    complete && changes[0].prevOwner in owned && 0 <= s < changes[0].slot
  }

  lemma {:induction false} InWindowsConcat(s: int, a: seq<Window>, b: seq<Window>)
    ensures InWindows(s, a + b) <==> InWindows(s, a) || InWindows(s, b)
  {
    if InWindows(s, a) {
      var w :| w in a && w.first <= s <= w.last;
      assert w in a + b;
    }
    if InWindows(s, b) {
      var w :| w in b && w.first <= s <= w.last;
      assert w in a + b;
    }
  }

  lemma {:induction false} InWindowsSingle(s: int, w: Window)
    ensures InWindows(s, [w]) <==> w.first <= s <= w.last
  {
    assert w in [w];
  }

  lemma {:induction false} WindowsUpToHold(
    changes: seq<OwnerChange>, owned: set<Wallet>, complete: bool, n: nat, s: int)
    requires changes != [] && n <= |changes|
    requires LedgerSlots(changes)
    ensures InWindows(s, WindowsUpTo(changes, owned, complete, n))
            <==> HeadHolds(changes, owned, complete, s) || exists i :: 0 <= i < n && Holds(changes, owned, i, s)
  {
    if n == 0 {
      InWindowsSingle(s, Window(0, SaturatingPrev(changes[0].slot)));
    } else {
      WindowsUpToHold(changes, owned, complete, n - 1, s);
      InWindowsConcat(s, WindowsUpTo(changes, owned, complete, n - 1), WindowAfter(changes, owned, n - 1));
      var end := if n < |changes| then SaturatingPrev(changes[n].slot) else I64_MAX;
      InWindowsSingle(s, Window(SaturatingNext(changes[n - 1].slot), end));
      assert InWindows(s, WindowAfter(changes, owned, n - 1)) <==> Holds(changes, owned, n - 1, s);
    }
  }

  /** The owner a chain of rows names for slot `s`: the last handoff at or below it. */
  function RowOwner(rows: seq<OwnerChange>, s: int): Wallet
    requires rows != []
  {
    Holder(rows[0].prevOwner, rows, Below(rows, s + 1))
  }

  /** A chain's windows are exactly its non-handoff slots whose row owner is the caller. */
  lemma {:induction false} WindowsByRowOwner(rows: seq<OwnerChange>, owned: set<Wallet>, complete: bool, s: int)
    requires rows != [] && Sorted(rows) && LedgerSlots(rows)
    ensures InWindows(s, WindowsUpTo(rows, owned, complete, |rows|))
            <==> && 0 <= s <= I64_MAX
                 && !IsHandoffSlot(rows, s)
                 && RowOwner(rows, s) in owned
                 && (complete || rows[0].slot < s)
  {
    WindowsUpToHold(rows, owned, complete, |rows|, s);
    var n := Below(rows, s + 1);
    BelowSplits(rows, s + 1);
    forall i | 0 <= i < |rows| && Holds(rows, owned, i, s)
      ensures i == n - 1 && !IsHandoffSlot(rows, s)
    {
    }
    if n > 0 && s <= I64_MAX && !IsHandoffSlot(rows, s) && RowOwner(rows, s) in owned {
      assert rows[n - 1].slot != s;
      assert Holds(rows, owned, n - 1, s);
    }
    if HeadHolds(rows, owned, complete, s) {
      assert !IsHandoffSlot(rows, s);
    }
  }

  // ---------------------------------------------------------------------------
  // Capped reads
  // ---------------------------------------------------------------------------

  /** The newest `limit` rows, oldest first. */
  function Newest(rows: seq<OwnerChange>, limit: nat): seq<OwnerChange> {
    if |rows| <= limit then rows else rows[|rows| - limit..]
  }

  /** The prefix that `Below` counts is the only one of its kind. */
  lemma {:induction false} BelowIs(hs: seq<OwnerChange>, s: int, n: nat)
    requires n <= |hs|
    requires forall i :: 0 <= i < n ==> hs[i].slot < s
    requires n < |hs| ==> s <= hs[n].slot
    ensures Below(hs, s) == n
  {
    CountBelowIs(HandoffSlots(hs), s, n);
  }

  lemma {:induction false} BelowSuffix(rows: seq<OwnerChange>, k: nat, s: int)
    requires k <= |rows|
    requires forall i :: 0 <= i < k ==> rows[i].slot < s
    ensures Below(rows, s) == k + Below(rows[k..], s)
  {
    var m := Below(rows[k..], s);
    BelowSplits(rows[k..], s);
    forall i | 0 <= i < k + m ensures rows[i].slot < s {
      if k <= i {
        assert rows[i] == rows[k..][i - k];
      }
    }
    BelowIs(rows, s, k + m);
  }

  /** Cutting a sequence where every later handoff is at or past `s` leaves the count alone. */
  lemma {:induction false} BelowPrefix(hs: seq<OwnerChange>, to: nat, s: int)
    requires to <= |hs|
    requires to < |hs| ==> s <= hs[to].slot
    ensures Below(hs[..to], s) == Below(hs, s)
  {
    var m := Below(hs[..to], s);
    BelowSplits(hs[..to], s);
    forall i | 0 <= i < m ensures hs[i].slot < s {
      assert hs[i] == hs[..to][i];
    }
    if m < to {
      assert hs[m] == hs[..to][m];
    }
    BelowIs(hs, s, m);
  }

  /** Reading only the newest rows serves nothing up to the oldest of them, and loses nothing after it. */
  lemma {:induction false} CappedRefinesFull(
    rows: seq<OwnerChange>, limit: nat, currentOwner: Wallet, owned: set<Wallet>, s: int)
    requires 1 <= limit < |rows|
    requires Sorted(rows) && LedgerSlots(rows) && ChainLinks(rows, currentOwner)
    ensures var capped := Newest(rows, limit);
            InWindows(s, OwnerWindows(capped, currentOwner, owned, false))
            <==> capped[0].slot < s && InWindows(s, OwnerWindows(rows, currentOwner, owned, true))
  {
    var k := |rows| - limit;
    var capped := rows[k..];
    forall i | 0 <= i < |capped| - 1 ensures capped[i].newOwner == capped[i + 1].prevOwner {
      assert rows[k + i].newOwner == rows[k + i + 1].prevOwner;
    }
    WindowsByRowOwner(capped, owned, false, s);
    WindowsByRowOwner(rows, owned, true, s);
    if capped[0].slot < s {
      SuffixRowOwner(rows, k, s);
    }
  }

  lemma {:induction false} SuffixRowOwner(rows: seq<OwnerChange>, k: nat, s: int)
    requires k < |rows| && Sorted(rows)
    requires rows[k].slot < s
    ensures RowOwner(rows[k..], s) == RowOwner(rows, s)
    ensures IsHandoffSlot(rows[k..], s) <==> IsHandoffSlot(rows, s)
  {
    BelowSuffix(rows, k, s + 1);
    var n := Below(rows, s + 1);
    assert n > k;
    assert rows[k..][n - k - 1] == rows[n - 1];
    if IsHandoffSlot(rows, s) {
      var i :| 0 <= i < |rows| && rows[i].slot == s;
      assert rows[k..][i - k].slot == s;
    }
  }

  // ---------------------------------------------------------------------------
  // Rows against the ledger
  // ---------------------------------------------------------------------------

  /**
   * What the handoff table holds for the account: every handoff the coverage vouches for,
   * after whatever earlier rows a repair pass happened to write.
   */
  predicate TableRows(rows: seq<OwnerChange>, early: seq<OwnerChange>, l: Ledger, coverage: Coverage) {
    && rows == early + Covered(l.handoffs, coverage)
    && Sorted(early)
    && LedgerSlots(early)
    && (forall i :: 0 <= i < |early| ==> early[i].slot < coverage.indexedFrom)
  }

  /** In a sorted ledger the covered slice is exactly the handoffs in covered slots. */
  lemma {:induction false} CoveredIndex(hs: seq<OwnerChange>, coverage: Coverage, i: nat)
    requires Sorted(hs) && i < |hs|
    ensures Below(hs, coverage.indexedFrom) <= i <==> coverage.indexedFrom <= hs[i].slot
    ensures i < Below(hs, coverage.tip + 1) <==> hs[i].slot <= coverage.tip
  {
    BelowSplits(hs, coverage.indexedFrom);
    BelowSplits(hs, coverage.tip + 1);
  }

  lemma {:induction false} RowFromLedger(
    rows: seq<OwnerChange>, early: seq<OwnerChange>, l: Ledger, coverage: Coverage, i: nat)
    requires ValidLedger(l) && TableRows(rows, early, l, coverage)
    requires |early| <= i < |rows|
    ensures var from := Below(l.handoffs, coverage.indexedFrom);
            && from + i - |early| < Below(l.handoffs, coverage.tip + 1)
            && rows[i] == l.handoffs[from + i - |early|]
    ensures coverage.indexedFrom <= rows[i].slot <= coverage.tip
  {
    var from := Below(l.handoffs, coverage.indexedFrom);
    CoveredIndex(l.handoffs, coverage, from + i - |early|);
  }

  lemma {:induction false} TableRowsSorted(
    rows: seq<OwnerChange>, early: seq<OwnerChange>, l: Ledger, coverage: Coverage)
    requires ValidLedger(l) && TableRows(rows, early, l, coverage)
    ensures Sorted(rows) && LedgerSlots(rows)
  {
    forall i, j | 0 <= i < j < |rows| ensures rows[i].slot <= rows[j].slot {
      if |early| <= j {
        RowFromLedger(rows, early, l, coverage, j);
        if |early| <= i {
          RowFromLedger(rows, early, l, coverage, i);
        }
      }
    }
    forall i | 0 <= i < |rows| ensures 0 <= rows[i].slot < I64_MAX {
      if |early| <= i {
        RowFromLedger(rows, early, l, coverage, i);
      }
    }
  }

  /** Within coverage, rows and ledger agree on the handoff slots. */
  lemma {:induction false} HandoffSlotsAgree(
    rows: seq<OwnerChange>, early: seq<OwnerChange>, l: Ledger, coverage: Coverage, s: int)
    requires ValidLedger(l) && TableRows(rows, early, l, coverage)
    requires coverage.indexedFrom <= s <= coverage.tip
    ensures IsHandoffSlot(rows, s) <==> IsHandoffSlot(l.handoffs, s)
  {
    if IsHandoffSlot(l.handoffs, s) {
      var i :| 0 <= i < |l.handoffs| && l.handoffs[i].slot == s;
      CoveredIndex(l.handoffs, coverage, i);
      RowFromLedger(rows, early, l, coverage, |early| + i - Below(l.handoffs, coverage.indexedFrom));
    }
    if IsHandoffSlot(rows, s) {
      var i :| 0 <= i < |rows| && rows[i].slot == s;
      RowFromLedger(rows, early, l, coverage, i);
    }
  }

  /** A handoff hands on what the one before it received. */
  lemma {:induction false} OwnerBefore(l: Ledger, n: nat)
    requires ValidLedger(l) && n < |l.handoffs|
    ensures l.handoffs[n].prevOwner == if n == 0 then l.initialOwner else l.handoffs[n - 1].newOwner
  {
    if n > 0 {
      assert l.handoffs[n - 1].newOwner == l.handoffs[n - 1 + 1].prevOwner;
    }
  }

  /** The handoffs up to a covered slot are those below coverage, then those covered. */
  lemma {:induction false} BelowCovered(hs: seq<OwnerChange>, coverage: Coverage, s: int)
    requires Sorted(hs)
    requires coverage.indexedFrom <= s <= coverage.tip
    ensures Below(hs, s + 1) == Below(hs, coverage.indexedFrom) + Below(Covered(hs, coverage), s + 1)
  {
    var from, to := Below(hs, coverage.indexedFrom), Below(hs, coverage.tip + 1);
    BelowMonotone(hs, coverage.indexedFrom, coverage.tip + 1);
    BelowSplits(hs, coverage.indexedFrom);
    BelowSplits(hs, coverage.tip + 1);
    BelowSuffix(hs, from, s + 1);
    assert hs[from..][..to - from] == Covered(hs, coverage);
    BelowPrefix(hs[from..], to - from, s + 1);
  }

  lemma {:induction false} BelowMonotone(hs: seq<OwnerChange>, a: int, b: int)
    requires a <= b
    ensures Below(hs, a) <= Below(hs, b)
  {
    CountBelowMonotone(HandoffSlots(hs), a, b);
  }

  /** No handoff in coverage leaves one owner for all of it, the one it had just before. */
  lemma {:induction false} QuietCoverage(l: Ledger, coverage: Coverage, s: int, t: int)
    requires ValidLedger(l) && Covered(l.handoffs, coverage) == []
    requires coverage.indexedFrom <= s <= coverage.tip && coverage.indexedFrom - 1 <= t <= coverage.tip
    ensures OwnerAt(l, s) == OwnerAt(l, t)
    ensures !IsHandoffSlot(l.handoffs, s)
  {
    BelowCovered(l.handoffs, coverage, s);
    if coverage.indexedFrom <= t {
      BelowCovered(l.handoffs, coverage, t);
    }
    HandoffSlotsAgree([], [], l, coverage, s);
  }

  /**
   * Within coverage, the rows name the ledger's owner: by the handoff before the slot, or
   * across the join into the first covered handoff, or, with no covered handoff at all, by
   * an early row known to end at the owner throughout coverage.
   */
  lemma {:induction false} RowOwnerIsLedgerOwner(
    rows: seq<OwnerChange>, early: seq<OwnerChange>, l: Ledger, coverage: Coverage, s: int)
    requires ValidLedger(l) && TableRows(rows, early, l, coverage) && rows != []
    requires coverage.indexedFrom <= s <= coverage.tip
    requires early != [] && |early| < |rows| && Below(rows, s + 1) == |early|
             ==> early[|early| - 1].newOwner == rows[|early|].prevOwner
    requires |early| == |rows| ==> early[|early| - 1].newOwner == OwnerAt(l, s)
    ensures RowOwner(rows, s) == OwnerAt(l, s)
  {
    RowCount(rows, early, l, coverage, s);
    SameHolder(rows, early, l, coverage, Below(Covered(l.handoffs, coverage), s + 1));
  }

  /** After the early rows and `m` covered ones, rows and ledger have the same holder. */
  lemma {:induction false} SameHolder(
    rows: seq<OwnerChange>, early: seq<OwnerChange>, l: Ledger, coverage: Coverage, m: nat)
    requires ValidLedger(l) && TableRows(rows, early, l, coverage) && rows != []
    requires m <= |rows| - |early| && Below(l.handoffs, coverage.indexedFrom) + m <= |l.handoffs|
    requires early != [] && |early| < |rows| && m == 0 ==> early[|early| - 1].newOwner == rows[|early|].prevOwner
    requires |early| == |rows| ==>
               early[|early| - 1].newOwner
                 == Holder(l.initialOwner, l.handoffs, Below(l.handoffs, coverage.indexedFrom))
    ensures Holder(rows[0].prevOwner, rows, |early| + m)
            == Holder(l.initialOwner, l.handoffs, Below(l.handoffs, coverage.indexedFrom) + m)
  {
    if m > 0 {
      RowFromLedger(rows, early, l, coverage, |early| + m - 1);
    } else if |early| < |rows| {
      RowFromLedger(rows, early, l, coverage, |early|);
      OwnerBefore(l, Below(l.handoffs, coverage.indexedFrom));
    }
  }

  lemma {:induction false} RowCount(
    rows: seq<OwnerChange>, early: seq<OwnerChange>, l: Ledger, coverage: Coverage, s: int)
    requires ValidLedger(l) && TableRows(rows, early, l, coverage)
    requires coverage.indexedFrom <= s <= coverage.tip
    ensures var m := Below(Covered(l.handoffs, coverage), s + 1);
            && Below(rows, s + 1) == |early| + m
            && Below(l.handoffs, s + 1) == Below(l.handoffs, coverage.indexedFrom) + m
  {
    assert rows[|early|..] == Covered(l.handoffs, coverage);
    BelowSuffix(rows, |early|, s + 1);
    BelowCovered(l.handoffs, coverage, s);
  }

  // ---------------------------------------------------------------------------
  // Clipping
  // ---------------------------------------------------------------------------

  lemma {:induction false} ClipHolds(ranges: seq<Window>, coverage: Coverage, s: int)
    ensures InWindows(s, ClipToCoverage(ranges, coverage))
            <==> InWindows(s, ranges) && coverage.indexedFrom <= s <= coverage.tip
  {
    if ranges != [] {
      ClipHolds(ranges[1..], coverage, s);
      var first := Max(ranges[0].first, coverage.indexedFrom);
      var last := Min(ranges[0].last, coverage.tip);
      InWindowsConcat(s, if first <= last then [Window(first, last)] else [], ClipToCoverage(ranges[1..], coverage));
      InWindowsSingle(s, Window(first, last));
      assert ranges == [ranges[0]] + ranges[1..];
      InWindowsConcat(s, [ranges[0]], ranges[1..]);
      InWindowsSingle(s, ranges[0]);
    }
  }

  /** Every clipped window lies inside one it came from. */
  lemma {:induction false} ClipWithin(ranges: seq<Window>, coverage: Coverage, w: Window)
    requires w in ClipToCoverage(ranges, coverage)
    ensures w.first <= w.last
    ensures exists i :: 0 <= i < |ranges| && ranges[i].first <= w.first && w.last <= ranges[i].last
  {
    var first := Max(ranges[0].first, coverage.indexedFrom);
    var last := Min(ranges[0].last, coverage.tip);
    if first <= last && w == Window(first, last) {
      assert ranges[0].first <= w.first && w.last <= ranges[0].last;
    } else {
      ClipWithin(ranges[1..], coverage, w);
      var i :| 0 <= i < |ranges[1..]| && ranges[1..][i].first <= w.first && w.last <= ranges[1..][i].last;
      assert ranges[i + 1].first <= w.first && w.last <= ranges[i + 1].last;
    }
  }

  lemma {:induction false} ClipKeepsOrder(ranges: seq<Window>, coverage: Coverage)
    requires StrictlyIncreasing(ranges)
    ensures StrictlyIncreasing(ClipToCoverage(ranges, coverage))
  {
    if ranges != [] {
      var rest := ClipToCoverage(ranges[1..], coverage);
      ClipKeepsOrder(ranges[1..], coverage);
      forall j | 0 <= j < |rest| ensures ranges[0].last < rest[j].first {
        ClipWithin(ranges[1..], coverage, rest[j]);
      }
    }
  }

  // ---------------------------------------------------------------------------
  // Order
  // ---------------------------------------------------------------------------

  lemma {:induction false} WindowsUpToOrdered(changes: seq<OwnerChange>, owned: set<Wallet>, complete: bool, n: nat)
    requires changes != [] && n <= |changes|
    requires Sorted(changes) && LedgerSlots(changes)
    ensures StrictlyIncreasing(WindowsUpTo(changes, owned, complete, n))
    ensures n < |changes| ==>
              forall w :: w in WindowsUpTo(changes, owned, complete, n) ==> w.last < changes[n].slot
  {
    if n > 0 {
      WindowsUpToOrdered(changes, owned, complete, n - 1);
      AppendOrdered(WindowsUpTo(changes, owned, complete, n - 1), WindowAfter(changes, owned, n - 1),
        changes[n - 1].slot);
    }
  }

  lemma {:induction false} AppendOrdered(before: seq<Window>, after: seq<Window>, bound: i64)
    requires StrictlyIncreasing(before) && StrictlyIncreasing(after)
    requires forall w :: w in before ==> w.last < bound
    requires forall w :: w in after ==> bound < w.first
    ensures StrictlyIncreasing(before + after)
  {
    var all := before + after;
    forall i, j | 0 <= i < j < |all| ensures all[i].last < all[j].first {
      if i < |before| <= j {
        assert all[i] in before && all[j] in after;
      }
    }
  }

  /** The caller's windows come out in slot order and never touch, however many handoffs share a slot. */
  lemma {:induction false} WindowsAreOrdered(
    changes: seq<OwnerChange>, currentOwner: Wallet, owned: set<Wallet>, complete: bool, coverage: Coverage)
    requires Sorted(changes) && LedgerSlots(changes)
    ensures StrictlyIncreasing(ClipToCoverage(OwnerWindows(changes, currentOwner, owned, complete), coverage))
  {
    if changes != [] {
      WindowsUpToOrdered(changes, owned, complete, |changes|);
    }
    ClipKeepsOrder(OwnerWindows(changes, currentOwner, owned, complete), coverage);
  }
}
