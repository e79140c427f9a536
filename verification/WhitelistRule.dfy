/**
 * The withdrawal whitelist decision (gateway/src/whitelist.rs): which wallets a transaction
 * withdraws to, and the verdict the escrow's own rule gives on them.
 */
module WhitelistRule {
  import opened Common
  import opened TokenAccount

  type Pubkey = Bytes

  datatype Account = Account(owner: Pubkey, data: Bytes)

  datatype Instruction = Instruction(programIdIndex: nat, accounts: seq<nat>, data: Bytes)

  datatype Transaction = Transaction(keys: seq<Pubkey>, instructions: seq<Instruction>)

  /** The program ids, the account decoders and the derived addresses the check takes from other crates. */
  datatype Programs = Programs(
    withdrawProgram: Pubkey,
    escrowProgram: Pubkey,
    withdrawFunds: byte,
    instance: Pubkey,
    decodeInstance: Bytes -> Option<bool>,
    decodeEntry: Bytes -> Option<bool>,
    entryAddress: Pubkey -> Pubkey)

  datatype Reason = NoInstance | NotAnInstance | ForeignEntry(Pubkey)
    | UndecodableEntry(Pubkey) | TooManyWallets | NoAnswer

  datatype Verdict = Allowed | Refused(wallet: Pubkey) | Unchecked(reason: Reason)

  const MAX_WALLETS: nat := 99

  // ---------------------------------------------------------------------------
  // The wallets a transaction names
  // ---------------------------------------------------------------------------

  function KeyAt(keys: seq<Pubkey>, i: nat): Option<Pubkey> {
    if i < |keys| then Some(keys[i]) else None
  }

  /** Discriminator (1) and amount (8), then an optional destination: tag 1 and 32 bytes. */
  function Destination(data: Bytes): Option<Pubkey> {
    if 9 < |data| && data[9] == 1 && 42 <= |data| then Some(data[10..42]) else None
  }

  /** The withdrawer, then the destination, of one instruction, or nothing if it is no WithdrawFunds. */
  function WalletsOf(p: Programs, keys: seq<Pubkey>, ix: Instruction): seq<Pubkey> {
    if KeyAt(keys, ix.programIdIndex) != Some(p.withdrawProgram) || ix.data == []
      || ix.data[0] != p.withdrawFunds then []
    else if ix.accounts == [] || KeyAt(keys, ix.accounts[0]).None? then []
    else
      var withdrawer := keys[ix.accounts[0]];
      var destination := Destination(ix.data);
      [withdrawer, if destination.Some? then destination.value else withdrawer]
  }

  /** Every withdrawer and destination of the first `n` instructions, repeats and all. */
  function RawWallets(p: Programs, tx: Transaction, n: nat): seq<Pubkey>
    requires n <= |tx.instructions|
  {
    if n == 0 then [] else RawWallets(p, tx, n - 1) + WalletsOf(p, tx.keys, tx.instructions[n - 1])
  }

  function AllWallets(p: Programs, tx: Option<Transaction>): seq<Pubkey> {
    if tx.None? then [] else RawWallets(p, tx.value, |tx.value.instructions|)
  }

  /** The first occurrence of each wallet, in order. */
  function Deduped(raw: seq<Pubkey>): seq<Pubkey> {
    if raw == [] then []
    else
      var init, last := Deduped(raw[..|raw| - 1]), raw[|raw| - 1];
      if last in init then init else init + [last]
  }

  lemma {:induction false} DedupedSnoc(raw: seq<Pubkey>, w: Pubkey)
    ensures Deduped(raw + [w]) == if w in Deduped(raw) then Deduped(raw) else Deduped(raw) + [w]
  {
    assert (raw + [w])[..|raw|] == raw;
  }

  lemma {:induction false} DedupedKeepsExactly(raw: seq<Pubkey>)
    ensures forall w :: w in Deduped(raw) <==> w in raw
    ensures forall i, j :: 0 <= i < j < |Deduped(raw)| ==> Deduped(raw)[i] != Deduped(raw)[j]
  {
    if raw != [] {
      var init, last := raw[..|raw| - 1], raw[|raw| - 1];
      DedupedKeepsExactly(init);
      assert raw == init + [last];
    }
  }

  /** `withdraw_wallets` once the parameters have decoded, or failed to. */
  method WithdrawWallets(p: Programs, tx: Option<Transaction>) returns (wallets: seq<Pubkey>)
    ensures wallets == Deduped(AllWallets(p, tx))
  {
    wallets := [];
    if tx.None? {
      return;
    }
    var keys := tx.value.keys;
    for n := 0 to |tx.value.instructions|
      invariant wallets == Deduped(RawWallets(p, tx.value, n))
    {
      var ix := tx.value.instructions[n];
      ghost var before := RawWallets(p, tx.value, n);
      assert RawWallets(p, tx.value, n + 1) == before + WalletsOf(p, keys, ix);
      if KeyAt(keys, ix.programIdIndex) != Some(p.withdrawProgram) || ix.data == [] || ix.data[0] != p.withdrawFunds
         || ix.accounts == [] || KeyAt(keys, ix.accounts[0]).None? {
        assert before + [] == before;
        continue;
      }
      var withdrawer := keys[ix.accounts[0]];
      var destination := Destination(ix.data);
      var named := [withdrawer, if destination.Some? then destination.value else withdrawer];
      wallets := PushNew(wallets, before, named);
    }
  }

  /** The inner loop: push each named wallet not yet listed. */
  method PushNew(listed: seq<Pubkey>, ghost raw: seq<Pubkey>, named: seq<Pubkey>) returns (wallets: seq<Pubkey>)
    requires listed == Deduped(raw)
    ensures wallets == Deduped(raw + named)
  {
    wallets := listed;
    assert raw + named[..0] == raw;
    for j := 0 to |named|
      invariant wallets == Deduped(raw + named[..j])
    {
      DedupedSnoc(raw + named[..j], named[j]);
      assert raw + named[..j] + [named[j]] == raw + named[..j + 1];
      if named[j] !in wallets {
        wallets := wallets + [named[j]];
      }
    }
    assert named[..|named|] == named;
  }

  // ---------------------------------------------------------------------------
  // What those wallets are
  // ---------------------------------------------------------------------------

  /** A withdrawal: who from, how much, and who to if not back to them. */
  datatype Withdrawal = Withdrawal(withdrawer: Pubkey, amount: u64, destination: Option<Pubkey>)

  /** Its instruction data as the withdraw program lays it out. */
  function WithdrawalData(p: Programs, w: Withdrawal): Bytes {
    [p.withdrawFunds] + ToLittleEndian(w.amount, 8) + (if w.destination.Some? then [1] + w.destination.value else [0])
  }

  predicate IsWithdrawal(p: Programs, keys: seq<Pubkey>, ix: Instruction, w: Withdrawal) {
    && ix.programIdIndex < |keys| && keys[ix.programIdIndex] == p.withdrawProgram
    && ix.accounts != [] && ix.accounts[0] < |keys| && keys[ix.accounts[0]] == w.withdrawer
    && (w.destination.Some? ==> |w.destination.value| == 32)
    && ix.data == WithdrawalData(p, w)
  }

  /** A withdrawal names its withdrawer, then its destination, which is the withdrawer unless given. */
  lemma {:induction false} WithdrawalNamesBoth(p: Programs, keys: seq<Pubkey>, ix: Instruction, w: Withdrawal)
    requires IsWithdrawal(p, keys, ix, w)
    ensures WalletsOf(p, keys, ix)
            == [w.withdrawer, if w.destination.Some? then w.destination.value else w.withdrawer]
  {
    if w.destination.Some? {
      assert ix.data[10..42] == w.destination.value;
    }
  }

  /** `data` opens with nine bytes, a tag of one and the 32 bytes of `destination`. */
  ghost predicate Carries(data: Bytes, destination: Pubkey) {
    exists head: Bytes, rest: Bytes :: |head| == 9 && |destination| == 32 && data == head + [1] + destination + rest
  }

  /** Whom an instruction names, read off its data: the withdrawer of a WithdrawFunds, and what it carries. */
  ghost predicate Names(p: Programs, keys: seq<Pubkey>, ix: Instruction, wallet: Pubkey) {
    && ix.programIdIndex < |keys| && keys[ix.programIdIndex] == p.withdrawProgram
    && ix.data != [] && ix.data[0] == p.withdrawFunds
    && ix.accounts != [] && ix.accounts[0] < |keys|
    && (keys[ix.accounts[0]] == wallet || Carries(ix.data, wallet))
  }

  lemma {:induction false} DestinationIsCarried(data: Bytes, w: Pubkey)
    ensures Destination(data) == Some(w) <==> Carries(data, w)
  {
    if Destination(data) == Some(w) {
      assert data == data[..9] + [1] + w + data[42..];
    }
    if Carries(data, w) {
      var head: Bytes, rest: Bytes :| |head| == 9 && |w| == 32 && data == head + [1] + w + rest;
      assert data[10..42] == w;
    }
  }

  lemma {:induction false} WalletsOfNames(p: Programs, keys: seq<Pubkey>, ix: Instruction, w: Pubkey)
    ensures w in WalletsOf(p, keys, ix) <==> Names(p, keys, ix, w)
  {
    DestinationIsCarried(ix.data, w);
  }

  lemma {:induction false} RawWalletsNames(p: Programs, tx: Transaction, n: nat, w: Pubkey)
    requires n <= |tx.instructions|
    ensures w in RawWallets(p, tx, n) <==> exists i :: 0 <= i < n && Names(p, tx.keys, tx.instructions[i], w)
  {
    if n > 0 {
      RawWalletsNames(p, tx, n - 1, w);
      WalletsOfNames(p, tx.keys, tx.instructions[n - 1], w);
    }
  }

  /** The wallets checked are exactly those some instruction of the transaction names. */
  lemma {:induction false} CheckedIffNamed(p: Programs, tx: Transaction, w: Pubkey)
    ensures w in Deduped(AllWallets(p, Some(tx)))
            <==> exists i :: 0 <= i < |tx.instructions| && Names(p, tx.keys, tx.instructions[i], w)
  {
    DedupedKeepsExactly(AllWallets(p, Some(tx)));
    RawWalletsNames(p, tx, |tx.instructions|, w);
  }

  // ---------------------------------------------------------------------------
  // The verdict
  // ---------------------------------------------------------------------------

  /** Whether `instance` whitelists withdrawals, or none when it is not an escrow instance. */
  function WhitelistsWithdrawals(p: Programs, instance: Option<Account>): Option<bool> {
    if instance.None? || instance.value.owner != p.escrowProgram then None else p.decodeInstance(instance.value.data)
  }

  /** What one wallet's entry stops, if anything. An empty account reads as no entry. */
  function Stops(p: Programs, wallet: Pubkey, entry: Option<Account>): Option<Verdict> {
    if entry.None? || entry.value.data == [] then Some(Refused(wallet))
    else if entry.value.owner != p.escrowProgram then Some(Unchecked(ForeignEntry(wallet)))
    else
      match p.decodeEntry(entry.value.data)
      case Some(blocked) => if blocked then Some(Refused(wallet)) else None
      case None => Some(Unchecked(UndecodableEntry(wallet)))
  }

  /** The first stop, scanning wallets and entries side by side. */
  function ScanEntries(p: Programs, wallets: seq<Pubkey>, entries: seq<Option<Account>>): Verdict {
    if wallets == [] || entries == [] then Allowed
    else
      match Stops(p, wallets[0], entries[0])
      case Some(v) => v
      case None => ScanEntries(p, wallets[1..], entries[1..])
  }

  /** `decide`: the instance, then one entry per wallet. */
  function Decide(p: Programs, wallets: seq<Pubkey>, accounts: seq<Option<Account>>): Verdict {
    if accounts == [] then Unchecked(NoInstance)
    else
      match WhitelistsWithdrawals(p, accounts[0])
      case None => Unchecked(NotAnInstance)
      case Some(whitelisted) => if !whitelisted then Allowed else ScanEntries(p, wallets, accounts[1..])
  }

  /** ReleaseFunds' plain rule: every withdrawer and destination in turn, each looked up by address. */
  function PlainRule(
    p: Programs, raw: seq<Pubkey>, instance: Option<Account>, entries: map<Pubkey, Option<Account>>): Verdict
    requires forall w :: w in raw ==> w in entries
  {
    match WhitelistsWithdrawals(p, instance)
    case None => Unchecked(NotAnInstance)
    case Some(whitelisted) => if !whitelisted then Allowed else FirstStop(p, raw, entries)
  }

  function FirstStop(p: Programs, raw: seq<Pubkey>, entries: map<Pubkey, Option<Account>>): Verdict
    requires forall w :: w in raw ==> w in entries
  {
    if raw == [] then Allowed
    else
      var init := raw[..|raw| - 1];
      var verdict := FirstStop(p, init, entries);
      if verdict != Allowed then verdict
      else
        match Stops(p, raw[|raw| - 1], entries[raw[|raw| - 1]])
        case Some(v) => v
        case None => Allowed
  }

  /** A clean scan means no wallet in it is stopped. */
  lemma {:induction false} CleanScan(p: Programs, raw: seq<Pubkey>, entries: map<Pubkey, Option<Account>>, w: Pubkey)
    requires forall x :: x in raw ==> x in entries
    requires FirstStop(p, raw, entries) == Allowed && w in raw
    ensures Stops(p, w, entries[w]).None?
  {
    if w != raw[|raw| - 1] {
      CleanScan(p, raw[..|raw| - 1], entries, w);
    }
  }

  /** The escrow holds an entry for the wallet that does not block it. */
  predicate Whitelisted(p: Programs, entry: Option<Account>) {
    entry.Some? && entry.value.data != [] && entry.value.owner == p.escrowProgram
    && p.decodeEntry(entry.value.data) == Some(false)
  }

  /** It holds none, or one that blocks it. */
  predicate Barred(p: Programs, entry: Option<Account>) {
    entry.None? || entry.value.data == []
    || (entry.value.owner == p.escrowProgram && p.decodeEntry(entry.value.data) == Some(true))
  }

  /** What is said of a wallet not whitelisted: it is barred, or its entry is one the gateway cannot judge. */
  function StoppedBy(p: Programs, w: Pubkey, entry: Option<Account>): Verdict {
    if Barred(p, entry) then Refused(w)
    else if entry.value.owner == p.escrowProgram then Unchecked(UndecodableEntry(w))
    else Unchecked(ForeignEntry(w))
  }

  /** Wallet `k` is the first that is not whitelisted. */
  predicate FirstUnlisted(p: Programs, raw: seq<Pubkey>, entries: map<Pubkey, Option<Account>>, k: nat)
    requires forall w :: w in raw ==> w in entries
  {
    && k < |raw| && !Whitelisted(p, entries[raw[k]])
    && forall j :: 0 <= j < k ==> Whitelisted(p, entries[raw[j]])
  }

  lemma {:induction false} FirstStopIsFirst(
    p: Programs, raw: seq<Pubkey>, entries: map<Pubkey, Option<Account>>, k: nat)
    requires forall w :: w in raw ==> w in entries
    ensures FirstUnlisted(p, raw, entries, k) ==> FirstStop(p, raw, entries) == StoppedBy(p, raw[k], entries[raw[k]])
    ensures (forall w :: w in raw ==> Whitelisted(p, entries[w])) ==> FirstStop(p, raw, entries) == Allowed
  {
    if raw != [] {
      var init := raw[..|raw| - 1];
      FirstStopIsFirst(p, init, entries, k);
      if FirstUnlisted(p, raw, entries, k) && k == |init| {
        forall w | w in init ensures Whitelisted(p, entries[w]) {
          var j :| 0 <= j < |init| && init[j] == w;
          assert raw[j] == w;
        }
      }
    }
  }

  /**
   * The rule in full: nothing is checked against an account that is no escrow instance; all pass where it does
   * not whitelist; and where it does, all pass if every wallet is whitelisted, else the first that is not decides.
   */
  lemma {:induction false} PlainRuleByEntries(
    p: Programs, raw: seq<Pubkey>, instance: Option<Account>, entries: map<Pubkey, Option<Account>>, k: nat)
    requires forall w :: w in raw ==> w in entries
    ensures var verdict := PlainRule(p, raw, instance, entries);
            if instance.None? || instance.value.owner != p.escrowProgram then verdict == Unchecked(NotAnInstance)
            else
              match p.decodeInstance(instance.value.data)
              case None => verdict == Unchecked(NotAnInstance)
              case Some(whitelists) =>
                if !whitelists then verdict == Allowed
                else
                  && ((forall w :: w in raw ==> Whitelisted(p, entries[w])) ==> verdict == Allowed)
                  && (FirstUnlisted(p, raw, entries, k) ==> verdict == StoppedBy(p, raw[k], entries[raw[k]]))
  {
    FirstStopIsFirst(p, raw, entries, k);
  }

  /** Checking each wallet once finds the same first stop as checking the raw list. */
  lemma {:induction false} DedupedFirstStop(p: Programs, raw: seq<Pubkey>, entries: map<Pubkey, Option<Account>>)
    requires forall w :: w in raw ==> w in entries
    ensures forall w :: w in Deduped(raw) ==> w in entries
    ensures FirstStop(p, Deduped(raw), entries) == FirstStop(p, raw, entries)
  {
    DedupedKeepsExactly(raw);
    if raw != [] {
      var init, last := raw[..|raw| - 1], raw[|raw| - 1];
      DedupedFirstStop(p, init, entries);
      var seen := Deduped(init);
      if last in seen {
        if FirstStop(p, seen, entries) == Allowed {
          CleanScan(p, seen, entries, last);
        }
      } else {
        assert (seen + [last])[..|seen|] == seen;
      }
    }
  }

  lemma {:induction false} FirstStopCons(
    p: Programs, w: Pubkey, rest: seq<Pubkey>, entries: map<Pubkey, Option<Account>>)
    requires forall x :: x in [w] + rest ==> x in entries
    ensures FirstStop(p, [w] + rest, entries)
            == match Stops(p, w, entries[w]) case Some(v) => v case None => FirstStop(p, rest, entries)
  {
    var all := [w] + rest;
    if rest == [] {
      assert all[..0] == [];
    } else {
      FirstStopCons(p, w, rest[..|rest| - 1], entries);
      assert all[..|all| - 1] == [w] + rest[..|rest| - 1];
    }
  }

  /** Scanning positions is looking wallets up, when each entry sits at its wallet's position. */
  lemma {:induction false} ScanIsFirstStop(
    p: Programs, wallets: seq<Pubkey>, positioned: seq<Option<Account>>, entries: map<Pubkey, Option<Account>>)
    requires |wallets| == |positioned|
    requires forall i :: 0 <= i < |wallets| ==> wallets[i] in entries && entries[wallets[i]] == positioned[i]
    ensures ScanEntries(p, wallets, positioned) == FirstStop(p, wallets, entries)
  {
    if wallets != [] {
      assert wallets == [wallets[0]] + wallets[1..];
      FirstStopCons(p, wallets[0], wallets[1..], entries);
      ScanIsFirstStop(p, wallets[1..], positioned[1..], entries);
    }
  }

  function IndexOf(wallets: seq<Pubkey>, w: Pubkey): (i: nat)
    requires w in wallets
    ensures i < |wallets| && wallets[i] == w
  {
    if wallets[0] == w then 0 else 1 + IndexOf(wallets[1..], w)
  }

  /** Each wallet's account, taken from the wallet's position. */
  function ByWallet(wallets: seq<Pubkey>, positioned: seq<Option<Account>>): map<Pubkey, Option<Account>>
    requires |wallets| == |positioned|
  {
    map w | w in wallets :: positioned[IndexOf(wallets, w)]
  }

  /** The gateway's decision over deduplicated wallets is the plain rule over the raw list. */
  lemma {:induction false} DecideIsPlainRule(p: Programs, raw: seq<Pubkey>, accounts: seq<Option<Account>>)
    requires |accounts| == 1 + |Deduped(raw)|
    ensures forall w :: w in raw ==> w in ByWallet(Deduped(raw), accounts[1..])
    ensures Decide(p, Deduped(raw), accounts) == PlainRule(p, raw, accounts[0], ByWallet(Deduped(raw), accounts[1..]))
  {
    DedupedKeepsExactly(raw);
    var entries := ByWallet(Deduped(raw), accounts[1..]);
    ScanIsFirstStop(p, Deduped(raw), accounts[1..], entries);
    DedupedFirstStop(p, raw, entries);
  }

  /** Without whitelisting, the instance alone already gives the full verdict. */
  lemma {:induction false} InstanceAloneDecides(
    p: Programs, raw: seq<Pubkey>, instance: Option<Account>, entries: map<Pubkey, Option<Account>>)
    requires forall w :: w in raw ==> w in entries
    requires WhitelistsWithdrawals(p, instance) != Some(true)
    ensures Decide(p, Deduped(raw), [instance]) == PlainRule(p, raw, instance, entries)
  {
  }
}
