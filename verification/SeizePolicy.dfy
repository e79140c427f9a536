/**
 * The admission policy for transactions (core/src/transactions.rs, core/src/stages/sigverify.rs)
 * against the Token-2022 program it polices: what the permanent delegate of a channel mint can do
 * over every run of admitted transactions.
 */
module SeizePolicy {
  import opened Common
  import opened TokenAccount

  /** 32 bytes. */
  type Key = Bytes

  /** Program ids, the Token-2022 associated-address derivation, and one discriminator from another crate. */
  datatype Programs = Programs(token2022: Key, associated: Key, memo: Key, withdraw: Key, swap: Key,
                               ata: (Key, Key) -> Key, setWithdrawConfig: byte)

  datatype Policy = Policy(adminKeys: set<Key>, delegate: Option<Key>, complianceOwner: Option<Key>)

  /** One top-level instruction with its accounts resolved. */
  datatype Instruction = Instruction(program: Key, accounts: seq<Key>, data: Bytes)

  const INITIALIZE_MINT: byte := 0
  const TRANSFER: byte := 3
  const SET_AUTHORITY: byte := 6
  const MINT_TO: byte := 7
  const BURN: byte := 8
  const FREEZE_ACCOUNT: byte := 10
  const THAW_ACCOUNT: byte := 11
  const TRANSFER_CHECKED: byte := 12
  const MINT_TO_CHECKED: byte := 14
  const BURN_CHECKED: byte := 15
  const INITIALIZE_MINT2: byte := 20
  const INITIALIZE_PERMANENT_DELEGATE: byte := 35

  const AUTHORITY_ACCOUNT_OWNER: byte := 2
  const AUTHORITY_CLOSE_ACCOUNT: byte := 3
  const AUTHORITY_PERMANENT_DELEGATE: byte := 8

  // ---------------------------------------------------------------------------
  // The policy
  // ---------------------------------------------------------------------------

  predicate IsAdminInstruction(p: Programs, ix: Instruction) {
    && ix.program == p.token2022 && ix.data != []
    && ix.data[0] in {INITIALIZE_MINT, INITIALIZE_MINT2, INITIALIZE_PERMANENT_DELEGATE}
  }

  predicate RequiresAdminSigner(p: Programs, ix: Instruction) {
    if ix.data == [] then false
    else if ix.program == p.withdraw then ix.data[0] == p.setWithdrawConfig
    else if ix.program != p.token2022 then false
    else if ix.data[0] == SET_AUTHORITY then
      !(|ix.data| > 1 && ix.data[1] in {AUTHORITY_ACCOUNT_OWNER, AUTHORITY_CLOSE_ACCOUNT})
    else ix.data[0] in {MINT_TO, FREEZE_ACCOUNT, THAW_ACCOUNT, MINT_TO_CHECKED}
  }

  predicate IsForeignDelegateRotation(p: Programs, ix: Instruction, delegate: Option<Key>) {
    && ix.program == p.token2022
    && |ix.data| > 1 && ix.data[0] == SET_AUTHORITY && ix.data[1] == AUTHORITY_PERMANENT_DELEGATE
    && !(|ix.data| >= 35 && ix.data[2] == 1 && delegate == Some(ix.data[3..35]))
  }

  datatype DelegateMove = DelegateMove(
    instructionType: byte, source: Key, mint: Key, destination: Option<Key>, amount: Option<nat>)

  function AuthorityIndex(instructionType: byte): Option<nat> {
    if instructionType == TRANSFER_CHECKED then Some(3)
    else if instructionType in {BURN, BURN_CHECKED} then Some(2)
    else None
  }

  /** `delegate_move`: a seize path signed for by the configured delegate, from an account that is not its own. */
  function DelegateMoveOf(p: Programs, ix: Instruction, policy: Policy): Option<DelegateMove> {
    if policy.delegate.None? || ix.program != p.token2022 || ix.data == [] then None
    else
      var index := AuthorityIndex(ix.data[0]);
      if index.None? || |ix.accounts| <= index.value || ix.accounts[index.value] != policy.delegate.value then None
      else if ix.accounts[0] == p.ata(policy.delegate.value, ix.accounts[1]) then None
      else
        Some(DelegateMove(ix.data[0], ix.accounts[0], ix.accounts[1],
                          if ix.data[0] == TRANSFER_CHECKED then Some(ix.accounts[2]) else None,
                          if |ix.data| >= 9 then Some(FromLittleEndian(ix.data[1..9])) else None))
  }

  predicate IsRefused(p: Programs, m: DelegateMove, policy: Policy) {
    !(&& m.instructionType == TRANSFER_CHECKED
      && policy.complianceOwner.Some?
      && m.destination == Some(p.ata(policy.complianceOwner.value, m.mint)))
  }

  predicate IsAllowed(p: Programs, ix: Instruction) {
    if ix.program == p.token2022 then
      ix.data != [] && (0 <= ix.data[0] <= 24 || ix.data[0] == INITIALIZE_PERMANENT_DELEGATE)
    else ix.program in {p.associated, p.memo, p.withdraw, p.swap}
  }

  datatype TransactionType = Empty | Admin | Normal | Mixed

  function CountFirst(p: Programs, ixs: seq<Instruction>, n: nat, adminOnly: bool): nat
    requires n <= |ixs|
  {
    if n == 0 then 0
    else
      CountFirst(p, ixs, n - 1, adminOnly)
      + if ixs[n - 1].data != [] && (adminOnly ==> IsAdminInstruction(p, ixs[n - 1])) then 1 else 0
  }

  lemma {:induction false} AdminCountBound(p: Programs, ixs: seq<Instruction>, n: nat)
    requires n <= |ixs|
    ensures CountFirst(p, ixs, n, true) <= CountFirst(p, ixs, n, false)
    ensures CountFirst(p, ixs, n, true) == 0 <==> forall i :: 0 <= i < n ==> !IsAdminInstruction(p, ixs[i])
    ensures CountFirst(p, ixs, n, true) == CountFirst(p, ixs, n, false)
            <==> forall i :: 0 <= i < n && ixs[i].data != [] ==> IsAdminInstruction(p, ixs[i])
    ensures CountFirst(p, ixs, n, false) == 0 <==> forall i :: 0 <= i < n ==> ixs[i].data == []
  {
    if n > 0 {
      AdminCountBound(p, ixs, n - 1);
    }
  }

  /** Instructions without data count for nothing; the rest are all admin, none admin, or mixed. */
  method ClassifyTransaction(p: Programs, ixs: seq<Instruction>) returns (t: TransactionType)
    ensures t == Classified(p, ixs)
  {
    var admin, total := 0, 0;
    for i := 0 to |ixs|
      invariant admin == CountFirst(p, ixs, i, true) && total == CountFirst(p, ixs, i, false)
    {
      if ixs[i].data != [] {
        if IsAdminInstruction(p, ixs[i]) {
          admin := admin + 1;
        }
        total := total + 1;
      }
    }
    AdminCountBound(p, ixs, |ixs|);
    t := if total == 0 then Empty else if admin == 0 then Normal else if admin == total then Admin else Mixed;
  }

  function Classified(p: Programs, ixs: seq<Instruction>): TransactionType {
    if forall i :: 0 <= i < |ixs| ==> ixs[i].data == [] then Empty
    else if forall i :: 0 <= i < |ixs| ==> !IsAdminInstruction(p, ixs[i]) then Normal
    else if forall i :: 0 <= i < |ixs| && ixs[i].data != [] ==> IsAdminInstruction(p, ixs[i]) then Admin
    else Mixed
  }

  /** `sigverify_transaction` with its signatures good, after the ingress allowlist. */
  predicate Admits(p: Programs, policy: Policy, ixs: seq<Instruction>, signers: set<Key>) {
    && (forall i :: 0 <= i < |ixs| ==> IsAllowed(p, ixs[i]))
    && (match Classified(p, ixs)
        case Admin => signers * policy.adminKeys != {}
        case Normal => (exists i :: 0 <= i < |ixs| && RequiresAdminSigner(p, ixs[i]))
          ==> signers * policy.adminKeys != {}
        case _ => false)
    && (forall i :: 0 <= i < |ixs| ==> !IsForeignDelegateRotation(p, ixs[i], policy.delegate))
    && forall i :: 0 <= i < |ixs| ==> Passes(p, ixs[i], policy)
  }

  predicate Passes(p: Programs, ix: Instruction, policy: Policy) {
    DelegateMoveOf(p, ix, policy).Some? ==> !IsRefused(p, DelegateMoveOf(p, ix, policy).value, policy)
  }

  /**
   * The mint's own powers: creating it, minting, freezing, thawing, and rotating any authority but a
   * token account's owner or closer; and the withdraw config.
   */
  predicate UsesMintPower(p: Programs, ix: Instruction) {
    && ix.data != []
    && (|| (&& ix.program == p.token2022
            && (|| ix.data[0] in {INITIALIZE_MINT, INITIALIZE_MINT2, INITIALIZE_PERMANENT_DELEGATE,
                                  MINT_TO, MINT_TO_CHECKED, FREEZE_ACCOUNT, THAW_ACCOUNT}
                || (ix.data[0] == SET_AUTHORITY
                    && (|ix.data| == 1 || ix.data[1] !in {AUTHORITY_ACCOUNT_OWNER, AUTHORITY_CLOSE_ACCOUNT}))))
        || (ix.program == p.withdraw && ix.data[0] == p.setWithdrawConfig))
  }

  /**
   * No admitted transaction uses a mint's power without a configured admin among its signers, whatever else
   * it holds.
   */
  lemma {:induction false} MintPowerTakesAdmin(
    p: Programs, policy: Policy, ixs: seq<Instruction>, signers: set<Key>, i: nat)
    requires p.withdraw != p.token2022
    requires Admits(p, policy, ixs, signers) && i < |ixs| && UsesMintPower(p, ixs[i])
    ensures signers * policy.adminKeys != {}
  {
    if Classified(p, ixs) == Normal {
      assert !IsAdminInstruction(p, ixs[i]);
      assert RequiresAdminSigner(p, ixs[i]);
    }
  }

  /** An instruction of a program the channel runs; of Token-2022, the classic set and the delegate's initialization. */
  predicate Listed(p: Programs, ix: Instruction) {
    || ix.program in {p.associated, p.memo, p.withdraw, p.swap}
    || (ix.program == p.token2022 && ix.data != [] && (ix.data[0] < 25 || ix.data[0] == 35))
  }

  /** It creates a mint, or gives one its delegate. */
  predicate CreatesMint(p: Programs, ix: Instruction) {
    ix.program == p.token2022 && ix.data != [] && ix.data[0] in {0, 20, 35}
  }

  /** Its data, a SetAuthority of the permanent delegate, names `to` as the new one. */
  predicate NamesDelegate(data: Bytes, to: Option<Key>) {
    to.Some? && [6, 8, 1] + to.value <= data
  }

  /** A rotation is refused if and only if it does not name the configured delegate, and nothing else is one. */
  lemma {:induction false} RotationRefusedIff(p: Programs, ix: Instruction, delegate: Option<Key>)
    requires delegate.Some? ==> |delegate.value| == 32
    ensures IsForeignDelegateRotation(p, ix, delegate)
            <==> ix.program == p.token2022 && [6, 8] <= ix.data && !NamesDelegate(ix.data, delegate)
  {
    if [6, 8] <= ix.data {
      assert ix.data[..2] == [6, 8];
      assert ix.data[0] == [6, 8][0] && ix.data[1] == [6, 8][1];
    }
    if delegate.Some? && |ix.data| >= 35 {
      var named := [6, 8, 1] + delegate.value;
      assert ix.data[..35] == ix.data[..3] + ix.data[3..35];
      assert ix.data[..3] == [ix.data[0], ix.data[1], ix.data[2]];
      assert named[..3] == [6, 8, 1] && named[3..] == delegate.value;
      assert named <= ix.data <==> ix.data[..35] == named;
    }
  }

  /** The account an instruction's authority signs as, for the three that honour a permanent delegate. */
  function SignsAt(data: Bytes): Option<nat> {
    if data == [] then None else if data[0] == 12 then Some(3) else if data[0] in {8, 15} then Some(2) else None
  }

  /**
   * An instruction is refused as a seize if and only if it is one of those three, the delegate signs for it, its
   * source is not the delegate's own, and it is not a transfer into the compliance account.
   */
  lemma {:induction false} RefusedMoveIff(p: Programs, ix: Instruction, policy: Policy)
    ensures !Passes(p, ix, policy) <==>
              && policy.delegate.Some? && ix.program == p.token2022 && SignsAt(ix.data).Some?
              && |ix.accounts| > SignsAt(ix.data).value
              && ix.accounts[SignsAt(ix.data).value] == policy.delegate.value
              && ix.accounts[0] != p.ata(policy.delegate.value, ix.accounts[1])
              && !(&& ix.data[0] == 12 && policy.complianceOwner.Some?
                   && ix.accounts[2] == p.ata(policy.complianceOwner.value, ix.accounts[1]))
  {
  }

  /**
   * Admission in full: every instruction is listed, some have data, mints are created alone or not at all, a
   * configured admin signs for any mint power, and neither a rotation nor a delegate's move is refused.
   */
  lemma {:induction false} AdmitsIff(p: Programs, policy: Policy, ixs: seq<Instruction>, signers: set<Key>)
    requires p.token2022 !in {p.associated, p.memo, p.withdraw, p.swap}
    ensures Admits(p, policy, ixs, signers) <==>
              && (forall i :: 0 <= i < |ixs| ==> Listed(p, ixs[i]))
              && (exists i :: 0 <= i < |ixs| && ixs[i].data != [])
              && ((exists i :: 0 <= i < |ixs| && CreatesMint(p, ixs[i])) ==>
                    forall i :: 0 <= i < |ixs| && ixs[i].data != [] ==> CreatesMint(p, ixs[i]))
              && ((exists i :: 0 <= i < |ixs| && UsesMintPower(p, ixs[i])) ==> signers * policy.adminKeys != {})
              && (forall i :: 0 <= i < |ixs| ==> !IsForeignDelegateRotation(p, ixs[i], policy.delegate))
              && (forall i :: 0 <= i < |ixs| ==> Passes(p, ixs[i], policy))
  {
    assert forall i :: 0 <= i < |ixs| ==> (IsAllowed(p, ixs[i]) <==> Listed(p, ixs[i]));
    assert forall i :: 0 <= i < |ixs| ==> (IsAdminInstruction(p, ixs[i]) <==> CreatesMint(p, ixs[i]));
    assert forall i :: 0 <= i < |ixs| ==>
      (UsesMintPower(p, ixs[i]) <==> CreatesMint(p, ixs[i]) || RequiresAdminSigner(p, ixs[i]));
  }

  // ---------------------------------------------------------------------------
  // Token-2022
  // ---------------------------------------------------------------------------

  datatype Mint = Mint(initialized: bool, delegate: Option<Key>)

  datatype Approval = Approval(key: Key, amount: nat)

  datatype Holding = Holding(mint: Key, owner: Key, amount: nat, approved: Option<Approval>)

  datatype Token = Token(mints: map<Key, Mint>, holdings: map<Key, Holding>)

  /** By what right a balance moved. */
  datatype Power = OfOwner | OfApproval | OfPermanentDelegate

  /** A balance move; no destination is a burn, and `checked` is false for the plain Transfer, which names no mint. */
  datatype Move = Move(
    source: Key, mint: Key, destination: Option<Key>, authority: Key, power: Power, amount: nat, checked: bool)

  /** The permanent delegate comes first, if the instruction names the mint; then an approval, then the owner. */
  function PowerOf(tok: Token, source: Key, authority: Key, amount: nat, checked: bool): Option<Power>
    requires source in tok.holdings && tok.holdings[source].mint in tok.mints
  {
    var h := tok.holdings[source];
    if checked && tok.mints[h.mint].delegate == Some(authority) then Some(OfPermanentDelegate)
    else if h.approved.Some? && h.approved.value.key == authority then
      if amount <= h.approved.value.amount then Some(OfApproval) else None
    else if authority == h.owner then Some(OfOwner)
    else None
  }

  function Authorized(
    tok: Token, source: Key, mint: Key, destination: Option<Key>, authority: Key,
    data: Bytes, checked: bool, signed: set<Key>): Option<Move>
  {
    if || |data| < 9 || source !in tok.holdings || tok.holdings[source].mint != mint || mint !in tok.mints
       || (destination.Some? && (destination.value !in tok.holdings || tok.holdings[destination.value].mint != mint))
       || authority !in signed then None
    else
      var amount := FromLittleEndian(data[1..9]);
      var power := PowerOf(tok, source, authority, amount, checked);
      if power.None? || tok.holdings[source].amount < amount then None
      else Some(Move(source, mint, destination, authority, power.value, amount, checked))
  }

  /** The move a Token-2022 instruction makes, if it is one that moves a balance and succeeds. */
  function MoveOf(tok: Token, ix: Instruction, signed: set<Key>): Option<Move> {
    var a := ix.accounts;
    if ix.data == [] || |a| < 3 then None
    else if ix.data[0] == TRANSFER then
      if a[0] !in tok.holdings then None
      else Authorized(tok, a[0], tok.holdings[a[0]].mint, Some(a[1]), a[2], ix.data, false, signed)
    else if ix.data[0] == TRANSFER_CHECKED then
      if |a| >= 4 then Authorized(tok, a[0], a[1], Some(a[2]), a[3], ix.data, true, signed) else None
    else if ix.data[0] in {BURN, BURN_CHECKED} then Authorized(tok, a[0], a[1], None, a[2], ix.data, true, signed)
    else None
  }

  predicate MovesBalances(ix: Instruction) {
    ix.data != [] && ix.data[0] in {TRANSFER, TRANSFER_CHECKED, BURN, BURN_CHECKED}
  }

  /** Debit, then credit; an approval is used up by what it moved. */
  function Applied(tok: Token, m: Move): Token
    requires m.source in tok.holdings && m.amount <= tok.holdings[m.source].amount
    requires m.destination.Some? ==> m.destination.value in tok.holdings
    requires m.power.OfApproval?
             ==> tok.holdings[m.source].approved.Some? && m.amount <= tok.holdings[m.source].approved.value.amount
  {
    var h := tok.holdings[m.source];
    var approved :=
      if !m.power.OfApproval? then h.approved
      else if h.approved.value.amount == m.amount then None
      else Some(h.approved.value.(amount := h.approved.value.amount - m.amount));
    var debited := tok.holdings[m.source := h.(amount := h.amount - m.amount, approved := approved)];
    if m.destination.None? then tok.(holdings := debited)
    else
      var d := debited[m.destination.value];
      tok.(holdings := debited[m.destination.value := d.(amount := d.amount + m.amount)])
  }

  /**
   * What the remaining classic instructions may do to holdings: open empty ones, close empty ones, change
   * owners and approvals.
   */
  ghost predicate Bookkeeping(before: map<Key, Holding>, after: map<Key, Holding>) {
    && (forall k :: k in before && k in after ==>
          before[k].mint == after[k].mint && before[k].amount == after[k].amount)
    && (forall k :: k in before && k !in after ==> before[k].amount == 0)
    && forall k :: k in after && k !in before ==> after[k].amount == 0
  }

  /** An instruction, with what it left of the holdings when it is one of the remaining ones. */
  datatype Call = Call(ix: Instruction, holdings: map<Key, Holding>)

  datatype Effect = Effect(tok: Token, moves: seq<Move>)

  function SetDelegate(tok: Token, mint: Key, holder: Key, data: Bytes, signed: set<Key>): Option<Token> {
    if mint !in tok.mints || tok.mints[mint].delegate != Some(holder) || holder !in signed || |data| < 3 then None
    else if data[2] == 0 then Some(tok.(mints := tok.mints[mint := tok.mints[mint].(delegate := None)]))
    else if data[2] == 1 && |data| >= 35 then
      Some(tok.(mints := tok.mints[mint := tok.mints[mint].(delegate := Some(data[3..35]))]))
    else None
  }

  function CreateMint(tok: Token, mint: Key, data: Bytes): Option<Token>
    requires data != []
  {
    var previous := if mint in tok.mints then tok.mints[mint] else Mint(false, None);
    if previous.initialized then None
    else if data[0] == INITIALIZE_PERMANENT_DELEGATE then
      if |data| < 33 then None else Some(tok.(mints := tok.mints[mint := Mint(false, Some(data[1..33]))]))
    else Some(tok.(mints := tok.mints[mint := Mint(true, previous.delegate)]))
  }

  /** One top-level instruction; none is a failure. Other programs are not followed into their inner calls. */
  ghost function Executed(p: Programs, tok: Token, call: Call, signed: set<Key>): Option<Effect> {
    var ix := call.ix;
    if ix.program != p.token2022 then Some(Effect(tok, []))
    else if ix.data == [] || ix.accounts == [] then None
    else if MovesBalances(ix) then
      var m := MoveOf(tok, ix, signed);
      if m.None? then None else Some(Effect(Applied(tok, m.value), [m.value]))
    else if IsAdminInstruction(p, ix) then
      var t := CreateMint(tok, ix.accounts[0], ix.data);
      if t.None? then None else Some(Effect(t.value, []))
    else if ix.data[0] == SET_AUTHORITY && |ix.data| > 1 && ix.data[1] == AUTHORITY_PERMANENT_DELEGATE then
      if |ix.accounts| < 2 then None
      else
        var t := SetDelegate(tok, ix.accounts[0], ix.accounts[1], ix.data, signed);
        if t.None? then None else Some(Effect(t.value, []))
    else if ix.data[0] in {MINT_TO, MINT_TO_CHECKED} then
      if |ix.data| < 9 || |ix.accounts| < 2 || ix.accounts[1] !in tok.holdings then None
      else
        var h := tok.holdings[ix.accounts[1]];
        var minted := h.(amount := h.amount + FromLittleEndian(ix.data[1..9]));
        Some(Effect(tok.(holdings := tok.holdings[ix.accounts[1] := minted]), []))
    else if Bookkeeping(tok.holdings, call.holdings) then Some(Effect(tok.(holdings := call.holdings), []))
    else None
  }

  /** A transaction's instructions in order; one failure fails them all. */
  ghost function ExecutedAll(p: Programs, tok: Token, calls: seq<Call>, signed: set<Key>): Option<Effect>
    decreases |calls|
  {
    if calls == [] then Some(Effect(tok, []))
    else
      var first := Executed(p, tok, calls[0], signed);
      if first.None? then None
      else
        var rest := ExecutedAll(p, first.value.tok, calls[1..], signed);
        if rest.None? then None else Some(Effect(rest.value.tok, first.value.moves + rest.value.moves))
  }

  /** A transaction: its calls, its signers, and the keys whose authority it carries, by signature or multisig. */
  datatype Transaction = Transaction(calls: seq<Call>, signers: set<Key>, signed: set<Key>)

  function Instructions(calls: seq<Call>): seq<Instruction> {
    seq(|calls|, i requires 0 <= i < |calls| => calls[i].ix)
  }

  /** A run: transactions the policy refuses, or that fail, change nothing. */
  ghost function Ran(p: Programs, policy: Policy, tok: Token, txs: seq<Transaction>): Effect
    decreases |txs|
  {
    if txs == [] then Effect(tok, [])
    else
      var done := if Admits(p, policy, Instructions(txs[0].calls), txs[0].signers)
                  then ExecutedAll(p, tok, txs[0].calls, txs[0].signed) else None;
      var now := if done.Some? then done.value else Effect(tok, []);
      var rest := Ran(p, policy, now.tok, txs[1..]);
      Effect(rest.tok, now.moves + rest.moves)
  }

  // ---------------------------------------------------------------------------
  // Every balance is accounted for
  // ---------------------------------------------------------------------------

  function Balance(tok: Token, k: Key): nat {
    if k in tok.holdings then tok.holdings[k].amount else 0
  }

  /** What moves add to an account, less what they take from it. */
  function Net(moves: seq<Move>, k: Key): int {
    if moves == [] then 0
    else
      var m := moves[|moves| - 1];
      Net(moves[..|moves| - 1], k)
      + (if m.destination == Some(k) then m.amount else 0) - (if m.source == k then m.amount else 0)
  }

  /** What an instruction mints into an account. */
  function MintedBy(p: Programs, ix: Instruction, k: Key): nat {
    if ix.program == p.token2022 && |ix.data| >= 9 && ix.data[0] in {7, 14} && |ix.accounts| >= 2 && ix.accounts[1] == k
    then FromLittleEndian(ix.data[1..9]) else 0
  }

  function MintedByAll(p: Programs, calls: seq<Call>, k: Key): nat {
    if calls == [] then 0 else MintedBy(p, calls[0].ix, k) + MintedByAll(p, calls[1..], k)
  }

  lemma {:induction false} NetJoins(a: seq<Move>, b: seq<Move>, k: Key)
    ensures Net(a + b, k) == Net(a, k) + Net(b, k)
  {
    if b == [] {
      assert a + b == a;
    } else {
      NetJoins(a, b[..|b| - 1], k);
      assert (a + b)[..|a + b| - 1] == a + b[..|b| - 1];
    }
  }

  /** An instruction that succeeds changes a balance by what it moves and mints, and by nothing else. */
  lemma {:induction false} InstructionAccounts(p: Programs, tok: Token, call: Call, signed: set<Key>, k: Key)
    requires Executed(p, tok, call, signed).Some?
    ensures var e := Executed(p, tok, call, signed).value;
            Balance(e.tok, k) == Balance(tok, k) + Net(e.moves, k) + MintedBy(p, call.ix, k)
  {
    var e := Executed(p, tok, call, signed).value;
    if |e.moves| == 1 {
      assert e.moves[..0] == [];
    }
  }

  lemma {:induction false} TransactionAccounts(p: Programs, tok: Token, calls: seq<Call>, signed: set<Key>, k: Key)
    requires ExecutedAll(p, tok, calls, signed).Some?
    ensures var e := ExecutedAll(p, tok, calls, signed).value;
            Balance(e.tok, k) == Balance(tok, k) + Net(e.moves, k) + MintedByAll(p, calls, k)
    decreases |calls|
  {
    if calls != [] {
      var first := Executed(p, tok, calls[0], signed).value;
      InstructionAccounts(p, tok, calls[0], signed, k);
      TransactionAccounts(p, first.tok, calls[1..], signed, k);
      NetJoins(first.moves, ExecutedAll(p, first.tok, calls[1..], signed).value.moves, k);
    }
  }

  /** What a run's transactions mint into an account, those refused or failed apart. */
  ghost function MintedOver(p: Programs, policy: Policy, tok: Token, txs: seq<Transaction>, k: Key): nat
    decreases |txs|
  {
    if txs == [] then 0
    else
      var admitted := Admits(p, policy, Instructions(txs[0].calls), txs[0].signers);
      var done := ExecutedAll(p, tok, txs[0].calls, txs[0].signed);
      if admitted && done.Some?
      then MintedByAll(p, txs[0].calls, k) + MintedOver(p, policy, done.value.tok, txs[1..], k)
      else MintedOver(p, policy, tok, txs[1..], k)
  }

  /** Over every run each balance is what it was, plus what the moves listed brought and took, plus what was minted. */
  lemma {:induction false} RunAccounts(p: Programs, policy: Policy, tok: Token, txs: seq<Transaction>, k: Key)
    ensures var ran := Ran(p, policy, tok, txs);
            Balance(ran.tok, k) == Balance(tok, k) + Net(ran.moves, k) + MintedOver(p, policy, tok, txs, k)
    decreases |txs|
  {
    if txs != [] {
      var done := if Admits(p, policy, Instructions(txs[0].calls), txs[0].signers)
                  then ExecutedAll(p, tok, txs[0].calls, txs[0].signed) else None;
      var now := if done.Some? then done.value else Effect(tok, []);
      if done.Some? {
        TransactionAccounts(p, tok, txs[0].calls, txs[0].signed, k);
      }
      RunAccounts(p, policy, now.tok, txs[1..], k);
      NetJoins(now.moves, Ran(p, policy, now.tok, txs[1..]).moves, k);
    }
  }

  // ---------------------------------------------------------------------------
  // What the delegate can do
  // ---------------------------------------------------------------------------

  /** Every mint of the set is live and carries the configured delegate. */
  ghost predicate Carried(tok: Token, mints: set<Key>, delegate: Key) {
    forall mint :: mint in mints ==> mint in tok.mints && tok.mints[mint] == Mint(true, Some(delegate))
  }

  /** A seize: the permanent delegate's power used on an account other than its own associated one. */
  predicate IsSeize(p: Programs, m: Move, delegate: Key) {
    m.power.OfPermanentDelegate? && m.source != p.ata(delegate, m.mint)
  }

  predicate IntoCompliance(p: Programs, m: Move, policy: Policy) {
    policy.complianceOwner.Some? && m.destination == Some(p.ata(policy.complianceOwner.value, m.mint))
  }

  /**
   * The policy reads an instruction's bytes; Token-2022 decides by its state. On a mint carrying the
   * configured delegate they agree exactly: the policy sees a delegate move if and only if the
   * instruction seizes, and refuses it if and only if the balance would not reach the compliance account.
   */
  lemma {:induction false} PolicySeesExactlySeizes(
    p: Programs, policy: Policy, tok: Token, ix: Instruction, signed: set<Key>)
    requires ix.program == p.token2022 && MoveOf(tok, ix, signed).Some? && policy.delegate.Some?
    requires Carried(tok, {MoveOf(tok, ix, signed).value.mint}, policy.delegate.value)
    ensures var m := MoveOf(tok, ix, signed).value;
            && (DelegateMoveOf(p, ix, policy).Some? <==> IsSeize(p, m, policy.delegate.value))
            && (Passes(p, ix, policy) <==> !IsSeize(p, m, policy.delegate.value) || IntoCompliance(p, m, policy))
            && (DelegateMoveOf(p, ix, policy).Some? ==>
                  var d := DelegateMoveOf(p, ix, policy).value;
                  d.source == m.source && d.mint == m.mint && d.destination == m.destination
                    && d.amount == Some(m.amount))
  {
    var m := MoveOf(tok, ix, signed).value;
    assert m.mint in tok.mints && tok.mints[m.mint].delegate == policy.delegate;
  }

  /** The data of a TransferChecked. */
  function TransferData(amount: u64, decimals: byte): Bytes {
    [12] + ToLittleEndian(amount, 8) + [decimals]
  }

  lemma {:induction false} TransferDataReads(amount: u64, decimals: byte)
    ensures |TransferData(amount, decimals)| == 10
    ensures FromLittleEndian(TransferData(amount, decimals)[1..9]) == amount
  {
    EightBytesAreU64();
    LittleEndianRoundTrip(amount, 8);
    assert TransferData(amount, decimals)[1..9] == ToLittleEndian(amount, 8);
  }

  /** Two accounts of one live mint, and enough in the first. */
  predicate CanPay(tok: Token, source: Key, mint: Key, destination: Key, amount: nat) {
    && mint in tok.mints && source in tok.holdings && destination in tok.holdings
    && tok.holdings[source].mint == mint && tok.holdings[destination].mint == mint
    && amount <= tok.holdings[source].amount
  }

  /** A checked transfer that is signed for moves the balance by the delegate's power, an approval or as its owner. */
  lemma {:induction false} CheckedTransferMoves(
    tok: Token, ix: Instruction, source: Key, mint: Key, destination: Key, authority: Key, amount: u64,
    decimals: byte, signed: set<Key>)
    requires ix.accounts == [source, mint, destination, authority] && ix.data == TransferData(amount, decimals)
    requires CanPay(tok, source, mint, destination, amount) && authority in signed
    ensures var h := tok.holdings[source];
            var power := if tok.mints[mint].delegate == Some(authority) then Some(OfPermanentDelegate)
              else if h.approved.Some? && h.approved.value.key == authority then
                if amount <= h.approved.value.amount then Some(OfApproval) else None
              else if h.owner == authority then Some(OfOwner) else None;
            MoveOf(tok, ix, signed) == if power.None? then None
              else Some(Move(source, mint, Some(destination), authority, power.value, amount, true))
  {
    TransferDataReads(amount, decimals);
  }

  /** What an approval moves is used up. */
  lemma {:induction false} ApprovalIsUsedUp(tok: Token, m: Move)
    requires m.source in tok.holdings && m.amount <= tok.holdings[m.source].amount
    requires m.destination.Some? ==> m.destination.value in tok.holdings
    requires m.power.OfApproval?
             ==> tok.holdings[m.source].approved.Some? && m.amount <= tok.holdings[m.source].approved.value.amount
    ensures var was, now := tok.holdings[m.source].approved, Applied(tok, m).holdings[m.source].approved;
            if !m.power.OfApproval? then now == was
            else if was.value.amount == m.amount then now.None?
            else now == Some(Approval(was.value.key, was.value.amount - m.amount))
  {
  }

  /**
   * The power does what it is for: whoever holds a balance of a mint carrying the delegate, a transfer the delegate
   * signs for into the compliance account is admitted, from any signers, and moves it there.
   */
  lemma {:induction false} SeizeReachesCompliance(
    p: Programs, policy: Policy, tok: Token, source: Key, mint: Key, amount: u64, decimals: byte, signers: set<Key>,
    signed: set<Key>)
    requires p.token2022 !in {p.associated, p.memo, p.withdraw, p.swap}
    requires policy.delegate.Some? && policy.complianceOwner.Some? && policy.delegate.value in signed
    requires Carried(tok, {mint}, policy.delegate.value)
    requires var vault := p.ata(policy.complianceOwner.value, mint);
             CanPay(tok, source, mint, vault, amount) && source != vault
    ensures var vault := p.ata(policy.complianceOwner.value, mint);
            var ix := Instruction(p.token2022, [source, mint, vault, policy.delegate.value],
                                  TransferData(amount, decimals));
            var ran := Ran(p, policy, tok, [Transaction([Call(ix, tok.holdings)], signers, signed)]);
            && Admits(p, policy, [ix], signers)
            && Balance(ran.tok, source) == Balance(tok, source) - amount
            && Balance(ran.tok, vault) == Balance(tok, vault) + amount
  {
    var vault := p.ata(policy.complianceOwner.value, mint);
    var ix := Instruction(p.token2022, [source, mint, vault, policy.delegate.value], TransferData(amount, decimals));
    var call := Call(ix, tok.holdings);
    var txs := [Transaction([call], signers, signed)];
    TransferDataReads(amount, decimals);
    CheckedTransferMoves(tok, ix, source, mint, vault, policy.delegate.value, amount, decimals, signed);
    var m := Move(source, mint, Some(vault), policy.delegate.value, OfPermanentDelegate, amount, true);
    OneTransferAdmitted(p, policy, ix, signers);
    OneMoveRuns(p, policy, tok, call, signers, signed, m);
    assert [m][..0] == [];
  }

  lemma {:induction false} OneTransferAdmitted(p: Programs, policy: Policy, ix: Instruction, signers: set<Key>)
    requires p.token2022 !in {p.associated, p.memo, p.withdraw, p.swap}
    requires ix.program == p.token2022 && ix.data != [] && ix.data[0] == 12 && Passes(p, ix, policy)
    ensures Admits(p, policy, [ix], signers)
  {
    assert [ix][0].data != [];
    assert !IsForeignDelegateRotation(p, ix, policy.delegate);
    AdmitsIff(p, policy, [ix], signers);
  }

  lemma {:induction false} OneMoveRuns(
    p: Programs, policy: Policy, tok: Token, call: Call, signers: set<Key>, signed: set<Key>, m: Move)
    requires call.ix.program == p.token2022 && MovesBalances(call.ix) && Admits(p, policy, [call.ix], signers)
    requires MoveOf(tok, call.ix, signed) == Some(m)
    ensures Ran(p, policy, tok, [Transaction([call], signers, signed)]) == Effect(Applied(tok, m), [m])
  {
    var tx := Transaction([call], signers, signed);
    assert Instructions([call]) == [call.ix];
    assert Executed(p, tok, call, signed) == Some(Effect(Applied(tok, m), [m]));
    assert [call][1..] == [] && [tx][1..] == [];
    assert ExecutedAll(p, tok, [call], signed) == Some(Effect(Applied(tok, m), [m] + []));
    assert Ran(p, policy, tok, [tx]) == Effect(Applied(tok, m), [m] + [] + []);
    assert [m] + [] + [] == [m];
  }

  /**
   * A mint's life: initialized once, with the delegate given it before, which from then on only that delegate's
   * own signature hands on or gives up.
   */
  lemma {:induction false} MintByCase(
    p: Programs, tok: Token, mint: Key, delegate: Key, rest: Bytes, holder: Key, to: Option<Key>, signed: set<Key>)
    requires |delegate| == 32 && (to.Some? ==> |to.value| == 32)
    ensures var begin := Instruction(p.token2022, [mint], [35] + delegate);
            var finish := Instruction(p.token2022, [mint], [20] + rest);
            var begun := Executed(p, tok, Call(begin, tok.holdings), signed);
            if mint in tok.mints && tok.mints[mint].initialized then
              begun.None? && Executed(p, tok, Call(finish, tok.holdings), signed).None?
            else
              && begun.Some? && begun.value.moves == []
              && var live := Executed(p, begun.value.tok, Call(finish, tok.holdings), signed);
                 && live.Some? && live.value.moves == [] && live.value.tok.holdings == tok.holdings
                 && live.value.tok.mints == tok.mints[mint := Mint(true, Some(delegate))]
    ensures var data := [6, 8] + if to.Some? then [1] + to.value else [0];
            var r := Executed(p, tok, Call(Instruction(p.token2022, [mint, holder], data), tok.holdings), signed);
            if mint in tok.mints && tok.mints[mint].delegate == Some(holder) && holder in signed then
              && r.Some? && r.value.moves == [] && r.value.tok.holdings == tok.holdings
              && r.value.tok.mints == tok.mints[mint := tok.mints[mint].(delegate := to)]
            else r.None?
  {
    var begin := [35] + delegate;
    assert begin[1..33] == delegate;
    var data := [6, 8] + if to.Some? then [1] + to.value else [0];
    assert to.Some? ==> data[3..35] == to.value;
    var begunMints := tok.mints[mint := Mint(false, Some(delegate))];
    assert begunMints[mint := Mint(true, Some(delegate))] == tok.mints[mint := Mint(true, Some(delegate))];
  }

  /** Minting adds to an account's balance; what else the classic set does leaves balances as they were. */
  lemma {:induction false} OthersByCase(
    p: Programs, tok: Token, account: Key, mint: Key, authority: Key, amount: u64, call: Call, signed: set<Key>)
    ensures var mints := Instruction(p.token2022, [mint, account, authority], [7] + ToLittleEndian(amount, 8));
            var r := Executed(p, tok, Call(mints, tok.holdings), signed);
            if account !in tok.holdings then r.None?
            else
              && r.Some? && r.value.moves == [] && r.value.tok.mints == tok.mints
              && Balance(r.value.tok, account) == Balance(tok, account) + amount
    ensures && call.ix.program == p.token2022 && call.ix.accounts != []
            && call.ix.data != [] && call.ix.data[0] in {1, 2, 4, 5, 9, 13, 16, 17, 18, 19, 21, 22, 23, 24}
            ==> Executed(p, tok, call, signed) ==
                  if Bookkeeping(tok.holdings, call.holdings) then Some(Effect(Token(tok.mints, call.holdings), []))
                  else None
  {
    var data := [7] + ToLittleEndian(amount, 8);
    assert data[1..9] == ToLittleEndian(amount, 8);
    EightBytesAreU64();
    LittleEndianRoundTrip(amount, 8);
  }

  /** A move the delegate makes, by whatever power, of a balance outside its own associated account. */
  predicate MovesForDelegate(p: Programs, m: Move, delegate: Key) {
    m.authority == delegate && m.source != p.ata(delegate, m.mint)
  }

  /** A plain Transfer the delegate signs for, as an account's owner or by its owner's approval. */
  predicate IsPlainTransferBy(p: Programs, ix: Instruction, delegate: Key) {
    && ix.program == p.token2022 && ix.data != [] && ix.data[0] == TRANSFER
    && |ix.accounts| >= 3 && ix.accounts[2] == delegate
  }

  /**
   * Judged by the key that moves the balance rather than by its power: on a mint carrying the delegate,
   * a move it makes from elsewhere passes if and only if it reaches the compliance account or is a plain Transfer.
   */
  lemma {:induction false} DelegateMovePassesIff(
    p: Programs, policy: Policy, tok: Token, ix: Instruction, signed: set<Key>)
    requires ix.program == p.token2022 && MoveOf(tok, ix, signed).Some? && policy.delegate.Some?
    requires Carried(tok, {MoveOf(tok, ix, signed).value.mint}, policy.delegate.value)
    requires MovesForDelegate(p, MoveOf(tok, ix, signed).value, policy.delegate.value)
    ensures var m := MoveOf(tok, ix, signed).value;
            && (Passes(p, ix, policy) <==> IntoCompliance(p, m, policy) || ix.data[0] == TRANSFER)
            && (m.checked <==> ix.data[0] != TRANSFER)
            && (!m.checked ==> IsPlainTransferBy(p, ix, policy.delegate.value) && !m.power.OfPermanentDelegate?)
  {
    var m := MoveOf(tok, ix, signed).value;
    assert m.mint in tok.mints && tok.mints[m.mint].delegate == policy.delegate;
  }

  /**
   * So not everything the delegate moves goes to compliance: a holder's approval lets it move that
   * holder's balance anywhere by a plain Transfer, in a transaction the policy admits from any signer.
   */
  lemma {:induction false} ApprovedPlainTransferEscapes(
    p: Programs, policy: Policy, tok: Token, ix: Instruction, signers: set<Key>, signed: set<Key>, mints: set<Key>)
    requires p.withdraw != p.token2022 && policy.delegate.Some? && Carried(tok, mints, policy.delegate.value)
    requires IsPlainTransferBy(p, ix, policy.delegate.value) && policy.delegate.value in signed && |ix.data| >= 9
    requires var a := ix.accounts;
             && a[0] in tok.holdings && a[1] in tok.holdings
             && tok.holdings[a[0]].mint in mints && tok.holdings[a[1]].mint == tok.holdings[a[0]].mint
             && a[0] != p.ata(policy.delegate.value, tok.holdings[a[0]].mint)
             && (policy.complianceOwner.Some? ==> a[1] != p.ata(policy.complianceOwner.value, tok.holdings[a[0]].mint))
             && var amount := FromLittleEndian(ix.data[1..9]);
                && amount <= tok.holdings[a[0]].amount
                && tok.holdings[a[0]].approved == Some(Approval(policy.delegate.value, amount))
    ensures var tx := Transaction([Call(ix, tok.holdings)], signers, signed);
            var source := ix.accounts[0];
            var mint := tok.holdings[source].mint;
            var m := Move(source, mint, Some(ix.accounts[1]), policy.delegate.value, OfApproval,
                          FromLittleEndian(ix.data[1..9]), false);
            && Admits(p, policy, [ix], signers)
            && Ran(p, policy, tok, [tx]).moves == [m]
            && MovesForDelegate(p, m, policy.delegate.value) && !IntoCompliance(p, m, policy)
  {
    var call := Call(ix, tok.holdings);
    var tx := Transaction([call], signers, signed);
    assert Instructions([call]) == [ix];
    assert Classified(p, [ix]) == Normal by {
      assert [ix][0].data != [];
    }
    assert !RequiresAdminSigner(p, ix) && Passes(p, ix, policy) && IsAllowed(p, ix);
    var m := MoveOf(tok, ix, signed).value;
    assert Executed(p, tok, call, signed) == Some(Effect(Applied(tok, m), [m]));
    assert [call][1..] == [] && [tx][1..] == [];
    assert [m] + [] == [m];
    assert ExecutedAll(p, tok, [call], signed) == Some(Effect(Applied(tok, m), [m]));
  }

  /**
   * What the policy guarantees of one move: under the permanent delegate's power, or in any checked
   * instruction the delegate signs for, a balance from elsewhere reaches compliance; `strict` says no
   * plain Transfer by the delegate is among the instructions, and then nothing else is left.
   */
  predicate SafeMove(p: Programs, policy: Policy, m: Move, strict: bool)
    requires policy.delegate.Some?
  {
    && (MovesForDelegate(p, m, policy.delegate.value) ==> IntoCompliance(p, m, policy) || (!strict && !m.checked))
    && (IsSeize(p, m, policy.delegate.value) ==> IntoCompliance(p, m, policy))
  }

  ghost predicate Safe(p: Programs, policy: Policy, mints: set<Key>, moves: seq<Move>, strict: bool)
    requires policy.delegate.Some?
  {
    forall i :: 0 <= i < |moves| && moves[i].mint in mints ==> SafeMove(p, policy, moves[i], strict)
  }

  lemma {:induction false} ExecutedKeepsDelegate(
    p: Programs, policy: Policy, tok: Token, call: Call, signed: set<Key>, mints: set<Key>)
    requires policy.delegate.Some? && Carried(tok, mints, policy.delegate.value)
    requires !IsForeignDelegateRotation(p, call.ix, policy.delegate)
    requires Executed(p, tok, call, signed).Some?
    ensures Carried(Executed(p, tok, call, signed).value.tok, mints, policy.delegate.value)
  {
  }

  lemma {:induction false} ExecutedIsSafe(
    p: Programs, policy: Policy, tok: Token, call: Call, signed: set<Key>, mints: set<Key>, strict: bool)
    requires policy.delegate.Some? && Carried(tok, mints, policy.delegate.value)
    requires Passes(p, call.ix, policy) && (strict ==> !IsPlainTransferBy(p, call.ix, policy.delegate.value))
    requires Executed(p, tok, call, signed).Some?
    ensures Safe(p, policy, mints, Executed(p, tok, call, signed).value.moves, strict)
  {
    if call.ix.program == p.token2022 && MovesBalances(call.ix) && MoveOf(tok, call.ix, signed).value.mint in mints {
      PolicySeesExactlySeizes(p, policy, tok, call.ix, signed);
      if MovesForDelegate(p, MoveOf(tok, call.ix, signed).value, policy.delegate.value) {
        DelegateMovePassesIff(p, policy, tok, call.ix, signed);
      }
    }
  }

  lemma {:induction false} TransactionIsSafe(
    p: Programs, policy: Policy, tok: Token, calls: seq<Call>, signed: set<Key>, mints: set<Key>, strict: bool)
    requires policy.delegate.Some? && Carried(tok, mints, policy.delegate.value)
    requires forall i :: 0 <= i < |calls| ==>
               Passes(p, calls[i].ix, policy) && !IsForeignDelegateRotation(p, calls[i].ix, policy.delegate)
    requires strict ==> forall i :: 0 <= i < |calls| ==> !IsPlainTransferBy(p, calls[i].ix, policy.delegate.value)
    requires ExecutedAll(p, tok, calls, signed).Some?
    ensures var e := ExecutedAll(p, tok, calls, signed).value;
            Carried(e.tok, mints, policy.delegate.value) && Safe(p, policy, mints, e.moves, strict)
    decreases |calls|
  {
    if calls != [] {
      ExecutedKeepsDelegate(p, policy, tok, calls[0], signed, mints);
      ExecutedIsSafe(p, policy, tok, calls[0], signed, mints, strict);
      TransactionIsSafe(p, policy, Executed(p, tok, calls[0], signed).value.tok, calls[1..], signed, mints, strict);
    }
  }

  /** No transaction of the run holds a plain Transfer the delegate signs for. */
  predicate NoPlainTransferBy(p: Programs, txs: seq<Transaction>, delegate: Key) {
    forall i, j :: 0 <= i < |txs| && 0 <= j < |txs[i].calls| ==> !IsPlainTransferBy(p, txs[i].calls[j].ix, delegate)
  }

  /**
   * Over every run, from any state whose mints carry the configured delegate: each of them carries it
   * still; every seize of their balances is a transfer into that mint's compliance account, never a burn;
   * and whatever the delegate moves by any power from an account other than its own goes there too,
   * plain Transfers apart, and with no plain Transfer of its in the run without exception.
   */
  lemma {:induction false} SeizesReachComplianceOnly(
    p: Programs, policy: Policy, tok: Token, txs: seq<Transaction>, mints: set<Key>)
    requires policy.delegate.Some? && Carried(tok, mints, policy.delegate.value)
    ensures var e := Ran(p, policy, tok, txs);
            && Carried(e.tok, mints, policy.delegate.value)
            && Safe(p, policy, mints, e.moves, NoPlainTransferBy(p, txs, policy.delegate.value))
  {
    RunIsSafe(p, policy, tok, txs, mints, NoPlainTransferBy(p, txs, policy.delegate.value));
  }

  lemma {:induction false} RunIsSafe(
    p: Programs, policy: Policy, tok: Token, txs: seq<Transaction>, mints: set<Key>, strict: bool)
    requires policy.delegate.Some? && Carried(tok, mints, policy.delegate.value)
    requires strict ==> NoPlainTransferBy(p, txs, policy.delegate.value)
    ensures var e := Ran(p, policy, tok, txs);
            Carried(e.tok, mints, policy.delegate.value) && Safe(p, policy, mints, e.moves, strict)
    decreases |txs|
  {
    if txs != [] {
      var ixs := Instructions(txs[0].calls);
      var after := tok;
      if Admits(p, policy, ixs, txs[0].signers) {
        var done := ExecutedAll(p, tok, txs[0].calls, txs[0].signed);
        if done.Some? {
          forall i | 0 <= i < |txs[0].calls|
            ensures Passes(p, txs[0].calls[i].ix, policy)
            ensures !IsForeignDelegateRotation(p, txs[0].calls[i].ix, policy.delegate)
          {
            assert ixs[i] == txs[0].calls[i].ix;
          }
          TransactionIsSafe(p, policy, tok, txs[0].calls, txs[0].signed, mints, strict);
          after := done.value.tok;
        }
      }
      RunIsSafe(p, policy, after, txs[1..], mints, strict);
    }
  }

  /** With no compliance owner configured, nothing is ever seized. */
  lemma {:induction false} NoComplianceOwnerNoSeize(
    p: Programs, policy: Policy, tok: Token, txs: seq<Transaction>, mints: set<Key>, i: nat)
    requires policy.delegate.Some? && policy.complianceOwner.None? && Carried(tok, mints, policy.delegate.value)
    requires i < |Ran(p, policy, tok, txs).moves| && Ran(p, policy, tok, txs).moves[i].mint in mints
    ensures !IsSeize(p, Ran(p, policy, tok, txs).moves[i], policy.delegate.value)
  {
    SeizesReachComplianceOnly(p, policy, tok, txs, mints);
  }
}
