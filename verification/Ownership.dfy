/**
 * Who may read an account (gateway/src/auth.rs): the ownership check on fetched bytes, and the
 * slice of them a caller asked for.
 */
module Ownership {
  import opened Common
  import opened Binary64
  import opened Json
  import opened TokenAccount

  const GET_ACCOUNT_INFO := "getAccountInfo"
  const GET_TOKEN_ACCOUNT_BALANCE := "getTokenAccountBalance"
  const OWNER_ONLY_METHODS: set<string> := {"getSignaturesForAddress"}

  /** The parties of a swap escrow, in the order they are asked about. */
  datatype Swap = Swap(userA: string, userB: string, settlementAuthority: string)

  /** The program ids and codecs the gateway takes from other crates, and its platform's doubles. */
  datatype Env = Env(
    keys: Keys,
    dvpProgram: string,
    decodeSwap: Bytes -> Option<Swap>,
    encode64: Bytes -> string,
    decode64: string -> Option<Bytes>,
    float: Float)

  /** Base64 round-trips (section 4 of RFC 4648) on bytes that fit the address space. */
  ghost predicate Base64RoundTrips(env: Env) {
    forall b :: |b| <= U64_MAX ==> env.decode64(env.encode64(b)) == Some(b)
  }

  /** Decoded bytes fit the address space. */
  ghost predicate SizedDecode(env: Env) {
    forall s :: env.decode64(s).Some? ==> |env.decode64(s).value| <= U64_MAX
  }

  function BytePerChar(b: Bytes): string {
    seq(|b|, i requires 0 <= i < |b| => b[i] as char)
  }

  function CharPerByte(s: string): Option<Bytes> {
    if |s| <= U64_MAX && forall i :: 0 <= i < |s| ==> s[i] as int <= U8_MAX
    then Some(seq(|s|, i requires 0 <= i < |s| => s[i] as int)) else None
  }

  /** The two can be met together: a codec of one character per byte does. */
  lemma {:induction false} SizedCodecExists(env: Env)
    ensures var sized := env.(encode64 := BytePerChar, decode64 := CharPerByte);
            SizedDecode(sized) && Base64RoundTrips(sized)
  {
    forall b: Bytes | |b| <= U64_MAX
      ensures CharPerByte(BytePerChar(b)) == Some(b)
    {
      assert CharPerByte(BytePerChar(b)).value == b;
    }
  }

  /** One caller's verified wallets as the database answers for them; none is a failed query. */
  type Wallets = string -> Option<bool>

  datatype AccountState = AccountState(programOwner: string, data: Bytes)

  datatype Access = Granted | Denied(status: int)

  function Ask(wallets: Wallets, wallet: string, otherwise: Access): Access {
    match wallets(wallet)
    case None => Denied(500)
    case Some(owned) => if owned then Granted else otherwise
  }

  /** A delegate set with a nonzero allowance on an initialized account. */
  predicate HasSpendingDelegate(data: Bytes)
    requires IsTokenAccount(data)
  {
    && data[DELEGATE_OPTION_OFFSET..DELEGATE_OPTION_OFFSET + 4] == [1, 0, 0, 0]
    && data[STATE_OFFSET] != STATE_UNINITIALIZED
    && data[DELEGATED_AMOUNT_OFFSET..DELEGATED_AMOUNT_END] != [0, 0, 0, 0, 0, 0, 0, 0]
  }

  /** `check_token_account_ownership`: the owner, then, for current state only, a spending delegate. */
  function TokenAccountAccess(env: Env, wallets: Wallets, data: Bytes, rpc: string): Access {
    if !IsTokenAccount(data) then Denied(403)
    else
      Ask(wallets, OwnerOf(env.keys, data),
          if rpc in OWNER_ONLY_METHODS || !HasSpendingDelegate(data) then Denied(403)
          else Ask(wallets, env.keys.base58(data[DELEGATE_OFFSET..DELEGATE_END]), Denied(403)))
  }

  /** `check_swap_dvp_ownership`: either trading party or the settlement authority. */
  function SwapAccess(env: Env, wallets: Wallets, data: Bytes): Access {
    match env.decodeSwap(data)
    case None => Denied(403)
    case Some(swap) =>
      Ask(wallets, swap.userA, Ask(wallets, swap.userB, Ask(wallets, swap.settlementAuthority, Denied(403))))
  }

  /** `check_account_data_ownership`, dispatching on the owning program. */
  function AccountAccess(env: Env, wallets: Wallets, state: AccountState, pubkey: string, rpc: string): Access {
    if IsTokenProgram(state.programOwner) then TokenAccountAccess(env, wallets, state.data, rpc)
    else if state.programOwner == env.dvpProgram then SwapAccess(env, wallets, state.data)
    else Ask(wallets, pubkey, Denied(403))
  }

  /** Whether who may read the account is decided by its own bytes. */
  predicate AuthorityIsInData(env: Env, programOwner: string) {
    IsTokenProgram(programOwner) || programOwner == env.dvpProgram
  }

  /**
   * Who is entitled to read an account, said without the order of the lookups: a token account's owner,
   * or its spending delegate where the method is not the owner's alone; any party of a swap; a wallet itself.
   */
  predicate Entitled(env: Env, owns: string -> bool, state: AccountState, pubkey: string, rpc: string) {
    if IsTokenProgram(state.programOwner) then
      && IsTokenAccount(state.data)
      && (|| owns(OwnerOf(env.keys, state.data))
          || (&& rpc !in OWNER_ONLY_METHODS
              && HasSpendingDelegate(state.data)
              && owns(env.keys.base58(state.data[DELEGATE_OFFSET..DELEGATE_END]))))
    else if state.programOwner == env.dvpProgram then
      && env.decodeSwap(state.data).Some?
      && var swap := env.decodeSwap(state.data).value;
         owns(swap.userA) || owns(swap.userB) || owns(swap.settlementAuthority)
    else owns(pubkey)
  }

  /** Failed lookups only ever take access away, and with none failing access is exactly entitlement. */
  lemma {:induction false} AccessIsEntitlement(
    env: Env, wallets: Wallets, state: AccountState, pubkey: string, rpc: string)
    ensures var owns := (w: string) => wallets(w) == Some(true);
            var access := AccountAccess(env, wallets, state, pubkey, rpc);
            && (access.Granted? ==> Entitled(env, owns, state, pubkey, rpc))
            && ((forall w :: wallets(w).Some?) ==>
                  access == if Entitled(env, owns, state, pubkey, rpc) then Granted else Denied(403))
  {
    var owns := (w: string) => wallets(w) == Some(true);
    assert forall w :: owns(w) <==> wallets(w) == Some(true);
  }

  /** History is the owner's alone: a delegate who does not own the account never opens it. */
  lemma {:induction false} DelegateNeverOpensHistory(
    env: Env, wallets: Wallets, state: AccountState, pubkey: string, rpc: string)
    requires IsTokenProgram(state.programOwner) && rpc in OWNER_ONLY_METHODS
    ensures AccountAccess(env, wallets, state, pubkey, rpc).Granted?
            <==> IsTokenAccount(state.data) && wallets(OwnerOf(env.keys, state.data)) == Some(true)
  {
  }

  /** A delegate may spend from the account: one is set, with something left to spend, on an initialized account. */
  predicate MaySpend(f: Fields) {
    f.delegate.Some? && f.state != 0 && f.delegatedAmount > 0
  }

  lemma {:induction false} DelegateIsRead(f: Fields, extensions: Bytes)
    requires ValidFields(f) && IsTokenAccount(Layout(f, extensions))
    ensures var data := Layout(f, extensions);
            && (HasSpendingDelegate(data) <==> MaySpend(f))
            && (f.delegate.Some? ==> data[DELEGATE_OFFSET..DELEGATE_END] == f.delegate.value)
  {
    var data := Layout(f, extensions);
    LayoutSlices(f, extensions);
    assert data[72..76] == data[72..108][..4] && data[76..108] == data[72..108][4..];
    assert data[108] == data[108..165][0] && data[121..129] == data[108..165][13..21];
    assert Tail(f)[0] == f.state && Tail(f)[13..21] == ToLittleEndian(f.delegatedAmount, 8);
    assert f.delegate.Some? ==> StoredKey(f.delegate)[4..] == f.delegate.value;
    ZeroIsZeros(f.delegatedAmount);
  }

  lemma {:induction false} ZeroIsZeros(n: u64)
    ensures ToLittleEndian(n, 8) == [0, 0, 0, 0, 0, 0, 0, 0] <==> n == 0
  {
    EightBytesAreU64();
    LittleEndianRoundTrip(n, 8);
    LittleEndianRoundTrip(0, 8);
    ZerosAreZero();
  }

  lemma {:induction false} ZerosAreZero()
    ensures ToLittleEndian(0, 8) == [0, 0, 0, 0, 0, 0, 0, 0]
  {
    assert ToLittleEndian(0, 2) == [0, 0];
    assert ToLittleEndian(0, 4) == [0, 0, 0, 0];
    assert ToLittleEndian(0, 6) == [0, 0, 0, 0, 0, 0];
  }

  /** Who reads a token account, by its fields: its owner, and off its history a delegate who may spend. */
  lemma {:induction false} AccessByFields(
    env: Env, wallets: Wallets, f: Fields, extensions: Bytes, programOwner: string, pubkey: string, rpc: string)
    requires programOwner in {SPL_TOKEN_PROGRAM, SPL_TOKEN_2022_PROGRAM}
    requires ValidFields(f) && (extensions == [] || extensions[0] == 2)
    ensures var access := AccountAccess(env, wallets, AccountState(programOwner, Layout(f, extensions)), pubkey, rpc);
            var delegate := rpc != "getSignaturesForAddress" && MaySpend(f);
            match wallets(env.keys.base58(f.owner))
            case None => access == Denied(500)
            case Some(true) => access == Granted
            case Some(false) =>
              if !delegate then access == Denied(403)
              else
                match wallets(env.keys.base58(f.delegate.value))
                case None => access == Denied(500)
                case Some(owned) => access == if owned then Granted else Denied(403)
  {
    LayoutIsRead(env.keys, f, extensions, programOwner);
    DelegateIsRead(f, extensions);
  }

  // ---------------------------------------------------------------------------
  // The requested slice
  // ---------------------------------------------------------------------------

  datatype DataSlice = DataSlice(offset: u64, length: u64)

  function AsU64(j: Option<Json>): Option<u64> {
    if j.Some? && j.value.Num? && 0 <= j.value.n <= U64_MAX then Some(j.value.n) else None
  }

  /** `requested_data_slice`: none asked for, a slice, or a config the node would refuse. */
  function RequestedDataSlice(params: Json): Result<Option<DataSlice>, int> {
    if !params.Arr? || |params.items| < 2 || params.items[1].Null? then Ok(None)
    else if !params.items[1].Obj? then Err(400)
    else
      var config := params.items[1];
      var encoding := Get(config, "encoding");
      if encoding.Some? && !encoding.value.Null?
         && !(encoding.value.Str? && encoding.value.s in {"base64", "base64+zstd", "jsonParsed"}) then Err(400)
      else
        var slice := Get(config, "dataSlice");
        if slice.None? || slice.value.Null? then Ok(None)
        else
          var offset, length := AsU64(Get(slice.value, "offset")), AsU64(Get(slice.value, "length"));
          if offset.Some? && length.Some? then Ok(Some(DataSlice(offset.value, length.value))) else Err(400)
  }

  /** A config the node takes: an encoding it can slice, and both ends of a slice if it has one. */
  predicate TakenConfig(config: Json) {
    && config.Obj?
    && ("encoding" in config.fields ==>
          config.fields["encoding"] in {Null, Str("base64"), Str("base64+zstd"), Str("jsonParsed")})
    && ("dataSlice" in config.fields && config.fields["dataSlice"] != Null ==>
          && AsU64(Get(config.fields["dataSlice"], "offset")).Some?
          && AsU64(Get(config.fields["dataSlice"], "length")).Some?)
  }

  /** Any config it does not take is refused as a bad request; none, or a null one, asks for no slice. */
  lemma {:induction false} BadConfigIsRefused(params: Json)
    ensures var config := if params.Arr? && |params.items| >= 2 then params.items[1] else Null;
            && (config == Null ==> RequestedDataSlice(params) == Ok(None))
            && (config != Null && !TakenConfig(config) ==> RequestedDataSlice(params) == Err(400))
            && (TakenConfig(config) ==> RequestedDataSlice(params).Ok?)
  {
  }

  /** A slice written into a config the node takes is the slice read out of it. */
  lemma {:induction false} SliceRoundTrip(address: Json, config: map<string, Json>, slice: DataSlice)
    requires "encoding" in config ==> config["encoding"] in {Null, Str("base64"), Str("base64+zstd"), Str("jsonParsed")}
    ensures var written := Obj(map["offset" := Num(slice.offset), "length" := Num(slice.length)]);
            RequestedDataSlice(Arr([address, Obj(config["dataSlice" := written])])) == Ok(Some(slice))
    ensures RequestedDataSlice(Arr([address, Obj(config - {"dataSlice"})])) == Ok(None)
  {
    var written := Obj(map["offset" := Num(slice.offset), "length" := Num(slice.length)]);
    assert AsU64(Get(written, "offset")) == Some(slice.offset) && AsU64(Get(written, "length")) == Some(slice.length);
    var with := Obj(config["dataSlice" := written]);
    assert Get(with, "dataSlice") == Some(written) && Get(with, "encoding") == Get(Obj(config), "encoding");
    var without := Obj(config - {"dataSlice"});
    assert Get(without, "dataSlice") == None && Get(without, "encoding") == Get(Obj(config), "encoding");
  }

  function SaturatingAdd(a: u64, b: u64): u64 {
    if a + b <= U64_MAX then a + b else U64_MAX
  }

  /** The gateway's cut: an offset past the end gives nothing, and a long slice stops there. */
  function Cut(data: Bytes, slice: DataSlice): Bytes
    requires |data| <= U64_MAX
  {
    var start := Min(slice.offset, |data|);
    var end := Min(SaturatingAdd(start, slice.length), |data|);
    data[start..end]
  }

  /** The node's cut: drop `offset` bytes, then keep at most `length`. */
  function NodeSlice(data: Bytes, slice: DataSlice): Bytes {
    if |data| <= slice.offset then []
    else if |data| - slice.offset < slice.length then data[slice.offset..]
    else data[slice.offset..slice.offset + slice.length]
  }

  lemma {:induction false} CutIsNodeSlice(data: Bytes, slice: DataSlice)
    requires |data| <= U64_MAX
    ensures Cut(data, slice) == NodeSlice(data, slice)
    ensures |Cut(data, slice)| == Min(slice.length, Max(|data| - slice.offset, 0))
  {
  }
}
