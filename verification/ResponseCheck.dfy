/**
 * Holding a forwarded reply to what its caller was authorized on (gateway/src/lib.rs,
 * `check_response`): the ownership fetch and the forwarded read are two reads, and the account
 * may change hands between them.
 */
module ResponseCheck {
  import opened Common
  import opened Binary64
  import opened Json
  import opened TokenAccount
  import opened Ownership
  import opened Redaction
  import opened UiAmount

  // ---------------------------------------------------------------------------
  // Account bytes
  // ---------------------------------------------------------------------------

  /** The account a reply carries: none for an error, or for one closed since the check. */
  function AccountIn(json: Json): Option<Json> {
    var result := Get(json, "result");
    var value := if result.Some? then Get(result.value, "value") else None;
    if value.Some? && !value.value.Null? then value else None
  }

  function ProgramOwnerIn(account: Json): string {
    var owner := Get(account, "owner");
    if owner.Some? && owner.value.Str? then owner.value.s else ""
  }

  /** The account's bytes, if they came as whole base64. */
  function DataIn(env: Env, account: Json): Option<Bytes> {
    var data := Get(account, "data");
    if data.Some? && data.value.Arr? && |data.value.items| == 2
       && data.value.items[0].Str? && data.value.items[1] == Str("base64")
    then env.decode64(data.value.items[0].s) else None
  }

  /** A reply with `value` as its result's value. */
  predicate Replies(json: Json, value: Json) {
    && json.Obj? && "result" in json.fields && json.fields["result"].Obj?
    && "value" in json.fields["result"].fields && json.fields["result"].fields["value"] == value
  }

  /** Base64 beside its name, and nothing else, is read as the account's bytes; a null value is no account. */
  lemma {:induction false} ReplyShapes(env: Env, json: Json, value: Json, encoded: string)
    requires Replies(json, value)
    ensures AccountIn(json) == if value == Null then None else Some(value)
    ensures BalanceIn(json) == Some(value)
    ensures Get(value, "data") == Some(Arr([Str(encoded), Str("base64")]))
            ==> DataIn(env, value) == env.decode64(encoded)
    ensures DataIn(env, value).Some? ==> exists e :: Get(value, "data") == Some(Arr([Str(e), Str("base64")]))
  {
    if DataIn(env, value).Some? {
      var items := Get(value, "data").value.items;
      assert items == [Str(items[0].s), Str("base64")];
    }
  }

  function WithData(json: Json, data: Json): Json
    requires AccountIn(json).Some? && AccountIn(json).value.Obj?
  {
    var result := json.fields["result"];
    Set(json, "result", Set(result, "value", Set(result.fields["value"], "data", data)))
  }

  /** What the caller was authorized on, and the slice they asked for. */
  datatype AccountCheck = AccountCheck(pubkey: string, slice: Option<DataSlice>, authorized: AccountState)

  /** The `AccountBytes` arm: `Ok` carries the body to serve, `Err` the status to refuse with. */
  function CheckAccountBytes(
    env: Env, wallets: Wallets, check: AccountCheck, rpc: string, body: Body): Result<Body, int>
    requires SizedDecode(env)
  {
    if body.Raw? || AccountIn(body.json).None? then Ok(body)
    else
      var account := AccountIn(body.json).value;
      var programOwner := ProgramOwnerIn(account);
      var served := DataIn(env, account);
      if served.None? && AuthorityIsInData(env, programOwner) then Err(502)
      else
        var data := if served.Some? then served.value else [];
        var state := AccountState(programOwner, data);
        var access := if state == check.authorized then Granted
          else AccountAccess(env, wallets, state, check.pubkey, rpc);
        CutReply(env, body.json, data, check.slice, access)
  }

  /** The reply with its bytes cut as the caller asked, if they may have it. */
  function CutReply(env: Env, json: Json, data: Bytes, slice: Option<DataSlice>, access: Access): Result<Body, int>
    requires AccountIn(json).Some? && |data| <= U64_MAX
  {
    match access
    case Denied(status) => Err(status)
    case Granted =>
      if slice.None? then Ok(Parsed(json))
      else if !AccountIn(json).value.Obj? then Err(500)
      else Ok(Parsed(WithData(json, Arr([Str(env.encode64(Cut(data, slice.value))), Str("base64")]))))
  }

  /** A node's reply for one account state, as it answers a whole-base64 request. */
  predicate Answers(env: Env, json: Json, state: AccountState) {
    && AccountIn(json).Some?
    && AccountIn(json).value.Obj?
    && Get(AccountIn(json).value, "owner") == Some(Str(state.programOwner))
    && Get(AccountIn(json).value, "data") == Some(Arr([Str(env.encode64(state.data)), Str("base64")]))
  }

  /** The same reply with the bytes cut as the node would cut them. */
  function Sliced(env: Env, json: Json, state: AccountState, slice: Option<DataSlice>): Json
    requires Answers(env, json, state)
  {
    if slice.None? then json
    else WithData(json, Arr([Str(env.encode64(NodeSlice(state.data, slice.value))), Str("base64")]))
  }

  /** Equal but for one field. */
  predicate SameBut(a: Json, b: Json, key: string) {
    a.Obj? && b.Obj? && SameElsewhere(a.fields, b.fields, {key})
  }

  /** A sliced reply is itself the reply for the sliced bytes, and differs from the whole one in nothing else. */
  lemma {:induction false} SlicedAnswers(env: Env, json: Json, state: AccountState, slice: DataSlice)
    requires Answers(env, json, state)
    ensures var served := Sliced(env, json, state, Some(slice));
            && Answers(env, served, AccountState(state.programOwner, NodeSlice(state.data, slice)))
            && SameBut(json, served, "result")
            && SameBut(json.fields["result"], served.fields["result"], "value")
            && SameBut(AccountIn(json).value, AccountIn(served).value, "data")
  {
  }

  /**
   * `getAccountInfo` from the ownership fetch to the served reply. The first read saw `before`
   * under `wallets0`; the forwarded read answered `reply`, judged under `wallets1`.
   */
  function GetAccountInfo(
    env: Env, pubkey: string, params: Json, wallets0: Wallets, before: AccountState,
    wallets1: Wallets, reply: Body): Result<Body, int>
    requires SizedDecode(env)
  {
    match AccountAccess(env, wallets0, before, pubkey, GET_ACCOUNT_INFO)
    case Denied(status) => Err(status)
    case Granted =>
      if !AuthorityIsInData(env, before.programOwner) then Ok(reply)
      else
        match RequestedDataSlice(params)
        case Err(status) => Err(status)
        case Ok(slice) => CheckAccountBytes(env, wallets1, AccountCheck(pubkey, slice, before), GET_ACCOUNT_INFO, reply)
  }

  /** A read authorized on the account's own bytes, whose reply is therefore held to them. */
  predicate Held(env: Env, pubkey: string, params: Json, wallets: Wallets, before: AccountState) {
    && AccountAccess(env, wallets, before, pubkey, GET_ACCOUNT_INFO).Granted?
    && (IsTokenProgram(before.programOwner) || before.programOwner == env.dvpProgram)
    && RequestedDataSlice(params).Ok?
  }

  /**
   * The two reads refine one atomic authorize-and-read: whatever state the forwarded read saw, it is
   * served if and only if it is the state already authorized or itself passes the ownership check,
   * and what is served is the node's slice of that one state.
   */
  lemma {:induction false} HeldReadRefinesAtomicRead(
    env: Env, pubkey: string, params: Json, wallets0: Wallets, before: AccountState, wallets1: Wallets, json: Json,
    after: AccountState)
    requires SizedDecode(env)
    requires Base64RoundTrips(env) && |after.data| <= U64_MAX && Answers(env, json, after)
    ensures Held(env, pubkey, params, wallets0, before) ==>
              var r := GetAccountInfo(env, pubkey, params, wallets0, before, wallets1, Parsed(json));
              var may := after == before || AccountAccess(env, wallets1, after, pubkey, GET_ACCOUNT_INFO).Granted?;
              && (r.Ok? <==> may)
              && (may ==> r == Ok(Parsed(Sliced(env, json, after, RequestedDataSlice(params).value))))
              && (may ==> AccountAccess(env, wallets0, after, pubkey, GET_ACCOUNT_INFO).Granted?
                          || AccountAccess(env, wallets1, after, pubkey, GET_ACCOUNT_INFO).Granted?)
  {
    if Held(env, pubkey, params, wallets0, before) {
      BytesHeld(env, wallets1, AccountCheck(pubkey, RequestedDataSlice(params).value, before), json, after);
    }
  }

  /** An empty token account, and a node's reply for it. */
  const EMPTY_ACCOUNT := AccountState(SPL_TOKEN_PROGRAM, seq(TOKEN_ACCOUNT_SIZE, _ => 0))

  function EmptyReply(encoded: string): Json {
    var account := map["owner" := Str(SPL_TOKEN_PROGRAM), "data" := Arr([Str(encoded), Str("base64")])];
    Obj(map["result" := Obj(map["value" := Obj(account)])])
  }

  /** The theorem speaks of something: a gateway, a caller and a reply that meet all it asks. */
  lemma {:induction false} HeldReadHappens(any: Env, pubkey: string)
    ensures var env := any.(encode64 := BytePerChar, decode64 := CharPerByte);
            && SizedDecode(env) && Base64RoundTrips(env) && |EMPTY_ACCOUNT.data| <= U64_MAX
            && Answers(env, EmptyReply(env.encode64(EMPTY_ACCOUNT.data)), EMPTY_ACCOUNT)
            && Held(env, pubkey, Arr([]), _ => Some(true), EMPTY_ACCOUNT)
  {
    var env := any.(encode64 := BytePerChar, decode64 := CharPerByte);
    SizedCodecExists(any);
    EmptyReplyAnswers(env);
    EmptyAccountHeld(env, pubkey);
  }

  lemma {:induction false} EmptyReplyAnswers(env: Env)
    ensures Answers(env, EmptyReply(env.encode64(EMPTY_ACCOUNT.data)), EMPTY_ACCOUNT)
  {
  }

  lemma {:induction false} EmptyAccountHeld(env: Env, pubkey: string)
    ensures Held(env, pubkey, Arr([]), _ => Some(true), EMPTY_ACCOUNT)
  {
  }

  /** A reply is read as the state it was written from. */
  lemma {:induction false} AnswerRead(env: Env, json: Json, state: AccountState)
    requires Base64RoundTrips(env) && |state.data| <= U64_MAX && Answers(env, json, state)
    ensures ProgramOwnerIn(AccountIn(json).value) == state.programOwner
    ensures DataIn(env, AccountIn(json).value) == Some(state.data)
  {
    assert env.decode64(env.encode64(state.data)) == Some(state.data);
  }

  /** The check lets a reply through, cut as asked, exactly if its state was authorized or passes. */
  lemma {:induction false} BytesHeld(env: Env, wallets: Wallets, check: AccountCheck, json: Json, state: AccountState)
    requires SizedDecode(env)
    requires Base64RoundTrips(env) && |state.data| <= U64_MAX && Answers(env, json, state)
    ensures var r := CheckAccountBytes(env, wallets, check, GET_ACCOUNT_INFO, Parsed(json));
            if state == check.authorized || AccountAccess(env, wallets, state, check.pubkey, GET_ACCOUNT_INFO).Granted?
            then r == Ok(Parsed(Sliced(env, json, state, check.slice))) else r.Err?
  {
    AnswerRead(env, json, state);
    CutIsSliced(env, json, state, check.slice);
  }

  lemma {:induction false} CutIsSliced(env: Env, json: Json, state: AccountState, slice: Option<DataSlice>)
    requires |state.data| <= U64_MAX && Answers(env, json, state)
    ensures CutReply(env, json, state.data, slice, Granted) == Ok(Parsed(Sliced(env, json, state, slice)))
  {
    if slice.Some? {
      CutIsNodeSlice(state.data, slice.value);
    }
  }

  /**
   * What becomes of the rest: a caller the first check refuses gets its status, a config the node would not
   * take is a bad request; a wallet's reply, one that is not JSON and one without an account pass as they are;
   * and an account whose bytes cannot be read is a bad gateway if they decide who reads it.
   */
  lemma {:induction false} AccountReplyByCase(
    env: Env, pubkey: string, params: Json, wallets0: Wallets, before: AccountState, wallets1: Wallets, reply: Body)
    requires SizedDecode(env)
    ensures var r := GetAccountInfo(env, pubkey, params, wallets0, before, wallets1, reply);
            match AccountAccess(env, wallets0, before, pubkey, GET_ACCOUNT_INFO)
            case Denied(status) => r == Err(status)
            case Granted =>
              if !IsTokenProgram(before.programOwner) && before.programOwner != env.dvpProgram then r == Ok(reply)
              else if RequestedDataSlice(params).Err? then r == Err(RequestedDataSlice(params).error)
              else if reply.Raw? || AccountIn(reply.json).None? then r == Ok(reply)
              else
                var owner := ProgramOwnerIn(AccountIn(reply.json).value);
                DataIn(env, AccountIn(reply.json).value).None? ==>
                  if IsTokenProgram(owner) || owner == env.dvpProgram then r == Err(502)
                  else
                    match wallets1(pubkey)
                    case None => before != AccountState(owner, []) ==> r == Err(500)
                    case Some(false) => before != AccountState(owner, []) ==> r == Err(403)
                    case Some(true) =>
                      if RequestedDataSlice(params).value.None? then r == Ok(reply)
                      else if !AccountIn(reply.json).value.Obj? then r == Err(500)
                      else r == Ok(Parsed(WithData(reply.json, Arr([Str(env.encode64([])), Str("base64")]))))
  {
  }

  /**
   * Whatever the node answers, no token or swap account leaves the gateway on bytes that were neither
   * authorized nor passed the check, and none leaves it in an encoding the check could not read.
   */
  lemma {:induction false} NoUncheckedAccountIsServed(
    env: Env, pubkey: string, params: Json, wallets0: Wallets, before: AccountState, wallets1: Wallets, json: Json)
    requires SizedDecode(env)
    requires IsTokenProgram(before.programOwner) || before.programOwner == env.dvpProgram
    ensures GetAccountInfo(env, pubkey, params, wallets0, before, wallets1, Parsed(json)).Ok?
            && AccountIn(json).Some?
            && (var owner := ProgramOwnerIn(AccountIn(json).value); IsTokenProgram(owner) || owner == env.dvpProgram)
            ==> && DataIn(env, AccountIn(json).value).Some?
                && var programOwner := ProgramOwnerIn(AccountIn(json).value);
                   var state := AccountState(programOwner, DataIn(env, AccountIn(json).value).value);
                   || AccountAccess(env, wallets0, state, pubkey, GET_ACCOUNT_INFO).Granted?
                   || AccountAccess(env, wallets1, state, pubkey, GET_ACCOUNT_INFO).Granted?
  {
  }

  // ---------------------------------------------------------------------------
  // Balances
  // ---------------------------------------------------------------------------

  function BalanceIn(json: Json): Option<Json> {
    var result := Get(json, "result");
    if result.Some? then Get(result.value, "value") else None
  }

  function ContextIn(json: Json): Option<Json> {
    var result := Get(json, "result");
    if result.Some? then Get(result.value, "context") else None
  }

  function AsU8(j: Option<Json>): Option<u8> {
    if AsU64(j).Some? && AsU64(j).value <= U8_MAX then Some(AsU64(j).value) else None
  }

  function WithBalance(fl: Float, balance: Json, amount: nat, decimals: u8): (r: Json)
    requires balance.Obj?
    ensures r.Obj?
  {
    Set(Set(Set(balance, "amount", Str(Decimal(amount))),
            "uiAmount", Frac(Quotient(fl, amount, decimals))),
        "uiAmountString", Str(UiAmountString(amount, decimals)))
  }

  /** The `AuthorizedBalance` arm: the balance held in the bytes that passed, at the slot they were read at. */
  function CheckBalance(fl: Float, authorized: Option<nat>, contextSlot: u64, body: Body): Result<Body, int> {
    if body.Raw? || BalanceIn(body.json).None? then Ok(body)
    else
      var decimals := AsU8(Get(BalanceIn(body.json).value, "decimals"));
      var context := ContextIn(body.json);
      if authorized.None? || decimals.None? || context.None? || !context.value.Obj? then Err(502)
      else
        var balance := WithBalance(fl, BalanceIn(body.json).value, authorized.value, decimals.value);
        Ok(Parsed(WithResult(body.json, balance, Set(context.value, "slot", Num(contextSlot)))))
  }

  function WithResult(json: Json, balance: Json, context: Json): Json
    requires BalanceIn(json).Some?
  {
    Set(json, "result", Set(Set(json.fields["result"], "value", balance), "context", context))
  }

  /** `getTokenAccountBalance` from the ownership fetch to the served reply. */
  function GetTokenAccountBalance(
    env: Env, pubkey: string, wallets: Wallets, before: AccountState,
    contextSlot: u64, reply: Body): Result<Body, int>
  {
    match AccountAccess(env, wallets, before, pubkey, GET_TOKEN_ACCOUNT_BALANCE)
    case Denied(status) => Err(status)
    case Granted => CheckBalance(env.float, TokenAccountAmount(before.data, before.programOwner), contextSlot, reply)
  }

  lemma {:induction false} DecimalsAreU8(n: int)
    ensures AsU8(Some(Num(n))) == if 0 <= n <= 255 then Some(n) else None
  {
  }

  /** The balance reads as `amount` in both its strings, and as its rounded quotient in its number. */
  predicate Shows(fl: Float, balance: Json, amount: nat, decimals: u8) {
    && Get(balance, "amount").Some? && Get(balance, "amount").value.Str?
    && Parse(Get(balance, "amount").value.s, 0) == Some(amount)
    && Get(balance, "uiAmountString").Some? && Get(balance, "uiAmountString").value.Str?
    && Parse(Get(balance, "uiAmountString").value.s, decimals) == Some(amount)
    && Get(balance, "uiAmount") == Some(Frac(Quotient(fl, amount, decimals)))
  }

  /** The reply shows the amount the authorized bytes hold, at the slot they were read at. */
  predicate FromSnapshot(fl: Float, served: Json, before: AccountState, contextSlot: u64) {
    && TokenAccountAmount(before.data, before.programOwner).Some?
    && BalanceIn(served).Some? && ContextIn(served).Some?
    && AsU8(Get(BalanceIn(served).value, "decimals")).Some?
    && Shows(fl, BalanceIn(served).value, TokenAccountAmount(before.data, before.programOwner).value,
             AsU8(Get(BalanceIn(served).value, "decimals")).value)
    && Get(ContextIn(served).value, "slot") == Some(Num(contextSlot))
  }

  /**
   * A served balance comes whole from one snapshot: its amount, its printed amount and its slot are
   * those of the bytes the caller was authorized on, whatever the node answered; only the decimals are the node's.
   */
  lemma {:induction false} BalanceIsOneSnapshot(
    env: Env, pubkey: string, wallets: Wallets, before: AccountState, contextSlot: u64, json: Json)
    ensures var r := GetTokenAccountBalance(env, pubkey, wallets, before, contextSlot, Parsed(json));
            r.Ok? && BalanceIn(json).Some? ==>
              && r.value.Parsed? && FromSnapshot(env.float, r.value.json, before, contextSlot)
              && Get(BalanceIn(r.value.json).value, "decimals") == Get(BalanceIn(json).value, "decimals")
  {
    if GetTokenAccountBalance(env, pubkey, wallets, before, contextSlot, Parsed(json)).Ok? && BalanceIn(json).Some? {
      var amount := TokenAccountAmount(before.data, before.programOwner).value;
      var decimals := AsU8(Get(BalanceIn(json).value, "decimals")).value;
      WithBalanceHolds(env.float, BalanceIn(json).value, amount, decimals);
      var balance := WithBalance(env.float, BalanceIn(json).value, amount, decimals);
      var context := Set(ContextIn(json).value, "slot", Num(contextSlot));
      WithResultHolds(json, balance, context);
    }
  }

  function AmountIn(balance: Json): Option<nat> {
    var amount := Get(balance, "amount");
    if amount.Some? && amount.value.Str? then Parse(amount.value.s, 0) else None
  }

  /** The number, its point shifted back, is the amount to two roundings. */
  predicate NumberNear(fl: Float, amount: Option<nat>, number: Option<Json>, decimals: Option<u8>) {
    && amount.Some? && number.Some? && number.value.Frac? && decimals.Some?
    && RoundsTwiceTo(amount.value as real, ScaledBack(fl, number.value.r, decimals.value))
  }

  predicate NumberAgrees(fl: Float, balance: Json) {
    NumberNear(fl, AmountIn(balance), Get(balance, "uiAmount"), AsU8(Get(balance, "decimals")))
  }

  /** On doubles, the number in every served balance agrees with the string beside it to two roundings. */
  lemma {:induction false} ServedNumberAgrees(
    env: Env, pubkey: string, wallets: Wallets, before: AccountState, contextSlot: u64, json: Json)
    requires Ieee(env.float) && BalanceIn(json).Some?
    requires GetTokenAccountBalance(env, pubkey, wallets, before, contextSlot, Parsed(json)).Ok?
    ensures var r := GetTokenAccountBalance(env, pubkey, wallets, before, contextSlot, Parsed(json)).value;
            r.Parsed? && BalanceIn(r.json).Some? && NumberAgrees(env.float, BalanceIn(r.json).value)
  {
    BalanceIsOneSnapshot(env, pubkey, wallets, before, contextSlot, json);
    AmountIsU64(before.data, before.programOwner);
    var balance := BalanceIn(
      GetTokenAccountBalance(env, pubkey, wallets, before, contextSlot, Parsed(json)).value.json).value;
    QuotientIsNear(env.float, AmountIn(balance), Get(balance, "uiAmount"), AsU8(Get(balance, "decimals")));
  }

  lemma {:induction false} QuotientIsNear(fl: Float, amount: Option<nat>, number: Option<Json>, decimals: Option<u8>)
    requires Ieee(fl) && amount.Some? && amount.value <= U64_MAX && decimals.Some?
    requires number == Some(Frac(Quotient(fl, amount.value, decimals.value)))
    ensures NumberNear(fl, amount, number, decimals)
  {
    ServedIsClose(fl, amount.value, decimals.value, number.value.r);
  }

  /**
   * When a balance is served: a reply without one as it came; one with, exactly if the authorized bytes hold a
   * balance and the reply says its decimals and has a context to put the slot in.
   */
  lemma {:induction false} BalanceByCase(
    env: Env, pubkey: string, wallets: Wallets, before: AccountState, contextSlot: u64, reply: Body)
    ensures var r := GetTokenAccountBalance(env, pubkey, wallets, before, contextSlot, reply);
            match AccountAccess(env, wallets, before, pubkey, GET_TOKEN_ACCOUNT_BALANCE)
            case Denied(status) => r == Err(status)
            case Granted =>
              if reply.Raw? || BalanceIn(reply.json).None? then r == Ok(reply)
              else if && IsTokenProgram(before.programOwner) && IsTokenAccount(before.data)
                      && AsU8(Get(BalanceIn(reply.json).value, "decimals")).Some?
                      && ContextIn(reply.json).Some? && ContextIn(reply.json).value.Obj?
              then r.Ok? else r == Err(502)
  {
  }

  lemma {:induction false} WithResultHolds(json: Json, balance: Json, context: Json)
    requires BalanceIn(json).Some?
    ensures BalanceIn(WithResult(json, balance, context)) == Some(balance)
    ensures ContextIn(WithResult(json, balance, context)) == Some(context)
  {
  }

  lemma {:induction false} WithBalanceFields(fl: Float, balance: Json, amount: nat, decimals: u8)
    requires balance.Obj?
    ensures var r := WithBalance(fl, balance, amount, decimals);
            && Get(r, "amount") == Some(Str(Decimal(amount)))
            && Get(r, "uiAmount") == Some(Frac(Quotient(fl, amount, decimals)))
            && Get(r, "uiAmountString") == Some(Str(UiAmountString(amount, decimals)))
            && Get(r, "decimals") == Get(balance, "decimals")
  {
  }

  lemma {:induction false} PrintedFieldsShow(fl: Float, r: Json, amount: nat, decimals: u8)
    requires Get(r, "amount") == Some(Str(Decimal(amount)))
    requires Get(r, "uiAmount") == Some(Frac(Quotient(fl, amount, decimals)))
    requires Get(r, "uiAmountString") == Some(Str(UiAmountString(amount, decimals)))
    ensures Shows(fl, r, amount, decimals)
  {
    ParseWhole(amount);
    ParseUndoesPrint(amount, decimals);
  }

  lemma {:induction false} WithBalanceHolds(fl: Float, balance: Json, amount: nat, decimals: u8)
    requires balance.Obj?
    ensures var r := WithBalance(fl, balance, amount, decimals);
            Shows(fl, r, amount, decimals) && Get(r, "decimals") == Get(balance, "decimals")
  {
    WithBalanceFields(fl, balance, amount, decimals);
    PrintedFieldsShow(fl, WithBalance(fl, balance, amount, decimals), amount, decimals);
  }

  /** Two replies that agree but for the balance and slot the node read. */
  predicate SameButBalance(a: Json, b: Json) {
    && a.Obj? && b.Obj? && SameElsewhere(a.fields, b.fields, {"result"})
    && BalanceIn(a).Some? && BalanceIn(b).Some? && ContextIn(a).Some? && ContextIn(b).Some?
    && SameElsewhere(a.fields["result"].fields, b.fields["result"].fields, {"value", "context"})
    && BalanceIn(a).value.Obj? && BalanceIn(b).value.Obj?
    && SameElsewhere(BalanceIn(a).value.fields, BalanceIn(b).value.fields, {"amount", "uiAmount", "uiAmountString"})
    && ContextIn(a).value.Obj? && ContextIn(b).value.Obj?
    && SameElsewhere(ContextIn(a).value.fields, ContextIn(b).value.fields, {"slot"})
  }

  /** The balance and slot the forwarded read happened to see never reach the caller. */
  lemma {:induction false} NodeBalanceNeverReachesCaller(
    fl: Float, authorized: Option<nat>, contextSlot: u64, a: Json, b: Json)
    requires SameButBalance(a, b)
    ensures CheckBalance(fl, authorized, contextSlot, Parsed(a)) == CheckBalance(fl, authorized, contextSlot, Parsed(b))
  {
    var decimals := AsU8(Get(BalanceIn(a).value, "decimals"));
    if authorized.Some? && decimals.Some? {
      SameOnceBalanced(fl, BalanceIn(a).value, BalanceIn(b).value, authorized.value, decimals.value);
      var balance := WithBalance(fl, BalanceIn(a).value, authorized.value, decimals.value);
      var context := Set(ContextIn(a).value, "slot", Num(contextSlot));
      assert context.fields == Set(ContextIn(b).value, "slot", Num(contextSlot)).fields;
      SameOnceReplaced(a, b, balance, context);
    }
  }

  lemma {:induction false} SameOnceBalanced(fl: Float, a: Json, b: Json, amount: nat, decimals: u8)
    requires a.Obj? && b.Obj? && SameElsewhere(a.fields, b.fields, {"amount", "uiAmount", "uiAmountString"})
    ensures WithBalance(fl, a, amount, decimals) == WithBalance(fl, b, amount, decimals)
  {
    assert WithBalance(fl, a, amount, decimals).fields == WithBalance(fl, b, amount, decimals).fields;
  }

  lemma {:induction false} SameOnceReplaced(a: Json, b: Json, balance: Json, context: Json)
    requires SameButBalance(a, b)
    ensures WithResult(a, balance, context) == WithResult(b, balance, context)
  {
    var x := Set(Set(a.fields["result"], "value", balance), "context", context);
    var y := Set(Set(b.fields["result"], "value", balance), "context", context);
    assert x.fields == y.fields;
    assert Set(a, "result", x).fields == Set(b, "result", x).fields;
  }
}
