/**
 * One client call through the gateway (gateway/src/lib.rs, `enforce_auth` and what its policy does to the
 * request and the reply): who is asked about, what the node is asked, and what comes back.
 */
module GatewayCall {
  import opened Common
  import opened Json
  import opened TokenAccount
  import opened OwnerTimeline
  import opened OwnerChainRead
  import opened HistoryScope
  import opened Ownership
  import opened OutgoingRequest
  import opened Redaction
  import opened ResponseCheck
  import R = RoleCache

  const GET_SIGNATURES_FOR_ADDRESS := "getSignaturesForAddress"

  /** The ownership fetch. */
  datatype Fetch = Found(state: AccountState, contextSlot: u64) | NotFound | Unavailable

  /** Everything a call may consult: the auth database, the ledger's, and the node, as each would answer it. */
  datatype Backends = Backends(
    confirm: R.UserId -> R.Confirmation,
    fetch: string -> Fetch,
    wallets: R.UserId -> Wallets,
    recheck: R.UserId -> Wallets,
    chain: string -> Result<OwnerChain, DbError>,
    owned: R.UserId -> Result<set<Wallet>, DbError>)

  /** What a reply must be held to. */
  datatype Check = AccountBytes(user: R.UserId, check: AccountCheck)
    | AuthorizedBalance(amount: Option<nat>, contextSlot: u64)

  datatype CallPolicy = CallPolicy(redact: bool, windows: Option<seq<Window>>, check: Option<Check>)

  function ParamsIn(request: Json): Json {
    var params := Get(request, "params");
    if params.Some? then params.value else Null
  }

  /** `params[0]`, if the params are positional and it is a string. */
  function PubkeyIn(request: Json): Option<string> {
    var params := ParamsIn(request);
    if params.Arr? && params.items != [] && params.items[0].Str? then Some(params.items[0].s) else None
  }

  /** The request names the account first among positional params. */
  predicate Names(request: Json, pubkey: string) {
    && request.Obj? && "params" in request.fields && request.fields["params"].Arr?
    && |request.fields["params"].items| > 0 && request.fields["params"].items[0] == Str(pubkey)
  }

  function ConfirmationOf(b: Backends, claims: Option<R.Claims>): R.Confirmation {
    if claims.Some? && claims.value.sub.Some? then b.confirm(claims.value.sub.value) else R.Unreachable
  }

  /** `enforce_auth`. */
  function EnforceCall(
    env: Env, b: Backends, authOn: bool, claims: Option<R.Claims>, rpc: string, request: Json): Result<CallPolicy, int>
  {
    match R.EnforceAuth(authOn, claims, ConfirmationOf(b, claims), rpc, PubkeyIn(request))
    case Proceed(redact) => Ok(CallPolicy(redact, None, None))
    case Reject(status) => Err(status)
    case NeedsAccountFetch(user, pubkey, redact) =>
      match b.fetch(pubkey)
      case NotFound => Err(403)
      case Unavailable => Err(503)
      case Found(state, contextSlot) =>
        match AccountAccess(env, b.wallets(user), state, pubkey, rpc)
        case Denied(status) => Err(status)
        case Granted => Owned(env, b, user, pubkey, rpc, request, state, contextSlot, redact)
  }

  /** Its last step, for a caller who owns the account: the history windows, then what the reply is held to. */
  function Owned(
    env: Env, b: Backends, user: R.UserId, pubkey: string, rpc: string, request: Json, state: AccountState,
    contextSlot: u64, redact: bool): Result<CallPolicy, int>
  {
    var windows :=
      if rpc in OWNER_ONLY_METHODS then
        ResolveOwnedSlotRanges(env.keys, state.data, state.programOwner, pubkey, contextSlot, b.chain(pubkey),
                               b.owned(user))
      else Ok(None);
    if windows.Err? then Err(500)
    else if rpc == GET_ACCOUNT_INFO && AuthorityIsInData(env, state.programOwner) then
      match RequestedDataSlice(ParamsIn(request))
      case Err(status) => Err(status)
      case Ok(slice) =>
        Ok(CallPolicy(redact, windows.value, Some(AccountBytes(user, AccountCheck(pubkey, slice, state)))))
    else if rpc == GET_TOKEN_ACCOUNT_BALANCE then
      var amount := TokenAccountAmount(state.data, state.programOwner);
      Ok(CallPolicy(redact, windows.value, Some(AuthorizedBalance(amount, contextSlot))))
    else Ok(CallPolicy(redact, windows.value, None))
  }

  /** The request as it goes to the node. */
  function Forwarded(policy: CallPolicy, request: Json): Json {
    if policy.check.Some? && policy.check.value.AccountBytes? then AskForWholeBase64(request)
    else if policy.windows.Some? then ApplySlotRanges(request, policy.windows.value)
    else request
  }

  function RedactedBody(body: Body): Body {
    match body
    case Raw(_) => body
    case Parsed(json) => Parsed(Redacted(json))
  }

  function Checked(env: Env, b: Backends, policy: CallPolicy, rpc: string, reply: Body): Result<Body, int>
    requires SizedDecode(env)
  {
    match policy.check
    case None => Ok(reply)
    case Some(AccountBytes(user, check)) => CheckAccountBytes(env, b.recheck(user), check, rpc, reply)
    case Some(AuthorizedBalance(amount, contextSlot)) => CheckBalance(env.float, amount, contextSlot, reply)
  }

  /** The reply as it goes to the client. */
  function ServedReply(env: Env, b: Backends, policy: CallPolicy, rpc: string, reply: Body): Result<Body, int>
    requires SizedDecode(env)
  {
    var checked := Checked(env, b, policy, rpc, reply);
    if checked.Ok? && policy.redact then Ok(RedactedBody(checked.value)) else checked
  }

  /** The whole call; `node` answers whatever it is sent. */
  function Call(
    env: Env, b: Backends, authOn: bool, claims: Option<R.Claims>, rpc: string, request: Json,
    node: Json -> Body): Result<Body, int>
    requires SizedDecode(env)
  {
    match EnforceCall(env, b, authOn, claims, rpc, request)
    case Err(status) => Err(status)
    case Ok(policy) => ServedReply(env, b, policy, rpc, node(Forwarded(policy, request)))
  }

  // ---------------------------------------------------------------------------
  // Whose call it is
  // ---------------------------------------------------------------------------

  /** The two differ at most in what they say of other users and other accounts. */
  ghost predicate SameFor(a: Backends, b: Backends, user: R.UserId, pubkey: string) {
    && a.confirm(user) == b.confirm(user) && a.wallets(user) == b.wallets(user)
    && a.recheck(user) == b.recheck(user) && a.owned(user) == b.owned(user)
    && a.fetch(pubkey) == b.fetch(pubkey) && a.chain(pubkey) == b.chain(pubkey)
  }

  /** A call depends on nothing about users other than its caller, nor about accounts other than the one it names. */
  lemma {:induction false} CallIsItsCallersOwn(
    env: Env, a: Backends, b: Backends, authOn: bool, claims: Option<R.Claims>, rpc: string, request: Json,
    node: Json -> Body)
    requires SizedDecode(env)
    requires claims.Some? && claims.value.sub.Some? && PubkeyIn(request).Some?
             ==> SameFor(a, b, claims.value.sub.value, PubkeyIn(request).value)
    requires claims.Some? && claims.value.sub.Some?
             ==> a.confirm(claims.value.sub.value) == b.confirm(claims.value.sub.value)
    ensures Call(env, a, authOn, claims, rpc, request, node) == Call(env, b, authOn, claims, rpc, request, node)
  {
    var policy := EnforceCall(env, a, authOn, claims, rpc, request);
    PolicyIsItsCallersOwn(env, a, b, authOn, claims, rpc, request);
    if policy.Ok? {
      ServedToItsCaller(env, a, b, policy.value, rpc, node(Forwarded(policy.value, request)));
    }
  }

  lemma {:induction false} ServedToItsCaller(
    env: Env, a: Backends, b: Backends, policy: CallPolicy, rpc: string, reply: Body)
    requires SizedDecode(env)
    requires policy.check.Some? && policy.check.value.AccountBytes?
             ==> a.recheck(policy.check.value.user) == b.recheck(policy.check.value.user)
    ensures ServedReply(env, a, policy, rpc, reply) == ServedReply(env, b, policy, rpc, reply)
  {
  }

  lemma {:induction false} PolicyIsItsCallersOwn(
    env: Env, a: Backends, b: Backends, authOn: bool, claims: Option<R.Claims>, rpc: string, request: Json)
    requires claims.Some? && claims.value.sub.Some? && PubkeyIn(request).Some?
             ==> SameFor(a, b, claims.value.sub.value, PubkeyIn(request).value)
    requires claims.Some? && claims.value.sub.Some?
             ==> a.confirm(claims.value.sub.value) == b.confirm(claims.value.sub.value)
    ensures var policy := EnforceCall(env, a, authOn, claims, rpc, request);
            && EnforceCall(env, b, authOn, claims, rpc, request) == policy
            && (policy.Ok? && policy.value.check.Some? && policy.value.check.value.AccountBytes? ==>
                  && claims.Some? && PubkeyIn(request).Some?
                  && claims.value.sub == Some(policy.value.check.value.user))
  {
  }

  /** A claim that passes for a User's and names one. */
  predicate CallsAsUser(b: Backends, claims: Option<R.Claims>, user: R.UserId) {
    claims.Some? && claims.value.sub == Some(user) && R.CountsAsUser(claims.value, b.confirm(user))
  }

  /**
   * What a User's call on an account comes to, by what the fetch found: nothing without the account, nothing
   * the user's own wallets do not open, and otherwise the policy for an account they own.
   */
  lemma {:induction false} UserCallByFetch(
    env: Env, b: Backends, claims: Option<R.Claims>, user: R.UserId, rpc: string, request: Json, pubkey: string)
    requires CallsAsUser(b, claims, user) && rpc in R.ACCOUNT_GATED_METHODS && Names(request, pubkey)
    ensures var r := EnforceCall(env, b, true, claims, rpc, request);
            match b.fetch(pubkey)
            case NotFound => r == Err(403)
            case Unavailable => r == Err(503)
            case Found(state, slot) =>
              && (r.Ok? ==> AccountAccess(env, b.wallets(user), state, pubkey, rpc).Granted?)
              && (AccountAccess(env, b.wallets(user), state, pubkey, rpc).Granted? ==>
                    r == Owned(env, b, user, pubkey, rpc, request, state, slot, rpc == GET_SIGNATURES_FOR_ADDRESS))
              && (AccountAccess(env, b.wallets(user), state, pubkey, rpc).Denied? ==>
                    r == Err(AccountAccess(env, b.wallets(user), state, pubkey, rpc).status))
  {
    R.GatedCallByCaller(claims, b.confirm(user), rpc, Some(pubkey));
  }

  // ---------------------------------------------------------------------------
  // What a User's call reads
  // ---------------------------------------------------------------------------

  /** Whether the node may return a row of slot `s` to this request. */
  ghost predicate NodeReturns(request: Json, s: int) {
    match NodeScope(request)
    case Unscoped => true
    case Scoped(windows) => InWindows(s, windows)
    case Malformed => false
  }

  /** A User's history call on a token account never reaches the node without a scope, and that is the resolved one. */
  lemma {:induction false} UserHistoryIsScoped(
    env: Env, b: Backends, claims: Option<R.Claims>, user: R.UserId, request: Json, pubkey: string)
    requires CallsAsUser(b, claims, user) && Names(request, pubkey) && b.fetch(pubkey).Found?
    requires var state := b.fetch(pubkey).state; IsTokenProgram(state.programOwner) && IsTokenAccount(state.data)
    ensures var Found(state, slot) := b.fetch(pubkey);
            var policy := EnforceCall(env, b, true, claims, GET_SIGNATURES_FOR_ADDRESS, request);
            var windows := ResolveOwnedSlotRanges(
              env.keys, state.data, state.programOwner, pubkey, slot, b.chain(pubkey), b.owned(user));
            && (policy.Ok? ==>
                  && windows.Ok? && windows.value.Some? && policy.value.redact
                  && NodeScope(Forwarded(policy.value, request)) == Scoped(windows.value.value))
            && (policy.Ok? <==> b.wallets(user)(OwnerOf(env.keys, state.data)) == Some(true) && windows.Ok?)
            && (b.wallets(user)(OwnerOf(env.keys, state.data)) == Some(true) && windows.Err? ==> policy == Err(500))
  {
    var Found(state, slot) := b.fetch(pubkey);
    UserCallByFetch(env, b, claims, user, GET_SIGNATURES_FOR_ADDRESS, request, pubkey);
    DelegateNeverOpensHistory(env, b.wallets(user), state, pubkey, GET_SIGNATURES_FOR_ADDRESS);
    ScopeByCase(env.keys, state.data, state.programOwner, pubkey, slot, b.chain(pubkey), b.owned(user));
    var windows := ResolveOwnedSlotRanges(
      env.keys, state.data, state.programOwner, pubkey, slot, b.chain(pubkey), b.owned(user));
    if windows.Ok? {
      NodeReadsWindows(request, windows.value.value);
    }
  }

  /**
   * End to end: of a token account they own, a User's history call lets the node return exactly the rows of the
   * covered slots at which one of their wallets held it, handoffs apart, or none if the chain does not link up.
   */
  lemma {:induction false} UserReadsOwnHistory(
    env: Env, b: Backends, claims: Option<R.Claims>, user: R.UserId, request: Json, pubkey: string,
    chain: OwnerChain, wallets: set<Wallet>, early: seq<OwnerChange>, l: Ledger, coverage: Coverage, readAt: int,
    s: int)
    requires CallsAsUser(b, claims, user) && Names(request, pubkey) && b.fetch(pubkey).Found?
    requires b.chain(pubkey) == Ok(chain) && b.owned(user) == Ok(wallets)
    requires forall w :: b.wallets(user)(w) == Some(w in wallets)
    requires ValidLedger(l) && OneSnapshot(chain, early, l, coverage) && b.fetch(pubkey).contextSlot <= I64_MAX
    requires var state := b.fetch(pubkey).state;
             && OwnedAccount(env.keys, state.data, state.programOwner, pubkey, l, wallets)
             && BytesVouch(l, coverage, OwnerOf(env.keys, state.data), readAt)
    ensures var Found(state, slot) := b.fetch(pubkey);
            var policy := EnforceCall(env, b, true, claims, GET_SIGNATURES_FOR_ADDRESS, request);
            && policy.Ok?
            && (NodeReturns(Forwarded(policy.value, request), s) <==>
                  && Accepted(env.keys, state.data, state.programOwner, pubkey, chain.changes)
                  && Readable(l, wallets, coverage, slot, chain.changes, s))
  {
    var Found(state, slot) := b.fetch(pubkey);
    UserHistoryIsScoped(env, b, claims, user, request, pubkey);
    HistoryWindowsExact(env.keys, state.data, state.programOwner, pubkey, slot, chain, wallets, early, l, coverage,
                        readAt, s);
  }

  /** A gated call that names no account is a bad request of a User's, and one without a user id unauthorized. */
  lemma {:induction false} NamelessCallsAreRefused(
    env: Env, b: Backends, claims: R.Claims, rpc: string, request: Json)
    requires rpc in R.ACCOUNT_GATED_METHODS && claims.role.User?
    ensures var r := EnforceCall(env, b, true, Some(claims), rpc, request);
            && ((forall pubkey :: !Names(request, pubkey)) ==> r == Err(400))
            && (claims.sub.None? && (exists pubkey :: Names(request, pubkey)) ==> r == Err(401))
  {
    assert PubkeyIn(request).Some? ==> Names(request, PubkeyIn(request).value);
  }

  /** A User's account read is the held read of `ResponseCheck`, of the whole account where its bytes decide. */
  lemma {:induction false} UserAccountIsHeld(
    env: Env, b: Backends, claims: Option<R.Claims>, user: R.UserId, request: Json, pubkey: string,
    node: Json -> Body)
    requires SizedDecode(env)
    requires CallsAsUser(b, claims, user) && Names(request, pubkey) && b.fetch(pubkey).Found?
    ensures var state := b.fetch(pubkey).state;
            var asked := if IsTokenProgram(state.programOwner) || state.programOwner == env.dvpProgram
              then AskForWholeBase64(request) else request;
            Call(env, b, true, claims, GET_ACCOUNT_INFO, request, node)
            == GetAccountInfo(env, pubkey, ParamsIn(request), b.wallets(user), state, b.recheck(user), node(asked))
  {
    UserCallByFetch(env, b, claims, user, GET_ACCOUNT_INFO, request, pubkey);
  }

  /** A User's balance read is that of `ResponseCheck`, asked as the caller asked it. */
  lemma {:induction false} UserBalanceIsHeld(
    env: Env, b: Backends, claims: Option<R.Claims>, user: R.UserId, request: Json, pubkey: string,
    node: Json -> Body)
    requires SizedDecode(env)
    requires CallsAsUser(b, claims, user) && Names(request, pubkey) && b.fetch(pubkey).Found?
    ensures var Found(state, slot) := b.fetch(pubkey);
            Call(env, b, true, claims, GET_TOKEN_ACCOUNT_BALANCE, request, node)
            == GetTokenAccountBalance(env, pubkey, b.wallets(user), state, slot, node(request))
  {
    UserCallByFetch(env, b, claims, user, GET_TOKEN_ACCOUNT_BALANCE, request, pubkey);
  }

  predicate AlikeButErrors(x: Body, y: Body) {
    x == y || (x.Parsed? && y.Parsed? && SameButErrors(x.json, y.json))
  }

  /** None but a confirmed operator sees what a transaction failed on: replies alike but for errors are served alike. */
  lemma {:induction false} ErrorsReachOperatorsOnly(
    env: Env, b: Backends, claims: Option<R.Claims>, rpc: string, request: Json, x: Json -> Body, y: Json -> Body)
    requires SizedDecode(env) && rpc in R.ERROR_BEARING_METHODS
    requires !(&& claims.Some? && claims.value.role.Operator? && claims.value.sub.Some?
               && b.confirm(claims.value.sub.value) == R.Confirmed(true))
    requires forall q :: AlikeButErrors(x(q), y(q))
    ensures Call(env, b, true, claims, rpc, request, x) == Call(env, b, true, claims, rpc, request, y)
  {
    var policy := EnforceCall(env, b, true, claims, rpc, request);
    UnprivilegedIsRedacted(env, b, claims, rpc, request);
    if policy.Ok? {
      var q := Forwarded(policy.value, request);
      assert AlikeButErrors(x(q), y(q));
      RedactedAlike(env, b, policy.value, rpc, x(q), y(q));
    }
  }

  lemma {:induction false} RedactedAlike(env: Env, b: Backends, policy: CallPolicy, rpc: string, x: Body, y: Body)
    requires SizedDecode(env) && policy.redact && policy.check.None? && AlikeButErrors(x, y)
    ensures ServedReply(env, b, policy, rpc, x) == ServedReply(env, b, policy, rpc, y)
  {
    if x != y {
      RedactionIsNonInterference(x.json, y.json);
    }
  }

  lemma {:induction false} UnprivilegedIsRedacted(
    env: Env, b: Backends, claims: Option<R.Claims>, rpc: string, request: Json)
    requires rpc in R.ERROR_BEARING_METHODS
    requires !(&& claims.Some? && claims.value.role.Operator? && claims.value.sub.Some?
               && b.confirm(claims.value.sub.value) == R.Confirmed(true))
    ensures var policy := EnforceCall(env, b, true, claims, rpc, request);
            policy.Ok? ==> policy.value.redact && policy.value.check.None?
  {
    R.PrivilegeIffConfirmedOperator(claims, ConfirmationOf(b, claims), rpc, PubkeyIn(request));
  }

  /** Whom the gateway lets through at all, it forwards and serves unchanged when it is no User's gated call. */
  lemma {:induction false} OperatorsAndPublicPassThrough(
    env: Env, b: Backends, claims: Option<R.Claims>, rpc: string, request: Json, node: Json -> Body)
    requires SizedDecode(env)
    requires || (!R.IsGated(rpc) && rpc !in R.ERROR_BEARING_METHODS)
             || (&& claims.Some? && claims.value.role.Operator? && claims.value.sub.Some?
                 && b.confirm(claims.value.sub.value) == R.Confirmed(true))
    ensures Call(env, b, true, claims, rpc, request, node) == Ok(node(request))
    ensures Call(env, b, false, claims, rpc, request, node) == Ok(node(request))
  {
    if R.IsGated(rpc) || rpc in R.ERROR_BEARING_METHODS {
      R.ConfirmedOperatorPasses(claims.value.sub.value, rpc, PubkeyIn(request));
    }
  }
}
