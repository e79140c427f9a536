/**
 * Sending and confirming setup transactions (bench-tps/src/rpc.rs, bench-tps/src/setup.rs): chunked
 * sends, polling until every signature settles or the deadline passes, and rounds of retries.
 */
module Confirmations {
  import opened Common

  type Account = nat
  type Signature = nat

  const MAX_CONCURRENT_SENDS: nat := 64
  const SIG_STATUS_CHUNK_SIZE: nat := 256
  const SETUP_BATCH_SIZE: nat := 200

  /** Milliseconds. */
  const CONFIRM_TIMEOUT := 120_000
  const POLL_INTERVAL := 500

  /** A signature's status: not visible yet, failed on-chain, or landed without error. */
  datatype Status = Unseen | Failed | Landed

  /**
   * The node, as one run meets it: what sending for an account in the `b`-th batch returned, what the
   * `c`-th status call of poll `t` returned (none is an RPC error), and the clock after poll `t`.
   */
  datatype Net = Net(
    send: (nat, Account) -> Option<Signature>,
    ask: (nat, nat, nat, seq<Signature>) -> Option<seq<Status>>,
    now: (nat, nat) -> int)

  /** Polls are at least an interval apart: the loop sleeps between them. */
  ghost predicate ClockAdvances(net: Net) {
    forall b: nat, t: nat, u: nat :: u == t + 1 ==> net.now(b, t) + POLL_INTERVAL <= net.now(b, u)
  }

  /** The `chunk`-th status call of a poll, and the signatures it asks about. */
  datatype StatusCall = StatusCall(poll: nat, chunk: nat, asked: seq<Signature>)

  function Answer(net: Net, b: nat, call: StatusCall): Option<seq<Status>> {
    net.ask(b, call.poll, call.chunk, call.asked)
  }

  /** The call was answered with a status for every signature. */
  predicate AnsweredInFull(net: Net, b: nat, call: StatusCall) {
    Answer(net, b, call).Some? && |call.asked| <= |Answer(net, b, call).value|
  }

  ghost predicate AllInFull(net: Net, b: nat, made: set<StatusCall>) {
    forall call :: call in made ==> AnsweredInFull(net, b, call)
  }

  /** Some call of those made, in poll `t`, reported this status of this signature. */
  ghost predicate ReportedAt(net: Net, b: nat, made: set<StatusCall>, t: nat, sig: Signature, status: Status) {
    exists call, k: nat :: call in made && call.poll == t && Reports(net, b, call, k, sig, status)
  }

  ghost predicate Reported(net: Net, b: nat, made: set<StatusCall>, sig: Signature, status: Status) {
    exists t: nat :: ReportedAt(net, b, made, t, sig, status)
  }

  predicate Reports(net: Net, b: nat, call: StatusCall, k: nat, sig: Signature, status: Status) {
    && Answer(net, b, call).Some?
    && k < |call.asked| && k < |Answer(net, b, call).value|
    && call.asked[k] == sig && Answer(net, b, call).value[k] == status
  }

  // ---------------------------------------------------------------------------
  // Sending
  // ---------------------------------------------------------------------------

  /** `send_parallel`: slots filled chunk by chunk, each at its own account's index. */
  method SendParallel(net: Net, b: nat, accounts: seq<Account>) returns (r: seq<Option<Signature>>)
    ensures |r| == |accounts|
    ensures forall i :: 0 <= i < |r| ==> r[i] == net.send(b, accounts[i])
  {
    var results := new Option<Signature>[|accounts|](_ => None);
    var chunkStart := 0;
    while chunkStart * MAX_CONCURRENT_SENDS < |accounts|
      invariant forall i :: 0 <= i < |accounts| ==>
                  results[i] == if i < chunkStart * MAX_CONCURRENT_SENDS then net.send(b, accounts[i]) else None
      decreases |accounts| - chunkStart * MAX_CONCURRENT_SENDS
    {
      var offset := chunkStart * MAX_CONCURRENT_SENDS;
      var chunk := accounts[offset..Min(offset + MAX_CONCURRENT_SENDS, |accounts|)];
      for i := 0 to |chunk|
        invariant forall j :: 0 <= j < |accounts| ==>
                    results[j] == if j < offset + i then net.send(b, accounts[j]) else None
      {
        var sent := net.send(b, chunk[i]);
        if sent.Some? {
          results[offset + i] := sent;
        }
      }
      chunkStart := chunkStart + 1;
    }
    r := results[..];
  }

  // ---------------------------------------------------------------------------
  // Polling
  // ---------------------------------------------------------------------------

  /** An index still waited for, with the signature sent at it. */
  datatype Entry = Entry(index: nat, sig: Signature)

  function Indexes(entries: seq<Entry>): seq<nat> {
    seq(|entries|, i requires 0 <= i < |entries| => entries[i].index)
  }

  function Signatures(entries: seq<Entry>): seq<Signature> {
    seq(|entries|, i requires 0 <= i < |entries| => entries[i].sig)
  }

  /** Where entries have gone: still pending, to be retried, landed, or lost track of. */
  datatype Tally = Tally(still: seq<Entry>, retry: seq<nat>, landed: seq<nat>, lost: seq<nat>)

  const NOTHING := Tally([], [], [], [])

  function Join(a: Tally, b: Tally): Tally {
    Tally(a.still + b.still, a.retry + b.retry, a.landed + b.landed, a.lost + b.lost)
  }

  function SweptOne(e: Entry, status: Status): Tally {
    match status
    case Unseen => Tally([e], [], [], [])
    case Failed => Tally([], [e.index], [], [])
    case Landed => Tally([], [], [e.index], [])
  }

  function SweptFirst(chunk: seq<Entry>, statuses: seq<Status>, k: nat): Tally
    requires k <= |chunk| && k <= |statuses|
  {
    if k == 0 then NOTHING else Join(SweptFirst(chunk, statuses, k - 1), SweptOne(chunk[k - 1], statuses[k - 1]))
  }

  /** One chunk against its statuses, as far as both reach; entries past the last status are lost. */
  function Swept(chunk: seq<Entry>, statuses: seq<Status>): Tally {
    var reached := Min(|chunk|, |statuses|);
    SweptFirst(chunk, statuses, reached).(lost := Indexes(chunk[reached..]))
  }

  /** One poll over all that is pending, a chunk at a time; none on an RPC error. */
  function Polled(net: Net, b: nat, t: nat, c: nat, pending: seq<Entry>): Option<Tally>
    decreases |pending|
  {
    if pending == [] then Some(NOTHING)
    else
      var n := Min(SIG_STATUS_CHUNK_SIZE, |pending|);
      var statuses := net.ask(b, t, c, Signatures(pending[..n]));
      if statuses.None? then None
      else
        var rest := Polled(net, b, t, c + 1, pending[n..]);
        if rest.None? then None else Some(Join(Swept(pending[..n], statuses.value), rest.value))
  }

  /** Polls until nothing is pending or the deadline passes, when what is pending is to be retried. */
  ghost function Awaited(net: Net, b: nat, t: nat, deadline: int, pending: seq<Entry>): Option<Tally>
    requires ClockAdvances(net)
    decreases deadline - net.now(b, t + 1)
  {
    if pending == [] then Some(NOTHING)
    else
      var polled := Polled(net, b, t, 0, pending);
      if polled.None? then None
      else if polled.value.still == [] then polled
      else if net.now(b, t + 1) >= deadline then
        Some(polled.value.(still := [], retry := polled.value.retry + Indexes(polled.value.still)))
      else
        var rest := Awaited(net, b, t + 1, deadline, polled.value.still);
        if rest.None? then None else Some(Join(polled.value.(still := []), rest.value))
  }

  function Unsent(sigs: seq<Option<Signature>>, n: nat): seq<nat>
    requires n <= |sigs|
  {
    if n == 0 then [] else Unsent(sigs, n - 1) + if sigs[n - 1].None? then [n - 1] else []
  }

  function Sent(sigs: seq<Option<Signature>>, n: nat): seq<Entry>
    requires n <= |sigs|
  {
    if n == 0 then [] else Sent(sigs, n - 1) + if sigs[n - 1].Some? then [Entry(n - 1, sigs[n - 1].value)] else []
  }

  ghost function Confirmed(net: Net, b: nat, sigs: seq<Option<Signature>>): Option<Tally>
    requires ClockAdvances(net)
  {
    var awaited := Awaited(net, b, 0, net.now(b, 0) + CONFIRM_TIMEOUT, Sent(sigs, |sigs|));
    if awaited.None? then None else Some(Join(Tally([], Unsent(sigs, |sigs|), [], []), awaited.value))
  }

  /** The status calls one poll makes, up to the first that fails. */
  function PollCalls(net: Net, b: nat, t: nat, c: nat, pending: seq<Entry>): set<StatusCall>
    decreases |pending|
  {
    if pending == [] then {}
    else
      var n := Min(SIG_STATUS_CHUNK_SIZE, |pending|);
      var call := StatusCall(t, c, Signatures(pending[..n]));
      {call} + if Answer(net, b, call).None? then {} else PollCalls(net, b, t, c + 1, pending[n..])
  }

  /** The status calls all the polls make. */
  ghost function AwaitCalls(net: Net, b: nat, t: nat, deadline: int, pending: seq<Entry>): set<StatusCall>
    requires ClockAdvances(net)
    decreases deadline - net.now(b, t + 1)
  {
    var polled := Polled(net, b, t, 0, pending);
    PollCalls(net, b, t, 0, pending)
    + if pending == [] || polled.None? || polled.value.still == [] || net.now(b, t + 1) >= deadline then {}
      else AwaitCalls(net, b, t + 1, deadline, polled.value.still)
  }

  /** The status calls `poll_confirmations` makes. */
  ghost function CallsMade(net: Net, b: nat, sigs: seq<Option<Signature>>): set<StatusCall>
    requires ClockAdvances(net)
  {
    AwaitCalls(net, b, 0, net.now(b, 0) + CONFIRM_TIMEOUT, Sent(sigs, |sigs|))
  }

  method SweepChunk(chunk: seq<Entry>, statuses: seq<Status>) returns (still: seq<Entry>, failed: seq<nat>)
    ensures still == Swept(chunk, statuses).still && failed == Swept(chunk, statuses).retry
  {
    still, failed := [], [];
    for k := 0 to Min(|chunk|, |statuses|)
      invariant still == SweptFirst(chunk, statuses, k).still && failed == SweptFirst(chunk, statuses, k).retry
    {
      match statuses[k]
      case Unseen => still := still + [chunk[k]];
      case Failed => failed := failed + [chunk[k].index];
      case Landed =>
    }
    assert Swept(chunk, statuses).still == SweptFirst(chunk, statuses, Min(|chunk|, |statuses|)).still;
  }

  lemma {:induction false} PolledStep(net: Net, b: nat, t: nat, c: nat, pending: seq<Entry>, offset: nat, end: nat)
    requires offset < |pending| && end == Min(offset + SIG_STATUS_CHUNK_SIZE, |pending|)
    ensures var chunk := pending[offset..end];
            var statuses := net.ask(b, t, c, Signatures(chunk));
            var rest := Polled(net, b, t, c + 1, pending[end..]);
            Polled(net, b, t, c, pending[offset..])
            == if statuses.None? || rest.None? then None else Some(Join(Swept(chunk, statuses.value), rest.value))
  {
    var from := pending[offset..];
    assert from[..end - offset] == pending[offset..end] && from[end - offset..] == pending[end..];
  }

  method PollOnce(net: Net, b: nat, t: nat, pending: seq<Entry>) returns (ok: bool, still: seq<Entry>, failed: seq<nat>)
    ensures ok <==> Polled(net, b, t, 0, pending).Some?
    ensures ok ==> still == Polled(net, b, t, 0, pending).value.still
    ensures ok ==> failed == Polled(net, b, t, 0, pending).value.retry
  {
    ok, still, failed := true, [], [];
    var offset, c := 0, 0;
    while offset < |pending|
      invariant offset <= |pending|
      invariant Ahead(still, failed, Polled(net, b, t, c, pending[offset..]))
                == Ahead([], [], Polled(net, b, t, 0, pending))
    {
      var end := Min(offset + SIG_STATUS_CHUNK_SIZE, |pending|);
      var chunk := pending[offset..end];
      PolledStep(net, b, t, c, pending, offset, end);
      var statuses := net.ask(b, t, c, Signatures(chunk));
      if statuses.None? {
        return false, [], [];
      }
      var s, f := SweepChunk(chunk, statuses.value);
      AheadStep(still, failed, Swept(chunk, statuses.value), Polled(net, b, t, c + 1, pending[end..]));
      still, failed := still + s, failed + f;
      offset, c := end, c + 1;
    }
    AheadOfNothing(still, failed, Polled(net, b, t, 0, pending));
  }

  /** What a method has gathered so far, ahead of what is to come. */
  function Ahead(still: seq<Entry>, retry: seq<nat>, rest: Option<Tally>): Option<(seq<Entry>, seq<nat>)> {
    if rest.None? then None else Some((still + rest.value.still, retry + rest.value.retry))
  }

  lemma {:induction false} AheadOfNothing(still: seq<Entry>, retry: seq<nat>, all: Option<Tally>)
    requires Ahead(still, retry, Some(NOTHING)) == Ahead([], [], all)
    ensures all.Some? && still == all.value.still && retry == all.value.retry
  {
    assert still + [] == still && retry + [] == retry;
    assert [] + all.value.still == all.value.still && [] + all.value.retry == all.value.retry;
  }

  lemma {:induction false} AheadStep(still: seq<Entry>, retry: seq<nat>, now: Tally, rest: Option<Tally>)
    ensures Ahead(still, retry, if rest.None? then None else Some(Join(now, rest.value)))
            == Ahead(still + now.still, retry + now.retry, rest)
  {
    if rest.Some? {
      assert still + (now.still + rest.value.still) == (still + now.still) + rest.value.still;
      assert retry + (now.retry + rest.value.retry) == (retry + now.retry) + rest.value.retry;
    }
  }

  lemma {:induction false} AwaitedStep(net: Net, b: nat, t: nat, deadline: int, pending: seq<Entry>, retry: seq<nat>)
    requires ClockAdvances(net) && pending != [] && Polled(net, b, t, 0, pending).Some?
    ensures var y := Polled(net, b, t, 0, pending).value;
            var late := y.still != [] && net.now(b, t + 1) >= deadline;
            Ahead([], retry, Awaited(net, b, t, deadline, pending))
            == Ahead([], if late then retry + y.retry + Indexes(y.still) else retry + y.retry,
                     Awaited(net, b, t + 1, deadline, if late then [] else y.still))
  {
    var y := Polled(net, b, t, 0, pending).value;
    if y.still == [] {
      assert Awaited(net, b, t, deadline, pending) == Some(y);
      assert Awaited(net, b, t + 1, deadline, []) == Some(NOTHING);
      assert retry + y.retry == (retry + y.retry) + [];
    } else if net.now(b, t + 1) >= deadline {
      assert retry + (y.retry + Indexes(y.still)) == ((retry + y.retry) + Indexes(y.still)) + [];
    } else {
      AheadStep([], retry, y.(still := []), Awaited(net, b, t + 1, deadline, y.still));
      var none: seq<Entry> := [];
      assert none + none == none;
    }
  }

  /** `poll_confirmations`. */
  method PollConfirmations(net: Net, b: nat, sigs: seq<Option<Signature>>) returns (ok: bool, retry: seq<nat>)
    requires ClockAdvances(net)
    ensures ok <==> Confirmed(net, b, sigs).Some?
    ensures ok ==> retry == Confirmed(net, b, sigs).value.retry
  {
    var pending: seq<Entry> := [];
    retry := [];
    for i := 0 to |sigs|
      invariant retry == Unsent(sigs, i) && pending == Sent(sigs, i)
    {
      if sigs[i].None? {
        retry := retry + [i];
      } else {
        pending := pending + [Entry(i, sigs[i].value)];
      }
    }
    ok := true;
    var t := 0;
    var deadline := net.now(b, 0) + CONFIRM_TIMEOUT;
    while pending != []
      invariant Ahead([], retry, Awaited(net, b, t, deadline, pending))
                == Ahead([], Unsent(sigs, |sigs|), Awaited(net, b, 0, deadline, Sent(sigs, |sigs|)))
      decreases pending != [], deadline - net.now(b, t + 1)
    {
      var still, failed;
      ok, still, failed := PollOnce(net, b, t, pending);
      if !ok {
        return;
      }
      AwaitedStep(net, b, t, deadline, pending, retry);
      retry, pending := retry + failed, still;
      if pending != [] && net.now(b, t + 1) >= deadline {
        retry, pending := retry + Indexes(pending), [];
      }
      t := t + 1;
    }
  }

  // ---------------------------------------------------------------------------
  // Every index ends in exactly one place
  // ---------------------------------------------------------------------------

  function Count(s: seq<nat>, x: nat): nat {
    if s == [] then 0 else Count(s[..|s| - 1], x) + if s[|s| - 1] == x then 1 else 0
  }

  lemma {:induction false} CountAppend(a: seq<nat>, b: seq<nat>, x: nat)
    ensures Count(a + b, x) == Count(a, x) + Count(b, x)
  {
    if b == [] {
      assert a + b == a;
    } else {
      assert (a + b)[..|a + b| - 1] == a + b[..|b| - 1];
      CountAppend(a, b[..|b| - 1], x);
    }
  }

  function Total(y: Tally, x: nat): nat {
    Count(Indexes(y.still), x) + Count(y.retry, x) + Count(y.landed, x) + Count(y.lost, x)
  }

  function Size(y: Tally): nat {
    |y.still| + |y.retry| + |y.landed| + |y.lost|
  }

  lemma {:induction false} TotalJoin(a: Tally, b: Tally, x: nat)
    ensures Total(Join(a, b), x) == Total(a, x) + Total(b, x)
  {
    assert Indexes(a.still + b.still) == Indexes(a.still) + Indexes(b.still);
    CountAppend(Indexes(a.still), Indexes(b.still), x);
    CountAppend(a.retry, b.retry, x);
    CountAppend(a.landed, b.landed, x);
    CountAppend(a.lost, b.lost, x);
  }

  lemma {:induction false} SweptOneTotal(e: Entry, status: Status, x: nat)
    ensures Total(SweptOne(e, status), x) == Count([e.index], x)
  {
    assert Indexes([e]) == [e.index];
  }

  lemma {:induction false} SweptFirstTotal(chunk: seq<Entry>, statuses: seq<Status>, k: nat, x: nat)
    requires k <= |chunk| && k <= |statuses|
    ensures Total(SweptFirst(chunk, statuses, k), x) == Count(Indexes(chunk[..k]), x)
  {
    if k > 0 {
      var entry := chunk[k - 1];
      SweptFirstTotal(chunk, statuses, k - 1, x);
      TotalJoin(SweptFirst(chunk, statuses, k - 1), SweptOne(entry, statuses[k - 1]), x);
      SweptOneTotal(entry, statuses[k - 1], x);
      IndexesPush(chunk[..k - 1], entry, x);
      assert chunk[..k] == chunk[..k - 1] + [entry];
    }
  }

  lemma {:induction false} IndexesSplit(entries: seq<Entry>, n: nat, x: nat)
    requires n <= |entries|
    ensures Count(Indexes(entries), x) == Count(Indexes(entries[..n]), x) + Count(Indexes(entries[n..]), x)
  {
    assert Indexes(entries) == Indexes(entries[..n]) + Indexes(entries[n..]);
    CountAppend(Indexes(entries[..n]), Indexes(entries[n..]), x);
  }

  lemma {:induction false} IndexesPush(entries: seq<Entry>, e: Entry, x: nat)
    ensures Count(Indexes(entries + [e]), x) == Count(Indexes(entries), x) + Count([e.index], x)
  {
    assert Indexes(entries + [e]) == Indexes(entries) + [e.index];
    CountAppend(Indexes(entries), [e.index], x);
  }

  lemma {:induction false} SweptFirstLosesNone(chunk: seq<Entry>, statuses: seq<Status>, k: nat)
    requires k <= |chunk| && k <= |statuses|
    ensures SweptFirst(chunk, statuses, k).lost == []
    ensures Size(SweptFirst(chunk, statuses, k)) == k
  {
    if k > 0 {
      SweptFirstLosesNone(chunk, statuses, k - 1);
    }
  }

  lemma {:induction false} SweptTotal(chunk: seq<Entry>, statuses: seq<Status>, x: nat)
    ensures Total(Swept(chunk, statuses), x) == Count(Indexes(chunk), x)
    ensures Size(Swept(chunk, statuses)) == |chunk|
  {
    var reached := Min(|chunk|, |statuses|);
    SweptFirstTotal(chunk, statuses, reached, x);
    SweptFirstLosesNone(chunk, statuses, reached);
    IndexesSplit(chunk, reached, x);
  }

  lemma {:induction false} PolledTotal(net: Net, b: nat, t: nat, c: nat, pending: seq<Entry>, x: nat)
    requires Polled(net, b, t, c, pending).Some?
    ensures Total(Polled(net, b, t, c, pending).value, x) == Count(Indexes(pending), x)
    ensures Size(Polled(net, b, t, c, pending).value) == |pending|
    decreases |pending|
  {
    if pending != [] {
      var n := Min(SIG_STATUS_CHUNK_SIZE, |pending|);
      var statuses := net.ask(b, t, c, Signatures(pending[..n])).value;
      var rest := Polled(net, b, t, c + 1, pending[n..]).value;
      PolledTotal(net, b, t, c + 1, pending[n..], x);
      SweptTotal(pending[..n], statuses, x);
      TotalJoin(Swept(pending[..n], statuses), rest, x);
      IndexesSplit(pending, n, x);
    }
  }

  lemma {:induction false} AwaitedTotal(net: Net, b: nat, t: nat, deadline: int, pending: seq<Entry>, x: nat)
    requires ClockAdvances(net) && Awaited(net, b, t, deadline, pending).Some?
    ensures var y := Awaited(net, b, t, deadline, pending).value;
            y.still == [] && Total(y, x) == Count(Indexes(pending), x) && Size(y) == |pending|
    decreases deadline - net.now(b, t + 1)
  {
    if pending != [] {
      var polled := Polled(net, b, t, 0, pending).value;
      PolledTotal(net, b, t, 0, pending, x);
      if polled.still == [] {
      } else if net.now(b, t + 1) >= deadline {
        CountAppend(polled.retry, Indexes(polled.still), x);
      } else {
        AwaitedTotal(net, b, t + 1, deadline, polled.still, x);
        TotalJoin(polled.(still := []), Awaited(net, b, t + 1, deadline, polled.still).value, x);
      }
    }
  }

  lemma {:induction false} SplitTotal(sigs: seq<Option<Signature>>, n: nat, x: nat)
    requires n <= |sigs|
    ensures Count(Unsent(sigs, n), x) + Count(Indexes(Sent(sigs, n)), x) == if x < n then 1 else 0
  {
    if n > 0 {
      SplitTotal(sigs, n - 1, x);
      if sigs[n - 1].None? {
        CountAppend(Unsent(sigs, n - 1), [n - 1], x);
        assert Sent(sigs, n) == Sent(sigs, n - 1);
      } else {
        IndexesPush(Sent(sigs, n - 1), Entry(n - 1, sigs[n - 1].value), x);
        assert Unsent(sigs, n) == Unsent(sigs, n - 1);
      }
    }
  }

  lemma {:induction false} SplitSize(sigs: seq<Option<Signature>>, n: nat)
    requires n <= |sigs|
    ensures |Unsent(sigs, n)| + |Sent(sigs, n)| == n
  {
    if n > 0 {
      SplitSize(sigs, n - 1);
    }
  }

  /** Whatever the node answers, every index is to be retried, landed or lost, and only one of them, and only once. */
  lemma {:induction false} EveryIndexEndsOnce(net: Net, b: nat, sigs: seq<Option<Signature>>, x: nat)
    requires ClockAdvances(net) && Confirmed(net, b, sigs).Some?
    ensures var y := Confirmed(net, b, sigs).value;
            && Count(y.retry, x) + Count(y.landed, x) + Count(y.lost, x) == (if x < |sigs| then 1 else 0)
            && |y.retry| + |y.landed| + |y.lost| == |sigs|
  {
    var deadline := net.now(b, 0) + CONFIRM_TIMEOUT;
    var pending := Sent(sigs, |sigs|);
    SplitTotal(sigs, |sigs|, x);
    SplitSize(sigs, |sigs|);
    AwaitedTotal(net, b, 0, deadline, pending, x);
    TotalJoin(Tally([], Unsent(sigs, |sigs|), [], []), Awaited(net, b, 0, deadline, pending).value, x);
  }

  // ---------------------------------------------------------------------------
  // Every index ends where the node's answers put it
  // ---------------------------------------------------------------------------

  /** Every entry is of the signature sent at its index. */
  ghost predicate Tracks(entries: seq<Entry>, sigs: seq<Option<Signature>>) {
    forall k :: 0 <= k < |entries| ==> entries[k].index < |sigs| && sigs[entries[k].index] == Some(entries[k].sig)
  }

  ghost predicate AllReported(
    net: Net, b: nat, made: set<StatusCall>, sigs: seq<Option<Signature>>, indexes: seq<nat>, status: Status)
  {
    forall i :: 0 <= i < |indexes| ==> IndexReported(net, b, made, sigs, indexes[i], status)
  }

  ghost predicate IndexReported(
    net: Net, b: nat, made: set<StatusCall>, sigs: seq<Option<Signature>>, index: nat, status: Status)
  {
    index < |sigs| && sigs[index].Some? && Reported(net, b, made, sigs[index].value, status)
  }

  ghost predicate AllUnseen(net: Net, b: nat, made: set<StatusCall>, t: nat, entries: seq<Entry>) {
    forall k :: 0 <= k < |entries| ==> ReportedAt(net, b, made, t, entries[k].sig, Unseen)
  }

  /** After poll `t`: what is pending was unseen, what is retried failed, and what landed landed. */
  ghost predicate Honest(net: Net, b: nat, made: set<StatusCall>, t: nat, sigs: seq<Option<Signature>>, y: Tally) {
    && Tracks(y.still, sigs) && AllUnseen(net, b, made, t, y.still)
    && AllReported(net, b, made, sigs, y.retry, Failed)
    && AllReported(net, b, made, sigs, y.landed, Landed)
  }

  lemma {:induction false} HonestJoin(
    net: Net, b: nat, made: set<StatusCall>, t: nat, sigs: seq<Option<Signature>>, x: Tally, y: Tally)
    requires Honest(net, b, made, t, sigs, x) && Honest(net, b, made, t, sigs, y)
    ensures Honest(net, b, made, t, sigs, Join(x, y))
  {
  }

  lemma {:induction false} SweptOneHonest(
    net: Net, b: nat, made: set<StatusCall>, t: nat, c: nat, sigs: seq<Option<Signature>>,
    chunk: seq<Entry>, statuses: seq<Status>, k: nat)
    requires Tracks(chunk, sigs) && net.ask(b, t, c, Signatures(chunk)) == Some(statuses)
    requires StatusCall(t, c, Signatures(chunk)) in made
    requires k < |chunk| && k < |statuses|
    ensures Honest(net, b, made, t, sigs, SweptOne(chunk[k], statuses[k]))
  {
    assert Reports(net, b, StatusCall(t, c, Signatures(chunk)), k, chunk[k].sig, statuses[k]);
    assert ReportedAt(net, b, made, t, chunk[k].sig, statuses[k]);
  }

  lemma {:induction false} SweptFirstHonest(
    net: Net, b: nat, made: set<StatusCall>, t: nat, sigs: seq<Option<Signature>>,
    chunk: seq<Entry>, statuses: seq<Status>, k: nat)
    requires k <= |chunk| && k <= |statuses|
    requires forall j :: 0 <= j < k ==> Honest(net, b, made, t, sigs, SweptOne(chunk[j], statuses[j]))
    ensures Honest(net, b, made, t, sigs, SweptFirst(chunk, statuses, k))
  {
    if k > 0 {
      SweptFirstHonest(net, b, made, t, sigs, chunk, statuses, k - 1);
      HonestJoin(net, b, made, t, sigs, SweptFirst(chunk, statuses, k - 1), SweptOne(chunk[k - 1], statuses[k - 1]));
    }
  }

  lemma {:induction false} SweptHonest(
    net: Net, b: nat, made: set<StatusCall>, t: nat, c: nat, sigs: seq<Option<Signature>>,
    chunk: seq<Entry>, statuses: seq<Status>)
    requires Tracks(chunk, sigs) && net.ask(b, t, c, Signatures(chunk)) == Some(statuses)
    requires StatusCall(t, c, Signatures(chunk)) in made
    ensures Honest(net, b, made, t, sigs, Swept(chunk, statuses))
  {
    var reached := Min(|chunk|, |statuses|);
    forall k | 0 <= k < reached
      ensures Honest(net, b, made, t, sigs, SweptOne(chunk[k], statuses[k]))
    {
      SweptOneHonest(net, b, made, t, c, sigs, chunk, statuses, k);
    }
    SweptFirstHonest(net, b, made, t, sigs, chunk, statuses, reached);
  }

  lemma {:induction false} TracksSplit(entries: seq<Entry>, n: nat, sigs: seq<Option<Signature>>)
    requires n <= |entries| && Tracks(entries, sigs)
    ensures Tracks(entries[..n], sigs) && Tracks(entries[n..], sigs)
  {
  }

  lemma {:induction false} PolledHonest(
    net: Net, b: nat, made: set<StatusCall>, t: nat, c: nat, sigs: seq<Option<Signature>>, pending: seq<Entry>)
    requires Tracks(pending, sigs) && Polled(net, b, t, c, pending).Some?
    requires PollCalls(net, b, t, c, pending) <= made
    ensures Honest(net, b, made, t, sigs, Polled(net, b, t, c, pending).value)
    decreases |pending|
  {
    if pending != [] {
      var n := Min(SIG_STATUS_CHUNK_SIZE, |pending|);
      var chunk, rest := pending[..n], pending[n..];
      TracksSplit(pending, n, sigs);
      var statuses := net.ask(b, t, c, Signatures(chunk)).value;
      var first, later := Swept(chunk, statuses), Polled(net, b, t, c + 1, rest).value;
      assert StatusCall(t, c, Signatures(chunk)) in PollCalls(net, b, t, c, pending);
      SweptHonest(net, b, made, t, c, sigs, chunk, statuses);
      PolledHonest(net, b, made, t, c + 1, sigs, rest);
      HonestJoin(net, b, made, t, sigs, first, later);
      assert Polled(net, b, t, c, pending) == Some(Join(first, later));
    }
  }

  /** Unseen still by a poll that ended past the deadline. */
  ghost predicate TimedOut(net: Net, b: nat, made: set<StatusCall>, sig: Signature) {
    exists t: nat :: ReportedAt(net, b, made, t, sig, Unseen) && net.now(b, t + 1) >= net.now(b, 0) + CONFIRM_TIMEOUT
  }

  /** An index is retried if it was never sent, failed on-chain, or timed out. */
  ghost predicate RetryDue(net: Net, b: nat, made: set<StatusCall>, sigs: seq<Option<Signature>>, index: nat) {
    && index < |sigs|
    && (sigs[index].Some? ==>
          Reported(net, b, made, sigs[index].value, Failed) || TimedOut(net, b, made, sigs[index].value))
  }

  ghost predicate AllDue(net: Net, b: nat, made: set<StatusCall>, sigs: seq<Option<Signature>>, indexes: seq<nat>) {
    forall i :: 0 <= i < |indexes| ==> RetryDue(net, b, made, sigs, indexes[i])
  }

  /** What a finished call says of the node's answers to the calls made. */
  ghost predicate Justified(net: Net, b: nat, made: set<StatusCall>, sigs: seq<Option<Signature>>, y: Tally) {
    AllDue(net, b, made, sigs, y.retry) && AllReported(net, b, made, sigs, y.landed, Landed)
  }

  lemma {:induction false} JustifiedJoin(
    net: Net, b: nat, made: set<StatusCall>, sigs: seq<Option<Signature>>, x: Tally, y: Tally)
    requires Justified(net, b, made, sigs, x) && Justified(net, b, made, sigs, y)
    ensures Justified(net, b, made, sigs, Join(x, y))
  {
  }

  lemma {:induction false} TimedOutIsDue(
    net: Net, b: nat, made: set<StatusCall>, t: nat, sigs: seq<Option<Signature>>, entries: seq<Entry>)
    requires Tracks(entries, sigs) && AllUnseen(net, b, made, t, entries)
    requires net.now(b, t + 1) >= net.now(b, 0) + CONFIRM_TIMEOUT
    ensures AllDue(net, b, made, sigs, Indexes(entries))
  {
    forall k | 0 <= k < |entries|
      ensures RetryDue(net, b, made, sigs, Indexes(entries)[k])
    {
      assert ReportedAt(net, b, made, t, entries[k].sig, Unseen);
    }
  }

  lemma {:induction false} AwaitedJustified(
    net: Net, b: nat, made: set<StatusCall>, t: nat, deadline: int, sigs: seq<Option<Signature>>, pending: seq<Entry>)
    requires ClockAdvances(net) && Tracks(pending, sigs) && deadline == net.now(b, 0) + CONFIRM_TIMEOUT
    requires Awaited(net, b, t, deadline, pending).Some? && AwaitCalls(net, b, t, deadline, pending) <= made
    ensures Justified(net, b, made, sigs, Awaited(net, b, t, deadline, pending).value)
    decreases deadline - net.now(b, t + 1)
  {
    if pending != [] {
      var polled := Polled(net, b, t, 0, pending).value;
      PolledHonest(net, b, made, t, 0, sigs, pending);
      if polled.still == [] {
      } else if net.now(b, t + 1) >= deadline {
        TimedOutIsDue(net, b, made, t, sigs, polled.still);
        JustifiedJoin(net, b, made, sigs, polled, Tally([], Indexes(polled.still), [], []));
        assert polled.landed + [] == polled.landed;
      } else {
        AwaitedJustified(net, b, made, t + 1, deadline, sigs, polled.still);
        JustifiedJoin(net, b, made, sigs, polled.(still := []), Awaited(net, b, t + 1, deadline, polled.still).value);
      }
    }
  }

  lemma {:induction false} SentTracks(sigs: seq<Option<Signature>>, n: nat)
    requires n <= |sigs|
    ensures Tracks(Sent(sigs, n), sigs)
    ensures forall i :: 0 <= i < |Unsent(sigs, n)| ==> Unsent(sigs, n)[i] < |sigs| && sigs[Unsent(sigs, n)[i]].None?
  {
    if n > 0 {
      SentTracks(sigs, n - 1);
    }
  }

  /**
   * By the answers to the calls it made: an index is retried only if never sent, failed or timed out,
   * and landed only if the node said so.
   */
  lemma {:induction false} ConfirmedIsJustified(net: Net, b: nat, sigs: seq<Option<Signature>>)
    requires ClockAdvances(net) && Confirmed(net, b, sigs).Some?
    ensures Justified(net, b, CallsMade(net, b, sigs), sigs, Confirmed(net, b, sigs).value)
  {
    var deadline := net.now(b, 0) + CONFIRM_TIMEOUT;
    var made := CallsMade(net, b, sigs);
    SentTracks(sigs, |sigs|);
    AwaitedJustified(net, b, made, 0, deadline, sigs, Sent(sigs, |sigs|));
    var awaited := Awaited(net, b, 0, deadline, Sent(sigs, |sigs|)).value;
    JustifiedJoin(net, b, made, sigs, Tally([], Unsent(sigs, |sigs|), [], []), awaited);
  }

  // ---------------------------------------------------------------------------
  // None is lost exactly when every call made is answered in full
  // ---------------------------------------------------------------------------

  lemma {:induction false} SweptLosesNoneIff(chunk: seq<Entry>, statuses: seq<Status>)
    ensures Swept(chunk, statuses).lost == [] <==> |chunk| <= |statuses|
  {
    SweptFirstLosesNone(chunk, statuses, Min(|chunk|, |statuses|));
  }

  lemma {:induction false} PolledLosesNoneIff(net: Net, b: nat, t: nat, c: nat, pending: seq<Entry>)
    requires Polled(net, b, t, c, pending).Some?
    ensures Polled(net, b, t, c, pending).value.lost == [] <==> AllInFull(net, b, PollCalls(net, b, t, c, pending))
    decreases |pending|
  {
    if pending != [] {
      var n := Min(SIG_STATUS_CHUNK_SIZE, |pending|);
      var chunk, rest := pending[..n], pending[n..];
      var call := StatusCall(t, c, Signatures(chunk));
      SweptLosesNoneIff(chunk, Answer(net, b, call).value);
      PolledLosesNoneIff(net, b, t, c + 1, rest);
      assert PollCalls(net, b, t, c, pending) == {call} + PollCalls(net, b, t, c + 1, rest);
    }
  }

  lemma {:induction false} AwaitedLosesNoneIff(net: Net, b: nat, t: nat, deadline: int, pending: seq<Entry>)
    requires ClockAdvances(net) && Awaited(net, b, t, deadline, pending).Some?
    ensures Awaited(net, b, t, deadline, pending).value.lost == []
            <==> AllInFull(net, b, AwaitCalls(net, b, t, deadline, pending))
    decreases deadline - net.now(b, t + 1)
  {
    if pending != [] {
      var polled := Polled(net, b, t, 0, pending).value;
      PolledLosesNoneIff(net, b, t, 0, pending);
      if polled.still != [] && net.now(b, t + 1) < deadline {
        AwaitedLosesNoneIff(net, b, t + 1, deadline, polled.still);
      }
    }
  }

  /**
   * The retry list is exactly the complement of what landed if and only if every status call the run
   * made was answered with one status per signature.
   */
  lemma {:induction false} RetryIsRestIffAnsweredInFull(net: Net, b: nat, sigs: seq<Option<Signature>>)
    requires ClockAdvances(net) && Confirmed(net, b, sigs).Some?
    ensures var y := Confirmed(net, b, sigs).value;
            (forall i :: 0 <= i < |sigs| ==> (i in y.retry <==> i !in y.landed))
            <==> AllInFull(net, b, CallsMade(net, b, sigs))
  {
    var y := Confirmed(net, b, sigs).value;
    RetryIsComplement(net, b, sigs);
    AwaitedLosesNoneIff(net, b, 0, net.now(b, 0) + CONFIRM_TIMEOUT, Sent(sigs, |sigs|));
    if y.lost != [] {
      var x := y.lost[0];
      EveryIndexEndsOnce(net, b, sigs, x);
      CountedIsMember(y.lost, x);
      CountedIsMember(y.retry, x);
      CountedIsMember(y.landed, x);
    }
  }

  /** And a lost one is not retried: an empty answer makes a lone signature pass as confirmed, though never reported. */
  lemma {:induction false} EmptyAnswerPassesForConfirmed(net: Net, b: nat, sig: Signature)
    requires ClockAdvances(net) && net.ask(b, 0, 0, [sig]) == Some([])
    ensures Confirmed(net, b, [Some(sig)]) == Some(Tally([], [], [], [0]))
  {
    var sigs := [Some(sig)];
    var pending := [Entry(0, sig)];
    var lost := Tally([], [], [], [0]);
    assert Sent(sigs, 0) + pending == pending;
    assert Signatures(pending) == [sig] && Indexes(pending) == [0];
    assert pending[..1] == pending && pending[0..] == pending && pending[1..] == [];
    assert Swept(pending, []) == lost;
    assert Join(lost, NOTHING) == lost && Join(NOTHING, lost) == lost;
    assert Polled(net, b, 0, 0, pending) == Some(lost);
    assert Sent(sigs, 1) == pending && Unsent(sigs, 1) == Unsent(sigs, 0) + [];
    assert Awaited(net, b, 0, net.now(b, 0) + CONFIRM_TIMEOUT, pending) == Some(lost);
  }

  // ---------------------------------------------------------------------------
  // Rounds
  // ---------------------------------------------------------------------------

  ghost predicate NoDuplicates(s: seq<nat>) {
    forall i, j :: 0 <= i < j < |s| ==> s[i] != s[j]
  }

  lemma {:induction false} RepeatCountsTwice(s: seq<nat>, i: nat, j: nat)
    requires i < j < |s| && s[i] == s[j]
    ensures Count(s, s[i]) >= 2
  {
    assert s == s[..j] + s[j..];
    CountAppend(s[..j], s[j..], s[i]);
    MemberCounts(s[..j], i);
    MemberCounts(s[j..], 0);
  }

  lemma {:induction false} MemberCounts(s: seq<nat>, i: nat)
    requires i < |s|
    ensures Count(s, s[i]) >= 1
  {
    assert s == s[..i] + [s[i]] + s[i + 1..];
    CountAppend(s[..i] + [s[i]], s[i + 1..], s[i]);
    CountAppend(s[..i], [s[i]], s[i]);
  }

  lemma {:induction false} CountedIsMember(s: seq<nat>, x: nat)
    ensures Count(s, x) >= 1 <==> x in s
  {
    if s != [] {
      CountedIsMember(s[..|s| - 1], x);
      assert s == s[..|s| - 1] + [s[|s| - 1]];
    }
  }

  lemma {:induction false} RetryIsComplement(net: Net, b: nat, sigs: seq<Option<Signature>>)
    requires ClockAdvances(net) && Confirmed(net, b, sigs).Some?
    ensures var y := Confirmed(net, b, sigs).value;
            && NoDuplicates(y.retry)
            && (forall i :: 0 <= i < |y.retry| ==> y.retry[i] < |sigs|)
            && (forall i :: 0 <= i < |sigs| ==> (i in y.retry <==> i !in y.landed && i !in y.lost))
  {
    var y := Confirmed(net, b, sigs).value;
    forall i, j | 0 <= i < j < |y.retry|
      ensures y.retry[i] != y.retry[j]
    {
      if y.retry[i] == y.retry[j] {
        EveryIndexEndsOnce(net, b, sigs, y.retry[i]);
        RepeatCountsTwice(y.retry, i, j);
      }
    }
    forall i | 0 <= i < |y.retry|
      ensures y.retry[i] < |sigs|
    {
      EveryIndexEndsOnce(net, b, sigs, y.retry[i]);
      MemberCounts(y.retry, i);
    }
    forall i | 0 <= i < |sigs|
      ensures i in y.retry <==> i !in y.landed && i !in y.lost
    {
      EveryIndexEndsOnce(net, b, sigs, i);
      CountedIsMember(y.retry, i);
      CountedIsMember(y.landed, i);
      CountedIsMember(y.lost, i);
    }
  }

  /** A numbered batch of accounts sent together. */
  datatype Batch = Batch(number: nat, accounts: seq<Account>)

  function Sends(net: Net, batch: Batch): seq<Option<Signature>> {
    seq(|batch.accounts|, i requires 0 <= i < |batch.accounts| => net.send(batch.number, batch.accounts[i]))
  }

  ghost function BatchCalls(net: Net, batch: Batch): set<StatusCall>
    requires ClockAdvances(net)
  {
    CallsMade(net, batch.number, Sends(net, batch))
  }

  /** The account's transaction in this batch was reported landed by one of the batch's own status calls. */
  ghost predicate SettledIn(net: Net, batch: Batch, a: Account)
    requires ClockAdvances(net)
  {
    && a in batch.accounts && net.send(batch.number, a).Some?
    && Reported(net, batch.number, BatchCalls(net, batch), net.send(batch.number, a).value, Landed)
  }

  /** Every status call made for the batch was answered in full. */
  ghost predicate BatchInFull(net: Net, batch: Batch)
    requires ClockAdvances(net)
  {
    AllInFull(net, batch.number, BatchCalls(net, batch))
  }

  function Picked(accounts: seq<Account>, indexes: seq<nat>): seq<Account> {
    seq(|indexes|, k requires 0 <= k < |indexes| => if indexes[k] < |accounts| then accounts[indexes[k]] else 0)
  }

  /** What a batch hands back to be sent again; none on an RPC error. */
  ghost function Handed(net: Net, batch: Batch): Option<seq<Account>>
    requires ClockAdvances(net)
  {
    var y := Confirmed(net, batch.number, Sends(net, batch));
    if y.None? then None else Some(Picked(batch.accounts, y.value.retry))
  }

  ghost predicate AllAnswered(net: Net, b: nat, made: set<StatusCall>) {
    forall call :: call in made ==> net.ask(b, call.poll, call.chunk, call.asked).Some?
  }

  lemma {:induction false} PolledIffAnswered(net: Net, b: nat, t: nat, c: nat, pending: seq<Entry>)
    ensures Polled(net, b, t, c, pending).Some? <==> AllAnswered(net, b, PollCalls(net, b, t, c, pending))
    decreases |pending|
  {
    if pending != [] {
      var n := Min(SIG_STATUS_CHUNK_SIZE, |pending|);
      var call := StatusCall(t, c, Signatures(pending[..n]));
      PolledIffAnswered(net, b, t, c + 1, pending[n..]);
      assert call in PollCalls(net, b, t, c, pending);
    }
  }

  lemma {:induction false} AwaitedIffAnswered(net: Net, b: nat, t: nat, deadline: int, pending: seq<Entry>)
    requires ClockAdvances(net)
    ensures Awaited(net, b, t, deadline, pending).Some?
            <==> AllAnswered(net, b, AwaitCalls(net, b, t, deadline, pending))
    decreases deadline - net.now(b, t + 1)
  {
    PolledIffAnswered(net, b, t, 0, pending);
    var polled := Polled(net, b, t, 0, pending);
    if pending != [] && polled.Some? && polled.value.still != [] && net.now(b, t + 1) < deadline {
      assert net.now(b, t + 1) + POLL_INTERVAL <= net.now(b, t + 1 + 1);
      AwaitedIffAnswered(net, b, t + 1, deadline, polled.value.still);
    }
  }

  /** A batch comes to an end, and hands something back or nothing, if and only if no status call it made failed. */
  lemma {:induction false} HandedIffAnswered(net: Net, batch: Batch)
    requires ClockAdvances(net)
    ensures Handed(net, batch).Some? <==> AllAnswered(net, batch.number, BatchCalls(net, batch))
  {
    var sigs := Sends(net, batch);
    AwaitedIffAnswered(net, batch.number, 0, net.now(batch.number, 0) + CONFIRM_TIMEOUT, Sent(sigs, |sigs|));
  }

  /** All that a round needs to know of its batches. */
  datatype Outcomes = Outcomes(
    handed: Batch -> Option<seq<Account>>, settled: (Batch, Account) -> bool, inFull: Batch -> bool)

  /** The outcomes are those the node's answers determine. */
  ghost predicate Describes(o: Outcomes, net: Net) {
    && ClockAdvances(net)
    && (forall batch {:trigger Handed(net, batch)} :: o.handed(batch) == Handed(net, batch))
    && (forall batch, a {:trigger SettledIn(net, batch, a)} :: o.settled(batch, a) <==> SettledIn(net, batch, a))
    && (forall batch {:trigger BatchInFull(net, batch)} :: o.inFull(batch) <==> BatchInFull(net, batch))
  }

  ghost function OutcomesOf(net: Net): (o: Outcomes)
    requires ClockAdvances(net)
    ensures Describes(o, net)
  {
    Outcomes(batch => Handed(net, batch), (batch: Batch, a: Account) => SettledIn(net, batch, a),
             batch => BatchInFull(net, batch))
  }

  ghost predicate Settled(o: Outcomes, batches: seq<Batch>, a: Account) {
    exists i :: 0 <= i < |batches| && o.settled(batches[i], a)
  }

  ghost predicate AllBatchesInFull(o: Outcomes, batches: seq<Batch>) {
    forall i :: 0 <= i < |batches| ==> o.inFull(batches[i])
  }

  /**
   * `next` is what the batches left of `sent`: no account twice, none from elsewhere, and, if their
   * status calls were answered in full, every other account settled in one of them.
   */
  ghost predicate Remains(o: Outcomes, batches: seq<Batch>, sent: seq<Account>, next: seq<Account>) {
    && NoDuplicates(next)
    && (forall a :: a in next ==> a in sent)
    && (AllBatchesInFull(o, batches) ==> forall a :: a in sent && a !in next ==> Settled(o, batches, a))
  }

  /** One batch: send, poll, and pick out the accounts to send again. */
  method ConfirmBatch(net: Net, batch: Batch, ghost o: Outcomes) returns (again: Option<seq<Account>>)
    requires Describes(o, net) && NoDuplicates(batch.accounts)
    ensures again == Handed(net, batch) == o.handed(batch)
    ensures again.Some? ==> |again.value| <= |batch.accounts| && Remains(o, [batch], batch.accounts, again.value)
  {
    var sigs := SendParallel(net, batch.number, batch.accounts);
    assert sigs == Sends(net, batch);
    var ok, retry := PollConfirmations(net, batch.number, sigs);
    if !ok {
      return None;
    }
    RetryIsComplement(net, batch.number, sigs);
    var picked := [];
    for k := 0 to |retry|
      invariant picked == Picked(batch.accounts, retry[..k])
    {
      picked := picked + [batch.accounts[retry[k]]];
    }
    assert retry[..|retry|] == retry;
    EveryIndexEndsOnce(net, batch.number, sigs, 0);
    BatchRemains(net, batch, o);
    again := Some(picked);
  }

  lemma {:induction false} BatchRemains(net: Net, batch: Batch, o: Outcomes)
    requires Describes(o, net) && NoDuplicates(batch.accounts) && Handed(net, batch).Some?
    ensures Remains(o, [batch], batch.accounts, Handed(net, batch).value)
  {
    var sigs, again := Sends(net, batch), Handed(net, batch).value;
    RetryIsComplement(net, batch.number, sigs);
    var y := Confirmed(net, batch.number, sigs).value;
    forall a | a in again
      ensures a in batch.accounts
    {
      var j :| 0 <= j < |again| && again[j] == a;
      assert batch.accounts[y.retry[j]] == a;
    }
    if AllBatchesInFull(o, [batch]) {
      assert o.inFull([batch][0]) && BatchInFull(net, batch);
      forall i | 0 <= i < |batch.accounts| && batch.accounts[i] !in again
        ensures Settled(o, [batch], batch.accounts[i])
      {
        NotAgainNotRetried(batch.accounts, y.retry, again, i);
        NotRetriedSettled(net, batch, i);
        assert o.settled([batch][0], batch.accounts[i]);
      }
    }
  }

  lemma {:induction false} NotRetriedSettled(net: Net, batch: Batch, i: nat)
    requires ClockAdvances(net) && Confirmed(net, batch.number, Sends(net, batch)).Some? && BatchInFull(net, batch)
    requires i < |batch.accounts| && i !in Confirmed(net, batch.number, Sends(net, batch)).value.retry
    ensures SettledIn(net, batch, batch.accounts[i])
  {
    var sigs := Sends(net, batch);
    ConfirmedIsJustified(net, batch.number, sigs);
    RetryIsRestIffAnsweredInFull(net, batch.number, sigs);
    var y := Confirmed(net, batch.number, sigs).value;
    var j :| 0 <= j < |y.landed| && y.landed[j] == i;
    assert IndexReported(net, batch.number, BatchCalls(net, batch), sigs, y.landed[j], Landed);
  }

  lemma {:induction false} NotAgainNotRetried(accounts: seq<Account>, retry: seq<nat>, again: seq<Account>, i: nat)
    requires i < |accounts| && |again| == |retry|
    requires forall j :: 0 <= j < |retry| ==> retry[j] < |accounts| && again[j] == accounts[retry[j]]
    requires accounts[i] !in again
    ensures i !in retry
  {
    forall j | 0 <= j < |retry|
      ensures retry[j] != i
    {
      assert again[j] in again;
    }
  }
}
