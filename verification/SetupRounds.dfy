/**
 * The batch-and-retry rounds around confirmation (bench-tps/src/setup.rs): everything left is sent in
 * batches, and what a batch hands back waits for the next round.
 */
module SetupRounds {
  import opened Common
  import opened Confirmations

  /** The batches of one round, numbered after `b`. */
  function Batches(b: nat, toSend: seq<Account>): seq<Batch>
    decreases |toSend|
  {
    if toSend == [] then []
    else
      var n := Min(SETUP_BATCH_SIZE, |toSend|);
      [Batch(b + 1, toSend[..n])] + Batches(b + 1, toSend[n..])
  }

  /** What one round leaves to send again; none on an RPC error. */
  ghost function RoundLeft(o: Outcomes, b: nat, toSend: seq<Account>): Option<seq<Account>>
    decreases |toSend|
  {
    if toSend == [] then Some([])
    else
      var n := Min(SETUP_BATCH_SIZE, |toSend|);
      After(o.handed(Batch(b + 1, toSend[..n])), RoundLeft(o, b + 1, toSend[n..]))
  }

  function After(first: Option<seq<Account>>, rest: Option<seq<Account>>): Option<seq<Account>> {
    if first.None? || rest.None? then None else Some(first.value + rest.value)
  }

  /** What is left after a number of rounds; none on an RPC error. */
  ghost function AllLeft(o: Outcomes, b: nat, left: seq<Account>, rounds: nat): Option<seq<Account>>
    decreases rounds
  {
    if left == [] || rounds == 0 then Some(left)
    else
      var next := RoundLeft(o, b, left);
      if next.None? then None else AllLeft(o, b + |Batches(b, left)|, next.value, rounds - 1)
  }

  /** The batches all the rounds send, in order. */
  ghost function Sendings(o: Outcomes, b: nat, left: seq<Account>, rounds: nat): seq<Batch>
    decreases rounds
  {
    if left == [] || rounds == 0 then []
    else
      var now, next := Batches(b, left), RoundLeft(o, b, left);
      now + if next.None? then [] else Sendings(o, b + |now|, next.value, rounds - 1)
  }

  /** The next batch of a round: which accounts it takes, and what of them it hands back. */
  method ConfirmNext(net: Net, ghost o: Outcomes, b: nat, toSend: seq<Account>, offset: nat)
    returns (again: Option<seq<Account>>, end: nat)
    requires Describes(o, net) && NoDuplicates(toSend) && offset < |toSend|
    ensures offset < end <= |toSend| && (again.Some? ==> |again.value| <= end - offset)
    ensures |Batches(b, toSend[offset..])| == 1 + |Batches(b + 1, toSend[end..])|
    ensures RoundLeft(o, b, toSend[offset..]) == After(again, RoundLeft(o, b + 1, toSend[end..]))
  {
    end := Min(offset + SETUP_BATCH_SIZE, |toSend|);
    RoundStep(o, b, toSend, offset, end);
    HalvesApart(toSend, offset, end);
    again := ConfirmBatch(net, Batch(b + 1, toSend[offset..end]), o);
  }

  lemma {:induction false} AllLeftStep(o: Outcomes, b: nat, left: seq<Account>, rounds: nat)
    requires left != [] && rounds > 0
    ensures AllLeft(o, b, left, rounds)
            == if RoundLeft(o, b, left).None? then None
               else AllLeft(o, b + |Batches(b, left)|, RoundLeft(o, b, left).value, rounds - 1)
  {
  }

  /** One round over everything left, a batch at a time; the count goes up by what each batch did not hand back. */
  method ConfirmRound(net: Net, ghost o: Outcomes, firstBatch: nat, toSend: seq<Account>, confirmedBefore: nat)
    returns (next: Option<seq<Account>>, confirmed: nat, batchNum: nat)
    requires Describes(o, net) && NoDuplicates(toSend)
    ensures next == RoundLeft(o, firstBatch, toSend)
    ensures next.Some? ==> confirmed + |next.value| == confirmedBefore + |toSend|
    ensures next.Some? ==> batchNum == firstBatch + |Batches(firstBatch, toSend)|
  {
    confirmed, batchNum := confirmedBefore, firstBatch;
    var gathered, offset := [], 0;
    assert toSend[0..] == toSend;
    AfterNothing(RoundLeft(o, firstBatch, toSend));
    while offset < |toSend|
      invariant offset <= |toSend| && confirmed + |gathered| == confirmedBefore + offset
      invariant batchNum + |Batches(batchNum, toSend[offset..])| == firstBatch + |Batches(firstBatch, toSend)|
      invariant After(Some(gathered), RoundLeft(o, batchNum, toSend[offset..])) == RoundLeft(o, firstBatch, toSend)
    {
      var again, end := ConfirmNext(net, o, batchNum, toSend, offset);
      if again.None? {
        return None, confirmed, batchNum;
      }
      AfterStep(gathered, again.value, RoundLeft(o, batchNum + 1, toSend[end..]));
      confirmed := confirmed + (end - offset - |again.value|);
      gathered, offset, batchNum := gathered + again.value, end, batchNum + 1;
    }
    assert toSend[offset..] == [] && gathered + [] == gathered;
    next := Some(gathered);
  }

  lemma {:induction false} AfterNothing(rest: Option<seq<Account>>)
    ensures After(Some([]), rest) == rest
  {
    if rest.Some? {
      assert [] + rest.value == rest.value;
    }
  }

  lemma {:induction false} AfterStep(a: seq<Account>, b: seq<Account>, rest: Option<seq<Account>>)
    ensures After(Some(a), After(Some(b), rest)) == After(Some(a + b), rest)
  {
    if rest.Some? {
      assert a + (b + rest.value) == (a + b) + rest.value;
    }
  }

  lemma {:induction false} RoundStep(o: Outcomes, b: nat, toSend: seq<Account>, offset: nat, end: nat)
    requires offset < |toSend| && end == Min(offset + SETUP_BATCH_SIZE, |toSend|)
    ensures var batch := Batch(b + 1, toSend[offset..end]);
            && Batches(b, toSend[offset..]) == [batch] + Batches(b + 1, toSend[end..])
            && RoundLeft(o, b, toSend[offset..]) == After(o.handed(batch), RoundLeft(o, b + 1, toSend[end..]))
  {
    var from := toSend[offset..];
    assert from[..end - offset] == toSend[offset..end] && from[end - offset..] == toSend[end..];
  }

  lemma {:induction false} RemainsAppend(
    o: Outcomes, x: seq<Batch>, y: seq<Batch>, a: seq<Account>, b: seq<Account>, nextA: seq<Account>,
    nextB: seq<Account>)
    requires Remains(o, x, a, nextA) && Remains(o, y, b, nextB)
    requires forall u :: u in a ==> u !in b
    ensures Remains(o, x + y, a + b, nextA + nextB)
  {
    var next := nextA + nextB;
    forall i, j | 0 <= i < j < |next|
      ensures next[i] != next[j]
    {
      if i < |nextA| <= j {
        assert next[i] in a && next[j] in b;
      }
    }
    BatchesSplit(o, x, y);
    forall u | u in a + b && u !in next && AllBatchesInFull(o, x + y)
      ensures Settled(o, x + y, u)
    {
      SettledSplit(o, x, y, u);
    }
  }

  lemma {:induction false} BatchesSplit(o: Outcomes, x: seq<Batch>, y: seq<Batch>)
    ensures AllBatchesInFull(o, x + y) ==> AllBatchesInFull(o, x) && AllBatchesInFull(o, y)
  {
    if AllBatchesInFull(o, x + y) {
      forall i | 0 <= i < |x| ensures o.inFull(x[i]) {
        assert (x + y)[i] == x[i];
      }
      forall i | 0 <= i < |y| ensures o.inFull(y[i]) {
        assert (x + y)[|x| + i] == y[i];
      }
    }
  }

  lemma {:induction false} SettledSplit(o: Outcomes, x: seq<Batch>, y: seq<Batch>, a: Account)
    ensures Settled(o, x, a) || Settled(o, y, a) ==> Settled(o, x + y, a)
  {
    if Settled(o, x, a) {
      var i :| 0 <= i < |x| && o.settled(x[i], a);
      assert o.settled((x + y)[i], a);
    } else if Settled(o, y, a) {
      var i :| 0 <= i < |y| && o.settled(y[i], a);
      assert o.settled((x + y)[|x| + i], a);
    }
  }

  lemma {:induction false} HalvesApart(s: seq<Account>, k: nat, end: nat)
    requires NoDuplicates(s) && k <= end <= |s|
    ensures NoDuplicates(s[..k]) && NoDuplicates(s[k..end])
    ensures forall u :: u in s[..k] ==> u !in s[k..end]
  {
  }

  /** Every batch without a repeat leaves what it should. */
  ghost predicate BatchesRemain(o: Outcomes) {
    forall batch: Batch :: NoDuplicates(batch.accounts) && o.handed(batch).Some?
                    ==> Remains(o, [batch], batch.accounts, o.handed(batch).value)
  }

  lemma {:induction false} NetBatchesRemain(net: Net, o: Outcomes)
    requires Describes(o, net)
    ensures BatchesRemain(o)
  {
    forall batch: Batch | NoDuplicates(batch.accounts) && o.handed(batch).Some?
      ensures Remains(o, [batch], batch.accounts, o.handed(batch).value)
    {
      assert o.handed(batch) == Handed(net, batch);
      BatchRemains(net, batch, o);
    }
  }

  /** What one round leaves, in terms of its own batches. */
  lemma {:induction false} RoundRemains(o: Outcomes, b: nat, toSend: seq<Account>)
    requires BatchesRemain(o) && NoDuplicates(toSend) && RoundLeft(o, b, toSend).Some?
    ensures Remains(o, Batches(b, toSend), toSend, RoundLeft(o, b, toSend).value)
    decreases |toSend|
  {
    if toSend != [] {
      var n := Min(SETUP_BATCH_SIZE, |toSend|);
      var batch, rest := Batch(b + 1, toSend[..n]), toSend[n..];
      HalvesApart(toSend, n, |toSend|);
      assert toSend[n..|toSend|] == rest;
      assert Remains(o, [batch], batch.accounts, o.handed(batch).value);
      RoundRemains(o, b + 1, rest);
      RemainsAppend(o, [batch], Batches(b + 1, rest), batch.accounts, rest,
                    o.handed(batch).value, RoundLeft(o, b + 1, rest).value);
      assert toSend == batch.accounts + rest;
    }
  }

  lemma {:induction false} RemainsTrans(
    o: Outcomes, x: seq<Batch>, y: seq<Batch>, a: seq<Account>, b: seq<Account>, c: seq<Account>)
    requires Remains(o, x, a, b) && Remains(o, y, b, c)
    ensures Remains(o, x + y, a, c)
  {
    BatchesSplit(o, x, y);
    forall u | u in a && u !in c && AllBatchesInFull(o, x + y)
      ensures Settled(o, x + y, u)
    {
      SettledSplit(o, x, y, u);
    }
  }

  /**
   * Over any number of rounds of any run: what is left has no account twice and none from elsewhere, and if every
   * status call the run made was answered in full, every other account was reported landed by one of them.
   */
  lemma {:induction false} AllRemain(o: Outcomes, b: nat, left: seq<Account>, rounds: nat)
    requires BatchesRemain(o) && NoDuplicates(left) && AllLeft(o, b, left, rounds).Some?
    ensures Remains(o, Sendings(o, b, left, rounds), left, AllLeft(o, b, left, rounds).value)
    decreases rounds
  {
    if left != [] && rounds > 0 {
      var now, next := Batches(b, left), RoundLeft(o, b, left).value;
      RoundRemains(o, b, left);
      AllRemain(o, b + |now|, next, rounds - 1);
      RemainsTrans(o, now, Sendings(o, b + |now|, next, rounds - 1), left, next,
                   AllLeft(o, b + |now|, next, rounds - 1).value);
    }
  }

  /**
   * The setup loop, for as many rounds as a run took. Confirmed and left always make up the total, so
   * no account is counted twice.
   */
  method ConfirmAll(net: Net, ghost o: Outcomes, accounts: seq<Account>, rounds: nat)
    returns (left: Option<seq<Account>>, confirmed: nat)
    requires Describes(o, net) && NoDuplicates(accounts)
    ensures left == AllLeft(o, 0, accounts, rounds)
    ensures left.Some? ==> confirmed + |left.value| == |accounts|
    ensures left.Some? ==> Remains(o, Sendings(o, 0, accounts, rounds), accounts, left.value)
  {
    confirmed := 0;
    var remaining, batchNum, round := accounts, 0, 0;
    NetBatchesRemain(net, o);
    while remaining != [] && round < rounds
      invariant round <= rounds && NoDuplicates(remaining) && confirmed + |remaining| == |accounts|
      invariant AllLeft(o, 0, accounts, rounds) == AllLeft(o, batchNum, remaining, rounds - round)
      decreases rounds - round
    {
      AllLeftStep(o, batchNum, remaining, rounds - round);
      var next, counted, lastBatch := ConfirmRound(net, o, batchNum, remaining, confirmed);
      if next.None? {
        return None, confirmed;
      }
      RoundRemains(o, batchNum, remaining);
      remaining, confirmed, round, batchNum := next.value, counted, round + 1, lastBatch;
    }
    left := Some(remaining);
    AllRemain(o, 0, accounts, rounds);
  }
}
