/**
 * The gateway's one read of the ledger's handoff table (gateway/src/db.rs): the coverage
 * and the newest handoffs in one statement, handed back oldest first.
 */
module OwnerChainRead {
  import opened Common
  import opened TokenAccount
  import opened OwnerTimeline

  /** One row of the joined statement. A row with no handoff carries the coverage alone. */
  datatype ChainRow = ChainRow(indexedFrom: Option<Bytes>, tip: Option<Bytes>, change: Option<OwnerChange>)

  datatype OwnerChain = OwnerChain(coverage: Option<Coverage>, changes: seq<OwnerChange>)

  function NewestFirst(rows: seq<OwnerChange>): (r: seq<OwnerChange>)
    ensures |r| == |rows|
  {
    if rows == [] then [] else NewestFirst(rows[1..]) + [rows[0]]
  }

  function Tagged(indexedFrom: Option<Bytes>, tip: Option<Bytes>, chain: seq<OwnerChange>): (r: seq<ChainRow>)
    ensures |r| == |chain|
    ensures forall i :: 0 <= i < |r| ==> r[i] == ChainRow(indexedFrom, tip, Some(chain[i]))
  {
    if chain == [] then [] else [ChainRow(indexedFrom, tip, Some(chain[0]))] + Tagged(indexedFrom, tip, chain[1..])
  }

  function Page(table: seq<OwnerChange>, limit: nat): seq<OwnerChange> {
    var chain := NewestFirst(table);
    if |chain| <= limit then chain else chain[..limit]
  }

  /** The statement: coverage left-joined with the `limit` newest handoffs, newest first. */
  function Statement(
    indexedFrom: Option<Bytes>, tip: Option<Bytes>, table: seq<OwnerChange>, limit: nat): (r: seq<ChainRow>)
    ensures r != []
  {
    var page := Page(table, limit);
    if page == [] then [ChainRow(indexedFrom, tip, None)] else Tagged(indexedFrom, tip, page)
  }

  /** The watermark is big-endian and signed, the tip a little-endian counter. */
  function DecodeCoverage(indexedFrom: Option<Bytes>, tip: Option<Bytes>): Option<Coverage> {
    if indexedFrom.None? || tip.None? || |indexedFrom.value| != 8 || |tip.value| != 8 then None
    else
      var t := FromLittleEndian(tip.value);
      if t > I64_MAX then None
      else Some(Coverage(SignedBigEndian(indexedFrom.value), t))
  }

  function SignedBigEndian(b: Bytes): i64
    requires |b| == 8
  {
    FromLittleEndianBound(Reversed(b));
    EightBytesAreU64();
    var v := FromLittleEndian(Reversed(b));
    if v > I64_MAX then v - U64_MAX - 1 else v
  }

  function EncodeSignedBigEndian(n: i64): Bytes {
    Reversed(ToLittleEndian(if n < 0 then n + U64_MAX + 1 else n, 8))
  }

  /** What the node wrote is what the gateway reads, and a tip past i64 reads as no coverage. */
  lemma {:induction false} CoverageRoundTrip(indexedFrom: i64, tip: u64)
    ensures DecodeCoverage(Some(EncodeSignedBigEndian(indexedFrom)), Some(ToLittleEndian(tip, 8)))
            == if tip <= I64_MAX then Some(Coverage(indexedFrom, tip)) else None
  {
    EightBytesAreU64();
    LittleEndianRoundTrip(tip, 8);
    var wrapped := if indexedFrom < 0 then indexedFrom + U64_MAX + 1 else indexedFrom;
    LittleEndianRoundTrip(wrapped, 8);
    ReversedTwice(ToLittleEndian(wrapped, 8));
  }

  /** No coverage is read if and only if one of the two values is absent or not eight bytes, or the tip is past i64. */
  lemma {:induction false} NoCoverageIff(indexedFrom: Option<Bytes>, tip: Option<Bytes>)
    ensures DecodeCoverage(indexedFrom, tip).None? <==>
              || indexedFrom.None? || |indexedFrom.value| != 8
              || tip.None? || |tip.value| != 8 || FromLittleEndian(tip.value) > I64_MAX
  {
  }

  function Changes(rows: seq<ChainRow>): seq<OwnerChange> {
    if rows == [] then []
    else Changes(rows[1..]) + (if rows[0].change.Some? then [rows[0].change.value] else [])
  }

  /** `owner_chain`: coverage from the first row, handoffs reversed and the bare row dropped. */
  function ReadOwnerChain(rows: seq<ChainRow>): OwnerChain
    requires rows != []
  {
    OwnerChain(DecodeCoverage(rows[0].indexedFrom, rows[0].tip), Changes(rows))
  }

  lemma {:induction false} ChangesOfTagged(indexedFrom: Option<Bytes>, tip: Option<Bytes>, chain: seq<OwnerChange>)
    ensures Changes(Tagged(indexedFrom, tip, chain)) == NewestFirst(chain)
  {
    if chain != [] {
      assert Tagged(indexedFrom, tip, chain)[1..] == Tagged(indexedFrom, tip, chain[1..]);
      ChangesOfTagged(indexedFrom, tip, chain[1..]);
    }
  }

  lemma {:induction false} NewestFirstAt(rows: seq<OwnerChange>, i: nat)
    requires i < |rows|
    ensures NewestFirst(rows)[i] == rows[|rows| - 1 - i]
  {
    if i < |rows| - 1 {
      NewestFirstAt(rows[1..], i);
    }
  }

  lemma {:induction false} PageReversed(table: seq<OwnerChange>, limit: nat)
    ensures NewestFirst(Page(table, limit)) == Newest(table, limit)
  {
    var page, suffix := Page(table, limit), Newest(table, limit);
    forall i | 0 <= i < |suffix| ensures NewestFirst(page)[i] == suffix[i] {
      NewestFirstAt(page, i);
      NewestFirstAt(table, |page| - 1 - i);
    }
  }

  /** Taking the newest `limit` first and reversing keeps a suffix of the table, in table order. */
  lemma {:induction false} OwnerChainIsNewestSuffix(
    indexedFrom: Option<Bytes>, tip: Option<Bytes>, table: seq<OwnerChange>, limit: nat)
    ensures ReadOwnerChain(Statement(indexedFrom, tip, table, limit))
            == OwnerChain(DecodeCoverage(indexedFrom, tip), Newest(table, limit))
  {
    PageReversed(table, limit);
    ChangesOfTagged(indexedFrom, tip, Page(table, limit));
    if Page(table, limit) == [] {
      BareRowHasNoChange(ChainRow(indexedFrom, tip, None));
    }
  }

  lemma {:induction false} BareRowHasNoChange(row: ChainRow)
    requires row.change.None?
    ensures Changes([row]) == []
  {
    assert [row][1..] == [];
  }
}
