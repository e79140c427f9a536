/**
 * Collapsing transaction errors in a response (gateway/src/lib.rs, `redact_transaction_errors`):
 * every non-null error becomes one constant marker, in both response shapes.
 */
module Redaction {
  import opened Common
  import opened Json

  /** The single error every collapsed transaction reports. */
  const REDACTED_ERROR: Json := Obj(map["InstructionError" := Arr([Num(0), Str("GenericError")])])

  // ---------------------------------------------------------------------------
  // Redaction, field by field
  // ---------------------------------------------------------------------------

  function RedactedErr(err: Json): Json {
    if err.Null? then Null else REDACTED_ERROR
  }

  function RedactedStatus(status: Json): Json {
    if Get(status, "Err").Some? then Set(status, "Err", REDACTED_ERROR) else status
  }

  function RedactedField(key: string, v: Json): Json {
    if key == "err" then RedactedErr(v) else if key == "status" then RedactedStatus(v) else v
  }

  function RedactedEntry(entry: Json): Json {
    if entry.Obj? then Obj(map k | k in entry.fields :: RedactedField(k, entry.fields[k])) else entry
  }

  function RedactedEntries(entries: seq<Json>): (r: seq<Json>)
    ensures |r| == |entries|
    ensures forall i :: 0 <= i < |r| ==> r[i] == RedactedEntry(entries[i])
  {
    seq(|entries|, i requires 0 <= i < |entries| => RedactedEntry(entries[i]))
  }

  /** `getSignaturesForAddress` answers a bare array, `getSignatureStatuses` wraps it in `value`. */
  function RedactedResult(result: Json): Json {
    if result.Arr? then Arr(RedactedEntries(result.items))
    else
      var value := Get(result, "value");
      if value.Some? && value.value.Arr? then Set(result, "value", Arr(RedactedEntries(value.value.items))) else result
  }

  function Redacted(json: Json): Json {
    var result := Get(json, "result");
    if result.Some? then Set(json, "result", RedactedResult(result.value)) else json
  }

  // ---------------------------------------------------------------------------
  // Redaction, as the gateway edits the value in place
  // ---------------------------------------------------------------------------

  method RedactEntries(list: seq<Json>) returns (entries: seq<Json>)
    ensures entries == RedactedEntries(list)
  {
    entries := list;
    for i := 0 to |list|
      invariant |entries| == |list|
      invariant forall j :: 0 <= j < i ==> entries[j] == RedactedEntry(list[j])
      invariant forall j :: i <= j < |list| ==> entries[j] == list[j]
    {
      var entry := entries[i];
      var err := Get(entry, "err");
      if err.Some? && !err.value.Null? {
        entry := Set(entry, "err", REDACTED_ERROR);
      }
      var status := Get(entry, "status");
      if status.Some? && Get(status.value, "Err").Some? {
        entry := Set(entry, "status", Set(status.value, "Err", REDACTED_ERROR));
      }
      assert entry == RedactedEntry(list[i]) by {
        EntryEdits(list[i], entry);
      }
      entries := entries[i := entry];
    }
  }

  /** Setting the two fields when they carry an error is redacting every field. */
  lemma {:induction false} EntryEdits(before: Json, after: Json)
    requires before.Obj? <==> after.Obj?
    requires !before.Obj? ==> before == after
    requires before.Obj? ==> after.fields.Keys == before.fields.Keys
    requires before.Obj? ==> forall k :: k in before.fields ==> after.fields[k] == RedactedField(k, before.fields[k])
    ensures after == RedactedEntry(before)
  {
    if before.Obj? {
      assert after.fields == RedactedEntry(before).fields;
    }
  }

  /** A response body: a page that is not JSON is forwarded as it came. */
  datatype Body = Raw(text: string) | Parsed(json: Json)

  method RedactTransactionErrors(body: Body) returns (served: Body)
    ensures served == match body case Raw(_) => body case Parsed(json) => Parsed(Redacted(json))
  {
    if body.Raw? {
      return body;
    }
    var json := body.json;
    var result := Get(json, "result");
    if result.None? {
      return body;
    }
    if result.value.Arr? {
      var entries := RedactEntries(result.value.items);
      return Parsed(Set(json, "result", Arr(entries)));
    }
    var value := Get(result.value, "value");
    if value.None? || !value.value.Arr? {
      assert json.fields["result" := result.value] == json.fields;
      return body;
    }
    var entries := RedactEntries(value.value.items);
    served := Parsed(Set(json, "result", Set(result.value, "value", Arr(entries))));
  }

  // ---------------------------------------------------------------------------
  // Which responses may not be told apart
  // ---------------------------------------------------------------------------

  /** Equal but for `keys`. */
  predicate SameElsewhere(a: map<string, Json>, b: map<string, Json>, keys: set<string>) {
    && a.Keys == b.Keys
    && forall k :: k in a && k !in keys ==> a[k] == b[k]
  }

  predicate SameErr(a: Json, b: Json) {
    a.Null? <==> b.Null?
  }

  predicate SameStatus(a: Json, b: Json) {
    a == b || (Get(a, "Err").Some? && Get(b, "Err").Some? && SameElsewhere(a.fields, b.fields, {"Err"}))
  }

  /** Two entries that differ at most in what their errors say. */
  predicate SameEntry(a: Json, b: Json) {
    a == b
    || (&& a.Obj? && b.Obj?
        && SameElsewhere(a.fields, b.fields, {"err", "status"})
        && ("err" in a.fields ==> SameErr(a.fields["err"], b.fields["err"]))
        && ("status" in a.fields ==> SameStatus(a.fields["status"], b.fields["status"])))
  }

  predicate SameEntries(a: seq<Json>, b: seq<Json>) {
    |a| == |b| && forall i :: 0 <= i < |a| ==> SameEntry(a[i], b[i])
  }

  predicate SameResult(a: Json, b: Json) {
    || a == b
    || (a.Arr? && b.Arr? && SameEntries(a.items, b.items))
    || (&& a.Obj? && b.Obj?
        && SameElsewhere(a.fields, b.fields, {"value"})
        && "value" in a.fields && a.fields["value"].Arr? && b.fields["value"].Arr?
        && SameEntries(a.fields["value"].items, b.fields["value"].items))
  }

  /** Two responses that differ at most in non-null transaction errors and `status.Err` payloads. */
  predicate SameButErrors(a: Json, b: Json) {
    || a == b
    || (&& a.Obj? && b.Obj?
        && SameElsewhere(a.fields, b.fields, {"result"})
        && "result" in a.fields && SameResult(a.fields["result"], b.fields["result"]))
  }

  // ---------------------------------------------------------------------------
  // Non-interference
  // ---------------------------------------------------------------------------

  lemma {:induction false} StatusIff(a: Json, b: Json)
    ensures RedactedStatus(a) == RedactedStatus(b) <==> SameStatus(a, b)
  {
    if Get(a, "Err").Some? && Get(b, "Err").Some? {
      UpdatedEqualIff(a.fields, b.fields, "Err", REDACTED_ERROR, REDACTED_ERROR);
    } else if Get(a, "Err").Some? {
      assert "Err" in RedactedStatus(a).fields;
    } else if Get(b, "Err").Some? {
      assert "Err" in RedactedStatus(b).fields;
    }
  }

  lemma {:induction false} UpdatedEqualIff(a: map<string, Json>, b: map<string, Json>, key: string, x: Json, y: Json)
    requires key in a && key in b
    ensures a[key := x] == b[key := y] <==> SameElsewhere(a, b, {key}) && x == y
  {
    var a', b' := a[key := x], b[key := y];
    if a' == b' {
      assert a'[key] == x && b'[key] == y;
      assert a'.Keys == a.Keys && b'.Keys == b.Keys;
      forall k | k in a && k !in {key} ensures a[k] == b[k] {
        assert a'[k] == a[k] && b'[k] == b[k];
      }
    }
    if SameElsewhere(a, b, {key}) && x == y {
      forall k | k in a' ensures k in b' && a'[k] == b'[k] {
      }
      assert a' == b';
    }
  }

  lemma {:induction false} EntryIff(a: Json, b: Json)
    ensures RedactedEntry(a) == RedactedEntry(b) <==> SameEntry(a, b)
  {
    if a.Obj? && b.Obj? {
      var x, y := RedactedEntry(a).fields, RedactedEntry(b).fields;
      assert x.Keys == a.fields.Keys && y.Keys == b.fields.Keys;
      if "status" in a.fields && "status" in b.fields {
        StatusIff(a.fields["status"], b.fields["status"]);
      }
      if x == y {
        forall k | k in a.fields && k !in {"err", "status"} ensures a.fields[k] == b.fields[k] {
          assert x[k] == y[k];
        }
        assert "err" in a.fields ==> x["err"] == y["err"];
        assert "status" in a.fields ==> x["status"] == y["status"];
      }
      if SameEntry(a, b) {
        forall k | k in x ensures x[k] == y[k] {
        }
        assert x == y;
      }
    }
  }

  lemma {:induction false} EntriesIff(a: seq<Json>, b: seq<Json>)
    ensures RedactedEntries(a) == RedactedEntries(b) <==> SameEntries(a, b)
  {
    if |a| == |b| {
      forall i | 0 <= i < |a| ensures RedactedEntries(a)[i] == RedactedEntries(b)[i] <==> SameEntry(a[i], b[i]) {
        EntryIff(a[i], b[i]);
      }
    }
  }

  /** The array a result object redacts, if it has one. */
  function Listed(result: Json): Option<seq<Json>> {
    var value := Get(result, "value");
    if value.Some? && value.value.Arr? then Some(value.value.items) else None
  }

  lemma {:induction false} ResultIff(a: Json, b: Json)
    ensures RedactedResult(a) == RedactedResult(b) <==> SameResult(a, b)
  {
    if a.Arr? && b.Arr? {
      EntriesIff(a.items, b.items);
    } else if Listed(a).Some? && Listed(b).Some? {
      EntriesIff(Listed(a).value, Listed(b).value);
      UpdatedEqualIff(a.fields, b.fields, "value", Arr(RedactedEntries(Listed(a).value)),
        Arr(RedactedEntries(Listed(b).value)));
    } else {
      UnlistedDiffer(a, b);
    }
  }

  /** A result with a listed array never redacts to what one without it does. */
  lemma {:induction false} UnlistedDiffer(a: Json, b: Json)
    requires !(a.Arr? && b.Arr?) && !(Listed(a).Some? && Listed(b).Some?)
    ensures RedactedResult(a) == RedactedResult(b) <==> a == b
  {
    if Listed(a).Some? {
      assert RedactedResult(a).fields["value"].Arr?;
    } else if Listed(b).Some? {
      assert RedactedResult(b).fields["value"].Arr?;
    }
  }

  /**
   * Redaction is exactly non-interference: two responses redact to the same output if and only if
   * they differ in nothing but transaction errors, so it hides all of those and nothing else.
   */
  lemma {:induction false} RedactionIsNonInterference(a: Json, b: Json)
    ensures Redacted(a) == Redacted(b) <==> SameButErrors(a, b)
  {
    if Get(a, "result").Some? && Get(b, "result").Some? {
      ResultIff(a.fields["result"], b.fields["result"]);
      UpdatedEqualIff(a.fields, b.fields, "result", RedactedResult(a.fields["result"]),
        RedactedResult(b.fields["result"]));
    } else if Get(a, "result").Some? {
      assert "result" in Redacted(a).fields;
    } else if Get(b, "result").Some? {
      assert "result" in Redacted(b).fields;
    }
  }

  lemma {:induction false} RedactedEntryTwice(entry: Json)
    ensures RedactedEntry(RedactedEntry(entry)) == RedactedEntry(entry)
  {
    if entry.Obj? {
      var once, twice := RedactedEntry(entry).fields, RedactedEntry(RedactedEntry(entry)).fields;
      forall k | k in once ensures twice[k] == once[k] {
        if k == "status" && Get(entry.fields[k], "Err").Some? {
          var st := once[k].fields;
          assert st["Err" := REDACTED_ERROR] == st;
        }
      }
      assert once == twice;
    }
  }

  /** Redacting twice is redacting once. */
  lemma {:induction false} RedactionIsIdempotent(json: Json)
    ensures Redacted(Redacted(json)) == Redacted(json)
  {
    var result := Get(json, "result");
    if result.Some? {
      var once := RedactedResult(result.value);
      if result.value.Arr? {
        EntriesTwice(result.value.items);
      } else if Listed(result.value).Some? {
        EntriesTwice(Listed(result.value).value);
        assert once.fields["value" := Arr(RedactedEntries(Listed(result.value).value))] == once.fields;
      }
      assert RedactedResult(once) == once;
      assert Redacted(json).fields["result" := once] == Redacted(json).fields;
    }
  }

  lemma {:induction false} EntriesTwice(entries: seq<Json>)
    ensures RedactedEntries(RedactedEntries(entries)) == RedactedEntries(entries)
  {
    forall i | 0 <= i < |entries| ensures RedactedEntries(RedactedEntries(entries))[i] == RedactedEntries(entries)[i] {
      RedactedEntryTwice(entries[i]);
    }
  }

  /** An entry with a null error and no failed status is served as it came. */
  lemma {:induction false} SuccessIsUntouched(entry: Json)
    requires Get(entry, "err") in {None, Some(Null)}
    requires Get(entry, "status").Some? ==> Get(Get(entry, "status").value, "Err").None?
    ensures RedactedEntry(entry) == entry
  {
    if entry.Obj? {
      assert RedactedEntry(entry).fields == entry.fields;
    }
  }
}
