/**
 * The request the gateway forwards (gateway/src/lib.rs): the slot scope it adds to a history read,
 * and the whole-account encoding it asks for before holding the reply to what was authorized.
 */
module OutgoingRequest {
  import opened Common
  import opened Json
  import opened OwnerTimeline
  import opened Ownership

  const SLOT_RANGES := "privateChannelSlotRanges"

  /** The params as the source sees them: an array, or nothing it edits. */
  function Params(request: Json): Option<seq<Json>> {
    var params := Get(request, "params");
    if params.Some? && params.value.Arr? then Some(params.value.items) else None
  }

  /** The config at position 1, made an object when it is absent or anything else. */
  function Config(items: seq<Json>): map<string, Json> {
    if |items| >= 2 && items[1].Obj? then items[1].fields else map[]
  }

  /** Nothing of the request changes but the config: not the rest of its params, nor of its fields. */
  ghost predicate OnlyConfigChanges(request: Json, forwarded: Json) {
    && request.Obj? && forwarded.Obj? && Params(request).Some? && Params(forwarded).Some?
    && (forall k :: k != "params" ==> Get(forwarded, k) == Get(request, k))
    && |Params(forwarded).value| == Max(2, |Params(request).value|)
    && forall i :: 0 <= i < |Params(request).value| && i != 1 ==> Params(forwarded).value[i] == Params(request).value[i]
  }

  /** The params resized to two at least, with the config in place. */
  function WithConfig(request: Json, items: seq<Json>, config: map<string, Json>): Json
    requires request.Obj?
  {
    var first := if |items| >= 1 then items[0] else Null;
    var rest := if |items| >= 2 then items[2..] else [];
    Set(request, "params", Arr([first, Obj(config)] + rest))
  }

  function Range(window: Window): Json {
    Arr([Num(window.first), Num(window.last)])
  }

  function Ranges(windows: seq<Window>): Json {
    Arr(seq(|windows|, i requires 0 <= i < |windows| => Range(windows[i])))
  }

  /** `apply_slot_ranges`: set, never merged. */
  function ApplySlotRanges(request: Json, windows: seq<Window>): Json {
    if Params(request).None? then request
    else WithConfig(request, Params(request).value, Config(Params(request).value)[SLOT_RANGES := Ranges(windows)])
  }

  /** `ask_for_whole_base64`: the caller's config but for the encoding and the slice. */
  function AskForWholeBase64(request: Json): Json {
    if Params(request).None? then request
    else WithConfig(request, Params(request).value,
      Config(Params(request).value)["encoding" := Str("base64")] - {"dataSlice"})
  }

  /** What the node reads as the caller's scope. */
  function ScopeOf(request: Json): Option<Json> {
    if Params(request).None? || |Params(request).value| < 2 then None
    else Get(Params(request).value[1], SLOT_RANGES)
  }

  /** How the node takes a scope: none at all, windows to keep to, or a config it refuses. */
  datatype Scope = Unscoped | Scoped(windows: seq<Window>) | Malformed

  function WindowIn(j: Json): Option<Window> {
    if j.Arr? && |j.items| == 2 && j.items[0].Num? && j.items[1].Num?
       && I64_MIN <= j.items[0].n <= I64_MAX && I64_MIN <= j.items[1].n <= I64_MAX
    then Some(Window(j.items[0].n, j.items[1].n)) else None
  }

  function WindowsIn(items: seq<Json>): Option<seq<Window>> {
    if items == [] then Some([])
    else
      var first, rest := WindowIn(items[0]), WindowsIn(items[1..]);
      if first.Some? && rest.Some? then Some([first.value] + rest.value) else None
  }

  /** `SignaturesForAddressConfig` on the node: pairs of slots, first and last, under the agreed name. */
  function NodeScope(request: Json): Scope {
    var scope := ScopeOf(request);
    if scope.None? || scope.value.Null? then Unscoped
    else if !scope.value.Arr? || WindowsIn(scope.value.items).None? then Malformed
    else Scoped(WindowsIn(scope.value.items).value)
  }

  lemma {:induction false} RangesAreRead(windows: seq<Window>)
    ensures WindowsIn(Ranges(windows).items) == Some(windows)
  {
    if windows != [] {
      assert Ranges(windows).items[1..] == Ranges(windows[1..]).items;
      RangesAreRead(windows[1..]);
      assert Ranges(windows).items[0] == Range(windows[0]) && WindowIn(Range(windows[0])) == Some(windows[0]);
      assert [windows[0]] + windows[1..] == windows;
    }
  }

  /** The node keeps to exactly the gateway's windows. */
  lemma {:induction false} NodeReadsWindows(request: Json, windows: seq<Window>)
    requires Params(request).Some?
    ensures NodeScope(ApplySlotRanges(request, windows)) == Scoped(windows)
  {
    RangesAreRead(windows);
    CallerCannotWiden(request, windows, Null);
  }

  /** The request with a scope of the caller's own. */
  function Claiming(request: Json, scope: Json): Json {
    if Params(request).None? then request
    else WithConfig(request, Params(request).value, Config(Params(request).value)[SLOT_RANGES := scope])
  }

  /**
   * A positional request carries the gateway's windows, and whatever scope its caller supplied is gone
   * without trace.
   */
  lemma {:induction false} CallerCannotWiden(request: Json, windows: seq<Window>, scope: Json)
    requires Params(request).Some?
    ensures ScopeOf(ApplySlotRanges(request, windows)) == Some(Ranges(windows))
    ensures ApplySlotRanges(Claiming(request, scope), windows) == ApplySlotRanges(request, windows)
    ensures ApplySlotRanges(ApplySlotRanges(request, windows), windows) == ApplySlotRanges(request, windows)
    ensures OnlyConfigChanges(request, ApplySlotRanges(request, windows))
  {
    ConfigRewritten(request, Config(Params(request).value)[SLOT_RANGES := scope], windows);
    ConfigRewritten(request, Config(Params(request).value)[SLOT_RANGES := Ranges(windows)], windows);
    assert Config(Params(request).value)[SLOT_RANGES := scope][SLOT_RANGES := Ranges(windows)]
           == Config(Params(request).value)[SLOT_RANGES := Ranges(windows)];
    assert Config(Params(request).value)[SLOT_RANGES := Ranges(windows)][SLOT_RANGES := Ranges(windows)]
           == Config(Params(request).value)[SLOT_RANGES := Ranges(windows)];
  }

  /** Setting the config twice is setting it once. */
  lemma {:induction false} ConfigRewritten(request: Json, config: map<string, Json>, windows: seq<Window>)
    requires Params(request).Some?
    ensures ApplySlotRanges(WithConfig(request, Params(request).value, config), windows)
            == WithConfig(request, Params(request).value, config[SLOT_RANGES := Ranges(windows)])
    ensures Params(WithConfig(request, Params(request).value, config)).Some?
    ensures Config(Params(WithConfig(request, Params(request).value, config)).value) == config
  {
    var items := Params(request).value;
    var once := WithConfig(request, items, config);
    var rest := if |items| >= 2 then items[2..] else [];
    var set1 := Params(once).value;
    assert set1[0] == (if |items| >= 1 then items[0] else Null) && set1[1] == Obj(config) && set1[2..] == rest;
    var twice := WithConfig(once, set1, config[SLOT_RANGES := Ranges(windows)]);
    assert twice.fields == WithConfig(request, items, config[SLOT_RANGES := Ranges(windows)]).fields;
  }

  /**
   * Any request whose slice was understood is forwarded asking for the whole account in base64: the
   * node is asked for no slice, and the address and the rest of the config are the caller's.
   */
  lemma {:induction false} WholeAccountIsAskedFor(request: Json)
    requires Params(request).Some? && RequestedDataSlice(request.fields["params"]).Ok?
    ensures var forwarded := AskForWholeBase64(request);
            && RequestedDataSlice(forwarded.fields["params"]) == Ok(None)
            && Get(Params(forwarded).value[1], "encoding") == Some(Str("base64"))
            && OnlyConfigChanges(request, forwarded)
            && forall k :: k != "encoding" && k != "dataSlice" ==>
                 Get(Params(forwarded).value[1], k) == Get(Obj(Config(Params(request).value)), k)
  {
    var config := Config(Params(request).value)["encoding" := Str("base64")] - {"dataSlice"};
    ConfigRewritten(request, config, []);
    var items := Params(AskForWholeBase64(request)).value;
    assert items[1] == Obj(config);
    assert Get(items[1], "dataSlice") == None;
  }
}
