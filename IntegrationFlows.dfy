/**
 * The integration-flow store behind `/api/ale/integration-flows`: POST
 * sanitizes the submitted flows and merges them into the store by
 * `flow_id` (a submitted flow replaces the stored one with the same id,
 * keeping its place), GET lists the stored flows of one source or all of
 * them, and DELETE drops the flows of one source, or every flow when no
 * source is named.
 *
 * The store file is a field of `FlowStore`; JavaScript's `String()` and
 * `Number()` conversions of non-string and non-number JSON values and the
 * clock are parameters.
 */
module IntegrationFlows {
  import opened Common

  /** `IntegrationFlow`; absent optional text fields are None. */
  datatype Flow = Flow(
    flowId: string,
    source: string,
    systemFrom: string,
    systemTo: string,
    env: Option<string>,
    status: Option<string>,
    lastSeen: string,
    latencyMs: Num,
    errorRate: Num,
    ownerTeam: Option<string>,
    confidence: Num)

  const DefaultConfidence: real := 0.8

  /** `String(v)`: a string is itself; `show` renders every other JSON value. */
  function JsString(v: Json, show: Json -> string): (r: string)
    ensures v.JStr? ==> r == v.s
  {
    if v.JStr? then v.s else show(v)
  }

  /** The field is present and truthy (`value.key ? … : …`). */
  predicate Truthy(value: Json, key: string)
  {
    var f := Field(value, key); f.Some? && JsTruthy(f.value)
  }

  /** `value.key ? String(value.key) : undefined`. */
  function OptionalText(value: Json, key: string, show: Json -> string): (r: Option<string>)
    ensures r.Some? <==> Truthy(value, key)
  {
    if Truthy(value, key) then Some(JsString(Field(value, key).value, show)) else None
  }

  /**
   * `typeof value.key === "number" ? value.key : Number(value.key ?? dflt)`:
   * a number is kept, an absent or null field gives `dflt`, and anything
   * else goes through `toNumber` (JavaScript's `Number()`).
   */
  function NumberOr(value: Json, key: string, dflt: real, toNumber: Json -> Num): (r: Num)
    ensures Field(value, key).Some? && Field(value, key).value.JNum? ==> r == Finite(Field(value, key).value.n)
    ensures Field(value, key) == None || Field(value, key) == Some(JNull) ==> r == Finite(dflt)
  {
    match Field(value, key)
    case None => Finite(dflt)
    case Some(JNull) => Finite(dflt)
    case Some(JNum(n)) => Finite(n)
    case Some(other) => toNumber(other)
  }

  /** The four fields a flow cannot do without. */
  predicate HasRequired(value: Json)
  {
    Truthy(value, "flow_id") && Truthy(value, "source") && Truthy(value, "system_from") && Truthy(value, "system_to")
  }

  /**
   * `sanitizeFlow`: None unless `value` is an object whose four required
   * fields are truthy (`Field` of an array or a scalar is absent, so those
   * fail the same test); `now` is the current ISO time used when
   * `last_seen` is missing.
   */
  function SanitizeFlow(value: Json, now: string, show: Json -> string, toNumber: Json -> Num): (r: Option<Flow>)
    ensures r.Some? <==> value.JObj? && HasRequired(value)
    ensures r.Some? ==>
              (Field(value, "flow_id").value.JStr? ==> r.value.flowId == Field(value, "flow_id").value.s) &&
              (Field(value, "source").value.JStr? ==> r.value.source == Field(value, "source").value.s) &&
              (r.value.lastSeen == now <== !Truthy(value, "last_seen")) &&
              (r.value.env.Some? <==> Truthy(value, "env")) &&
              (r.value.status.Some? <==> Truthy(value, "status")) &&
              (r.value.ownerTeam.Some? <==> Truthy(value, "owner_team")) &&
              (Field(value, "confidence").None? ==> r.value.confidence == Finite(0.8)) &&
              (Field(value, "latency_ms").None? ==> r.value.latencyMs == Finite(0.0)) &&
              (Field(value, "error_rate").None? ==> r.value.errorRate == Finite(0.0))
  {
    if !JsTruthy(value) || !(value.JObj? || value.JArr?) then None
    else if !HasRequired(value) then None
    else
      Some(Flow(
        JsString(Field(value, "flow_id").value, show),
        JsString(Field(value, "source").value, show),
        JsString(Field(value, "system_from").value, show),
        JsString(Field(value, "system_to").value, show),
        OptionalText(value, "env", show),
        OptionalText(value, "status", show),
        if Truthy(value, "last_seen") then JsString(Field(value, "last_seen").value, show) else now,
        NumberOr(value, "latency_ms", 0.0, toNumber),
        NumberOr(value, "error_rate", 0.0, toNumber),
        OptionalText(value, "owner_team", show),
        NumberOr(value, "confidence", DefaultConfidence, toNumber)))
  }

  // ---------------------------------------------------------------- the POST payload

  /** `Array.isArray(payload) ? payload : payload ? [payload] : []`; an unreadable body is None. */
  function InputArray(payload: Option<Json>): (r: seq<Json>)
    ensures payload.None? ==> r == []
    ensures payload.Some? && payload.value.JArr? ==> r == payload.value.items
    ensures payload.Some? && !payload.value.JArr? ==> r == (if JsTruthy(payload.value) then [payload.value] else [])
  {
    match payload
    case None => []
    case Some(JArr(items)) => items
    case Some(v) => if JsTruthy(v) then [v] else []
  }

  /** `inputArray.map(sanitizeFlow).filter(Boolean)`. */
  function SanitizeAll(items: seq<Json>, now: string, show: Json -> string, toNumber: Json -> Num): (r: seq<Flow>)
    ensures |r| == CountWhere(items, (v: Json) => v.JObj? && HasRequired(v))
  {
    if |items| == 0 then []
    else
      var init := SanitizeAll(items[..|items| - 1], now, show, toNumber);
      match SanitizeFlow(items[|items| - 1], now, show, toNumber)
      case None => init
      case Some(f) => init + [f]
  }

  /** Every kept flow is the sanitized form of one of the items. */
  lemma {:induction false} SanitizeAllFrom(items: seq<Json>, now: string, show: Json -> string, toNumber: Json -> Num)
    ensures forall f :: f in SanitizeAll(items, now, show, toNumber) ==>
              exists v :: v in items && SanitizeFlow(v, now, show, toNumber) == Some(f)
  {
    if |items| > 0 {
      var init := items[..|items| - 1];
      SanitizeAllFrom(init, now, show, toNumber);
      assert forall v :: v in init ==> v in items;
    }
  }

  // ---------------------------------------------------------------- the merge

  /** A JavaScript `Map` from flow id to flow: the ids in insertion order and the entries. */
  datatype FlowMap = FlowMap(order: seq<string>, byId: map<string, Flow>)

  /** The map's order lists its keys once each, and every entry sits under its own id. */
  ghost predicate MapOk(m: FlowMap)
  {
    Distinct(m.order) &&
    (forall k :: k in m.order <==> k in m.byId) &&
    (forall k :: k in m.byId ==> m.byId[k].flowId == k)
  }

  /** `map.set(flow.flow_id, flow)`: a new id goes last, a known one keeps its place and takes the new flow. */
  function Put(m: FlowMap, f: Flow): FlowMap
  {
    FlowMap(if f.flowId in m.byId then m.order else m.order + [f.flowId], m.byId[f.flowId := f])
  }

  /** Setting every flow in turn. */
  function PutAll(m: FlowMap, flows: seq<Flow>): FlowMap
  {
    if |flows| == 0 then m else Put(PutAll(m, flows[..|flows| - 1]), flows[|flows| - 1])
  }

  /** The last flow of `flows` with id `k`. */
  function LastWithId(flows: seq<Flow>, k: string): (r: Option<Flow>)
    ensures r.Some? ==> r.value in flows && r.value.flowId == k
    ensures r.None? <==> forall f :: f in flows ==> f.flowId != k
  {
    if |flows| == 0 then None
    else if flows[|flows| - 1].flowId == k then Some(flows[|flows| - 1])
    else
      assert forall f :: f in flows[..|flows| - 1] ==> f in flows;
      assert forall f :: f in flows ==> f in flows[..|flows| - 1] || f == flows[|flows| - 1];
      LastWithId(flows[..|flows| - 1], k)
  }

  /** `Array.from(map.values())`. */
  function Values(m: FlowMap): (r: seq<Flow>)
    requires forall k :: k in m.order ==> k in m.byId
    ensures |r| == |m.order|
    ensures forall i :: 0 <= i < |r| ==> r[i] == m.byId[m.order[i]]
  {
    seq(|m.order|, i requires 0 <= i < |m.order| => m.byId[m.order[i]])
  }

  const EmptyMap := FlowMap([], map[])

  /** Setting a flow keeps the map well formed. */
  lemma PutOk(m: FlowMap, f: Flow)
    requires MapOk(m)
    ensures MapOk(Put(m, f))
  {
  }

  /**
   * After setting `flows`, an id is present exactly when it was before or
   * some flow has it, and it holds the last such flow, or its old entry
   * when no flow has it.
   */
  lemma {:induction false} PutAllFacts(m: FlowMap, flows: seq<Flow>)
    requires MapOk(m)
    ensures MapOk(PutAll(m, flows))
    ensures forall k :: k in PutAll(m, flows).byId <==> k in m.byId || LastWithId(flows, k).Some?
    ensures forall k :: k in PutAll(m, flows).byId ==>
              PutAll(m, flows).byId[k] == (if LastWithId(flows, k).Some? then LastWithId(flows, k).value else m.byId[k])
  {
    if |flows| > 0 {
      PutAllFacts(m, flows[..|flows| - 1]);
      PutOk(PutAll(m, flows[..|flows| - 1]), flows[|flows| - 1]);
    }
  }

  /** The stored list after POST: the existing flows keyed by id, then the sanitized flows set over them. */
  function Merged(existing: seq<Flow>, incoming: seq<Flow>): (r: seq<Flow>)
  {
    PutAllFacts(EmptyMap, existing);
    PutAllFacts(PutAll(EmptyMap, existing), incoming);
    Values(PutAll(PutAll(EmptyMap, existing), incoming))
  }

  /** The merge as a map: the stored flows keyed by id, then the submitted ones set over them. */
  lemma MergedMap(existing: seq<Flow>, incoming: seq<Flow>)
    ensures var m := PutAll(PutAll(EmptyMap, existing), incoming);
            MapOk(m) && Merged(existing, incoming) == Values(m) &&
            (forall k :: k in m.byId <==> LastWithId(existing, k).Some? || LastWithId(incoming, k).Some?) &&
            (forall k :: k in m.byId ==>
              m.byId[k] == (if LastWithId(incoming, k).Some? then LastWithId(incoming, k).value else LastWithId(existing, k).value))
  {
    PutAllFacts(EmptyMap, existing);
    PutAllFacts(PutAll(EmptyMap, existing), incoming);
  }

  /** The merge keeps one flow per id. */
  lemma MergedDistinct(existing: seq<Flow>, incoming: seq<Flow>)
    ensures var r := Merged(existing, incoming);
            forall i, j :: 0 <= i < j < |r| ==> r[i].flowId != r[j].flowId
  {
    MergedMap(existing, incoming);
  }

  /** A submitted flow wins over a stored one with its id, and among several with one id the last wins. */
  lemma MergedWinner(existing: seq<Flow>, incoming: seq<Flow>)
    ensures forall f :: f in Merged(existing, incoming) ==>
              LastWithId(incoming, f.flowId) == Some(f) ||
              (LastWithId(incoming, f.flowId).None? && LastWithId(existing, f.flowId) == Some(f))
  {
    MergedMap(existing, incoming);
    var m := PutAll(PutAll(EmptyMap, existing), incoming);
    forall f | f in Merged(existing, incoming)
      ensures LastWithId(incoming, f.flowId) == Some(f) ||
              (LastWithId(incoming, f.flowId).None? && LastWithId(existing, f.flowId) == Some(f))
    {
      var i :| 0 <= i < |m.order| && Values(m)[i] == f;
      assert m.byId[m.order[i]] == f;
    }
  }

  /** The merged ids are exactly those of the stored and the submitted flows. */
  lemma MergedIds(existing: seq<Flow>, incoming: seq<Flow>, k: string)
    ensures (exists f :: f in Merged(existing, incoming) && f.flowId == k) <==>
            LastWithId(existing, k).Some? || LastWithId(incoming, k).Some?
  {
    MergedMap(existing, incoming);
    var m := PutAll(PutAll(EmptyMap, existing), incoming);
    var r := Merged(existing, incoming);
    if LastWithId(existing, k).Some? || LastWithId(incoming, k).Some? {
      assert k in m.order;
      var i :| 0 <= i < |m.order| && m.order[i] == k;
      assert r[i] in r && r[i].flowId == k;
    }
  }

  /** Every submitted flow is stored as submitted when no later submission shares its id. */
  lemma IncomingStored(existing: seq<Flow>, incoming: seq<Flow>, i: nat)
    requires i < |incoming|
    requires forall j :: i < j < |incoming| ==> incoming[j].flowId != incoming[i].flowId
    ensures incoming[i] in Merged(existing, incoming)
  {
    var k := incoming[i].flowId;
    assert LastWithId(incoming, k) == Some(incoming[i]) by {
      LastWithIdSuffix(incoming, i);
    }
    MergedIds(existing, incoming, k);
    MergedWinner(existing, incoming);
  }

  /** The last flow with a given id is the one at `i` when none after `i` shares it. */
  lemma {:induction false} LastWithIdSuffix(flows: seq<Flow>, i: nat)
    requires i < |flows|
    requires forall j :: i < j < |flows| ==> flows[j].flowId != flows[i].flowId
    ensures LastWithId(flows, flows[i].flowId) == Some(flows[i])
  {
    if i < |flows| - 1 {
      LastWithIdSuffix(flows[..|flows| - 1], i);
    }
  }

  /** A stored flow whose id nobody submits stays as it was. */
  lemma UntouchedKept(existing: seq<Flow>, incoming: seq<Flow>, i: nat)
    requires i < |existing|
    requires forall j :: i < j < |existing| ==> existing[j].flowId != existing[i].flowId
    requires forall f :: f in incoming ==> f.flowId != existing[i].flowId
    ensures existing[i] in Merged(existing, incoming)
  {
    LastWithIdSuffix(existing, i);
    MergedIds(existing, incoming, existing[i].flowId);
    MergedWinner(existing, incoming);
  }

  // ---------------------------------------------------------------- requests

  /** The `source` query parameter names a source (`sourceFilter ? … : …`; an empty value is falsy). */
  predicate Names(sourceFilter: Option<string>)
  {
    sourceFilter.Some? && sourceFilter.value != ""
  }

  /** The POST response: 200 with the counts, or 400 when nothing valid was supplied. */
  datatype PostResponse = Stored(count: nat, total: nat) | NoValidFlows

  /** The DELETE response. */
  datatype DeleteResponse = Deleted(removed: nat, remaining: nat)

  /** The flows DELETE keeps: those of other sources, or none when no source is named. */
  function Kept(flows: seq<Flow>, sourceFilter: Option<string>): (r: seq<Flow>)
    ensures forall f :: f in r <==> f in flows && Names(sourceFilter) && f.source != sourceFilter.value
    ensures IsSubsequence(r, flows)
  {
    if Names(sourceFilter) then Filter(flows, (f: Flow) => f.source != sourceFilter.value) else []
  }

  /** DELETE removes as many flows as the store held of the named source, or all of them. */
  lemma {:induction false} RemovedCount(flows: seq<Flow>, s: string)
    ensures |flows| - |Filter(flows, (f: Flow) => f.source != s)| == CountWhere(flows, (f: Flow) => f.source == s)
  {
    if |flows| > 0 {
      RemovedCount(flows[..|flows| - 1], s);
    }
  }

  /** The store file as a list of flows; a missing file reads as empty. */
  class FlowStore {
    var flows: seq<Flow>

    constructor()
      ensures flows == []
    {
      flows := [];
    }

    /** GET: the stored flows of the named source, in stored order, or every flow. */
    method List(sourceFilter: Option<string>) returns (r: seq<Flow>)
      ensures forall f :: f in r <==> f in flows && (Names(sourceFilter) ==> f.source == sourceFilter.value)
      ensures Names(sourceFilter) ==> IsSubsequence(r, flows)
      ensures !Names(sourceFilter) ==> r == flows
    {
      if Names(sourceFilter) {
        var s := sourceFilter.value;
        r := Filter(flows, (f: Flow) => f.source == s);
      } else {
        r := flows;
      }
    }

    /**
     * POST: sanitize the payload; with nothing valid answer 400 and leave
     * the store alone, otherwise merge by id and report the submitted and
     * the stored counts.
     */
    method Post(payload: Option<Json>, now: string, show: Json -> string, toNumber: Json -> Num)
      returns (resp: PostResponse)
      modifies this
      ensures var normalized := SanitizeAll(InputArray(payload), now, show, toNumber);
              if |normalized| == 0 then resp == NoValidFlows && flows == old(flows)
              else flows == Merged(old(flows), normalized) && resp == Stored(|normalized|, |flows|)
    {
      var normalized := SanitizeAll(InputArray(payload), now, show, toNumber);
      if |normalized| == 0 {
        return NoValidFlows;
      }
      var merged := MergeFlows(flows, normalized);
      flows := merged;
      resp := Stored(|normalized|, |merged|);
    }

    /** DELETE: keep the flows of other sources, or none, and report how many went. */
    method Delete(sourceFilter: Option<string>) returns (resp: DeleteResponse)
      modifies this
      ensures flows == Kept(old(flows), sourceFilter)
      ensures resp.remaining == |flows| && resp.removed == |old(flows)| - |flows|
    {
      var existing := flows;
      var filtered := Kept(existing, sourceFilter);
      assert |filtered| <= |existing| by {
        if Names(sourceFilter) {
          assert |filtered| == CountWhere(existing, (f: Flow) => f.source != sourceFilter.value);
        }
      }
      flows := filtered;
      resp := Deleted(|existing| - |filtered|, |filtered|);
    }
  }

  /** `new Map(existing …)`, then `normalized.forEach(map.set)`, then the values. */
  method MergeFlows(existing: seq<Flow>, incoming: seq<Flow>) returns (merged: seq<Flow>)
    ensures merged == Merged(existing, incoming)
  {
    var m := EmptyMap;
    for i := 0 to |existing|
      invariant m == PutAll(EmptyMap, existing[..i])
    {
      assert existing[..i + 1][..i] == existing[..i];
      m := Put(m, existing[i]);
    }
    assert existing[..|existing|] == existing;
    for i := 0 to |incoming|
      invariant m == PutAll(PutAll(EmptyMap, existing), incoming[..i])
    {
      assert incoming[..i + 1][..i] == incoming[..i];
      m := Put(m, incoming[i]);
    }
    assert incoming[..|incoming|] == incoming;
    PutAllFacts(EmptyMap, existing);
    PutAllFacts(PutAll(EmptyMap, existing), incoming);
    merged := Values(m);
  }
}
