/**
 * The computation at the heart of combined_process: given the caller's JSON
 * body and the configuration fetched from the Node.js service, the summary
 * of how many items were submitted against the allowed maximum.
 * The HTTP request, the upstream call and its status check are not modelled.
 */
module CombinedProcess {
  import opened Wrappers
  import opened JsonValue

  /** The maximum used when the configuration has no max_connections. */
  const DefaultMaxConnections: int := 100

  /** The "result" dictionary of combined_process. */
  datatype Processed = Processed(
    data: Json,
    maxItemsAllowed: Json,
    itemsProcessed: nat,
    withinLimits: bool)

  /**
   * The summary for a request body and a node configuration; None where the
   * source raises and falls into its generic error reply: a body or a
   * configuration that is not a JSON object, an "items" value without a
   * length, or a maximum that cannot be compared with an int.
   */
  function Process(data: Json, nodeConfig: Json): (r: Option<Processed>)
    ensures !data.JObject? || !nodeConfig.JObject? ==> r.None?
    ensures r.Some? ==> r.value.data == data
    ensures r.Some? ==>
      r.value.maxItemsAllowed == Get(nodeConfig.fields, "max_connections", JInt(DefaultMaxConnections))
    ensures r.Some? ==> PyLen(Get(data.fields, "items", JArray([]))) == Some(r.value.itemsProcessed)
    ensures r.Some? ==> AsPyInt(r.value.maxItemsAllowed).Some?
    ensures r.Some? ==>
      (r.value.withinLimits <==> r.value.itemsProcessed <= AsPyInt(r.value.maxItemsAllowed).value)
  {
    if !data.JObject? || !nodeConfig.JObject? then None
    else
      var maxItems := Get(nodeConfig.fields, "max_connections", JInt(DefaultMaxConnections));
      var count := PyLen(Get(data.fields, "items", JArray([])));
      var limit := AsPyInt(maxItems);
      if count.None? || limit.None? then None
      else Some(Processed(data, maxItems, count.value, count.value <= limit.value))
  }

  /**
   * For a list of L items and a declared integer maximum M, the reply counts
   * L items, reports M as the maximum, and is within limits iff L <= M.
   */
  lemma WithinLimitsIff(data: map<string, Json>, items: seq<Json>, config: map<string, Json>, m: int)
    requires "items" in data && data["items"] == JArray(items)
    requires "max_connections" in config && config["max_connections"] == JInt(m)
    ensures Process(JObject(data), JObject(config)).Some?
    ensures var p := Process(JObject(data), JObject(config)).value;
      p.itemsProcessed == |items| && p.maxItemsAllowed == JInt(m) &&
      (p.withinLimits <==> |items| <= m)
  {
  }

  /** Without max_connections the maximum is 100. */
  lemma DefaultLimit(data: map<string, Json>, items: seq<Json>, config: map<string, Json>)
    requires "items" in data && data["items"] == JArray(items)
    requires "max_connections" !in config
    ensures Process(JObject(data), JObject(config)) ==
      Some(Processed(JObject(data), JInt(100), |items|, |items| <= 100))
  {
  }

  /** A body without "items" counts as an empty list and is always within a non-negative maximum. */
  lemma MissingItems(data: map<string, Json>, config: map<string, Json>)
    requires "items" !in data
    requires "max_connections" in config ==> config["max_connections"].JInt?
    ensures Process(JObject(data), JObject(config)).Some?
    ensures Process(JObject(data), JObject(config)).value.itemsProcessed == 0
    ensures Process(JObject(data), JObject(config)).value.withinLimits <==>
      ("max_connections" !in config || config["max_connections"].n >= 0)
  {
  }

  /** The reply exists exactly when both inputs are objects, items has a length and the maximum is an int or a bool. */
  lemma ProcessDefinedIff(data: map<string, Json>, config: map<string, Json>)
    ensures Process(JObject(data), JObject(config)).Some? <==>
      PyLen(Get(data, "items", JArray([]))).Some? &&
      (Get(config, "max_connections", JInt(100)).JInt? || Get(config, "max_connections", JInt(100)).JBool?)
  {
  }

  /** A boolean maximum compares as 1 (true) or 0 (false), as bool does in Python. */
  lemma BooleanLimit(data: map<string, Json>, items: seq<Json>, config: map<string, Json>, flag: bool)
    requires "items" in data && data["items"] == JArray(items)
    requires "max_connections" in config && config["max_connections"] == JBool(flag)
    ensures Process(JObject(data), JObject(config)) ==
      Some(Processed(JObject(data), JBool(flag), |items|, |items| <= (if flag then 1 else 0)))
  {
  }
}
