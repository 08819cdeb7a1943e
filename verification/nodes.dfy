/** The node-level workflow transformations: automatic assignment of the
    "Redis Local" credential (import_workflows.py:238-263) and the report of
    nodes still lacking credentials (import_workflows.py:266-292). */
module Nodes {
  import opened Wrappers
  import opened JsonValues
  import Filtering

  const RedisType := "n8n-nodes-base.redis"
  const RedisTriggerType := "n8n-nodes-base.redisTrigger"
  const RedisCredentialName := "Redis Local"

  /** Node types that usually need a credential, with the label reported for each. */
  const CredentialLabels: map<string, string> :=
    map[
      "n8n-nodes-base.redis" := "Redis",
      "n8n-nodes-base.postgres" := "PostgreSQL",
      "n8n-nodes-base.mysql" := "MySQL",
      "n8n-nodes-base.httpRequest" := "HTTP Request (potentially)"
    ]

  /** The elements `for node in workflow.get("nodes", [])` visits. Iterating a
      non-empty object or string visits strings, on which the loop's `node.get`
      raises `AttributeError`; `null`, booleans and numbers are not iterable. */
  function NodeElements(wf: Object): (r: Result<seq<Json>, PyError>)
    ensures "nodes" !in wf ==> r == Ok([])
    ensures "nodes" in wf && wf["nodes"].JArr? ==> r == Ok(wf["nodes"].items)
    ensures r.Ok? && r.value != [] ==> "nodes" in wf && wf["nodes"].JArr?
    ensures r.Err? <==> "nodes" in wf && !wf["nodes"].JArr? && wf["nodes"] != JObj(map[]) && wf["nodes"] != JStr("")
    ensures r.Err? ==> (r.error == TypeError <==> wf["nodes"].JNull? || wf["nodes"].JBool? || wf["nodes"].JNum?)
  {
    if "nodes" !in wf then Ok([])
    else
      match wf["nodes"]
      case JArr(items) => Ok(items)
      case JObj(m) => if m == map[] then Ok([]) else Err(AttributeError)
      case JStr(s) => if s == "" then Ok([]) else Err(AttributeError)
      case _ => Err(TypeError)
  }

  /** The node's type is one of the two Redis node types. */
  predicate IsRedisNode(node: Object) {
    "type" in node && (node["type"] == JStr(RedisType) || node["type"] == JStr(RedisTriggerType))
  }

  /** The node's credentials map holds a truthy `redis` entry. */
  predicate HasRedisCredential(node: Object) {
    && "credentials" in node
    && node["credentials"].JObj?
    && "redis" in node["credentials"].fields
    && Truthy(node["credentials"].fields["redis"])
  }

  /** The credentials map of a node (absent means empty). */
  function CredentialsOf(node: Object): Object {
    if "credentials" in node && node["credentials"].JObj? then node["credentials"].fields else map[]
  }

  /** The reference written into a Redis node. */
  function RedisRef(id: Json): (r: Json)
    ensures r.JObj? && r.fields.Keys == {"id", "name"}
    ensures r.fields["id"] == id && r.fields["name"] == JStr(RedisCredentialName)
    ensures Truthy(r)
  {
    var fields := map["id" := id, "name" := JStr(RedisCredentialName)];
    assert "id" in fields;
    JObj(fields)
  }

  /** `after` is `before` with a `redis` credential added to its credentials map
      and nothing else changed. */
  ghost predicate CredentialAdded(before: Object, after: Object, id: Json) {
    && after.Keys == before.Keys + {"credentials"}
    && (forall k :: k in before && k != "credentials" ==> after[k] == before[k])
    && after["credentials"].JObj?
    && var c, c' := CredentialsOf(before), after["credentials"].fields;
    && c'.Keys == c.Keys + {"redis"}
    && c'["redis"] == RedisRef(id)
    && (forall k :: k in c && k != "redis" ==> c'[k] == c[k])
  }

  /** The per-node guarantee of the assignment: every Redis node ends up with a
      truthy `redis` credential, one that already had one keeps it, and every
      other node is left alone. */
  ghost predicate NodeAssigned(before: Json, after: Json, id: Json) {
    && before.JObj?
    && after.JObj?
    && if IsRedisNode(before.fields) then
         && HasRedisCredential(after.fields)
         && IsRedisNode(after.fields)
         && (HasRedisCredential(before.fields) ==> after == before)
         && (!HasRedisCredential(before.fields) ==> CredentialAdded(before.fields, after.fields, id))
       else after == before
  }

  /** A node the assignment can process without raising: a JSON object whose
      credentials, if it is a Redis node and has them, are an object. */
  predicate AssignableNode(node: Json) {
    && node.JObj?
    && (IsRedisNode(node.fields) && "credentials" in node.fields ==> node.fields["credentials"].JObj?)
  }

  /** The node lacks a truthy Redis credential and will be updated. */
  predicate NeedsRedis(node: Json) {
    node.JObj? && IsRedisNode(node.fields) && !HasRedisCredential(node.fields)
  }

  /** One iteration of the loop in `assign_redis_credentials`. */
  function AssignNode(node: Json, id: Json): (r: Result<(Json, bool), PyError>)
    ensures r.Ok? <==> AssignableNode(node)
    ensures r.Err? ==> r.error == AttributeError
    ensures r.Ok? ==> NodeAssigned(node, r.value.0, id)
    ensures r.Ok? ==> (r.value.1 <==> NeedsRedis(node))
  {
    if !node.JObj? then Err(AttributeError)
    else
      var m := node.fields;
      if !IsRedisNode(m) then Ok((node, false))
      else if "credentials" in m && !m["credentials"].JObj? then Err(AttributeError)
      else if HasRedisCredential(m) then Ok((node, false))
      else
        var creds := CredentialsOf(m);
        Ok((JObj(m["credentials" := JObj(creds["redis" := RedisRef(id)])]), true))
  }

  /** The loop of `assign_redis_credentials` over a node list, stopping at the
      first node that raises. */
  function AssignNodes(nodes: seq<Json>, id: Json): (r: Result<(seq<Json>, bool), PyError>)
    ensures r.Ok? <==> forall i :: 0 <= i < |nodes| ==> AssignableNode(nodes[i])
    ensures r.Ok? ==> |r.value.0| == |nodes|
    ensures r.Ok? ==> forall i :: 0 <= i < |nodes| ==> NodeAssigned(nodes[i], r.value.0[i], id)
    ensures r.Ok? ==> (r.value.1 <==> exists i :: 0 <= i < |nodes| && NeedsRedis(nodes[i]))
  {
    if |nodes| == 0 then Ok(([], false))
    else
      var head :- AssignNode(nodes[0], id);
      var tail :- AssignNodes(nodes[1..], id);
      assert forall i :: 1 <= i < |nodes| ==> nodes[i] == nodes[1..][i - 1];
      Ok(([head.0] + tail.0, head.1 || tail.1))
  }

  /** `assign_redis_credentials(workflow, id)`: the updated workflow and whether
      any node was updated, or the exception the loop raises. */
  function AssignRedis(wf: Object, id: Json): (r: Result<(Object, bool), PyError>)
    ensures r.Ok? <==> NodeElements(wf).Ok? && forall i :: 0 <= i < |NodeElements(wf).value| ==> AssignableNode(NodeElements(wf).value[i])
    ensures r.Ok? ==> r.value.0.Keys == wf.Keys
    ensures r.Ok? ==> forall k :: k in wf && k != "nodes" ==> r.value.0[k] == wf[k]
    ensures r.Ok? ==> NodeElements(r.value.0).Ok? && |NodeElements(r.value.0).value| == |NodeElements(wf).value|
    ensures r.Ok? ==> forall i :: 0 <= i < |NodeElements(wf).value| ==>
                        NodeAssigned(NodeElements(wf).value[i], NodeElements(r.value.0).value[i], id)
    ensures r.Ok? ==> (r.value.1 <==> exists i :: 0 <= i < |NodeElements(wf).value| && NeedsRedis(NodeElements(wf).value[i]))
  {
    var nodes :- NodeElements(wf);
    var updated :- AssignNodes(nodes, id);
    if "nodes" in wf && wf["nodes"].JArr? then Ok((wf["nodes" := JArr(updated.0)], updated.1))
    else Ok((wf, updated.1))
  }

  /** Applying the assignment to its own output changes nothing and reports
      that nothing was updated. */
  lemma AssignRedisIdempotent(wf: Object, id: Json)
    requires AssignRedis(wf, id).Ok?
    ensures AssignRedis(AssignRedis(wf, id).value.0, id) == Ok((AssignRedis(wf, id).value.0, false))
  {
    var wf' := AssignRedis(wf, id).value.0;
    var nodes, nodes' := NodeElements(wf).value, NodeElements(wf').value;
    forall i | 0 <= i < |nodes'|
      ensures AssignableNode(nodes'[i]) && !NeedsRedis(nodes'[i])
      ensures NodeAssigned(nodes'[i], nodes'[i], id)
    {
      assert NodeAssigned(nodes[i], nodes'[i], id);
    }
    AssignNodesFixpoint(nodes', id);
    if "nodes" in wf' && wf'["nodes"].JArr? {
      assert wf'["nodes" := JArr(nodes')] == wf';
    }
  }

  /** Nodes the assignment maps to themselves come back unchanged. */
  lemma {:induction false} AssignNodesFixpoint(nodes: seq<Json>, id: Json)
    requires forall i :: 0 <= i < |nodes| ==> AssignableNode(nodes[i]) && !NeedsRedis(nodes[i])
    ensures AssignNodes(nodes, id) == Ok((nodes, false))
  {
    if |nodes| > 0 {
      AssignNodesFixpoint(nodes[1..], id);
      assert [nodes[0]] + nodes[1..] == nodes;
    }
  }

  /** The credentials map of a node the report treats as unconfigured: empty or
      falsy, or an object whose values are all falsy. */
  predicate LacksCredentials(node: Object) {
    var c := Get(node, "credentials", JObj(map[]));
    !Truthy(c) || (c.JObj? && forall k :: k in c.fields ==> !Truthy(c.fields[k]))
  }

  /** The node has one of the four listed types and lacks credentials. */
  predicate NeedsCredentials(node: Json) {
    && node.JObj?
    && "type" in node.fields
    && node.fields["type"].JStr?
    && node.fields["type"].s in CredentialLabels
    && LacksCredentials(node.fields)
  }

  /** The label reported for a node that needs credentials. */
  function LabelOf(node: Json): string
    requires NeedsCredentials(node)
  {
    CredentialLabels[node.fields["type"].s]
  }

  /** A node the report can inspect without raising: an object whose type is
      hashable and, for a listed type, whose truthy credentials are an object. */
  predicate CheckableNode(node: Json) {
    && node.JObj?
    && HashKey(Get(node.fields, "type", JStr(""))).Ok?
    && var t, c := Get(node.fields, "type", JStr("")), Get(node.fields, "credentials", JObj(map[]));
    && (t.JStr? && t.s in CredentialLabels && Truthy(c) ==> c.JObj?)
  }

  /** One iteration of the loop in `check_credentials_needed`: the label the
      node contributes, if any. */
  function NodeNeed(node: Json): (r: Result<Option<string>, PyError>)
    ensures r.Ok? <==> CheckableNode(node)
    ensures r.Ok? ==> (r.value.Some? <==> NeedsCredentials(node))
    ensures r.Ok? && r.value.Some? ==> r.value.value == LabelOf(node)
  {
    if !node.JObj? then Err(AttributeError)
    else
      var t := Get(node.fields, "type", JStr(""));
      if HashKey(t).Err? then Err(TypeError)
      else if !(t.JStr? && t.s in CredentialLabels) then Ok(None)
      else
        var c := Get(node.fields, "credentials", JObj(map[]));
        if !Truthy(c) then Ok(Some(CredentialLabels[t.s]))
        else if !c.JObj? then Err(AttributeError)
        else if exists k :: k in c.fields && Truthy(c.fields[k]) then Ok(None)
        else Ok(Some(CredentialLabels[t.s]))
  }

  /** The loop of `check_credentials_needed` over a node list. */
  function NeededLabels(nodes: seq<Json>): (r: Result<seq<string>, PyError>)
    ensures r.Ok? <==> forall i :: 0 <= i < |nodes| ==> CheckableNode(nodes[i])
    ensures r.Ok? ==> |r.value| <= |nodes|
  {
    if |nodes| == 0 then Ok([])
    else
      var head :- NodeNeed(nodes[0]);
      var tail :- NeededLabels(nodes[1..]);
      assert forall i :: 1 <= i < |nodes| ==> nodes[i] == nodes[1..][i - 1];
      Ok(if head.Some? then [head.value] + tail else tail)
  }

  /** `check_credentials_needed(workflow)`. */
  function CheckCredentialsNeeded(wf: Object): (r: Result<seq<string>, PyError>)
    ensures r.Ok? <==> NodeElements(wf).Ok? && forall i :: 0 <= i < |NodeElements(wf).value| ==> CheckableNode(NodeElements(wf).value[i])
    ensures r.Ok? ==> |r.value| <= |NodeElements(wf).value|
    ensures r.Ok? ==> r.value == Filtering.Collect(NeedLabel, NodeElements(wf).value)
  {
    var nodes :- NodeElements(wf);
    var labels := NeededLabels(nodes);
    if labels.Ok? then NeededLabelsCollects(nodes); labels else labels
  }

  /** The label a node contributes to the report, as an optional value. */
  function NeedLabel(node: Json): Option<string> {
    if NeedsCredentials(node) then Some(LabelOf(node)) else None
  }

  /** The report is the labels of the nodes that need credentials, collected in
      node order. */
  lemma {:induction false} NeededLabelsCollects(nodes: seq<Json>)
    requires NeededLabels(nodes).Ok?
    ensures NeededLabels(nodes).value == Filtering.Collect(NeedLabel, nodes)
  {
    if |nodes| > 0 {
      NeededLabelsCons(nodes);
      NeededLabelsCollects(nodes[1..]);
    }
  }

  /** The report lists one label per node that needs credentials, in node
      order: `pos` gives, strictly increasing, the position of the node each
      label comes from, and every node that needs credentials appears in it. */
  lemma NeededLabelsInOrder(nodes: seq<Json>) returns (pos: seq<nat>)
    requires NeededLabels(nodes).Ok?
    ensures |pos| == |NeededLabels(nodes).value|
    ensures forall k :: 0 <= k < |pos| ==>
              pos[k] < |nodes| && NeedsCredentials(nodes[pos[k]]) && NeededLabels(nodes).value[k] == LabelOf(nodes[pos[k]])
    ensures forall k :: 0 <= k < |pos| - 1 ==> pos[k] < pos[k + 1]
    ensures forall i :: 0 <= i < |nodes| && NeedsCredentials(nodes[i]) ==> i in pos
  {
    NeededLabelsCollects(nodes);
    pos := Filtering.CollectInOrder(NeedLabel, nodes);
  }

  /** The report on a non-empty list is the first node's label, if any,
      followed by the report on the rest. */
  lemma NeededLabelsCons(nodes: seq<Json>)
    requires |nodes| > 0 && NeededLabels(nodes).Ok?
    ensures NeededLabels(nodes[1..]).Ok?
    ensures NeededLabels(nodes).value ==
              (if NeedsCredentials(nodes[0]) then [LabelOf(nodes[0])] else []) + NeededLabels(nodes[1..]).value
  {
    assert CheckableNode(nodes[0]);
    assert forall i :: 1 <= i < |nodes| ==> nodes[i] == nodes[1..][i - 1];
  }

  /** Nodes that went through the assignment never produce the "Redis" label. */
  lemma {:induction false} NoRedisLabelAfterAssignNodes(before: seq<Json>, after: seq<Json>, id: Json)
    requires |before| == |after|
    requires forall i :: 0 <= i < |before| ==> NodeAssigned(before[i], after[i], id)
    requires NeededLabels(after).Ok?
    ensures "Redis" !in NeededLabels(after).value
  {
    if |after| > 0 {
      assert forall i :: 1 <= i < |before| ==> before[i] == before[1..][i - 1] && after[i] == after[1..][i - 1];
      NoRedisLabelAfterAssignNodes(before[1..], after[1..], id);
      assert NodeAssigned(before[0], after[0], id);
    }
  }

  /** After the Redis credential has been assigned, the report of missing
      credentials never mentions Redis. */
  lemma NoRedisLabelAfterAssign(wf: Object, id: Json)
    requires AssignRedis(wf, id).Ok?
    requires CheckCredentialsNeeded(AssignRedis(wf, id).value.0).Ok?
    ensures "Redis" !in CheckCredentialsNeeded(AssignRedis(wf, id).value.0).value
  {
    var wf' := AssignRedis(wf, id).value.0;
    NoRedisLabelAfterAssignNodes(NodeElements(wf).value, NodeElements(wf').value, id);
  }
}
