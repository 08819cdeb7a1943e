/** Importing one workflow (`import_workflow`, import_workflows.py:295-422):
    the document is stripped of read-only fields, Redis nodes receive the
    "Redis Local" credential, and the workflow is skipped, sent as a PUT to the
    existing workflow or sent as a POST. The request is returned as a value and
    the server's reply is a parameter. */
module Import {
  import opened Wrappers
  import opened JsonValues
  import Nodes
  import Listing

  /** Fields the server manages and rejects on import. */
  const ReadOnlyFields: set<string> := {"active", "id", "createdAt", "updatedAt", "versionId", "tags"}

  /** The name a workflow is routed by when the document has none. */
  const DefaultName := "Unknown"

  /** Removing the read-only fields: none of them is left and every other
      top-level field keeps its value. */
  function StripReadOnly(wf: Object): (r: Object)
    ensures forall f :: f in ReadOnlyFields ==> f !in r
    ensures forall k :: k in wf && k !in ReadOnlyFields ==> k in r && r[k] == wf[k]
    ensures r.Keys <= wf.Keys
  {
    wf - ReadOnlyFields
  }

  /** Stripping twice is stripping once. */
  lemma StripReadOnlyIdempotent(wf: Object)
    ensures StripReadOnly(StripReadOnly(wf)) == StripReadOnly(wf)
  {
  }

  /** The collection a request goes to: `/rest/workflows` with a login session,
      `/api/v1/workflows` otherwise. */
  datatype Endpoint = RestWorkflows | ApiWorkflows

  /** A POST of a new workflow, or a PUT to the id of the existing one (`None`
      when the existing entry has no id). */
  datatype Verb = Post | Put(id: Option<Json>)

  datatype Request = Request(verb: Verb, endpoint: Endpoint, headers: map<string, string>, body: Object)

  /** What `import_workflow` does with the server: nothing, or one request. */
  datatype Plan = Skip | Send(request: Request)

  /** A reply from the server: its status and its body, `None` when the body is
      not JSON. */
  datatype Reply = Reply(status: int, body: Option<Json>)

  /** The API key travels in a header only when there is no session. */
  predicate UsesApiKey(session: bool, apiKey: Option<string>) {
    !session && apiKey.Some? && apiKey.value != ""
  }

  /** The request headers. */
  function Headers(session: bool, apiKey: Option<string>): (r: map<string, string>)
    ensures "Content-Type" in r && r["Content-Type"] == "application/json"
    ensures "X-N8N-API-KEY" in r <==> UsesApiKey(session, apiKey)
    ensures "X-N8N-API-KEY" in r ==> r["X-N8N-API-KEY"] == apiKey.value
    ensures r.Keys <= {"Content-Type", "X-N8N-API-KEY"}
  {
    var base := map["Content-Type" := "application/json"];
    if UsesApiKey(session, apiKey) then base["X-N8N-API-KEY" := apiKey.value] else base
  }

  /** The credential id is used only when it is truthy. */
  predicate UsableCredentialId(redisId: Option<Json>) {
    redisId.Some? && Truthy(redisId.value)
  }

  /** The document as it is sent: read-only fields stripped and, when a usable
      credential id is known, the "Redis Local" credential assigned. */
  function Prepare(wf: Object, redisId: Option<Json>): (r: Result<Object, PyError>)
    ensures !UsableCredentialId(redisId) ==> r == Ok(StripReadOnly(wf))
    ensures r.Ok? ==> forall f :: f in ReadOnlyFields ==> f !in r.value
    ensures r.Ok? ==> forall k :: k in wf && k !in ReadOnlyFields && k != "nodes" ==> k in r.value && r.value[k] == wf[k]
    ensures r.Ok? ==> r.value.Keys == wf.Keys - ReadOnlyFields
    ensures UsableCredentialId(redisId) ==>
              (r.Ok? <==> && Nodes.NodeElements(wf).Ok?
                          && forall i :: 0 <= i < |Nodes.NodeElements(wf).value| ==>
                               Nodes.AssignableNode(Nodes.NodeElements(wf).value[i]))
    ensures r.Ok? && !UsableCredentialId(redisId) ==> Nodes.NodeElements(r.value) == Nodes.NodeElements(wf)
    ensures r.Ok? && UsableCredentialId(redisId) ==>
              && Nodes.NodeElements(wf).Ok? && Nodes.NodeElements(r.value).Ok?
              && |Nodes.NodeElements(r.value).value| == |Nodes.NodeElements(wf).value|
    ensures r.Ok? && UsableCredentialId(redisId) ==>
              forall i :: 0 <= i < |Nodes.NodeElements(wf).value| ==>
                Nodes.NodeAssigned(Nodes.NodeElements(wf).value[i], Nodes.NodeElements(r.value).value[i], redisId.value)
    ensures r.Ok? && UsableCredentialId(redisId) ==>
              forall i :: 0 <= i < |Nodes.NodeElements(r.value).value| ==>
                var node := Nodes.NodeElements(r.value).value[i];
                node.JObj? && (Nodes.IsRedisNode(node.fields) ==> Nodes.HasRedisCredential(node.fields))
  {
    var stripped := StripReadOnly(wf);
    assert Nodes.NodeElements(stripped) == Nodes.NodeElements(wf) by {
      assert "nodes" !in ReadOnlyFields;
    }
    if UsableCredentialId(redisId) then
      var updated :- Nodes.AssignRedis(stripped, redisId.value);
      assert forall i :: 0 <= i < |Nodes.NodeElements(stripped).value| ==>
               Nodes.NodeAssigned(Nodes.NodeElements(stripped).value[i], Nodes.NodeElements(updated.0).value[i], redisId.value);
      Ok(updated.0)
    else
      Ok(stripped)
  }

  /** The key the workflow is looked up under: its name, "Unknown" if it has none. */
  function RouteKey(wf: Object): Result<Key, PyError> {
    HashKey(Get(wf, "name", JStr(DefaultName)))
  }

  /** The decision part of `import_workflow`: strip and assign first, then skip
      a workflow whose name is already indexed unless updating, PUT it to the
      indexed entry's id when updating, and POST it otherwise. A document that
      is not an object, a failing assignment or an unhashable name raises. */
  function PlanImport(wf: Json, index: Listing.Index, session: bool, apiKey: Option<string>,
                      update: bool, redisId: Option<Json>): (r: Result<Plan, PyError>)
    ensures r.Ok? <==> wf.JObj? && Prepare(wf.fields, redisId).Ok? && RouteKey(wf.fields).Ok?
    ensures r.Ok? ==> (r.value.Skip? <==> RouteKey(wf.fields).value in index && !update)
    ensures r.Ok? && RouteKey(wf.fields).value in index && update ==>
              r.value.Send? && r.value.request.verb == Put(Listing.IdOf(index[RouteKey(wf.fields).value]))
    ensures r.Ok? && RouteKey(wf.fields).value !in index ==> r.value.Send? && r.value.request.verb == Post
    ensures r.Ok? && r.value.Send? ==>
              && r.value.request.body == Prepare(wf.fields, redisId).value
              && r.value.request.headers == Headers(session, apiKey)
              && (r.value.request.endpoint == RestWorkflows <==> session)
  {
    if !wf.JObj? then Err(AttributeError)
    else
      var body :- Prepare(wf.fields, redisId);
      var key :- RouteKey(wf.fields);
      var endpoint := if session then RestWorkflows else ApiWorkflows;
      var headers := Headers(session, apiKey);
      if key in index then
        if !update then Ok(Skip)
        else Ok(Send(Request(Put(Listing.IdOf(index[key])), endpoint, headers, body)))
      else
        Ok(Send(Request(Post, endpoint, headers, body)))
  }

  /** The server accepted the request. */
  predicate Accepted(status: int) {
    status == 200 || status == 201
  }

  /** The server accepted the request and answered with a JSON object. */
  predicate AcceptedObject(reply: Option<Reply>) {
    reply.Some? && Accepted(reply.value.status) && reply.value.body.Some? && reply.value.body.value.JObj?
  }

  /** The server accepted the request and answered with JSON that is not an object. */
  predicate AcceptedNonObject(reply: Option<Reply>) {
    reply.Some? && Accepted(reply.value.status) && reply.value.body.Some? && !reply.value.body.value.JObj?
  }

  /** No usable answer: the request raised, was refused, or its body is not JSON. */
  predicate Unanswered(reply: Option<Reply>) {
    reply.None? || !Accepted(reply.value.status) || reply.value.body.None?
  }

  /** The result of `import_workflow` once the plan is carried out and `reply`
      is what the server answered (`None`: the request raised). A skip sends
      nothing and reports false. A success needs status 200 or 201 and a JSON
      object in the body; after a POST, the report of missing credentials is
      computed and, if it raises, the import reports false. A PUT answered
      with a JSON body that is not an object raises. */
  function Complete(plan: Plan, reply: Option<Reply>): (r: Result<bool, PyError>)
    ensures plan.Skip? ==> r == Ok(false)
    ensures r == Ok(true) ==> plan.Send? && AcceptedObject(reply)
    ensures r.Err? <==> plan.Send? && plan.request.verb.Put? && AcceptedNonObject(reply)
    ensures r.Err? ==> r.error == AttributeError
    ensures plan.Send? && plan.request.verb.Put? && AcceptedObject(reply) ==> r == Ok(true)
    ensures plan.Send? && plan.request.verb.Post? && AcceptedObject(reply) ==>
              r == Ok(Nodes.CheckCredentialsNeeded(plan.request.body).Ok?)
    ensures plan.Send? && plan.request.verb.Post? && AcceptedNonObject(reply) ==> r == Ok(false)
    ensures Unanswered(reply) ==> r == Ok(false)
  {
    match plan
    case Skip => Ok(false)
    case Send(request) =>
      match reply
      case None => Ok(false)
      case Some(Reply(status, body)) =>
        if !Accepted(status) then Ok(false)
        else
          match body
          // requests raises its JSONDecodeError, a RequestException, which is caught
          case None => Ok(false)
          case Some(result) =>
            if !result.JObj? then
              if request.verb.Put? then Err(AttributeError) else Ok(false)
            else if request.verb.Put? then Ok(true)
            else if Nodes.CheckCredentialsNeeded(request.body).Err? then Ok(false)
            else Ok(true)
  }

  /** `import_workflow`: `credentials` is the credential listing the import
      fetches and `reply` the answer to its request. */
  function ImportWorkflow(wf: Json, index: Listing.Index, session: bool, apiKey: Option<string>, update: bool,
                          credentials: Option<Json>, reply: Option<Reply>): (r: Result<bool, PyError>)
    ensures r == Ok(true) ==> AcceptedObject(reply)
    ensures var p := PlanImport(wf, index, session, apiKey, update, Listing.RedisCredentialId(credentials));
            r.Err? <==> p.Err? || (p.value.Send? && p.value.request.verb.Put? && AcceptedNonObject(reply))
    ensures var p := PlanImport(wf, index, session, apiKey, update, Listing.RedisCredentialId(credentials));
            p == Ok(Skip) ==> r == Ok(false)
    ensures var p := PlanImport(wf, index, session, apiKey, update, Listing.RedisCredentialId(credentials));
            p.Ok? && p.value.Send? && p.value.request.verb.Put? && AcceptedObject(reply) ==> r == Ok(true)
    ensures var p := PlanImport(wf, index, session, apiKey, update, Listing.RedisCredentialId(credentials));
            p.Ok? && p.value.Send? && p.value.request.verb.Post? && AcceptedObject(reply) ==>
              r == Ok(Nodes.CheckCredentialsNeeded(p.value.request.body).Ok?)
    ensures var p := PlanImport(wf, index, session, apiKey, update, Listing.RedisCredentialId(credentials));
            p.Ok? && (Unanswered(reply) || (p.value.Send? && p.value.request.verb.Post? && AcceptedNonObject(reply))) ==>
              r == Ok(false)
  {
    var plan :- PlanImport(wf, index, session, apiKey, update, Listing.RedisCredentialId(credentials));
    Complete(plan, reply)
  }
}
