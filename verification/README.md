# Workflow import for an n8n deployment, in Dafny

This project models the workflow-document handling of `import_workflows.py`,
the script that imports workflow JSON files into an n8n server. A workflow is a
decoded JSON value: a map of top-level fields plus a `nodes` list whose entries
carry a `type` string and an optional `credentials` map. The model covers:

- the automatic assignment of the "Redis Local" credential to Redis nodes
  (`assign_redis_credentials`);
- the report of nodes whose credentials still need configuring
  (`check_credentials_needed`);
- the removal of read-only fields before import;
- parsing `N8N_ADMIN_EMAIL=` / `N8N_ADMIN_PASSWORD=` out of the `.secret` text
  and stripping the API-key text;
- turning the server's workflow listing into a name-indexed map, and finding
  the id of the "Redis Local" credential;
- the routing of each file: skip it, PUT it to the existing workflow, or POST it;
- the per-file tally of successes, skips and errors, and the exit status.

Python exceptions that decide an outcome are modelled as `Result` errors
(`AttributeError`, `TypeError`). Python's truthiness, `dict.get` defaults and
dictionary-key equality are modelled exactly. In particular, `True` and `1`
are the same key, and lists and objects cannot be keys. Every HTTP reply and
every file's content is a parameter.

Modules, one per concern of the script:

- `Wrappers`: `Option` and `Result`.
- `JsonValues`: JSON values, truthiness and dictionary keys.
- `Filtering`: an ordered filter-and-map over sequences.
- `Nodes`: Redis credential assignment and the missing-credential report.
- `Secrets`: `.secret` and API-key parsing.
- `Listing`: the workflow index and the credential lookup.
- `Import`: `import_workflow`.
- `Runner`: `main`.

## Model

| member | source | states |
|---|---|---|
| JsonValues.HashKey | import_workflows.py:166 | a name that is a list or an object cannot be a dictionary key and raises `TypeError`; a string name is keyed by itself; only `None` maps to the `None` key |
| JsonValues.HashKeyIsPythonEquality | import_workflows.py:335 | two hashable names select the same index entry exactly when Python's `==` holds between them (`True == 1`) |
| Nodes.NodeElements | import_workflows.py:250 | a missing `nodes` field iterates as empty and a list iterates as its items; the only other case with elements is a list; iterating raises exactly when `nodes` is present, not a list and not `{}` or `""`, with `TypeError` exactly for `null`, booleans and numbers |
| Nodes.RedisRef | import_workflows.py:258-261 | the credential reference written into a node is exactly `{"id": id, "name": "Redis Local"}`, and so truthy |
| Nodes.AssignNode | import_workflows.py:251-262 | a node is processed without raising exactly when it is an object and, for a Redis node, its credentials are absent or an object; a Redis node ends with a truthy `redis` credential; one that had it is unchanged; otherwise only `credentials.redis` is added; a non-Redis node is unchanged; the update flag is set exactly when the node lacked the credential |
| Nodes.AssignNodes | import_workflows.py:250-263 | the loop succeeds exactly when every node is processable; node count and order are kept and each node satisfies the per-node guarantee; the result is true exactly when some Redis node lacked a truthy `redis` credential |
| Nodes.AssignRedis | import_workflows.py:238-263 | on the whole workflow: same top-level keys, every field other than `nodes` unchanged, node count kept, every node guaranteed as above, and the return value true exactly when some node needed the credential; it raises exactly when a node cannot be processed |
| Nodes.AssignRedisIdempotent | import_workflows.py:249-263 | a second application to its own output returns false and changes nothing |
| Nodes.NodeNeed | import_workflows.py:285-290 | a node is inspected without raising exactly when it is an object with a hashable type and, for a listed type, its truthy credentials are an object; it yields a label exactly when its type is one of the four listed and its credentials are empty or all falsy; that label is the table's |
| Nodes.NeededLabels | import_workflows.py:284-292 | the report succeeds exactly when every node can be inspected and has at most one label per node |
| Nodes.CheckCredentialsNeeded | import_workflows.py:266-292 | the report on a workflow succeeds exactly when its nodes can be iterated and inspected; it is no longer than the node list and holds the labels of the nodes that need credentials, in node order |
| Nodes.NeededLabelsCollects | import_workflows.py:276-292 | the report equals the ordered collection of the labels of the nodes that need credentials |
| Nodes.NeededLabelsInOrder | import_workflows.py:276-292 | each label comes from a node that needs credentials and is that node's label; the source positions strictly increase; every node that needs credentials contributes |
| Nodes.NoRedisLabelAfterAssign | import_workflows.py:250-290 | after the Redis credential has been assigned, the report never contains "Redis" |
| Filtering.CollectInOrder | import_workflows.py:284-290 | an append-in-a-loop keeps exactly the elements that yield an item, in element order |
| Secrets.RunFrom | import_workflows.py:49-50 | the captured group is the maximal run of non-whitespace characters at that position |
| Secrets.Search | import_workflows.py:49-53 | a result means the pattern matches at a position with no earlier match, and the value is the non-empty run after the key; no result means the pattern matches nowhere |
| Secrets.LoadCredentials | import_workflows.py:34-63 | email and password are both present or both absent; both are present exactly when the text exists and both patterns match; each is the non-empty run after the leftmost match |
| Secrets.TrimStart | import_workflows.py:78 | the result is a suffix that drops only whitespace and starts with a non-whitespace character |
| Secrets.TrimEnd | import_workflows.py:78 | the result is a prefix that drops only whitespace and ends with a non-whitespace character |
| Secrets.Strip | import_workflows.py:78 | the stripped text is empty exactly when the text is all whitespace, and otherwise has no whitespace at either end |
| Secrets.StripIsSlice | import_workflows.py:78 | the stripped text is a contiguous slice whose surroundings are all whitespace |
| Secrets.LoadApiKey | import_workflows.py:66-86 | a key is the stripped, non-empty file text; there is no key when the file is missing or only whitespace |
| Listing.ListedItems | import_workflows.py:154-163 | a list listing is used as is; a dict yields its `data`, else its `workflows`, else nothing; a value that is not a list yields nothing |
| Listing.BuildIndex | import_workflows.py:166 | building the index raises exactly when some object entry has an unhashable name |
| Listing.BuildIndexKeys | import_workflows.py:166 | the index has a key exactly for the names of the object entries, non-objects dropped and a missing name keyed as `""` |
| Listing.BuildIndexLastWins | import_workflows.py:166 | on duplicate names the later entry wins |
| Listing.ExistingIndex | import_workflows.py:127-172 | when every listed object has a hashable name, the index has a key exactly for the names of the listed objects and each key maps to the last object with that name; when some listed object has an unhashable name, the index is empty |
| Listing.FirstRedisLocal | import_workflows.py:228-230 | the result is the id of the first entry named exactly "Redis Local", even when that entry has no id, and `None` when no entry has that name |
| Listing.RedisCredentialId | import_workflows.py:196-235 | a list listing is searched as is; a dict listing is searched in its `data` and yields no id when `data` is missing or not a list; no other shape yields an id |
| Import.StripReadOnly | import_workflows.py:316-320 | afterwards none of `active`, `id`, `createdAt`, `updatedAt`, `versionId`, `tags` is present, and every other top-level field keeps its value |
| Import.StripReadOnlyIdempotent | import_workflows.py:318-320 | stripping twice equals stripping once |
| Import.Headers | import_workflows.py:328-332 | the content type is always JSON; the API-key header is present exactly when there is no session and the key is non-empty, and then it carries the key |
| Import.Prepare | import_workflows.py:316-326 | the document sent has exactly the non-read-only top-level keys, every one but `nodes` with its value; without a truthy credential id it is just the stripped document; with one it raises exactly when the nodes cannot be iterated or some node cannot be processed, and otherwise keeps the node count and gives every node the per-node assignment guarantee |
| Import.PlanImport | import_workflows.py:314-379 | the plan is made exactly when the document is an object, its nodes can be processed and its name is hashable; it skips exactly when the name (default "Unknown") is indexed and update is off; with update on it PUTs to that entry's id; an unindexed name is POSTed; the request carries the prepared document and the headers, and goes to the REST endpoint exactly with a session |
| Import.Complete | import_workflows.py:348-422 | a skip sends nothing and reports false; success needs status 200 or 201 and a JSON object in the reply; a PUT so answered succeeds; a POST so answered succeeds exactly when the missing-credential report does not raise; it raises (`AttributeError`) exactly when a PUT is accepted with a JSON body that is not an object; no reply, a refused status or a non-JSON body reports false |
| Import.ImportWorkflow | import_workflows.py:295-422 | it raises exactly when planning raises or a PUT is accepted with a non-object body; a skipped workflow reports false whatever the reply; an accepted PUT with an object body reports true; an accepted POST with an object body reports whether the missing-credential report succeeds; every other answer reports false; a success implies an accepted object reply |
| Runner.Authenticate | import_workflows.py:456-481 | a session is used exactly when both credentials are present and the login succeeds; otherwise a non-empty API key is used; there is no authentication exactly when neither is available |
| Runner.VerdictAsWritten | import_workflows.py:526-548 | a file counts as a success exactly when it decodes and the import returns true; as a skip exactly when it decodes, the import returns false, and the document's actual `name` (`None` if absent) is indexed with update off; as an error in every other case |
| Runner.FileVerdict | import_workflows.py:533-541 | corrected classification: a skip exactly when the import decided to skip, a success exactly when the import reported true |
| Runner.FileVerdictSkipsOnlyIndexed | import_workflows.py:335-338 | under the corrected classification a skip means the routing name is indexed and update is off |
| Runner.VerdictsAgreeOnNamedDocuments | import_workflows.py:533-541 | the as-written and the corrected classification agree on every document that has a `name` field |
| Runner.NamelessSkipCountedAsError | import_workflows.py:538 | a nameless document whose fallback name "Unknown" is indexed is skipped by the import yet counted as an error, and the run exits 1 |
| Runner.NamelessFailureCountedAsSkip | import_workflows.py:538 | a nameless document with a `null`-named workflow indexed is POSTed and refused, yet counted as a skip |
| Runner.Count | import_workflows.py:522-541 | each file bumps exactly one counter, so the three counters sum to the number of files |
| Runner.CountPartitions | import_workflows.py:522-548 | each counter equals the number of files with that verdict |
| Runner.ErrorsCountFailures | import_workflows.py:570-571 | the error counter that decides the exit status is positive exactly when some file failed |
| Runner.Main | import_workflows.py:472-571 | the exit status is 0 or 1; no authentication or an unreachable server exits 1; otherwise, including when there are no files, it is 1 exactly when some file is classified as failed |

## Findings

| source | as written | input that shows it | evidently intended | confidence | as-written member | corrected member |
|---|---|---|---|---|---|---|
| import_workflows.py:538 | `main` decides "skipped" from `workflow_data.get("name")`, whose default is `None`, but `import_workflow` routes on `get("name", "Unknown")` | a document without `name`, an existing workflow named "Unknown", no `--update`: the import skips it without a request, yet `main` counts an error and exits 1 | a file the import skipped is counted as skipped | medium, not executed | Runner.VerdictAsWritten, Runner.NamelessSkipCountedAsError, Runner.NamelessFailureCountedAsSkip | Runner.FileVerdict, Runner.FileVerdictSkipsOnlyIndexed |

The reverse case also exists (`Runner.NamelessFailureCountedAsSkip`). Take a
nameless document, an index entry whose name is `null`, and no `--update`.
The import POSTs the document. If the POST fails, `main` counts a skip
instead of an error. `Runner.Main` keeps the as-written classification
because it models the exit status the script actually produces. The two
classifications agree on every document that has a `name` field
(`Runner.VerdictsAgreeOnNamedDocuments`).

## Left out

- Runner.Main: takes the chosen authentication as a parameter instead of reading `.secret` and the key file itself. `Secrets.LoadCredentials` is a method with a loop, so a function cannot call it. The choice made at lines 456-481 is `Runner.Authenticate` applied to the results of `Secrets.LoadCredentials` and `Secrets.LoadApiKey`.
- HTTP traffic is not modelled: login, the connection check, the listings, and the POST and PUT requests. Each reply, or its absence, is a parameter. The login result and the connection check are booleans.
- URLs are not built as strings. A request records its endpoint (`/rest/workflows` or `/api/v1/workflows`) and, for a PUT, the target id.
- File access is not modelled: `.secret`, the API-key file, globbing and sorting the workflow directory, and `json.load`. Each operation receives the text or the decoded document. An unreadable or invalid file is `None`.
- Logging, `argparse` and the rebinding of the endpoint URLs by `--url` are not modelled, because they have no behaviour to state.
- JSON numbers are integers; floating point is not modelled.
- Python mutates the document in place, but the model returns new values. `main` reads only the `name` field of the mutated document, and neither stripping nor assignment touches that field.
- The second `pop("id")` before each request is not modelled. The field was already stripped, so it has no effect.
- Exceptions that cannot change an outcome collapse into one of two error kinds. Examples are the error kind inside a swallowed `except Exception` and the order in which two faulty nodes would raise.
- A reply body that is not JSON is treated as requests' `JSONDecodeError`, which is a `RequestException` in requests 2.27 and later. The tally is the same with older versions.
- Regular expressions in general are not modelled: `re.search` is modelled only for this pattern shape (a literal key followed by `[^\s]+`), not for regular expressions in general.
