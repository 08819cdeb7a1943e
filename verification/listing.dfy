/** Interpreting the server's listings: the name-indexed map of existing
    workflows (import_workflows.py:153-166) and the lookup of the "Redis Local"
    credential (import_workflows.py:218-232). The HTTP exchange is not
    modelled: each operation receives the decoded body of a 200 reply, or
    `None` when the request failed, the status was not 200 or the body was not
    JSON; in every one of those cases the source returns its empty result. */
module Listing {
  import opened Wrappers
  import opened JsonValues

  /** Existing workflows by name, as `get_existing_workflows` returns them. */
  type Index = map<Key, Object>

  /** The dictionary key an entry is indexed under: its name, `""` if it has none. */
  function NameKey(entry: Object): Result<Key, PyError> {
    HashKey(Get(entry, "name", JStr("")))
  }

  /** The list the index is built from. A dict listing yields its `data`, else
      its `workflows`, else nothing; a list is used as it is; any other shape
      yields nothing. A value that is not a list contributes no entries: iterating
      an object or a string visits only strings, which are not dicts, and
      iterating anything else raises, which the source turns into `{}`. */
  function ListedItems(listing: Option<Json>): (r: seq<Json>)
    ensures listing.Some? && listing.value.JArr? ==> r == listing.value.items
    ensures listing.None? || !(listing.value.JArr? || listing.value.JObj?) ==> r == []
    ensures listing.Some? && listing.value.JObj? && "data" in listing.value.fields ==>
              r == (if listing.value.fields["data"].JArr? then listing.value.fields["data"].items else [])
    ensures listing.Some? && listing.value.JObj? && "data" !in listing.value.fields ==>
              r == (if "workflows" in listing.value.fields && listing.value.fields["workflows"].JArr?
                    then listing.value.fields["workflows"].items else [])
  {
    match listing
    case None => []
    case Some(body) =>
      var workflows :=
        match body
        case JObj(m) => Get(m, "data", Get(m, "workflows", JArr([])))
        case JArr(_) => body
        case _ => JNull;
      if workflows.JArr? then workflows.items else []
  }

  /** Entry `i` is an object filed under key `k`. */
  ghost predicate Keyed(items: seq<Json>, i: int, k: Key) {
    0 <= i < |items| && items[i].JObj? && NameKey(items[i].fields) == Ok(k)
  }

  /** Entry `i` is the last object filed under key `k`. */
  ghost predicate LastKeyed(items: seq<Json>, i: int, k: Key) {
    Keyed(items, i, k) && forall j :: i < j < |items| ==> !Keyed(items, j, k)
  }

  /** The dict comprehension `{wf.get("name", ""): wf for wf in items if
      isinstance(wf, dict)}`: non-objects are dropped, a later entry replaces an
      earlier one with the same name, and an unhashable name raises. */
  function BuildIndex(items: seq<Json>): (r: Result<Index, PyError>)
    ensures r.Ok? <==> forall i :: 0 <= i < |items| && items[i].JObj? ==> NameKey(items[i].fields).Ok?
  {
    if items == [] then Ok(map[])
    else
      var n := |items| - 1;
      var prefix := items[..n];
      assert forall i :: 0 <= i < n ==> prefix[i] == items[i];
      var idx :- BuildIndex(prefix);
      var last := items[n];
      if !last.JObj? then
        Ok(idx)
      else
        var k :- NameKey(last.fields);
        Ok(idx[k := last.fields])
  }

  /** Building the index from a non-empty list extends the index of all but
      its last entry with that entry, when it is an object. */
  lemma BuildIndexSnoc(items: seq<Json>)
    requires items != [] && BuildIndex(items).Ok?
    ensures BuildIndex(items[..|items| - 1]).Ok?
    ensures var idx := BuildIndex(items[..|items| - 1]).value;
            var last := items[|items| - 1];
            BuildIndex(items).value ==
              if last.JObj? then idx[NameKey(last.fields).value := last.fields] else idx
  {
    var n := |items| - 1;
    assert forall i :: 0 <= i < n ==> items[..n][i] == items[i];
  }

  /** The index has a key exactly for the names of the object entries. */
  lemma {:induction false} BuildIndexKeys(items: seq<Json>)
    requires BuildIndex(items).Ok?
    ensures forall k :: k in BuildIndex(items).value <==> exists i :: Keyed(items, i, k)
  {
    if items != [] {
      var n := |items| - 1;
      var prefix := items[..n];
      BuildIndexSnoc(items);
      BuildIndexKeys(prefix);
      forall k
        ensures k in BuildIndex(items).value <==> exists i :: Keyed(items, i, k)
      {
        if k in BuildIndex(items).value {
          if !Keyed(items, n, k) {
            var i :| Keyed(prefix, i, k);
            assert Keyed(items, i, k);
          }
        }
        if exists i :: Keyed(items, i, k) {
          var i :| Keyed(items, i, k);
          if i < n {
            assert Keyed(prefix, i, k);
          }
        }
      }
    }
  }

  /** On duplicate names the last entry wins. */
  lemma {:induction false} BuildIndexLastWins(items: seq<Json>)
    requires BuildIndex(items).Ok?
    ensures forall i, k :: LastKeyed(items, i, k) ==> k in BuildIndex(items).value && BuildIndex(items).value[k] == items[i].fields
  {
    if items != [] {
      var n := |items| - 1;
      var prefix := items[..n];
      BuildIndexSnoc(items);
      BuildIndexLastWins(prefix);
      forall i, k | LastKeyed(items, i, k)
        ensures k in BuildIndex(items).value && BuildIndex(items).value[k] == items[i].fields
      {
        if i < n {
          assert !Keyed(items, n, k);
          assert forall j :: i < j < n ==> (Keyed(prefix, j, k) <==> Keyed(items, j, k));
          assert LastKeyed(prefix, i, k);
        }
      }
    }
  }

  /** `get_existing_workflows`: the name-indexed map, empty when the listing
      could not be read or an entry's name is unhashable. */
  function ExistingIndex(listing: Option<Json>): (r: Index)
    ensures (exists i :: 0 <= i < |ListedItems(listing)| && ListedItems(listing)[i].JObj?
                         && NameKey(ListedItems(listing)[i].fields).Err?) ==> r == map[]
    ensures (forall i :: 0 <= i < |ListedItems(listing)| && ListedItems(listing)[i].JObj? ==>
                         NameKey(ListedItems(listing)[i].fields).Ok?) ==>
              && (forall k :: k in r <==> exists i :: Keyed(ListedItems(listing), i, k))
              && (forall i, k :: LastKeyed(ListedItems(listing), i, k) ==> k in r && r[k] == ListedItems(listing)[i].fields)
  {
    var items := ListedItems(listing);
    match BuildIndex(items)
    case Ok(idx) =>
      BuildIndexKeys(items);
      BuildIndexLastWins(items);
      idx
    case Err(_) => map[]
  }

  /** An object named exactly "Redis Local". */
  predicate IsRedisLocal(entry: Json) {
    entry.JObj? && Get(entry.fields, "name", JNull) == JStr("Redis Local")
  }

  /** `cred.get("id")`: the id of an entry, `None` when it has none. */
  function IdOf(entry: Object): Option<Json> {
    if "id" in entry then Some(entry["id"]) else None
  }

  /** The loop of `get_redis_credential_id`: the id of the first "Redis Local"
      entry, even when that entry has no id. */
  function FirstRedisLocal(items: seq<Json>): (r: Option<Json>)
    ensures (forall i :: 0 <= i < |items| ==> !IsRedisLocal(items[i])) ==> r.None?
    ensures forall i :: 0 <= i < |items| && IsRedisLocal(items[i]) && (forall j :: 0 <= j < i ==> !IsRedisLocal(items[j])) ==>
              r == IdOf(items[i].fields)
  {
    if items == [] then None
    else if IsRedisLocal(items[0]) then IdOf(items[0].fields)
    else
      assert forall i :: 1 <= i < |items| ==> items[1..][i - 1] == items[i];
      FirstRedisLocal(items[1..])
  }

  /** `get_redis_credential_id`: a dict listing is searched in its `data`, a
      list as it is, anything else gives `None`. */
  function RedisCredentialId(listing: Option<Json>): (r: Option<Json>)
    ensures listing.Some? && listing.value.JArr? ==> r == FirstRedisLocal(listing.value.items)
    ensures listing.Some? && listing.value.JObj? && "data" in listing.value.fields && listing.value.fields["data"].JArr? ==>
              r == FirstRedisLocal(listing.value.fields["data"].items)
    ensures r.Some? ==> listing.Some? && (listing.value.JArr? || listing.value.JObj?)
    ensures listing.Some? && listing.value.JObj? && !("data" in listing.value.fields && listing.value.fields["data"].JArr?) ==>
              r.None?
  {
    match listing
    case None => None
    case Some(body) =>
      var creds :=
        match body
        case JObj(m) => Get(m, "data", JArr([]))
        case JArr(_) => body
        case _ => JNull;
      if creds.JArr? then FirstRedisLocal(creds.items) else None
  }
}
