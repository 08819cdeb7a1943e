/** The driver `main` (import_workflows.py:425-571): choosing the
    authentication, importing every workflow file, tallying the outcomes and
    choosing the exit status. Argument parsing, logging and file reading are
    not modelled: each file arrives as its decoded document. */
module Runner {
  import opened Wrappers
  import opened JsonValues
  import Listing
  import Import

  /** How the script talks to the server. */
  datatype Auth = SessionAuth | KeyAuth(key: string) | NoAuth

  /** Login with the `.secret` credentials first (`loginSucceeds` is the
      server's answer to the login request); otherwise fall back to the API
      key read from its file. */
  function Authenticate(email: Option<string>, password: Option<string>, loginSucceeds: bool,
                        apiKey: Option<string>): (r: Auth)
    ensures r.SessionAuth? <==> email.Some? && email.value != "" && password.Some? && password.value != "" && loginSucceeds
    ensures r.KeyAuth? ==> apiKey == Some(r.key) && r.key != ""
    ensures r.NoAuth? <==> !r.SessionAuth? && (apiKey.None? || apiKey.value == "")
  {
    if email.Some? && email.value != "" && password.Some? && password.value != "" && loginSucceeds then SessionAuth
    else if apiKey.Some? && apiKey.value != "" then KeyAuth(apiKey.value)
    else NoAuth
  }

  /** One workflow file: its decoded document (`None`: unreadable or invalid
      JSON), the credential listing its import fetches, and the server's
      answer to its request (`None`: the request raised). */
  datatype FileRun = FileRun(document: Option<Json>, credentials: Option<Json>, reply: Option<Import.Reply>)

  /** The settings every file is imported with. */
  datatype Settings = Settings(index: Listing.Index, session: bool, apiKey: Option<string>, update: bool)

  datatype Verdict = Imported | Skipped | Failed

  /** The plan the import makes for a decoded document. */
  function PlanOf(doc: Json, run: FileRun, s: Settings): Result<Import.Plan, PyError> {
    Import.PlanImport(doc, s.index, s.session, s.apiKey, s.update, Listing.RedisCredentialId(run.credentials))
  }

  /** How `main` classifies a file, as written: a false result counts as a skip
      when the document's `name` field (`None` if absent) is indexed and
      `--update` is off, and as an error otherwise; anything raised is an error. */
  function VerdictAsWritten(run: FileRun, s: Settings): (v: Verdict)
    ensures v == Imported ==> run.document.Some? && run.reply.Some? && Import.Accepted(run.reply.value.status)
    ensures v == Imported <==>
              (&& run.document.Some?
               && Import.ImportWorkflow(run.document.value, s.index, s.session, s.apiKey, s.update,
                                        run.credentials, run.reply) == Ok(true))
    ensures v == Skipped <==>
              (&& run.document.Some?
               && Import.ImportWorkflow(run.document.value, s.index, s.session, s.apiKey, s.update,
                                        run.credentials, run.reply) == Ok(false)
               && run.document.value.JObj?
               && HashKey(Get(run.document.value.fields, "name", JNull)).Ok?
               && HashKey(Get(run.document.value.fields, "name", JNull)).value in s.index
               && !s.update)
  {
    match run.document
    case None => Failed
    case Some(doc) =>
      match Import.ImportWorkflow(doc, s.index, s.session, s.apiKey, s.update, run.credentials, run.reply)
      case Err(_) => Failed
      case Ok(true) => Imported
      case Ok(false) =>
        match HashKey(Get(doc.fields, "name", JNull))
        case Err(_) => Failed
        case Ok(k) => if k in s.index && !s.update then Skipped else Failed
  }

  /** How a file should be classified: a skip exactly when the import decided
      to skip it. */
  function FileVerdict(run: FileRun, s: Settings): (v: Verdict)
    ensures v == Skipped <==> run.document.Some? && PlanOf(run.document.value, run, s) == Ok(Import.Skip)
    ensures v == Imported <==>
              (&& run.document.Some?
               && Import.ImportWorkflow(run.document.value, s.index, s.session, s.apiKey, s.update,
                                        run.credentials, run.reply) == Ok(true))
  {
    match run.document
    case None => Failed
    case Some(doc) =>
      match PlanOf(doc, run, s)
      case Err(_) => Failed
      case Ok(plan) =>
        if plan.Skip? then Skipped
        else if Import.Complete(plan, run.reply) == Ok(true) then Imported
        else Failed
  }

  /** The three counters of `main`. */
  datatype Tally = Tally(success: nat, skipped: nat, errors: nat)

  /** The counters after processing the verdicts in order, each bumping exactly
      one counter. */
  function Count(verdicts: seq<Verdict>): (t: Tally)
    ensures t.success + t.skipped + t.errors == |verdicts|
  {
    if verdicts == [] then Tally(0, 0, 0)
    else
      var t := Count(verdicts[..|verdicts| - 1]);
      match verdicts[|verdicts| - 1]
      case Imported => t.(success := t.success + 1)
      case Skipped => t.(skipped := t.skipped + 1)
      case Failed => t.(errors := t.errors + 1)
  }

  /** Every file lands in exactly one counter: each counter is the number of
      files with that verdict, and together they count every file. */
  lemma {:induction false} CountPartitions(verdicts: seq<Verdict>)
    ensures Count(verdicts).success == multiset(verdicts)[Imported]
    ensures Count(verdicts).skipped == multiset(verdicts)[Skipped]
    ensures Count(verdicts).errors == multiset(verdicts)[Failed]
  {
    if verdicts != [] {
      var n := |verdicts| - 1;
      CountPartitions(verdicts[..n]);
      assert verdicts == verdicts[..n] + [verdicts[n]];
      assert multiset(verdicts) == multiset(verdicts[..n]) + multiset{verdicts[n]};
    }
  }

  /** The error counter is positive exactly when some verdict is a failure. */
  lemma ErrorsCountFailures(verdicts: seq<Verdict>)
    ensures Count(verdicts).errors > 0 <==> exists i :: 0 <= i < |verdicts| && verdicts[i] == Failed
  {
    CountPartitions(verdicts);
  }

  /** `main` after authentication: exit 1 without any way to authenticate or
      when the server cannot be reached, 0 when there are no files, and
      otherwise, after counting every file, 1 exactly when some file failed.
      `listing` is the workflow listing fetched before the imports. */
  function Main(auth: Auth, connected: bool, listing: Option<Json>, update: bool, runs: seq<FileRun>): (code: int)
    ensures code == 0 || code == 1
    ensures auth.NoAuth? || !connected ==> code == 1
    ensures !auth.NoAuth? && connected ==>
              (code == 1 <==> exists i :: 0 <= i < |runs| && VerdictAsWritten(runs[i], SettingsFor(auth, listing, update)) == Failed)
  {
    if auth.NoAuth? || !connected then 1
    else if runs == [] then 0
    else
      var s := SettingsFor(auth, listing, update);
      var vs := seq(|runs|, i requires 0 <= i < |runs| => VerdictAsWritten(runs[i], s));
      ErrorsCountFailures(vs);
      assert forall i :: 0 <= i < |runs| ==> vs[i] == VerdictAsWritten(runs[i], s);
      if Count(vs).errors > 0 then 1 else 0
  }

  /** The settings `main` imports with: the index of the workflow listing, and
      the session or the API key. */
  function SettingsFor(auth: Auth, listing: Option<Json>, update: bool): Settings {
    Settings(Listing.ExistingIndex(listing), auth.SessionAuth?, if auth.KeyAuth? then Some(auth.key) else None, update)
  }

  /** The two classifications agree on every file whose document has a `name`
      field; they can differ only for a nameless document. */
  lemma VerdictsAgreeOnNamedDocuments(run: FileRun, s: Settings)
    requires run.document.Some? && run.document.value.JObj? && "name" in run.document.value.fields
    ensures VerdictAsWritten(run, s) == FileVerdict(run, s)
  {
  }

  /** A nameless document whose fallback name "Unknown" is already indexed,
      with `--update` off: the import skips it without any request, yet `main`
      counts an error and exits with status 1. */
  lemma NamelessSkipCountedAsError()
    ensures var s := Settings(map[KStr("Unknown") := map["id" := JStr("7")]], true, None, false);
            var run := FileRun(Some(JObj(map[])), None, None);
            && PlanOf(JObj(map[]), run, s) == Ok(Import.Skip)
            && VerdictAsWritten(run, s) == Failed
            && FileVerdict(run, s) == Skipped
            && Main(SessionAuth, true, Some(JArr([JObj(map["name" := JStr("Unknown"), "id" := JStr("7")])])), false, [run]) == 1
  {
    var s := Settings(map[KStr("Unknown") := map["id" := JStr("7")]], true, None, false);
    var run := FileRun(Some(JObj(map[])), None, None);
    var listing := [JObj(map["name" := JStr("Unknown"), "id" := JStr("7")])];
    assert Listing.BuildIndex(listing[..0]) == Ok(map[]);
    assert Listing.ExistingIndex(Some(JArr(listing))) == map[KStr("Unknown") := map["name" := JStr("Unknown"), "id" := JStr("7")]];
    assert VerdictAsWritten(run, Settings(Listing.ExistingIndex(Some(JArr(listing))), true, None, false)) == Failed;
  }

  /** The reverse case: a nameless document, an indexed workflow whose name is
      `null`, `--update` off. The import POSTs the document and the server
      refuses it, yet `main` counts a skip, so the run exits 0. */
  lemma NamelessFailureCountedAsSkip()
    ensures var s := Settings(map[KNone := map["name" := JNull]], true, None, false);
            var run := FileRun(Some(JObj(map[])), None, Some(Import.Reply(500, None)));
            && PlanOf(JObj(map[]), run, s).Ok?
            && PlanOf(JObj(map[]), run, s).value.Send?
            && PlanOf(JObj(map[]), run, s).value.request.verb == Import.Post
            && VerdictAsWritten(run, s) == Skipped
            && FileVerdict(run, s) == Failed
  {
  }

  /** With the corrected classification a file is skipped only when its name,
      "Unknown" if absent, is indexed and `--update` is off. */
  lemma FileVerdictSkipsOnlyIndexed(run: FileRun, s: Settings)
    requires FileVerdict(run, s) == Skipped
    ensures run.document.Some? && run.document.value.JObj?
    ensures Import.RouteKey(run.document.value.fields).Ok?
    ensures Import.RouteKey(run.document.value.fields).value in s.index && !s.update
  {
  }
}
