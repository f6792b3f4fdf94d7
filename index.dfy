/** The action's entry point (src/index.ts): read the inputs, read the issue,
    make sure the catalog's labels exist, ask the classifier, keep the
    suggestions the catalog knows, apply them and set the two outputs; any
    error on the way becomes one failure report. The results of the remote
    calls are inputs, gathered in a `World`. */
module Action {
  import opened Base
  import opened Json
  import opened ActionsCore
  import opened Types
  import opened Inputs
  import opened GitHub
  import opened OpenAI

  // ---------------------------------------------------------------------------
  // The catalog

  /** The catalog entry of an issue type. */
  function TypeLabel(t: string): CustomLabel
  {
    CustomLabel(t, "Issue type: " + t)
  }

  function TypeLabels(types: seq<string>): (r: seq<CustomLabel>)
    ensures |r| == |types|
    ensures forall i :: 0 <= i < |types| ==> r[i] == TypeLabel(types[i])
  {
    seq(|types|, i requires 0 <= i < |types| => TypeLabel(types[i]))
  }

  /** `allRequiredLabels`: the labels that must exist and that suggestions are
      checked against. It holds every default label, every custom label and
      one entry per issue type, and nothing else. */
  function Catalog(custom: seq<CustomLabel>): (r: seq<CustomLabel>)
    ensures |r| == |DefaultLabels| + |custom| + |IssueTypes|
    ensures forall l :: l in r <==> l in DefaultLabels || l in custom || l in TypeLabels(IssueTypes)
    ensures forall t :: t in IssueTypes ==> TypeLabel(t) in r
  {
    DefaultLabels + custom + TypeLabels(IssueTypes)
  }

  /** The name of some catalog entry equals `l` up to case. */
  predicate InCatalog(catalog: seq<CustomLabel>, l: string)
  {
    exists i :: 0 <= i < |catalog| && Lower(catalog[i].name) == Lower(l)
  }

  /** `availableLabelNames`: the catalog's names, lower-cased, in order. A
      name is available exactly when it matches a catalog name up to case. */
  function AvailableNames(catalog: seq<CustomLabel>): (r: seq<string>)
    ensures |r| == |catalog|
    ensures forall i :: 0 <= i < |catalog| ==> r[i] == Lower(catalog[i].name)
    ensures forall l :: Lower(l) in r <==> InCatalog(catalog, l)
  {
    var r := seq(|catalog|, i requires 0 <= i < |catalog| => Lower(catalog[i].name));
    assert forall l :: Lower(l) in r <==> InCatalog(catalog, l) by {
      forall l
        ensures Lower(l) in r <==> InCatalog(catalog, l)
      {
        if Lower(l) in r {
          var i :| 0 <= i < |r| && r[i] == Lower(l);
          assert Lower(catalog[i].name) == Lower(l);
        }
        if InCatalog(catalog, l) {
          var i :| 0 <= i < |catalog| && Lower(catalog[i].name) == Lower(l);
          assert r[i] == Lower(l);
        }
      }
    }
    r
  }

  function IsAvailable(available: seq<string>): string -> bool
  {
    (l: string) => Lower(l) in available
  }

  function IsUnavailable(available: seq<string>): string -> bool
  {
    (l: string) => Lower(l) !in available
  }

  /** `validLabels`: the suggestions whose lower-cased name is available,
      in their order and with their own casing. */
  function ValidLabels(available: seq<string>, suggested: seq<string>): (r: seq<string>)
    ensures IsSubseq(r, suggested)
    ensures forall l :: l in r <==> l in suggested && Lower(l) in available
  {
    FilterIsSubseq(IsAvailable(available), suggested);
    Filter(IsAvailable(available), suggested)
  }

  /** `invalidLabels`: the suggestions whose lower-cased name is not
      available, in their order. */
  function InvalidLabels(available: seq<string>, suggested: seq<string>): (r: seq<string>)
    ensures IsSubseq(r, suggested)
    ensures forall l :: l in r <==> l in suggested && Lower(l) !in available
  {
    FilterIsSubseq(IsUnavailable(available), suggested);
    Filter(IsUnavailable(available), suggested)
  }

  /** The warning about unavailable suggestions, issued only when some
      suggestion was dropped. */
  function UnavailableWarnings(available: seq<string>, suggested: seq<string>): seq<Warning>
  {
    if |ValidLabels(available, suggested)| < |suggested|
    then [LabelsUnavailable(InvalidLabels(available, suggested))]
    else []
  }

  // ---------------------------------------------------------------------------
  // Properties of the catalog and of the filter

  /** The catalog is the five default labels, then the custom labels, then
      one `Issue type: T` entry per issue type; what the prompt lists is the
      part before the type entries. */
  lemma CatalogLayout(custom: seq<CustomLabel>)
    ensures |Catalog(custom)| == |custom| + 8
    ensures Catalog(custom)[..5] == DefaultLabels
    ensures Catalog(custom)[5..5 + |custom|] == custom
    ensures Catalog(custom)[5 + |custom|..] ==
      [CustomLabel("Bug", "Issue type: Bug"), CustomLabel("Feature", "Issue type: Feature"),
       CustomLabel("Task", "Issue type: Task")]
    ensures Catalog(custom) == PromptCatalog(custom) + Catalog(custom)[5 + |custom|..]
  {
    var types := TypeLabels(IssueTypes);
    assert types == [TypeLabel("Bug"), TypeLabel("Feature"), TypeLabel("Task")];
    assert TypeLabel("Bug") == CustomLabel("Bug", "Issue type: Bug");
    assert TypeLabel("Feature") == CustomLabel("Feature", "Issue type: Feature");
    assert TypeLabel("Task") == CustomLabel("Task", "Issue type: Task");
    assert Catalog(custom)[5 + |custom|..] == types;
  }

  /** `validLabels` holds the suggestions that match a catalog name up to
      case, every copy of each, in their order and with their own casing;
      `invalidLabels` holds the others. */
  lemma ValidLabelsSpec(catalog: seq<CustomLabel>, suggested: seq<string>)
    ensures var valid := ValidLabels(AvailableNames(catalog), suggested);
      forall l :: l in valid <==> l in suggested && InCatalog(catalog, l)
    ensures var invalid := InvalidLabels(AvailableNames(catalog), suggested);
      forall l :: l in invalid <==> l in suggested && !InCatalog(catalog, l)
    ensures var valid := ValidLabels(AvailableNames(catalog), suggested);
      forall l :: multiset(valid)[l] == if InCatalog(catalog, l) then multiset(suggested)[l] else 0
    ensures IsSubseq(ValidLabels(AvailableNames(catalog), suggested), suggested)
    ensures IsSubseq(InvalidLabels(AvailableNames(catalog), suggested), suggested)
  {
    var available := AvailableNames(catalog);
    assert forall l :: IsAvailable(available)(l) <==> InCatalog(catalog, l);
    FilterMultiset(IsAvailable(available), suggested);
    FilterIsSubseq(IsAvailable(available), suggested);
    FilterIsSubseq(IsUnavailable(available), suggested);
  }

  /** Every suggestion is either valid or invalid, never both. */
  lemma ValidInvalidPartition(available: seq<string>, suggested: seq<string>)
    ensures |ValidLabels(available, suggested)| + |InvalidLabels(available, suggested)| == |suggested|
    ensures multiset(ValidLabels(available, suggested)) + multiset(InvalidLabels(available, suggested))
      == multiset(suggested)
  {
    var p, q := IsAvailable(available), IsUnavailable(available);
    FilterPartition(p, q, suggested);
    FilterMultiset(p, suggested);
    FilterMultiset(q, suggested);
    var v, w := multiset(Filter(p, suggested)), multiset(Filter(q, suggested));
    forall l
      ensures (v + w)[l] == multiset(suggested)[l]
    {
      assert p(l) || q(l);
    }
  }

  /** The warning is issued exactly when some suggestion is unavailable, and
      it lists exactly the unavailable ones. */
  lemma WarningIffUnavailable(available: seq<string>, suggested: seq<string>)
    ensures |UnavailableWarnings(available, suggested)| == 1 <==>
      exists i :: 0 <= i < |suggested| && Lower(suggested[i]) !in available
    ensures UnavailableWarnings(available, suggested) == [] <==>
      forall i :: 0 <= i < |suggested| ==> Lower(suggested[i]) in available
    ensures |UnavailableWarnings(available, suggested)| == 1 ==>
      UnavailableWarnings(available, suggested) == [LabelsUnavailable(InvalidLabels(available, suggested))]
  {
    ValidInvalidPartition(available, suggested);
    var invalid := InvalidLabels(available, suggested);
    if i :| 0 <= i < |suggested| && Lower(suggested[i]) !in available {
      assert IsUnavailable(available)(suggested[i]);
      assert suggested[i] in invalid;
    }
    if |invalid| > 0 {
      assert invalid[0] in invalid;
      var i :| 0 <= i < |suggested| && suggested[i] == invalid[0];
      assert Lower(suggested[i]) !in available;
    }
  }

  /** With the default catalog, `Bug` is kept (it matches `bug`) and
      `urgent` is dropped and reported. */
  lemma FilterExample()
    ensures ValidLabels(AvailableNames(Catalog([])), ["Bug", "urgent"]) == ["Bug"]
    ensures InvalidLabels(AvailableNames(Catalog([])), ["Bug", "urgent"]) == ["urgent"]
    ensures UnavailableWarnings(AvailableNames(Catalog([])), ["Bug", "urgent"]) == [LabelsUnavailable(["urgent"])]
  {
    var available := AvailableNames(Catalog([]));
    BugAvailable();
    UrgentUnavailable();
    FilterPair(available, "Bug", "urgent");
  }

  /** `Bug` matches the default label `bug`. */
  lemma BugAvailable()
    ensures Lower("Bug") in AvailableNames(Catalog([]))
    ensures Lower("bug") in AvailableNames(Catalog([]))
  {
    var catalog := Catalog([]);
    assert catalog[0].name == "bug";
    assert Lower("Bug") == "bug" == Lower("bug") == Lower(catalog[0].name);
    assert InCatalog(catalog, "Bug");
    assert InCatalog(catalog, "bug");
  }

  /** No catalog name has six letters, so `urgent` matches none. */
  lemma UrgentUnavailable()
    ensures Lower("urgent") !in AvailableNames(Catalog([]))
  {
    var catalog := Catalog([]);
    assert forall i :: 0 <= i < |catalog| ==> |Lower(catalog[i].name)| != 6;
  }

  /** One available and one unavailable suggestion: the first is kept and
      the second is reported. */
  lemma FilterPair(available: seq<string>, a: string, b: string)
    requires Lower(a) in available && Lower(b) !in available
    ensures ValidLabels(available, [a, b]) == [a]
    ensures InvalidLabels(available, [a, b]) == [b]
    ensures UnavailableWarnings(available, [a, b]) == [LabelsUnavailable([b])]
  {
    assert [a, b][1..] == [b] && [b][1..] == [];
    assert IsAvailable(available)(a) && !IsAvailable(available)(b);
    assert !IsUnavailable(available)(a) && IsUnavailable(available)(b);
    assert Filter(IsAvailable(available), [b]) == [];
    assert Filter(IsAvailable(available), [a, b]) == [a];
    assert Filter(IsUnavailable(available), [b]) == [b];
    assert Filter(IsUnavailable(available), [a, b]) == [b];
  }

  // ---------------------------------------------------------------------------
  // A run

  /** What the remote calls of one run answer. `listing` is the outcome of
      listing the repository's labels, `completion` that of the chat call
      (its first choice's parsed value), `current` that of reading the
      issue's labels and `setLabelsError` the error, if any, of writing them. */
  datatype World = World(
    env: Env,
    payload: Payload,
    listing: Result<seq<string>>,
    completion: Result<Option<Json>>,
    current: Result<seq<Option<string>>>,
    setLabelsError: Option<string>)

  /** The end of a run: the two outputs and the label list sent to
      `setLabels`, or
      the message passed to `setFailed`. */
  datatype Outcome =
    | Succeeded(labelsApplied: string, typeApplied: string, issueLabels: seq<string>)
    | Failed(message: string)

  function Fail(message: string): Outcome
  {
    Failed("Action failed: " + message)
  }

  /** The classification, or the error `analyzeIssue` throws. */
  function Analysis(w: World): Result<LLMResponse>
  {
    if w.completion.Err? then Err(w.completion.message) else CheckResponse(w.completion.value)
  }

  /** The steps of a run before the issue is updated: the valid labels and
      the type name to apply, or the message of the first step that failed.
      Creating labels never fails, so the listing does not appear here. */
  function Classified(w: World): Result<(seq<string>, string)>
  {
    var loaded := GetActionInputs(w.env);
    if loaded.Err? then Err(loaded.message)
    else
      var issue := GetIssueInfo(w.payload);
      if issue.Err? then Err(issue.message)
      else
        var analysis := Analysis(w);
        if analysis.Err? then Err(analysis.message)
        else
          var valid := ValidLabels(AvailableNames(Catalog(loaded.value.inputs.customLabels)), analysis.value.labels);
          Ok((valid, TypeName(analysis.value.issueType)))
  }

  /** The outcome of a run, step by step, with the update performed by
      `updateIssueLabels`. A failure is reported behind the `Action failed: `
      prefix; a success publishes one of the three type names, which the
      label list sent to `setLabels` holds, among labels without repeats. */
  function RunOutcome(w: World): (o: Outcome)
    ensures o.Failed? ==>
      |"Action failed: "| <= |o.message| && o.message[..|"Action failed: "|] == "Action failed: "
    ensures o.Succeeded? ==> o.typeApplied in IssueTypes && o.typeApplied in o.issueLabels && NoDup(o.issueLabels)
  {
    var c := Classified(w);
    if c.Err? then Fail(c.message)
    else
      var (valid, t) := c.value;
      var updated := UpdateIssueLabels(w.current, w.setLabelsError, valid, t);
      if updated.Err? then Fail(updated.message)
      else Succeeded(Join(valid, ","), t, updated.value)
  }

  /** Stands for the message of the `TypeError` thrown by calling an import
      that the imported module does not export. */
  const UpdateNotAFunction: string := "updateIssueLabelsAndType is not a function"

  /** The outcome of a run as src/index.ts:62 writes it: the update calls
      `updateIssueLabelsAndType`, which src/github.ts does not export, so the
      call throws once the issue has been classified. */
  function RunOutcomeAsWritten(w: World): (o: Outcome)
    ensures o.Failed?
  {
    var c := Classified(w);
    if c.Err? then Fail(c.message) else Fail(UpdateNotAFunction)
  }

  /** The warnings `ensureLabelsExist` issues. */
  function EnsureWarnings(listing: Result<seq<string>>, attempts: seq<CreateAttempt>): seq<Warning>
  {
    if listing.Err? then [EnsureLabelsFailed(listing.message)] else FailureWarnings(attempts)
  }

  /** The request sent to the classifier: none when the inputs or the issue
      cannot be read, and otherwise the classifier request for the prompt
      catalog and the issue. */
  function RunRequest(w: World): Option<ChatRequest>
  {
    var loaded := GetActionInputs(w.env);
    var issue := GetIssueInfo(w.payload);
    if loaded.Err? || issue.Err? then None
    else
      var inputs := loaded.value.inputs;
      Some(ChatRequest(inputs.openaiApiKey, inputs.openaiEndpoint, inputs.openaiModel,
        SystemPrompt(PromptCatalog(inputs.customLabels)), UserPrompt(issue.value),
        "issue_classification", ResponseJsonSchema))
  }

  /** The label creations attempted: none when the inputs or the issue cannot
      be read or the listing fails, and otherwise one per catalog label the
      repository lacks, in catalog order. */
  predicate RunAttempts(w: World, attempts: seq<CreateAttempt>)
  {
    var loaded := GetActionInputs(w.env);
    if loaded.Err? || GetIssueInfo(w.payload).Err? || w.listing.Err? then attempts == []
    else Requests(attempts) == Missing(Catalog(loaded.value.inputs.customLabels), w.listing.value)
  }

  /** The warnings of a run, in the order they are issued: those of reading
      the inputs, then those of creating labels, then the one about
      unavailable suggestions. */
  function RunWarnings(w: World, attempts: seq<CreateAttempt>): seq<Warning>
  {
    var loaded := GetActionInputs(w.env);
    if loaded.Err? then []
    else if GetIssueInfo(w.payload).Err? then loaded.value.warnings
    else
      loaded.value.warnings + EnsureWarnings(w.listing, attempts) +
        (if Analysis(w).Err? then []
         else UnavailableWarnings(AvailableNames(Catalog(loaded.value.inputs.customLabels)), Analysis(w).value.labels))
  }

  /** `run`. Besides the outcome, it reports the warnings in the order they
      are issued, the label creations attempted and the request sent to the
      classifier, if one was. Nothing reaches the network before the inputs
      and the issue have been read; after that, labels are created and the
      classifier is asked whatever they answer. */
  method Run(w: World)
    returns (outcome: Outcome, warnings: seq<Warning>, attempts: seq<CreateAttempt>, request: Option<ChatRequest>)
    ensures outcome == RunOutcome(w)
    ensures request == RunRequest(w)
    ensures RunAttempts(w, attempts)
    ensures warnings == RunWarnings(w, attempts)
    ensures ColorsFromPalette(attempts)
  {
    warnings, attempts, request := [], [], None;
    var loaded := GetActionInputs(w.env);
    if loaded.Err? {
      return Fail(loaded.message), warnings, attempts, request;
    }
    var inputs := loaded.value.inputs;
    warnings := loaded.value.warnings;
    var issueInfo := GetIssueInfo(w.payload);
    if issueInfo.Err? {
      return Fail(issueInfo.message), warnings, attempts, request;
    }
    var allRequiredLabels := Catalog(inputs.customLabels);
    var ensureWarnings;
    attempts, ensureWarnings := EnsureLabelsExist(w.listing, allRequiredLabels);
    warnings := warnings + ensureWarnings;
    var sent, analysis := AnalyzeIssue(inputs, issueInfo.value, w.completion);
    request := Some(sent);
    assert analysis == Analysis(w);
    assert RunAttempts(w, attempts);
    if analysis.Err? {
      return Fail(analysis.message), warnings, attempts, request;
    }
    var availableLabelNames := AvailableNames(allRequiredLabels);
    var validLabels := ValidLabels(availableLabelNames, analysis.value.labels);
    if |validLabels| < |analysis.value.labels| {
      warnings := warnings + [LabelsUnavailable(InvalidLabels(availableLabelNames, analysis.value.labels))];
    }
    assert warnings == RunWarnings(w, attempts);
    var t := TypeName(analysis.value.issueType);
    assert Classified(w) == Ok((validLabels, t));
    var updated := UpdateIssueLabels(w.current, w.setLabelsError, validLabels, t);
    if updated.Err? {
      return Fail(updated.message), warnings, attempts, request;
    }
    outcome := Succeeded(Join(validLabels, ","), t, updated.value);
  }

  // ---------------------------------------------------------------------------
  // Properties of a run

  /** A run fails exactly when reading the inputs, reading the issue,
      classifying, or reading or writing the issue's labels fails, and its
      one report is the message of the first failure behind the
      `Action failed: ` prefix. */
  lemma RunFailsIffAStepFails(w: World)
    ensures RunOutcome(w).Failed? <==>
      GetActionInputs(w.env).Err? || GetIssueInfo(w.payload).Err? || Analysis(w).Err? ||
      w.current.Err? || w.setLabelsError.Some?
    ensures GetActionInputs(w.env).Err? ==> RunOutcome(w) == Fail(GetActionInputs(w.env).message)
    ensures GetActionInputs(w.env).Ok? && GetIssueInfo(w.payload).Err? ==>
      RunOutcome(w) == Fail(GetIssueInfo(w.payload).message)
    ensures GetActionInputs(w.env).Ok? && GetIssueInfo(w.payload).Ok? && Analysis(w).Err? ==>
      RunOutcome(w) == Fail(Analysis(w).message)
    ensures GetActionInputs(w.env).Ok? && GetIssueInfo(w.payload).Ok? && Analysis(w).Ok? ==>
      && (w.current.Err? ==> RunOutcome(w) == Fail(w.current.message))
      && (w.current.Ok? && w.setLabelsError.Some? ==> RunOutcome(w) == Fail(w.setLabelsError.value))
  {
  }

  /** As written, no run succeeds: a run fails as the intended one does up to
      the classification, and after it always on the missing export, so
      every run the intended code completes ends failed instead. */
  lemma UndefinedUpdateFailsAsWritten(w: World)
    ensures Classified(w).Err? ==> RunOutcomeAsWritten(w) == RunOutcome(w)
    ensures Classified(w).Ok? ==> RunOutcomeAsWritten(w) == Fail(UpdateNotAFunction)
    ensures RunOutcome(w).Succeeded? ==> RunOutcomeAsWritten(w).Failed?
  {
  }

  /** A run without a `github-token` fails on it, whatever else is set. */
  lemma MissingTokenFailsFirst(w: World)
    requires w.env.githubToken == ""
    ensures RunOutcome(w) == Fail(MissingInput("github-token"))
  {
  }

  /** On success, `labels-applied` lists the valid suggestions, which read
      back one by one when there is at least one and none contains a comma,
      and is empty when there is none; `type-applied` is one of
      the three type names; and the list sent to `setLabels` holds, without repeats,
      every valid suggestion and the type. */
  lemma SucceededOutputs(w: World)
    requires RunOutcome(w).Succeeded?
    ensures Analysis(w).Ok?
    ensures var o := RunOutcome(w);
      o.typeApplied == TypeName(Analysis(w).value.issueType) && o.typeApplied in IssueTypes
    ensures var o := RunOutcome(w);
      var custom := GetActionInputs(w.env).value.inputs.customLabels;
      var valid := ValidLabels(AvailableNames(Catalog(custom)), Analysis(w).value.labels);
      && o.labelsApplied == Join(valid, ",")
      && (|valid| > 0 && (forall i :: 0 <= i < |valid| ==> ',' !in valid[i]) ==> Split(o.labelsApplied, ',') == valid)
      && (|valid| == 0 ==> o.labelsApplied == "")
      && (forall l :: l in valid ==> l in o.issueLabels && InCatalog(Catalog(custom), l))
      && o.typeApplied in o.issueLabels
      && NoDup(o.issueLabels)
  {
    var custom := GetActionInputs(w.env).value.inputs.customLabels;
    var valid := ValidLabels(AvailableNames(Catalog(custom)), Analysis(w).value.labels);
    ValidLabelsSpec(Catalog(custom), Analysis(w).value.labels);
    if |valid| > 0 && (forall i :: 0 <= i < |valid| ==> ',' !in valid[i]) {
      SplitJoin(valid, ',');
    }
  }

  /** The inputs of the scenario below: both credentials, nothing else. */
  lemma DefaultInputs(env: Env)
    requires env == Env("token", "key", "", "", "", None)
    ensures GetActionInputs(env) == Ok(Loaded(ActionInputs("token", "key", DefaultEndpoint, DefaultModel, []), []))
  {
    assert FilterItems([]) == Filtered([], [], false);
  }

  /** `bug` is in the default catalog, so it is kept as suggested. */
  lemma BugIsValid()
    ensures ValidLabels(AvailableNames(Catalog([])), ["bug"]) == ["bug"]
  {
    var available := AvailableNames(Catalog([]));
    BugAvailable();
    FilterSingle(available, "bug");
  }

  lemma FilterSingle(available: seq<string>, a: string)
    requires Lower(a) in available
    ensures ValidLabels(available, [a]) == [a]
  {
    assert [a][1..] == [];
    assert IsAvailable(available)(a);
  }

  /** An issue titled `Crash on startup` with body `App crashes immediately`
      and no labels, default inputs, and a classifier answering
      `{labels: ["bug"], type: "Bug"}`: the run applies `bug`, reports the
      type `Bug`, and sends `setLabels` the labels `bug` and `Bug`. */
  lemma CrashOnStartupScenario(w: World, why: string)
    requires w.env == Env("token", "key", "", "", "", None)
    requires w.payload == Payload(Some(IssuePayload(Some("Crash on startup"), Some("App crashes immediately"), 1, None)))
    requires w.completion == Ok(Some(ResponseToJson(LLMResponse(["bug"], Bug, why))))
    requires w.current == Ok([]) && w.setLabelsError == None
    ensures RunOutcome(w) == Succeeded("bug", "Bug", ["bug", "Bug"])
    ensures RunOutcomeAsWritten(w) == Fail(UpdateNotAFunction)
  {
    DefaultInputs(w.env);
    assert GetIssueInfo(w.payload).Ok?;
    CheckResponseRoundTrip(LLMResponse(["bug"], Bug, why));
    assert Analysis(w) == Ok(LLMResponse(["bug"], Bug, why));
    BugIsValid();
    NewIssueMerge();
    assert Join(["bug"], ",") == "bug";
  }

  /** On an issue without labels, `bug` and the type `Bug` are both set:
      the merge compares names exactly. */
  lemma NewIssueMerge()
    ensures MergeLabels([], ["bug"], "Bug") == ["bug", "Bug"]
  {
    assert KeptExisting([]) == [];
    assert [] + ["bug"] + ["Bug"] == ["bug", "Bug"];
    assert Dedup(["bug", "Bug"]) == ["bug", "Bug"];
  }
}
