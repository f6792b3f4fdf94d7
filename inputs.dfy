/** Reading the action's inputs: two required credentials, two optional
    settings with defaults, and the custom-labels list, which degrades to an
    empty list or drops elements with a warning instead of failing
    (src/inputs.ts). */
module Inputs {
  import opened Base
  import opened Json
  import opened Types
  import opened ActionsCore

  /** The inputs as the runner supplies them, `""` standing for an input that
      is not set. `customLabelsJson` is what `JSON.parse` makes of a
      non-empty `customLabels` text, `None` when it throws. */
  datatype Env = Env(
    githubToken: string,
    openaiApiKey: string,
    openaiEndpoint: string,
    openaiModel: string,
    customLabels: string,
    customLabelsJson: Option<Json>)

  const DefaultEndpoint: string := "https://api.openai.com/v1"
  const DefaultModel: string := "gpt-4o-mini"

  /** Message of the error `core.getInput` throws for a missing required input. */
  function MissingInput(name: string): string
  {
    "Input required and not supplied: " + name
  }

  /** The inputs, together with the warnings reading them produced. */
  datatype Loaded = Loaded(inputs: ActionInputs, warnings: seq<Warning>)

  /** `getActionInputs`: the two credentials are required, in this order;
      the endpoint and model fall back to their defaults; an empty
      custom-labels text is read as `[]`. Once read, the endpoint and the
      model are never empty and every custom label has a non-empty name and
      description. */
  function GetActionInputs(env: Env): (r: Result<Loaded>)
    ensures r.Ok? <==> env.githubToken != "" && env.openaiApiKey != ""
    ensures r.Ok? ==>
      && r.value.inputs.githubToken == env.githubToken && r.value.inputs.openaiApiKey == env.openaiApiKey
      && r.value.inputs.openaiEndpoint != "" && r.value.inputs.openaiModel != ""
      && (forall i :: 0 <= i < |r.value.inputs.customLabels| ==>
            r.value.inputs.customLabels[i].name != "" && r.value.inputs.customLabels[i].description != "")
  {
    if env.githubToken == "" then Err(MissingInput("github-token"))
    else if env.openaiApiKey == "" then Err(MissingInput("openai-api-key"))
    else
      var endpoint := if env.openaiEndpoint == "" then DefaultEndpoint else env.openaiEndpoint;
      var model := if env.openaiModel == "" then DefaultModel else env.openaiModel;
      var parsed := if env.customLabels == "" then Some(JArr([])) else env.customLabelsJson;
      var custom := ParseCustomLabels(parsed);
      Ok(Loaded(ActionInputs(env.githubToken, env.openaiApiKey, endpoint, model, custom.labels),
                custom.warnings))
  }

  // ---------------------------------------------------------------------------
  // Custom labels

  /** The element test of the filter as the source writes it: `typeof item`
      is `"object"` and both `item.label` and `item.description` are truthy,
      whatever their type. (A `null` element is not tested: reading its
      `label` throws.) Only objects pass, and every element the model's
      test accepts passes this one too. */
  predicate AcceptsAsWritten(item: Json): (r: bool)
    ensures r ==> item.JObj?
    ensures Accepts(item) ==> r
  {
    IsObjectType(item) && TruthyProp(item, "label") && TruthyProp(item, "description")
  }

  /** The property `key` of `item` when it is a non-empty string. */
  predicate NonEmptyString(item: Json, key: string)
  {
    match Get(item, key)
    case Some(JStr(s)) => s != ""
    case _ => false
  }

  /** The element test the model uses: `label` and `description` must both be
      non-empty strings, as the `CustomLabel` record declares them. */
  predicate Accepts(item: Json)
  {
    NonEmptyString(item, "label") && NonEmptyString(item, "description")
  }

  /** The string value of a property, `""` when it is not a string. */
  function StringProp(item: Json, key: string): string
  {
    match Get(item, key)
    case Some(JStr(s)) => s
    case _ => ""
  }

  function ToCustomLabel(item: Json): CustomLabel
  {
    CustomLabel(StringProp(item, "label"), StringProp(item, "description"))
  }

  function ToCustomLabels(items: seq<Json>): (r: seq<CustomLabel>)
    ensures |r| == |items|
    ensures forall i :: 0 <= i < |items| ==> r[i] == ToCustomLabel(items[i])
  {
    if |items| == 0 then [] else [ToCustomLabel(items[0])] + ToCustomLabels(items[1..])
  }

  /** One warning per rejected element, in order. */
  function Rejections(items: seq<Json>): (r: seq<Warning>)
    ensures |r| == |items|
  {
    if |items| == 0 then [] else [InvalidCustomLabel(items[0])] + Rejections(items[1..])
  }

  /** The outcome of running the filter over an array: the labels kept, the
      warnings emitted, and whether the filter threw (on a `null` element). */
  datatype Filtered = Filtered(kept: seq<CustomLabel>, warnings: seq<Warning>, threw: bool)

  /** `parsed.filter(…)`, element by element. A `null` element throws; the
      elements after it are never looked at. Each element looked at is kept
      or warned about, and every kept label has a non-empty name and
      description. */
  function FilterItems(items: seq<Json>): (r: Filtered)
    ensures |r.kept| + |r.warnings| <= |items|
    ensures !r.threw ==> |r.kept| + |r.warnings| == |items|
    ensures forall i :: 0 <= i < |r.kept| ==> r.kept[i].name != "" && r.kept[i].description != ""
  {
    if |items| == 0 then Filtered([], [], false)
    else if items[0] == JNull then Filtered([], [], true)
    else
      var rest := FilterItems(items[1..]);
      if Accepts(items[0]) then
        Filtered([ToCustomLabel(items[0])] + rest.kept, rest.warnings, rest.threw)
      else
        Filtered(rest.kept, [InvalidCustomLabel(items[0])] + rest.warnings, rest.threw)
  }

  predicate Rejects(item: Json)
  {
    !Accepts(item)
  }

  /** The filter throws exactly when the array holds a `null`. */
  lemma {:induction false} FilterItemsThrows(items: seq<Json>)
    ensures FilterItems(items).threw <==> JNull in items
  {
    if |items| > 0 && items[0] != JNull {
      FilterItemsThrows(items[1..]);
      assert items == [items[0]] + items[1..];
    }
  }

  /** Without a `null`, the filter keeps the accepted elements in order and
      warns once for each rejected one, in order. */
  lemma {:induction false} FilterItemsKeeps(items: seq<Json>)
    requires JNull !in items
    ensures FilterItems(items).kept == ToCustomLabels(Filter(Accepts, items))
    ensures FilterItems(items).warnings == Rejections(Filter(Rejects, items))
  {
    if |items| > 0 {
      assert items[0] in items;
      assert forall x :: x in items[1..] ==> x in items;
      FilterItemsKeeps(items[1..]);
    }
  }

  /** When it throws, the warnings emitted are those for the rejected
      elements before the first `null`. */
  lemma {:induction false} FilterItemsWarnsBeforeNull(items: seq<Json>)
    requires JNull in items
    ensures FilterItems(items).warnings == Rejections(Filter(Rejects, items[..IndexOf(items, JNull)]))
  {
    if items[0] == JNull {
      assert items[..0] == [];
    } else {
      assert JNull in items[1..] by {
        var k := IndexOf(items, JNull);
        assert items[1..][k - 1] == JNull;
      }
      FilterItemsWarnsBeforeNull(items[1..]);
      var k := IndexOf(items[1..], JNull);
      assert items[1..][k] == items[k + 1];
      assert IndexOf(items, JNull) == k + 1;
      assert items[..k + 1][0] == items[0];
      assert items[..k + 1][1..] == items[1..][..k];
    }
  }

  /** The custom-label list and the warnings it produced. */
  datatype Parsed = Parsed(labels: seq<CustomLabel>, warnings: seq<Warning>)

  /** `parseCustomLabels`, given what `JSON.parse` returned (`None` when it
      threw). It never fails: a parse failure or a throwing filter yields no
      labels and a warning, a value that is not an array yields no labels and
      a warning, and an array yields the elements that pass the test, each
      rejected element with a warning of its own. */
  function ParseCustomLabels(parsed: Option<Json>): (r: Parsed)
    ensures forall i :: 0 <= i < |r.labels| ==>
      r.labels[i].name != "" && r.labels[i].description != ""
  {
    match parsed
    case None => Parsed([], [CustomLabelsUnparseable])
    case Some(JArr(items)) =>
      var f := FilterItems(items);
      if f.threw then Parsed([], f.warnings + [CustomLabelsUnparseable])
      else
        Parsed(f.kept, f.warnings)
    case Some(_) => Parsed([], [CustomLabelsNotArray])
  }

  // ---------------------------------------------------------------------------
  // Properties

  /** A missing `github-token` is reported before anything else is read,
      whatever the other inputs are; a missing `openai-api-key` next. */
  lemma RequiredInputsFirst(env: Env)
    ensures env.githubToken == "" ==> GetActionInputs(env) == Err(MissingInput("github-token"))
    ensures env.githubToken != "" && env.openaiApiKey == "" ==>
      GetActionInputs(env) == Err(MissingInput("openai-api-key"))
    ensures GetActionInputs(env).Ok? <==> env.githubToken != "" && env.openaiApiKey != ""
  {
  }

  /** Unset optional inputs take their defaults and set ones are kept as
      given; the credentials are passed through. */
  lemma InputDefaults(env: Env)
    requires env.githubToken != "" && env.openaiApiKey != ""
    ensures GetActionInputs(env).Ok?
    ensures GetActionInputs(env).value.inputs.githubToken == env.githubToken
    ensures GetActionInputs(env).value.inputs.openaiApiKey == env.openaiApiKey
    ensures env.openaiEndpoint == "" ==> GetActionInputs(env).value.inputs.openaiEndpoint == DefaultEndpoint
    ensures env.openaiEndpoint != "" ==> GetActionInputs(env).value.inputs.openaiEndpoint == env.openaiEndpoint
    ensures env.openaiModel == "" ==> GetActionInputs(env).value.inputs.openaiModel == DefaultModel
    ensures env.openaiModel != "" ==> GetActionInputs(env).value.inputs.openaiModel == env.openaiModel
    ensures env.customLabels == "" ==> GetActionInputs(env).value == Loaded(GetActionInputs(env).value.inputs, []) && GetActionInputs(env).value.inputs.customLabels == []
  {
  }

  /** Text that is not JSON, and JSON that is not an array, give an empty
      list with exactly one warning and no error. */
  lemma NonArrayGivesEmpty(parsed: Option<Json>)
    requires parsed.None? || !parsed.value.JArr?
    ensures ParseCustomLabels(parsed).labels == []
    ensures |ParseCustomLabels(parsed).warnings| == 1
    ensures parsed.None? ==> ParseCustomLabels(parsed).warnings == [CustomLabelsUnparseable]
    ensures parsed.Some? ==> ParseCustomLabels(parsed).warnings == [CustomLabelsNotArray]
  {
  }

  /** For an array without `null`, the result is the ordered subsequence of
      accepted elements, every accepted element is in it, and the kept
      elements and the warnings together account for every element once. */
  lemma {:induction false} ArrayFilterSpec(items: seq<Json>)
    requires JNull !in items
    ensures var r := ParseCustomLabels(Some(JArr(items)));
      && r.labels == ToCustomLabels(Filter(Accepts, items))
      && IsSubseq(Filter(Accepts, items), items)
      && (forall i :: 0 <= i < |items| && Accepts(items[i]) ==> ToCustomLabel(items[i]) in r.labels)
      && |r.labels| + |r.warnings| == |items|
  {
    var r := ParseCustomLabels(Some(JArr(items)));
    FilterItemsThrows(items);
    FilterItemsKeeps(items);
    FilterIsSubseq(Accepts, items);
    FilterPartition(Accepts, Rejects, items);
    forall i | 0 <= i < |items| && Accepts(items[i])
      ensures ToCustomLabel(items[i]) in r.labels
    {
      var kept := Filter(Accepts, items);
      assert items[i] in kept;
      var k :| 0 <= k < |kept| && kept[k] == items[i];
      assert r.labels[k] == ToCustomLabel(items[i]);
    }
  }

  /** An empty `label` or `description` makes an element invalid, both in the
      source's test and in the model's. */
  lemma EmptyStringRejected(item: Json)
    requires Get(item, "label") == Some(JStr("")) || Get(item, "description") == Some(JStr(""))
    ensures !Accepts(item) && !AcceptsAsWritten(item)
  {
  }

  /** A `null` element makes the whole list empty, whatever else the array
      holds, and the parse-failure warning comes last. */
  lemma NullElementEmptiesList(items: seq<Json>)
    requires JNull in items
    ensures ParseCustomLabels(Some(JArr(items))).labels == []
    ensures var w := ParseCustomLabels(Some(JArr(items))).warnings;
      |w| > 0 && w[|w| - 1] == CustomLabelsUnparseable
  {
    FilterItemsThrows(items);
  }

  /** Where `label` and `description` are strings (or absent), the model's
      test and the source's test agree. */
  lemma AcceptsAgreesOnStrings(item: Json)
    requires item.JObj?
    requires Get(item, "label").None? || Get(item, "label").value.JStr?
    requires Get(item, "description").None? || Get(item, "description").value.JStr?
    ensures Accepts(item) <==> AcceptsAsWritten(item)
  {
  }

  /** The source's test lets through an element whose `label` is a number:
      it is truthy, but it is not a string. */
  lemma NumericLabelAcceptedAsWritten()
    ensures var item := JObj([Member("label", JNum(1)), Member("description", JStr("x"))]);
      AcceptsAsWritten(item) && !Accepts(item) && !Get(item, "label").value.JStr?
  {
    var item := JObj([Member("label", JNum(1)), Member("description", JStr("x"))]);
    assert item.members[..1][0].key == "label";
    assert KeyIndex(item.members, "label") == 0;
    assert KeyIndex(item.members, "description") == 1;
  }
}
