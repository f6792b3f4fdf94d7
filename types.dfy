/** The records, constant tables and response schema shared by the action's
    steps (src/types.ts). */
module Types {
  import opened Base
  import opened Json

  /** A label definition: a name and a description. The source calls the
      name `label`, which is a keyword in Dafny. */
  datatype CustomLabel = CustomLabel(name: string, description: string)

  /** The action's inputs once read and defaulted. */
  datatype ActionInputs = ActionInputs(
    githubToken: string,
    openaiApiKey: string,
    openaiEndpoint: string,
    openaiModel: string,
    customLabels: seq<CustomLabel>)

  /** The issue that triggered the run. */
  datatype IssueInfo = IssueInfo(title: string, body: string, number: int, url: string)

  /** The five labels every run knows about, in this order. */
  const DefaultLabels: seq<CustomLabel> := [
    CustomLabel("bug", "Something isn't working"),
    CustomLabel("enhancement", "New feature or request"),
    CustomLabel("documentation", "Improvements or additions to documentation"),
    CustomLabel("help wanted", "Extra attention is needed"),
    CustomLabel("question", "Further information is requested")
  ]

  /** The three issue types. */
  datatype IssueType = Bug | Feature | Task

  function TypeName(t: IssueType): string
  {
    match t
    case Bug => "Bug"
    case Feature => "Feature"
    case Task => "Task"
  }

  /** `ISSUE_TYPES`, the names of the issue types in order. */
  const IssueTypes: seq<string> := ["Bug", "Feature", "Task"]

  /** A classification as `LLMResponseSchema` describes it. Its `type` field is
      `issueType` here, `type` being a keyword in Dafny. */
  datatype LLMResponse = LLMResponse(labels: seq<string>, issueType: IssueType, reasoning: string)

  /** `z.enum(["Bug", "Feature", "Task"])` applied to a string. */
  function ParseType(s: string): (r: Option<IssueType>)
    ensures r.Some? <==> s in IssueTypes
    ensures r.Some? ==> TypeName(r.value) == s
  {
    if s == "Bug" then Some(Bug)
    else if s == "Feature" then Some(Feature)
    else if s == "Task" then Some(Task)
    else None
  }

  /** `LLMResponseSchema.parse(j)`: an object whose `labels` is an array of
      strings, whose `type` is one of the three type names and whose
      `reasoning` is a string. Other properties are dropped, as a zod object
      schema strips unknown keys; anything else is rejected (`None`). */
  function SchemaParse(j: Json): (r: Option<LLMResponse>)
    ensures r.Some? ==> j.JObj?
    ensures r.Some? ==> Get(j, "labels") == Some(JArr(FromStrings(r.value.labels)))
    ensures r.Some? ==> Get(j, "type") == Some(JStr(TypeName(r.value.issueType)))
    ensures r.Some? ==> TypeName(r.value.issueType) in IssueTypes
    ensures r.Some? ==> Get(j, "reasoning") == Some(JStr(r.value.reasoning))
  {
    match (Get(j, "labels"), Get(j, "type"), Get(j, "reasoning"))
    case (Some(JArr(items)), Some(JStr(t)), Some(JStr(why))) =>
      if AllStrings(items) && ParseType(t).Some? then
        assert FromStrings(Strings(items)) == items;
        Some(LLMResponse(Strings(items), ParseType(t).value, why))
      else None
    case _ => None
  }

  /** The response as a JSON object with exactly the three schema keys. */
  function ResponseToJson(r: LLMResponse): Json
  {
    JObj([Member("labels", JArr(FromStrings(r.labels))),
          Member("type", JStr(TypeName(r.issueType))),
          Member("reasoning", JStr(r.reasoning))])
  }

  // ---------------------------------------------------------------------------
  // Properties of the tables

  /** Five default labels with distinct, non-empty names and non-empty
      descriptions. */
  lemma DefaultLabelsWellFormed()
    ensures |DefaultLabels| == 5
    ensures forall i :: 0 <= i < 5 ==> DefaultLabels[i].name != "" && DefaultLabels[i].description != ""
    ensures forall i, j :: 0 <= i < j < 5 ==> DefaultLabels[i].name != DefaultLabels[j].name
  {
  }

  /** `ISSUE_TYPES` lists exactly the names of the three types, each once, and
      the schema's enum accepts exactly those names. */
  lemma IssueTypesMatchEnum(t: IssueType, s: string)
    ensures IssueTypes == [TypeName(Bug), TypeName(Feature), TypeName(Task)]
    ensures NoDup(IssueTypes)
    ensures TypeName(t) in IssueTypes
    ensures ParseType(s) == Some(t) <==> s == TypeName(t)
  {
  }

  /** The default `bug` and the type `Bug` differ only in case, so a catalog
      holding both has a case-insensitive duplicate. */
  lemma DefaultBugMatchesTypeBug()
    ensures DefaultLabels[0].name != IssueTypes[0]
    ensures Lower(DefaultLabels[0].name) == Lower(IssueTypes[0])
  {
    assert Lower("Bug") == "bug";
    assert Lower("bug") == "bug";
  }

  // ---------------------------------------------------------------------------
  // Properties of the schema

  /** The schema accepts a value exactly when it is an object whose `labels`,
      `type` and `reasoning` properties are the string array, the type name
      and the string of some response, and that response is the result. */
  lemma SchemaParseSpec(j: Json, resp: LLMResponse)
    ensures SchemaParse(j) == Some(resp) <==>
      j.JObj? &&
      Get(j, "labels") == Some(JArr(FromStrings(resp.labels))) &&
      Get(j, "type") == Some(JStr(TypeName(resp.issueType))) &&
      Get(j, "reasoning") == Some(JStr(resp.reasoning))
  {
    if SchemaParse(j) == Some(resp) {
      var items := Get(j, "labels").value.items;
      assert FromStrings(Strings(items)) == items;
    }
    if Get(j, "labels") == Some(JArr(FromStrings(resp.labels))) {
      assert Strings(FromStrings(resp.labels)) == resp.labels;
    }
  }

  /** A response written as JSON is accepted by the schema and read back
      unchanged. */
  lemma SchemaParseRoundTrip(r: LLMResponse)
    ensures SchemaParse(ResponseToJson(r)) == Some(r)
  {
    var j := ResponseToJson(r);
    var m := j.members;
    assert m[..2][..1] == m[..1];
    assert KeyIndex(m[..1], "labels") == 0;
    assert KeyIndex(m[..2], "labels") == 0;
    assert KeyIndex(m, "labels") == 0;
    assert KeyIndex(j.members, "type") == 1;
    assert KeyIndex(j.members, "reasoning") == 2;
    SchemaParseSpec(j, r);
  }
}
