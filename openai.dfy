/** The classifier side of the action (src/openai.ts): the two prompts, the
    JSON schema sent with the request, and the checks applied to the answer.
    The chat-completion call itself is an input: either the error it threw or
    the `parsed` field of its first choice. */
module OpenAI {
  import opened Base
  import opened Json
  import opened Types

  // ---------------------------------------------------------------------------
  // Prompts

  /** The system prompt's text before the label lines. */
  const PromptIntro: string :=
    "You are an expert GitHub issue classifier. Your task is to analyze issue titles and descriptions to assign appropriate labels and determine the issue type.\n"
    + "\n"
    + "Available Labels:"

  /** The system prompt's text after the label lines. */
  const PromptTypesAndGuidelines: string :=
    "\n"
    + "Available Types:\n"
    + "- Bug: Issues reporting problems, errors, or unexpected behavior\n"
    + "- Feature: Requests for new functionality or enhancements\n"
    + "- Task: General tasks, maintenance, or process-related issues\n"
    + "\n"
    + "Guidelines:\n"
    + "1. Assign multiple relevant labels based on the issue content\n"
    + "2. Assign exactly one type that best categorizes the issue\n"
    + "3. Consider both the title and description when making decisions\n"
    + "4. Be conservative but accurate in your classifications\n"
    + "5. Provide clear reasoning for your decisions\n"
    + "\n"
    + "Return your classification with reasoning for the decisions made."

  /** The labels offered to the model: the defaults and the custom labels,
      without the type labels. */
  function PromptCatalog(custom: seq<CustomLabel>): seq<CustomLabel>
  {
    DefaultLabels + custom
  }

  function LabelLine(l: CustomLabel): string
  {
    "- " + l.name + ": " + l.description
  }

  function LabelLines(labels: seq<CustomLabel>): (r: seq<string>)
    ensures |r| == |labels|
    ensures forall i :: 0 <= i < |labels| ==> r[i] == LabelLine(labels[i])
  {
    if |labels| == 0 then [] else [LabelLine(labels[0])] + LabelLines(labels[1..])
  }

  /** The label lines of the system prompt, one per catalog entry. */
  function LabelSection(labels: seq<CustomLabel>): string
  {
    Join(LabelLines(labels), "\n")
  }

  /** `createSystemPrompt` */
  function SystemPrompt(labels: seq<CustomLabel>): string
  {
    PromptIntro + "\n" + LabelSection(labels) + "\n" + PromptTypesAndGuidelines
  }

  const UserPromptIntro: string := "Please analyze this GitHub issue and classify it:"
  const UserPromptOutro: string := "Please provide labels and type classification with reasoning."
  const NoDescription: string := "No description provided"

  /** The issue body as the prompt shows it. */
  function Description(issue: IssueInfo): string
  {
    if issue.body == "" then NoDescription else issue.body
  }

  /** The lines of the user prompt between its fixed first and last lines:
      an empty line, the title, an empty line, the description heading, the
      description and an empty line. */
  function IssueLines(issue: IssueInfo): seq<string>
  {
    ["", "Title: " + issue.title, "", "Description:", Description(issue), ""]
  }

  function IssueSection(issue: IssueInfo): string
  {
    Join(IssueLines(issue), "\n")
  }

  /** `createUserPrompt`: its fixed first line, a line break, the issue
      section, a line break and its fixed last line. */
  function UserPrompt(issue: IssueInfo): (p: string)
    ensures var start := |UserPromptIntro| + 1;
      var end := start + |IssueSection(issue)|;
      && |p| == end + 1 + |UserPromptOutro|
      && p[..start - 1] == UserPromptIntro && p[start - 1] == '\n'
      && p[start..end] == IssueSection(issue)
      && p[end] == '\n' && p[end + 1..] == UserPromptOutro
  {
    Framed(UserPromptIntro, IssueSection(issue), UserPromptOutro, '\n');
    UserPromptIntro + "\n" + IssueSection(issue) + "\n" + UserPromptOutro
  }

  lemma LabelLineOneLine(l: CustomLabel)
    requires '\n' !in l.name && '\n' !in l.description
    ensures '\n' !in LabelLine(l)
  {
    assert '\n' !in "- " && '\n' !in ": ";
  }

  /** Read line by line, the label section of the system prompt is one
      `- name: description` line per catalog entry, in catalog order,
      provided no name or description contains a line break. */
  lemma LabelSectionLines(labels: seq<CustomLabel>)
    requires |labels| > 0
    requires forall i :: 0 <= i < |labels| ==> '\n' !in labels[i].name && '\n' !in labels[i].description
    ensures |Split(LabelSection(labels), '\n')| == |labels|
    ensures forall i :: 0 <= i < |labels| ==>
      Split(LabelSection(labels), '\n')[i] == "- " + labels[i].name + ": " + labels[i].description
  {
    var lines := LabelLines(labels);
    forall i | 0 <= i < |lines|
      ensures '\n' !in lines[i]
    {
      LabelLineOneLine(labels[i]);
    }
    SplitJoin(lines, '\n');
  }

  /** Read line by line, the middle of the user prompt is an empty line, the
      title verbatim after `Title: `, an empty line, the `Description:`
      heading, the body or, for an empty body, the placeholder, and an empty
      line, provided neither title nor body contains a line break. */
  lemma IssueSectionLines(issue: IssueInfo)
    requires '\n' !in issue.title && '\n' !in issue.body
    ensures Split(IssueSection(issue), '\n') ==
      ["", "Title: " + issue.title, "", "Description:",
       if issue.body == "" then "No description provided" else issue.body, ""]
  {
    var ls := IssueLines(issue);
    assert '\n' !in "Title: " + issue.title by {
      assert '\n' !in "Title: ";
    }
    assert '\n' !in Description(issue) by {
      assert '\n' !in NoDescription;
    }
    assert '\n' !in "Description:";
    SplitJoin(ls, '\n');
  }

  /** For every issue, whatever line breaks its title and body hold, the
      middle of the user prompt is a line break, `Title: ` and the title, two
      line breaks, `Description:`, a line break, the description and a final
      line break. */
  lemma IssueSectionText(issue: IssueInfo)
    ensures IssueSection(issue) ==
      "\n" + "Title: " + issue.title + "\n" + "\n" + "Description:" + "\n" + Description(issue) + "\n"
  {
    JoinSix("", "Title: " + issue.title, "", "Description:", Description(issue), "", "\n");
  }

  /** The system prompt is its fixed opening, a line break, the label
      section, a line break and its fixed closing. */
  lemma SystemPromptEmbedsLabels(labels: seq<CustomLabel>)
    ensures var p := SystemPrompt(labels);
      var start := |PromptIntro| + 1;
      var end := start + |LabelSection(labels)|;
      && |p| == end + 1 + |PromptTypesAndGuidelines|
      && p[..start - 1] == PromptIntro && p[start - 1] == '\n'
      && p[start..end] == LabelSection(labels)
      && p[end] == '\n' && p[end + 1..] == PromptTypesAndGuidelines
  {
    Framed(PromptIntro, LabelSection(labels), PromptTypesAndGuidelines, '\n');
  }

  /** An empty body reads exactly like the placeholder text; a non-empty body
      is shown as it is. */
  lemma EmptyBodyPlaceholder(issue: IssueInfo)
    ensures issue.body == "" ==>
      UserPrompt(issue) == UserPrompt(issue.(body := "No description provided"))
    ensures issue.body != "" ==> Description(issue) == issue.body
  {
  }

  /** The prompt catalog is the first part of the run's catalog: it lacks
      only the type labels. */
  lemma PromptCatalogExcludesTypes(custom: seq<CustomLabel>)
    ensures |PromptCatalog(custom)| == 5 + |custom|
    ensures PromptCatalog(custom)[..5] == DefaultLabels
    ensures PromptCatalog(custom)[5..] == custom
  {
  }

  // ---------------------------------------------------------------------------
  // The schema sent with the request

  const LabelsSchema: Json := JObj([
    Member("type", JStr("array")),
    Member("items", JObj([Member("type", JStr("string"))])),
    Member("description", JStr("Array of relevant labels for this issue"))])

  const TypeSchema: Json := JObj([
    Member("type", JStr("string")),
    Member("enum", JArr([JStr("Bug"), JStr("Feature"), JStr("Task")])),
    Member("description", JStr("Single type classification for this issue"))])

  const ReasoningSchema: Json := JObj([
    Member("type", JStr("string")),
    Member("description", JStr("Brief explanation of the labeling decision"))])

  /** `zodToJsonSchema(LLMResponseSchema)`: a fixed JSON Schema object. */
  const ResponseJsonSchema: Json := JObj([
    Member("type", JStr("object")),
    Member("properties", JObj([
      Member("labels", LabelsSchema),
      Member("type", TypeSchema),
      Member("reasoning", ReasoningSchema)])),
    Member("required", JArr([JStr("labels"), JStr("type"), JStr("reasoning")])),
    Member("additionalProperties", JBool(false))])

  // A JSON Schema validator for the keywords the action's schema uses.

  predicate TypeOk(t: Option<Json>, v: Json)
  {
    match t
    case Some(JStr("object")) => v.JObj?
    case Some(JStr("array")) => v.JArr?
    case Some(JStr("string")) => v.JStr?
    case Some(JStr("boolean")) => v.JBool?
    case Some(JStr("null")) => v.JNull?
    case Some(JStr("number")) => v.JNum?
    case Some(JStr("integer")) => v.JNum?
    case _ => true
  }

  predicate EnumOk(e: Option<Json>, v: Json)
  {
    match e
    case Some(JArr(options)) => v in options
    case _ => true
  }

  predicate RequiredOk(r: Option<Json>, v: Json)
  {
    match r
    case Some(JArr(names)) =>
      v.JObj? ==> forall i :: 0 <= i < |names| && names[i].JStr? ==> Lookup(v.members, names[i].s).Some?
    case _ => true
  }

  predicate AdditionalOk(a: Option<Json>, props: Option<Json>, v: Json)
  {
    a == Some(JBool(false)) && v.JObj? ==>
      forall i :: 0 <= i < |v.members| ==>
        props.Some? && props.value.JObj? && Lookup(props.value.members, v.members[i].key).Some?
  }

  /** `v` is valid against `schema` under the keywords `type`, `enum`,
      `required`, `additionalProperties`, `properties` and `items`; other
      keywords (such as `description`) constrain nothing. */
  predicate Conforms(schema: Json, v: Json)
    decreases schema
  {
    match schema
    case JObj(kws) =>
      && TypeOk(Lookup(kws, "type"), v)
      && EnumOk(Lookup(kws, "enum"), v)
      && RequiredOk(Lookup(kws, "required"), v)
      && AdditionalOk(Lookup(kws, "additionalProperties"), Lookup(kws, "properties"), v)
      && PropertiesConform(kws, v)
      && ItemsConform(kws, v)
    case JBool(b) => b
    case _ => true
  }

  predicate PropertiesConform(kws: seq<Member>, v: Json)
    decreases JObj(kws), 0
  {
    var p := KeyIndex(kws, "properties");
    p >= 0 && kws[p].value.JObj? && v.JObj? ==>
      var props := kws[p].value.members;
      forall i :: 0 <= i < |props| ==>
        Lookup(v.members, props[i].key).Some? ==> Conforms(props[i].value, Lookup(v.members, props[i].key).value)
  }

  predicate ItemsConform(kws: seq<Member>, v: Json)
    decreases JObj(kws), 0
  {
    var t := KeyIndex(kws, "items");
    t >= 0 && v.JArr? ==> forall i :: 0 <= i < |v.items| ==> Conforms(kws[t].value, v.items[i])
  }

  // ---------------------------------------------------------------------------
  // The schema against the response type

  /** The three properties of a response, in declaration order. */
  const ResponseKeys: seq<string> := ["labels", "type", "reasoning"]

  /** Every property of `v` is one of the three response properties. */
  predicate OnlyResponseKeys(v: Json)
  {
    v.JObj? && forall i :: 0 <= i < |v.members| ==> v.members[i].key in ResponseKeys
  }

  /** The schema sent with the request requires exactly the three response
      properties, forbids any other, and its `type` enum lists `ISSUE_TYPES`
      in order. */
  lemma RequestSchemaShape()
    ensures Lookup(ResponseJsonSchema.members, "type") == Some(JStr("object"))
    ensures Lookup(ResponseJsonSchema.members, "required") == Some(JArr(FromStrings(ResponseKeys)))
    ensures Lookup(ResponseJsonSchema.members, "additionalProperties") == Some(JBool(false))
    ensures Lookup(ResponseJsonSchema.members, "properties").Some?
    ensures var props := Lookup(ResponseJsonSchema.members, "properties").value;
      props.JObj? && |props.members| == 3 &&
      forall i :: 0 <= i < 3 ==> props.members[i].key == ResponseKeys[i]
    ensures Lookup(TypeSchema.members, "enum") == Some(JArr(FromStrings(IssueTypes)))
  {
    var kws := ResponseJsonSchema.members;
    LookupAt(kws, 0);
    LookupAt(kws, 1);
    LookupAt(kws, 2);
    LookupAt(kws, 3);
    assert FromStrings(ResponseKeys) == [JStr("labels"), JStr("type"), JStr("reasoning")];
    assert FromStrings(IssueTypes) == [JStr("Bug"), JStr("Feature"), JStr("Task")];
  }

  /** A schema object whose only keywords are `type`, `enum`, `items` and
      `description` constrains a value through the first three alone. */
  lemma LeafSchema(kws: seq<Member>, v: Json)
    requires forall i :: 0 <= i < |kws| ==> kws[i].key in ["type", "enum", "items", "description"]
    ensures Conforms(JObj(kws), v) <==>
      TypeOk(Lookup(kws, "type"), v) && EnumOk(Lookup(kws, "enum"), v) && ItemsConform(kws, v)
  {
    assert KeyIndex(kws, "properties") < 0;
    assert KeyIndex(kws, "required") < 0;
    assert KeyIndex(kws, "additionalProperties") < 0;
  }

  lemma TypeOkStringArray(x: Json)
    ensures TypeOk(Some(JStr("string")), x) <==> x.JStr?
    ensures TypeOk(Some(JStr("array")), x) <==> x.JArr?
  {
  }

  lemma TypeSchemaLookups()
    ensures Lookup(TypeSchema.members, "type") == Some(JStr("string"))
    ensures Lookup(TypeSchema.members, "enum") == Some(JArr([JStr("Bug"), JStr("Feature"), JStr("Task")]))
    ensures KeyIndex(TypeSchema.members, "items") < 0
  {
    LookupAt(TypeSchema.members, 0);
    LookupAt(TypeSchema.members, 1);
  }

  lemma LabelsSchemaLookups()
    ensures Lookup(LabelsSchema.members, "type") == Some(JStr("array"))
    ensures Lookup(LabelsSchema.members, "enum") == None
    ensures KeyIndex(LabelsSchema.members, "items") == 1
    ensures LabelsSchema.members[1].value == JObj([Member("type", JStr("string"))])
  {
    LookupAt(LabelsSchema.members, 0);
    LookupAt(LabelsSchema.members, 1);
  }

  lemma StringItemSpec(y: Json)
    ensures Conforms(JObj([Member("type", JStr("string"))]), y) <==> y.JStr?
  {
    var item := [Member("type", JStr("string"))];
    LeafSchema(item, y);
    LookupAt(item, 0);
    assert KeyIndex(item, "enum") < 0 && KeyIndex(item, "items") < 0;
    TypeOkStringArray(y);
  }

  /** The `labels` sub-schema admits exactly the arrays of strings. */
  lemma LabelsSchemaSpec(x: Json)
    ensures Conforms(LabelsSchema, x) <==> x.JArr? && AllStrings(x.items)
  {
    LeafSchema(LabelsSchema.members, x);
    LabelsSchemaLookups();
    TypeOkStringArray(x);
    forall y {
      StringItemSpec(y);
    }
  }

  /** The `type` sub-schema admits exactly the three type names. */
  lemma TypeSchemaSpec(x: Json)
    ensures Conforms(TypeSchema, x) <==> x.JStr? && x.s in IssueTypes
  {
    LeafSchema(TypeSchema.members, x);
    TypeSchemaLookups();
    TypeOkStringArray(x);
    TypeNamesEnum(x);
  }

  lemma TypeNamesEnum(x: Json)
    ensures EnumOk(Some(JArr([JStr("Bug"), JStr("Feature"), JStr("Task")])), x) <==> x.JStr? && x.s in IssueTypes
  {
  }

  /** The `reasoning` sub-schema admits exactly the strings. */
  lemma ReasoningSchemaSpec(x: Json)
    ensures Conforms(ReasoningSchema, x) <==> x.JStr?
  {
    var kws := ReasoningSchema.members;
    LeafSchema(kws, x);
    LookupAt(kws, 0);
    assert KeyIndex(kws, "enum") < 0 && KeyIndex(kws, "items") < 0;
    TypeOkStringArray(x);
  }

  /** The top-level keywords of the request schema, one at a time. */
  lemma RequestSchemaKeywords(v: Json)
    ensures Conforms(ResponseJsonSchema, v) <==>
      v.JObj? &&
      RequiredOk(Lookup(ResponseJsonSchema.members, "required"), v) &&
      AdditionalOk(Lookup(ResponseJsonSchema.members, "additionalProperties"),
                   Lookup(ResponseJsonSchema.members, "properties"), v) &&
      PropertiesConform(ResponseJsonSchema.members, v)
  {
    RequestSchemaShape();
    var kws := ResponseJsonSchema.members;
    assert Lookup(kws, "enum") == None;
    assert KeyIndex(kws, "items") < 0;
  }

  lemma RequiredSpec(v: Json)
    requires v.JObj?
    ensures RequiredOk(Lookup(ResponseJsonSchema.members, "required"), v) <==>
      Get(v, "labels").Some? && Get(v, "type").Some? && Get(v, "reasoning").Some?
  {
    RequestSchemaShape();
    var names := FromStrings(ResponseKeys);
    assert names == [JStr("labels"), JStr("type"), JStr("reasoning")];
    assert RequiredOk(Some(JArr(names)), v) <==>
      forall i :: 0 <= i < |names| && names[i].JStr? ==> Lookup(v.members, names[i].s).Some?;
    assert names[0].s == "labels" && names[1].s == "type" && names[2].s == "reasoning";
  }

  lemma AdditionalSpec(v: Json)
    requires v.JObj?
    ensures var kws := ResponseJsonSchema.members;
      AdditionalOk(Lookup(kws, "additionalProperties"), Lookup(kws, "properties"), v) <==> OnlyResponseKeys(v)
  {
    RequestSchemaShape();
    var props := Lookup(ResponseJsonSchema.members, "properties").value.members;
    LookupAt(props, 0);
    LookupAt(props, 1);
    LookupAt(props, 2);
    assert forall k :: Lookup(props, k).Some? <==> k in ResponseKeys;
  }

  /** `properties` of three entries constrains the value of each entry's
      key, where present. */
  lemma PropertiesOfThree(kws: seq<Member>, v: Json, a: Member, b: Member, c: Member)
    requires v.JObj? && Lookup(kws, "properties") == Some(JObj([a, b, c]))
    ensures PropertiesConform(kws, v) <==>
      (Lookup(v.members, a.key).Some? ==> Conforms(a.value, Lookup(v.members, a.key).value)) &&
      (Lookup(v.members, b.key).Some? ==> Conforms(b.value, Lookup(v.members, b.key).value)) &&
      (Lookup(v.members, c.key).Some? ==> Conforms(c.value, Lookup(v.members, c.key).value))
  {
    var props := [a, b, c];
    assert props[0] == a && props[1] == b && props[2] == c;
  }

  lemma PropertiesSpec(v: Json)
    requires v.JObj?
    ensures PropertiesConform(ResponseJsonSchema.members, v) <==>
      (Get(v, "labels").Some? ==> Conforms(LabelsSchema, Get(v, "labels").value)) &&
      (Get(v, "type").Some? ==> Conforms(TypeSchema, Get(v, "type").value)) &&
      (Get(v, "reasoning").Some? ==> Conforms(ReasoningSchema, Get(v, "reasoning").value))
  {
    LookupAt(ResponseJsonSchema.members, 1);
    PropertiesOfThree(ResponseJsonSchema.members, v,
      Member("labels", LabelsSchema), Member("type", TypeSchema), Member("reasoning", ReasoningSchema));
  }

  /** The JSON Schema sent with the request and the schema the answer is
      checked against agree: a value is valid against the former exactly
      when the latter accepts it and it carries no property besides the
      three response properties. */
  lemma RequestSchemaMatchesResponseSchema(v: Json)
    ensures Conforms(ResponseJsonSchema, v) <==> SchemaParse(v).Some? && OnlyResponseKeys(v)
  {
    RequestSchemaKeywords(v);
    if v.JObj? {
      RequiredSpec(v);
      AdditionalSpec(v);
      PropertiesSpec(v);
      var labels, ty, why := Get(v, "labels"), Get(v, "type"), Get(v, "reasoning");
      if labels.Some? { LabelsSchemaSpec(labels.value); }
      if ty.Some? { TypeSchemaSpec(ty.value); }
      if why.Some? { ReasoningSchemaSpec(why.value); }
    }
  }

  // ---------------------------------------------------------------------------
  // The request and the answer

  /** What the chat-completion call is given: client settings, the two
      messages and the structured-output format. */
  datatype ChatRequest = ChatRequest(
    apiKey: string,
    baseUrl: string,
    model: string,
    systemPrompt: string,
    userPrompt: string,
    schemaName: string,
    schema: Json)

  const NoResponse: string := "No response received from OpenAI"

  /** Stands for the message of the error `LLMResponseSchema.parse` throws. */
  const SchemaRejected: string := "The response does not match LLMResponseSchema"

  /** The checks `analyzeIssue` applies to the `parsed` field of the first
      choice (`None` when there is no choice, message or parsed value): a
      falsy value is no response, anything else must pass the schema. */
  function CheckResponse(parsed: Option<Json>): (r: Result<LLMResponse>)
    ensures parsed.None? || !Truthy(parsed.value) ==> r == Err(NoResponse)
    ensures r.Ok? <==> parsed.Some? && SchemaParse(parsed.value).Some?
    ensures r.Ok? ==> SchemaParse(parsed.value) == Some(r.value)
    ensures r.Ok? ==> TypeName(r.value.issueType) in IssueTypes
    ensures r.Err? ==> r.message in [NoResponse, SchemaRejected]
  {
    if parsed.None? || !Truthy(parsed.value) then Err(NoResponse)
    else match SchemaParse(parsed.value)
      case None => Err(SchemaRejected)
      case Some(resp) => Ok(resp)
  }

  /** An answer that is valid against the schema sent with the request
      passes every check. */
  lemma ConformingAnswerAccepted(v: Json)
    requires Conforms(ResponseJsonSchema, v)
    ensures CheckResponse(Some(v)).Ok?
  {
    RequestSchemaMatchesResponseSchema(v);
  }

  /** A response written as JSON comes back from the checks unchanged, and
      the JSON written for it is valid against the schema sent. */
  lemma CheckResponseRoundTrip(resp: LLMResponse)
    ensures CheckResponse(Some(ResponseToJson(resp))) == Ok(resp)
    ensures Conforms(ResponseJsonSchema, ResponseToJson(resp))
  {
    SchemaParseRoundTrip(resp);
    var keys := ResponseToJson(resp).members;
    assert forall i :: 0 <= i < |keys| ==> keys[i].key in ResponseKeys;
    RequestSchemaMatchesResponseSchema(ResponseToJson(resp));
  }

  /** `analyzeIssue`, given the outcome of the chat-completion call: the
      error it threw, or the parsed value of its first choice. The request
      carries the catalog's prompts and the fixed schema; an error of the
      call is rethrown unchanged, and the answer is returned only once it
      has passed the response checks. */
  method AnalyzeIssue(inputs: ActionInputs, issue: IssueInfo, completion: Result<Option<Json>>)
    returns (request: ChatRequest, r: Result<LLMResponse>)
    ensures request == ChatRequest(inputs.openaiApiKey, inputs.openaiEndpoint, inputs.openaiModel,
      SystemPrompt(PromptCatalog(inputs.customLabels)), UserPrompt(issue),
      "issue_classification", ResponseJsonSchema)
    ensures completion.Err? ==> r == Err(completion.message)
    ensures completion.Ok? ==> r == CheckResponse(completion.value)
  {
    var allLabels := DefaultLabels + inputs.customLabels;
    var systemPrompt := SystemPrompt(allLabels);
    var userPrompt := UserPrompt(issue);
    request := ChatRequest(inputs.openaiApiKey, inputs.openaiEndpoint, inputs.openaiModel,
      systemPrompt, userPrompt, "issue_classification", ResponseJsonSchema);
    if completion.Err? {
      return request, Err(completion.message);
    }
    r := CheckResponse(completion.value);
  }
}
