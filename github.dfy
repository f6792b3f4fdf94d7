/** The issue-tracker side of the action (src/github.ts): reading the issue
    from the triggering event, merging the new labels and type into the
    issue's labels, and creating the catalog labels the repository lacks. The
    tracker's answers are inputs; the colour a new label gets and whether its
    creation succeeds are chosen nondeterministically. */
module GitHub {
  import opened Base
  import opened Types
  import opened ActionsCore

  // ---------------------------------------------------------------------------
  // Reading the issue

  /** The fields of the event's issue that the action reads; `None` for a
      field that is missing or `null`. */
  datatype IssuePayload = IssuePayload(title: Option<string>, body: Option<string>, number: int, htmlUrl: Option<string>)

  /** The triggering event; `issue` is `None` when it is not an issue event. */
  datatype Payload = Payload(issue: Option<IssuePayload>)

  const NotAnIssueEvent: string := "This action can only be run on issue events"

  /** `field || ""` for a field that is a string, missing or `null`. */
  function OrEmpty(field: Option<string>): string
  {
    if field.Some? then field.value else ""
  }

  /** `getIssueInfo`, with the event passed in. Without an issue the step
      fails with the wrong-trigger message; with one, each missing text field
      reads as `""`, a present one is kept, and the number is passed through. */
  function GetIssueInfo(payload: Payload): (r: Result<IssueInfo>)
    ensures r.Err? <==> payload.issue.None?
    ensures payload.issue.None? ==> r == Err("This action can only be run on issue events")
    ensures payload.issue.Some? ==>
      var issue := payload.issue.value;
      && (issue.title.None? ==> r.value.title == "")
      && (issue.title.Some? ==> r.value.title == issue.title.value)
      && (issue.body.None? ==> r.value.body == "")
      && (issue.body.Some? ==> r.value.body == issue.body.value)
      && (issue.htmlUrl.None? ==> r.value.url == "")
      && (issue.htmlUrl.Some? ==> r.value.url == issue.htmlUrl.value)
      && r.value.number == issue.number
  {
    if payload.issue.None? then Err(NotAnIssueEvent)
    else
      var issue := payload.issue.value;
      Ok(IssueInfo(OrEmpty(issue.title), OrEmpty(issue.body), issue.number, OrEmpty(issue.htmlUrl)))
  }

  /** The event that an issue with these fields produces. */
  function ToPayload(info: IssueInfo): Payload
  {
    Payload(Some(IssuePayload(Some(info.title), Some(info.body), info.number, Some(info.url))))
  }

  /** Reading back the event of an issue gives the issue, and normalising an
      issue twice changes nothing. */
  lemma IssueInfoRoundTrip(info: IssueInfo, payload: Payload)
    ensures GetIssueInfo(ToPayload(info)) == Ok(info)
    ensures GetIssueInfo(payload).Ok? ==>
      GetIssueInfo(ToPayload(GetIssueInfo(payload).value)) == GetIssueInfo(payload)
  {
  }

  // ---------------------------------------------------------------------------
  // Merging labels

  /** The label names that the update treats as issue types. */
  const TypeLabelNames: seq<string> := ["Bug", "Feature", "Task"]

  /** The issue's current labels that survive: those with a non-empty name
      that is not exactly one of the type names, in their original order.
      `None` stands for a label object without a name. */
  function KeptExisting(current: seq<Option<string>>): (r: seq<string>)
    ensures forall x :: x in r <==> Some(x) in current && x != "" && x !in TypeLabelNames
  {
    if |current| == 0 then []
    else
      var head := current[0];
      (if head.Some? && head.value != "" && head.value !in TypeLabelNames then [head.value] else [])
      + KeptExisting(current[1..])
  }

  /** The name of each current label, `""` for a label without one. */
  function Names(current: seq<Option<string>>): (r: seq<string>)
    ensures |r| == |current|
    ensures forall i :: 0 <= i < |current| ==> r[i] == OrEmpty(current[i])
  {
    seq(|current|, i requires 0 <= i < |current| => OrEmpty(current[i]))
  }

  /** The test of the `filter` at src/github.ts:53 on a name. */
  predicate Survives(name: string)
  {
    name != "" && name !in TypeLabelNames
  }

  /** The surviving labels are the current names filtered by the test, so
      they keep their original order. */
  lemma {:induction false} KeptExistingOrder(current: seq<Option<string>>)
    ensures KeptExisting(current) == Filter(Survives, Names(current))
    ensures IsSubseq(KeptExisting(current), Names(current))
  {
    if |current| > 0 {
      KeptExistingOrder(current[1..]);
      assert Names(current)[1..] == Names(current[1..]);
    }
    FilterIsSubseq(Survives, Names(current));
  }

  /** `[...new Set(s)]`: the distinct elements of `s`, each at the place of
      its first occurrence. */
  function Dedup(s: seq<string>): (r: seq<string>)
    ensures NoDup(r)
    ensures forall x :: x in r <==> x in s
  {
    if |s| == 0 then []
    else
      var r := Dedup(s[..|s| - 1]);
      var x := s[|s| - 1];
      assert forall y :: y in s <==> y in s[..|s| - 1] || y == x by {
        assert s == s[..|s| - 1] + [x];
      }
      if x in r then r else r + [x]
  }

  /** The elements of `Dedup(s)` appear in the order of their first
      occurrences in `s`. */
  lemma {:induction false} DedupOrder(s: seq<string>)
    ensures forall i, j :: 0 <= i < j < |Dedup(s)| ==>
      IndexOf(s, Dedup(s)[i]) < IndexOf(s, Dedup(s)[j])
  {
    if |s| > 0 {
      var init := s[..|s| - 1];
      var x := s[|s| - 1];
      assert s == init + [x];
      DedupOrder(init);
      var r := Dedup(init);
      forall y | y in init
        ensures IndexOf(s, y) == IndexOf(init, y) && IndexOf(init, y) < |s| - 1
      {
        IndexOfPrefix(init, [x], y);
      }
      if x !in r {
        assert x !in init;
        assert IndexOf(s, x) == |s| - 1;
      }
    }
  }

  /** The label list the update sends: the surviving current labels, then
      the new labels, then the type, without repetitions. */
  function MergeLabels(current: seq<Option<string>>, labels: seq<string>, issueType: string): (r: seq<string>)
    ensures NoDup(r)
    ensures issueType in r
    ensures forall l :: l in labels ==> l in r
    ensures forall x :: x in r <==> x in KeptExisting(current) || x in labels || x == issueType
  {
    Dedup(KeptExisting(current) + labels + [issueType])
  }

  /** Labels other than the type names survive the merge when they have a
      non-empty name. The comparison is exact, so `bug` survives. */
  lemma MergeKeepsExisting(current: seq<Option<string>>, labels: seq<string>, issueType: string, x: string)
    requires Some(x) in current && x != "" && x !in TypeLabelNames
    ensures x in MergeLabels(current, labels, issueType)
  {
  }

  /** A type name is in the result exactly when it is one of the new labels
      or the new type: a current `Bug`, `Feature` or `Task` is dropped unless
      supplied again. */
  lemma MergeReplacesTypeLabels(current: seq<Option<string>>, labels: seq<string>, issueType: string, x: string)
    requires x in TypeLabelNames
    ensures x in MergeLabels(current, labels, issueType) <==> x in labels || x == issueType
  {
  }

  /** The result follows the order of the merged list: surviving labels
      first, in their order, then the new labels, then the type, each at its
      first occurrence. */
  lemma MergeOrder(current: seq<Option<string>>, labels: seq<string>, issueType: string)
    ensures var all := KeptExisting(current) + labels + [issueType];
      var r := MergeLabels(current, labels, issueType);
      forall i, j :: 0 <= i < j < |r| ==> IndexOf(all, r[i]) < IndexOf(all, r[j])
  {
    DedupOrder(KeptExisting(current) + labels + [issueType]);
  }

  /** The merge's output, read back as the issue's labels, merges with the
      same labels and type to the same set of labels. */
  lemma MergeIdempotent(current: seq<Option<string>>, labels: seq<string>, issueType: string)
    ensures var once := MergeLabels(current, labels, issueType);
      var twice := MergeLabels(AsCurrent(once), labels, issueType);
      forall x :: x in twice <==> x in once
  {
    var once := MergeLabels(current, labels, issueType);
    forall x
      ensures x in KeptExisting(AsCurrent(once)) <==> x in once && x != "" && x !in TypeLabelNames
    {
      AsCurrentHas(once, x);
    }
  }

  /** The issue's labels as the tracker reports them after an update. */
  function AsCurrent(names: seq<string>): (r: seq<Option<string>>)
    ensures |r| == |names|
  {
    seq(|names|, i requires 0 <= i < |names| => Some(names[i]))
  }

  lemma AsCurrentHas(names: seq<string>, x: string)
    ensures Some(x) in AsCurrent(names) <==> x in names
  {
    if x in names {
      var i :| 0 <= i < |names| && names[i] == x;
      assert AsCurrent(names)[i] == Some(x);
    }
  }

  /** `updateIssueLabels`: fetch the issue's labels, merge, and set them.
      A failure of either call is rethrown; on success the result is the
      list sent to `setLabels`. */
  function UpdateIssueLabels(current: Result<seq<Option<string>>>, setLabelsError: Option<string>,
                             labels: seq<string>, issueType: string): (r: Result<seq<string>>)
    ensures current.Err? ==> r == Err(current.message)
    ensures current.Ok? && setLabelsError.Some? ==> r == Err(setLabelsError.value)
    ensures r.Ok? <==> current.Ok? && setLabelsError.None?
    ensures r.Ok? ==> r.value == MergeLabels(current.value, labels, issueType)
  {
    if current.Err? then Err(current.message)
    else if setLabelsError.Some? then Err(setLabelsError.value)
    else Ok(MergeLabels(current.value, labels, issueType))
  }

  // ---------------------------------------------------------------------------
  // Creating missing labels

  /** The colours a new label may get. */
  const Palette: seq<string> := [
    "0075ca", "7057ff", "a2eeef", "e99695", "f9d0c4",
    "fef2c0", "c5f015", "d73a4a", "0052cc", "6f42c1"
  ]

  predicate IsHexDigit(c: char)
  {
    '0' <= c <= '9' || 'a' <= c <= 'f'
  }

  /** A colour as the tracker takes it: six hex digits, no `#`. */
  predicate IsHexColor(s: string)
  {
    |s| == 6 && forall i :: 0 <= i < 6 ==> IsHexDigit(s[i])
  }

  /** `getRandomColor`, with the random draw `Math.floor(Math.random() * 10)`
      passed in as `index`. */
  function GetRandomColor(index: nat): (color: string)
    requires index < |Palette|
    ensures color in Palette
    ensures IsHexColor(color)
  {
    PaletteWellFormed();
    Palette[index]
  }

  /** Ten distinct six-digit hex colours. */
  lemma PaletteWellFormed()
    ensures |Palette| == 10
    ensures NoDup(Palette)
    ensures forall k :: 0 <= k < |Palette| ==> IsHexColor(Palette[k])
  {
    assert IsHexColor("0075ca") && IsHexColor("7057ff") && IsHexColor("a2eeef") && IsHexColor("e99695");
    assert IsHexColor("f9d0c4") && IsHexColor("fef2c0") && IsHexColor("c5f015") && IsHexColor("d73a4a");
    assert IsHexColor("0052cc") && IsHexColor("6f42c1");
  }

  /** Every attempt used a palette colour. */
  predicate ColorsFromPalette(attempts: seq<CreateAttempt>)
  {
    forall k :: 0 <= k < |attempts| ==> attempts[k].color in Palette
  }

  /** One `createLabel` call: what was asked for and whether it succeeded. */
  datatype CreateAttempt = CreateAttempt(name: string, description: string, color: string, created: bool)

  function Lowered(names: seq<string>): (r: seq<string>)
    ensures |r| == |names|
  {
    seq(|names|, i requires 0 <= i < |names| => Lower(names[i]))
  }

  /** The test the loop applies to each required label, against the
      repository's lower-cased label names. */
  function IsMissing(existingLower: seq<string>): CustomLabel -> bool
  {
    (d: CustomLabel) => Lower(d.name) !in existingLower
  }

  /** The required labels for which creation is attempted, in order. The
      list of existing names is not updated as labels are created, so a name
      required twice is attempted twice. */
  function Missing(required: seq<CustomLabel>, existing: seq<string>): seq<CustomLabel>
  {
    Filter(IsMissing(Lowered(existing)), required)
  }

  /** A required label is attempted exactly when no existing name equals
      its name up to case; a name already present in another case, such as
      `bug` for the type label `Bug`, is skipped. */
  lemma MissingSpec(required: seq<CustomLabel>, existing: seq<string>, d: CustomLabel)
    ensures d in Missing(required, existing) <==>
      d in required && forall e :: e in existing ==> Lower(e) != Lower(d.name)
  {
    var lowered := Lowered(existing);
    assert IsMissing(lowered)(d) == (Lower(d.name) !in lowered);
    if Lower(d.name) in lowered {
      var k :| 0 <= k < |lowered| && lowered[k] == Lower(d.name);
      assert existing[k] in existing;
    } else {
      forall e | e in existing
        ensures Lower(e) != Lower(d.name)
      {
        var k :| 0 <= k < |existing| && existing[k] == e;
        assert lowered[k] == Lower(e);
      }
    }
  }

  /** Required twice and missing, a label is attempted twice. */
  lemma {:induction false} MissingRepeats(d: CustomLabel, existing: seq<string>)
    requires forall e :: e in existing ==> Lower(e) != Lower(d.name)
    ensures Missing([d, d], existing) == [d, d]
  {
    MissingSpec([d], existing, d);
    assert [d, d][1..] == [d];
    assert [d][1..] == [];
  }

  /** What each attempt asked for. */
  function Requests(attempts: seq<CreateAttempt>): (r: seq<CustomLabel>)
    ensures |r| == |attempts|
  {
    if |attempts| == 0 then []
    else
      var last := attempts[|attempts| - 1];
      Requests(attempts[..|attempts| - 1]) + [CustomLabel(last.name, last.description)]
  }

  /** One warning per failed attempt, in order. */
  function FailureWarnings(attempts: seq<CreateAttempt>): (r: seq<Warning>)
    ensures |r| <= |attempts|
  {
    if |attempts| == 0 then []
    else
      var last := attempts[|attempts| - 1];
      FailureWarnings(attempts[..|attempts| - 1])
        + (if last.created then [] else [LabelCreationFailed(last.name)])
  }

  /** One more attempt adds its request and, if it failed, its warning. */
  lemma AppendAttempt(attempts: seq<CreateAttempt>, a: CreateAttempt)
    ensures Requests(attempts + [a]) == Requests(attempts) + [CustomLabel(a.name, a.description)]
    ensures FailureWarnings(attempts + [a]) ==
      FailureWarnings(attempts) + (if a.created then [] else [LabelCreationFailed(a.name)])
  {
    assert (attempts + [a])[..|attempts|] == attempts;
  }

  lemma AppendColor(attempts: seq<CreateAttempt>, a: CreateAttempt)
    requires ColorsFromPalette(attempts) && a.color in Palette
    ensures ColorsFromPalette(attempts + [a])
  {
  }

  /** Palette colours are hex colours. */
  lemma PaletteColorsHex(attempts: seq<CreateAttempt>)
    requires ColorsFromPalette(attempts)
    ensures forall k :: 0 <= k < |attempts| ==> IsHexColor(attempts[k].color)
  {
    PaletteWellFormed();
    forall k | 0 <= k < |attempts|
      ensures IsHexColor(attempts[k].color)
    {
      var j :| 0 <= j < |Palette| && Palette[j] == attempts[k].color;
    }
  }

  /** `ensureLabelsExist`, given the outcome of listing the repository's
      labels. It never fails: a failed listing becomes one warning and no
      label is created; otherwise creation is attempted for exactly the
      missing labels, in order, each with a palette colour, and each failed
      attempt becomes a warning while the loop goes on. */
  method EnsureLabelsExist(listing: Result<seq<string>>, required: seq<CustomLabel>)
    returns (attempts: seq<CreateAttempt>, warnings: seq<Warning>)
    ensures listing.Err? ==> attempts == [] && warnings == [EnsureLabelsFailed(listing.message)]
    ensures listing.Ok? ==> Requests(attempts) == Missing(required, listing.value)
    ensures listing.Ok? ==> warnings == FailureWarnings(attempts)
    ensures ColorsFromPalette(attempts)
    ensures forall k :: 0 <= k < |attempts| ==> IsHexColor(attempts[k].color)
  {
    if listing.Err? {
      return [], [EnsureLabelsFailed(listing.message)];
    }
    var existingLabelNames := Lowered(listing.value);
    attempts, warnings := [], [];
    for i := 0 to |required|
      invariant Requests(attempts) == Filter(IsMissing(existingLabelNames), required[..i])
      invariant warnings == FailureWarnings(attempts)
      invariant ColorsFromPalette(attempts)
    {
      var d := required[i];
      assert required[..i + 1] == required[..i] + [d];
      FilterSnoc(IsMissing(existingLabelNames), required[..i], d);
      assert IsMissing(existingLabelNames)(d) == (Lower(d.name) !in existingLabelNames);
      if Lower(d.name) !in existingLabelNames {
        var index: nat :| index < |Palette|;
        var created: bool := *;
        var attempt := CreateAttempt(d.name, d.description, GetRandomColor(index), created);
        AppendAttempt(attempts, attempt);
        AppendColor(attempts, attempt);
        attempts := attempts + [attempt];
        if !created {
          warnings := warnings + [LabelCreationFailed(d.name)];
        }
      }
    }
    assert required[..|required|] == required;
    PaletteColorsHex(attempts);
  }
}
