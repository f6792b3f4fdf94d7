/** The warnings the action reports through `core.warning`, in the order it
    reports them. The text around each warning is not modelled; each entry
    records what the warning is about. */
module ActionsCore {
  import opened Json

  datatype Warning =
    | CustomLabelsNotArray              // custom-labels is valid JSON but not an array
    | InvalidCustomLabel(item: Json)    // one rejected custom-label element
    | CustomLabelsUnparseable           // JSON.parse (or the filter) threw
    | LabelCreationFailed(name: string) // createLabel failed for this label
    | EnsureLabelsFailed(error: string)  // listing the repository's labels failed
    | LabelsUnavailable(labels: seq<string>) // suggestions that are not in the catalog
}
