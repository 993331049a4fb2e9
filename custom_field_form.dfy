/** The custom-field form: editing the option list of a select field, the
    check run before saving, and the record handed to the repository. */
module CustomFieldForm {
  import opened Types
  import opened Seqs
  import opened Text
  import opened Records
  import opened LocalStorage

  // ---- the option list ----

  /** The option list being edited, and the text in the "new option" box. */
  datatype OptionEditor = OptionEditor(options: seq<string>, pending: string)

  /** The editor's starting state: the field's options, if it has any. */
  function OpenEditor(field: Option<CustomField>): OptionEditor {
    OptionEditor(if field.Some? then field.value.options.GetOr([]) else [], "")
  }

  /** `addOption`: a pending text that is not blank is appended trimmed and
      the box is cleared; a blank one changes nothing. */
  function AddOption(ed: OptionEditor): (r: OptionEditor)
    ensures Trim(ed.pending) != [] ==> r.options == ed.options + [Trim(ed.pending)] && r.pending == ""
    ensures Trim(ed.pending) == [] ==> r == ed
  {
    var text := Trim(ed.pending);
    if text != [] then OptionEditor(ed.options + [text], "") else ed
  }

  /** `removeOption(index)`: `splice(index, 1)` on a copy of the list. */
  function RemoveOption(ed: OptionEditor, index: nat): (r: OptionEditor)
    ensures r.pending == ed.pending
    ensures index < |ed.options| ==> |r.options| == |ed.options| - 1 && Subsequence(r.options, ed.options)
    ensures index < |ed.options| ==> multiset(r.options) + multiset{ed.options[index]} == multiset(ed.options)
    ensures index < |ed.options| ==> r.options == ed.options[..index] + ed.options[index + 1..]
    ensures index >= |ed.options| ==> r == ed
  {
    if index < |ed.options| then
      RemoveAtSubsequence(ed.options, index);
      RemoveAtMultiset(ed.options, index);
      ed.(options := RemoveAt(ed.options, index))
    else
      ed
  }

  /** Every option is non-empty and has no surrounding white space. */
  ghost predicate CleanOptions(options: seq<string>) {
    forall i :: 0 <= i < |options| ==> options[i] != [] && IsTrimmed(options[i])
  }

  /** Options entered through the box are always clean, and removing one
      keeps the rest clean: a list that starts clean stays clean. */
  lemma EditingKeepsOptionsClean(ed: OptionEditor, index: nat)
    requires CleanOptions(ed.options)
    ensures CleanOptions(AddOption(ed).options)
    ensures CleanOptions(RemoveOption(ed, index).options)
  {
    var r := RemoveOption(ed, index).options;
    forall i | 0 <= i < |r| ensures r[i] != [] && IsTrimmed(r[i]) {
      if index < |ed.options| {
        assert r[i] in multiset(r);
        assert r[i] in multiset(ed.options);
      }
    }
  }

  /** The box is cleared exactly when an option was added. */
  lemma PendingClearedIffAdded(ed: OptionEditor)
    ensures |AddOption(ed).options| == |ed.options| + 1 <==> Trim(ed.pending) != []
    ensures Trim(ed.pending) != [] ==> AddOption(ed).pending == ""
    ensures Trim(ed.pending) == [] ==> AddOption(ed).pending == ed.pending
  {
  }

  // ---- validation and the saved record ----

  /** The form's values apart from the options. */
  datatype FieldDraft = FieldDraft(
    id: string,
    name: string,
    fieldType: FieldType,
    entityType: EntityType,
    required: bool,
    description: Option<string>,
    createdAt: string)

  /** The form's starting values: those of the edited field, or blanks for a
      new text field on clients. */
  function DraftOf(field: Option<CustomField>): FieldDraft {
    match field
    case Some(f) => FieldDraft(f.id, f.name, f.fieldType, f.entityType, f.required, f.description, f.createdAt)
    case None => FieldDraft("", "", FieldType.Text, ClientEntity, false, Some(""), "")
  }

  /** The only check: a select field needs at least one option. */
  predicate FieldAccepted(data: FieldDraft, options: seq<string>) {
    !(data.fieldType == Select && |options| == 0)
  }

  /** The record `handleSubmit` saves. Only a select field keeps the option
      list; an edit keeps the original field's `createdAt`, a new field gets
      a fresh id and `createdAt` from the clock. */
  function FieldRecord(original: Option<CustomField>, data: FieldDraft, options: seq<string>,
                       now: string, newId: string): (r: CustomField)
    ensures r.options.Some? <==> data.fieldType == Select
    ensures r.options.Some? ==> r.options.value == options
    ensures r.name == data.name && r.fieldType == data.fieldType && r.entityType == data.entityType
    ensures r.required == data.required && r.description == data.description
    ensures original.Some? ==> r.id == data.id && r.createdAt == original.value.createdAt
    ensures original.None? ==> r.id == newId && r.createdAt == now
  {
    var kept := if data.fieldType == Select then Some(options) else None;
    match original
    case Some(f) => CustomField(data.id, data.name, data.fieldType, data.entityType, data.required, kept,
                                data.description, f.createdAt)
    case None => CustomField(newId, data.name, data.fieldType, data.entityType, data.required, kept,
                             data.description, now)
  }

  /** An accepted select field is saved with at least one option. */
  lemma SavedSelectHasOptions(original: Option<CustomField>, data: FieldDraft, options: seq<string>,
                              now: string, newId: string)
    requires FieldAccepted(data, options)
    requires data.fieldType == Select
    ensures FieldRecord(original, data, options, now, newId).options.Some?
    ensures |FieldRecord(original, data, options, now, newId).options.value| >= 1
  {
  }

  /** Opening a field and saving it unchanged gives the same field back,
      provided its options were present exactly when it is a select field. */
  lemma UnchangedEditRoundTrip(f: CustomField, now: string, newId: string)
    requires f.options.Some? <==> f.fieldType == Select
    ensures FieldRecord(Some(f), DraftOf(Some(f)), OpenEditor(Some(f)).options, now, newId) == f
  {
  }

  /** How a submission ended. */
  datatype SubmitOutcome = Rejected | Saved(success: bool)

  /** `handleSubmit`. */
  method SubmitField(svc: LocalStorageService, original: Option<CustomField>, data: FieldDraft,
                     options: seq<string>, now: string, newId: string) returns (outcome: SubmitOutcome)
    requires svc.Valid()
    modifies svc
    ensures !FieldAccepted(data, options) ==> outcome == Rejected && svc.store == old(svc.store)
    ensures FieldAccepted(data, options) && original.Some? ==>
              var xs := old(svc.GetCustomFields());
              var found := exists i :: 0 <= i < |xs| && xs[i].id == data.id;
              && outcome == Saved(found)
              && (found ==> svc.GetCustomFields() ==
                              xs[FindIndex(xs, CustomFieldIdOf, data.id) := FieldRecord(original, data, options, now, newId)])
              && (!found ==> svc.store == old(svc.store))
    ensures FieldAccepted(data, options) && original.None? ==>
              outcome == Saved(true) &&
              svc.GetCustomFields() == old(svc.GetCustomFields()) + [FieldRecord(original, data, options, now, newId)]
    ensures svc.GetUser() == old(svc.GetUser()) && svc.GetClients() == old(svc.GetClients())
    ensures svc.GetOrders() == old(svc.GetOrders())
  {
    if data.fieldType == Select && |options| == 0 {
      return Rejected;
    }
    var record := FieldRecord(original, data, options, now, newId);
    if original.Some? {
      var success := svc.UpdateCustomField(record);
      outcome := Saved(success);
    } else {
      svc.AddCustomField(record);
      outcome := Saved(true);
    }
  }
}
