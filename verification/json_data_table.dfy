/** The editable table of extracted data (`JsonDataTable`): the array from
    structured extraction is loaded positionally into three sections, one
    field at a time can be edited in place, and the sections are published
    to the sheet with absent ones sent as `{}`. */
module JsonDataTable {
  import opened JsValues
  import opened SheetClient

  /** `parsedData`: one value per section, `null` when absent. */
  datatype Sections = Sections(metadata: JsValue, mixingStep: JsValue, phAdjustment: JsValue) {
    function Get(n: SectionName): JsValue {
      match n
      case Metadata => metadata
      case MixingStep => mixingStep
      case PhAdjustment => phAdjustment
    }

    function With(n: SectionName, v: JsValue): (r: Sections)
      ensures r.Get(n) == v
      ensures forall m :: m != n ==> r.Get(m) == Get(m)
    {
      match n
      case Metadata => this.(metadata := v)
      case MixingStep => this.(mixingStep := v)
      case PhAdjustment => this.(phAdjustment := v)
    }
  }

  const NoSections := Sections(Null, Null, Null)

  /** The load effect runs only for a non-empty array. */
  predicate IsNonEmptyArray(data: JsValue) {
    data.Arr? && |data.items| > 0
  }

  /** `parsedData` after the load effect has seen `data`. */
  function Loaded(prev: Sections, data: JsValue): (r: Sections)
    ensures !IsNonEmptyArray(data) ==> r == prev
    ensures IsNonEmptyArray(data) ==> forall n ::
              r.Get(n) == if Truthy(At(data.items, Rank(n))) then At(data.items, Rank(n)) else Null
  {
    if !IsNonEmptyArray(data) then prev
    else Sections(Or(At(data.items, 0), Null), Or(At(data.items, 1), Null), Or(At(data.items, 2), Null))
  }

  /** `parsedData` after saving `value` under `key` of `section`: the section
      becomes an object holding its old properties with that one replaced. */
  function Saved(prev: Sections, section: SectionName, key: string, value: JsValue): (r: Sections)
    ensures r.Get(section).Obj?
    ensures key in r.Get(section).fields && r.Get(section).fields[key] == value
    ensures forall k :: k != key ==>
              && (k in r.Get(section).fields <==> k in Spread(prev.Get(section)))
              && (k in r.Get(section).fields ==> r.Get(section).fields[k] == Spread(prev.Get(section))[k])
    ensures forall n :: n != section ==> r.Get(n) == prev.Get(n)
  {
    prev.With(section, Obj(Spread(prev.Get(section))[key := value]))
  }

  /** The "no data" screen is shown when every section is falsy. */
  predicate ShowsEmptyState(s: Sections) {
    !Truthy(s.metadata) && !Truthy(s.mixingStep) && !Truthy(s.phAdjustment)
  }

  /** The object `handleAddToSheet` passes to `addToSheet`. */
  function Formatted(s: Sections, timestamp: string): (r: Payload)
    ensures forall n :: Truthy(r.Get(n))
    ensures forall n :: Truthy(s.Get(n)) ==> r.Get(n) == s.Get(n)
    ensures forall n :: !Truthy(s.Get(n)) ==> r.Get(n) == EmptyObject
    ensures r.timestamp == Str(timestamp)
  {
    Payload(Or(s.metadata, EmptyObject), Or(s.mixingStep, EmptyObject), Or(s.phAdjustment, EmptyObject), Str(timestamp))
  }

  /** After a load of a non-empty array the "no data" screen shows exactly
      when none of the first three elements is truthy; any other load leaves
      the screen as it was. */
  lemma EmptyStateAfterLoad(prev: Sections, data: JsValue)
    ensures IsNonEmptyArray(data) ==>
              (ShowsEmptyState(Loaded(prev, data)) <==>
                 (!Truthy(At(data.items, 0)) && !Truthy(At(data.items, 1)) && !Truthy(At(data.items, 2))))
    ensures !IsNonEmptyArray(data) ==> ShowsEmptyState(Loaded(prev, data)) == ShowsEmptyState(prev)
  {
  }

  /** Loading an array and publishing without edits sends back each truthy
      element among the first three verbatim, and `{}` for the others. */
  lemma LoadThenFormat(prev: Sections, data: JsValue, timestamp: string, n: SectionName)
    requires IsNonEmptyArray(data)
    ensures Formatted(Loaded(prev, data), timestamp).Get(n)
              == if Truthy(At(data.items, Rank(n))) then At(data.items, Rank(n)) else EmptyObject
  {
  }

  /** The table always sends all three section fields, because it replaces
      an absent section by `{}`, which is truthy, before publishing. */
  lemma TableSendsEverySection(s: Sections, timestamp: string, now: string)
    ensures FieldNames(FormFields(Formatted(s, timestamp), now))
              == ["metadata", "mixingStep", "phAdjustment", "timestamp"]
  {
  }

  /** A successful save leaves something to show: the edited section is an
      object, so the table is never empty afterwards. */
  lemma SaveShowsTable(prev: Sections, section: SectionName, key: string, value: JsValue)
    ensures !ShowsEmptyState(Saved(prev, section, key, value))
  {
  }

  /** Saving the same field again with the same value changes nothing more. */
  lemma SaveIdempotent(prev: Sections, section: SectionName, key: string, value: JsValue)
    ensures Saved(Saved(prev, section, key, value), section, key, value) == Saved(prev, section, key, value)
  {
  }

  /** What the toast says once publishing has settled. */
  datatype Toast = SuccessToast(text: string) | ErrorToast(text: string)

  const ToastErrorPrefix := "Failed to add data to sheet: "
  const SuccessText := "Data successfully added to sheet!"

  function ToastFor(result: Result<JsValue>): (t: Toast)
    ensures t.SuccessToast? <==> result.Success?
    ensures result.Success? ==> t.text == SuccessText
    ensures result.Failure? ==> t.text == ToastErrorPrefix + result.error
  {
    match result
    case Success(_) => SuccessToast(SuccessText)
    case Failure(message) => ErrorToast(ToastErrorPrefix + message)
  }

  /** A non-ok reply reaches the user with the failure prefix twice: the
      client's message already starts with it, and the table adds it again. */
  lemma NonOkToastDoublePrefix(status: nat, body: string, parsed: Option<JsValue>)
    ensures ToastFor(Interpret(Replied(false, status, body, parsed)))
         == ErrorToast(ToastErrorPrefix + StatusErrorPrefix + NatToString(status))
    ensures ToastErrorPrefix == StatusErrorPrefix
  {
  }

  /** The table component's state. */
  class Table {
    var parsed: Sections
    var editingSection: Option<SectionName>
    var editingKey: Option<string>
    var editValue: JsValue
    var isAddingToSheet: bool

    constructor ()
      ensures parsed == NoSections
      ensures editingSection == None && editingKey == None && editValue == Str("")
      ensures !isAddingToSheet
    {
      parsed := NoSections;
      editingSection := None;
      editingKey := None;
      editValue := Str("");
      isAddingToSheet := false;
    }

    /** The row (section, key) shows its input box. */
    predicate IsEditing(section: SectionName, key: string)
      reads this
    {
      editingSection == Some(section) && editingKey == Some(key)
    }

    /** `if (!editingSection || !editingKey) return;` lets a save through
        only with a section and a non-empty key. */
    predicate CanSave()
      reads this
    {
      editingSection.Some? && editingKey.Some? && editingKey.value != ""
    }

    /** The effect that runs when the `data` prop changes. */
    method Load(data: JsValue)
      modifies this
      ensures parsed == Loaded(old(parsed), data)
      ensures editingSection == old(editingSection) && editingKey == old(editingKey)
      ensures editValue == old(editValue) && isAddingToSheet == old(isAddingToSheet)
    {
      if !data.Arr? || |data.items| == 0 {
        return;
      }
      parsed := Sections(Or(At(data.items, 0), Null), Or(At(data.items, 1), Null), Or(At(data.items, 2), Null));
    }

    /** `handleEdit.start`: the edit cursor moves to this one row, which
        becomes the only row in edit mode, and its value is copied into the
        input. */
    method Start(section: SectionName, key: string, value: JsValue)
      modifies this
      ensures parsed == old(parsed) && isAddingToSheet == old(isAddingToSheet)
      ensures editingSection == Some(section) && editingKey == Some(key) && editValue == value
      ensures forall s, k :: IsEditing(s, k) <==> s == section && k == key
    {
      editingSection := Some(section);
      editingKey := Some(key);
      editValue := value;
    }

    /** The input's `onChange`: the pending value becomes the typed text. */
    method SetEditValue(text: string)
      modifies this
      ensures editValue == Str(text)
      ensures parsed == old(parsed) && editingSection == old(editingSection) && editingKey == old(editingKey)
      ensures isAddingToSheet == old(isAddingToSheet)
    {
      editValue := Str(text);
    }

    /** `handleEdit.save`: writes the pending value into the one field under
        the cursor and clears the cursor; without a section or a non-empty
        key it does nothing at all. */
    method Save()
      modifies this
      ensures !old(CanSave()) ==>
                && parsed == old(parsed)
                && editingSection == old(editingSection) && editingKey == old(editingKey)
                && editValue == old(editValue)
      ensures old(CanSave()) ==>
                && parsed == Saved(old(parsed), old(editingSection).value, old(editingKey).value, old(editValue))
                && editingSection == None && editingKey == None && editValue == Str("")
      ensures isAddingToSheet == old(isAddingToSheet)
    {
      if editingSection.None? || editingKey.None? || editingKey.value == "" {
        return;
      }
      var section := editingSection.value;
      var fields := Spread(parsed.Get(section));
      fields := fields[editingKey.value := editValue];
      parsed := parsed.With(section, Obj(fields));
      editingSection := None;
      editingKey := None;
      editValue := Str("");
    }

    /** `handleEdit.cancel`: drops the pending value; the data is untouched. */
    method Cancel()
      modifies this
      ensures parsed == old(parsed) && isAddingToSheet == old(isAddingToSheet)
      ensures editingSection == None && editingKey == None && editValue == Str("")
    {
      editingSection := None;
      editingKey := None;
      editValue := Str("");
    }

    /** `handleAddToSheet`: publishes the formatted sections, so `form` is
        what is posted; whatever the reply, the data and the edit cursor
        stay as they were. */
    method AddToSheet(timestamp: string, now: string, reply: Reply) returns (form: seq<FormField>, toast: Toast)
      modifies this
      ensures form == FormFields(Formatted(old(parsed), timestamp), now)
      ensures toast == ToastFor(Interpret(reply))
      ensures parsed == old(parsed) && editingSection == old(editingSection)
      ensures editingKey == old(editingKey) && editValue == old(editValue)
      ensures !isAddingToSheet
    {
      isAddingToSheet := true;
      var result;
      form, result := SheetClient.AddToSheet(Formatted(parsed, timestamp), now, reply);
      match result {
        case Success(_) =>
          toast := SuccessToast(SuccessText);
        case Failure(message) =>
          toast := ErrorToast(ToastErrorPrefix + message);
      }
      isAddingToSheet := false;
    }
  }
}
