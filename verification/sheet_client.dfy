/** The spreadsheet publisher (`addToSheet`): it turns the record set into
    form fields, posts them to the sheet's web app and interprets the reply.
    The POST itself is not modelled; its reply is an input. */
module SheetClient {
  import opened JsValues

  /** The three sections of a structured record, in their fixed order. */
  datatype SectionName = Metadata | MixingStep | PhAdjustment

  /** The position of a section: in the extracted array, and in the form. */
  function Rank(n: SectionName): nat {
    match n
    case Metadata => 0
    case MixingStep => 1
    case PhAdjustment => 2
  }

  /** The property name, which is also the form-field name. */
  function FieldName(n: SectionName): string {
    match n
    case Metadata => "metadata"
    case MixingStep => "mixingStep"
    case PhAdjustment => "phAdjustment"
  }

  const TimestampField := "timestamp"

  /** The object handed to `addToSheet`. Its `timestamp`, when the caller
      sets one, is never read. */
  datatype Payload = Payload(metadata: JsValue, mixingStep: JsValue, phAdjustment: JsValue, timestamp: JsValue) {
    function Get(n: SectionName): JsValue {
      match n
      case Metadata => metadata
      case MixingStep => mixingStep
      case PhAdjustment => phAdjustment
    }
  }

  /** A form-field value: `JSON.stringify(v)` of a section, or plain text. */
  datatype FieldValue = JsonOf(v: JsValue) | Text(s: string)

  datatype FormField = FormField(name: string, value: FieldValue)

  function SectionField(n: SectionName, data: Payload): FormField {
    FormField(FieldName(n), JsonOf(data.Get(n)))
  }

  /** `f` is the field of some section that the payload holds a truthy value for. */
  predicate IsTruthySectionField(f: FormField, data: Payload) {
    || (f == SectionField(Metadata, data) && Truthy(data.metadata))
    || (f == SectionField(MixingStep, data) && Truthy(data.mixingStep))
    || (f == SectionField(PhAdjustment, data) && Truthy(data.phAdjustment))
  }

  function SectionRank(f: FormField): nat {
    if f.name == FieldName(Metadata) then 0
    else if f.name == FieldName(MixingStep) then 1
    else 2
  }

  /** The fields `addToSheet` puts in its form, in order; `now` is
      `new Date().toISOString()` at the time of the call. */
  function FormFields(data: Payload, now: string): (form: seq<FormField>)
    ensures |form| >= 1 && form[|form| - 1] == FormField(TimestampField, Text(now))
    ensures forall i :: 0 <= i < |form| - 1 ==> IsTruthySectionField(form[i], data)
    ensures forall n :: Truthy(data.Get(n)) <==> SectionField(n, data) in form
    ensures forall i, j :: 0 <= i < j < |form| - 1 ==> SectionRank(form[i]) < SectionRank(form[j])
  {
    (if Truthy(data.metadata) then [SectionField(Metadata, data)] else [])
    + (if Truthy(data.mixingStep) then [SectionField(MixingStep, data)] else [])
    + (if Truthy(data.phAdjustment) then [SectionField(PhAdjustment, data)] else [])
    + [FormField(TimestampField, Text(now))]
  }

  function FieldNames(form: seq<FormField>): seq<string> {
    seq(|form|, i requires 0 <= i < |form| => form[i].name)
  }

  /** How the POST ended: `fetch` itself rejected, or the web app replied.
      `parsed` is what `JSON.parse(body)` gave, `None` when it threw. */
  datatype Reply =
    | FetchFailed(message: string)
    | Replied(ok: bool, status: nat, body: string, parsed: Option<JsValue>)

  const StatusErrorPrefix := "Failed to add data to sheet: "

  /** The object `addToSheet` resolves with when the body is not JSON. */
  function TextResult(body: string): JsValue {
    Obj(map["status" := Str("success"), "message" := Str(body)])
  }

  /** What `addToSheet` resolves with, or the message of the error it
      rethrows. */
  function Interpret(reply: Reply): (r: Result<JsValue>)
    ensures r.Failure? <==> reply.FetchFailed? || !reply.ok
    ensures reply.FetchFailed? ==> r.error == reply.message
    ensures reply.Replied? && !reply.ok ==> r.error == StatusErrorPrefix + NatToString(reply.status)
    ensures reply.Replied? && reply.ok && reply.parsed.Some? ==> r.value == reply.parsed.value
    ensures reply.Replied? && reply.ok && reply.parsed.None? ==>
              r.value == TextResult(reply.body)
  {
    match reply
    case FetchFailed(message) => Failure(message)
    case Replied(ok, status, body, parsed) =>
      if !ok then Failure(StatusErrorPrefix + NatToString(status))
      else
        match parsed
        case Some(v) => Success(v)
        case None => Success(TextResult(body))
  }

  /** `addToSheet(data)`: builds the form by successive appends, posts it and
      settles with the interpreted reply. */
  method AddToSheet(data: Payload, now: string, reply: Reply) returns (form: seq<FormField>, result: Result<JsValue>)
    ensures form == FormFields(data, now)
    ensures result == Interpret(reply)
  {
    form := [];
    if Truthy(data.metadata) {
      form := form + [FormField(FieldName(Metadata), JsonOf(data.metadata))];
    }
    if Truthy(data.mixingStep) {
      form := form + [FormField(FieldName(MixingStep), JsonOf(data.mixingStep))];
    }
    if Truthy(data.phAdjustment) {
      form := form + [FormField(FieldName(PhAdjustment), JsonOf(data.phAdjustment))];
    }
    form := form + [FormField(TimestampField, Text(now))];

    match reply {
      case FetchFailed(message) =>
        result := Failure(message);
      case Replied(ok, status, body, parsed) =>
        if !ok {
          result := Failure(StatusErrorPrefix + NatToString(status));
        } else if parsed.Some? {
          result := Success(parsed.value);
        } else {
          result := Success(TextResult(body));
        }
    }
  }

  /** The timestamp field carries the clock at send time whatever timestamp
      the caller put in the payload. */
  lemma TimestampIsSendTime(data: Payload, stamp: JsValue, now: string)
    ensures FormFields(data.(timestamp := stamp), now) == FormFields(data, now)
  {
  }
}
