/** The entry form: the draft it holds, how a change event rewrites one field of the draft,
    and how a submission hands the draft over and clears the form for the next entry. */
module EntryForm {
  import opened Wrappers
  import opened Types
  import opened JsText

  /** The eight named inputs of the form, one per draft field. */
  datatype FormField = Date | Name | ItemDescription | CustomerRequest | Quantity | Price | Discount | Status

  /** The `name` attribute of each input; a change event names its field by this text. */
  function FieldName(f: FormField): (n: string)
    ensures n != ""
  {
    match f
    case Date => "date"
    case Name => "name"
    case ItemDescription => "itemDescription"
    case CustomerRequest => "customerRequest"
    case Quantity => "quantity"
    case Price => "price"
    case Discount => "discount"
    case Status => "status"
  }

  /** The three inputs whose value is converted with `Number` before it is stored. */
  predicate IsNumeric(f: FormField)
  {
    FieldName(f) == "quantity" || FieldName(f) == "price" || FieldName(f) == "discount"
  }

  /** A field's value as the draft holds it. */
  datatype FieldValue = Text(text: string) | Num(num: int) | St(status: ReceiptStatus)

  /** Reads one field of a draft. */
  function Get(d: EntryDraft, f: FormField): FieldValue
  {
    match f
    case Date => Text(d.date)
    case Name => Text(d.name)
    case ItemDescription => Text(d.itemDescription)
    case CustomerRequest => Text(d.customerRequest)
    case Quantity => Num(d.quantity)
    case Price => Num(d.price)
    case Discount => Num(d.discount)
    case Status => St(d.status)
  }

  /** The text an input shows for a stored value; numbers are written with `String`. */
  function Display(v: FieldValue): string
  {
    match v
    case Text(t) => t
    case Num(n) => NumberToString(Some(n))
    case St(s) => StatusName(s)
  }

  /** The values the model accepts from an input: empty or signed-digit text for the number
      inputs, one of the three offered options for the status select, any text otherwise. */
  predicate Accepts(f: FormField, value: string)
  {
    if IsNumeric(f) then IsIntegerNumeral(value)
    else if f == Status then ParseStatus(value).Some?
    else true
  }

  /** The value the change handler stores: `Number(value)` for the number inputs, the value
      itself otherwise. */
  function Coerce(f: FormField, value: string): FieldValue
    requires Accepts(f, value)
  {
    if IsNumeric(f) then Num(ToNumber(value))
    else if f == Status then St(ParseStatus(value).value)
    else Text(value)
  }

  /** The draft after a change event on field `f` carrying `value`. */
  function WithField(d: EntryDraft, f: FormField, value: string): (r: EntryDraft)
    requires Accepts(f, value)
    ensures Get(r, f) == Coerce(f, value)
    ensures forall g :: g != f ==> Get(r, g) == Get(d, g)
  {
    match f
    case Date => d.(date := value)
    case Name => d.(name := value)
    case ItemDescription => d.(itemDescription := value)
    case CustomerRequest => d.(customerRequest := value)
    case Quantity => d.(quantity := ToNumber(value))
    case Price => d.(price := ToNumber(value))
    case Discount => d.(discount := ToNumber(value))
    case Status => d.(status := ParseStatus(value).value)
  }

  /** The form as first shown: today's date, empty text, quantity 1, price and discount 0,
      status Pending. */
  function InitialForm(today: string): EntryDraft
  {
    EntryDraft(today, "", "", "", 1, 0, 0, Pending)
  }

  /** The submit guard: both the customer name and the item description are non-empty. */
  predicate CanSubmit(d: EntryDraft)
  {
    d.name != "" && d.itemDescription != ""
  }

  /** The form after a successful submission: the text and numeric fields are reset, the
      date and the status are kept. */
  function ClearedAfterSubmit(d: EntryDraft): EntryDraft
  {
    d.(name := "", itemDescription := "", customerRequest := "", quantity := 1, price := 0, discount := 0)
  }

  // ---- properties of the form ----

  /** Each field has its own input name, so a change event reaches exactly one field. */
  lemma FieldNamesDistinct(f: FormField, g: FormField)
    ensures FieldName(f) == FieldName(g) <==> f == g
  {
  }

  /** Exactly quantity, price and discount are the numeric inputs. */
  lemma NumericFields(f: FormField)
    ensures IsNumeric(f) <==> f == Quantity || f == Price || f == Discount
  {
  }

  /** The form as first shown cannot be submitted. */
  lemma InitialFormCannotSubmit(today: string)
    ensures !CanSubmit(InitialForm(today))
  {
  }

  /** Clearing after a submission gives the initial form for the kept date, with the kept
      status; in particular a second submission straight after is rejected. */
  lemma ClearedIsInitialWithStatus(d: EntryDraft)
    ensures ClearedAfterSubmit(d) == InitialForm(d.date).(status := d.status)
    ensures !CanSubmit(ClearedAfterSubmit(d))
  {
  }

  /** Typing back the text an input already shows leaves the draft unchanged. */
  lemma WithDisplayedValueIsNoOp(d: EntryDraft, f: FormField)
    ensures Accepts(f, Display(Get(d, f)))
    ensures WithField(d, f, Display(Get(d, f))) == d
  {
    match f
    case Quantity => ToNumberOfNumberToString(d.quantity);
    case Price => ToNumberOfNumberToString(d.price);
    case Discount => ToNumberOfNumberToString(d.discount);
    case Status => StatusIsClosed(d.status);
    case _ =>
  }

  /** Change events on two different fields can arrive in either order. */
  lemma ChangesOnDistinctFieldsCommute(d: EntryDraft, f: FormField, u: string, g: FormField, v: string)
    requires f != g && Accepts(f, u) && Accepts(g, v)
    ensures WithField(WithField(d, f, u), g, v) == WithField(WithField(d, g, v), f, u)
  {
  }

  /** Only the name and the item description decide whether the submit handler's guard
      passes: changing any other field keeps the verdict. */
  lemma OtherFieldsDoNotGateSubmit(d: EntryDraft, f: FormField, value: string)
    requires f != Name && f != ItemDescription && Accepts(f, value)
    ensures CanSubmit(WithField(d, f, value)) <==> CanSubmit(d)
  {
  }

  /** The form component's state: the draft shown in the inputs. */
  class ReceiptForm {
    var formData: EntryDraft

    /** Mounts the form on day `today`. */
    constructor(today: string)
      ensures formData == InitialForm(today)
    {
      formData := InitialForm(today);
    }

    /** The submit handler: a draft missing its name or item description is rejected and
        the form is left as it was; otherwise the draft is handed on and the form cleared. */
    method HandleSubmit() returns (submitted: Option<EntryDraft>)
      modifies this
      ensures CanSubmit(old(formData)) ==> submitted == Some(old(formData))
      ensures !CanSubmit(old(formData)) ==> submitted == None
      ensures formData == if submitted.Some? then ClearedAfterSubmit(old(formData)) else old(formData)
      ensures !CanSubmit(formData) || submitted == None
    {
      if formData.name == "" || formData.itemDescription == "" {
        return None;
      }
      submitted := Some(formData);
      formData := ClearedAfterSubmit(formData);
      ClearedIsInitialWithStatus(old(formData));
    }

    /** The change handler: stores the event's value, converted for numeric inputs, in the
        named field and keeps every other field. */
    method HandleChange(field: FormField, value: string)
      requires Accepts(field, value)
      modifies this
      ensures formData == WithField(old(formData), field, value)
      ensures Get(formData, field) == Coerce(field, value)
      ensures forall g :: g != field ==> Get(formData, g) == Get(old(formData), g)
    {
      formData := WithField(formData, field, value);
    }
  }
}
