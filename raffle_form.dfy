/**
 * The raffle form shared by the create page (`CrearRifaForm`) and the edit
 * page (`EditarRifaForm`): its six fields, `handleChange` and the six-rule
 * `validateForm`.
 */
module RaffleForm {
  import opened JsValues

  /** `formData`: title, description, image URL, price per number, capacity, draw date. */
  datatype FormData = FormData(title: string, description: string, image: string,
                               price: int, total: int, drawDate: string)

  /** The form's field names, which are also the keys of the error dictionary. */
  datatype Field = Title | Description | Image | Price | Total | DrawDate

  /** What a field holds: the text as typed, or the number it was converted to. */
  datatype FieldValue = TextValue(text: string) | NumberValue(number: int)

  const TitleRequired := "El título es obligatorio"
  const DescriptionRequired := "La descripción es obligatoria"
  const ImageRequired := "La URL de la imagen es obligatoria"
  const PricePositive := "El precio debe ser mayor a 0"
  const TotalPositive := "El total de números debe ser mayor a 0"
  const DrawDateRequired := "La fecha del sorteo es obligatoria"

  predicate IsNumeric(field: Field)
  {
    field == Price || field == Total
  }

  function Get(f: FormData, field: Field): FieldValue
  {
    match field
    case Title => TextValue(f.title)
    case Description => TextValue(f.description)
    case Image => TextValue(f.image)
    case Price => NumberValue(f.price)
    case Total => NumberValue(f.total)
    case DrawDate => TextValue(f.drawDate)
  }

  /** What an input event stores: `Number(value)` for price and capacity, the text itself otherwise. */
  function Entered(field: Field, value: string): FieldValue
    requires IsNumeric(field) ==> IsIntegerText(value)
  {
    if IsNumeric(field) then NumberValue(ToNumber(value)) else TextValue(value)
  }

  /** `handleChange`: `{ ...formData, [name]: ... }`. */
  function Change(f: FormData, field: Field, value: string): (r: FormData)
    requires IsNumeric(field) ==> IsIntegerText(value)
    ensures Get(r, field) == Entered(field, value)
    ensures forall g :: g != field ==> Get(r, g) == Get(f, g)
  {
    match field
    case Title => f.(title := value)
    case Description => f.(description := value)
    case Image => f.(image := value)
    case Price => f.(price := ToNumber(value))
    case Total => f.(total := ToNumber(value))
    case DrawDate => f.(drawDate := value)
  }

  /** A number typed into the price or capacity field is stored as that number. */
  lemma ChangeStoresTypedNumber(f: FormData, field: Field, n: int)
    requires IsNumeric(field)
    ensures IsIntegerText(ShowInt(n))
    ensures Get(Change(f, field, ShowInt(n)), field) == NumberValue(n)
  {
    ToNumberShowInt(n);
  }

  /** The six rules: four non-empty texts and a positive price and capacity. */
  predicate FormValid(f: FormData)
  {
    f.title != "" && f.description != "" && f.image != ""
    && f.price > 0 && f.total > 0 && f.drawDate != ""
  }

  /** Each failing rule, and only a failing rule, has its own key and message in `errors`. */
  ghost predicate Reports(errors: map<Field, string>, f: FormData)
  {
    && (Title in errors <==> f.title == "") && (Title in errors ==> errors[Title] == TitleRequired)
    && (Description in errors <==> f.description == "") && (Description in errors ==> errors[Description] == DescriptionRequired)
    && (Image in errors <==> f.image == "") && (Image in errors ==> errors[Image] == ImageRequired)
    && (Price in errors <==> f.price <= 0) && (Price in errors ==> errors[Price] == PricePositive)
    && (Total in errors <==> f.total <= 0) && (Total in errors ==> errors[Total] == TotalPositive)
    && (DrawDate in errors <==> f.drawDate == "") && (DrawDate in errors ==> errors[DrawDate] == DrawDateRequired)
  }

  /** `Object.keys(newErrors).length === 0` is exactly the six rules holding. */
  lemma ReportsNothingIffValid(errors: map<Field, string>, f: FormData)
    requires Reports(errors, f)
    ensures errors == map[] <==> FormValid(f)
  {
    if !FormValid(f) {
      assert exists g :: g in errors;
    } else {
      forall g ensures g !in errors {
        match g
        case Title =>
        case Description =>
        case Image =>
        case Price =>
        case Total =>
        case DrawDate =>
      }
    }
  }

  /** `validateForm`: fills the error dictionary rule by rule, and succeeds when it stays empty. */
  method Validate(f: FormData) returns (ok: bool, errors: map<Field, string>)
    ensures Reports(errors, f)
    ensures ok <==> errors == map[]
    ensures ok <==> FormValid(f)
  {
    errors := map[];
    if f.title == "" {
      errors := errors[Title := TitleRequired];
    }
    if f.description == "" {
      errors := errors[Description := DescriptionRequired];
    }
    if f.image == "" {
      errors := errors[Image := ImageRequired];
    }
    if f.price <= 0 {
      errors := errors[Price := PricePositive];
    }
    if f.total <= 0 {
      errors := errors[Total := TotalPositive];
    }
    if f.drawDate == "" {
      errors := errors[DrawDate := DrawDateRequired];
    }
    ok := |errors| == 0;
    ReportsNothingIffValid(errors, f);
  }
}
