/**
 * The shopping cart (`CarritoCompra`): the totals over the cart's items, the
 * contact form with its three checks, and the two-step review/checkout
 * machine.
 */
module Cart {
  import opened JsValues

  /** One cart line: the numbers chosen in a raffle and that raffle's price per number. */
  datatype CartItem = CartItem(raffleId: int, raffleTitle: string, numbers: seq<int>, price: int)

  /** `formData`: name, phone and e-mail, kept as typed. */
  datatype Contact = Contact(name: string, phone: string, email: string)

  datatype ContactField = NameField | PhoneField | EmailField

  const NameRequired := "El nombre es obligatorio"
  const PhoneRequired := "El teléfono es obligatorio"
  const PhoneFormat := "El teléfono debe tener 10 dígitos"
  const EmailRequired := "El correo es obligatorio"
  const EmailFormat := "El correo no es válido"

  /** `totalItems`: `reduce` adding each item's count of numbers. */
  function TotalItems(items: seq<CartItem>): nat
  {
    if items == [] then 0 else TotalItems(items[..|items| - 1]) + |items[|items| - 1].numbers|
  }

  /** `totalPrecio`: `reduce` adding each item's price times its count of numbers. */
  function TotalPrice(items: seq<CartItem>): int
  {
    if items == [] then 0
    else TotalPrice(items[..|items| - 1]) + items[|items| - 1].price * |items[|items| - 1].numbers|
  }

  /** Both totals add up over a cart split in two. */
  lemma {:induction false} TotalsConcat(a: seq<CartItem>, b: seq<CartItem>)
    ensures TotalItems(a + b) == TotalItems(a) + TotalItems(b)
    ensures TotalPrice(a + b) == TotalPrice(a) + TotalPrice(b)
  {
    if b != [] {
      var init := b[..|b| - 1];
      assert (a + b)[..|a + b| - 1] == a + init;
      TotalsConcat(a, init);
    } else {
      assert a + b == a;
    }
  }

  /** When every item has the same price per number, the price total is that price times the number count. */
  lemma {:induction false} UniformPriceTotal(items: seq<CartItem>, price: int)
    requires forall i :: 0 <= i < |items| ==> items[i].price == price
    ensures TotalPrice(items) == price * TotalItems(items)
  {
    if items != [] {
      UniformPriceTotal(items[..|items| - 1], price);
    }
  }

  /** `/^\d{10}$/`: exactly ten decimal digits. */
  predicate TenDigits(s: string)
  {
    |s| == 10 && AllDigits(s)
  }

  /**
   * `/\S+@\S+\.\S+/`, which is not anchored: somewhere in the text a
   * non-space character, an `@`, a non-empty run of non-space characters, a
   * `.` and one more non-space character.
   */
  predicate EmailShape(s: string)
  {
    exists at, dot :: 0 < at < |s| && at + 1 < dot < |s| - 1 && EmailAt(s, at, dot)
  }

  /** The pattern matches with its `@` at `at` and its `.` at `dot`. */
  predicate EmailAt(s: string, at: int, dot: int)
  {
    0 < at < |s| && at + 1 < dot < |s| - 1
    && s[at] == '@' && s[dot] == '.' && !IsSpace(s[at - 1]) && NoSpaceIn(s, at + 1, dot + 2)
  }

  /** No white space among `s[lo..hi]`. */
  predicate NoSpaceIn(s: string, lo: int, hi: int)
    requires 0 <= lo <= hi <= |s|
  {
    forall k :: lo <= k < hi ==> !IsSpace(s[k])
  }

  /** Because the pattern is not anchored, text around a matching address does not make it fail. */
  lemma EmailShapeIgnoresSurroundings(s: string, a: string, b: string)
    requires EmailShape(s)
    ensures EmailShape(a + s + b)
  {
    var at, dot :| 0 < at < |s| && at + 1 < dot < |s| - 1 && EmailAt(s, at, dot);
    var t := a + s + b;
    forall k | 0 <= k < |s|
      ensures t[|a| + k] == s[k]
    {
    }
    forall k | |a| + at + 1 <= k < |a| + dot + 2
      ensures !IsSpace(t[k])
    {
      assert t[k] == s[k - |a|];
    }
    assert EmailAt(t, |a| + at, |a| + dot);
  }

  /** The three checks: a name, a ten-digit phone and an e-mail of the right shape. */
  predicate ContactValid(c: Contact)
  {
    c.name != "" && TenDigits(c.phone) && EmailShape(c.email)
  }

  /**
   * Each failing check has its own key; an empty phone or e-mail gets the
   * "required" message and a malformed one the format message.
   */
  ghost predicate Reports(errors: map<ContactField, string>, c: Contact)
  {
    && (NameField in errors <==> c.name == "")
    && (NameField in errors ==> errors[NameField] == NameRequired)
    && (PhoneField in errors <==> !TenDigits(c.phone))
    && (PhoneField in errors ==> errors[PhoneField] == if c.phone == "" then PhoneRequired else PhoneFormat)
    && (EmailField in errors <==> !EmailShape(c.email))
    && (EmailField in errors ==> errors[EmailField] == if c.email == "" then EmailRequired else EmailFormat)
  }

  lemma ReportsNothingIffValid(errors: map<ContactField, string>, c: Contact)
    requires Reports(errors, c)
    ensures errors == map[] <==> ContactValid(c)
  {
    if ContactValid(c) {
      forall f ensures f !in errors {
        match f
        case NameField =>
        case PhoneField =>
        case EmailField =>
      }
    } else {
      assert exists f :: f in errors;
    }
  }

  /** `validateForm`: fills the error dictionary check by check. */
  method Validate(c: Contact) returns (ok: bool, errors: map<ContactField, string>)
    ensures Reports(errors, c)
    ensures ok <==> errors == map[]
    ensures ok <==> ContactValid(c)
  {
    errors := map[];
    if c.name == "" {
      errors := errors[NameField := NameRequired];
    }
    if c.phone == "" {
      errors := errors[PhoneField := PhoneRequired];
    } else if !TenDigits(c.phone) {
      errors := errors[PhoneField := PhoneFormat];
    }
    if c.email == "" {
      errors := errors[EmailField := EmailRequired];
    } else if !EmailShape(c.email) {
      errors := errors[EmailField := EmailFormat];
    }
    ok := |errors| == 0;
    ReportsNothingIffValid(errors, c);
  }

  function Get(c: Contact, field: ContactField): string
  {
    match field
    case NameField => c.name
    case PhoneField => c.phone
    case EmailField => c.email
  }

  /** The cart page's component state; `checkouts` records every `onCheckout` call. */
  class CartPage {
    const items: seq<CartItem>
    var form: Contact
    var errors: map<ContactField, string>
    var step: int
    var checkouts: seq<Contact>

    /** The step is review (1) or contact details (2), and only valid contacts were ever checked out. */
    ghost predicate Valid()
      reads this
    {
      (step == 1 || step == 2) && forall i :: 0 <= i < |checkouts| ==> ContactValid(checkouts[i])
    }

    constructor (items: seq<CartItem>)
      ensures Valid()
      ensures this.items == items && step == 1 && form == Contact("", "", "")
      ensures errors == map[] && checkouts == []
    {
      this.items := items;
      form := Contact("", "", "");
      errors := map[];
      step := 1;
      checkouts := [];
    }

    /** `handleChange`: only the named field takes the typed text. */
    method HandleChange(field: ContactField, value: string)
      modifies this`form
      ensures Get(form, field) == value
      ensures forall g :: g != field ==> Get(form, g) == Get(old(form), g)
    {
      var c := form;
      form := match field
              case NameField => c.(name := value)
              case PhoneField => c.(phone := value)
              case EmailField => c.(email := value);
    }

    /**
     * `handleContinuar`: from review it moves to the contact step; on the
     * contact step it validates and checks out only a valid contact, and the
     * step stays where it is.
     */
    method Continue()
      requires Valid()
      modifies this`step, this`errors, this`checkouts
      ensures Valid()
      ensures old(step) == 1 ==> step == 2 && errors == old(errors) && checkouts == old(checkouts)
      ensures old(step) == 2 ==>
                && step == 2
                && Reports(errors, form)
                && checkouts == old(checkouts) + if ContactValid(form) then [form] else []
    {
      if step == 1 {
        step := 2;
      } else if step == 2 {
        var ok;
        ok, errors := Validate(form);
        if ok {
          checkouts := checkouts + [form];
        }
      }
    }

    /** The "Volver" button of the contact step. */
    method Back()
      requires Valid()
      modifies this`step
      ensures Valid() && step == 1
    {
      step := 1;
    }
  }
}
