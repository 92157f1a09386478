/** The checkout page's form: its values, its per-field error messages, the
    validation run before submitting, and the rule that editing a field
    clears that field's error. */
module CheckoutForm {
  import opened Common
  import opened Text
  import opened Checkout

  datatype Field = FullName | Phone | Address | City | District | Ward | PostalCode | PaymentMethod | Notes

  const FullNameRequired := "Full name is required"
  const PhoneRequired := "Phone number is required"
  const PhoneInvalid := "Please enter a valid phone number (10-11 digits)"
  const AddressRequired := "Address is required"
  const CityRequired := "City is required"
  const PaymentMethodRequired := "Please select a payment method"

  /** The phone pattern: the whole value (untrimmed) is 10 or 11 ASCII
      digits. */
  predicate PhonePattern(s: string)
  {
    (|s| == 10 || |s| == 11) && AllDigits(s)
  }

  /** The message validation puts under field `f` of the values `d`, if
      any: name, address and city must not be blank (nothing is left once
      white space is trimmed from both ends, `Text.TrimEmptyIffBlank`); the
      phone must not be blank and must otherwise match the pattern; a payment
      method must be chosen. The other fields are not checked. */
  function FieldError(d: map<Field, string>, f: Field): Option<string>
    requires forall g: Field :: g in d
  {
    match f
    case FullName => if Blank(d[FullName]) then Some(FullNameRequired) else None
    case Phone =>
      if Blank(d[Phone]) then Some(PhoneRequired)
      else if !PhonePattern(d[Phone]) then Some(PhoneInvalid)
      else None
    case Address => if Blank(d[Address]) then Some(AddressRequired) else None
    case City => if Blank(d[City]) then Some(CityRequired) else None
    case PaymentMethod => if d[PaymentMethod] == "" then Some(PaymentMethodRequired) else None
    case _ => None
  }

  /** `e` with the message `m` recorded under `f`, when there is one. */
  function Note(e: map<Field, string>, f: Field, m: Option<string>): map<Field, string>
  {
    if m.Some? then e[f := m.value] else e
  }

  /** The errors validation produces for the values `d`, field by field in
      the page's order; a field without an error has no entry. */
  function FormErrors(d: map<Field, string>): map<Field, string>
    requires forall f: Field :: f in d
  {
    var e1 := Note(map[], FullName, FieldError(d, FullName));
    var e2 := Note(e1, Phone, FieldError(d, Phone));
    var e3 := Note(e2, Address, FieldError(d, Address));
    var e4 := Note(e3, City, FieldError(d, City));
    Note(e4, PaymentMethod, FieldError(d, PaymentMethod))
  }

  /** What a submittable form is, stated on its own: name, address and city
      not blank, a phone of 10 or 11 digits, and a payment method chosen. */
  predicate FormValid(d: map<Field, string>)
    requires forall f: Field :: f in d
  {
    !Blank(d[FullName]) && !Blank(d[Address]) && !Blank(d[City])
    && PhonePattern(d[Phone]) && d[PaymentMethod] != ""
  }

  /** A blank value is never a well-formed phone number. */
  lemma BlankNotPhone(s: string)
    requires Blank(s)
    ensures !PhonePattern(s)
  {
    if |s| > 0 {
      assert IsSpace(s[0]);
    }
  }

  /** Each field gets an error exactly when its check fails, with the
      page's message: blank name, address or city; a blank phone before a
      badly formed one; an empty payment method. District, ward, postal code
      and notes are never checked. */
  lemma FormErrorsExactly(d: map<Field, string>)
    requires forall f: Field :: f in d
    ensures var e := FormErrors(d);
      && (FullName in e <==> Blank(d[FullName])) && (FullName in e ==> e[FullName] == FullNameRequired)
      && (Address in e <==> Blank(d[Address])) && (Address in e ==> e[Address] == AddressRequired)
      && (City in e <==> Blank(d[City])) && (City in e ==> e[City] == CityRequired)
      && (Phone in e <==> !PhonePattern(d[Phone]))
      && (Phone in e ==> e[Phone] == if Blank(d[Phone]) then PhoneRequired else PhoneInvalid)
      && (PaymentMethod in e <==> d[PaymentMethod] == "")
      && (PaymentMethod in e ==> e[PaymentMethod] == PaymentMethodRequired)
      && District !in e && Ward !in e && PostalCode !in e && Notes !in e
  {
    if Blank(d[Phone]) {
      BlankNotPhone(d[Phone]);
    }
  }

  /** Validation passes exactly for the forms that are valid. */
  lemma ValidIffNoErrors(d: map<Field, string>)
    requires forall f: Field :: f in d
    ensures FormErrors(d) == map[] <==> FormValid(d)
  {
    FormErrorsExactly(d);
    var e := FormErrors(d);
    if FormValid(d) {
      forall f | f in e ensures false {
        match f
        case FullName =>
        case Phone =>
        case Address =>
        case City =>
        case District =>
        case Ward =>
        case PostalCode =>
        case PaymentMethod =>
        case Notes =>
      }
      assert e == map[];
    }
  }

  /** The address the page submits. */
  function SubmittedAddress(d: map<Field, string>): AddressInput
    requires forall f: Field :: f in d
  {
    AddressInput(d[FullName], d[Phone], d[Address], d[City], d[District], d[Ward], d[PostalCode])
  }

  /** A form that validates gets past the server's address and payment
      method checks, and its four required address fields survive the
      server's trimming. */
  lemma ValidFormPassesServerChecks(d: map<Field, string>)
    requires forall f: Field :: f in d
    requires FormErrors(d) == map[]
    ensures !AddressIncomplete(Some(SubmittedAddress(d))) && d[PaymentMethod] != ""
    ensures var a := SubmittedAddress(d);
            !Blank(a.fullName) && !Blank(a.phone) && !Blank(a.address) && !Blank(a.city)
  {
    ValidIffNoErrors(d);
    if Blank(d[Phone]) {
      BlankNotPhone(d[Phone]);
    }
  }

  class Form {
    /** The value of every field. */
    var data: map<Field, string>
    /** The message shown under each field; `""` shows nothing. */
    var errors: map<Field, string>

    ghost predicate Valid()
      reads this
    {
      forall f: Field :: f in data
    }

    /** The form as the page starts it: every field empty except the
        payment method, which starts as cash on delivery, and no errors. */
    constructor ()
      ensures Valid()
      ensures data == map[FullName := "", Phone := "", Address := "", City := "", District := "",
                          Ward := "", PostalCode := "", PaymentMethod := "cod", Notes := ""]
      ensures errors == map[]
    {
      data := map[FullName := "", Phone := "", Address := "", City := "", District := "",
                  Ward := "", PostalCode := "", PaymentMethod := "cod", Notes := ""];
      errors := map[];
      new;
      forall f: Field ensures f in data {
        match f
        case FullName =>
        case Phone =>
        case Address =>
        case City =>
        case District =>
        case Ward =>
        case PostalCode =>
        case PaymentMethod =>
        case Notes =>
      }
    }

    /** Editing a field: its value is replaced, and its error, when one is
        shown, is blanked; every other value and error stays. */
    method HandleInputChange(name: Field, value: string)
      requires Valid()
      modifies this
      ensures Valid()
      ensures data == old(data)[name := value]
      ensures name in old(errors) && old(errors)[name] != "" ==> errors == old(errors)[name := ""]
      ensures !(name in old(errors) && old(errors)[name] != "") ==> errors == old(errors)
      ensures errors.Keys == old(errors).Keys && (name in errors ==> errors[name] == "")
    {
      data := data[name := value];
      if name in errors && errors[name] != "" {
        errors := errors[name := ""];
      }
    }

    /** Validation: the errors are rebuilt from the current values, field
        by field, and the answer is whether none was found. */
    method ValidateForm() returns (ok: bool)
      requires Valid()
      modifies this
      ensures Valid() && data == old(data)
      ensures errors == FormErrors(data)
      ensures ok <==> FormValid(data)
    {
      var newErrors: map<Field, string> := map[];
      TrimEmptyIffBlank(data[FullName]);
      if Trim(data[FullName]) == "" {
        newErrors := newErrors[FullName := FullNameRequired];
      }
      assert newErrors == Note(map[], FullName, FieldError(data, FullName));
      ghost var e1 := newErrors;
      TrimEmptyIffBlank(data[Phone]);
      if Trim(data[Phone]) == "" {
        newErrors := newErrors[Phone := PhoneRequired];
      } else if !PhonePattern(data[Phone]) {
        newErrors := newErrors[Phone := PhoneInvalid];
      }
      assert newErrors == Note(e1, Phone, FieldError(data, Phone));
      ghost var e2 := newErrors;
      TrimEmptyIffBlank(data[Address]);
      if Trim(data[Address]) == "" {
        newErrors := newErrors[Address := AddressRequired];
      }
      assert newErrors == Note(e2, Address, FieldError(data, Address));
      ghost var e3 := newErrors;
      TrimEmptyIffBlank(data[City]);
      if Trim(data[City]) == "" {
        newErrors := newErrors[City := CityRequired];
      }
      assert newErrors == Note(e3, City, FieldError(data, City));
      ghost var e4 := newErrors;
      if data[PaymentMethod] == "" {
        newErrors := newErrors[PaymentMethod := PaymentMethodRequired];
      }
      assert newErrors == Note(e4, PaymentMethod, FieldError(data, PaymentMethod));
      errors := newErrors;
      ok := |newErrors| == 0;
      ValidIffNoErrors(data);
    }
  }
}
