/**
 * The records of the order demo (models.py) and the validation of the order form
 * (OrderInput): the text fields must not be blank and are kept stripped, the phone
 * number needs seven digits and may hold only digits, dashes, plus signs and blanks.
 * Prices are whole cents. Whether an e-mail address is valid is decided by a checker
 * passed in, which yields the accepted address or the error message.
 */
module OrderModels {
  import opened Wrappers
  import opened Text

  /** A catalogue entry as the product tool hands it out (Product). */
  datatype Product = Product(id: int, name: string, price: int, stock: int)

  /** The validated order form (OrderInput). */
  datatype OrderInput = OrderInput(
    name: string,
    phone: string,
    email: string,
    address: string,
    deliveryTime: string,
    paymentMethod: string)

  /** The e-mail check pydantic's EmailStr performs: the accepted address, or the error message. */
  type EmailCheck = string -> Result<string, string>

  const EmptyFieldMsg := "Field cannot be empty"
  const ShortPhoneMsg := "Phone number must have at least 7 digits"
  const PhoneCharsMsg := "Phone number can only contain numbers, spaces, dashes, or plus sign"

  /** The form's fields, in declaration order, which is also the order errors are reported in. */
  const OrderFields: seq<string> := ["name", "phone", "email", "address", "delivery_time", "payment_method"]

  const OrderFieldSet: set<string> := {"name", "phone", "email", "address", "delivery_time", "payment_method"}

  /** `not_empty`: a blank text is rejected; anything else is kept without its surrounding blanks. */
  function NotEmpty(v: string): (r: Result<string, string>)
    ensures r.Err? <==> AllSpace(v)
    ensures r.Err? ==> r.error == EmptyFieldMsg
    ensures r.Ok? ==> r.value == Strip(v) && r.value != ""
  {
    var s := Strip(v);
    StripEmpty(v);
    if s == "" then Err(EmptyFieldMsg) else Ok(s)
  }

  /** An accepted text is the text between its blank padding, and validating it again accepts it unchanged. */
  lemma NotEmptyKeepsCore(left: string, t: string, right: string)
    requires AllSpace(left) && AllSpace(right)
    requires t != [] && !IsSpace(t[0]) && !IsSpace(t[|t| - 1])
    ensures NotEmpty(left + t + right) == Ok(t)
    ensures NotEmpty(t) == Ok(t)
  {
    StripOfPadding(left, t, right);
    StripOfStripped(t);
  }

  /** `re.sub(r'[^0-9]', '', v)`: the digits of `v`, in order. */
  function Digits(v: string): (d: string)
    ensures |d| <= |v| && AllDigits(d)
  {
    if v == [] then []
    else if IsDigit(v[0]) then [v[0]] + Digits(v[1..])
    else Digits(v[1..])
  }

  lemma {:induction false} DigitsAppend(a: string, b: string)
    ensures Digits(a + b) == Digits(a) + Digits(b)
    decreases |a|
  {
    if a != [] {
      assert (a + b)[1..] == a[1..] + b;
      DigitsAppend(a[1..], b);
    } else {
      assert a + b == b;
    }
  }

  lemma {:induction false} DigitsOfDigits(s: string)
    requires AllDigits(s)
    ensures Digits(s) == s
    decreases |s|
  {
    if s != [] {
      DigitsOfDigits(s[1..]);
    }
  }

  lemma {:induction false} DigitsOfBlank(s: string)
    requires AllSpace(s)
    ensures Digits(s) == ""
    decreases |s|
  {
    if s != [] {
      DigitsOfBlank(s[1..]);
    }
  }

  predicate PhoneChar(c: char) {
    IsDigit(c) || c == '-' || c == '+' || IsSpace(c)
  }

  /** `re.match(r'^[0-9\-\+\s]+$', v)`: one or more characters, each a digit, dash, plus or blank. */
  predicate PhoneCharset(v: string) {
    v != [] && forall i :: 0 <= i < |v| ==> PhoneChar(v[i])
  }

  /**
   * `valid_phone`: fewer than seven digits is reported first, whatever else the text
   * holds; then a character outside the allowed set; an accepted number comes back stripped.
   */
  function ValidPhone(v: string): (r: Result<string, string>)
    ensures |Digits(v)| < 7 ==> r == Err(ShortPhoneMsg)
    ensures |Digits(v)| >= 7 && !PhoneCharset(v) ==> r == Err(PhoneCharsMsg)
    ensures r.Ok? <==> |Digits(v)| >= 7 && PhoneCharset(v)
    ensures r.Ok? ==> r.value == Strip(v)
    ensures r.Ok? ==> |Digits(r.value)| >= 7 && PhoneCharset(r.value)
  {
    if |Digits(v)| < 7 then Err(ShortPhoneMsg)
    else if !PhoneCharset(v) then Err(PhoneCharsMsg)
    else
      PhoneStripKeeps(v);
      Ok(Strip(v))
  }

  /** Blanks around a slice add no digit. */
  lemma DigitsOfPadded(v: string, i: nat, j: nat)
    requires i <= j <= |v| && AllSpace(v[..i]) && AllSpace(v[j..])
    ensures Digits(v) == Digits(v[i..j])
  {
    var left, mid, right := v[..i], v[i..j], v[j..];
    assert v == left + mid + right;
    DigitsAppend(left + mid, right);
    DigitsAppend(left, mid);
    DigitsOfBlank(left);
    DigitsOfBlank(right);
  }

  /** Stripping loses no digit: only blanks are removed. */
  lemma DigitsOfStrip(v: string)
    ensures Digits(Strip(v)) == Digits(v)
  {
    var i, j := StripSlice(v);
    DigitsOfPadded(v, i, j);
  }

  /** Stripping brings in no character that was not there. */
  lemma CharsetOfStrip(v: string)
    requires PhoneCharset(v) && Strip(v) != ""
    ensures PhoneCharset(Strip(v))
  {
    var i, j := StripSlice(v);
    forall k | 0 <= k < j - i
      ensures PhoneChar(v[i..j][k])
    {
      assert v[i..j][k] == v[i + k];
    }
  }

  /** Stripping a phone number loses no digit and brings in no other character. */
  lemma PhoneStripKeeps(v: string)
    requires |Digits(v)| >= 7 && PhoneCharset(v)
    ensures Digits(Strip(v)) == Digits(v)
    ensures PhoneCharset(Strip(v))
  {
    DigitsOfStrip(v);
    CharsetOfStrip(v);
  }

  /** An accepted phone number is its own normal form: validating it again gives it back. */
  lemma ValidPhoneIdempotent(v: string)
    requires ValidPhone(v).Ok?
    ensures ValidPhone(ValidPhone(v).value) == ValidPhone(v)
  {
    var p := ValidPhone(v).value;
    assert p == Strip(v) && |Digits(p)| >= 7 && PhoneCharset(p);
    AcceptedStrippedPhone(p);
  }

  /** A stripped text that passes both phone checks is accepted as it is. */
  lemma AcceptedStrippedPhone(p: string)
    requires |Digits(p)| >= 7 && PhoneCharset(p)
    requires p == [] || (!IsSpace(p[0]) && !IsSpace(p[|p| - 1]))
    ensures ValidPhone(p) == Ok(p)
  {
    StripOfStripped(p);
  }

  /** The repository's short example: "123" has too few digits. */
  lemma ShortPhoneExample()
    ensures ValidPhone("123") == Err(ShortPhoneMsg)
  {
    assert Digits("123") == "123";
  }

  /** The repository's example with letters: "abc1234567" has seven digits but not only phone characters. */
  lemma LetteredPhoneExample(bad: string)
    requires bad == "abc1234567"
    ensures ValidPhone(bad) == Err(PhoneCharsMsg)
  {
    var tail := bad[3..];
    assert AllDigits(tail);
    DigitsOfDigits(tail);
    assert |Digits(bad)| >= 7 by {
      assert Digits(bad) == Digits(bad[1..]) == Digits(bad[2..]) == Digits(tail);
    }
    assert !PhoneCharset(bad) by {
      assert !PhoneChar(bad[0]);
    }
  }

  /** The repository's valid example: "+1 234-567-8901" is accepted as it is. */
  lemma ValidPhoneExample(good: string)
    requires good == "+1 234-567-8901"
    ensures ValidPhone(good) == Ok(good)
  {
    SampleDigits(good);
    SampleCharset(good);
    assert !IsSpace(good[0]) && !IsSpace(good[|good| - 1]);
    StripOfStripped(good);
  }

  lemma SampleDigits(good: string)
    requires good == "+1 234-567-8901"
    ensures |Digits(good)| >= 7
  {
    var tail := good[7..];
    assert tail == good[7..10] + good[10..11] + good[11..];
    assert AllDigits(good[7..10]) && AllDigits(good[11..]);
    DigitsOfDigits(good[7..10]);
    DigitsOfDigits(good[11..]);
    DigitsAppend(good[7..10] + good[10..11], good[11..]);
    DigitsAppend(good[7..10], good[10..11]);
    assert good == good[..7] + tail;
    DigitsAppend(good[..7], tail);
  }

  lemma SampleCharset(good: string)
    requires good == "+1 234-567-8901"
    ensures PhoneCharset(good)
  {
    forall i | 0 <= i < |good|
      ensures PhoneChar(good[i])
    {
    }
  }

  /** How one field of the form is validated: the phone rule, the e-mail check, or the non-blank rule. */
  function CheckField(f: string, v: string, email: EmailCheck): Result<string, string> {
    if f == "phone" then ValidPhone(v)
    else if f == "email" then email(v)
    else NotEmpty(v)
  }

  predicate HasAllFields(data: map<string, string>) {
    forall f :: f in OrderFieldSet ==> f in data
  }

  /** The fields among `fs` whose value does not validate, in the order of `fs`. */
  function FailedFields(fs: seq<string>, data: map<string, string>, email: EmailCheck): (r: seq<string>)
    requires forall k :: 0 <= k < |fs| ==> fs[k] in data
    ensures forall f :: f in r <==> f in fs && CheckField(f, data[f], email).Err?
    ensures |r| <= |fs|
  {
    if fs == [] then []
    else
      var rest := FailedFields(fs[1..], data, email);
      if CheckField(fs[0], data[fs[0]], email).Err? then [fs[0]] + rest else rest
  }

  /**
   * `OrderInput(**data)`: every field is validated and every failing field is reported,
   * in field order; when none fails the form holds the validated values.
   */
  function Validate(data: map<string, string>, email: EmailCheck): (r: Result<OrderInput, seq<string>>)
    requires HasAllFields(data)
    ensures r.Err? ==> r.error != []
    ensures r.Err? ==> forall f :: f in r.error <==> f in OrderFieldSet && CheckField(f, data[f], email).Err?
    ensures r.Ok? ==> forall f :: f in OrderFieldSet ==> CheckField(f, data[f], email).Ok?
    ensures r.Ok? ==> r.value.name == Strip(data["name"]) && r.value.phone == Strip(data["phone"])
    ensures r.Ok? ==> email(data["email"]) == Ok(r.value.email)
    ensures r.Ok? ==> r.value.address == Strip(data["address"]) && r.value.deliveryTime == Strip(data["delivery_time"])
    ensures r.Ok? ==> r.value.paymentMethod == Strip(data["payment_method"])
  {
    assert forall f :: f in OrderFields <==> f in OrderFieldSet;
    var errs := FailedFields(OrderFields, data, email);
    if errs != [] then Err(errs)
    else
      var name := NotEmpty(data["name"]);
      var phone := ValidPhone(data["phone"]);
      var mail := email(data["email"]);
      var address := NotEmpty(data["address"]);
      var time := NotEmpty(data["delivery_time"]);
      var payment := NotEmpty(data["payment_method"]);
      assert name == CheckField("name", data["name"], email);
      assert phone == CheckField("phone", data["phone"], email);
      assert mail == CheckField("email", data["email"], email);
      assert address == CheckField("address", data["address"], email);
      assert time == CheckField("delivery_time", data["delivery_time"], email);
      assert payment == CheckField("payment_method", data["payment_method"], email);
      Ok(OrderInput(name.value, phone.value, mail.value, address.value, time.value, payment.value))
  }

  /** A form with every field blank reports every field; the e-mail field is reported when the check rejects "". */
  lemma BlankFormReportsEveryField(data: map<string, string>, email: EmailCheck)
    requires HasAllFields(data) && forall f :: f in data ==> data[f] == ""
    requires email("").Err?
    ensures Validate(data, email).Err?
    ensures forall f :: f in OrderFieldSet ==> f in Validate(data, email).error
  {
    assert Digits("") == "";
    assert AllSpace("");
    assert CheckField("name", data["name"], email).Err?;
    forall f | f in OrderFieldSet
      ensures CheckField(f, data[f], email).Err?
    {
    }
  }

  /** `f"{x:.2f}"` for an amount of `cents` hundredths: the units, a point and exactly two decimals. */
  function TwoDecimals(cents: int): (s: string)
    ensures |s| >= 4 && s[|s| - 3] == '.'
  {
    var a := if cents < 0 then -cents else cents;
    (if cents < 0 then "-" else "") + NatToString(a / 100) + "." + [DigitChar(a % 100 / 10), DigitChar(a % 10)]
  }
}
