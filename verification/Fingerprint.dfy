/**
 * The idempotency fingerprint.  SHA-256 is taken as injective, so a fingerprint
 * is represented by the canonical JSON text it digests.
 */
module Fingerprint {
  import opened Common
  import opened Money
  import opened Json

  /** The body of a creation request. */
  datatype Request = Request(
    amount: Decimal,
    currency: string,
    description: Option<string>,
    destination: Option<string>,
    lifetime: nat)

  /** What the schema accepts. */
  predicate Accepted(r: Request) {
    && r.amount.units > 0 && AtMostTwoPlaces(r.amount)
    && 3 <= |r.currency| <= 12
    && (r.description.Some? ==> |r.description.value| <= 255)
    && (r.destination.Some? ==> |r.destination.value| <= 128)
    && 60 <= r.lifetime <= 86400
  }

  /** The same order: what two payloads must agree on to be one idempotent request. */
  ghost predicate SameOrder(a: Request, b: Request) {
    && SameValue(a.amount, b.amount)
    && Upper(a.currency) == Upper(b.currency)
    && a.description == b.description
    && a.destination == b.destination
    && a.lifetime == b.lifetime
  }

  /** Cents in the fixed-point notation with two decimals. */
  function AmountText(cents: nat): string {
    Digits(cents / 100) + "." + [Digit(cents / 10 % 10), Digit(cents % 10)]
  }

  function Nullable(s: Option<string>): string {
    match s
    case None => "null"
    case Some(t) => Quote(t)
  }

  /** The canonical text from each key on; keys are sorted and nothing is padded. */
  function FromLifetime(r: Request): string {
    ",\"expires_in_seconds\":" + (Digits(r.lifetime) + "}")
  }

  function FromDestination(r: Request): string {
    ",\"expected_destination\":" + (Nullable(r.destination) + FromLifetime(r))
  }

  function FromDescription(r: Request): string {
    ",\"description\":" + (Nullable(r.description) + FromDestination(r))
  }

  function FromCurrency(r: Request): string {
    ",\"currency\":" + (Quote(Upper(r.currency)) + FromDescription(r))
  }

  function CanonicalText(r: Request): string
    requires Accepted(r)
  {
    CentsPositive(r.amount);
    "{\"amount\":" + (Quote(AmountText(Cents(r.amount))) + FromCurrency(r))
  }

  lemma CentsPositive(d: Decimal)
    requires d.units > 0 && AtMostTwoPlaces(d)
    ensures Cents(d) > 0
  {
    if d.places <= 2 {
      ZeroProduct(Pow10(2 - d.places), d.units);
    } else {
      assert d.units == d.units / Pow10(d.places - 2) * Pow10(d.places - 2);
    }
  }

  /** A payload is accepted exactly when it orders a positive number of cents and its fields have their sizes. */
  lemma AcceptedIff(r: Request)
    ensures Accepted(r)
       <==> && (exists c: int :: c > 0 && SameValue(r.amount, Decimal(c, 2)))
            && |r.currency| >= 3 && |r.currency| < 13
            && (r.description == None || |r.description.value| < 256)
            && (r.destination == None || |r.destination.value| < 129)
            && r.lifetime >= 60 && r.lifetime <= 24 * 3600
  {
    hide SameValue, AtMostTwoPlaces, Cents;
    forall c: int ensures SameValue(r.amount, Decimal(c, 2)) <==> AtMostTwoPlaces(r.amount) && Cents(r.amount) == c {
      GatedIffWhole(r.amount, c);
    }
    if AtMostTwoPlaces(r.amount) {
      GatedIffWhole(r.amount, Cents(r.amount));
    }
  }

  /** Read without its point, the amount is the number of cents; the point stands before the last two digits. */
  lemma AmountTextSpells(cents: nat)
    ensures
      var s := AmountText(cents);
      var point := |s| - 3;
      && point >= 1 && s[point] == '.' && NumberOf(s[..point] + s[point + 1..]) == cents
      && (s[0] == '0' ==> point == 1)
  {
    hide Digits;
    DigitsSpell(cents / 100);
    var whole, digits := Digits(cents / 100), [Digit(cents / 10 % 10), Digit(cents % 10)];
    var s := AmountText(cents);
    assert s[..|s| - 3] + s[|s| - 2..] == whole + digits;
    assert (whole + digits)[..|whole| + 1] == whole + [digits[0]];
    assert (whole + [digits[0]])[..|whole|] == whole;
    SplitCents(cents);
    if s[0] == '0' {
      assert whole[0] == '0';
      assert whole == Digits(0);
      ZeroHasOneDigit();
    }
  }

  lemma ZeroHasOneDigit()
    ensures Digits(0) == "0"
  {
  }

  /** A field that needs no escapes. */
  predicate PlainField(field: Option<string>) {
    field.Some? ==> forall c <- field.value :: IsPlain(c)
  }

  function Shown(field: Option<string>): string {
    if field.None? then "null" else "\"" + field.value + "\""
  }

  /** The canonical text of an order for 25 EUR that expires in a quarter of an hour. */
  lemma CanonicalTemplate(r: Request)
    requires Accepted(r) && SameValue(r.amount, Decimal(2500, 2)) && Upper(r.currency) == "EUR" && r.lifetime == 900
    requires PlainField(r.description) && PlainField(r.destination)
    ensures CanonicalText(r)
         == "{\"amount\":" + ("\"25.00\"" + (",\"currency\":" + ("\"EUR\"" + (",\"description\":"
            + (Shown(r.description) + (",\"expected_destination\":" + (Shown(r.destination)
            + (",\"expires_in_seconds\":" + ("900" + "}")))))))))
  {
    hide Quote, SameValue, Cents, Digits, Nullable, Shown, AmountText, PlainField, Upper;
    GatedIffWhole(r.amount, 2500);
    TwentyFive();
    PlainQuote("25.00");
    PlainQuote("EUR");
    PlainNullable(r.description);
    PlainNullable(r.destination);
  }

  lemma PlainNullable(field: Option<string>)
    requires PlainField(field)
    ensures Nullable(field) == Shown(field)
  {
    if field.Some? { PlainQuote(field.value); }
  }

  lemma TwentyFive()
    ensures AmountText(2500) == "25.00" && Digits(900) == "900"
  {
    assert Digits(25) == Digits(2) + [Digit(5)];
    assert Digits(90) == Digits(9) + [Digit(0)];
    assert Digits(900) == Digits(90) + [Digit(0)];
  }

  // ----------------------------------------------------------- canonicality

  lemma CancelPrefix(p: string, x: string, y: string)
    requires p + x == p + y
    ensures x == y
  {
    assert (p + x)[|p|..] == x && (p + y)[|p|..] == y;
  }

  lemma NullableIsPrefixFree(s: Option<string>, t: Option<string>, x: string, y: string)
    requires Nullable(s) + x == Nullable(t) + y
    ensures s == t && x == y
  {
    assert (Nullable(s) + x)[0] == Nullable(s)[0] && (Nullable(t) + y)[0] == Nullable(t)[0];
    if s.Some? && t.Some? {
      QuoteIsPrefixFree(s.value, t.value, x, y);
    } else {
      CancelPrefix("null", x, y);
    }
  }

  lemma AmountTextInjective(a: nat, b: nat)
    requires AmountText(a) == AmountText(b)
    ensures a == b
  {
    hide Digits, Digit, AmountText;
    AmountTextParts(a);
    AmountTextParts(b);
    DigitsInjective(a / 100, b / 100);
    DigitDecides(a / 10 % 10, b / 10 % 10);
    DigitDecides(a % 10, b % 10);
    SplitCents(a);
    SplitCents(b);
  }

  lemma DigitDecides(m: int, n: int)
    requires 0 <= m < 10 && 0 <= n < 10 && Digit(m) == Digit(n)
    ensures m == n
  {
  }

  lemma SplitCents(a: nat)
    ensures a == 100 * (a / 100) + 10 * (a / 10 % 10) + a % 10
  {
    var tens := a / 10;
    assert a == 10 * tens + a % 10;
    assert tens == 10 * (tens / 10) + tens % 10;
    assert tens / 10 == a / 100;
  }

  lemma AmountTextParts(a: nat)
    ensures
      var s := AmountText(a);
      && |s| >= 3 && s[..|s| - 3] == Digits(a / 100)
      && s[|s| - 2] == Digit(a / 10 % 10) && s[|s| - 1] == Digit(a % 10)
  {
    hide Digits, Digit;
  }

  lemma LifetimeDecides(a: Request, b: Request)
    requires FromLifetime(a) == FromLifetime(b)
    ensures a.lifetime == b.lifetime
  {
    var x, y := Digits(a.lifetime) + "}", Digits(b.lifetime) + "}";
    CancelPrefix(",\"expires_in_seconds\":", x, y);
    assert x[..|x| - 1] == Digits(a.lifetime) && y[..|y| - 1] == Digits(b.lifetime);
    DigitsInjective(a.lifetime, b.lifetime);
  }

  lemma DestinationDecides(a: Request, b: Request)
    requires FromDestination(a) == FromDestination(b)
    ensures a.destination == b.destination && a.lifetime == b.lifetime
  {
    CancelPrefix(",\"expected_destination\":", Nullable(a.destination) + FromLifetime(a),
                 Nullable(b.destination) + FromLifetime(b));
    NullableIsPrefixFree(a.destination, b.destination, FromLifetime(a), FromLifetime(b));
    LifetimeDecides(a, b);
  }

  lemma DescriptionDecides(a: Request, b: Request)
    requires FromDescription(a) == FromDescription(b)
    ensures a.description == b.description && a.destination == b.destination && a.lifetime == b.lifetime
  {
    CancelPrefix(",\"description\":", Nullable(a.description) + FromDestination(a),
                 Nullable(b.description) + FromDestination(b));
    NullableIsPrefixFree(a.description, b.description, FromDestination(a), FromDestination(b));
    DestinationDecides(a, b);
  }

  lemma CurrencyDecides(a: Request, b: Request)
    requires FromCurrency(a) == FromCurrency(b)
    ensures Upper(a.currency) == Upper(b.currency) && a.description == b.description
    ensures a.destination == b.destination && a.lifetime == b.lifetime
  {
    var x, y := Upper(a.currency), Upper(b.currency);
    CancelPrefix(",\"currency\":", Quote(x) + FromDescription(a), Quote(y) + FromDescription(b));
    QuoteIsPrefixFree(x, y, FromDescription(a), FromDescription(b));
    DescriptionDecides(a, b);
  }

  /** Two accepted payloads get the same fingerprint exactly when they order the same thing. */
  lemma FingerprintIsCanonical(a: Request, b: Request)
    requires Accepted(a) && Accepted(b)
    ensures CanonicalText(a) == CanonicalText(b) <==> SameOrder(a, b)
  {
    CentsPositive(a.amount);
    CentsPositive(b.amount);
    GatedCentsDecide(a.amount, b.amount);
    if CanonicalText(a) == CanonicalText(b) {
      TextDecides(a, b);
    }
    if SameOrder(a, b) {
      SameTexts(a, b);
    }
  }

  lemma TextDecides(a: Request, b: Request)
    requires Accepted(a) && Accepted(b) && CanonicalText(a) == CanonicalText(b)
    ensures Cents(a.amount) == Cents(b.amount)
    ensures Upper(a.currency) == Upper(b.currency) && a.description == b.description
    ensures a.destination == b.destination && a.lifetime == b.lifetime
  {
    hide FromCurrency, Quote, AmountText;
    CentsPositive(a.amount);
    CentsPositive(b.amount);
    var x, y := AmountText(Cents(a.amount)), AmountText(Cents(b.amount));
    CancelPrefix("{\"amount\":", Quote(x) + FromCurrency(a), Quote(y) + FromCurrency(b));
    QuoteIsPrefixFree(x, y, FromCurrency(a), FromCurrency(b));
    AmountTextInjective(Cents(a.amount), Cents(b.amount));
    CurrencyDecides(a, b);
  }

  lemma SameTexts(a: Request, b: Request)
    requires Accepted(a) && Accepted(b) && Cents(a.amount) == Cents(b.amount)
    requires Upper(a.currency) == Upper(b.currency) && a.description == b.description
    requires a.destination == b.destination && a.lifetime == b.lifetime
    ensures CanonicalText(a) == CanonicalText(b)
  {
    CentsPositive(a.amount);
    CentsPositive(b.amount);
    assert FromLifetime(a) == FromLifetime(b);
    assert FromDestination(a) == FromDestination(b);
    assert FromDescription(a) == FromDescription(b);
    assert FromCurrency(a) == FromCurrency(b);
  }
}
