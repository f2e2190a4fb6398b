/**
 * The validation rules of the order handler, as Laravel evaluates them:
 *   customer_name: required | string | min:2 | max:255 | regex:/^[A-Za-z\s]+$/
 *   amount:        required | numeric | min:1
 * with the custom message for `customer_name.regex`.
 *
 * A request field is absent (`None`) or holds a text or an array. Whether a text is
 * numeric, and its value, come from PHP's numeric-string parsing, which is not part of
 * this model: every function that needs it takes it as the parameter `toNumber`.
 */
module OrderValidation {
  import opened Wrappers
  import opened NameNormalization

  datatype InputValue = Text(text: string) | Array(count: nat)

  datatype Request = Request(customerName: Option<InputValue>, amount: Option<InputValue>)

  datatype Attribute = CustomerName | Amount

  datatype Rule = Required | IsString | Numeric | Min(bound: nat) | Max(bound: nat) | Regex

  /** One failed rule of one attribute. */
  datatype FieldError = FieldError(attribute: Attribute, rule: Rule)

  /** The message shown for an error: the handler's own text, or Laravel's standard line for the rule. */
  datatype Message = Custom(text: string) | Standard(attribute: Attribute, rule: Rule)

  /** The raw field values of a request that passed validation. */
  datatype ValidInput = ValidInput(customerName: string, amount: string)

  const NameRegexMessage := "Customer name must contain only letters and spaces."
  const NameMinLength: nat := 2
  const NameMaxLength: nat := 255
  const AmountMin: nat := 1

  /** `preg_match('/^[A-Za-z\s]+$/', s)`. */
  predicate MatchesNamePattern(s: string) {
    |s| > 0 && LettersAndWhitespace(s)
  }

  /** A text that Laravel's `required` treats as empty: nothing is left once PHP's `trim` has run. */
  predicate IsBlank(s: string) {
    Trim(s) == []
  }

  /** Laravel's `required`: the field is present, and neither a blank text nor an empty array. */
  predicate PassesRequired(v: Option<InputValue>) {
    match v
    case None => false
    case Some(Text(s)) => !IsBlank(s)
    case Some(Array(n)) => n > 0
  }

  /**
   * The size Laravel's `min` and `max` compare: the value of a numeric text when the
   * attribute also carries the `numeric` rule, the element count of an array, and
   * otherwise the length of the text.
   */
  function Size(v: InputValue, numericAttribute: bool, toNumber: string -> Option<real>): (size: real) {
    match v
    case Text(s) =>
      if numericAttribute && toNumber(s).Some? then toNumber(s).value else |s| as real
    case Array(n) => n as real
  }

  /** The error for `rule` when the rule fails, nothing when it holds. */
  function Check(attribute: Attribute, rule: Rule, holds: bool): (errors: seq<FieldError>) {
    if holds then [] else [FieldError(attribute, rule)]
  }

  /** The value the customer-name rules accept. */
  predicate NameAccepted(v: Option<InputValue>) {
    && v.Some? && v.value.Text?
    && !IsBlank(v.value.text)
    && NameMinLength <= |v.value.text| <= NameMaxLength
    && MatchesNamePattern(v.value.text)
  }

  /** The value the amount rules accept. */
  predicate AmountAccepted(v: Option<InputValue>, toNumber: string -> Option<real>) {
    && v.Some? && v.value.Text?
    && !IsBlank(v.value.text)
    && toNumber(v.value.text).Some?
    && toNumber(v.value.text).value >= AmountMin as real
  }

  /**
   * The errors of `customer_name`, in rule order. A failed `required` stops the
   * attribute's validation; otherwise every failing rule reports.
   */
  function NameErrors(v: Option<InputValue>): (errors: seq<FieldError>)
    ensures errors == [] <==> NameAccepted(v)
    ensures FieldError(CustomerName, Regex) in errors
        <==> PassesRequired(v) && !(v.value.Text? && MatchesNamePattern(v.value.text))
    ensures forall e | e in errors :: e.attribute == CustomerName
  {
    if !PassesRequired(v) then [FieldError(CustomerName, Required)]
    else
      var x := v.value;
      Check(CustomerName, IsString, x.Text?)
      + Check(CustomerName, Min(NameMinLength), Size(x, false, _ => None) >= NameMinLength as real)
      + Check(CustomerName, Max(NameMaxLength), Size(x, false, _ => None) <= NameMaxLength as real)
      + Check(CustomerName, Regex, x.Text? && MatchesNamePattern(x.text))
  }

  /** The errors of `amount`, in rule order, with the same stopping rule. */
  function AmountErrors(v: Option<InputValue>, toNumber: string -> Option<real>): (errors: seq<FieldError>)
    ensures errors == [] <==> AmountAccepted(v, toNumber)
    ensures FieldError(Amount, Numeric) in errors
        <==> PassesRequired(v) && !(v.value.Text? && toNumber(v.value.text).Some?)
    ensures forall e | e in errors :: e.attribute == Amount
  {
    if !PassesRequired(v) then [FieldError(Amount, Required)]
    else
      var x := v.value;
      Check(Amount, Numeric, x.Text? && toNumber(x.text).Some?)
      + Check(Amount, Min(AmountMin), Size(x, true, toNumber) >= AmountMin as real)
  }

  /** `$request->validate(...)`: the raw field values when every rule holds, else every error. */
  function Validate(request: Request, toNumber: string -> Option<real>): (r: Result<ValidInput, seq<FieldError>>)
    ensures r.Ok? <==> NameAccepted(request.customerName) && AmountAccepted(request.amount, toNumber)
    ensures r.Ok? ==> r.value == ValidInput(request.customerName.value.text, request.amount.value.text)
    ensures r.Err? ==> r.error != []
  {
    var errors := NameErrors(request.customerName) + AmountErrors(request.amount, toNumber);
    if errors == [] then Ok(ValidInput(request.customerName.value.text, request.amount.value.text))
    else Err(errors)
  }

  /** The message for an error: only `customer_name.regex` has a custom one. */
  function MessageFor(e: FieldError): (m: Message)
    ensures m == Custom(NameRegexMessage) <==> e == FieldError(CustomerName, Regex)
    ensures m.Standard? ==> m.attribute == e.attribute && m.rule == e.rule
    ensures e != FieldError(CustomerName, Regex) ==> m == Standard(e.attribute, e.rule)
  {
    if e == FieldError(CustomerName, Regex) then Custom(NameRegexMessage) else Standard(e.attribute, e.rule)
  }

  /**
   * A name holding a character that is neither a letter nor whitespace is rejected; when
   * the name is not blank, the rejection carries the custom letters-and-spaces message.
   */
  lemma NonLetterNameRejected(request: Request, toNumber: string -> Option<real>, i: nat)
    requires request.customerName.Some? && request.customerName.value.Text?
    requires i < |request.customerName.value.text|
    requires !IsAsciiLetter(request.customerName.value.text[i]) && !IsPcreSpace(request.customerName.value.text[i])
    ensures Validate(request, toNumber).Err?
    ensures !IsBlank(request.customerName.value.text) ==>
      exists e | e in Validate(request, toNumber).error :: MessageFor(e) == Custom(NameRegexMessage)
  {
    var errors := NameErrors(request.customerName);
    if !IsBlank(request.customerName.value.text) {
      var e := FieldError(CustomerName, Regex);
      assert e in errors;
      assert e in Validate(request, toNumber).error;
      assert MessageFor(e) == Custom(NameRegexMessage);
    }
  }

  /** A missing amount is rejected by `required`. */
  lemma MissingAmountRejected(request: Request, toNumber: string -> Option<real>)
    requires request.amount.None?
    ensures Validate(request, toNumber).Err?
    ensures FieldError(Amount, Required) in Validate(request, toNumber).error
  {
    assert AmountErrors(request.amount, toNumber) == [FieldError(Amount, Required)];
  }

  /** A non-numeric amount is rejected, by `numeric` unless it is blank (then by `required`). */
  lemma NonNumericAmountRejected(request: Request, toNumber: string -> Option<real>)
    requires request.amount.Some? && request.amount.value.Text?
    requires toNumber(request.amount.value.text).None?
    ensures Validate(request, toNumber).Err?
    ensures var rule := if IsBlank(request.amount.value.text) then Required else Numeric;
      FieldError(Amount, rule) in Validate(request, toNumber).error
  {
    var errors := AmountErrors(request.amount, toNumber);
    if IsBlank(request.amount.value.text) {
      assert errors == [FieldError(Amount, Required)];
    } else {
      assert FieldError(Amount, Numeric) in errors;
    }
  }

  /** A numeric amount below 1 is rejected, by `min:1` unless it is blank. */
  lemma SmallAmountRejected(request: Request, toNumber: string -> Option<real>)
    requires request.amount.Some? && request.amount.value.Text?
    requires toNumber(request.amount.value.text).Some? && toNumber(request.amount.value.text).value < 1.0
    ensures Validate(request, toNumber).Err?
    ensures var rule := if IsBlank(request.amount.value.text) then Required else Min(AmountMin);
      FieldError(Amount, rule) in Validate(request, toNumber).error
  {
    var errors := AmountErrors(request.amount, toNumber);
    if IsBlank(request.amount.value.text) {
      assert errors == [FieldError(Amount, Required)];
    } else {
      assert errors == [FieldError(Amount, Min(AmountMin))];
    }
  }

  /** An amount of exactly 1 satisfies every amount rule: the bound is inclusive. */
  lemma AmountOfOneAccepted(v: Option<InputValue>, toNumber: string -> Option<real>)
    requires v.Some? && v.value.Text? && !IsBlank(v.value.text)
    requires toNumber(v.value.text) == Some(1.0)
    ensures AmountErrors(v, toNumber) == []
  {
  }

  /**
   * The stored name of an accepted request is made of letters and single spaces, keeps
   * the raw name's letters in order, and stays within the 255-character limit.
   */
  lemma AcceptedNameNormalized(request: Request, toNumber: string -> Option<real>)
    requires Validate(request, toNumber).Ok?
    ensures var stored := Normalize(Validate(request, toNumber).value.customerName);
      && LettersAndSpaces(stored) && NoAdjacentSpaces(stored)
      && Letters(stored) == Letters(request.customerName.value.text)
      && |stored| <= NameMaxLength
  {
    NormalizeOfLettersAndWhitespace(request.customerName.value.text);
  }

  /**
   * Validation looks at the raw name, so an accepted name may be shorter than two
   * characters once normalised: " a" passes `min:2` and is stored as "a".
   */
  lemma LeadingSpaceCountsTowardsMinimum(name: string)
    requires name == " a"
    ensures NameAccepted(Some(Text(name))) && |Normalize(name)| == 1
  {
    assert |name| == 2 && name[0] == ' ' && name[1] == 'a';
    assert Normalize(name) == "a" by {
      var lead, word := " ", "a";
      assert name == lead + word;
      assert IsOptionalRun(lead) && IsWord(word);
      NormalizeIndentedWord(lead, word);
    }
    assert !IsBlank(name) by {
      TrimKeepsInnerCharacter(name, 1);
    }
    assert MatchesNamePattern(name);
  }

  /**
   * Two form feeds pass `required` (PHP's `trim` does not strip form feeds) and the
   * regular expression (`\s` matches them), yet the stored name is empty.
   */
  lemma FormFeedNameStoredEmpty(name: string)
    requires name == "\U{0C}\U{0C}"
    ensures NameAccepted(Some(Text(name))) && Normalize(name) == []
  {
    assert |name| == 2 && name[0] == '\U{0C}' && name[1] == '\U{0C}';
    assert IsWhitespaceRun(name);
    NormalizeWhitespaceRun(name);
    assert !IsBlank(name) by {
      TrimKeepsInnerCharacter(name, 0);
    }
  }
}
