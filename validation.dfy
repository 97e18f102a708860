/**
 * The request validator chains and the upload check. A chain runs its rules
 * in order on the request's fields and collects one error per failing rule
 * (no rule stops the chain); `HandleValidationErrors` answers 400 with every
 * collected error, or passes the request on. Sanitizers such as `trim` change
 * the value the later rules of the same chain see. The rules whose code is
 * not visible (`isEmail`, `isMongoId`, `isURL`) are parameters.
 */
module Validation {
  import opened Wrappers
  import opened Text
  import opened Types
  import opened ProductSchema
  import OrderSchema

  /** One rule of a chain, applied to one field: whether it holds, and its message. */
  datatype Check = Check(field: string, ok: bool, message: Message)

  datatype FieldError = FieldError(field: string, message: Message)

  /** Every rule of a chain holds. */
  predicate AllOk(checks: seq<Check>) {
    forall k :: 0 <= k < |checks| ==> checks[k].ok
  }

  /** The errors a chain collects: one per failing rule, in rule order. */
  function Errors(checks: seq<Check>): (r: seq<FieldError>)
    ensures |r| <= |checks|
    ensures r == [] <==> AllOk(checks)
  {
    if checks == [] then []
    else
      var rest := Errors(checks[1..]);
      assert forall k :: 1 <= k < |checks| ==> checks[k] == checks[1..][k - 1];
      if checks[0].ok then rest else [FieldError(checks[0].field, checks[0].message)] + rest
  }

  /** Every failing rule contributes its error, and every error comes from a failing rule. */
  lemma {:induction false} ErrorsListFailures(checks: seq<Check>)
    ensures forall k :: 0 <= k < |checks| && !checks[k].ok ==> FieldError(checks[k].field, checks[k].message) in Errors(checks)
    ensures forall e :: e in Errors(checks) ==>
              exists k :: 0 <= k < |checks| && !checks[k].ok && e == FieldError(checks[k].field, checks[k].message)
  {
    if checks != [] {
      ErrorsListFailures(checks[1..]);
      assert forall k :: 1 <= k < |checks| ==> checks[k] == checks[1..][k - 1];
      forall e | e in Errors(checks)
        ensures exists k :: 0 <= k < |checks| && !checks[k].ok && e == FieldError(checks[k].field, checks[k].message)
      {
        if e in Errors(checks[1..]) {
          var k :| 0 <= k < |checks[1..]| && !checks[1..][k].ok
                   && e == FieldError(checks[1..][k].field, checks[1..][k].message);
          assert checks[k + 1] == checks[1..][k];
        } else {
          assert !checks[0].ok && e == FieldError(checks[0].field, checks[0].message);
        }
      }
    }
  }

  /** The errors keep rule order: those of one chain followed by another are the two lists concatenated. */
  lemma {:induction false} ErrorsAppend(a: seq<Check>, b: seq<Check>)
    ensures Errors(a + b) == Errors(a) + Errors(b)
  {
    if a != [] {
      assert (a + b)[1..] == a[1..] + b;
      ErrorsAppend(a[1..], b);
    } else {
      assert a + b == b;
    }
  }

  datatype Outcome = Next | BadRequest(message: string, errors: seq<FieldError>)

  /** `handleValidationErrors`: 400 with all collected errors when there are any, otherwise `next()`. */
  function HandleValidationErrors(errors: seq<FieldError>): (o: Outcome)
    ensures o.Next? <==> errors == []
    ensures o.BadRequest? ==> o.message == "Validation failed" && o.errors == errors
  {
    if errors == [] then Next else BadRequest("Validation failed", errors)
  }

  /** A chain followed by `handleValidationErrors`. */
  function RunChain(checks: seq<Check>): (o: Outcome)
    ensures o.Next? <==> AllOk(checks)
    ensures o.BadRequest? ==> o.errors == Errors(checks)
  {
    HandleValidationErrors(Errors(checks))
  }

  /** A numeric body or query field: absent, present but not a number, or a number. */
  datatype Num = Absent | NotANumber | Number(value: real)

  predicate IsIntegral(x: real) { x == x.Floor as real }

  /** `isInt({ min, max })`; an absent field is read as the empty string, which is not an integer. */
  predicate IsIntIn(n: Num, lo: int, hi: Option<int>) {
    n.Number? && IsIntegral(n.value) && lo as real <= n.value && (hi.None? || n.value <= hi.value as real)
  }

  /** `isFloat({ min })`. */
  predicate IsFloatAtLeast(n: Num, lo: real) {
    n.Number? && n.value >= lo
  }

  /** `trim()` followed by `isLength({ min, max })`. */
  predicate TrimmedLength(s: string, lo: int, hi: int) {
    lo <= |Trim(s)| <= hi
  }

  /** `/^[a-zA-Z\s]+$/`: one or more characters, each an ASCII letter or whitespace. */
  predicate NameCharsOnly(s: string) {
    s != [] && forall k :: 0 <= k < |s| ==> IsAsciiLetter(s[k]) || IsWhitespace(s[k])
  }

  /** `trim()` followed by `matches(/^[a-zA-Z\s]+$/)`. */
  predicate TrimmedNameChars(name: string) {
    NameCharsOnly(Trim(name))
  }

  /** A name the registration and profile chains accept. */
  predicate ValidName(name: string) {
    TrimmedLength(name, 2, 50) && TrimmedNameChars(name)
  }

  /**
   * A name is accepted iff, after trimming, it has 2 to 50 characters and
   * every one is an ASCII letter or whitespace; the ends are never
   * whitespace.
   */
  lemma ValidNameIff(name: string)
    ensures ValidName(name) <==>
              && 2 <= |Trim(name)| <= 50
              && (forall k :: 0 <= k < |Trim(name)| ==> IsAsciiLetter(Trim(name)[k]) || IsWhitespace(Trim(name)[k]))
    ensures ValidName(name) ==> IsAsciiLetter(Trim(name)[0]) && IsAsciiLetter(Trim(name)[|Trim(name)| - 1])
  {
    TrimIsMaximalSlice(name);
  }

  /**
   * One lookahead `(?=.*C)` at the start of the string: some character of
   * class C occurs with no line terminator before it, since `.` does not
   * match one.
   */
  predicate LookaheadFinds(s: string, cls: char -> bool) {
    exists k :: 0 <= k < |s| && cls(s[k]) && forall j :: 0 <= j < k ==> !IsLineTerminator(s[j])
  }

  /** `/^(?=.*[a-z])(?=.*[A-Z])(?=.*\d)/`. */
  predicate PasswordPattern(s: string) {
    && LookaheadFinds(s, IsAsciiLower)
    && LookaheadFinds(s, IsAsciiUpper)
    && LookaheadFinds(s, IsAsciiDigit)
  }

  /** The password rules of the registration and password-change chains. */
  predicate ValidPassword(p: string) {
    |p| >= 6 && PasswordPattern(p)
  }

  /** The text before the first line terminator. */
  function FirstLine(s: string): (r: string)
    ensures |r| <= |s| && r == s[..|r|]
    ensures forall k :: 0 <= k < |r| ==> !IsLineTerminator(r[k])
    ensures |r| < |s| ==> IsLineTerminator(s[|r|])
  {
    if s == [] || IsLineTerminator(s[0]) then []
    else
      var rest := FirstLine(s[1..]);
      assert s == [s[0]] + s[1..];
      [s[0]] + rest
  }

  /** For a class without line terminators, a lookahead finds one of its characters iff the first line holds one. */
  lemma LookaheadOnFirstLine(s: string, cls: char -> bool)
    requires forall c :: cls(c) ==> !IsLineTerminator(c)
    ensures LookaheadFinds(s, cls) <==> exists k :: 0 <= k < |FirstLine(s)| && cls(FirstLine(s)[k])
  {
    var line := FirstLine(s);
    if LookaheadFinds(s, cls) {
      var k :| 0 <= k < |s| && cls(s[k]) && forall j :: 0 <= j < k ==> !IsLineTerminator(s[j]);
      assert |line| < |s| ==> IsLineTerminator(s[|line|]);
      assert k < |line|;
      assert line[k] == s[k];
      assert cls(line[k]);
      assert exists k :: 0 <= k < |FirstLine(s)| && cls(FirstLine(s)[k]);
    }
    if exists k :: 0 <= k < |line| && cls(line[k]) {
      var k :| 0 <= k < |line| && cls(line[k]);
      assert s[k] == line[k];
      forall j | 0 <= j < k ensures !IsLineTerminator(s[j]) {
        assert s[j] == line[j];
      }
      assert 0 <= k < |s| && cls(s[k]) && forall j :: 0 <= j < k ==> !IsLineTerminator(s[j]);
      assert LookaheadFinds(s, cls);
    }
  }

  /**
   * A password is accepted iff it has at least six characters and its first
   * line (all of it, when it has no line terminator) holds a lower-case
   * letter, an upper-case letter and a digit.
   */
  lemma ValidPasswordIff(p: string)
    ensures ValidPassword(p) <==>
              && |p| >= 6
              && (exists k :: 0 <= k < |FirstLine(p)| && IsAsciiLower(FirstLine(p)[k]))
              && (exists k :: 0 <= k < |FirstLine(p)| && IsAsciiUpper(FirstLine(p)[k]))
              && (exists k :: 0 <= k < |FirstLine(p)| && IsAsciiDigit(FirstLine(p)[k]))
  {
    assert forall c :: IsAsciiLower(c) ==> !IsLineTerminator(c);
    assert forall c :: IsAsciiUpper(c) ==> !IsLineTerminator(c);
    assert forall c :: IsAsciiDigit(c) ==> !IsLineTerminator(c);
    LookaheadOnFirstLine(p, IsAsciiLower);
    LookaheadOnFirstLine(p, IsAsciiUpper);
    LookaheadOnFirstLine(p, IsAsciiDigit);
  }

  /** For a single-line password, the rule is: six characters or more, with a lower, an upper and a digit. */
  lemma SingleLinePasswordIff(p: string)
    requires forall k :: 0 <= k < |p| ==> !IsLineTerminator(p[k])
    ensures ValidPassword(p) <==>
              && |p| >= 6
              && (exists k :: 0 <= k < |p| && IsAsciiLower(p[k]))
              && (exists k :: 0 <= k < |p| && IsAsciiUpper(p[k]))
              && (exists k :: 0 <= k < |p| && IsAsciiDigit(p[k]))
  {
    ValidPasswordIff(p);
    FirstLineOfSingleLine(p);
  }

  lemma {:induction false} FirstLineOfSingleLine(s: string)
    requires forall k :: 0 <= k < |s| ==> !IsLineTerminator(s[k])
    ensures FirstLine(s) == s
  {
    if s != [] {
      assert !IsLineTerminator(s[0]);
      assert forall k :: 0 <= k < |s[1..]| ==> s[1..][k] == s[k + 1];
      FirstLineOfSingleLine(s[1..]);
      assert s == [s[0]] + s[1..];
    }
  }

  /** Characters after a line break do not count: "abcdef\nA1" is refused although it holds all three. */
  lemma SecondLineDoesNotCount()
    ensures !ValidPassword("abcdef\nA1")
  {
    var p := "abcdef\nA1";
    assert IsLineTerminator(p[6]);
    assert forall k :: 0 <= k <= 6 ==> !IsAsciiUpper(p[k]);
    assert !LookaheadFinds(p, IsAsciiUpper);
  }

  /** `/^[0-9]{5,10}$/` after `trim`. */
  predicate ValidZip(zip: string) {
    var z := Trim(zip);
    5 <= |z| <= 10 && forall k :: 0 <= k < |z| ==> IsAsciiDigit(z[k])
  }

  /** The ZIP rule on a string with no surrounding whitespace: five to ten characters, all digits. */
  lemma ZipUnpadded(zip: string)
    requires zip != [] ==> !IsWhitespace(zip[0]) && !IsWhitespace(zip[|zip| - 1])
    ensures ValidZip(zip) <==> 5 <= |zip| <= 10 && forall k :: 0 <= k < |zip| ==> IsAsciiDigit(zip[k])
  {
    assert TrimStart(zip) == zip;
    assert TrimEnd(zip) == zip;
  }

  /** The lower bound: five digits pass, four do not. */
  lemma ZipLowerBound()
    ensures ValidZip("12345") && !ValidZip("1234")
  {
    DigitsZip("12345");
    DigitsZip("1234");
  }

  /** The upper bound: ten digits pass, eleven do not. */
  lemma ZipUpperBound()
    ensures ValidZip("1234567890") && !ValidZip("12345678901")
  {
    DigitsZip("1234567890");
    DigitsZip("12345678901");
  }

  /** On a string of digits only the length decides. */
  lemma DigitsZip(zip: string)
    requires forall k :: 0 <= k < |zip| ==> IsAsciiDigit(zip[k])
    ensures ValidZip(zip) <==> 5 <= |zip| <= 10
  {
    if zip != [] {
      assert IsAsciiDigit(zip[0]) && IsAsciiDigit(zip[|zip| - 1]);
    }
    ZipUnpadded(zip);
  }

  /** A letter among digits is refused. */
  lemma ZipLetterRefused()
    ensures !ValidZip("12a45")
  {
    ZipUnpadded("12a45");
    assert !IsAsciiDigit("12a45"[2]);
  }

  // ----- The messages of the rules -----

  /** The message of each rule, by name; `Wording` gives the text sent to the client. */
  datatype Message =
    | ImagesBlankMessage
    | ImagesMissingMessage
    | BrandFilterMessage
    | BrandMessage
    | CategoryFilterMessage
    | CategoryMessage
    | CityMessage
    | CommentMessage
    | CountryMessage
    | CurrentPasswordMessage
    | IdMessage
    | StatusMessage
    | PaymentMethodMessage
    | ProductIdMessage
    | SortMessage
    | LimitMessage
    | MaxPriceMessage
    | MinPriceMessage
    | NameCharsMessage
    | NameLengthMessage
    | NewPasswordLengthMessage
    | NewPasswordPatternMessage
    | ItemsMessage
    | PageMessage
    | ConfirmMessage
    | PasswordRequiredMessage
    | PasswordLengthMessage
    | PasswordPatternMessage
    | EmailMessage
    | PriceMessage
    | DescriptionMessage
    | ProductNameMessage
    | QuantityMessage
    | RatingMessage
    | SearchMessage
    | StateMessage
    | StockMessage
    | StreetMessage
    | TrackingUrlMessage
    | ZipMessage

  function Wording(m: Message): string {
    match m
      case ImagesBlankMessage => "All images must be valid non-empty strings"
      case ImagesMissingMessage => "At least one image is required"
      case BrandFilterMessage => "Brand must be 1-50 characters"
      case BrandMessage => "Brand must be 2-50 characters"
      case CategoryFilterMessage => "Category must be 1-50 characters"
      case CategoryMessage => "Category must be 2-50 characters"
      case CityMessage => "City must be 2-50 characters"
      case CommentMessage => "Comment must be 5-500 characters"
      case CountryMessage => "Country must be 2-50 characters"
      case CurrentPasswordMessage => "Current password is required"
      case IdMessage => "Invalid ID format"
      case StatusMessage => "Invalid order status"
      case PaymentMethodMessage => "Invalid payment method"
      case ProductIdMessage => "Invalid product ID"
      case SortMessage => "Invalid sort parameter"
      case LimitMessage => "Limit must be between 1 and 100"
      case MaxPriceMessage => "Maximum price must be non-negative"
      case MinPriceMessage => "Minimum price must be non-negative"
      case NameCharsMessage => "Name can only contain letters and spaces"
      case NameLengthMessage => "Name must be 2-50 characters"
      case NewPasswordLengthMessage => "New password must be at least 6 characters"
      case NewPasswordPatternMessage => "New password must contain at least one uppercase letter, one lowercase letter, and one number"
      case ItemsMessage => "Order must contain at least one item"
      case PageMessage => "Page must be a positive integer"
      case ConfirmMessage => "Password confirmation does not match new password"
      case PasswordRequiredMessage => "Password is required"
      case PasswordLengthMessage => "Password must be at least 6 characters"
      case PasswordPatternMessage => "Password must contain at least one uppercase letter, one lowercase letter, and one number"
      case EmailMessage => "Please provide a valid email"
      case PriceMessage => "Price must be a positive number"
      case DescriptionMessage => "Product description must be 10-2000 characters"
      case ProductNameMessage => "Product name must be 2-100 characters"
      case QuantityMessage => "Quantity must be at least 1"
      case RatingMessage => "Rating must be between 1 and 5"
      case SearchMessage => "Search term must be 1-100 characters"
      case StateMessage => "State must be 2-50 characters"
      case StockMessage => "Stock must be a non-negative integer"
      case StreetMessage => "Street address must be 5-100 characters"
      case TrackingUrlMessage => "Tracking URL must be a valid URL"
      case ZipMessage => "ZIP code must be 5-10 digits"
  }

  // ----- validateRegistration, validateLogin, validateProfileUpdate, validatePasswordChange -----

  function RegistrationChecks(name: string, email: string, password: string, isEmail: string -> bool): seq<Check> {
    [ Check("name", TrimmedLength(name, 2, 50), NameLengthMessage),
      Check("name", TrimmedNameChars(name), NameCharsMessage),
      Check("email", isEmail(email), EmailMessage),
      Check("password", |password| >= 6, PasswordLengthMessage),
      Check("password", PasswordPattern(password),
            PasswordPatternMessage) ]
  }

  /** Registration passes iff the name, the email and the password each pass. */
  lemma RegistrationChainIff(name: string, email: string, password: string, isEmail: string -> bool)
    ensures RunChain(RegistrationChecks(name, email, password, isEmail)).Next? <==>
              ValidName(name) && isEmail(email) && ValidPassword(password)
  {
    var c := RegistrationChecks(name, email, password, isEmail);
    assert c[0].ok && c[1].ok && c[2].ok && c[3].ok && c[4].ok <==> AllOk(c);
  }

  function LoginChecks(email: string, password: string, isEmail: string -> bool): seq<Check> {
    [ Check("email", isEmail(email), EmailMessage),
      Check("password", password != "", PasswordRequiredMessage) ]
  }

  lemma LoginChainIff(email: string, password: string, isEmail: string -> bool)
    ensures RunChain(LoginChecks(email, password, isEmail)).Next? <==> isEmail(email) && password != ""
  {
    var c := LoginChecks(email, password, isEmail);
    assert c[0].ok && c[1].ok <==> AllOk(c);
  }

  /** `.optional()`: the chain applies only when the field is present. */
  function Optional(present: bool, checks: seq<Check>): seq<Check> {
    if present then checks else []
  }

  function ProfileUpdateChecks(name: Option<string>, email: Option<string>, isEmail: string -> bool): seq<Check> {
    Optional(name.Some?,
      [ Check("name", TrimmedLength(OrEmpty(name), 2, 50), NameLengthMessage),
        Check("name", TrimmedNameChars(OrEmpty(name)), NameCharsMessage) ])
    + Optional(email.Some?, [Check("email", isEmail(OrEmpty(email)), EmailMessage)])
  }

  /** Each field of a profile update is checked only when sent; an empty update passes. */
  lemma ProfileUpdateChainIff(name: Option<string>, email: Option<string>, isEmail: string -> bool)
    ensures RunChain(ProfileUpdateChecks(name, email, isEmail)).Next? <==>
              (name.Some? ==> ValidName(name.value)) && (email.Some? ==> isEmail(email.value))
  {
    var c := ProfileUpdateChecks(name, email, isEmail);
    if name.Some? && email.Some? {
      assert c[0].ok && c[1].ok && c[2].ok <==> AllOk(c);
    } else if name.Some? {
      assert c[0].ok && c[1].ok <==> AllOk(c);
    } else if email.Some? {
      assert c[0].ok <==> AllOk(c);
    }
  }

  /** `value !== req.body.newPassword` compares the raw values, absent ones included. */
  function PasswordChangeChecks(current: Option<string>, newPassword: Option<string>, confirm: Option<string>)
    : seq<Check>
  {
    [ Check("currentPassword", OrEmpty(current) != "", CurrentPasswordMessage),
      Check("newPassword", |OrEmpty(newPassword)| >= 6, NewPasswordLengthMessage),
      Check("newPassword", PasswordPattern(OrEmpty(newPassword)),
            NewPasswordPatternMessage),
      Check("confirmPassword", confirm == newPassword, ConfirmMessage) ]
  }

  /** A password change passes iff a current password is sent, the new one is valid and the confirmation equals it. */
  lemma PasswordChangeChainIff(current: Option<string>, newPassword: Option<string>, confirm: Option<string>)
    ensures RunChain(PasswordChangeChecks(current, newPassword, confirm)).Next? <==>
              && current.Some? && current.value != ""
              && newPassword.Some? && ValidPassword(newPassword.value)
              && confirm == newPassword
  {
    var c := PasswordChangeChecks(current, newPassword, confirm);
    assert c[0].ok && c[1].ok && c[2].ok && c[3].ok <==> AllOk(c);
  }

  // ----- validateProduct, validateProductUpdate, validateReview -----

  /** A product body as the chains see it; an absent text field reads as the empty string. */
  datatype ProductBody = ProductBody(
    name: string, description: string, price: Num, category: string, brand: string, stock: Num,
    images: Option<seq<string>>)

  /** The custom images rule: an array whose every entry is non-blank. */
  predicate ImagesNonBlank(images: Option<seq<string>>) {
    images.Some? && forall k :: 0 <= k < |images.value| ==> Trim(images.value[k]) != ""
  }

  function ProductChecks(b: ProductBody): seq<Check> {
    [ Check("name", TrimmedLength(b.name, 2, 100), ProductNameMessage),
      Check("description", TrimmedLength(b.description, 10, 2000), DescriptionMessage),
      Check("price", IsFloatAtLeast(b.price, 0.01), PriceMessage),
      Check("category", TrimmedLength(b.category, 2, 50), CategoryMessage),
      Check("brand", TrimmedLength(b.brand, 2, 50), BrandMessage),
      Check("stock", IsIntIn(b.stock, 0, None), StockMessage),
      Check("images", b.images.Some? && |b.images.value| >= 1, ImagesMissingMessage),
      Check("images", ImagesNonBlank(b.images), ImagesBlankMessage) ]
  }

  /**
   * The product chain is stricter than the schema on the fields it names: the
   * product built from a body it accepts, with the trimmed values it writes
   * back, is one the schema accepts exactly when the ratings and reviews it
   * carries (sent ones or the defaults 0/0 and none) are valid; the chain
   * does not look at those.
   */
  lemma ProductChainImpliesSchema(b: ProductBody, id: ProductId, ratings: Ratings, reviews: seq<Review>,
                                  createdAt: Timestamp, updatedAt: Timestamp)
    requires RunChain(ProductChecks(b)).Next?
    ensures b.price.Number? && b.stock.Number? && IsIntegral(b.stock.value) && b.images.Some?
    ensures ValidProduct(Product(id, Trim(b.name), Trim(b.description), b.price.value, Trim(b.category),
                                 Trim(b.brand), b.stock.value.Floor, b.images.value, ratings, reviews,
                                 createdAt, updatedAt))
        <==> ValidRatings(ratings) && forall k :: 0 <= k < |reviews| ==> ValidReview(reviews[k])
  {
    var c := ProductChecks(b);
    assert c[0].ok && c[1].ok && c[2].ok && c[3].ok && c[4].ok && c[5].ok && c[6].ok && c[7].ok;
    var images := b.images.value;
    forall k | 0 <= k < |images| ensures images[k] != "" {
      assert Trim(images[k]) != "";
    }
  }

  /** The update chain: each rule only for a field that is sent. */
  function ProductUpdateChecks(p: ProductPatch): seq<Check> {
    OptionalTrimmedLength("name", p.name, 2, 100, ProductNameMessage)
    + OptionalTrimmedLength("description", p.description, 10, 2000, DescriptionMessage)
    + OptionalAtLeast("price", p.price, 0.01, PriceMessage)
    + OptionalTrimmedLength("category", p.category, 2, 50, CategoryMessage)
    + OptionalTrimmedLength("brand", p.brand, 2, 50, BrandMessage)
    + OptionalIntAtLeast("stock", p.stock, 0, StockMessage)
    + OptionalImages(p.images)
  }

  /** An optional text field with `trim()` and `isLength({ min, max })`. */
  function OptionalTrimmedLength(field: string, value: Option<string>, lo: int, hi: int, m: Message): (r: seq<Check>)
    ensures AllOk(r) <==> (value.Some? ==> TrimmedLength(value.value, lo, hi))
  {
    var r := Optional(value.Some?, [Check(field, TrimmedLength(OrEmpty(value), lo, hi), m)]);
    assert value.Some? ==> (AllOk(r) <==> r[0].ok);
    r
  }

  /** An optional number field with a lower bound. */
  function OptionalAtLeast(field: string, value: Option<real>, lo: real, m: Message): (r: seq<Check>)
    ensures AllOk(r) <==> (value.Some? ==> value.value >= lo)
  {
    var r := Optional(value.Some?, [Check(field, value.Some? && value.value >= lo, m)]);
    assert value.Some? ==> (AllOk(r) <==> r[0].ok);
    r
  }

  /** An optional integer field with a lower bound: the number rule on the integer taken as a number. */
  function OptionalIntAtLeast(field: string, value: Option<int>, lo: int, m: Message): (r: seq<Check>)
    ensures AllOk(r) <==> (value.Some? ==> value.value >= lo)
  {
    OptionalAtLeast(field, if value.Some? then Some(value.value as real) else None, lo as real, m)
  }

  /** The two images rules, applied when images are sent. */
  function OptionalImages(images: Option<seq<string>>): (r: seq<Check>)
    ensures AllOk(r) <==> (images.Some? ==> |images.value| >= 1 && ImagesNonBlank(images))
  {
    var r := Optional(images.Some?,
      [ Check("images", images.Some? && |images.value| >= 1, ImagesMissingMessage),
        Check("images", ImagesNonBlank(images), ImagesBlankMessage) ]);
    assert images.Some? ==> (AllOk(r) <==> r[0].ok && r[1].ok);
    r
  }

  /** The fields of a patch with the values the `trim` sanitizers write back. */
  function Sanitized(p: ProductPatch): ProductPatch {
    p.(name := if p.name.Some? then Some(Trim(p.name.value)) else None,
       description := if p.description.Some? then Some(Trim(p.description.value)) else None,
       category := if p.category.Some? then Some(Trim(p.category.value)) else None,
       brand := if p.brand.Some? then Some(Trim(p.brand.value)) else None)
  }

  lemma AllOkAppend(a: seq<Check>, b: seq<Check>)
    ensures AllOk(a + b) <==> AllOk(a) && AllOk(b)
  {
    if AllOk(a + b) {
      forall k | 0 <= k < |a| ensures a[k].ok {
        assert (a + b)[k] == a[k];
      }
      forall k | 0 <= k < |b| ensures b[k].ok {
        assert (a + b)[|a| + k] == b[k];
      }
    }
  }

  lemma AllOkParts7(a: seq<Check>, b: seq<Check>, c: seq<Check>, d: seq<Check>, e: seq<Check>, f: seq<Check>,
                    g: seq<Check>)
    ensures AllOk(a + b + c + d + e + f + g) <==>
              AllOk(a) && AllOk(b) && AllOk(c) && AllOk(d) && AllOk(e) && AllOk(f) && AllOk(g)
  {
    AllOkAppend(a + b + c + d + e + f, g);
    AllOkAppend(a + b + c + d + e, f);
    AllOkAppend(a + b + c + d, e);
    AllOkAppend(a + b + c, d);
    AllOkAppend(a + b, c);
    AllOkAppend(a, b);
  }

  /**
   * An update the chain accepts, once sanitized, passes the update validators
   * of the fields the chain names; the chain does not look at ratings or
   * reviews, so the schema's verdict then rests on those alone.
   */
  lemma UpdateChainImpliesSchema(p: ProductPatch)
    requires RunChain(ProductUpdateChecks(p)).Next?
    ensures EditedFieldsValid(Sanitized(p))
    ensures PatchValid(Sanitized(p)) <==> StatsValid(p)
  {
    UpdateChainEditedFields(p);
    var q := Sanitized(p);
    assert q.ratings == p.ratings && q.reviews == p.reviews;
  }

  lemma UpdateChainEditedFields(p: ProductPatch)
    requires RunChain(ProductUpdateChecks(p)).Next?
    ensures EditedFieldsValid(Sanitized(p))
  {
    AllOkParts7(OptionalTrimmedLength("name", p.name, 2, 100, ProductNameMessage),
                OptionalTrimmedLength("description", p.description, 10, 2000, DescriptionMessage),
                OptionalAtLeast("price", p.price, 0.01, PriceMessage),
                OptionalTrimmedLength("category", p.category, 2, 50, CategoryMessage),
                OptionalTrimmedLength("brand", p.brand, 2, 50, BrandMessage),
                OptionalIntAtLeast("stock", p.stock, 0, StockMessage),
                OptionalImages(p.images));
    if p.name.Some? { TrimIdempotent(p.name.value); }
    if p.category.Some? { TrimIdempotent(p.category.value); }
    if p.brand.Some? { TrimIdempotent(p.brand.value); }
    if p.images.Some? {
      forall k | 0 <= k < |p.images.value| ensures p.images.value[k] != "" {
        assert Trim(p.images.value[k]) != "";
      }
    }
  }

  function ReviewChecks(rating: Num, comment: string): seq<Check> {
    [ Check("rating", IsIntIn(rating, 1, Some(5)), RatingMessage),
      Check("comment", TrimmedLength(comment, 5, 500), CommentMessage) ]
  }

  /** A review the chain accepts, with its trimmed comment, is one the review schema accepts, with an integral rating. */
  lemma ReviewChainImpliesSchema(rating: Num, comment: string, user: UserId, now: Timestamp)
    requires RunChain(ReviewChecks(rating, comment)).Next?
    ensures rating.Number? && IsIntegral(rating.value)
    ensures ValidReview(Review(user, rating.value, Trim(comment), now))
  {
    var c := ReviewChecks(rating, comment);
    assert c[0].ok && c[1].ok;
  }

  // ----- validateOrder, validateAddress, validateOrderStatus, validateMongoId -----

  /** The address rules, for fields named with `prefix` (`shippingAddress.` or none). */
  function AddressChecks(prefix: string, street: string, city: string, state: string, zip: string, country: string)
    : seq<Check>
  {
    [ Check(prefix + "street", TrimmedLength(street, 5, 100), StreetMessage),
      Check(prefix + "city", TrimmedLength(city, 2, 50), CityMessage),
      Check(prefix + "state", TrimmedLength(state, 2, 50), StateMessage),
      Check(prefix + "zipCode", ValidZip(zip), ZipMessage),
      Check(prefix + "country", TrimmedLength(country, 2, 50), CountryMessage) ]
  }

  predicate AddressAccepted(a: Address) {
    && TrimmedLength(a.street, 5, 100) && TrimmedLength(a.city, 2, 50) && TrimmedLength(a.state, 2, 50)
    && ValidZip(a.zipCode) && TrimmedLength(a.country, 2, 50)
  }

  lemma AddressChainIff(prefix: string, a: Address)
    ensures AllOk(AddressChecks(prefix, a.street, a.city, a.state, a.zipCode, a.country)) <==> AddressAccepted(a)
    ensures RunChain(AddressChecks(prefix, a.street, a.city, a.state, a.zipCode, a.country)).Next? <==> AddressAccepted(a)
  {
    var c := AddressChecks(prefix, a.street, a.city, a.state, a.zipCode, a.country);
    assert c[0].ok && c[1].ok && c[2].ok && c[3].ok && c[4].ok <==> AllOk(c);
  }

  /** An accepted address, with its trimmed values, satisfies the address sub-schema of an order. */
  lemma AcceptedAddressIsComplete(a: Address)
    requires AddressAccepted(a)
    ensures OrderSchema.ValidAddress(Address(Trim(a.street), Trim(a.city), Trim(a.state), Trim(a.zipCode), Trim(a.country)))
  {
  }

  /** One entry of the body's `items`. */
  datatype ItemBody = ItemBody(product: string, quantity: Num)

  /** The path a wildcard rule reports for item `k`: `items[k].<leaf>`. */
  function ItemPath(k: nat, leaf: string): string {
    "items[" + Decimal(k) + "]." + leaf
  }

  /**
   * The `items.*.product` rule on the items from position `first` on: one
   * check per item, in item order, each under the path of its own index.
   */
  function EachProductId(items: seq<ItemBody>, isMongoId: string -> bool, first: nat): (r: seq<Check>)
    ensures |r| == |items|
    ensures forall k :: 0 <= k < |items| ==>
              r[k] == Check(ItemPath(first + k, "product"), isMongoId(items[k].product), ProductIdMessage)
    decreases |items|
  {
    if items == [] then []
    else [Check(ItemPath(first, "product"), isMongoId(items[0].product), ProductIdMessage)]
         + EachProductId(items[1..], isMongoId, first + 1)
  }

  /** The `items.*.quantity` rule, labelled like `EachProductId`. */
  function EachQuantity(items: seq<ItemBody>, first: nat): (r: seq<Check>)
    ensures |r| == |items|
    ensures forall k :: 0 <= k < |items| ==>
              r[k] == Check(ItemPath(first + k, "quantity"), IsIntIn(items[k].quantity, 1, None), QuantityMessage)
    decreases |items|
  {
    if items == [] then []
    else [Check(ItemPath(first, "quantity"), IsIntIn(items[0].quantity, 1, None), QuantityMessage)]
         + EachQuantity(items[1..], first + 1)
  }

  lemma EachProductIdOk(items: seq<ItemBody>, isMongoId: string -> bool)
    ensures AllOk(EachProductId(items, isMongoId, 0)) <==> forall k :: 0 <= k < |items| ==> isMongoId(items[k].product)
  {
    var r := EachProductId(items, isMongoId, 0);
    assert forall k :: 0 <= k < |items| ==> r[k].ok == isMongoId(items[k].product);
  }

  lemma EachQuantityOk(items: seq<ItemBody>)
    ensures AllOk(EachQuantity(items, 0)) <==> forall k :: 0 <= k < |items| ==> IsIntIn(items[k].quantity, 1, None)
  {
    var r := EachQuantity(items, 0);
    assert forall k :: 0 <= k < |items| ==> r[k].ok == IsIntIn(items[k].quantity, 1, None);
  }

  /**
   * `validateOrder`. The wildcard rules on `items.*` run once per entry, all
   * product ids first, then all quantities.
   */
  function OrderChecks(items: Option<seq<ItemBody>>, address: Address, paymentMethod: string, isMongoId: string -> bool)
    : seq<Check>
  {
    var entries := if items.Some? then items.value else [];
    ItemsPresentCheck(items)
    + EachProductId(entries, isMongoId, 0)
    + EachQuantity(entries, 0)
    + AddressChecks("shippingAddress.", address.street, address.city, address.state, address.zipCode, address.country)
    + PaymentMethodCheck(paymentMethod)
  }

  function ItemsPresentCheck(items: Option<seq<ItemBody>>): (r: seq<Check>)
    ensures AllOk(r) <==> items.Some? && |items.value| >= 1
  {
    var r := [Check("items", items.Some? && |items.value| >= 1, ItemsMessage)];
    assert AllOk(r) <==> r[0].ok;
    r
  }

  function PaymentMethodCheck(paymentMethod: string): (r: seq<Check>)
    ensures AllOk(r) <==> ParsePaymentMethod(paymentMethod).Some?
  {
    var r := [Check("paymentMethod", paymentMethod in PaymentMethodNames, PaymentMethodMessage)];
    assert AllOk(r) <==> r[0].ok;
    r
  }

  lemma AllOkParts5(a: seq<Check>, b: seq<Check>, c: seq<Check>, d: seq<Check>, e: seq<Check>)
    ensures AllOk(a + b + c + d + e) <==> AllOk(a) && AllOk(b) && AllOk(c) && AllOk(d) && AllOk(e)
  {
    AllOkAppend(a + b + c + d, e);
    AllOkAppend(a + b + c, d);
    AllOkAppend(a + b, c);
    AllOkAppend(a, b);
  }

  /**
   * An order body passes iff it has at least one item, every product id is
   * well-formed, every quantity is an integer of at least 1, the address is
   * accepted and the payment method is one of the four.
   */
  lemma OrderChainIff(items: Option<seq<ItemBody>>, address: Address, paymentMethod: string, isMongoId: string -> bool)
    ensures RunChain(OrderChecks(items, address, paymentMethod, isMongoId)).Next? <==>
              && items.Some? && |items.value| >= 1
              && (forall k :: 0 <= k < |items.value| ==> isMongoId(items.value[k].product))
              && (forall k :: 0 <= k < |items.value| ==> IsIntIn(items.value[k].quantity, 1, None))
              && AddressAccepted(address)
              && ParsePaymentMethod(paymentMethod).Some?
  {
    var entries := if items.Some? then items.value else [];
    AllOkParts5(ItemsPresentCheck(items), EachProductId(entries, isMongoId, 0), EachQuantity(entries, 0),
                AddressChecks("shippingAddress.", address.street, address.city, address.state, address.zipCode, address.country),
                PaymentMethodCheck(paymentMethod));
    AddressChainIff("shippingAddress.", address);
    EachProductIdOk(entries, isMongoId);
    EachQuantityOk(entries);
  }

  function OrderStatusChecks(status: string, trackingUrl: Option<string>, isURL: string -> bool): seq<Check> {
    [Check("status", status in StatusNames, StatusMessage)]
    + Optional(trackingUrl.Some?, [Check("trackingUrl", isURL(OrEmpty(trackingUrl)), TrackingUrlMessage)])
  }

  /** The status must be one of the five; a tracking URL is checked only when sent. */
  lemma OrderStatusChainIff(status: string, trackingUrl: Option<string>, isURL: string -> bool)
    ensures RunChain(OrderStatusChecks(status, trackingUrl, isURL)).Next? <==>
              ParseStatus(status).Some? && (trackingUrl.Some? ==> isURL(trackingUrl.value))
  {
    var c := OrderStatusChecks(status, trackingUrl, isURL);
    if trackingUrl.Some? {
      assert c[0].ok && c[1].ok <==> AllOk(c);
    } else {
      assert c[0].ok <==> AllOk(c);
    }
  }

  function MongoIdChecks(id: string, isMongoId: string -> bool): seq<Check> {
    [Check("id", isMongoId(id), IdMessage)]
  }

  lemma MongoIdChainIff(id: string, isMongoId: string -> bool)
    ensures RunChain(MongoIdChecks(id, isMongoId)) ==
              if isMongoId(id) then Next else BadRequest("Validation failed", [FieldError("id", IdMessage)])
  {
  }

  // ----- validatePagination, validateProductQuery -----

  function PaginationChecks(page: Num, limit: Num): seq<Check> {
    Optional(!page.Absent?, [Check("page", IsIntIn(page, 1, None), PageMessage)])
    + Optional(!limit.Absent?, [Check("limit", IsIntIn(limit, 1, Some(100)), LimitMessage)])
  }

  /** Absent page and limit pass; a sent page is an integer of at least 1 and a sent limit an integer in 1..100. */
  lemma PaginationChainIff(page: Num, limit: Num)
    ensures RunChain(PaginationChecks(page, limit)).Next? <==>
              (page.Absent? || IsIntIn(page, 1, None)) && (limit.Absent? || IsIntIn(limit, 1, Some(100)))
  {
    var c := PaginationChecks(page, limit);
    if !page.Absent? && !limit.Absent? {
      assert c[0].ok && c[1].ok <==> AllOk(c);
    } else if !page.Absent? || !limit.Absent? {
      assert c[0].ok <==> AllOk(c);
    }
  }

  const SortKeys: seq<string> :=
    ["price", "-price", "name", "-name", "createdAt", "-createdAt", "ratings.average", "-ratings.average"]

  function ProductQueryChecks(
    category: Option<string>, brand: Option<string>, search: Option<string>,
    minPrice: Num, maxPrice: Num, sort: Option<string>): seq<Check>
  {
    OptionalTrimmedLength("category", category, 1, 50, CategoryFilterMessage)
    + OptionalTrimmedLength("brand", brand, 1, 50, BrandFilterMessage)
    + OptionalTrimmedLength("search", search, 1, 100, SearchMessage)
    + Optional(!minPrice.Absent?, [Check("minPrice", IsFloatAtLeast(minPrice, 0.0), MinPriceMessage)])
    + Optional(!maxPrice.Absent?, [Check("maxPrice", IsFloatAtLeast(maxPrice, 0.0), MaxPriceMessage)])
    + Optional(sort.Some?, [Check("sort", OrEmpty(sort) in SortKeys, SortMessage)])
  }

  /** A blank filter is refused rather than ignored: a category of spaces fails the length rule after trimming. */
  lemma BlankCategoryRefused()
    ensures RunChain(ProductQueryChecks(Some("  "), None, None, Absent, Absent, None)).BadRequest?
  {
    assert "  "[1..] == " " && " "[1..] == "";
    assert TrimStart("  ") == "";
    assert Trim("  ") == "";
  }

  /** With no query field sent, the query chain passes. */
  lemma EmptyQueryPasses()
    ensures RunChain(ProductQueryChecks(None, None, None, Absent, Absent, None)).Next?
  {
  }

  // ----- validateFileUpload -----

  datatype UploadedFile = UploadedFile(fieldname: string, mimetype: string, size: int)

  /** `req.files`: a plain list, or lists grouped by form field. */
  datatype FilesField = FileList(files: seq<UploadedFile>) | FieldGroups(groups: seq<seq<UploadedFile>>)

  const AllowedTypes: seq<string> := ["image/jpeg", "image/jpg", "image/png", "image/webp"]
  const MaxSize: int := 5 * 1024 * 1024

  datatype UploadOutcome = UploadNext | UploadRejected(message: string)

  const NoFileMessage := "No file uploaded"
  const TypeMessage := "Invalid file type. Only JPEG, JPG, PNG, and WebP are allowed"
  const SizeMessage := "File size too large. Maximum size is 5MB"

  /** `Object.values(groups).flat()`. */
  function Flatten(groups: seq<seq<UploadedFile>>): (r: seq<UploadedFile>)
    ensures forall f :: f in r <==> exists g :: 0 <= g < |groups| && f in groups[g]
  {
    if groups == [] then []
    else
      var rest := Flatten(groups[1..]);
      assert forall g :: 1 <= g < |groups| ==> groups[g] == groups[1..][g - 1];
      groups[0] + rest
  }

  /** Flattening keeps the groups' order: the files of an earlier group come first. */
  lemma {:induction false} FlattenAppend(a: seq<seq<UploadedFile>>, b: seq<seq<UploadedFile>>)
    ensures Flatten(a + b) == Flatten(a) + Flatten(b)
  {
    if a == [] {
      assert a + b == b;
    } else {
      assert (a + b)[0] == a[0] && (a + b)[1..] == a[1..] + b;
      FlattenAppend(a[1..], b);
    }
  }

  /** A single group flattens to itself, in its own order. */
  lemma FlattenSingle(g: seq<UploadedFile>)
    ensures Flatten([g]) == g
  {
    assert [g][1..] == [];
  }

  /** The files to check: the single `file` when there is one, otherwise everything in `files`. */
  function CollectFiles(file: Option<UploadedFile>, files: Option<FilesField>): seq<UploadedFile> {
    if file.Some? then [file.value]
    else if files.None? then []
    else match files.value
      case FileList(fs) => fs
      case FieldGroups(gs) => Flatten(gs)
  }

  /** What is wrong with one file, if anything: the type is checked before the size. */
  function FileProblem(f: UploadedFile): (r: Option<string>)
    ensures r.None? <==> f.mimetype in AllowedTypes && f.size <= MaxSize
    ensures f.mimetype !in AllowedTypes ==> r == Some(TypeMessage)
  {
    if f.mimetype !in AllowedTypes then Some(TypeMessage)
    else if f.size > MaxSize then Some(SizeMessage)
    else None
  }

  /** The loop's verdict on a list of files: the first file with a problem decides. */
  function FirstProblem(fs: seq<UploadedFile>): UploadOutcome {
    if fs == [] then UploadNext
    else if FileProblem(fs[0]).Some? then UploadRejected(FileProblem(fs[0]).value)
    else FirstProblem(fs[1..])
  }

  /** The whole middleware as a function of the request. */
  function UploadVerdict(file: Option<UploadedFile>, files: Option<FilesField>): UploadOutcome {
    if file.None? && files.None? then UploadRejected(NoFileMessage)
    else FirstProblem(CollectFiles(file, files))
  }

  /** `validateFileUpload`: build the list, then check each file with early returns. */
  method ValidateFileUpload(file: Option<UploadedFile>, files: Option<FilesField>) returns (o: UploadOutcome)
    ensures o == UploadVerdict(file, files)
  {
    if file.None? && files.None? {
      return UploadRejected(NoFileMessage);
    }
    var list: seq<UploadedFile> := [];
    if file.Some? {
      list := [file.value];
    } else if files.Some? {
      match files.value {
        case FileList(fs) => list := fs;
        case FieldGroups(gs) => list := Flatten(gs);
      }
    }
    var i := 0;
    while i < |list|
      invariant 0 <= i <= |list|
      invariant FirstProblem(list) == FirstProblem(list[i..])
    {
      var f := list[i];
      assert list[i..][0] == f && list[i..][1..] == list[i + 1..];
      if f.mimetype !in AllowedTypes {
        return UploadRejected(TypeMessage);
      }
      if f.size > MaxSize {
        return UploadRejected(SizeMessage);
      }
      i := i + 1;
    }
    return UploadNext;
  }

  lemma {:induction false} FirstProblemIff(fs: seq<UploadedFile>)
    ensures FirstProblem(fs).UploadNext? <==> forall k :: 0 <= k < |fs| ==> FileProblem(fs[k]).None?
    ensures FirstProblem(fs).UploadRejected? ==>
              exists k :: 0 <= k < |fs| && (forall j :: 0 <= j < k ==> FileProblem(fs[j]).None?)
                          && FileProblem(fs[k]).Some? && FirstProblem(fs) == UploadRejected(FileProblem(fs[k]).value)
  {
    if fs != [] {
      FirstProblemIff(fs[1..]);
      assert forall k :: 1 <= k < |fs| ==> fs[k] == fs[1..][k - 1];
      if FileProblem(fs[0]).None? && FirstProblem(fs[1..]).UploadRejected? {
        var k :| 0 <= k < |fs[1..]| && (forall j :: 0 <= j < k ==> FileProblem(fs[1..][j]).None?)
                 && FileProblem(fs[1..][k]).Some? && FirstProblem(fs[1..]) == UploadRejected(FileProblem(fs[1..][k]).value);
        assert forall j :: 0 <= j < k + 1 ==> FileProblem(fs[j]).None?;
        assert fs[k + 1] == fs[1..][k];
      }
    }
  }

  /**
   * The upload passes iff some file was sent and every collected file has an
   * allowed type and at most 5 MiB; otherwise the first bad file, in order,
   * decides the message.
   */
  lemma UploadVerdictIff(file: Option<UploadedFile>, files: Option<FilesField>)
    ensures UploadVerdict(file, files).UploadNext? <==>
              && (file.Some? || files.Some?)
              && forall f :: f in CollectFiles(file, files) ==> f.mimetype in AllowedTypes && f.size <= MaxSize
    ensures file.None? && files.None? ==> UploadVerdict(file, files) == UploadRejected(NoFileMessage)
    ensures (file.Some? || files.Some?) && UploadVerdict(file, files).UploadRejected? ==>
              var fs := CollectFiles(file, files);
              exists k :: 0 <= k < |fs| && (forall j :: 0 <= j < k ==> FileProblem(fs[j]).None?)
                          && FileProblem(fs[k]).Some? && UploadVerdict(file, files) == UploadRejected(FileProblem(fs[k]).value)
  {
    FirstProblemIff(CollectFiles(file, files));
  }

  /** A single `file` takes precedence: whatever `files` holds, only it is checked. */
  lemma SingleFileTakesPrecedence(f: UploadedFile, files1: Option<FilesField>, files2: Option<FilesField>)
    ensures UploadVerdict(Some(f), files1) == UploadVerdict(Some(f), files2)
    ensures UploadVerdict(Some(f), files1) == (if FileProblem(f).None? then UploadNext else UploadRejected(FileProblem(f).value))
  {
    assert [f][1..] == [];
    assert FirstProblem([]) == UploadNext;
  }

  /** A wrong type is reported even when the file is also too large; exactly 5 MiB passes. */
  lemma UploadBoundaries()
    ensures UploadVerdict(Some(UploadedFile("f", "image/gif", MaxSize + 1)), None) == UploadRejected(TypeMessage)
    ensures UploadVerdict(Some(UploadedFile("f", "image/png", MaxSize)), None) == UploadNext
    ensures UploadVerdict(Some(UploadedFile("f", "image/png", MaxSize + 1)), None) == UploadRejected(SizeMessage)
  {
  }

  /** An empty list of files is truthy, so it passes with nothing checked. */
  lemma EmptyFileListPasses()
    ensures UploadVerdict(None, Some(FileList([]))) == UploadNext
    ensures UploadVerdict(None, Some(FieldGroups([]))) == UploadNext
  {
  }
}
