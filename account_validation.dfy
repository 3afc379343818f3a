/**
 * Validation of the account-update and password-change forms: the rule lists, and the
 * middlewares that either re-render the update view with the errors or pass the
 * request on.
 */
module AccountValidation {
  import opened Wrappers
  import opened Text
  import opened Js
  import opened Chains
  import opened Http

  const FirstNameRequired := "Please provide a first name."
  const LastNameRequired := "Please provide a last name."
  const EmailInvalid := "A valid email is required."
  const EmailExists := "Email exists. Please use a different email."
  const PasswordTooShort := "Password does not meet requirements."
  const PasswordTooWeak := "Password must meet complexity requirements."

  // ----- the account-update rules -----

  /** The outcome of the custom e-mail validator: the message it fails with, if any, and
      whether it asked the store whether the address is taken. */
  datatype EmailCheck = EmailCheck(failure: Option<string>, lookedUp: bool)

  /** The custom validator on the normalized e-mail. It loads the account named by the
      body's `account_id` (`accountById`); reading the stored address of a missing
      account throws, and the validator fails with that error's message. Only an address
      that differs from the stored one is looked up (`emailExists`), and it fails when
      the store already has it. */
  function CheckEmailUnchanged(email: string, accountId: Value, accountById: Value -> Value,
                               emailExists: string -> bool): (r: EmailCheck)
    ensures r.failure == Some(EmailExists) ==> r.lookedUp && emailExists(email)
  {
    match Get(accountById(accountId), "account_email")
    case Err(e) => EmailCheck(Some(e.message), false)
    case Ok(stored) =>
      if stored != Str(email) then
        EmailCheck(if emailExists(email) then Some(EmailExists) else None, true)
      else EmailCheck(None, false)
  }

  /** Keeping one's own address never reaches the store and never fails. */
  lemma UnchangedEmailNotLookedUp(email: string, accountId: Value, accountById: Value -> Value,
                                  emailExists: string -> bool)
    requires accountById(accountId).Obj?
    requires Get(accountById(accountId), "account_email") == Ok(Str(email))
    ensures CheckEmailUnchanged(email, accountId, accountById, emailExists) == EmailCheck(None, false)
  {
  }

  /** A changed address is looked up, and rejected exactly when the store has it; a
      missing account makes the validator fail with the property-read error. */
  lemma ChangedEmailLookedUp(email: string, accountId: Value, accountById: Value -> Value,
                             emailExists: string -> bool)
    ensures var account := accountById(accountId);
            var r := CheckEmailUnchanged(email, accountId, accountById, emailExists);
            && (account.Obj? && Get(account, "account_email") != Ok(Str(email)) ==>
                  r.lookedUp && (r.failure == Some(EmailExists) <==> emailExists(email)))
            && (account == Undefined || account == Null ==>
                  !r.lookedUp && r.failure.Some? && r.failure != Some(EmailExists))
  {
    var account := accountById(accountId);
    if account == Undefined || account == Null {
      assert |Get(account, "account_email").error.message| != |EmailExists|;
    }
  }

  /** The custom validator's failures are its own: it never reports the format message. */
  lemma CustomNeverInvalid(email: string, accountId: Value, accountById: Value -> Value,
                           emailExists: string -> bool)
    ensures CheckEmailUnchanged(email, accountId, accountById, emailExists).failure != Some(EmailInvalid)
  {
    var account := accountById(accountId);
    if Get(account, "account_email").Err? {
      assert |Get(account, "account_email").error.message| != |EmailInvalid|;
    }
  }

  /** The fixed validators of `updateRules()`, in order: the field each reads and the
      message it reports. The custom e-mail validator follows them. */
  const UpdateSlots := [("account_firstname", FirstNameRequired), ("account_lastname", LastNameRequired),
                        ("account_email", EmailInvalid)]

  /** The result of `updateRules()`: the sanitized body, the errors, and whether the
      e-mail store was consulted. */
  datatype UpdateValidation = UpdateValidation(validated: Validated, emailLookedUp: bool)

  /** The fields whose chains begin with `trim()`. */
  const UpdateTrimmed := ["account_firstname", "account_lastname", "account_email"]

  lemma UpdateTrimmedNames()
    ensures "account_firstname" in UpdateTrimmed && "account_lastname" in UpdateTrimmed
            && "account_email" in UpdateTrimmed
  {
    assert UpdateTrimmed[0] == "account_firstname" && UpdateTrimmed[1] == "account_lastname"
           && UpdateTrimmed[2] == "account_email";
  }

  /** The body after the e-mail chain's `normalizeEmail()`: the normalized address replaces
      a submitted one. */
  function NormalizedEmailBody(fields: map<string, string>, normalizeEmail: string -> string): (r: map<string, string>)
    ensures forall k :: k in r <==> k in fields
    ensures "account_email" in fields ==> r["account_email"] == normalizeEmail(fields["account_email"])
    ensures forall k :: k in fields && k != "account_email" ==> r[k] == fields[k]
  {
    if "account_email" in fields then fields["account_email" := normalizeEmail(fields["account_email"])] else fields
  }

  /** Whether the fixed validators of `updateRules()` pass on the trimmed fields: the first
      name has a character, the last name two, and the address is an e-mail address. */
  function UpdateOutcomes(fields: map<string, string>, isEmail: string -> bool): (r: seq<bool>)
    ensures |r| == |UpdateSlots|
  {
    [LengthAtLeast(FieldText(fields, "account_firstname"), 1),
     LengthAtLeast(FieldText(fields, "account_lastname"), 2),
     isEmail(FieldText(fields, "account_email"))]
  }

  /** The custom validator run on the trimmed, normalized address. */
  function EmailCheckOf(fields: map<string, string>, normalizeEmail: string -> string,
                        accountById: Value -> Value, emailExists: string -> bool): EmailCheck
  {
    CheckEmailUnchanged(normalizeEmail(FieldText(fields, "account_email")), BodyValue(fields, "account_id"),
                        accountById, emailExists)
  }

  /** `updateRules()`: trim the names and require one and two characters; trim the
      address, require it to be an e-mail address (`isEmail`), normalize it
      (`normalizeEmail`) and run the custom validator on the normalized text. */
  function UpdateRules(body: map<string, string>, isEmail: string -> bool, normalizeEmail: string -> string,
                       accountById: Value -> Value, emailExists: string -> bool): (r: UpdateValidation)
    ensures |r.validated.errors| <= 4
  {
    var fields := TrimmedFields(body, UpdateTrimmed);
    var custom := EmailCheckOf(fields, normalizeEmail, accountById, emailExists);
    UpdateValidation(
      Validated(NormalizedEmailBody(fields, normalizeEmail),
                Run(Table(UpdateSlots, UpdateOutcomes(fields, isEmail)))
                + Check(custom.failure.None?, "account_email", custom.failure.GetOr(""))),
      custom.lookedUp)
  }

  /** What the fixed validators report, whatever their outcomes: each slot's message
      exactly when it failed. */
  lemma UpdateSlotsReport(outcomes: seq<bool>)
    requires |outcomes| == |UpdateSlots|
    ensures var errors := Run(Table(UpdateSlots, outcomes));
            && (FieldError("account_firstname", FirstNameRequired) in errors <==> !outcomes[0])
            && (FieldError("account_lastname", LastNameRequired) in errors <==> !outcomes[1])
            && (FieldError("account_email", EmailInvalid) in errors <==> !outcomes[2])
  {
    assert Distinct(UpdateSlots);
    TableReports(UpdateSlots, outcomes, 0, "account_firstname", FirstNameRequired);
    TableReports(UpdateSlots, outcomes, 1, "account_lastname", LastNameRequired);
    TableReports(UpdateSlots, outcomes, 2, "account_email", EmailInvalid);
  }

  /** The fixed validators never report the custom validator's message. */
  lemma UpdateSlotsSilent(outcomes: seq<bool>)
    requires |outcomes| == |UpdateSlots|
    ensures FieldError("account_email", EmailExists) !in Run(Table(UpdateSlots, outcomes))
  {
    assert EmailInvalid != EmailExists by {
      assert |EmailInvalid| != |EmailExists|;
    }
    RunReports(Table(UpdateSlots, outcomes), "account_email", EmailExists);
  }

  /** The fixed validators report nothing exactly when all of them passed. */
  lemma UpdateSlotsPass(outcomes: seq<bool>)
    requires |outcomes| == |UpdateSlots|
    ensures Run(Table(UpdateSlots, outcomes)) == [] <==> outcomes[0] && outcomes[1] && outcomes[2]
  {
    assert |outcomes| == 3;
    TableEmpty(UpdateSlots, outcomes);
    assert (forall i :: 0 <= i < 3 ==> outcomes[i]) <==> outcomes[0] && outcomes[1] && outcomes[2];
  }

  /** The first-name message is reported exactly when the trimmed first name is empty. */
  lemma UpdateFirstNameMeaning(body: map<string, string>, isEmail: string -> bool, normalizeEmail: string -> string,
                               accountById: Value -> Value, emailExists: string -> bool)
    ensures var r := UpdateRules(body, isEmail, normalizeEmail, accountById, emailExists);
            Reported(r.validated, "account_firstname", FirstNameRequired) <==> ValidatorLength(FieldText(r.validated.body, "account_firstname")) < 1
  {
    var fields := TrimmedFields(body, UpdateTrimmed);
    var custom := EmailCheckOf(fields, normalizeEmail, accountById, emailExists);
    var c := Check(custom.failure.None?, "account_email", custom.failure.GetOr(""));
    assert forall e :: e in c ==> e.path == "account_email";
    UpdateSlotsReport(UpdateOutcomes(fields, isEmail));
  }

  /** The last-name message is reported exactly when the trimmed last name is shorter than
      two characters. */
  lemma UpdateLastNameMeaning(body: map<string, string>, isEmail: string -> bool, normalizeEmail: string -> string,
                              accountById: Value -> Value, emailExists: string -> bool)
    ensures var r := UpdateRules(body, isEmail, normalizeEmail, accountById, emailExists);
            Reported(r.validated, "account_lastname", LastNameRequired) <==> ValidatorLength(FieldText(r.validated.body, "account_lastname")) < 2
  {
    var fields := TrimmedFields(body, UpdateTrimmed);
    var custom := EmailCheckOf(fields, normalizeEmail, accountById, emailExists);
    var c := Check(custom.failure.None?, "account_email", custom.failure.GetOr(""));
    assert forall e :: e in c ==> e.path == "account_email";
    UpdateSlotsReport(UpdateOutcomes(fields, isEmail));
  }

  /** The address is reported invalid exactly when `isEmail` rejects the trimmed text. */
  lemma UpdateEmailInvalidMeaning(body: map<string, string>, isEmail: string -> bool, normalizeEmail: string -> string,
                                  accountById: Value -> Value, emailExists: string -> bool)
    ensures var r := UpdateRules(body, isEmail, normalizeEmail, accountById, emailExists);
            Reported(r.validated, "account_email", EmailInvalid) <==> !isEmail(FieldText(TrimmedFields(body, UpdateTrimmed), "account_email"))
  {
    var fields := TrimmedFields(body, UpdateTrimmed);
    var custom := EmailCheckOf(fields, normalizeEmail, accountById, emailExists);
    UpdateSlotsReport(UpdateOutcomes(fields, isEmail));
    CustomNeverInvalid(normalizeEmail(FieldText(fields, "account_email")), BodyValue(fields, "account_id"),
                       accountById, emailExists);
  }

  /** The address is reported as already registered exactly when the custom validator
      found it in use. */
  lemma UpdateEmailExistsMeaning(body: map<string, string>, isEmail: string -> bool, normalizeEmail: string -> string,
                                 accountById: Value -> Value, emailExists: string -> bool)
    ensures var r := UpdateRules(body, isEmail, normalizeEmail, accountById, emailExists);
            var custom := EmailCheckOf(TrimmedFields(body, UpdateTrimmed), normalizeEmail, accountById, emailExists);
            Reported(r.validated, "account_email", EmailExists) <==> custom.failure == Some(EmailExists)
  {
    UpdateSlotsSilent(UpdateOutcomes(TrimmedFields(body, UpdateTrimmed), isEmail));
  }

  /** No error is reported exactly when every validator passed; the lookup flag is the
      custom validator's own. */
  lemma UpdateRulesPass(body: map<string, string>, isEmail: string -> bool, normalizeEmail: string -> string,
                        accountById: Value -> Value, emailExists: string -> bool)
    ensures var r := UpdateRules(body, isEmail, normalizeEmail, accountById, emailExists);
            var fields := TrimmedFields(body, UpdateTrimmed);
            var custom := EmailCheckOf(fields, normalizeEmail, accountById, emailExists);
            && (r.validated.errors == [] <==>
                  (ValidatorLength(FieldText(fields, "account_firstname")) >= 1 && ValidatorLength(FieldText(fields, "account_lastname")) >= 2
                   && isEmail(FieldText(fields, "account_email")) && custom.failure.None?))
            && r.emailLookedUp == custom.lookedUp
  {
    UpdateSlotsPass(UpdateOutcomes(TrimmedFields(body, UpdateTrimmed), isEmail));
  }

  /** The store's address check runs exactly when the stored address of the account
      named by the submitted `account_id` (which is not trimmed) can be read and differs
      from the normalized address submitted. */
  lemma UpdateEmailLookupMeaning(body: map<string, string>, isEmail: string -> bool, normalizeEmail: string -> string,
                                 accountById: Value -> Value, emailExists: string -> bool)
    ensures var r := UpdateRules(body, isEmail, normalizeEmail, accountById, emailExists);
            var email := normalizeEmail(FieldText(TrimmedFields(body, UpdateTrimmed), "account_email"));
            var stored := Get(accountById(BodyValue(body, "account_id")), "account_email");
            r.emailLookedUp <==> stored.Ok? && stored.value != Str(email)
  {
    var fields := TrimmedFields(body, UpdateTrimmed);
    assert "account_id" !in UpdateTrimmed;
    assert BodyValue(fields, "account_id") == BodyValue(body, "account_id");
  }

  /** The validators read the trimmed text of each field, "" for an absent one; the body
      afterwards holds the trimmed names and the normalized address, all three present
      whether or not they were submitted. */
  lemma UpdateRulesSanitize(body: map<string, string>, isEmail: string -> bool, normalizeEmail: string -> string,
                            accountById: Value -> Value, emailExists: string -> bool)
    ensures var fields := TrimmedFields(body, UpdateTrimmed);
            && FieldText(fields, "account_firstname") == Trim(FieldText(body, "account_firstname"))
            && FieldText(fields, "account_lastname") == Trim(FieldText(body, "account_lastname"))
            && FieldText(fields, "account_email") == Trim(FieldText(body, "account_email"))
    ensures var r := UpdateRules(body, isEmail, normalizeEmail, accountById, emailExists);
            && (forall k :: k in r.validated.body <==> k in body || k in UpdateTrimmed)
            && (forall k :: k in body && k !in UpdateTrimmed ==> r.validated.body[k] == body[k])
            && FieldText(r.validated.body, "account_firstname") == Trim(FieldText(body, "account_firstname"))
            && FieldText(r.validated.body, "account_lastname") == Trim(FieldText(body, "account_lastname"))
            && FieldText(r.validated.body, "account_email") == normalizeEmail(Trim(FieldText(body, "account_email")))
  {
    TrimmedFieldText(body, UpdateTrimmed, "account_firstname");
    TrimmedFieldText(body, UpdateTrimmed, "account_lastname");
    TrimmedFieldText(body, UpdateTrimmed, "account_email");
  }

  // ----- the password rules -----

  /** The character classes the password pattern looks ahead for. */
  datatype CharClass = Digit | Lower | Upper | Special | Space

  predicate InClass(c: char, cls: CharClass)
  {
    match cls
    case Digit => IsDigit(c)
    case Lower => 'a' <= c <= 'z'
    case Upper => 'A' <= c <= 'Z'
    case Special => !IsDigit(c) && !('a' <= c <= 'z') && !('A' <= c <= 'Z') && !IsWhitespace(c)
    case Space => IsWhitespace(c)
  }

  /** The lookahead `(?=.*X)` at the start of `s`: `.` (any character but a line
      terminator) repeated, then a character of class X. */
  predicate LooksAhead(s: string, cls: CharClass)
    decreases |s|
  {
    s != [] && (InClass(s[0], cls) || (!IsLineTerminator(s[0]) && LooksAhead(s[1..], cls)))
  }

  /** No line terminator occurs, so `.` matches every character. */
  predicate SingleLine(s: string)
  {
    forall i :: 0 <= i < |s| ==> !IsLineTerminator(s[i])
  }

  /** `^(?=.*\d)(?=.*[a-z])(?=.*[A-Z])(?=.*[^a-zA-Z0-9\s])(?!.*\s).{12,}$`. The pattern has
      no `u` flag, so `.` walks UTF-16 code units: `.{12,}` asks for twelve code units, and
      a character beyond U+FFFF is two of them, each matching `[^a-zA-Z0-9\s]`. */
  predicate MatchesStrongPassword(s: string)
  {
    LooksAhead(s, Digit) && LooksAhead(s, Lower) && LooksAhead(s, Upper) && LooksAhead(s, Special)
    && !LooksAhead(s, Space) && Utf16Length(s) >= 12 && SingleLine(s)
  }

  /** On a single line, the lookahead finds exactly the characters of the class. */
  lemma {:induction false} LooksAheadOnOneLine(s: string, cls: CharClass)
    requires SingleLine(s)
    ensures LooksAhead(s, cls) <==> exists i :: 0 <= i < |s| && InClass(s[i], cls)
  {
    if s != [] {
      assert SingleLine(s[1..]);
      LooksAheadOnOneLine(s[1..], cls);
      if exists i :: 0 <= i < |s| && InClass(s[i], cls) {
        var i :| 0 <= i < |s| && InClass(s[i], cls);
        if i > 0 {
          assert InClass(s[1..][i - 1], cls);
        }
      }
      if LooksAhead(s[1..], cls) {
        var i :| 0 <= i < |s[1..]| && InClass(s[1..][i], cls);
        assert InClass(s[i + 1], cls);
      }
    }
  }

  /** The pattern accepts exactly the passwords of at least twelve UTF-16 code units
      without whitespace that hold a digit, a lower-case letter, an upper-case letter and
      a character that is none of those. */
  lemma StrongPasswordShape(s: string)
    ensures MatchesStrongPassword(s) <==>
            Utf16Length(s) >= 12 && NoWhitespace(s)
            && (exists i :: 0 <= i < |s| && IsDigit(s[i]))
            && (exists i :: 0 <= i < |s| && 'a' <= s[i] <= 'z')
            && (exists i :: 0 <= i < |s| && 'A' <= s[i] <= 'Z')
            && (exists i :: 0 <= i < |s| && InClass(s[i], Special))
  {
    if NoWhitespace(s) {
      forall i | 0 <= i < |s| ensures !IsLineTerminator(s[i]) {
        if IsLineTerminator(s[i]) {
          LineTerminatorIsWhitespace(s[i]);
        }
      }
    }
    if SingleLine(s) {
      LooksAheadOnOneLine(s, Digit);
      LooksAheadOnOneLine(s, Lower);
      LooksAheadOnOneLine(s, Upper);
      LooksAheadOnOneLine(s, Special);
      LooksAheadOnOneLine(s, Space);
      assert (exists i :: 0 <= i < |s| && InClass(s[i], Digit)) <==> (exists i :: 0 <= i < |s| && IsDigit(s[i]));
    }
  }

  const PasswordSlots := [("account_password", PasswordTooShort), ("account_password", PasswordTooWeak)]

  /** Whether the two password validators pass on the trimmed password. */
  function PasswordOutcomes(password: string): (r: seq<bool>)
    ensures |r| == |PasswordSlots|
  {
    [LengthAtLeast(password, 12), MatchesStrongPassword(password)]
  }

  /** `passwordRules()`: trim the password, require twelve characters, then the pattern. */
  function PasswordRules(body: map<string, string>): (r: Validated)
    ensures r.body == TrimmedBody(body, "account_password")
    ensures |r.errors| <= 2
  {
    Validated(TrimmedBody(body, "account_password"),
              Run(Table(PasswordSlots, PasswordOutcomes(Trim(FieldText(body, "account_password"))))))
  }

  /** The two password validators report their messages exactly when they fail, and
      nothing exactly when both pass. */
  lemma PasswordSlotsReport(outcomes: seq<bool>)
    requires |outcomes| == |PasswordSlots|
    ensures var errors := Run(Table(PasswordSlots, outcomes));
            && (FieldError("account_password", PasswordTooShort) in errors <==> !outcomes[0])
            && (FieldError("account_password", PasswordTooWeak) in errors <==> !outcomes[1])
            && (errors == [] <==> outcomes[0] && outcomes[1])
  {
    assert Distinct(PasswordSlots) by {
      assert |PasswordTooShort| != |PasswordTooWeak|;
    }
    TableReports(PasswordSlots, outcomes, 0, "account_password", PasswordTooShort);
    TableReports(PasswordSlots, outcomes, 1, "account_password", PasswordTooWeak);
    TableEmpty(PasswordSlots, outcomes);
    assert (forall i :: 0 <= i < |outcomes| ==> outcomes[i]) <==> outcomes[0] && outcomes[1];
  }

  /** Each password message is reported exactly when its condition fails on the trimmed
      password: the length validator's count is below twelve, or the pattern fails. */
  lemma PasswordRulesMeaning(body: map<string, string>)
    ensures var password := Trim(FieldText(body, "account_password"));
            var r := PasswordRules(body);
            && (Reported(r, "account_password", PasswordTooShort) <==> ValidatorLength(password) < 12)
            && (Reported(r, "account_password", PasswordTooWeak) <==> !MatchesStrongPassword(password))
            && (r.errors == [] <==> ValidatorLength(password) >= 12 && MatchesStrongPassword(password))
  {
    var password := Trim(FieldText(body, "account_password"));
    var outcomes := PasswordOutcomes(password);
    PasswordSlotsReport(outcomes);
    assert outcomes[0] <==> ValidatorLength(password) >= 12;
    assert outcomes[1] <==> MatchesStrongPassword(password);
  }

  /** For a password of characters up to U+FFFF and without variation selectors, both
      validators count characters, so the pattern alone decides: a password it accepts
      gets no message, and a weak one of twelve characters gets only the second. */
  lemma PasswordPatternDecides(body: map<string, string>)
    requires NoVariationSelector(Trim(FieldText(body, "account_password")))
    requires NoAstral(Trim(FieldText(body, "account_password")))
    ensures PasswordRules(body).errors == [] <==> MatchesStrongPassword(Trim(FieldText(body, "account_password")))
  {
    var password := Trim(FieldText(body, "account_password"));
    ValidatorLengthPlain(password);
    Utf16LengthOfBmp(password);
    PasswordRulesMeaning(body);
  }

  /** A character beyond U+FFFF and a variation selector are neither letters, digits nor
      whitespace: the pattern counts them as special characters. */
  lemma SpecialOutsideBmpOrSelector(c: char)
    requires IsAstral(c) || IsVariationSelector(c)
    ensures InClass(c, Special)
  {
  }

  /** Ten plain characters and one beyond U+FFFF, or eleven and a variation selector, with
      a digit and letters of both cases: the pattern holds, yet the validator counts
      eleven. */
  lemma ShortPasswordMatchesPattern(s: string, c: char)
    requires NoWhitespace(s) && NoVariationSelector(s) && NoAstral(s)
    requires exists i :: 0 <= i < |s| && IsDigit(s[i])
    requires exists i :: 0 <= i < |s| && 'a' <= s[i] <= 'z'
    requires exists i :: 0 <= i < |s| && 'A' <= s[i] <= 'Z'
    requires (IsAstral(c) && |s| == 10) || (IsVariationSelector(c) && |s| == 11)
    ensures MatchesStrongPassword(s + [c]) && ValidatorLength(s + [c]) == 11 && NoWhitespace(s + [c])
  {
    var p := s + [c];
    assert p[..|p| - 1] == s;
    ValidatorLengthPlain(s);
    Utf16LengthOfBmp(s);
    SpecialOutsideBmpOrSelector(c);
    assert forall i :: 0 <= i < |s| ==> p[i] == s[i];
    assert p[|s|] == c;
    StrongPasswordShape(p);
  }

  /** The two validators measure different lengths, so the pattern can accept a password
      that the length validator finds too short: only the length message is reported. */
  lemma PatternAcceptsShortPassword(s: string, c: char)
    requires NoWhitespace(s) && NoVariationSelector(s) && NoAstral(s)
    requires exists i :: 0 <= i < |s| && IsDigit(s[i])
    requires exists i :: 0 <= i < |s| && 'a' <= s[i] <= 'z'
    requires exists i :: 0 <= i < |s| && 'A' <= s[i] <= 'Z'
    requires (IsAstral(c) && |s| == 10) || (IsVariationSelector(c) && |s| == 11)
    ensures var r := PasswordRules(map["account_password" := s + [c]]);
            Reported(r, "account_password", PasswordTooShort) && !Reported(r, "account_password", PasswordTooWeak)
  {
    var body := map["account_password" := s + [c]];
    ShortPasswordMatchesPattern(s, c);
    TrimNoWhitespace(s + [c]);
    assert Trim(FieldText(body, "account_password")) == s + [c];
    PasswordRulesMeaning(body);
  }

  // ----- the check middlewares -----

  /** The account data kept "sticky" on a failed update: the current account with the
      submitted names and address in place of the stored ones. */
  function StickyAccount(accountData: Value, body: map<string, string>): (r: map<string, Value>)
    ensures "account_firstname" in r && r["account_firstname"] == BodyValue(body, "account_firstname")
    ensures "account_lastname" in r && r["account_lastname"] == BodyValue(body, "account_lastname")
    ensures "account_email" in r && r["account_email"] == BodyValue(body, "account_email")
    ensures forall k :: k in r <==> k in Spread(accountData) || k in {"account_firstname", "account_lastname", "account_email"}
    ensures forall k :: k in Spread(accountData) && k !in {"account_firstname", "account_lastname", "account_email"} ==>
                        r[k] == Spread(accountData)[k]
  {
    Spread(accountData) + map["account_firstname" := BodyValue(body, "account_firstname"),
                              "account_lastname" := BodyValue(body, "account_lastname"),
                              "account_email" := BodyValue(body, "account_email")]
  }

  /** After `updateRules()` the sticky names and address are the trimmed (and, for the
      address, normalized) text, "" for a field that was not submitted: never undefined. */
  lemma StickyAfterUpdateRules(accountData: Value, body: map<string, string>, isEmail: string -> bool,
                               normalizeEmail: string -> string, accountById: Value -> Value,
                               emailExists: string -> bool)
    ensures var sticky := StickyAccount(accountData, UpdateRules(body, isEmail, normalizeEmail, accountById, emailExists).validated.body);
            && sticky["account_firstname"] == Str(Trim(FieldText(body, "account_firstname")))
            && sticky["account_lastname"] == Str(Trim(FieldText(body, "account_lastname")))
            && sticky["account_email"] == Str(normalizeEmail(Trim(FieldText(body, "account_email"))))
  {
    var b := UpdateRules(body, isEmail, normalizeEmail, accountById, emailExists).validated.body;
    UpdateRulesSanitize(body, isEmail, normalizeEmail, accountById, emailExists);
    UpdateTrimmedNames();
    assert BodyValue(b, "account_firstname") == Str(Trim(FieldText(body, "account_firstname")));
    assert BodyValue(b, "account_lastname") == Str(Trim(FieldText(body, "account_lastname")));
    assert BodyValue(b, "account_email") == Str(normalizeEmail(Trim(FieldText(body, "account_email"))));
  }

  /** The account-update view re-rendered with the errors. */
  function AccountUpdateView(errors: seq<FieldError>, nav: string): View
  {
    View("account/account-update", map["title" := Str("Account Update"), "nav" := Str(nav), "errors" := Errors(errors)])
  }

  /** `checkUpdateData` (account): with errors, keep the submitted names and address in
      `res.locals.accountData` and re-render the update view; without, continue. */
  method CheckUpdateData(req: Request, res: Response, nav: string)
    modifies res`locals, res`rendered, res`nextCalled
    ensures req.errors == [] ==> res.nextCalled && res.rendered == old(res.rendered) && res.locals == old(res.locals)
    ensures req.errors != [] ==>
      && res.locals == old(res.locals)["accountData" :=
           Obj(StickyAccount(if "accountData" in old(res.locals) then old(res.locals)["accountData"] else Undefined, req.body))]
      && res.rendered == Some(AccountUpdateView(req.errors, nav))
      && res.nextCalled == old(res.nextCalled)
  {
    if req.errors == [] {
      res.Next();
      return;
    }
    var accountData := if "accountData" in res.locals then res.locals["accountData"] else Undefined;
    res.SetLocal("accountData", Obj(StickyAccount(accountData, req.body)));
    res.Render("account/account-update", map["title" := Str("Account Update"), "nav" := Str(nav), "errors" := Errors(req.errors)]);
  }

  /** `checkPassword`: with errors, re-render the update view (the account data in
      `res.locals` is left as it is); without, continue. */
  method CheckPassword(req: Request, res: Response, nav: string)
    modifies res`rendered, res`nextCalled
    ensures req.errors == [] ==> res.nextCalled && res.rendered == old(res.rendered)
    ensures req.errors != [] ==> res.rendered == Some(AccountUpdateView(req.errors, nav)) && res.nextCalled == old(res.nextCalled)
  {
    if req.errors == [] {
      res.Next();
      return;
    }
    res.Render("account/account-update", map["title" := Str("Account Update"), "nav" := Str(nav), "errors" := Errors(req.errors)]);
  }
}
