/**
 * Client-side form validation: a table of ordered rules per field name,
 * a field's verdict is its first failing rule, a form's verdict gathers
 * the verdicts of its ruled fields, and callers may append rules.
 *
 * Strings are sequences of Unicode scalar values; JavaScript's `length`
 * counts UTF-16 code units, which `Utf16Length` makes explicit.
 */
module InputValidation {

  import opened Wrappers

  // ---------------------------------------------------------------------
  // Character classes behind the regular expressions
  // ---------------------------------------------------------------------

  /** The characters JavaScript's `\s` and `String.prototype.trim` treat as white space or line terminators. */
  predicate IsSpace(c: char) {
    || c == '\t' || c == '\n' || c == '\U{000B}' || c == '\U{000C}' || c == '\r' || c == ' '
    || c == '\U{00A0}' || c == '\U{1680}' || ('\U{2000}' <= c <= '\U{200A}')
    || c == '\U{2028}' || c == '\U{2029}' || c == '\U{202F}' || c == '\U{205F}'
    || c == '\U{3000}' || c == '\U{FEFF}'
  }

  /** `[a-zA-ZÀ-ỹ\s]`: ASCII letters, the code points U+00C0 through U+1EF9, and white space. */
  predicate IsNameChar(c: char) {
    ('a' <= c <= 'z') || ('A' <= c <= 'Z') || ('\U{00C0}' <= c <= '\U{1EF9}') || IsSpace(c)
  }

  /** `[^\s@]` */
  predicate IsEmailPartChar(c: char) {
    !IsSpace(c) && c != '@'
  }

  predicate AllEmailPartChars(s: string) {
    forall k :: 0 <= k < |s| ==> IsEmailPartChar(s[k])
  }

  const SpecialChars: string := "!@#$%^&*(),.?\":{}|<>"

  predicate HasUpper(s: string) { exists k :: 0 <= k < |s| && 'A' <= s[k] <= 'Z' }
  predicate HasLower(s: string) { exists k :: 0 <= k < |s| && 'a' <= s[k] <= 'z' }
  predicate HasDigit(s: string) { exists k :: 0 <= k < |s| && '0' <= s[k] <= '9' }
  predicate HasSpecial(s: string) { exists k :: 0 <= k < |s| && s[k] in SpecialChars }

  /** `^[a-zA-ZÀ-ỹ\s]+$` */
  predicate MatchesName(s: string) {
    |s| > 0 && forall k :: 0 <= k < |s| ==> IsNameChar(s[k])
  }

  /**
   * `^[^\s@]+@[^\s@]+\.[^\s@]+$` matched with the `@` at index `at` and
   * the separating `.` at index `dot`.
   */
  predicate EmailSplitAt(s: string, at: int, dot: int) {
    && 0 < at && at + 1 < dot && dot + 1 < |s|
    && s[at] == '@' && s[dot] == '.'
    && AllEmailPartChars(s[..at])
    && AllEmailPartChars(s[at + 1..dot])
    && AllEmailPartChars(s[dot + 1..])
  }

  predicate MatchesEmail(s: string) {
    exists at, dot :: 0 <= at < |s| && 0 <= dot < |s| && EmailSplitAt(s, at, dot)
  }

  /**
   * The e-mail pattern accepts exactly the strings with no white space,
   * a single `@` that is not the first character, and a `.` in the part
   * after the `@` that is neither that part's first nor its last character.
   */
  lemma EmailShape(s: string)
    ensures MatchesEmail(s) <==>
      && (forall k :: 0 <= k < |s| ==> !IsSpace(s[k]))
      && (exists at :: && 0 < at < |s| && s[at] == '@'
                       && (forall k :: 0 <= k < |s| && k != at ==> s[k] != '@')
                       && (exists dot :: at + 1 < dot < |s| - 1 && s[dot] == '.'))
  {
    if MatchesEmail(s) {
      var at, dot :| 0 <= at < |s| && 0 <= dot < |s| && EmailSplitAt(s, at, dot);
      forall k | 0 <= k < |s| && k != at
        ensures !IsSpace(s[k]) && s[k] != '@'
      {
        if k < at {
          assert s[..at][k] == s[k];
        } else if k < dot {
          assert s[at + 1..dot][k - at - 1] == s[k];
        } else if k > dot {
          assert s[dot + 1..][k - dot - 1] == s[k];
        }
      }
    }
    if && (forall k :: 0 <= k < |s| ==> !IsSpace(s[k]))
       && (exists at :: && 0 < at < |s| && s[at] == '@'
                        && (forall k :: 0 <= k < |s| && k != at ==> s[k] != '@')
                        && (exists dot :: at + 1 < dot < |s| - 1 && s[dot] == '.'))
    {
      var at :| && 0 < at < |s| && s[at] == '@'
                && (forall k :: 0 <= k < |s| && k != at ==> s[k] != '@')
                && (exists dot :: at + 1 < dot < |s| - 1 && s[dot] == '.');
      var dot :| at + 1 < dot < |s| - 1 && s[dot] == '.';
      assert EmailSplitAt(s, at, dot);
    }
  }

  // ---------------------------------------------------------------------
  // String primitives
  // ---------------------------------------------------------------------

  function TrimStart(s: string): (r: string)
    ensures |r| <= |s| && r == s[|s| - |r|..]
    ensures forall k :: 0 <= k < |s| - |r| ==> IsSpace(s[k])
    ensures r == [] || !IsSpace(r[0])
  {
    if |s| > 0 && IsSpace(s[0]) then TrimStart(s[1..]) else s
  }

  function TrimEnd(s: string): (r: string)
    ensures |r| <= |s| && r == s[..|r|]
    ensures forall k :: |r| <= k < |s| ==> IsSpace(s[k])
    ensures r == [] || !IsSpace(r[|r| - 1])
  {
    if |s| > 0 && IsSpace(s[|s| - 1]) then TrimEnd(s[..|s| - 1]) else s
  }

  /** `String.prototype.trim`: empty exactly when every character is white space. */
  function Trim(s: string): (r: string)
    ensures r == [] <==> forall k :: 0 <= k < |s| ==> IsSpace(s[k])
    ensures r == [] || (!IsSpace(r[0]) && !IsSpace(r[|r| - 1]))
  {
    var front := TrimStart(s);
    assert forall k :: |s| - |front| <= k < |s| ==> front[k - (|s| - |front|)] == s[k];
    TrimEnd(front)
  }

  /** `length` of a JavaScript string: characters outside the Basic Multilingual Plane take two code units. */
  function Utf16Length(s: string): (n: nat)
    ensures |s| <= n <= 2 * |s|
    ensures n == |s| <==> forall k :: 0 <= k < |s| ==> s[k] < '\U{10000}'
  {
    if |s| == 0 then 0
    else Utf16Length(s[..|s| - 1]) + (if s[|s| - 1] < '\U{10000}' then 1 else 2)
  }

  // ---------------------------------------------------------------------
  // Rules
  // ---------------------------------------------------------------------

  datatype Pattern = NamePattern | EmailPattern | HasUppercase | HasLowercase | HasNumber | HasSpecialChar

  predicate MatchesPattern(value: string, pattern: Pattern) {
    match pattern
    case NamePattern => MatchesName(value)
    case EmailPattern => MatchesEmail(value)
    case HasUppercase => HasUpper(value)
    case HasLowercase => HasLower(value)
    case HasNumber => HasDigit(value)
    case HasSpecialChar => HasSpecial(value)
  }

  /** A rule's test: one of the common validations, or a caller-supplied predicate. */
  datatype Check =
    | NotEmpty
    | MinLength(length: int)
    | Matches(pattern: Pattern)
    | Custom(test: string -> bool)

  predicate Passes(check: Check, value: string) {
    match check
    case NotEmpty => Trim(value) != ""
    case MinLength(n) => Utf16Length(value) >= n
    case Matches(p) => MatchesPattern(value, p)
    case Custom(test) => test(value)
  }

  datatype Rule = Rule(check: Check, message: string)

  const NameEmpty := "Tên không được để trống"
  const NameShort := "Tên phải có ít nhất 2 ký tự"
  const NameLetters := "Tên chỉ được chứa chữ cái và khoảng trắng"
  const EmailEmpty := "Email không được để trống"
  const EmailInvalid := "Email không hợp lệ"
  const PasswordEmpty := "Mật khẩu không được để trống"
  const PasswordShort := "Mật khẩu phải có ít nhất 8 ký tự"
  const PasswordUpper := "Mật khẩu phải chứa ít nhất 1 chữ hoa"
  const PasswordLower := "Mật khẩu phải chứa ít nhất 1 chữ thường"
  const PasswordDigit := "Mật khẩu phải chứa ít nhất 1 số"
  const PasswordSpecial := "Mật khẩu phải chứa ít nhất 1 ký tự đặc biệt"
  const ConfirmationEmpty := "Xác nhận mật khẩu không được để trống"
  const ConfirmationMismatch := "Mật khẩu xác nhận không khớp"

  const NameRules: seq<Rule> := [
    Rule(NotEmpty, NameEmpty),
    Rule(MinLength(2), NameShort),
    Rule(Matches(NamePattern), NameLetters)]

  const EmailRules: seq<Rule> := [
    Rule(NotEmpty, EmailEmpty),
    Rule(Matches(EmailPattern), EmailInvalid)]

  const PasswordRules: seq<Rule> := [
    Rule(NotEmpty, PasswordEmpty),
    Rule(MinLength(8), PasswordShort),
    Rule(Matches(HasUppercase), PasswordUpper),
    Rule(Matches(HasLowercase), PasswordLower),
    Rule(Matches(HasNumber), PasswordDigit),
    Rule(Matches(HasSpecialChar), PasswordSpecial)]

  const ConfirmationRules: seq<Rule> := [
    Rule(NotEmpty, ConfirmationEmpty)]

  /** The rule table the module starts with. */
  const ValidationRules: map<string, seq<Rule>> := map[
    "name" := NameRules,
    "email" := EmailRules,
    "password" := PasswordRules,
    "password_confirmation" := ConfirmationRules]

  datatype FieldResult = FieldResult(isValid: bool, error: Option<string>)

  datatype FormResult = FormResult(isValid: bool, errors: map<string, string>)

  /** The index of the first rule the value fails, in declared order (`Array.prototype.find`). */
  function FirstFailure(rules: seq<Rule>, value: string): (r: Option<nat>)
    ensures r.Some? ==> r.value < |rules| && !Passes(rules[r.value].check, value)
    ensures r.Some? ==> forall k :: 0 <= k < r.value ==> Passes(rules[k].check, value)
    ensures r.None? ==> forall k :: 0 <= k < |rules| ==> Passes(rules[k].check, value)
  {
    if |rules| == 0 then None
    else if !Passes(rules[0].check, value) then Some(0)
    else match FirstFailure(rules[1..], value)
      case None => None
      case Some(k) => Some(k + 1)
  }

  /** The verdict of a rule list: valid with no error, or the message of the first failing rule. */
  function CheckField(rules: seq<Rule>, value: string): (r: FieldResult)
    ensures r.isValid <==> r.error.None?
    ensures r.isValid <==> forall k :: 0 <= k < |rules| ==> Passes(rules[k].check, value)
    ensures !r.isValid ==>
      exists k :: && 0 <= k < |rules| && !Passes(rules[k].check, value)
                  && (forall j :: 0 <= j < k ==> Passes(rules[j].check, value))
                  && r.error == Some(rules[k].message)
  {
    match FirstFailure(rules, value)
    case None => FieldResult(true, None)
    case Some(k) => FieldResult(false, Some(rules[k].message))
  }

  /**
   * Appending a rule never changes an existing failure; a value that
   * passed before now fails exactly when it fails the new rule.
   */
  lemma AppendedRuleKeepsEarlierFailure(rules: seq<Rule>, rule: Rule, value: string)
    ensures CheckField(rules + [rule], value) ==
      if !CheckField(rules, value).isValid then CheckField(rules, value)
      else if Passes(rule.check, value) then FieldResult(true, None)
      else FieldResult(false, Some(rule.message))
  {
    var all := rules + [rule];
    assert forall k :: 0 <= k < |rules| ==> all[k] == rules[k];
    match FirstFailure(rules, value)
    case Some(k) =>
      FirstFailureUnique(all, value, k);
    case None =>
      if !Passes(rule.check, value) {
        FirstFailureUnique(all, value, |rules|);
      }
  }

  lemma FirstFailureUnique(rules: seq<Rule>, value: string, k: nat)
    requires k < |rules| && !Passes(rules[k].check, value)
    requires forall j :: 0 <= j < k ==> Passes(rules[j].check, value)
    ensures FirstFailure(rules, value) == Some(k)
  {
  }

  /** A list of two rules reports the first one's message, else the second's, else nothing. */
  lemma TwoRules(rules: seq<Rule>, value: string)
    requires |rules| == 2
    ensures CheckField(rules, value) ==
      if !Passes(rules[0].check, value) then FieldResult(false, Some(rules[0].message))
      else if !Passes(rules[1].check, value) then FieldResult(false, Some(rules[1].message))
      else FieldResult(true, None)
  {
    assert rules[1..][0] == rules[1] && rules[1..][1..] == [];
  }

  lemma ThreeRulesPass(rules: seq<Rule>, value: string)
    requires |rules| == 3
    ensures CheckField(rules, value).isValid <==>
      Passes(rules[0].check, value) && Passes(rules[1].check, value) && Passes(rules[2].check, value)
  {
    if !CheckField(rules, value).isValid {
      var k :| 0 <= k < |rules| && !Passes(rules[k].check, value);
      assert k in {0, 1, 2};
    }
  }

  lemma SixRulesPass(rules: seq<Rule>, value: string)
    requires |rules| == 6
    ensures CheckField(rules, value).isValid <==>
      && Passes(rules[0].check, value) && Passes(rules[1].check, value) && Passes(rules[2].check, value)
      && Passes(rules[3].check, value) && Passes(rules[4].check, value) && Passes(rules[5].check, value)
  {
    if !CheckField(rules, value).isValid {
      var k :| 0 <= k < |rules| && !Passes(rules[k].check, value);
      assert k in {0, 1, 2, 3, 4, 5};
    }
  }

  /** `validatePasswordConfirmation`: valid, and without an error, exactly when the two strings are equal. */
  function ValidatePasswordConfirmation(password: string, confirmation: string): (r: FieldResult)
    ensures r.isValid <==> password == confirmation
    ensures r.error.None? <==> password == confirmation
    ensures r.error.Some? ==> r.error.value == ConfirmationMismatch
  {
    FieldResult(password == confirmation, if password != confirmation then Some(ConfirmationMismatch) else None)
  }

  /** Confirmation is symmetric in its two strings and reflexive. */
  lemma ConfirmationSymmetric(password: string, confirmation: string)
    ensures ValidatePasswordConfirmation(password, confirmation) == ValidatePasswordConfirmation(confirmation, password)
    ensures ValidatePasswordConfirmation(password, password) == FieldResult(true, None)
  {
  }

  // ---------------------------------------------------------------------
  // What the initial rules accept
  // ---------------------------------------------------------------------

  /** The non-empty check: some character is not white space. */
  lemma NotEmptyMeaning(value: string)
    ensures Passes(NotEmpty, value) <==> exists k :: 0 <= k < |value| && !IsSpace(value[k])
  {
  }

  lemma NameChecks()
    ensures |NameRules| == 3
    ensures NameRules[0].check == NotEmpty && NameRules[1].check == MinLength(2)
    ensures NameRules[2].check == Matches(NamePattern)
  {
  }

  lemma EmailChecks()
    ensures |EmailRules| == 2
    ensures EmailRules[0] == Rule(NotEmpty, EmailEmpty) && EmailRules[1] == Rule(Matches(EmailPattern), EmailInvalid)
  {
  }

  lemma PasswordChecks()
    ensures |PasswordRules| == 6
    ensures PasswordRules[0].check == NotEmpty && PasswordRules[1].check == MinLength(8)
    ensures PasswordRules[2].check == Matches(HasUppercase) && PasswordRules[3].check == Matches(HasLowercase)
    ensures PasswordRules[4].check == Matches(HasNumber) && PasswordRules[5].check == Matches(HasSpecialChar)
  {
  }

  /** A name needs a non-blank character, two code units, and only letters and white space. */
  lemma NameVerdict(value: string)
    ensures CheckField(NameRules, value).isValid <==>
      && (exists k :: 0 <= k < |value| && !IsSpace(value[k]))
      && Utf16Length(value) >= 2
      && (forall k :: 0 <= k < |value| ==> IsNameChar(value[k]))
  {
    NameRulesPass(value);
    NotEmptyMeaning(value);
    NamePatternMeaning(value);
  }

  lemma NamePatternMeaning(value: string)
    ensures Passes(MinLength(2), value) <==> Utf16Length(value) >= 2
    ensures Passes(Matches(NamePattern), value) <==> |value| > 0 && forall k :: 0 <= k < |value| ==> IsNameChar(value[k])
  {
  }

  lemma NameRulesPass(value: string)
    ensures CheckField(NameRules, value).isValid <==>
      Passes(NotEmpty, value) && Passes(MinLength(2), value) && Passes(Matches(NamePattern), value)
  {
    NameChecks();
    ThreeRulesPass(NameRules, value);
  }

  /** An e-mail passes exactly when it matches the pattern; a blank one is reported as empty. */
  lemma EmailVerdict(value: string)
    ensures CheckField(EmailRules, value).isValid <==> MatchesEmail(value)
    ensures !MatchesEmail(value) ==>
      CheckField(EmailRules, value).error == Some(if Trim(value) == "" then EmailEmpty else EmailInvalid)
  {
    EmailChecks();
    TwoRules(EmailRules, value);
    if MatchesEmail(value) {
      MatchedEmailIsNotBlank(value);
    }
  }

  lemma MatchedEmailIsNotBlank(value: string)
    requires MatchesEmail(value)
    ensures Passes(NotEmpty, value)
  {
    var at, dot :| 0 <= at < |value| && 0 <= dot < |value| && EmailSplitAt(value, at, dot);
    assert value[..at][0] == value[0];
    assert !IsSpace(value[0]);
  }

  /**
   * A password passes exactly when it is eight code units long and holds
   * an upper-case letter, a lower-case letter, a digit and a listed
   * special character; the non-empty rule is then implied.
   */
  lemma PasswordVerdict(value: string)
    ensures CheckField(PasswordRules, value).isValid <==>
      && Utf16Length(value) >= 8
      && HasUpper(value) && HasLower(value) && HasDigit(value) && HasSpecial(value)
  {
    PasswordRulesPass(value);
    ClassChecksMeaning(value);
    if HasUpper(value) {
      UpperIsNotBlank(value);
    }
  }

  lemma ClassChecksMeaning(value: string)
    ensures
      && Passes(Matches(HasUppercase), value) && Passes(Matches(HasLowercase), value)
      && Passes(Matches(HasNumber), value) && Passes(Matches(HasSpecialChar), value)
      <==> HasUpper(value) && HasLower(value) && HasDigit(value) && HasSpecial(value)
  {
  }

  lemma UpperIsNotBlank(value: string)
    requires HasUpper(value)
    ensures Passes(NotEmpty, value)
  {
    var k :| 0 <= k < |value| && 'A' <= value[k] <= 'Z';
    assert !IsSpace(value[k]);
  }

  lemma PasswordRulesPass(value: string)
    ensures CheckField(PasswordRules, value).isValid <==>
      && Passes(NotEmpty, value) && Passes(MinLength(8), value)
      && Passes(Matches(HasUppercase), value) && Passes(Matches(HasLowercase), value)
      && Passes(Matches(HasNumber), value) && Passes(Matches(HasSpecialChar), value)
  {
    PasswordChecks();
    SixRulesPass(PasswordRules, value);
  }

  /** A confirmation only has to contain a non-blank character. */
  lemma ConfirmationVerdict(value: string)
    ensures CheckField(ConfirmationRules, value) ==
      if exists k :: 0 <= k < |value| && !IsSpace(value[k]) then FieldResult(true, None)
      else FieldResult(false, Some(ConfirmationEmpty))
  {
  }

  // ---------------------------------------------------------------------
  // The mutable rule table
  // ---------------------------------------------------------------------

  /** The module-level rule table and the operations that consult or extend it. */
  class Validator {

    var rules: map<string, seq<Rule>>

    constructor()
      ensures rules == ValidationRules
    {
      rules := ValidationRules;
    }

    /** `validateField`: a field without rules is valid; otherwise the first failing rule decides. */
    function ValidateField(fieldName: string, value: string): (r: FieldResult)
      reads this
      ensures fieldName !in rules ==> r == FieldResult(true, None)
      ensures r.isValid <==> r.error.None?
      ensures fieldName in rules ==> r == CheckField(rules[fieldName], value)
    {
      if fieldName !in rules then FieldResult(true, None) else CheckField(rules[fieldName], value)
    }

    /**
     * `validateForm`: the errors name exactly the fields that fail, each
     * with its first failing message, and the form is valid exactly when
     * there are none.
     */
    function ValidateForm(formData: map<string, string>): (r: FormResult)
      reads this
      ensures forall f :: f in r.errors <==> f in formData && !ValidateField(f, formData[f]).isValid
      ensures forall f :: f in r.errors ==> ValidateField(f, formData[f]).error == Some(r.errors[f])
      ensures r.isValid <==> r.errors == map[]
    {
      var errors := map f | f in formData && f in rules && !ValidateField(f, formData[f]).isValid
                          :: ValidateField(f, formData[f]).error.value;
      var isValid := forall f :: f in formData && f in rules ==> ValidateField(f, formData[f]).isValid;
      assert !isValid ==> errors != map[] by {
        if !isValid {
          var f :| f in formData && f in rules && !ValidateField(f, formData[f]).isValid;
          assert f in errors;
        }
      }
      FormResult(isValid, errors)
    }

    /** `addValidationRule`: the rule goes at the end of that field's list, which is created when missing. */
    method AddValidationRule(fieldName: string, test: string -> bool, message: string)
      modifies this
      ensures rules == old(rules)[fieldName :=
        (if fieldName in old(rules) then old(rules)[fieldName] else []) + [Rule(Custom(test), message)]]
      ensures forall f, v :: f != fieldName ==> ValidateField(f, v) == old(ValidateField(f, v))
      ensures forall v :: (
        ValidateField(fieldName, v) ==
          if !old(ValidateField(fieldName, v)).isValid then old(ValidateField(fieldName, v))
          else if test(v) then FieldResult(true, None)
          else FieldResult(false, Some(message)))
    {
      var existing := if fieldName in rules then rules[fieldName] else [];
      forall v
        ensures CheckField(existing + [Rule(Custom(test), message)], v) ==
          if !CheckField(existing, v).isValid then CheckField(existing, v)
          else if test(v) then FieldResult(true, None)
          else FieldResult(false, Some(message))
      {
        AppendedRuleKeepsEarlierFailure(existing, Rule(Custom(test), message), v);
      }
      rules := rules[fieldName := existing + [Rule(Custom(test), message)]];
    }
  }

  /** Keys without rules, such as `rememberMe`, do not affect the form's verdict. */
  lemma UnruledFieldIgnored(v: Validator, formData: map<string, string>, key: string, value: string)
    requires key !in v.rules
    ensures v.ValidateForm(formData[key := value]) == v.ValidateForm(formData)
  {
    UnruledFieldKeepsErrors(v, formData, key, value);
  }

  lemma UnruledFieldKeepsErrors(v: Validator, formData: map<string, string>, key: string, value: string)
    requires key !in v.rules
    ensures v.ValidateForm(formData[key := value]).errors == v.ValidateForm(formData).errors
  {
    var data := formData[key := value];
    var e1, e0 := v.ValidateForm(data).errors, v.ValidateForm(formData).errors;
    UnruledFieldHasNoError(v, data, key);
    UnruledFieldHasNoError(v, formData, key);
    forall f | f != key && f in formData
      ensures (f in e1 <==> f in e0) && (f in e1 ==> e1[f] == e0[f])
    {
      SameValueSameError(v, data, formData, f);
    }
    SameErrorMaps(e1, e0);
  }

  lemma SameErrorMaps(e1: map<string, string>, e0: map<string, string>)
    requires forall f :: f in e1 <==> f in e0
    requires forall f :: f in e1 ==> e1[f] == e0[f]
    ensures e1 == e0
  {
  }

  lemma UnruledFieldHasNoError(v: Validator, formData: map<string, string>, key: string)
    requires key !in v.rules
    ensures key !in v.ValidateForm(formData).errors
  {
  }

  lemma SameValueSameError(v: Validator, data: map<string, string>, formData: map<string, string>, f: string)
    requires f in data && f in formData && data[f] == formData[f]
    ensures f in v.ValidateForm(data).errors <==> f in v.ValidateForm(formData).errors
    ensures f in v.ValidateForm(data).errors ==> v.ValidateForm(data).errors[f] == v.ValidateForm(formData).errors[f]
  {
  }
}
