/** The validation rules of the registration form in
    `src/components/auth/register-form.tsx`, as `react-hook-form` applies
    them: per field, `required` first, then the length bounds, then the
    pattern, and only the first failing rule's message is reported. Dafny's
    strings are sequences of Unicode scalar values, while the length rules
    compare JavaScript's `length`, which counts UTF-16 code units: a
    character outside the Basic Multilingual Plane counts twice. The two
    regular expressions have no `u` flag, so they too read code units, but
    every class in them holds only Basic Multilingual Plane characters and
    no such character matches either way. */
module RegisterForm {
  import opened Common

  // ---------------------------------------------------------------------
  // Rules and how react-hook-form applies them
  // ---------------------------------------------------------------------

  /** The UTF-16 code units of one character. */
  function CodeUnits(c: char): nat {
    if c as int >= 0x1_0000 then 2 else 1
  }

  /** JavaScript's `s.length`. */
  function Utf16Length(s: string): (n: nat)
    ensures |s| <= n <= 2 * |s|
  {
    if s == [] then 0 else CodeUnits(s[0]) + Utf16Length(s[1..])
  }

  /** Every character of `s` lies in the Basic Multilingual Plane. */
  predicate InBmp(s: string) {
    forall k :: 0 <= k < |s| ==> s[k] as int < 0x1_0000
  }

  /** Where no character needs a surrogate pair, both counts agree. */
  lemma {:induction false} BmpLength(s: string)
    requires InBmp(s)
    ensures Utf16Length(s) == |s|
  {
    if s != [] {
      BmpLength(s[1..]);
    }
  }

  /** `n` copies of `c` count `n` times the character's code units. */
  lemma {:induction false} RepeatLength(c: char, n: nat)
    ensures Utf16Length(Repeat(c, n)) == n * CodeUnits(c)
  {
    if n > 0 {
      RepeatLength(c, n - 1);
      assert Repeat(c, n)[1..] == Repeat(c, n - 1);
    }
  }

  datatype LengthRule = LengthRule(value: nat, message: string)
  datatype PatternRule = PatternRule(matches: string -> bool, message: string)

  /** The `rules` object of one `Controller`. `required: true` without a
      message reports the empty message. */
  datatype Rules = Rules(
    required: Option<string>,
    minLength: Option<LengthRule>,
    maxLength: Option<LengthRule>,
    pattern: Option<PatternRule>)

  /** The error message for `value`, or `None` when every rule passes. An
      empty value fails `required` and skips the other rules; then come
      `maxLength`, `minLength` and `pattern`, in that order, and the first
      that fails gives the message. Lengths are JavaScript lengths. */
  function FieldError(rules: Rules, value: string): (e: Option<string>)
    ensures value == "" ==> e == rules.required
    ensures value != "" && rules.maxLength.Some? && Utf16Length(value) > rules.maxLength.value.value ==>
              e == Some(rules.maxLength.value.message)
    ensures value != "" && (rules.maxLength.Some? ==> Utf16Length(value) <= rules.maxLength.value.value)
            && rules.minLength.Some? && Utf16Length(value) < rules.minLength.value.value ==>
              e == Some(rules.minLength.value.message)
    ensures value != "" && (rules.maxLength.Some? ==> Utf16Length(value) <= rules.maxLength.value.value)
            && (rules.minLength.Some? ==> Utf16Length(value) >= rules.minLength.value.value)
            && rules.pattern.Some? && !rules.pattern.value.matches(value) ==>
              e == Some(rules.pattern.value.message)
    ensures e.None? <==>
              && (value == "" ==> rules.required.None?)
              && (value != "" ==>
                    && (rules.minLength.Some? ==> Utf16Length(value) >= rules.minLength.value.value)
                    && (rules.maxLength.Some? ==> Utf16Length(value) <= rules.maxLength.value.value)
                    && (rules.pattern.Some? ==> rules.pattern.value.matches(value)))
  {
    var n := Utf16Length(value);
    if value == "" then rules.required
    else if rules.maxLength.Some? && n > rules.maxLength.value.value then Some(rules.maxLength.value.message)
    else if rules.minLength.Some? && n < rules.minLength.value.value then Some(rules.minLength.value.message)
    else if rules.pattern.Some? && !rules.pattern.value.matches(value) then Some(rules.pattern.value.message)
    else None
  }

  // ---------------------------------------------------------------------
  // Email
  // ---------------------------------------------------------------------

  predicate IsAsciiLetter(c: char) { 'a' <= c <= 'z' || 'A' <= c <= 'Z' }

  /** `[a-zA-Z0-9._%+-]` */
  predicate IsLocalChar(c: char) {
    IsAsciiLetter(c) || IsDigit(c) || c == '.' || c == '_' || c == '%' || c == '+' || c == '-'
  }

  /** `[a-zA-Z0-9.-]` */
  predicate IsDomainChar(c: char) {
    IsAsciiLetter(c) || IsDigit(c) || c == '.' || c == '-'
  }

  /** Every character of `s[lo..hi]` satisfies `p`. */
  predicate AllIn(s: string, lo: int, hi: int, p: char -> bool)
    requires 0 <= lo <= hi <= |s|
  {
    forall k :: lo <= k < hi ==> p(s[k])
  }

  /** One way of reading `s` against
      `^[a-zA-Z0-9._%+-]+@[a-zA-Z0-9.-]+\.[a-zA-Z]{2,}$`: the `@` at `i` and
      the final `.` at `j`. */
  predicate EmailSplit(s: string, i: int, j: int) {
    && 0 < i && i + 1 < j && j + 2 < |s|
    && s[i] == '@' && s[j] == '.'
    && AllIn(s, 0, i, IsLocalChar)
    && AllIn(s, i + 1, j, IsDomainChar)
    && AllIn(s, j + 1, |s|, IsAsciiLetter)
  }

  /** The regular expression matches `s`. */
  ghost predicate EmailShape(s: string) {
    exists i, j :: EmailSplit(s, i, j)
  }

  /** The regular expression, decided without backtracking: no class of
      the pattern admits `@`, so the `@` is the first one; no letter is a
      `.`, so the `.` before the final letters is the last one. */
  predicate EmailMatches(s: string): (b: bool)
    ensures b ==> EmailShape(s) && |s| >= 6
  {
    match (IndexOf(s, '@'), LastIndexOf(s, '.'))
    case (Some(i), Some(j)) => EmailSplit(s, i, j)
    case _ => false
  }

  /** The search above decides the regular expression exactly. */
  lemma EmailMatchesShape(s: string)
    ensures EmailMatches(s) <==> EmailShape(s)
  {
    if EmailShape(s) {
      var i, j :| EmailSplit(s, i, j);
      assert IndexOf(s, '@') == Some(i) by {
        assert forall k :: 0 <= k < i ==> s[k] != '@' by {
          assert forall k :: 0 <= k < i ==> IsLocalChar(s[k]);
        }
      }
      assert LastIndexOf(s, '.') == Some(j) by {
        assert forall k :: j < k < |s| ==> s[k] != '.' by {
          assert forall k :: j + 1 <= k < |s| ==> IsAsciiLetter(s[k]);
        }
      }
    }
  }

  /** The top-level domain needs two letters. */
  lemma EmailTopLevelDomain()
    ensures !EmailMatches("a@b.c")
    ensures EmailMatches("a@b.co")
  {
    assert IndexOf("a@b.co", '@') == Some(1);
    assert LastIndexOf("a@b.co", '.') == Some(3);
  }

  /** An accepted email has exactly one `@`. */
  lemma EmailHasOneAt(s: string)
    requires EmailShape(s)
    ensures exists i :: 0 <= i < |s| && s[i] == '@' && forall k :: 0 <= k < |s| && k != i ==> s[k] != '@'
  {
    var i, j :| EmailSplit(s, i, j);
    forall k | 0 <= k < |s| && k != i
      ensures s[k] != '@'
    {
      if k < i {
        assert IsLocalChar(s[k]);
      } else if k < j {
        assert IsDomainChar(s[k]);
      } else if k > j {
        assert IsAsciiLetter(s[k]);
      }
    }
  }

  // ---------------------------------------------------------------------
  // Password
  // ---------------------------------------------------------------------

  /** `[a-zñ]` */
  predicate IsLowerCase(c: char) { 'a' <= c <= 'z' || c == 'ñ' }
  /** `[A-ZÑ]` */
  predicate IsUpperCase(c: char) { 'A' <= c <= 'Z' || c == 'Ñ' }
  /** `[@$!%*?&#.]` */
  predicate IsSpecial(c: char) {
    c == '@' || c == '$' || c == '!' || c == '%' || c == '*' || c == '?' || c == '&' || c == '#' || c == '.'
  }
  /** `[A-Za-zñÑ\d@$!%*?&#.-]` */
  predicate IsPasswordChar(c: char) {
    IsLowerCase(c) || IsUpperCase(c) || IsDigit(c) || IsSpecial(c) || c == '-'
  }

  predicate Contains(s: string, p: char -> bool) {
    exists k :: 0 <= k < |s| && p(s[k])
  }

  /** `/^(?=.*[a-zñ])(?=.*[A-ZÑ])(?=.*\d)(?=.*[@$!%*?&#.])[A-Za-zñÑ\d@$!%*?&#.-]{8,}$/`.
      The body admits no line terminator, so each look-ahead `.*` can reach
      every character and each look-ahead is a plain "contains". */
  predicate PasswordPattern(s: string): (b: bool)
    ensures b ==> InBmp(s) && Utf16Length(s) == |s|
  {
    AllowedCharsInBmp(s);
    && |s| >= 8
    && (forall k :: 0 <= k < |s| ==> IsPasswordChar(s[k]))
    && Contains(s, IsLowerCase)
    && Contains(s, IsUpperCase)
    && Contains(s, IsDigit)
    && Contains(s, IsSpecial)
  }

  /** Every character the password's class admits is a single UTF-16 code
      unit, so a password the body matches has the same length in both
      counts. */
  lemma AllowedCharsInBmp(s: string)
    ensures (forall k :: 0 <= k < |s| ==> IsPasswordChar(s[k])) ==> InBmp(s) && Utf16Length(s) == |s|
  {
    if forall k :: 0 <= k < |s| ==> IsPasswordChar(s[k]) {
      BmpLength(s);
    }
  }

  /** `-` may be typed but never counts as the special character. */
  lemma DashIsNotSpecial()
    ensures IsPasswordChar('-') && !IsSpecial('-')
  {
  }

  // ---------------------------------------------------------------------
  // The form
  // ---------------------------------------------------------------------

  const NAME_REQUIRED := "Nombre es requerido"
  const NAME_MIN := "Mínimo 2 caracteres"
  const NAME_MAX := "Máximo 50 caracteres"
  const EMAIL_REQUIRED := "Email es requerido"
  const EMAIL_INVALID := "Email no válido"
  const PASSWORD_REQUIRED := "Password es requerido"
  const PASSWORD_MIN := "Mínimo 6 caracteres"
  const PASSWORD_MAX := "Máximo 20 caracteres"
  const PASSWORD_WEAK := "Password debe tener al menos una mayúscula, una minúscula, un número y un carácter especial"

  const NAME_RULES := Rules(Some(NAME_REQUIRED), Some(LengthRule(2, NAME_MIN)), Some(LengthRule(50, NAME_MAX)), None)
  const EMAIL_RULES := Rules(Some(EMAIL_REQUIRED), None, None, Some(PatternRule(EmailMatches, EMAIL_INVALID)))
  const PASSWORD_RULES := Rules(Some(PASSWORD_REQUIRED), Some(LengthRule(6, PASSWORD_MIN)),
                                Some(LengthRule(20, PASSWORD_MAX)), Some(PatternRule(PasswordPattern, PASSWORD_WEAK)))
  const ROLE_RULES := Rules(Some(""), None, None, None)

  /** The values of `IRegisterForm`. */
  datatype FormValues = FormValues(name: string, email: string, password: string, role: string)

  const DEFAULT_VALUES := FormValues("", "", "", "user")

  /** The roles the select offers. */
  const ROLES: set<string> := {"user", "admin"}

  /** The per-field errors of the form; `handleSubmit` calls `onSubmit`
      only when all four are `None`. */
  datatype FormErrors = FormErrors(name: Option<string>, email: Option<string>, password: Option<string>, role: Option<string>)

  function Validate(v: FormValues): (e: FormErrors)
    ensures e.name.None? <==> 2 <= Utf16Length(v.name) <= 50
    ensures e.email.None? <==> EmailShape(v.email)
    ensures e.password.None? <==> PasswordPattern(v.password) && |v.password| <= 20
    ensures e.role.None? <==> v.role != ""
  {
    EmailMatchesShape(v.email);
    FormErrors(FieldError(NAME_RULES, v.name), FieldError(EMAIL_RULES, v.email),
               FieldError(PASSWORD_RULES, v.password), FieldError(ROLE_RULES, v.role))
  }

  predicate Submittable(v: FormValues) {
    Validate(v) == FormErrors(None, None, None, None)
  }

  /** A name is accepted iff its JavaScript length is 2 to 50; otherwise
      the message says which rule failed. */
  lemma NameErrors(name: string)
    ensures FieldError(NAME_RULES, name).None? <==> 2 <= Utf16Length(name) <= 50
    ensures name == "" ==> FieldError(NAME_RULES, name) == Some(NAME_REQUIRED)
    ensures Utf16Length(name) == 1 ==> FieldError(NAME_RULES, name) == Some(NAME_MIN)
    ensures Utf16Length(name) > 50 ==> FieldError(NAME_RULES, name) == Some(NAME_MAX)
  {
  }

  /** A character outside the Basic Multilingual Plane, such as an emoji,
      counts twice: one alone is a long enough name, and 26 to 50 of them
      are too long although they are at most 50 characters. */
  lemma AstralNameLengths(c: char, n: nat)
    requires c as int >= 0x1_0000
    ensures FieldError(NAME_RULES, [c]) == None
    ensures 25 < n <= 50 ==> |Repeat(c, n)| <= 50 && FieldError(NAME_RULES, Repeat(c, n)) == Some(NAME_MAX)
  {
    assert [c][1..] == [];
    RepeatLength(c, n);
  }

  /** An email is accepted iff it matches the pattern; a non-empty one that
      does not is reported as not valid. */
  lemma EmailErrors(email: string)
    ensures FieldError(EMAIL_RULES, email).None? <==> EmailShape(email)
    ensures email == "" ==> FieldError(EMAIL_RULES, email) == Some(EMAIL_REQUIRED)
    ensures email != "" && !EmailShape(email) ==> FieldError(EMAIL_RULES, email) == Some(EMAIL_INVALID)
  {
    EmailMatchesShape(email);
  }

  /** A password is accepted iff it matches the pattern and has at most 20
      characters: the `minLength` of 6 never decides anything the pattern's
      `{8,}` does not. Which message shows depends on the JavaScript length
      first. */
  lemma PasswordErrors(password: string)
    ensures FieldError(PASSWORD_RULES, password).None? <==> PasswordPattern(password) && |password| <= 20
    ensures password == "" ==> FieldError(PASSWORD_RULES, password) == Some(PASSWORD_REQUIRED)
    ensures 0 < Utf16Length(password) < 6 ==> FieldError(PASSWORD_RULES, password) == Some(PASSWORD_MIN)
    ensures Utf16Length(password) > 20 ==> FieldError(PASSWORD_RULES, password) == Some(PASSWORD_MAX)
    ensures 6 <= Utf16Length(password) <= 20 && !PasswordPattern(password) ==>
              FieldError(PASSWORD_RULES, password) == Some(PASSWORD_WEAK)
  {
  }

  /** Every accepted password has 8 to 20 characters, and it has a
      lower-case letter, an upper-case letter, a digit and a special
      character. */
  lemma AcceptedPasswordShape(password: string)
    requires FieldError(PASSWORD_RULES, password).None?
    ensures 8 <= |password| <= 20
    ensures Contains(password, IsLowerCase) && Contains(password, IsUpperCase)
    ensures Contains(password, IsDigit) && Contains(password, IsSpecial)
    ensures forall k :: 0 <= k < |password| ==> IsPasswordChar(password[k])
  {
  }

  /** `n` copies of `c`. */
  function Repeat(c: char, n: nat): (r: string)
    ensures |r| == n && forall k :: 0 <= k < n ==> r[k] == c
  {
    if n == 0 then [] else [c] + Repeat(c, n - 1)
  }

  /** The bounds are tight: every length from 8 to 20 has an accepted
      password. */
  lemma EveryPasswordLengthReachable(n: nat)
    requires 8 <= n <= 20
    ensures exists password :: |password| == n && FieldError(PASSWORD_RULES, password).None?
  {
    var password := "Aa1@" + Repeat('a', n - 4);
    assert password[0] == 'A' && password[1] == 'a' && password[2] == '1' && password[3] == '@';
    assert forall k :: 4 <= k < n ==> password[k] == 'a';
    assert PasswordPattern(password);
    assert Utf16Length(password) == n;
  }

  /** The form starts with every field empty except the role, so only the
      role passes until the user types. */
  lemma DefaultValuesErrors()
    ensures Validate(DEFAULT_VALUES) ==
              FormErrors(Some(NAME_REQUIRED), Some(EMAIL_REQUIRED), Some(PASSWORD_REQUIRED), None)
    ensures DEFAULT_VALUES.role in ROLES
  {
  }
}
