/** The sign-up/login form (GetStarted.jsx): the email and password
    predicates, the touched-field error rule, the tab reset and the submit
    guard. Characters are Unicode scalar values and case mapping is ASCII. */
module FormValidation {
  import opened Common

  // ---------------------------------------------------------------------------
  // validateEmail: /^[a-zA-Z0-9._%+-]+@[a-zA-Z0-9.-]+\.[a-zA-Z]{2,}$/ on the
  // lower-cased input

  predicate IsLetter(c: char) {
    ('a' <= c <= 'z') || ('A' <= c <= 'Z')
  }

  predicate IsDigit(c: char) {
    '0' <= c <= '9'
  }

  /** `[a-zA-Z0-9._%+-]` */
  predicate IsLocalChar(c: char) {
    IsLetter(c) || IsDigit(c) || c in {'.', '_', '%', '+', '-'}
  }

  /** `[a-zA-Z0-9.-]` */
  predicate IsDomainChar(c: char) {
    IsLetter(c) || IsDigit(c) || c in {'.', '-'}
  }

  /** The regular expression's reading of `s`, split at the `@` (position
      `at`) and at the dot before the top-level domain (position `dot`):
      a non-empty local part, a non-empty domain, and two or more letters. */
  predicate EmailSplit(s: string, at: int, dot: int) {
    && 1 <= at && at + 2 <= dot && dot + 3 <= |s|
    && s[at] == '@' && s[dot] == '.'
    && (forall j :: 0 <= j < at ==> IsLocalChar(s[j]))
    && (forall j :: at < j < dot ==> IsDomainChar(s[j]))
    && (forall j :: dot < j < |s| ==> IsLetter(s[j]))
  }

  /** The language of the regular expression. */
  ghost predicate EmailShape(s: string) {
    exists at: int, dot: int :: EmailSplit(s, at, dot)
  }

  /** Index of the last occurrence of `c`. */
  function LastIndexOf(s: string, c: char): (r: int)
    ensures -1 <= r < |s|
    ensures r >= 0 ==> s[r] == c
    ensures forall j :: r < j < |s| ==> s[j] != c
  {
    if |s| == 0 then -1
    else if s[|s| - 1] == c then |s| - 1
    else LastIndexOf(s[..|s| - 1], c)
  }

  /** Index of the first occurrence of `c`. */
  function IndexOf(s: string, c: char): (r: int)
    ensures -1 <= r < |s|
    ensures r >= 0 ==> s[r] == c
    ensures forall j :: 0 <= j < |s| && (r < 0 || j < r) ==> s[j] != c
  {
    if |s| == 0 then -1
    else if s[0] == c then 0
    else
      var k := IndexOf(s[1..], c);
      if k < 0 then -1 else k + 1
  }

  /** A direct matcher: the only possible split is at the first `@` and the
      last `.`, since neither the local part may contain `@` nor the
      top-level domain `.`. */
  function MatchEmail(s: string): bool {
    var at := IndexOf(s, '@');
    var dot := LastIndexOf(s, '.');
    at >= 0 && EmailSplit(s, at, dot)
  }

  /** The matcher decides exactly the regular expression's language. */
  lemma MatchEmailDecidesShape(s: string)
    ensures MatchEmail(s) <==> EmailShape(s)
  {
    if EmailShape(s) {
      var at, dot :| EmailSplit(s, at, dot);
      assert IndexOf(s, '@') == at;
      assert LastIndexOf(s, '.') == dot;
    }
  }

  /** `toLowerCase` on one character: ASCII capitals only. */
  function LowerChar(c: char): char {
    if 'A' <= c <= 'Z' then (c as int + 32) as char else c
  }

  function ToLower(s: string): (r: string)
    ensures |r| == |s|
    ensures forall i :: 0 <= i < |s| ==> r[i] == LowerChar(s[i])
  {
    if |s| == 0 then [] else [LowerChar(s[0])] + ToLower(s[1..])
  }

  /** `validateEmail`. */
  function ValidateEmail(email: string): bool {
    MatchEmail(ToLower(email))
  }

  /** Every character class of the expression contains both cases of each
      letter, and lower-casing moves neither `@` nor `.`. */
  lemma LowerCharKeepsClasses(c: char)
    ensures IsLocalChar(LowerChar(c)) <==> IsLocalChar(c)
    ensures IsDomainChar(LowerChar(c)) <==> IsDomainChar(c)
    ensures IsLetter(LowerChar(c)) <==> IsLetter(c)
    ensures LowerChar(c) == '@' <==> c == '@'
    ensures LowerChar(c) == '.' <==> c == '.'
  {
  }

  /** Lower-casing cannot change the verdict. */
  lemma ValidateEmailIgnoresCase(email: string)
    ensures ValidateEmail(email) <==> EmailShape(email)
  {
    var l := ToLower(email);
    MatchEmailDecidesShape(l);
    forall i | 0 <= i < |email| {
      LowerCharKeepsClasses(email[i]);
    }
    forall at: int, dot: int
      ensures EmailSplit(l, at, dot) <==> EmailSplit(email, at, dot)
    {
    }
  }

  // ---------------------------------------------------------------------------
  // validatePassword: length >= 8 and /[A-Z]/

  const MinPasswordLength: nat := 8

  predicate IsCapital(c: char) {
    'A' <= c <= 'Z'
  }

  /** `validatePassword`, scanning for a capital letter. */
  method ValidatePassword(password: string) returns (ok: bool)
    ensures ok <==> |password| >= MinPasswordLength && exists i :: 0 <= i < |password| && IsCapital(password[i])
  {
    if |password| < MinPasswordLength {
      return false;
    }
    var i := 0;
    while i < |password|
      invariant 0 <= i <= |password|
      invariant forall j :: 0 <= j < i ==> !IsCapital(password[j])
    {
      if IsCapital(password[i]) {
        return true;
      }
      i := i + 1;
    }
    return false;
  }

  /** The same rule as a predicate, for use in the form state. */
  predicate PasswordOk(password: string) {
    |password| >= MinPasswordLength && exists i :: 0 <= i < |password| && IsCapital(password[i])
  }

  // ---------------------------------------------------------------------------
  // String.prototype.trim

  /** ECMAScript WhiteSpace and LineTerminator code points. */
  predicate IsJsWhitespace(c: char) {
    || c in {'\t', '\n', '\U{000B}', '\U{000C}', '\r', ' ', '\U{00A0}', '\U{1680}'}
    || ('\U{2000}' <= c <= '\U{200A}')
    || c in {'\U{2028}', '\U{2029}', '\U{202F}', '\U{205F}', '\U{3000}', '\U{FEFF}'}
  }

  function TrimStart(s: string): (r: string)
    ensures |r| <= |s| && r == s[|s| - |r|..]
    ensures |r| > 0 ==> !IsJsWhitespace(r[0])
    ensures forall i :: 0 <= i < |s| - |r| ==> IsJsWhitespace(s[i])
  {
    if |s| > 0 && IsJsWhitespace(s[0]) then TrimStart(s[1..]) else s
  }

  function TrimEnd(s: string): (r: string)
    ensures |r| <= |s| && r == s[..|r|]
    ensures |r| > 0 ==> !IsJsWhitespace(r[|r| - 1])
    ensures forall i :: |r| <= i < |s| ==> IsJsWhitespace(s[i])
  {
    if |s| > 0 && IsJsWhitespace(s[|s| - 1]) then TrimEnd(s[..|s| - 1]) else s
  }

  function Trim(s: string): string {
    TrimEnd(TrimStart(s))
  }

  /** `!name.trim()` holds exactly for names made only of white space. */
  lemma TrimEmptyIffBlank(s: string)
    ensures Trim(s) == [] <==> forall i :: 0 <= i < |s| ==> IsJsWhitespace(s[i])
  {
  }

  // ---------------------------------------------------------------------------
  // The form

  datatype Tab = SignupTab | LoginTab
  datatype Field = NameField | EmailField | PasswordField

  const NameRequired: string := "Name is required"
  const InvalidEmail: string := "Invalid email address"
  const WeakPassword: string :=
    "Password must be at least 8 characters long and contain at least 1 capital letter"

  /** The page's state. `errors` holds the field messages; `api` is the
      `errors.api` message a failed request leaves, which every `setErrors`
      of the validation and the reset drops. */
  datatype Form = Form(
    tab: Tab,
    name: string,
    email: string,
    password: string,
    touched: set<Field>,
    errors: map<Field, string>,
    api: Option<string>,
    isFormValid: bool,
    loading: bool)

  /** The form's first render, before its effects run: the sign-up tab,
      nothing typed or touched, and not yet valid. */
  const Initial: Form := Form(SignupTab, "", "", "", {}, map[], None, false, false)

  /** Whether `validateForm` reports each field. */
  predicate NameError(f: Form) {
    f.tab == SignupTab && NameField in f.touched && Trim(f.name) == []
  }

  predicate EmailError(f: Form) {
    EmailField in f.touched && !ValidateEmail(f.email)
  }

  predicate PasswordError(f: Form) {
    PasswordField in f.touched && !PasswordOk(f.password)
  }

  /** `newErrors`: one message per reported field. */
  function Errors(f: Form): (e: map<Field, string>)
    ensures NameField in e <==> NameError(f)
    ensures EmailField in e <==> EmailError(f)
    ensures PasswordField in e <==> PasswordError(f)
    ensures e == map[] <==> !NameError(f) && !EmailError(f) && !PasswordError(f)
  {
    var e0: map<Field, string> := map[];
    var e1 := if NameError(f) then e0[NameField := NameRequired] else e0;
    var e2 := if EmailError(f) then e1[EmailField := InvalidEmail] else e1;
    var e3 := if PasswordError(f) then e2[PasswordField := WeakPassword] else e2;
    assert NameError(f) ==> NameField in e3;
    e3
  }

  /** `validateForm`: a field is reported only once it has been touched; the
      name is checked only on the sign-up tab; the form is valid exactly when
      nothing is reported. */
  function ValidateForm(f: Form): (f': Form)
    ensures f'.errors.Keys <= f.touched
    ensures NameField in f'.errors <==>
      f.tab == SignupTab && NameField in f.touched && forall i :: 0 <= i < |f.name| ==> IsJsWhitespace(f.name[i])
    ensures EmailField in f'.errors <==> EmailField in f.touched && !EmailShape(f.email)
    ensures PasswordField in f'.errors <==> PasswordField in f.touched && !PasswordOk(f.password)
    ensures f'.isFormValid <==> f'.errors == map[]
    ensures f'.api.None?
    ensures f' == f.(errors := f'.errors, api := None, isFormValid := f'.isFormValid)
  {
    TrimEmptyIffBlank(f.name);
    ValidateEmailIgnoresCase(f.email);
    var e := Errors(f);
    f.(errors := e, api := None, isFormValid := !(NameError(f) || EmailError(f) || PasswordError(f)))
  }

  /** `handleBlur(field)`: marks that one field touched. */
  function HandleBlur(f: Form, field: Field): (f': Form)
    ensures f'.touched == f.touched + {field}
    ensures f' == f.(touched := f'.touched)
  {
    f.(touched := f.touched + {field})
  }

  /** The reset effect on its own: every field, error and touched flag is
      cleared, and the form is marked invalid. */
  function ResetTab(f: Form, tab: Tab): (f': Form)
    ensures f'.tab == tab && f'.name == "" && f'.email == "" && f'.password == ""
    ensures f'.touched == {} && f'.errors == map[] && f'.api.None? && !f'.isFormValid
    ensures f'.loading == f.loading
  {
    Form(tab, "", "", "", {}, map[], None, false, f.loading)
  }

  /** The two effects keyed on `activeTab`, after a render showing `tab`.
      Both run after the same render: the reset first, then the validation
      effect, which still sees the fields and touched flags of that render,
      and whose verdict is applied last. The validation effect runs once
      more only if the reset changed a field; it then sees nothing touched. */
  function TabEffects(f: Form, tab: Tab): Form
  {
    var stale := ValidateForm(f.(tab := tab));
    var committed := ResetTab(f, tab).(errors := stale.errors, api := None, isFormValid := stale.isFormValid);
    if f.name != "" || f.email != "" || f.password != "" then ValidateForm(committed) else committed
  }


  /** A change of `activeTab`. Selecting the tab already shown sets the same
      state, which React skips, so no effect runs; only a real change gets
      here. */
  function SwitchTab(f: Form, tab: Tab): (f': Form)
    requires tab != f.tab
    ensures f'.tab == tab && f'.name == "" && f'.email == "" && f'.password == ""
    ensures f'.touched == {} && f'.api.None? && f'.loading == f.loading
    ensures f.name != "" || f.email != "" || f.password != "" ==> f'.errors == map[] && f'.isFormValid
    ensures f.name == "" && f.email == "" && f.password == "" ==>
      && (NameField in f'.errors <==> tab == SignupTab && NameField in f.touched)
      && (EmailField in f'.errors <==> EmailField in f.touched)
      && (PasswordField in f'.errors <==> PasswordField in f.touched)
      && (f'.isFormValid <==> f'.errors == map[])
  {
    TabEffects(f, tab)
  }

  /** The mounted page: the first render's effects have run. Nothing is
      touched, so the empty form is valid and reports nothing. */
  function Mount(): (f: Form)
    ensures f.tab == SignupTab && f.name == "" && f.email == "" && f.password == ""
    ensures f.touched == {} && f.errors == map[] && f.api.None?
    ensures f.isFormValid && !f.loading
  {
    TabEffects(Initial, Initial.tab)
  }

  // ---------------------------------------------------------------------------
  // The browser's own checks on submit

  predicate IsAlnum(c: char) {
    IsLetter(c) || IsDigit(c)
  }

  /** The local-part characters of a valid e-mail address in the HTML
      standard (section 4.10.5.1.5, the E-mail state of `input`). */
  predicate IsHtmlLocalChar(c: char) {
    IsAlnum(c) || c in ".!#$%&'*+/=?^_`{|}~-"
  }

  /** The longest domain label the HTML rule allows. */
  const MaxLabel: nat := 63

  /** The run of `MaxLabel + 1` characters from `i` holds a dot. */
  predicate DotWithin(d: string, i: int) {
    0 <= i && i + MaxLabel < |d| && '.' in d[i..i + MaxLabel + 1]
  }

  /** The domain of a valid e-mail address: dot-separated labels of letters,
      digits and hyphens, each starting and ending with a letter or digit and
      at most 63 long. Stated by position: the ends are letters or digits,
      every dot sits between two of them, and every run of 64 characters
      holds a dot. */
  predicate HtmlDomain(d: string) {
    && |d| >= 1
    && (forall i :: 0 <= i < |d| ==> IsAlnum(d[i]) || d[i] == '-' || d[i] == '.')
    && IsAlnum(d[0]) && IsAlnum(d[|d| - 1])
    && (forall i :: 0 < i < |d| - 1 && d[i] == '.' ==> IsAlnum(d[i - 1]) && IsAlnum(d[i + 1]))
    && (forall i :: 0 <= i && i + MaxLabel < |d| ==> DotWithin(d, i))
  }

  /** The `type="email"` check: a valid e-mail address. Neither part may hold
      an `@`, so the only possible split is at the first one. */
  predicate HtmlEmail(s: string) {
    var at := IndexOf(s, '@');
    && at >= 1
    && (forall j :: 0 <= j < at ==> IsHtmlLocalChar(s[j]))
    && HtmlDomain(s[at + 1..])
  }

  /** Whether a click on the submit button, or Enter in a field, reaches the
      page's handler: the button is `disabled={loading || !isFormValid}`,
      every input of the active tab is `required`, and the email input is
      `type="email"`. */
  predicate SubmitFires(f: Form) {
    && !f.loading && f.isFormValid
    && f.email != "" && f.password != ""
    && (f.tab == SignupTab ==> f.name != "")
    && HtmlEmail(f.email)
  }

  // ---------------------------------------------------------------------------
  // The submit handlers

  const SignupFailed: string := "Something went wrong, please try again."
  const LoginFailed: string := "Invalid credentials. Please try again."
  const MoviesPath: string := "/movies"

  /** The request a submit sends. The sign-up handler's `axios.post` names a
      module the file never imports, so it throws before any request leaves. */
  datatype Submission = NoRequest | LoginRequest(email: string, password: string)

  /** How the session provider's `login` settles: success, or a rejection
      whose response may carry a `message`. */
  datatype LoginReply = LoggedIn | LoginRejected(message: Option<string>)

  /** `error.response?.data?.message || "Invalid credentials. …"`: a missing
      or empty message falls back to the page's own. */
  function RejectionMessage(message: Option<string>): (shown: string)
    ensures shown != ""
    ensures message.Some? && message.value != "" ==> shown == message.value
    ensures message.None? || message == Some("") ==> shown == LoginFailed
  {
    if message.Some? && message.value != "" then message.value else LoginFailed
  }

  /** A settled submit: the form, the request that went out, and where the
      page navigated. */
  datatype Attempt = Attempt(form: Form, request: Submission, navigateTo: Option<string>)

  /** `handleSignUp` / `handleLogin`, after the event has reached them. The
      sign-up attempt always lands in its `catch`: the error has no response,
      so the generic message is shown. The login sends the fields and either
      navigates to the movies or shows the rejection's message. `finally`
      turns the spinner off again, and `...errors` keeps the field messages
      of the render the handler ran in. */
  function Submit(f: Form, reply: LoginReply): (a: Attempt)
    ensures !SubmitFires(f) ==> a == Attempt(f, NoRequest, None)
    ensures a.request != NoRequest <==> SubmitFires(f) && f.tab == LoginTab
    ensures a.request.LoginRequest? ==> a.request == LoginRequest(f.email, f.password)
    ensures SubmitFires(f) && f.tab == SignupTab ==>
      a.form == f.(api := Some(SignupFailed)) && a.navigateTo.None?
    ensures SubmitFires(f) && f.tab == LoginTab ==>
      && (a.navigateTo == Some(MoviesPath) <==> reply.LoggedIn?)
      && (reply.LoggedIn? ==> a.form == f)
      && (reply.LoginRejected? ==> a.form == f.(api := Some(RejectionMessage(reply.message))))
    ensures SubmitFires(f) ==> !a.form.loading
    ensures a.form.errors == f.errors && a.form.isFormValid == f.isFormValid
  {
    if !SubmitFires(f) then Attempt(f, NoRequest, None)
    else
      match f.tab
      case SignupTab => Attempt(f.(api := Some(SignupFailed)), NoRequest, None)
      case LoginTab =>
        match reply
        case LoggedIn => Attempt(f, LoginRequest(f.email, f.password), Some(MoviesPath))
        case LoginRejected(m) => Attempt(f.(api := Some(RejectionMessage(m))), LoginRequest(f.email, f.password), None)
  }

  /** No form ever sends a sign-up request, whatever it holds. */
  lemma SignupNeverSends(f: Form, reply: LoginReply)
    requires f.tab == SignupTab
    ensures Submit(f, reply).request == NoRequest
    ensures SubmitFires(f) ==> Submit(f, reply).form.api == Some(SignupFailed)
  {
  }

  /** A rejection without a message, or with an empty one, shows the page's
      fallback; any other message is shown as sent. */
  lemma EmptyRejectionShowsFallback(f: Form, message: string)
    requires SubmitFires(f) && f.tab == LoginTab
    ensures Submit(f, LoginRejected(Some(""))).form.api == Some(LoginFailed)
    ensures Submit(f, LoginRejected(None)).form.api == Some(LoginFailed)
    ensures message != "" ==> Submit(f, LoginRejected(Some(message))).form.api == Some(message)
  {
  }

  /** A rejected login leaves a form that can be submitted again, with the
      same fields; a login only goes out while the spinner is off. */
  lemma RejectedLoginCanBeRetried(f: Form, message: Option<string>, reply: LoginReply)
    requires f.tab == LoginTab && SubmitFires(f)
    ensures var a := Submit(f, LoginRejected(message));
      SubmitFires(a.form) && Submit(a.form, reply).request == LoginRequest(f.email, f.password)
    ensures Submit(f.(loading := true), reply).request == NoRequest
  {
  }

  /** The two e-mail checks differ: the page's expression accepts a double
      dot that the browser refuses, and the browser accepts an address
      without a top-level domain that the expression refuses. */
  lemma EmailChecksDiffer()
    ensures MatchEmail("a@b..cd") && !HtmlEmail("a@b..cd")
    ensures HtmlEmail("a@b") && !MatchEmail("a@b")
  {
    var s := "a@b..cd";
    assert IndexOf(s, '@') == 1;
    var d := s[2..];
    assert d[1] == '.' && d[2] == '.';
    assert IndexOf("a@b", '@') == 1;
    assert "a@b"[2..] == "b";
  }

  /** An untouched form reports nothing and is valid, whatever has been
      typed. The mounted form and a form switched away from while untouched
      are valid too, yet their empty `required` inputs keep the browser from
      submitting them. */
  lemma UntouchedFormIsValid(f: Form, tab: Tab, reply: LoginReply)
    requires f.touched == {} && tab != f.tab
    ensures ValidateForm(f).isFormValid && ValidateForm(f).errors == map[]
    ensures Submit(Mount(), reply) == Attempt(Mount(), NoRequest, None)
    ensures SwitchTab(f, tab).isFormValid
    ensures Submit(SwitchTab(f, tab), reply) == Attempt(SwitchTab(f, tab), NoRequest, None)
  {
  }

  /** A switch from a blank form keeps the errors of the fields touched
      before it, although nothing is touched afterwards, and such a form
      cannot be submitted. */
  lemma StaleErrorsSurviveSwitch(f: Form, tab: Tab, reply: LoginReply)
    requires f.name == "" && f.email == "" && f.password == ""
    requires EmailField in f.touched && tab != f.tab
    ensures SwitchTab(f, tab).touched == {}
    ensures SwitchTab(f, tab).errors[EmailField] == InvalidEmail
    ensures !SwitchTab(f, tab).isFormValid
    ensures Submit(SwitchTab(f, tab), reply).request == NoRequest
  {
  }

  /** Blurring a field can only add that field's error; other fields keep
      their verdict. */
  lemma BlurAffectsOnlyThatField(f: Form, field: Field, other: Field)
    requires other != field
    ensures (other in ValidateForm(HandleBlur(f, field)).errors) <==> (other in ValidateForm(f).errors)
  {
  }
}
