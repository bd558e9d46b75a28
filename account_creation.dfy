/** The account screen: the form checks run in a fixed order and stop at the
    first failure; a successful create, or a skip, writes a fixed set of
    storage keys and leaves the onboarding flow. */
module AccountCreation {
  import opened Wizard
  import KeyValue
  import RootLayout

  /** The characters JavaScript's `trim` removes and its regex `\s` matches:
      the white space and line terminator characters of ECMAScript. */
  predicate IsJsWhitespace(c: char) {
    || c == '\t' || c == '\n' || c == '\U{000B}' || c == '\U{000C}' || c == '\r'
    || c == ' ' || c == '\U{00A0}' || c == '\U{1680}'
    || ('\U{2000}' <= c <= '\U{200A}')
    || c == '\U{2028}' || c == '\U{2029}' || c == '\U{202F}' || c == '\U{205F}'
    || c == '\U{3000}' || c == '\U{FEFF}'
  }

  /** Nothing but white space. */
  predicate Blank(t: string) {
    forall i :: 0 <= i < |t| ==> IsJsWhitespace(t[i])
  }

  /** Leading white space removed. */
  function TrimStart(s: string): (r: string)
    ensures |r| <= |s| && r == s[|s| - |r|..]
    ensures forall i :: 0 <= i < |s| - |r| ==> IsJsWhitespace(s[i])
    ensures r != [] ==> !IsJsWhitespace(r[0])
  {
    if s == [] || !IsJsWhitespace(s[0]) then s else TrimStart(s[1..])
  }

  /** Trailing white space removed. */
  function TrimEnd(s: string): (r: string)
    ensures |r| <= |s| && r == s[..|r|]
    ensures forall i :: |r| <= i < |s| ==> IsJsWhitespace(s[i])
    ensures r != [] ==> !IsJsWhitespace(r[|r| - 1])
  {
    if s == [] || !IsJsWhitespace(s[|s| - 1]) then s else TrimEnd(s[..|s| - 1])
  }

  /** `s.trim()`: the text without its leading and trailing white space.
      It is empty exactly when the text is blank, otherwise it starts and
      ends with something else, and a text already without outer white
      space is its own trim. */
  function Trim(s: string): (r: string)
    ensures |r| <= |s|
    ensures r == "" <==> Blank(s)
    ensures r != "" ==> !IsJsWhitespace(r[0]) && !IsJsWhitespace(r[|r| - 1])
    ensures s == "" || (!IsJsWhitespace(s[0]) && !IsJsWhitespace(s[|s| - 1])) ==> r == s
    ensures exists a, b :: 0 <= a <= b <= |s| && r == s[a..b] && Blank(s[..a]) && Blank(s[b..])
  {
    var t := TrimStart(s);
    assert t != [] ==> t[0] == s[|s| - |t|];
    assert t != [] ==> t[|t| - 1] == s[|s| - 1];
    var e := TrimEnd(t);
    TrimIsSlice(s, t, e);
    e
  }

  /** Trimming both ends keeps the characters between the removed runs. */
  lemma TrimIsSlice(s: string, t: string, e: string)
    requires |t| <= |s| && t == s[|s| - |t|..]
    requires forall i :: 0 <= i < |s| - |t| ==> IsJsWhitespace(s[i])
    requires |e| <= |t| && e == t[..|e|]
    requires forall i :: |e| <= i < |t| ==> IsJsWhitespace(t[i])
    ensures exists a, b :: 0 <= a <= b <= |s| && e == s[a..b] && Blank(s[..a]) && Blank(s[b..])
  {
    var a := |s| - |t|;
    var b := a + |e|;
    forall i | 0 <= i < |s[b..]| ensures IsJsWhitespace(s[b..][i]) {
      assert s[b..][i] == t[i + |e|];
    }
    assert e == s[a..b];
    assert Blank(s[..a]) by {
      forall i | 0 <= i < a ensures IsJsWhitespace(s[..a][i]) {
        assert s[..a][i] == s[i];
      }
    }
  }

  /** The character class `[^\s@]`. */
  predicate PlainChar(c: char) {
    !IsJsWhitespace(c) && c != '@'
  }

  predicate Plain(s: string) {
    forall i :: 0 <= i < |s| ==> PlainChar(s[i])
  }

  lemma PlainSlice(s: string, a: nat, b: nat)
    requires Plain(s) && a <= b <= |s|
    ensures Plain(s[a..b])
  {
    assert forall t :: 0 <= t < b - a ==> s[a..b][t] == s[a + t];
  }

  lemma PlainJoin(a: string, c: char, b: string)
    requires Plain(a) && PlainChar(c) && Plain(b)
    ensures Plain(a + [c] + b)
  {
    var s := a + [c] + b;
    forall t | 0 <= t < |s| ensures PlainChar(s[t]) {
      if t < |a| {
        assert s[t] == a[t];
      } else if t > |a| {
        assert s[t] == b[t - |a| - 1];
      }
    }
  }

  /** The part `[^\s@]+\.[^\s@]+`: plain, with a dot that is neither the
      first nor the last character. */
  predicate DottedDomain(d: string) {
    Plain(d) && exists j :: 0 < j < |d| - 1 && d[j] == '.'
  }

  /** `validateEmail`: split at the first "@", the part before is plain and
      not empty and the part after is a dotted domain (so there is no other
      "@" and no white space anywhere). */
  predicate ValidateEmail(email: string) {
    match IndexOf(email, '@')
    case None => false
    case Some(k) => k > 0 && Plain(email[..k]) && DottedDomain(email[k + 1..])
  }

  /** The text splits as `[^\s@]+` at `i`, "@", `[^\s@]+` up to `j`, ".",
      `[^\s@]+` to the end. */
  ghost predicate PatternSplit(e: string, i: nat, j: nat) {
    && 0 < i && i + 1 < j && j + 1 < |e| && e[i] == '@' && e[j] == '.'
    && Plain(e[..i]) && Plain(e[i + 1..j]) && Plain(e[j + 1..])
  }

  /** The regular expression `^[^\s@]+@[^\s@]+\.[^\s@]+$`. */
  ghost predicate MatchesEmailPattern(e: string) {
    exists i: nat, j: nat :: PatternSplit(e, i, j)
  }

  lemma ValidEmailMatches(e: string)
    requires ValidateEmail(e)
    ensures MatchesEmailPattern(e)
  {
    var k := IndexOf(e, '@').value;
    var d := e[k + 1..];
    var jd :| 0 < jd < |d| - 1 && d[jd] == '.';
    var j := k + 1 + jd;
    assert e[k + 1..j] == d[..jd];
    assert e[j + 1..] == d[jd + 1..];
    PlainSlice(d, 0, jd);
    PlainSlice(d, jd + 1, |d|);
    assert PatternSplit(e, k, j);
  }

  lemma MatchingEmailValid(e: string, i: nat, j: nat)
    requires PatternSplit(e, i, j)
    ensures ValidateEmail(e)
  {
    assert forall t :: 0 <= t < i ==> e[t] != '@' by {
      forall t | 0 <= t < i ensures e[t] != '@' {
        assert e[..i][t] == e[t];
      }
    }
    assert IndexOf(e, '@') == Some(i);
    var d := e[i + 1..];
    assert d == e[i + 1..j] + [e[j]] + e[j + 1..];
    PlainJoin(e[i + 1..j], e[j], e[j + 1..]);
    assert d[j - i - 1] == '.';
  }

  /** The format check agrees with the regular expression on every text. */
  lemma ValidateEmailMatchesPattern(e: string)
    ensures ValidateEmail(e) <==> MatchesEmailPattern(e)
  {
    if ValidateEmail(e) {
      ValidEmailMatches(e);
    }
    if MatchesEmailPattern(e) {
      var i: nat, j: nat :| PatternSplit(e, i, j);
      MatchingEmailValid(e, i, j);
    }
  }

  /** A valid email has no white space and exactly one "@", past its first
      character. */
  lemma ValidEmailShape(e: string)
    requires ValidateEmail(e)
    ensures forall t :: 0 <= t < |e| ==> !IsJsWhitespace(e[t])
    ensures IndexOf(e, '@').Some? && IndexOf(e, '@').value > 0
    ensures forall t :: 0 <= t < |e| && e[t] == '@' ==> t == IndexOf(e, '@').value
  {
    var k := IndexOf(e, '@').value;
    var before, after := e[..k], e[k + 1..];
    assert Plain(before) && Plain(after);
    forall t | 0 <= t < |e| ensures PlainChar(e[t]) || t == k {
      if t < k {
        assert before[t] == e[t] && PlainChar(before[t]);
      } else if t > k {
        assert after[t - k - 1] == e[t] && PlainChar(after[t - k - 1]);
      }
    }
    assert !IsJsWhitespace(e[k]);
  }

  /** Surrounding white space fails the format check, although the stored
      email would be trimmed. */
  lemma SurroundingSpaceFailsEmail(e: string)
    requires e != [] && (IsJsWhitespace(e[0]) || IsJsWhitespace(e[|e| - 1]))
    ensures !ValidateEmail(e)
  {
    match IndexOf(e, '@')
    case None =>
    case Some(k) =>
      if k > 0 {
        assert e[..k][0] == e[0];
      }
      if k + 1 < |e| {
        var d := e[k + 1..];
        assert d[|d| - 1] == e[|e| - 1];
      }
  }

  /** The number of UTF-16 code units of a text, which is what `length` counts. */
  function Utf16Length(s: string): (n: nat)
    ensures |s| <= n <= 2 * |s|
  {
    if s == [] then 0 else (if s[0] as int > 0xFFFF then 2 else 1) + Utf16Length(s[1..])
  }

  /** `validatePassword`: at least eight code units. */
  predicate ValidatePassword(password: string) {
    Utf16Length(password) >= 8
  }

  /** Eight characters always suffice; a password of seven characters passes
      only when one of them lies outside the basic multilingual plane. */
  lemma {:induction false} PasswordLengthBounds(password: string)
    ensures |password| >= 8 ==> ValidatePassword(password)
    ensures (forall i :: 0 <= i < |password| ==> password[i] as int <= 0xFFFF) ==>
      (ValidatePassword(password) <==> |password| >= 8)
  {
    if forall i :: 0 <= i < |password| ==> password[i] as int <= 0xFFFF {
      BasicPlaneLength(password);
    }
  }

  lemma {:induction false} BasicPlaneLength(s: string)
    requires forall i :: 0 <= i < |s| ==> s[i] as int <= 0xFFFF
    ensures Utf16Length(s) == |s|
  {
    if s != [] {
      assert forall i :: 0 <= i < |s[1..]| ==> s[1..][i] == s[i + 1];
      BasicPlaneLength(s[1..]);
    }
  }

  datatype Form = Form(name: string, email: string, password: string, confirmPassword: string)

  /** The alert raised by a failed check of `handleCreateAccount`. */
  datatype FormError =
    | NameMissing | EmailMissing | EmailMalformed
    | PasswordMissing | PasswordTooShort | PasswordMismatch

  /** The checks of `handleCreateAccount`, in order; the first that fails
      decides the alert. The format is checked on the untrimmed email. */
  function Validate(f: Form): (r: Option<FormError>)
    ensures r == Some(NameMissing) <==> Trim(f.name) == ""
    ensures r == Some(EmailMissing) <==> Trim(f.name) != "" && Trim(f.email) == ""
    ensures r == Some(EmailMalformed) <==>
      Trim(f.name) != "" && Trim(f.email) != "" && !ValidateEmail(f.email)
    ensures r == Some(PasswordMissing) <==>
      Trim(f.name) != "" && Trim(f.email) != "" && ValidateEmail(f.email) && f.password == ""
    ensures r == Some(PasswordTooShort) <==>
      (&& Trim(f.name) != "" && Trim(f.email) != "" && ValidateEmail(f.email) && f.password != ""
       && !ValidatePassword(f.password))
    ensures r == Some(PasswordMismatch) <==>
      (&& Trim(f.name) != "" && Trim(f.email) != "" && ValidateEmail(f.email) && f.password != ""
       && ValidatePassword(f.password) && f.password != f.confirmPassword)
  {
    if Trim(f.name) == "" then Some(NameMissing)
    else if Trim(f.email) == "" then Some(EmailMissing)
    else if !ValidateEmail(f.email) then Some(EmailMalformed)
    else if f.password == "" then Some(PasswordMissing)
    else if !ValidatePassword(f.password) then Some(PasswordTooShort)
    else if f.password != f.confirmPassword then Some(PasswordMismatch)
    else None
  }

  /** `isFormValid`, which enables the Create Account button. */
  predicate IsFormValid(f: Form) {
    && Trim(f.name) != "" && Trim(f.email) != "" && ValidateEmail(f.email)
    && f.password != "" && ValidatePassword(f.password) && f.password == f.confirmPassword
  }

  /** The button is enabled exactly when the create handler's checks pass. */
  lemma FormValidIffNoError(f: Form)
    ensures IsFormValid(f) <==> Validate(f) == None
  {
    if Validate(f) != None {
      assert Validate(f).value in {NameMissing, EmailMissing, EmailMalformed, PasswordMissing, PasswordTooShort, PasswordMismatch};
    }
  }

  const UserName := "user_name"
  const UserEmail := "user_email"
  const UserPassword := "user_password"
  const AccountCreated := "account_created"
  const TempUserName := "temp_user_name"

  /** The writes of a successful create, given the values stored. */
  function AccountWrites(s: map<string, string>, name: string, email: string, password: string): map<string, string> {
    s[UserName := name][UserEmail := email][UserPassword := password]
     [RootLayout.OnboardingComplete := "true"][AccountCreated := "true"] - {TempUserName}
  }

  /** The storage after a successful create. */
  function CreatedEntries(s: map<string, string>, f: Form): map<string, string> {
    AccountWrites(s, Trim(f.name), Trim(f.email), f.password)
  }

  /** The storage after a skip. */
  function SkippedEntries(s: map<string, string>, name: string): map<string, string> {
    s[UserName := Trim(name)][RootLayout.OnboardingComplete := "true"] - {TempUserName}
  }

  /** The keys the two handlers touch are six different keys. */
  lemma StorageKeysDiffer()
    ensures UserName != UserEmail && UserName != UserPassword && UserEmail != UserPassword
    ensures UserName != RootLayout.OnboardingComplete && UserName != AccountCreated && UserName != TempUserName
    ensures UserEmail != RootLayout.OnboardingComplete && UserEmail != AccountCreated && UserEmail != TempUserName
    ensures UserPassword != RootLayout.OnboardingComplete && UserPassword != AccountCreated && UserPassword != TempUserName
    ensures RootLayout.OnboardingComplete != AccountCreated && RootLayout.OnboardingComplete != TempUserName
    ensures AccountCreated != TempUserName
  {
    assert UserName[5] == 'n' && UserEmail[5] == 'e' && UserPassword[5] == 'p';
    assert UserName[0] == 'u' && UserEmail[0] == 'u' && UserPassword[0] == 'u';
    assert RootLayout.OnboardingComplete[0] == 'o' && AccountCreated[0] == 'a' && TempUserName[0] == 't';
  }

  /** A successful create sets exactly the five keys (the trimmed name and
      email, the password as typed, and the two flags) and removes the
      temporary name. */
  lemma CreateWritesKeys(s: map<string, string>, f: Form)
    ensures var r := CreatedEntries(s, f);
      && UserName in r && r[UserName] == Trim(f.name)
      && UserEmail in r && r[UserEmail] == Trim(f.email)
      && UserPassword in r && r[UserPassword] == f.password
      && RootLayout.OnboardingComplete in r && r[RootLayout.OnboardingComplete] == "true"
      && AccountCreated in r && r[AccountCreated] == "true"
      && TempUserName !in r
  {
    AccountWritesKeys(s, Trim(f.name), Trim(f.email), f.password);
  }

  lemma AccountWritesKeys(s: map<string, string>, name: string, email: string, password: string)
    ensures var r := AccountWrites(s, name, email, password);
      && UserName in r && r[UserName] == name
      && UserEmail in r && r[UserEmail] == email
      && UserPassword in r && r[UserPassword] == password
      && RootLayout.OnboardingComplete in r && r[RootLayout.OnboardingComplete] == "true"
      && AccountCreated in r && r[AccountCreated] == "true"
      && TempUserName !in r
  {
    StorageKeysDiffer();
  }

  /** A successful create leaves every other key as it was. */
  lemma CreateKeepsOtherKeys(s: map<string, string>, f: Form, k: string)
    requires k != UserName && k != UserEmail && k != UserPassword
    requires k != RootLayout.OnboardingComplete && k != AccountCreated && k != TempUserName
    ensures k in CreatedEntries(s, f) <==> k in s
    ensures k in s ==> CreatedEntries(s, f)[k] == s[k]
  {
    AccountWritesKeepOthers(s, Trim(f.name), Trim(f.email), f.password, k);
  }

  lemma AccountWritesKeepOthers(s: map<string, string>, name: string, email: string, password: string, k: string)
    requires k != UserName && k != UserEmail && k != UserPassword
    requires k != RootLayout.OnboardingComplete && k != AccountCreated && k != TempUserName
    ensures k in AccountWrites(s, name, email, password) <==> k in s
    ensures k in s ==> AccountWrites(s, name, email, password)[k] == s[k]
  {
  }

  /** A skip sets only the trimmed name, even when it is empty, and the
      completion flag, and removes the temporary name. */
  lemma SkipWritesKeys(s: map<string, string>, name: string)
    ensures var r := SkippedEntries(s, name);
      && UserName in r && r[UserName] == Trim(name)
      && RootLayout.OnboardingComplete in r && r[RootLayout.OnboardingComplete] == "true"
      && TempUserName !in r
  {
    StorageKeysDiffer();
  }

  /** A skip leaves every other key as it was, the email, the password and
      the account flag among them. */
  lemma SkipKeepsOtherKeys(s: map<string, string>, name: string, k: string)
    requires k != UserName && k != RootLayout.OnboardingComplete && k != TempUserName
    ensures k in SkippedEntries(s, name) <==> k in s
    ensures k in s ==> SkippedEntries(s, name)[k] == s[k]
  {
  }

  /** Either way out of the screen stores the flag the boot rule reads, so
      the next start sends the user to the tabs, not to onboarding. */
  lemma FinishingMarksOnboardingComplete(s: map<string, string>, f: Form)
    ensures RootLayout.StatusFromRead(KeyValue.ReadOk(KeyValue.Lookup(CreatedEntries(s, f), RootLayout.OnboardingComplete)))
    ensures RootLayout.StatusFromRead(KeyValue.ReadOk(KeyValue.Lookup(SkippedEntries(s, f.name), RootLayout.OnboardingComplete)))
    ensures RootLayout.Redirect(
      Some(RootLayout.StatusFromRead(KeyValue.ReadOk(KeyValue.Lookup(CreatedEntries(s, f), RootLayout.OnboardingComplete)))),
      true, Some("onboarding")) == Replace(RootLayout.TabsRoute)
    ensures RootLayout.Redirect(
      Some(RootLayout.StatusFromRead(KeyValue.ReadOk(KeyValue.Lookup(SkippedEntries(s, f.name), RootLayout.OnboardingComplete)))),
      true, Some("onboarding")) == Replace(RootLayout.TabsRoute)
  {
    CreateSetsFlag(s, f);
    SkipSetsFlag(s, f.name);
  }

  /** The layout reads the flag only when it mounts, and its redirect runs
      again on every route change with that status. A session that started
      without the flag therefore stays "incomplete" after create or skip: the
      replace to the tabs lands on the "(tabs)" segment, and the redirect
      sends the user back to onboarding, although a fresh read of the store
      would leave them where they are. */
  lemma FinishingInSessionReturnsToOnboarding(s: map<string, string>, f: Form)
    requires KeyValue.Lookup(s, RootLayout.OnboardingComplete) != Some("true")
    ensures RootLayout.Redirect(
      Some(RootLayout.StatusFromRead(KeyValue.ReadOk(KeyValue.Lookup(s, RootLayout.OnboardingComplete)))),
      true, Some("(tabs)")) == Replace(RootLayout.OnboardingRoute)
    ensures RootLayout.Redirect(
      Some(RootLayout.StatusFromRead(KeyValue.ReadOk(KeyValue.Lookup(CreatedEntries(s, f), RootLayout.OnboardingComplete)))),
      true, Some("(tabs)")) == Stay
    ensures RootLayout.Redirect(
      Some(RootLayout.StatusFromRead(KeyValue.ReadOk(KeyValue.Lookup(SkippedEntries(s, f.name), RootLayout.OnboardingComplete)))),
      true, Some("(tabs)")) == Stay
  {
    assert "(tabs)" != "onboarding" by { assert "(tabs)"[0] != "onboarding"[0]; }
    CreateSetsFlag(s, f);
    SkipSetsFlag(s, f.name);
  }

  lemma CreateSetsFlag(s: map<string, string>, f: Form)
    ensures KeyValue.Lookup(CreatedEntries(s, f), RootLayout.OnboardingComplete) == Some("true")
  {
    CreateWritesKeys(s, f);
  }

  lemma SkipSetsFlag(s: map<string, string>, name: string)
    ensures KeyValue.Lookup(SkippedEntries(s, name), RootLayout.OnboardingComplete) == Some("true")
  {
    SkipWritesKeys(s, name);
  }

  class Screen {
    var name: string
    var email: string
    var password: string
    var confirmPassword: string
    var isLoading: bool

    constructor ()
      ensures name == "" && email == "" && password == "" && confirmPassword == "" && !isLoading
    {
      name, email, password, confirmPassword := "", "", "", "";
      isLoading := false;
    }

    function Fields(): Form
      reads this
    {
      Form(name, email, password, confirmPassword)
    }

    /** The mount effect: the name is prefilled from `temp_user_name` when
        the read succeeds with a non-empty value; `failed` says whether the
        storage layer throws. */
    method Prefill(store: KeyValue.Store, failed: bool)
      modifies this`name
      ensures !failed && TempUserName in store.entries && store.entries[TempUserName] != "" ==>
        name == store.entries[TempUserName]
      ensures !(!failed && TempUserName in store.entries && store.entries[TempUserName] != "") ==>
        name == old(name)
    {
      var read := KeyValue.Read(store.entries, TempUserName, failed);
      if read.ReadOk? && read.value.Some? && read.value.value != "" {
        name := read.value.value;
      }
    }

    /** The text fields' change handlers. */
    method Edit(f: Form)
      modifies this`name, this`email, this`password, this`confirmPassword
      ensures Fields() == f
    {
      name, email, password, confirmPassword := f.name, f.email, f.password, f.confirmPassword;
    }

    /** `handleCreateAccount` (from the button or from the confirmation
        field's submit): a failed check raises its alert and writes nothing;
        otherwise the account is stored and the tabs replace the route. */
    method CreateAccount(store: KeyValue.Store) returns (alert: Option<FormError>, nav: Nav<()>)
      modifies this`isLoading, store
      ensures alert == Validate(Fields())
      ensures alert.Some? ==>
        store.entries == old(store.entries) && isLoading == old(isLoading) && nav == Stay
      ensures alert.None? ==>
        (&& store.entries == CreatedEntries(old(store.entries), Fields())
         && !isLoading && nav == Replace(RootLayout.TabsRoute))
    {
      var f := Fields();
      alert := Validate(f);
      if alert.Some? {
        nav := Stay;
        return;
      }
      isLoading := true;
      store.SetItem(UserName, Trim(f.name));
      store.SetItem(UserEmail, Trim(f.email));
      store.SetItem(UserPassword, f.password);
      store.SetItem(RootLayout.OnboardingComplete, "true");
      store.SetItem(AccountCreated, "true");
      store.RemoveItem(TempUserName);
      isLoading := false;
      assert Fields() == f;
      nav := Replace(RootLayout.TabsRoute);
    }

    /** `handleSkip`: the name alone is stored and the tabs replace the route. */
    method Skip(store: KeyValue.Store) returns (nav: Nav<()>)
      modifies store
      ensures store.entries == SkippedEntries(old(store.entries), name)
      ensures nav == Replace(RootLayout.TabsRoute)
    {
      store.SetItem(UserName, Trim(name));
      store.SetItem(RootLayout.OnboardingComplete, "true");
      store.RemoveItem(TempUserName);
      nav := Replace(RootLayout.TabsRoute);
    }
  }
}
