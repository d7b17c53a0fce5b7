/** The new-user form of the user administration: its field rules (the
    email pattern and the password length), and the submit handler that
    posts the account and resets the form. */
module AddUser {
  import opened Common

  // ---------------------------------------------------------------------
  // The email pattern: a local part, `@`, a domain, `.`, and at least two
  // letters to the end, matched without regard to letter case.

  predicate IsLetter(c: char) {
    'A' <= c <= 'Z' || 'a' <= c <= 'z'
  }

  predicate IsDigitChar(c: char) {
    '0' <= c <= '9'
  }

  /** A character allowed in the local part. */
  predicate IsLocalChar(c: char) {
    IsLetter(c) || IsDigitChar(c) || c == '.' || c == '_' || c == '%' || c == '+' || c == '-'
  }

  /** A character allowed in the domain. */
  predicate IsDomainChar(c: char) {
    IsLetter(c) || IsDigitChar(c) || c == '.' || c == '-'
  }

  predicate AllLocal(s: string) {
    forall i :: 0 <= i < |s| ==> IsLocalChar(s[i])
  }

  predicate AllDomain(s: string) {
    forall i :: 0 <= i < |s| ==> IsDomainChar(s[i])
  }

  predicate AllLetters(s: string) {
    forall i :: 0 <= i < |s| ==> IsLetter(s[i])
  }

  /** The pattern as written: some split of `s` into a non-empty local
      part, `@`, a non-empty domain, `.`, and two or more letters. */
  predicate MatchesEmailPattern(s: string)
    ensures MatchesEmailPattern(s) ==> 6 <= |s| && IsLetter(s[|s| - 1]) && IsLetter(s[|s| - 2])
    ensures MatchesEmailPattern(s) ==> '@' in s && '.' in s && forall i :: 0 <= i < |s| ==> s[i] != ' '
  {
    exists at, dot :: 1 <= at && at + 2 <= dot && dot + 3 <= |s|
                      && s[at] == '@' && s[dot] == '.'
                      && AllLocal(s[..at]) && AllDomain(s[at + 1..dot]) && AllLetters(s[dot + 1..])
  }

  /** The index of the first `c` in `s`. */
  function FirstIndexOf(s: string, c: char): (r: Option<nat>)
    ensures r.None? ==> c !in s
    ensures r.Some? ==> r.value < |s| && s[r.value] == c && c !in s[..r.value]
  {
    if s == [] then None
    else if s[0] == c then Some(0)
    else
      match FirstIndexOf(s[1..], c)
      case None => None
      case Some(k) =>
        assert s[..k + 1] == [s[0]] + s[1..][..k];
        Some(k + 1)
  }

  /** The index of the last `c` in `s`. */
  function LastIndexOf(s: string, c: char): (r: Option<nat>)
    ensures r.None? ==> c !in s
    ensures r.Some? ==> r.value < |s| && s[r.value] == c && c !in s[r.value + 1..]
  {
    if s == [] then None
    else if s[|s| - 1] == c then Some(|s| - 1)
    else
      var init := s[..|s| - 1];
      match LastIndexOf(init, c)
      case None => None
      case Some(k) =>
        assert s[k + 1..] == init[k + 1..] + [s[|s| - 1]];
        Some(k)
  }

  /** The email check as a decision: the `@` is the first one (the local
      part cannot hold another), the `.` is the last one (the letters after
      it cannot hold another), and the three parts have the right
      characters and lengths. */
  predicate IsValidEmail(s: string)
    ensures IsValidEmail(s) ==> 6 <= |s| && IsLetter(s[|s| - 1]) && IsLetter(s[|s| - 2])
    ensures IsValidEmail(s) ==> '@' in s && '.' in s && forall i :: 0 <= i < |s| ==> s[i] != ' '
    ensures IsValidEmail(s) ==> s[0] != '@' && forall i :: 0 <= i < |s| && s[i] == '@' ==> i == FirstIndexOf(s, '@').value
  {
    var at := FirstIndexOf(s, '@');
    var dot := LastIndexOf(s, '.');
    at.Some? && dot.Some? && 1 <= at.value && at.value + 2 <= dot.value && dot.value + 3 <= |s|
    && AllLocal(s[..at.value]) && AllDomain(s[at.value + 1..dot.value]) && AllLetters(s[dot.value + 1..])
  }

  // ---------------------------------------------------------------------
  // The form

  /** A rule a field broke. */
  datatype FieldError = Required | InvalidEmail | TooShort

  /** The broken rule of each field, if any. */
  datatype AddUserErrors = AddUserErrors(username: Option<FieldError>, email: Option<FieldError>,
                                         password: Option<FieldError>)

  /** The posted account. */
  datatype AddUserPayload = AddUserPayload(username: string, email: string, password: string)

  /** The parent's callbacks, in the order they are called. */
  datatype Callback = OnUserAdded | OnClose

  const MIN_PASSWORD_LENGTH: nat := 6

  /** The field rules: the username is required; the email is required and
      must match the pattern; the password is required and at least six
      characters long. */
  function Validate(username: string, email: string, password: string): (errs: AddUserErrors)
    ensures errs.username.None? <==> username != ""
    ensures errs.email.None? <==> email != "" && IsValidEmail(email)
    ensures errs.password.None? <==> |password| >= MIN_PASSWORD_LENGTH
    ensures email == "" ==> errs.email == Some(Required)
    ensures password == "" ==> errs.password == Some(Required)
  {
    AddUserErrors(
      if username == "" then Some(Required) else None,
      if email == "" then Some(Required) else if !IsValidEmail(email) then Some(InvalidEmail) else None,
      if password == "" then Some(Required) else if |password| < MIN_PASSWORD_LENGTH then Some(TooShort) else None)
  }

  /** The form's values and the loading flag. */
  class AddUserModal {
    var username: string
    var email: string
    var password: string
    var isLoading: bool

    constructor ()
      ensures username == "" && email == "" && password == "" && !isLoading
    {
      username, email, password := "", "", "";
      isLoading := false;
    }

    /** The submit handler. A missing password is reported and nothing is
        sent. Otherwise the account is posted; after success the parent is
        told, the form emptied and the modal closed. Loading ends false. */
    method OnSubmit(outcome: Outcome) returns (sent: Option<AddUserPayload>, callbacks: seq<Callback>, reportedError: bool)
      modifies this
      ensures !isLoading
      ensures old(password) == "" ==>
                sent.None? && callbacks == [] && reportedError
                && username == old(username) && email == old(email) && password == old(password)
      ensures old(password) != "" ==> sent == Some(AddUserPayload(old(username), old(email), old(password)))
      ensures old(password) != "" && outcome.Success? ==>
                callbacks == [OnUserAdded, OnClose] && !reportedError
                && username == "" && email == "" && password == ""
      ensures old(password) != "" && outcome.Failure? ==>
                callbacks == [] && reportedError
                && username == old(username) && email == old(email) && password == old(password)
    {
      sent, callbacks, reportedError := None, [], false;
      isLoading := true;
      if password == "" {
        reportedError := true;
        isLoading := false;
        return;
      }
      sent := Some(AddUserPayload(username, email, password));
      if outcome.Success? {
        callbacks := [OnUserAdded];
        username, email, password := "", "", "";
        callbacks := callbacks + [OnClose];
      } else {
        reportedError := true;
      }
      isLoading := false;
    }

    /** Pressing submit: the field rules run first and the handler only on
        a valid form, so the handler's own password check never fires. */
    method HandleSubmit(outcome: Outcome) returns (errors: AddUserErrors, sent: Option<AddUserPayload>, callbacks: seq<Callback>)
      modifies this
      ensures errors == Validate(old(username), old(email), old(password))
      ensures errors != AddUserErrors(None, None, None) ==>
                sent.None? && callbacks == []
                && username == old(username) && email == old(email) && password == old(password) && isLoading == old(isLoading)
      ensures errors == AddUserErrors(None, None, None) ==>
                sent == Some(AddUserPayload(old(username), old(email), old(password))) && !isLoading
                && (callbacks != [] <==> outcome.Success?)
      ensures errors == AddUserErrors(None, None, None) && outcome.Success? ==>
                callbacks == [OnUserAdded, OnClose] && username == "" && email == "" && password == ""
      ensures errors == AddUserErrors(None, None, None) && outcome.Failure? ==>
                callbacks == [] && username == old(username) && email == old(email) && password == old(password)
    {
      errors := Validate(username, email, password);
      sent, callbacks := None, [];
      if errors == AddUserErrors(None, None, None) {
        var reportedError;
        sent, callbacks, reportedError := OnSubmit(outcome);
      }
    }
  }

  // ---------------------------------------------------------------------
  // Properties

  /** A string the decision accepts matches the pattern, split at the
      first `@` and the last `.`. */
  lemma EmailCheckSound(s: string)
    requires IsValidEmail(s)
    ensures MatchesEmailPattern(s)
  {
    var at := FirstIndexOf(s, '@').value;
    var dot := LastIndexOf(s, '.').value;
    assert s[at] == '@' && s[dot] == '.';
  }

  /** A string matching the pattern is accepted by the decision: the
      pattern's `@` is the first one and its `.` the last one. */
  lemma EmailCheckComplete(s: string)
    requires MatchesEmailPattern(s)
    ensures IsValidEmail(s)
  {
    var at, dot :| 1 <= at && at + 2 <= dot && dot + 3 <= |s|
                   && s[at] == '@' && s[dot] == '.'
                   && AllLocal(s[..at]) && AllDomain(s[at + 1..dot]) && AllLetters(s[dot + 1..]);
    FirstIndexAt(s, '@', at);
    LastIndexAt(s, '.', dot);
  }

  /** The decision agrees with the pattern on every string. */
  lemma EmailCheckMatchesPattern(s: string)
    ensures IsValidEmail(s) <==> MatchesEmailPattern(s)
  {
    if IsValidEmail(s) {
      EmailCheckSound(s);
    }
    if MatchesEmailPattern(s) {
      EmailCheckComplete(s);
    }
  }

  /** An occurrence of `c` with none before it is the first one. */
  lemma FirstIndexAt(s: string, c: char, i: nat)
    requires i < |s| && s[i] == c && c !in s[..i]
    ensures FirstIndexOf(s, c) == Some(i)
  {
    assert c in s by { assert s[i] == c; }
    forall j | 0 <= j < i ensures s[j] != c {
      assert s[..i][j] == s[j];
    }
  }

  /** An occurrence of `c` with none after it is the last one. */
  lemma LastIndexAt(s: string, c: char, i: nat)
    requires i < |s| && s[i] == c && c !in s[i + 1..]
    ensures LastIndexOf(s, c) == Some(i)
  {
    assert c in s by { assert s[i] == c; }
    forall j | i < j < |s| ensures s[j] != c {
      assert s[i + 1..][j - i - 1] == s[j];
    }
  }

  /** The three parts of the mixed-case example are in their classes. */
  lemma MixedCaseParts()
    ensures AllLocal("b.C") && AllDomain("x-Y") && AllLetters("Io")
  {
  }

  /** Letter case does not matter. */
  lemma MixedCaseAccepted()
    ensures IsValidEmail("b.C@x-Y.Io")
  {
    var s := "b.C@x-Y.Io";
    assert s[..3] == "b.C" && s[4..7] == "x-Y" && s[8..] == "Io";
    assert '@' !in s[..3];
    assert '.' !in s[8..];
    FirstIndexAt(s, '@', 3);
    LastIndexAt(s, '.', 7);
    MixedCaseParts();
  }

  /** A one-letter ending is refused. */
  lemma OneLetterEndingRefused()
    ensures !IsValidEmail("a@b.c")
  {
    LastIndexAt("a@b.c", '.', 3);
  }

  /** A second `@` is refused. */
  lemma SecondAtRefused()
    ensures !IsValidEmail("a@b@c.com")
  {
    var s := "a@b@c.com";
    FirstIndexAt(s, '@', 1);
    LastIndexAt(s, '.', 5);
    assert s[2..5][1] == '@';
  }

  /** The password rule: accepted exactly from six characters on. */
  lemma PasswordRule(username: string, email: string, password: string)
    ensures Validate(username, email, password).password == None <==> |password| >= 6
    ensures |password| in {1, 2, 3, 4, 5} ==> Validate(username, email, password).password == Some(TooShort)
  {
  }
}
