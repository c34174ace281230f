/** The sign-up page: reading and lower-casing the form fields, the e-mail check, and the
    submit handler that posts the sign-up record only when the e-mail is valid. */
module SignupPage {
  import opened Common

  // ---------------------------------------------------------------------------
  // The e-mail check

  /** The characters of the ECMAScript `\s` class (WhiteSpace and LineTerminator,
      sections 12.2 and 12.3 of ECMA-262). */
  predicate IsJsWhitespace(c: char) {
    c == '\t' || c == '\n' || c == '\U{000B}' || c == '\U{000C}' || c == '\r' || c == ' ' ||
    c == '\U{00A0}' || c == '\U{1680}' || '\U{2000}' <= c <= '\U{200A}' ||
    c == '\U{2028}' || c == '\U{2029}' || c == '\U{202F}' || c == '\U{205F}' ||
    c == '\U{3000}' || c == '\U{FEFF}'
  }

  /** The class `[^\s@]`. */
  predicate PatternChar(c: char) {
    !IsJsWhitespace(c) && c != '@'
  }

  predicate AllPatternChars(s: string) {
    forall k :: 0 <= k < |s| ==> PatternChar(s[k])
  }

  /** The regular expression `^[^\s@]+@[^\s@]+\.[^\s@]+$` matches `s` with its '@' at `i`
      and the '.' after the second run at `j`: three non-empty runs of `[^\s@]` separated by
      those two characters and covering the whole string. */
  ghost predicate RegexMatch(s: string, i: int, j: int) {
    0 < i < j < |s| &&
    AllPatternChars(s[..i]) && s[i] == '@' &&
    i + 1 < j && AllPatternChars(s[i + 1..j]) && s[j] == '.' &&
    j + 1 < |s| && AllPatternChars(s[j + 1..])
  }

  /** `validateEmail`: one '@' with something before it, no whitespace, and a '.' strictly
      inside the part after the '@'. */
  function ValidateEmail(email: string): (ok: bool)
    ensures ok ==> |email| >= 5 && '@' in email && email[0] != '@'
  {
    var at := IndexOf(email, '@');
    0 < at < |email| &&
    (forall k | 0 <= k < |email| && k != at :: PatternChar(email[k])) &&
    (exists j | at + 1 < j < |email| - 1 :: email[j] == '.')
  }

  /** The check accepts exactly the strings the regular expression matches. */
  lemma ValidateEmailIsRegex(email: string)
    ensures ValidateEmail(email) <==> exists i, j :: RegexMatch(email, i, j)
  {
    var at := IndexOf(email, '@');
    if ValidateEmail(email) {
      var j :| at + 1 < j < |email| - 1 && email[j] == '.';
      assert AllPatternChars(email[..at]);
      assert AllPatternChars(email[at + 1..j]);
      assert AllPatternChars(email[j + 1..]);
      assert RegexMatch(email, at, j);
    }
    if i, j :| RegexMatch(email, i, j) {
      assert forall k :: 0 <= k < i ==> email[k] == email[..i][k];
      assert at == i;
      forall k | 0 <= k < |email| && k != at
        ensures PatternChar(email[k])
      {
        if k < i {
          assert email[k] == email[..i][k];
        } else if k < j {
          assert email[k] == email[i + 1..j][k - i - 1];
        } else if k > j {
          assert email[k] == email[j + 1..][k - j - 1];
        }
      }
    }
  }

  /** The number of occurrences of `c` in `s`. */
  function Count(s: string, c: char): nat {
    if s == [] then 0 else Count(s[..|s| - 1], c) + (if s[|s| - 1] == c then 1 else 0)
  }

  lemma {:induction false} CountZero(s: string, c: char)
    ensures Count(s, c) == 0 <==> c !in s
  {
    if s != [] {
      CountZero(s[..|s| - 1], c);
      assert s == s[..|s| - 1] + [s[|s| - 1]];
    }
  }

  lemma {:induction false} CountAppend(a: string, b: string, c: char)
    ensures Count(a + b, c) == Count(a, c) + Count(b, c)
  {
    if b != [] {
      CountAppend(a, b[..|b| - 1], c);
      assert (a + b)[..|a + b| - 1] == a + b[..|b| - 1];
    } else {
      assert a + b == a;
    }
  }

  /** A valid address has no whitespace, exactly one '@', and a non-empty local part. */
  lemma ValidEmailShape(email: string)
    requires ValidateEmail(email)
    ensures forall k :: 0 <= k < |email| ==> !IsJsWhitespace(email[k])
    ensures Count(email, '@') == 1
    ensures email[0] != '@'
  {
    var at := IndexOf(email, '@');
    assert email == email[..at] + [email[at]] + email[at + 1..];
    CountZero(email[..at], '@');
    var tail := email[at + 1..];
    assert '@' !in tail by {
      forall k | 0 <= k < |tail|
        ensures tail[k] != '@'
      {
        assert tail[k] == email[at + 1 + k];
      }
    }
    CountZero(tail, '@');
    CountAppend(email[..at] + [email[at]], email[at + 1..], '@');
    CountAppend(email[..at], [email[at]], '@');
    assert Count([email[at]], '@') == 1 by {
      assert [email[at]][..0] == [];
    }
  }

  /** Lower-casing never changes the verdict: it only maps letters to letters. */
  lemma ValidateEmailIgnoresCase(email: string)
    ensures ValidateEmail(Lower(email)) == ValidateEmail(email)
  {
    var low := Lower(email);
    assert forall k :: 0 <= k < |email| ==> (low[k] == '@' <==> email[k] == '@');
    assert forall k :: 0 <= k < |email| ==> (low[k] == '.' <==> email[k] == '.');
    assert forall k :: 0 <= k < |email| ==> (PatternChar(low[k]) <==> PatternChar(email[k]));
    var at := IndexOf(email, '@');
    assert IndexOf(low, '@') == at by {
      if at < |email| {
        assert low[at] == '@';
      }
    }
  }

  /** Printable ASCII other than '@' never breaks a run of `[^\s@]`. */
  predicate IsVisibleAscii(s: string) {
    forall k :: 0 <= k < |s| ==> '!' <= s[k] <= '~' && s[k] != '@'
  }

  /** Any `local@domain.tld` whose three parts are non-empty runs of visible ASCII is accepted. */
  lemma AcceptsAddress(local: string, domain: string, tld: string)
    requires local != [] && domain != [] && tld != []
    requires IsVisibleAscii(local) && IsVisibleAscii(domain) && IsVisibleAscii(tld)
    ensures ValidateEmail(local + "@" + domain + "." + tld)
  {
    var s := local + "@" + domain + "." + tld;
    var i, j := |local|, |local| + 1 + |domain|;
    assert s[..i] == local;
    assert s[i + 1..j] == domain;
    assert s[j + 1..] == tld;
    assert RegexMatch(s, i, j);
    ValidateEmailIsRegex(s);
  }

  lemma AcceptsPlainAddress()
    ensures ValidateEmail("a@b.c")
  {
    AcceptsAddress("a", "b", "c");
    assert "a" + "@" + "b" + "." + "c" == "a@b.c";
  }

  lemma RejectsEmpty()
    ensures !ValidateEmail("")
  {
  }

  lemma RejectsDomainWithoutDot()
    ensures !ValidateEmail("a@b")
  {
    assert IndexOf("a@b", '@') == 1;
  }

  lemma RejectsDotNextToAt()
    ensures !ValidateEmail("a@.c")
  {
    assert IndexOf("a@.c", '@') == 1;
  }

  lemma RejectsTrailingDot()
    ensures !ValidateEmail("a@b.")
  {
    assert IndexOf("a@b.", '@') == 1;
  }

  lemma RejectsEmptyLocalPart()
    ensures !ValidateEmail("@b.c")
  {
    assert IndexOf("@b.c", '@') == 0;
  }

  lemma RejectsSecondAt()
    ensures !ValidateEmail("a@@b.c")
  {
    assert IndexOf("a@@b.c", '@') == 1;
    assert !PatternChar("a@@b.c"[2]);
  }

  lemma RejectsSpace()
    ensures !ValidateEmail("a @b.c")
  {
    assert IsJsWhitespace("a @b.c"[1]);
  }

  // ---------------------------------------------------------------------------
  // The submit handler

  /** The form as submitted: field name to text value; a field missing from the form is
      absent from the map. */
  type Form = map<string, string>

  /** `formData.get(name)?.toString().toLowerCase() || ''`: the lower-cased value, or the
      empty string when the field is absent. */
  function Field(form: Form, name: string): (value: string)
    ensures name in form ==> value == Lower(form[name])
    ensures name !in form ==> value == ""
    ensures IsLower(value)
  {
    LowerIsLower(if name in form then form[name] else "");
    if name in form then Lower(form[name]) else ""
  }

  /** The JSON body posted to the sign-up endpoint. */
  datatype SignupData = SignupData(firstName: string, lastName: string, email: string, sport: string)

  /** What `handleSubmit` does with a form: stop at the invalid-address alert, or build the
      record it posts. */
  datatype Submission = Rejected | Post(data: SignupData)

  /** `handleSubmit` up to the POST: read and lower-case the four fields, and build the
      record only when the lower-cased e-mail passes `validateEmail`. */
  function HandleSubmit(form: Form): (r: Submission)
    ensures r.Post? <==> ValidateEmail(Field(form, "email"))
    ensures r.Post? ==> r.data == SignupData(Field(form, "firstName"), Field(form, "lastName"),
                                             Field(form, "email"), Field(form, "sport"))
  {
    var firstName := Field(form, "firstName");
    var lastName := Field(form, "lastName");
    var email := Field(form, "email");
    var sport := Field(form, "sport");
    if !ValidateEmail(email) then Rejected
    else Post(SignupData(firstName, lastName, email, sport))
  }

  /** A posted record holds the form's four fields, all lower-cased, and an e-mail the
      regular expression matches; a form without an e-mail field is never posted. */
  lemma PostedRecord(form: Form)
    ensures HandleSubmit(form).Post? ==>
              var d := HandleSubmit(form).data;
              IsLower(d.firstName) && IsLower(d.lastName) && IsLower(d.email) && IsLower(d.sport) &&
              (exists i, j :: RegexMatch(d.email, i, j)) &&
              ("email" in form ==> d.email == Lower(form["email"])) &&
              ("firstName" !in form ==> d.firstName == "")
    ensures "email" !in form ==> HandleSubmit(form) == Rejected
  {
    var r := HandleSubmit(form);
    if r.Post? {
      ValidateEmailIsRegex(r.data.email);
    }
  }

  /** Whether a form is posted does not depend on the case the user typed the address in. */
  lemma SubmitIgnoresEmailCase(form: Form)
    requires "email" in form
    ensures HandleSubmit(form).Post? <==> ValidateEmail(form["email"])
  {
    ValidateEmailIgnoresCase(form["email"]);
  }
}
