/** The contact form's submit handler: required fields, then the e-mail
    shape, then an acknowledgment and a reset. Nothing is sent anywhere. */
module ContactForm {

  /** JavaScript's `\s`: the ECMAScript white space and line terminator
      characters. */
  predicate IsWhitespace(c: char)
  {
    c == ' ' || '\t' <= c <= '\r' || c == '\U{00A0}' || c == '\U{1680}' ||
    '\U{2000}' <= c <= '\U{200A}' || c == '\U{2028}' || c == '\U{2029}' ||
    c == '\U{202F}' || c == '\U{205F}' || c == '\U{3000}' || c == '\U{FEFF}'
  }

  /** A character the class `[^\s@]` accepts. */
  predicate IsPlain(c: char)
  {
    !IsWhitespace(c) && c != '@'
  }

  /** The pattern `^[^\s@]+@[^\s@]+\.[^\s@]+$`, written out: an `@` at `at`
      and a `.` at `dot` split the string into three non-empty runs of
      plain characters. */
  ghost predicate MatchesEmailPattern(s: string)
    ensures MatchesEmailPattern(s) ==> |s| >= 5 && IsPlain(s[0]) && IsPlain(s[|s| - 1])
  {
    exists at, dot :: 0 < at && at + 1 < dot < |s| - 1 && s[at] == '@' && s[dot] == '.' &&
      (forall k :: 0 <= k < |s| && k != at && k != dot ==> IsPlain(s[k]))
  }

  /** Number of occurrences of `c` in `s`. */
  function Count(s: string, c: char): nat
  {
    if s == [] then 0 else (if s[0] == c then 1 else 0) + Count(s[1..], c)
  }

  /** Position of the first `c` in `s`, or -1. */
  function IndexOf(s: string, c: char): (i: int)
    ensures -1 <= i < |s|
    ensures i >= 0 ==> s[i] == c && forall k :: 0 <= k < i ==> s[k] != c
    ensures i == -1 ==> forall k :: 0 <= k < |s| ==> s[k] != c
  {
    if s == [] then -1
    else if s[0] == c then 0
    else
      var i := IndexOf(s[1..], c);
      if i < 0 then -1 else i + 1
  }

  /** `c` occurs exactly once in `s`, at position `i`. */
  lemma {:induction false} CountOnce(s: string, c: char, i: int)
    requires 0 <= i < |s| && s[i] == c
    ensures Count(s, c) == 1 <==> forall k :: 0 <= k < |s| && k != i ==> s[k] != c
  {
    if i == 0 {
      CountNone(s[1..], c);
    } else {
      CountOnce(s[1..], c, i - 1);
      CountNone(s[1..], c);
      assert s[1..][i - 1] == c;
      assert forall k :: 1 <= k < |s| ==> s[k] == s[1..][k - 1];
    }
  }

  lemma {:induction false} CountNone(s: string, c: char)
    ensures Count(s, c) == 0 <==> forall k :: 0 <= k < |s| ==> s[k] != c
  {
    if s != [] {
      CountNone(s[1..], c);
      assert forall k :: 1 <= k < |s| ==> s[k] == s[1..][k - 1];
    }
  }

  /** The e-mail shape as the handler checks it: no white space, exactly one
      `@`, something before it, and a `.` in the domain with at least one
      character on each side. */
  predicate IsValidEmail(s: string)
    ensures IsValidEmail(s) ==> |s| >= 5 && IsPlain(s[0])
  {
    (forall k :: 0 <= k < |s| ==> !IsWhitespace(s[k])) &&
    Count(s, '@') == 1 &&
    var at := IndexOf(s, '@');
    at > 0 && exists dot :: at + 1 < dot < |s| - 1 && s[dot] == '.'
  }

  /** The structural predicate accepts exactly the strings the pattern matches. */
  lemma ValidEmailIffPattern(s: string)
    ensures IsValidEmail(s) <==> MatchesEmailPattern(s)
  {
    if IsValidEmail(s) {
      var at := IndexOf(s, '@');
      CountOnce(s, '@', at);
      var dot :| at + 1 < dot < |s| - 1 && s[dot] == '.';
      assert forall k :: 0 <= k < |s| && k != at && k != dot ==> IsPlain(s[k]);
    }
    if MatchesEmailPattern(s) {
      var at, dot :| 0 < at && at + 1 < dot < |s| - 1 && s[at] == '@' && s[dot] == '.' &&
        (forall k :: 0 <= k < |s| && k != at && k != dot ==> IsPlain(s[k]));
      CountOnce(s, '@', at);
      assert forall k :: 0 <= k < |s| ==> !IsWhitespace(s[k]) by {
        forall k | 0 <= k < |s|
          ensures !IsWhitespace(s[k])
        {
          if k != at && k != dot { assert IsPlain(s[k]); }
        }
      }
      assert IndexOf(s, '@') == at;
    }
  }

  /** The form's three named fields; a field the form lacks reads as "". */
  datatype Form = Form(name: string, email: string, message: string)

  /** What `form.reset()` leaves in the fields. */
  const BlankForm := Form("", "", "")

  /** Toast severities the handler uses. */
  datatype Severity = Success | Error

  datatype Notice = Notice(severity: Severity, text: string)

  const RequiredFieldsNotice := Notice(Error, "Lütfen tüm gerekli alanları doldurun.")
  const InvalidEmailNotice := Notice(Error, "Lütfen geçerli bir e-posta adresi girin.")
  const SentNotice := Notice(Success, "Mesajınız başarıyla gönderildi! En kısa sürede size dönüş yapacağım.")

  /** The toast shown and the fields left after a submit. */
  datatype Submission = Submission(notice: Notice, form: Form)

  /** The submit handler: a missing field wins over a malformed e-mail; only
      a complete, well-formed form is acknowledged and cleared. */
  function Submit(f: Form): (r: Submission)
    ensures f.name == "" || f.email == "" || f.message == "" ==>
              r == Submission(RequiredFieldsNotice, f)
    ensures f.name != "" && f.email != "" && f.message != "" && !MatchesEmailPattern(f.email) ==>
              r == Submission(InvalidEmailNotice, f)
    ensures r.notice.severity == Success <==>
              f.name != "" && f.email != "" && f.message != "" && MatchesEmailPattern(f.email)
    ensures r.notice.severity == Success ==> r == Submission(SentNotice, BlankForm)
    ensures r.form == (if r.notice.severity == Success then BlankForm else f)
  {
    ValidEmailIffPattern(f.email);
    if f.name == "" || f.email == "" || f.message == "" then
      Submission(RequiredFieldsNotice, f)
    else if !IsValidEmail(f.email) then
      Submission(InvalidEmailNotice, f)
    else
      Submission(SentNotice, BlankForm)
  }

  /** A rejected form is left as it was, so submitting it again gives the same
      error; an accepted one is cleared, so submitting again reports the
      missing fields. */
  lemma ResubmitAfterSubmit(f: Form)
    ensures Submit(f).notice.severity == Error ==> Submit(Submit(f).form) == Submit(f)
    ensures Submit(f).notice.severity == Success ==>
              Submit(Submit(f).form).notice == RequiredFieldsNotice
  {
  }

  /** A filled form with the address `a@b.co` is acknowledged and cleared;
      one with an empty e-mail is refused and kept. */
  lemma SubmitExamples()
    ensures Submit(Form("A", "a@b.co", "hi")) == Submission(SentNotice, BlankForm)
    ensures Submit(Form("A", "", "hi")) == Submission(RequiredFieldsNotice, Form("A", "", "hi"))
    ensures Submit(Form("A", "a@b", "hi")) == Submission(InvalidEmailNotice, Form("A", "a@b", "hi"))
  {
    var ok := "a@b.co";
    assert IndexOf(ok, '@') == 1 && Count(ok, '@') == 1 && ok[3] == '.';
  }
}
