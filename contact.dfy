/**
  The contact form of the contact section: its field validation, the gate that enables the
  submit button, the ordered checks of the submit handler, the request it sends, the handling
  of the relay's answer, and the handlers that edit the form or open and close the booking and
  pricing dialogs. The network answer is an input; what a method returns is the notification
  the user would see.
*/
module Contact {
  import opened Text

  // ---------------------------------------------------------------------------------------
  // Email pattern /^[^\s@]+@[^\s@]+\.[^\s@]+$/

  /** `[^\s@]+`: a non-empty run of characters that are neither whitespace nor `@`. */
  predicate IsAtomRun(s: string) {
    |s| > 0 && forall i :: 0 <= i < |s| ==> s[i] != '@' && !IsSpace(s[i])
  }

  /** Some `.` has at least one character on each side. */
  predicate HasInnerDot(r: string) {
    exists p :: 0 < p < |r| - 1 && r[p] == '.'
  }

  /** Matcher for the pattern: one `@` with an atom run before it, and after it an atom run
      that has an inner dot (the greedy `[^\s@]+` before `\.` can swallow earlier dots). */
  predicate MatchesEmailPattern(t: string) {
    var k := IndexOf(t, '@');
    k < |t| && IsAtomRun(t[..k]) && IsAtomRun(t[k + 1..]) && HasInnerDot(t[k + 1..])
  }

  /** The meaning of the regular expression itself: three atom runs `a`, `b`, `c` in the
      shape `a@b.c`. */
  ghost predicate EmailShape(t: string) {
    exists a, b, c :: t == a + "@" + b + "." + c && IsAtomRun(a) && IsAtomRun(b) && IsAtomRun(c)
  }

  /** `isValidEmail`: the pattern is tested against the lower-cased text. */
  predicate IsValidEmail(s: string) {
    MatchesEmailPattern(Lower(s))
  }

  lemma {:induction false} AtomRunSplit(r: string, p: nat)
    requires IsAtomRun(r) && 0 < p < |r| - 1
    ensures IsAtomRun(r[..p]) && IsAtomRun(r[p + 1..])
  {
  }

  lemma {:induction false} AtomRunJoin(b: string, c: string)
    requires IsAtomRun(b) && IsAtomRun(c)
    ensures IsAtomRun(b + "." + c) && HasInnerDot(b + "." + c)
  {
    var r := b + "." + c;
    assert r[|b|] == '.';
    forall i | 0 <= i < |r| ensures r[i] != '@' && !IsSpace(r[i]) {
      if i < |b| {
        assert r[i] == b[i];
      } else if i > |b| {
        assert r[i] == c[i - |b| - 1];
      }
    }
  }

  lemma {:induction false} EmailPatternSound(t: string)
    requires MatchesEmailPattern(t)
    ensures EmailShape(t)
  {
    var k := IndexOf(t, '@');
    var r := t[k + 1..];
    var p :| 0 < p < |r| - 1 && r[p] == '.';
    var a, b, c := t[..k], r[..p], r[p + 1..];
    AtomRunSplit(r, p);
    assert r == b + "." + c;
    assert t == a + "@" + r;
    assert t == a + "@" + b + "." + c;
  }

  lemma {:induction false} EmailPatternComplete(a: string, b: string, c: string)
    requires IsAtomRun(a) && IsAtomRun(b) && IsAtomRun(c)
    ensures MatchesEmailPattern(a + "@" + b + "." + c)
  {
    var r := b + "." + c;
    var t := a + "@" + r;
    assert t == a + "@" + b + "." + c;
    assert t[..|a|] == a;
    assert t[|a|] == '@';
    assert '@' !in a;
    IndexOfIsFirst(t, '@', |a|);
    assert t[|a| + 1..] == r;
    AtomRunJoin(b, c);
  }

  /** The matcher accepts exactly the texts of the shape `a@b.c`. */
  lemma {:induction false} EmailPatternMeaning(t: string)
    ensures MatchesEmailPattern(t) <==> EmailShape(t)
  {
    if MatchesEmailPattern(t) {
      EmailPatternSound(t);
    }
    if EmailShape(t) {
      EmailShapeMatches(t);
    }
  }

  lemma {:induction false} EmailShapeMatches(t: string)
    requires EmailShape(t)
    ensures MatchesEmailPattern(t)
  {
    var a, b, c :| t == a + "@" + b + "." + c && IsAtomRun(a) && IsAtomRun(b) && IsAtomRun(c);
    EmailPatternComplete(a, b, c);
  }

  lemma {:induction false} LowerKeepsAtomRun(s: string)
    ensures IsAtomRun(Lower(s)) <==> IsAtomRun(s)
  {
    var t := Lower(s);
    if IsAtomRun(s) {
      forall i | 0 <= i < |t| ensures t[i] != '@' && !IsSpace(t[i]) {
        assert t[i] == LowerChar(s[i]);
      }
    }
    if IsAtomRun(t) {
      forall i | 0 <= i < |s| ensures s[i] != '@' && !IsSpace(s[i]) {
        assert t[i] == LowerChar(s[i]);
      }
    }
  }

  lemma {:induction false} LowerKeepsInnerDot(s: string)
    ensures HasInnerDot(Lower(s)) <==> HasInnerDot(s)
  {
    if HasInnerDot(s) {
      var p :| 0 < p < |s| - 1 && s[p] == '.';
      assert Lower(s)[p] == '.';
    }
    if HasInnerDot(Lower(s)) {
      var p :| 0 < p < |s| - 1 && Lower(s)[p] == '.';
      assert s[p] == '.';
    }
  }

  /** Lower-casing cannot change the verdict: it never creates or removes `@`, `.` or whitespace. */
  lemma {:induction false} EmailCaseInsensitive(s: string)
    ensures IsValidEmail(s) <==> MatchesEmailPattern(s)
  {
    var t := Lower(s);
    var k := IndexOf(s, '@');
    if k < |s| {
      assert t[k] == '@';
      assert t[..k] == Lower(s[..k]);
      IndexOfIsFirst(t, '@', k);
      assert t[k + 1..] == Lower(s[k + 1..]);
      LowerKeepsAtomRun(s[..k]);
      LowerKeepsAtomRun(s[k + 1..]);
      LowerKeepsInnerDot(s[k + 1..]);
    } else {
      assert '@' !in t;
      assert IndexOf(t, '@') == |t|;
    }
  }

  /** `isValidEmail` holds exactly for the texts of the shape `a@b.c` with three atom runs. */
  lemma {:induction false} ValidEmailIff(s: string)
    ensures IsValidEmail(s) <==> EmailShape(s)
  {
    EmailCaseInsensitive(s);
    EmailPatternMeaning(s);
  }

  lemma {:induction false} ShapeOneAtNoSpace(a: string, b: string, c: string)
    requires IsAtomRun(a) && IsAtomRun(b) && IsAtomRun(c)
    ensures multiset(a + "@" + b + "." + c)['@'] == 1
    ensures NoSpace(a + "@" + b + "." + c)
  {
    var s := a + "@" + b + "." + c;
    assert '@' !in a && '@' !in b && '@' !in c;
    assert multiset(s) == multiset(a) + multiset{'@'} + multiset(b) + multiset{'.'} + multiset(c);
    forall i | 0 <= i < |s| ensures !IsSpace(s[i]) {
      if i < |a| {
        assert s[i] == a[i];
      } else if i == |a| {
      } else if i < |a| + 1 + |b| {
        assert s[i] == b[i - |a| - 1];
      } else if i > |a| + 1 + |b| {
        assert s[i] == c[i - |a| - 2 - |b|];
      }
    }
  }

  /** A valid email has exactly one `@` and no whitespace. */
  lemma {:induction false} ValidEmailOneAtNoSpace(s: string)
    requires IsValidEmail(s)
    ensures multiset(s)['@'] == 1
    ensures NoSpace(s)
  {
    ValidEmailIff(s);
    var a, b, c :| s == a + "@" + b + "." + c && IsAtomRun(a) && IsAtomRun(b) && IsAtomRun(c);
    ShapeOneAtNoSpace(a, b, c);
  }

  // ---------------------------------------------------------------------------------------
  // Message length

  /** `isMessageLongEnough`: a JavaScript `length` of at least ten once surrounding
      whitespace is removed. `length` counts UTF-16 code units, so a character outside the
      Basic Multilingual Plane counts twice. */
  predicate IsMessageLongEnough(s: string) {
    Utf16Length(Trim(s)) >= 10
  }

  /** Leading and trailing whitespace never counts towards the ten characters. */
  lemma {:induction false} MessageCheckIgnoresPadding(w1: string, s: string, w2: string)
    requires AllSpace(w1) && AllSpace(w2)
    ensures IsMessageLongEnough(w1 + s + w2) <==> IsMessageLongEnough(s)
  {
    TrimIgnoresPadding(w1, s, w2);
  }

  // ---------------------------------------------------------------------------------------
  // Form record, request and answer

  datatype Field = NameField | EmailField | MessageField | HpField

  /** The form state; `hp` is the hidden honeypot field. */
  datatype Form = Form(name: string, email: string, message: string, hp: string) {
    function Get(f: Field): string {
      match f
      case NameField => name
      case EmailField => email
      case MessageField => message
      case HpField => hp
    }

    /** `setForm((p) => ({ ...p, [name]: value }))`: one field replaced, the others kept. */
    function Set(f: Field, value: string): (r: Form)
      ensures r.Get(f) == value
      ensures forall g :: g != f ==> r.Get(g) == Get(g)
    {
      match f
      case NameField => this.(name := value)
      case EmailField => this.(email := value)
      case MessageField => this.(message := value)
      case HpField => this.(hp := value)
    }
  }

  const EmptyForm := Form("", "", "", "")

  /** The JSON body posted to the form relay. */
  datatype Payload = Payload(name: string, email: string, message: string, replyTo: string, hp: string)

  /** The parsed JSON answer; an answer that is not JSON parses as `{}` (both absent). */
  datatype Body = Body(error: Option<string>, message: Option<string>)

  /** How the request settled: the fetch was rejected (with the rejection's message, if it
      has one), or a response arrived with its `ok` flag and parsed body. */
  datatype Response =
    | NetworkFailure(reason: Option<string>)
    | Reply(ok: bool, body: Body)

  /** A toast notification. */
  datatype Toast = SuccessToast(text: string) | ErrorToast(text: string)

  const SuccessText := "Message sent \U{2014} I\U{2019}ll reply within 1 business day."
  const DefaultErrorText := "Something went wrong \U{2014} try again later or email me directly."
  const FailedToSendText := "Failed to send message"
  const InvalidEmailText := "Please enter a valid email address."
  const ShortMessageText := "Please include at least 10 characters in your message."
  const ConsultTemplate :=
    "I'd like to book a 15-minute consult." + " My preferred times are: \n\n(1) \n(2) \n" + "(3)" + " "

  /** JavaScript truthiness of an optional string. */
  predicate Truthy(s: Option<string>) {
    s.Some? && s.value != ""
  }

  /** `body.error || body.message || "Failed to send message"`. The text is never empty. */
  function FailureText(body: Body): (r: string)
    ensures r != ""
    ensures Truthy(body.error) ==> r == body.error.value
    ensures !Truthy(body.error) && Truthy(body.message) ==> r == body.message.value
    ensures !Truthy(body.error) && !Truthy(body.message) ==> r == FailedToSendText
  {
    if Truthy(body.error) then body.error.value
    else if Truthy(body.message) then body.message.value
    else FailedToSendText
  }

  /** The request body built from the form. */
  function PayloadOf(f: Form): (p: Payload)
    ensures p.replyTo == p.email
    ensures p.hp == f.hp
    ensures p.name == Trim(f.name) && p.email == Trim(f.email) && p.message == Trim(f.message)
  {
    Payload(Trim(f.name), Trim(f.email), Trim(f.message), Trim(f.email), f.hp)
  }

  /** What the submit handler decides before any network activity. */
  datatype Verdict = Drop | Reject(text: string) | Send(payload: Payload)

  /** The ordered checks of `handleSubmit`: honeypot, then email, then message. The name is
      not checked here. */
  function Validate(f: Form): (v: Verdict)
    ensures v.Drop? <==> f.hp != ""
    ensures v == Reject(InvalidEmailText) <==> f.hp == "" && !IsValidEmail(f.email)
    ensures v == Reject(ShortMessageText) <==>
      f.hp == "" && IsValidEmail(f.email) && !IsMessageLongEnough(f.message)
    ensures v.Reject? ==> v.text == InvalidEmailText || v.text == ShortMessageText
    ensures v.Send? <==> f.hp == "" && IsValidEmail(f.email) && IsMessageLongEnough(f.message)
    ensures v.Send? ==> v.payload == PayloadOf(f)
  {
    if f.hp != "" then Drop
    else if !IsValidEmail(f.email) then Reject(InvalidEmailText)
    else if !IsMessageLongEnough(f.message) then Reject(ShortMessageText)
    else Send(PayloadOf(f))
  }

  /** An invalid email is reported whatever the message is: the message is never looked at. */
  lemma {:induction false} EmailCheckedBeforeMessage(f: Form, otherMessage: string)
    requires f.hp == "" && !IsValidEmail(f.email)
    ensures Validate(f) == Validate(f.(message := otherMessage)) == Reject(InvalidEmailText)
  {
  }

  /** Five emoji pass the length check: each counts as two code units, although the
      message has only five characters. */
  lemma {:induction false} LengthCountsCodeUnits()
    ensures var s := "\U{1F600}\U{1F600}\U{1F600}\U{1F600}\U{1F600}";
      |s| == 5 && IsMessageLongEnough(s)
  {
    var s := "\U{1F600}\U{1F600}\U{1F600}\U{1F600}\U{1F600}";
    assert NoSpace(s);
    TrimNoSpace(s);
    assert s[1..][1..][1..][1..][1..] == [];
  }

  /** A request that is sent is clean: it carries the email exactly as typed (a valid email has
      no whitespace to trim), a trimmed message of at least ten characters, and an empty
      honeypot. */
  lemma {:induction false} SentPayloadIsClean(f: Form)
    requires Validate(f).Send?
    ensures var p := Validate(f).payload;
      && p.email == f.email && p.replyTo == f.email
      && IsValidEmail(p.email)
      && Utf16Length(p.message) >= 10 && p.message == Trim(p.message)
      && p.hp == ""
  {
    ValidEmailOneAtNoSpace(f.email);
    TrimNoSpace(f.email);
    TrimIdempotent(f.message);
  }

  /** The pricing dialog's "Select" text for a package; it always passes the length check. */
  function PackageMessage(title: string): (r: string)
    ensures r == "I'm interested in the \"" + title + "\" package. Please get in touch."
    ensures IsMessageLongEnough(r)
  {
    var r := "I'm interested in the \"" + title + "\" package. Please get in touch.";
    PaddedMessageLongEnough("I'm interested in the \"", title, "\" package. Please get in touch.");
    r
  }

  lemma {:induction false} PaddedMessageLongEnough(pre: string, mid: string, post: string)
    requires |pre| + |post| >= 10
    requires pre != [] && !IsSpace(pre[0]) && post != [] && !IsSpace(post[|post| - 1])
    ensures IsMessageLongEnough(pre + mid + post)
  {
    var s := pre + mid + post;
    assert s[0] == pre[0];
    assert s[|s| - 1] == post[|post| - 1];
    assert TrimStart(s) == s;
    assert TrimEnd(s) == s;
  }

  lemma {:induction false} SpaceEndedMessageLongEnough(pre: string, mid: string, post: string)
    requires |pre| + |post| >= 10
    requires pre != [] && !IsSpace(pre[0]) && post != [] && !IsSpace(post[|post| - 1])
    ensures IsMessageLongEnough(pre + mid + post + " ")
  {
    var s := pre + mid + post;
    PaddedMessageLongEnough(pre, mid, post);
    MessageCheckIgnoresPadding("", s, " ");
    assert "" + s + " " == s + " ";
  }

  /** The booking dialog's e-mail template passes the length check. */
  lemma {:induction false} ConsultTemplateLongEnough()
    ensures IsMessageLongEnough(ConsultTemplate)
  {
    SpaceEndedMessageLongEnough(
      "I'd like to book a 15-minute consult.", " My preferred times are: \n\n(1) \n(2) \n", "(3)");
  }

  // ---------------------------------------------------------------------------------------
  // The component's state

  class ContactForm {
    var form: Form
    var isSubmitting: bool
    var showBookingModal: bool
    var showPricingModal: bool

    constructor ()
      ensures form == EmptyForm && !isSubmitting && !showBookingModal && !showPricingModal
    {
      form := EmptyForm;
      isSubmitting := false;
      showBookingModal := false;
      showPricingModal := false;
    }

    /** `canSubmit`: the submit button is enabled. */
    predicate CanSubmit()
      reads this
    {
      && !isSubmitting
      && Trim(form.name) != ""
      && IsValidEmail(form.email)
      && IsMessageLongEnough(form.message)
      && form.hp == ""
    }

    /** `handleChange`: the input named `field` now holds `value`. */
    method HandleChange(field: Field, value: string)
      modifies this`form
      ensures form == old(form).Set(field, value)
    {
      form := form.Set(field, value);
    }

    /** `resetForm`. */
    method ResetForm()
      modifies this`form
      ensures form == EmptyForm
    {
      form := EmptyForm;
    }

    /** The first half of `handleSubmit`, up to the request: the ordered checks, then the
        in-flight flag is raised and the request is issued. A rejected form changes nothing
        and shows the rejection; a dropped (honeypot) form changes nothing and shows nothing. */
    method BeginSubmit() returns (request: Option<Payload>, shown: Option<Toast>)
      modifies this`isSubmitting
      ensures form == old(form)
      ensures match Validate(form)
        case Drop => request == None && shown == None && isSubmitting == old(isSubmitting)
        case Reject(text) => request == None && shown == Some(ErrorToast(text)) && isSubmitting == old(isSubmitting)
        case Send(p) => request == Some(p) && shown == None && isSubmitting
    {
      if form.hp != "" {
        return None, None;
      }
      if !IsValidEmail(form.email) {
        return None, Some(ErrorToast(InvalidEmailText));
      }
      if !IsMessageLongEnough(form.message) {
        return None, Some(ErrorToast(ShortMessageText));
      }
      isSubmitting := true;
      request := Some(PayloadOf(form));
      shown := None;
    }

    /** The second half of `handleSubmit`, once the request settles: success clears the form,
        failure keeps it, and the in-flight flag is cleared either way. */
    method Settle(response: Response) returns (shown: Toast)
      modifies this`form, this`isSubmitting
      ensures !isSubmitting
      ensures response.Reply? && response.ok ==> shown == SuccessToast(SuccessText) && form == EmptyForm
      ensures response.Reply? && !response.ok ==>
        shown == ErrorToast(FailureText(response.body)) && form == old(form)
      ensures response.NetworkFailure? ==>
        && form == old(form)
        && shown == ErrorToast(if response.reason.Some? then response.reason.value else DefaultErrorText)
    {
      match response {
        case Reply(ok, body) =>
          if ok {
            shown := SuccessToast(SuccessText);
            ResetForm();
          } else {
            shown := ErrorToast(FailureText(body));
          }
        case NetworkFailure(reason) =>
          shown := ErrorToast(if reason.Some? then reason.value else DefaultErrorText);
      }
      isSubmitting := false;
    }

    /** `handleSubmit` run to completion with `response` as the relay's answer. The returned
        `flagDuringRequest` is the value of `isSubmitting` while the request was in flight. */
    method HandleSubmit(response: Response)
      returns (request: Option<Payload>, shown: Option<Toast>, ghost flagDuringRequest: bool)
      modifies this`form, this`isSubmitting
      ensures match Validate(old(form))
        case Drop =>
          request == None && shown == None && form == old(form) && isSubmitting == old(isSubmitting)
        case Reject(text) =>
          && request == None && shown == Some(ErrorToast(text))
          && form == old(form) && isSubmitting == old(isSubmitting)
        case Send(p) =>
          && request == Some(p) && flagDuringRequest && !isSubmitting
          && (response.Reply? && response.ok ==> form == EmptyForm && shown == Some(SuccessToast(SuccessText)))
          && (response.Reply? && !response.ok ==>
                form == old(form) && shown == Some(ErrorToast(FailureText(response.body))))
          && (response.NetworkFailure? ==>
                && form == old(form)
                && shown == Some(ErrorToast(
                     if response.reason.Some? then response.reason.value else DefaultErrorText)))
    {
      request, shown := BeginSubmit();
      flagDuringRequest := isSubmitting;
      if request.Some? {
        var t := Settle(response);
        shown := Some(t);
      }
    }

    /** Pressing the submit button: a disabled button (`!canSubmit()`) does nothing at all. */
    method PressSubmit(response: Response) returns (request: Option<Payload>, shown: Option<Toast>)
      modifies this`form, this`isSubmitting
      ensures !old(CanSubmit()) ==> request == None && shown == None && form == old(form) && isSubmitting == old(isSubmitting)
      ensures old(CanSubmit()) ==> request == Some(PayloadOf(old(form))) && !isSubmitting
      ensures old(CanSubmit()) && response.Reply? && response.ok ==>
        form == EmptyForm && shown == Some(SuccessToast(SuccessText))
      ensures old(CanSubmit()) && response.Reply? && !response.ok ==>
        form == old(form) && shown == Some(ErrorToast(FailureText(response.body)))
      ensures old(CanSubmit()) && response.NetworkFailure? ==>
        && form == old(form)
        && shown == Some(ErrorToast(if response.reason.Some? then response.reason.value else DefaultErrorText))
    {
      if !CanSubmit() {
        return None, None;
      }
      EnabledButtonSends(this);
      ghost var flag;
      request, shown, flag := HandleSubmit(response);
    }

    /** "Request by email" in the booking dialog: close it and put the consult template in the
        message. */
    method RequestByEmail()
      modifies this`showBookingModal, this`form
      ensures !showBookingModal
      ensures form == old(form).(message := ConsultTemplate)
    {
      showBookingModal := false;
      form := form.(message := ConsultTemplate);
    }

    /** A package's button in the pricing dialog: it always closes the dialog, and unless the
        package is the custom one it writes the package's text into the message. */
    method SelectPackage(id: string, title: string)
      modifies this`showPricingModal, this`form
      ensures !showPricingModal
      ensures form == if id == "custom" then old(form) else old(form).(message := PackageMessage(title))
    {
      showPricingModal := false;
      if id != "custom" {
        form := form.(message := PackageMessage(title));
      }
    }

    method OpenBookingModal()
      modifies this`showBookingModal
      ensures showBookingModal
    {
      showBookingModal := true;
    }

    method OpenPricingModal()
      modifies this`showPricingModal
      ensures showPricingModal
    {
      showPricingModal := true;
    }

    method CloseBookingModal()
      modifies this`showBookingModal
      ensures !showBookingModal
    {
      showBookingModal := false;
    }

    method ClosePricingModal()
      modifies this`showPricingModal
      ensures !showPricingModal
    {
      showPricingModal := false;
    }

    /** The window key listener: Escape closes whichever dialogs are open; other keys do
        nothing. */
    method OnKey(key: string)
      modifies this`showBookingModal, this`showPricingModal
      ensures key == "Escape" ==> !showBookingModal && !showPricingModal
      ensures key != "Escape" ==> showBookingModal == old(showBookingModal) && showPricingModal == old(showPricingModal)
    {
      if key == "Escape" {
        if showBookingModal { showBookingModal := false; }
        if showPricingModal { showPricingModal := false; }
      }
    }
  }

  /** An enabled submit button means the submit handler's own checks pass, so the request
      is sent. */
  lemma {:induction false} EnabledButtonSends(c: ContactForm)
    requires c.CanSubmit()
    ensures Validate(c.form) == Send(PayloadOf(c.form))
  {
  }

  /** The converse fails: the submit handler never checks the name, so an empty name with a
      valid email and message still passes its checks although the button is disabled. */
  lemma {:induction false} HandlerDoesNotCheckName()
    ensures Validate(Form("", "jane@example.com", "Hello there!", "")).Send?
  {
    SampleEmailValid();
    SampleMessageLongEnough();
  }

  lemma {:induction false} SampleEmailValid()
    ensures IsValidEmail("jane@example.com")
  {
    EmailPatternComplete("jane", "example", "com");
    assert "jane@example.com" == "jane" + "@" + "example" + "." + "com";
    EmailCaseInsensitive("jane@example.com");
  }

  lemma {:induction false} SampleMessageLongEnough()
    ensures IsMessageLongEnough("Hello there!")
  {
    PaddedMessageLongEnough("Hello there", "", "!");
    assert "Hello there" + "" + "!" == "Hello there!";
  }

  /** While a request is in flight the button is disabled, so pressing it again sends
      nothing, shows nothing and changes nothing. */
  method NoDuplicateWhileInFlight(c: ContactForm, response: Response)
    returns (request: Option<Payload>, shown: Option<Toast>)
    requires c.isSubmitting
    modifies c`form, c`isSubmitting
    ensures request == None && shown == None
    ensures c.form == old(c.form) && c.isSubmitting
    ensures c.showBookingModal == old(c.showBookingModal) && c.showPricingModal == old(c.showPricingModal)
  {
    request, shown := c.PressSubmit(response);
  }
}
