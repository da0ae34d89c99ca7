/**
 * The contact form: the phone mask applied while typing, the validation run on submit
 * (hidden honeypot field, required fields, e-mail pattern) and the two-stage e-mail send
 * (the message to the site owner, then a confirmation to the sender).
 */
module Contact {
  import opened Wrappers

  // ---------------------------------------------------------------- phone mask

  predicate IsDigit(c: char) { '0' <= c <= '9' }

  /** The digits of `s`, in order (what removing every non-digit leaves). */
  function Digits(s: string): string
  {
    if s == [] then [] else (if IsDigit(s[0]) then [s[0]] else []) + Digits(s[1..])
  }

  predicate AllDigits(s: string) { forall i :: 0 <= i < |s| ==> IsDigit(s[i]) }

  function Min(a: int, b: int): int { if a <= b then a else b }

  /**
   * The display form of a digit string: up to two digits as they are, then `(DD) rest`
   * up to seven, then `(DD) DDDDD-rest`, where the rest stops after the eleventh digit.
   */
  function Format(d: string): string
  {
    if |d| <= 2 then d
    else if |d| <= 7 then "(" + d[..2] + ") " + d[2..]
    else "(" + d[..2] + ") " + d[2..7] + "-" + d[7..Min(|d|, 11)]
  }

  /** The value stored for the phone field when `value` is typed. */
  function Mask(value: string): string
  {
    Format(Digits(value))
  }

  lemma {:induction false} DigitsAppend(a: string, b: string)
    ensures Digits(a + b) == Digits(a) + Digits(b)
  {
    if a == [] {
      assert a + b == b;
    } else {
      assert (a + b)[1..] == a[1..] + b;
      DigitsAppend(a[1..], b);
    }
  }

  lemma {:induction false} DigitsOfDigits(d: string)
    requires AllDigits(d)
    ensures Digits(d) == d
  {
    if d != [] {
      DigitsOfDigits(d[1..]);
    }
  }

  lemma SliceDigits(d: string, i: int, j: int)
    requires AllDigits(d) && 0 <= i <= j <= |d|
    ensures Digits(d[i..j]) == d[i..j]
  {
    assert forall k :: 0 <= k < j - i ==> d[i..j][k] == d[i + k];
    DigitsOfDigits(d[i..j]);
  }

  lemma ShortFormatDigits(d: string)
    requires AllDigits(d) && 2 < |d| <= 7
    ensures Digits("(" + d[..2] + ") " + d[2..]) == d
  {
    var a, b := d[..2], d[2..];
    assert a + b == d;
    SliceDigits(d, 0, 2);
    SliceDigits(d, 2, |d|);
    assert d[2..|d|] == b;
    assert Digits("(") == [] && Digits(") ") == [];
    calc {
      Digits("(" + a + ") " + b);
      { DigitsAppend("(" + a + ") ", b); }
      Digits("(" + a + ") ") + Digits(b);
      { DigitsAppend("(" + a, ") "); }
      Digits("(" + a) + Digits(") ") + b;
      { DigitsAppend("(", a); }
      Digits("(") + a + Digits(") ") + b;
      a + b;
    }
  }

  lemma LongFormatDigits(d: string)
    requires AllDigits(d) && 7 < |d|
    ensures Digits("(" + d[..2] + ") " + d[2..7] + "-" + d[7..Min(|d|, 11)]) == d[..Min(|d|, 11)]
  {
    var m := Min(|d|, 11);
    var a, b, c := d[..2], d[2..7], d[7..m];
    assert a + b + c == d[..m];
    SliceDigits(d, 0, 2);
    SliceDigits(d, 2, 7);
    SliceDigits(d, 7, m);
    assert Digits("(") == [] && Digits(") ") == [] && Digits("-") == [];
    calc {
      Digits("(" + a + ") " + b + "-" + c);
      { DigitsAppend("(" + a + ") " + b + "-", c); }
      Digits("(" + a + ") " + b + "-") + c;
      { DigitsAppend("(" + a + ") " + b, "-"); }
      Digits("(" + a + ") " + b) + Digits("-") + c;
      { DigitsAppend("(" + a + ") ", b); }
      Digits("(" + a + ") ") + b + Digits("-") + c;
      { DigitsAppend("(" + a, ") "); }
      Digits("(" + a) + Digits(") ") + b + Digits("-") + c;
      { DigitsAppend("(", a); }
      Digits("(") + a + Digits(") ") + b + Digits("-") + c;
      a + b + c;
    }
  }

  /** The digits of a formatted string are the formatted digits, cut after the eleventh. */
  lemma FormatDigits(d: string)
    requires AllDigits(d)
    ensures Digits(Format(d)) == d[..Min(|d|, 11)]
  {
    if |d| <= 2 {
      DigitsOfDigits(d);
      assert d[..|d|] == d;
    } else if |d| <= 7 {
      ShortFormatDigits(d);
      assert d[..|d|] == d;
    } else {
      LongFormatDigits(d);
    }
  }

  lemma {:induction false} DigitsAreDigits(s: string)
    ensures AllDigits(Digits(s))
  {
    if s != [] {
      DigitsAreDigits(s[1..]);
    }
  }

  lemma {:induction false} DigitsShorter(s: string)
    ensures |Digits(s)| <= |s|
  {
    if s != [] {
      DigitsShorter(s[1..]);
    }
  }

  /**
   * The masked phone holds at most eleven digits, and they are the first digits of what
   * was typed.
   */
  lemma MaskKeepsDigitPrefix(value: string)
    ensures |Digits(Mask(value))| <= 11
    ensures Digits(Mask(value)) == Digits(value)[..Min(|Digits(value)|, 11)]
  {
    DigitsAreDigits(value);
    FormatDigits(Digits(value));
  }

  /** Only the first eleven digits matter to the display form. */
  lemma FormatFirstEleven(d: string)
    ensures Format(d[..Min(|d|, 11)]) == Format(d)
  {
    var e := d[..Min(|d|, 11)];
    if |d| <= 11 {
      assert e == d;
    } else {
      assert e[..2] == d[..2] && e[2..7] == d[2..7] && e[7..Min(|e|, 11)] == d[7..11];
    }
  }

  /** Typing an already masked value back in leaves it as it is. */
  lemma MaskIdempotent(value: string)
    ensures Mask(Mask(value)) == Mask(value)
  {
    MaskKeepsDigitPrefix(value);
    FormatFirstEleven(Digits(value));
  }

  // ---------------------------------------------------------------- whitespace

  /** The characters the browser's `\s` and `trim()` treat as white space. */
  predicate IsSpace(c: char)
  {
    || c == '\t' || c == '\n' || c == '\U{000B}' || c == '\U{000C}' || c == '\r' || c == ' '
    || c == '\U{00A0}' || c == '\U{1680}' || ('\U{2000}' <= c <= '\U{200A}')
    || c == '\U{2028}' || c == '\U{2029}' || c == '\U{202F}' || c == '\U{205F}'
    || c == '\U{3000}' || c == '\U{FEFF}'
  }

  predicate AllSpace(s: string) { forall i :: 0 <= i < |s| ==> IsSpace(s[i]) }

  /** `s` without its leading white space. */
  function TrimStart(s: string): (r: string)
    ensures |r| <= |s| && r == s[|s| - |r|..]
    ensures AllSpace(s[..|s| - |r|])
    ensures r == [] || !IsSpace(r[0])
  {
    if s != [] && IsSpace(s[0]) then TrimStart(s[1..]) else s
  }

  /** `s` without its trailing white space. */
  function TrimEnd(s: string): (r: string)
    ensures |r| <= |s| && r == s[..|r|]
    ensures AllSpace(s[|r|..])
    ensures r == [] || !IsSpace(r[|r| - 1])
  {
    if s != [] && IsSpace(s[|s| - 1]) then TrimEnd(s[..|s| - 1]) else s
  }

  function Trim(s: string): string
  {
    TrimEnd(TrimStart(s))
  }

  lemma {:induction false} TrimStartEmpty(s: string)
    ensures TrimStart(s) == [] <==> AllSpace(s)
  {
    if s != [] && IsSpace(s[0]) {
      TrimStartEmpty(s[1..]);
      assert AllSpace(s) <==> AllSpace(s[1..]) by {
        assert forall i :: 0 < i < |s| ==> s[i] == s[1..][i - 1];
      }
    }
  }

  lemma {:induction false} TrimEndEmpty(s: string)
    ensures TrimEnd(s) == [] <==> AllSpace(s)
  {
    if s != [] && IsSpace(s[|s| - 1]) {
      TrimEndEmpty(s[..|s| - 1]);
      assert AllSpace(s) <==> AllSpace(s[..|s| - 1]) by {
        assert forall i :: 0 <= i < |s| - 1 ==> s[i] == s[..|s| - 1][i];
      }
    }
  }

  /** A field is blank when trimming leaves nothing, which is when it is all white space. */
  lemma TrimEmptyIffAllSpace(s: string)
    ensures Trim(s) == [] <==> AllSpace(s)
  {
    TrimStartEmpty(s);
    TrimEndEmpty(TrimStart(s));
  }

  // ---------------------------------------------------------------- e-mail pattern

  /** A non-empty run with no white space and no `@`. */
  predicate Part(x: string)
  {
    |x| > 0 && forall i :: 0 <= i < |x| ==> !IsSpace(x[i]) && x[i] != '@'
  }

  /**
   * The split that the pattern "one or more non-space non-@, `@`, one or more, `.`, one
   * or more, end to end" reads off an address: the `@` at `at`, the `.` at `dot`.
   */
  predicate EmailSplit(e: string, at: int, dot: int)
  {
    && 0 < at && at + 1 < dot && dot + 1 < |e|
    && e[at] == '@' && e[dot] == '.'
    && Part(e[..at]) && Part(e[at + 1..dot]) && Part(e[dot + 1..])
  }

  ghost predicate MatchesEmailPattern(e: string)
  {
    exists at, dot :: EmailSplit(e, at, dot)
  }

  function FirstIndexOf(s: string, c: char): (r: Option<nat>)
    ensures r.Some? ==> r.value < |s| && s[r.value] == c && c !in s[..r.value]
    ensures r.None? ==> c !in s
  {
    if s == [] then None
    else if s[0] == c then Some(0)
    else match FirstIndexOf(s[1..], c)
      case None => None
      case Some(i) => assert s[..i + 1] == [s[0]] + s[1..][..i]; Some(i + 1)
  }

  lemma {:induction false} FirstIndexOfIs(s: string, c: char, k: nat)
    requires k < |s| && s[k] == c && c !in s[..k]
    ensures FirstIndexOf(s, c) == Some(k)
  {
    if k > 0 {
      assert s[0] == s[..k][0];
      assert s[1..][..k - 1] == s[..k][1..];
      FirstIndexOfIs(s[1..], c, k - 1);
    }
  }

  /**
   * The pattern test as a scan: no white space anywhere, a first `@` that is not the
   * first character, no second `@`, and a `.` with at least one character on each side
   * between the `@` and the end.
   */
  function EmailValid(e: string): bool
  {
    && (forall i :: 0 <= i < |e| ==> !IsSpace(e[i]))
    && match FirstIndexOf(e, '@')
       case None => false
       case Some(at) =>
         && 0 < at && at + 3 <= |e|
         && '@' !in e[at + 1..]
         && '.' in e[at + 2..|e| - 1]
  }

  lemma EmailValidMatches(e: string)
    requires EmailValid(e)
    ensures MatchesEmailPattern(e)
  {
    var at := FirstIndexOf(e, '@').value;
    var mid := e[at + 2..|e| - 1];
    var k :| 0 <= k < |mid| && mid[k] == '.';
    var dot := at + 2 + k;
    assert e[dot] == '.';
    assert forall i :: 0 <= i < at ==> e[..at][i] == e[i] && e[i] in e[..at];
    assert forall i :: at + 1 <= i < |e| ==> e[i] == e[at + 1..][i - at - 1];
    assert Part(e[..at]);
    assert Part(e[at + 1..dot]);
    assert Part(e[dot + 1..]);
    assert EmailSplit(e, at, dot);
  }

  lemma SplitSpaceFree(e: string, at: int, dot: int)
    requires EmailSplit(e, at, dot)
    ensures forall i :: 0 <= i < |e| ==> !IsSpace(e[i])
  {
    forall i | 0 <= i < |e|
      ensures !IsSpace(e[i])
    {
      if i < at {
        assert e[i] == e[..at][i];
      } else if at < i < dot {
        assert e[i] == e[at + 1..dot][i - at - 1];
      } else if dot < i {
        assert e[i] == e[dot + 1..][i - dot - 1];
      }
    }
  }

  lemma SplitSingleAt(e: string, at: int, dot: int)
    requires EmailSplit(e, at, dot)
    ensures '@' !in e[..at] && '@' !in e[at + 1..]
  {
    forall i | 0 <= i < at
      ensures e[..at][i] != '@'
    {
    }
    var tail := e[at + 1..];
    forall j | 0 <= j < |tail|
      ensures tail[j] != '@'
    {
      var i := j + at + 1;
      assert tail[j] == e[i];
      if i < dot {
        assert e[i] == e[at + 1..dot][i - at - 1];
      } else if dot < i {
        assert e[i] == e[dot + 1..][i - dot - 1];
      }
    }
  }

  lemma MatchesEmailValid(e: string)
    requires MatchesEmailPattern(e)
    ensures EmailValid(e)
  {
    var at, dot :| EmailSplit(e, at, dot);
    SplitSpaceFree(e, at, dot);
    SplitSingleAt(e, at, dot);
    FirstIndexOfIs(e, '@', at);
    assert e[at + 2..|e| - 1][dot - at - 2] == '.';
  }

  /** The scan accepts exactly the addresses the pattern matches. */
  lemma EmailValidIffPattern(e: string)
    ensures EmailValid(e) <==> MatchesEmailPattern(e)
  {
    if EmailValid(e) {
      EmailValidMatches(e);
    }
    if MatchesEmailPattern(e) {
      MatchesEmailValid(e);
    }
  }

  // ---------------------------------------------------------------- the form

  datatype Field = Name | Email | PhoneField | Service | Message

  datatype FormData = FormData(name: string, email: string, phone: string, service: string, message: string)

  const EmptyForm := FormData("", "", "", "", "")

  function Get(f: FormData, k: Field): string
  {
    match k
    case Name => f.name
    case Email => f.email
    case PhoneField => f.phone
    case Service => f.service
    case Message => f.message
  }

  function Set(f: FormData, k: Field, v: string): (r: FormData)
    ensures Get(r, k) == v
    ensures forall k' :: k' != k ==> Get(r, k') == Get(f, k')
  {
    match k
    case Name => f.(name := v)
    case Email => f.(email := v)
    case PhoneField => f.(phone := v)
    case Service => f.(service := v)
    case Message => f.(message := v)
  }

  /** The value-attribute of the hidden `company` field counts when it is non-empty. */
  predicate HoneypotFilled(honeypot: Option<string>)
  {
    honeypot.Some? && honeypot.value != ""
  }

  datatype Rejection = Blocked | MissingRequired | InvalidEmail

  const BlockedMessage := "Envio bloqueado por segurança."
  const MissingMessage := "Preencha todos os campos obrigatórios corretamente."
  const InvalidEmailMessage := "E-mail inválido."
  const SendFailedMessage := "Ocorreu um erro ao enviar. Tente novamente mais tarde."

  function MessageOf(r: Rejection): string
  {
    match r
    case Blocked => BlockedMessage
    case MissingRequired => MissingMessage
    case InvalidEmail => InvalidEmailMessage
  }

  /**
   * The checks in the order they run: the honeypot, then blank name, e-mail or message,
   * then the e-mail pattern; the first that fails decides. Phone and service are never
   * checked.
   */
  function Validate(f: FormData, honeypot: Option<string>): (r: Option<Rejection>)
    ensures r == Some(Blocked) <==> HoneypotFilled(honeypot)
    ensures r == Some(MissingRequired) <==>
      !HoneypotFilled(honeypot) && (AllSpace(f.name) || AllSpace(f.email) || AllSpace(f.message))
    ensures r == Some(InvalidEmail) <==>
      (&& !HoneypotFilled(honeypot) && !AllSpace(f.name) && !AllSpace(f.email) && !AllSpace(f.message)
       && !MatchesEmailPattern(f.email))
  {
    TrimEmptyIffAllSpace(f.name);
    TrimEmptyIffAllSpace(f.email);
    TrimEmptyIffAllSpace(f.message);
    EmailValidIffPattern(f.email);
    if HoneypotFilled(honeypot) then Some(Blocked)
    else if Trim(f.name) == [] || Trim(f.email) == [] || Trim(f.message) == [] then Some(MissingRequired)
    else if !EmailValid(f.email) then Some(InvalidEmail)
    else None
  }

  /** A form passes exactly when no check fails. */
  lemma ValidateAccepts(f: FormData, honeypot: Option<string>)
    ensures Validate(f, honeypot).None? <==>
      (&& !HoneypotFilled(honeypot) && !AllSpace(f.name) && !AllSpace(f.email) && !AllSpace(f.message)
       && MatchesEmailPattern(f.email))
  {
    var r := Validate(f, honeypot);
    if r.Some? {
      assert r.value == Blocked || r.value == MissingRequired || r.value == InvalidEmail;
    }
  }

  /** Phone and service take no part in validation. */
  lemma PhoneAndServiceNotChecked(f: FormData, honeypot: Option<string>, phone: string, service: string)
    ensures Validate(f.(phone := phone, service := service), honeypot) == Validate(f, honeypot)
  {
  }

  /** The recipient of every message sent from the form. */
  const OwnerAddress := "lequeluana@gmail.com"
  const ConfirmTemplateId := "template_8nsdqur"

  /** The parameters of the message to the site owner. */
  datatype OwnerMessage = OwnerMessage(fromName: string, fromEmail: string, phone: string,
    service: string, message: string, toEmail: string)

  /** The parameters of the confirmation to the sender. */
  datatype Confirmation = Confirmation(templateId: string, toName: string, toEmail: string)

  datatype Send = Send(owner: OwnerMessage, confirm: Confirmation)

  function SendFor(f: FormData): (s: Send)
    ensures s.owner.toEmail == OwnerAddress && s.confirm.toEmail == f.email
    ensures s.confirm.templateId == ConfirmTemplateId
    ensures s.owner.fromName == f.name && s.confirm.toName == f.name && s.owner.fromEmail == f.email
    ensures s.owner.phone == f.phone && s.owner.service == f.service && s.owner.message == f.message
  {
    Send(OwnerMessage(f.name, f.email, f.phone, f.service, f.message, OwnerAddress), Confirmation(ConfirmTemplateId, f.name, f.email))
  }

  datatype Modal = SuccessModal | ErrorModal

  class ContactForm {
    var formData: FormData
    var error: Option<string>
    var showModal: Option<Modal>

    constructor()
      ensures formData == EmptyForm && error == None && showModal == None
    {
      formData := EmptyForm;
      error := None;
      showModal := None;
    }

    /** An edit of one field: the phone is masked, every other field is stored as typed. */
    method HandleChange(k: Field, value: string)
      modifies this`formData
      ensures Get(formData, k) == (if k == PhoneField then Mask(value) else value)
      ensures forall k' :: k' != k ==> Get(formData, k') == Get(old(formData), k')
    {
      var v := value;
      if k == PhoneField {
        v := Mask(value);
      }
      formData := Set(formData, k, v);
    }

    /**
     * Submission: the error is cleared, then the checks run in order. A failed check sets
     * its message and sends nothing; a passing form yields the owner message and the
     * confirmation to send. The form is not changed here.
     */
    method HandleSubmit(honeypot: Option<string>) returns (send: Option<Send>)
      modifies this`error
      ensures Validate(formData, honeypot).Some? ==>
        send.None? && error == Some(MessageOf(Validate(formData, honeypot).value))
      ensures Validate(formData, honeypot).None? ==> send == Some(SendFor(formData)) && error.None?
    {
      error := None;
      var rejected := Validate(formData, honeypot);
      if rejected.Some? {
        error := Some(MessageOf(rejected.value));
        return None;
      }
      send := Some(SendFor(formData));
    }

    /**
     * The owner message's send settled. On success the confirmation is sent next; on
     * failure the error modal shows with the send-failure message and the form is kept.
     */
    method MainSendDone(s: Send, ok: bool) returns (next: Option<Confirmation>)
      modifies this`error, this`showModal
      ensures ok ==> next == Some(s.confirm) && error == old(error) && showModal == old(showModal)
      ensures !ok ==> next.None? && error == Some(SendFailedMessage) && showModal == Some(ErrorModal)
    {
      if ok {
        next := Some(s.confirm);
      } else {
        next := None;
        error := Some(SendFailedMessage);
        showModal := Some(ErrorModal);
      }
    }

    /** The confirmation's send settled: success shows and the form resets either way. */
    method ConfirmSendDone(ok: bool)
      modifies this`showModal, this`formData
      ensures showModal == Some(SuccessModal) && formData == EmptyForm
    {
      showModal := Some(SuccessModal);
      formData := EmptyForm;
    }

    method CloseModal()
      modifies this`showModal
      ensures showModal == None
    {
      showModal := None;
    }
  }
}
