/** The `PostmarkMailer` component: a fluent builder that collects the fields of an
    email, checks them and hands them to the Postmark client.  The client call, the
    `YII_ENV_DEV` constant, view rendering and file reading are parameters here. */
module Postmark {
  import opened PhpStrings

  datatype Option<T> = None | Some(value: T)

  datatype Result<T, E> = Ok(value: T) | Err(error: E)

  /** Display name that `send` gives the safe address when it redirects a message. */
  const SAFE_NAME := "Safe Email Address"

  // ---------------------------------------------------------------------------
  // Address formatting
  // ---------------------------------------------------------------------------

  /** `processEmail`: one entry of the comma-separated address list handed to the client.
      Without a name the entry is the bare email; with one, the name loses its commas
      and the entry is `name <email>,`, trailing comma included. */
  function ProcessEmail(email: PhpString, name: PhpString): (r: PhpString)
    ensures r == Null <==> email == Null
    ensures name == Null ==> r == email
    ensures email.Str? && name.Str? ==>
      var display := RemoveAll(name.s, ',');
      r.Str? && |r.s| == |display| + |email.s| + 4 &&
      r.s[..|display|] == display && r.s[|display|..] == " <" + email.s + ">,"
  {
    match email
    case Null => Null
    case Str(e) =>
      match name
      case Null => email
      case Str(n) => Str(RemoveAll(n, ',') + " <" + e + ">,")
  }

  /** A named entry always ends in `>,`, and its only comma outside the email itself is that
      final one: the display name can never split the address list. */
  lemma {:induction false} NamedEntryHasOneSeparator(email: string, name: string)
    ensures var r := ProcessEmail(Str(email), Str(name)).s;
      r[|r| - 2..] == ">," && Count(r, ',') == Count(email, ',') + 1
  {
    var display := RemoveAll(name, ',');
    var r := ProcessEmail(Str(email), Str(name)).s;
    assert r == display + (" <" + email + ">,");
    assert " <" + email + ">," == " <" + (email + ">,");
    assert email + ">," == email + (">" + ",");
    CountAppend(display, " <" + email + ">,", ',');
    CountAppend(" <", email + ">,", ',');
    CountAppend(email, ">" + ",", ',');
    CountAppend(">", ",", ',');
  }

  // ---------------------------------------------------------------------------
  // Error-address classification
  // ---------------------------------------------------------------------------

  /** `toIsErrorEmail`: after trimming commas from both ends, the list is a single entry
      (no comma left) and it contains the error address. */
  function ToIsErrorEmail(to: PhpString, errorAddress: string): (r: bool)
    ensures var t := Trim(AsString(to), ',');
      r <==> ',' !in t && Contains(t, errorAddress)
  {
    var t := Trim(AsString(to), ',');
    SinglePieceIffNoSeparator(t, ',');
    StrposFindsIffContains(t, errorAddress);
    |Explode(t, ',')| == 1 && Strpos(t, errorAddress).At?
  }

  /** Trimming a named entry drops exactly its trailing comma. */
  lemma NamedEntryTrimmed(email: string, name: string)
    ensures Trim(ProcessEmail(Str(email), Str(name)).s, ',') == RemoveAll(name, ',') + " <" + email + ">"
  {
    var display := RemoveAll(name, ',');
    var t := display + " <" + email + ">";
    var s := t + ",";
    assert ProcessEmail(Str(email), Str(name)).s == s;
    assert s[0] != ',' by {
      if display == [] { assert s[0] == ' '; } else { assert s[0] == display[0]; }
    }
    assert s[|s| - 2] == '>';
    assert s[..|s| - 1] == t;
    TrimDropsFinal(s, ',');
  }

  /** A list whose trimmed form has no comma and holds the error address at `j` is an error report. */
  lemma ErrorEmailWitness(to: PhpString, errorAddress: string, j: nat)
    requires ',' !in Trim(AsString(to), ',')
    requires OccursAt(Trim(AsString(to), ','), errorAddress, j)
    ensures ToIsErrorEmail(to, errorAddress)
  {
  }

  /** A list made of the error address alone, named or not, is an error report. */
  lemma ErrorAddressAloneIsErrorEmail(errorAddress: string, name: PhpString)
    requires ',' !in errorAddress
    ensures ToIsErrorEmail(ProcessEmail(Str(errorAddress), name), errorAddress)
  {
    if name == Null {
      TrimKeepsUnframed(errorAddress, ',');
      assert errorAddress[0..|errorAddress|] == errorAddress;
      ErrorEmailWitness(Str(errorAddress), errorAddress, 0);
    } else {
      NamedErrorAddressIsErrorEmail(errorAddress, name.s);
    }
  }

  /** The named half of `ErrorAddressAloneIsErrorEmail`. */
  lemma NamedErrorAddressIsErrorEmail(errorAddress: string, name: string)
    requires ',' !in errorAddress
    ensures ToIsErrorEmail(ProcessEmail(Str(errorAddress), Str(name)), errorAddress)
  {
    var display := RemoveAll(name, ',');
    NamedEntryTrimmed(errorAddress, name);
    var t := display + (" <" + errorAddress + ">");
    assert ',' !in t;
    assert t[|display| + 2..|display| + 2 + |errorAddress|] == errorAddress;
    ErrorEmailWitness(ProcessEmail(Str(errorAddress), Str(name)), errorAddress, |display| + 2);
  }

  /** Two named entries, as `to(...)` followed by `addTo(...)` builds them, are never an
      error report: the first entry's trailing comma survives the trim. */
  lemma TwoNamedRecipientsAreNotErrorEmail(e1: string, n1: string, e2: string, n2: string, errorAddress: string)
    ensures !ToIsErrorEmail(Concat(ProcessEmail(Str(e1), Str(n1)), ProcessEmail(Str(e2), Str(n2))), errorAddress)
  {
    var first := ProcessEmail(Str(e1), Str(n1)).s;
    var second := ProcessEmail(Str(e2), Str(n2)).s;
    var d1 := RemoveAll(n1, ',');
    var s := first + second;
    assert first == d1 + " <" + e1 + ">,";
    assert s[0] != ',' by {
      if d1 == [] { assert s[0] == ' '; } else { assert s[0] == d1[0]; }
    }
    assert s[|s| - 1] == ',' && s[|s| - 2] == '>';
    TrimDropsFinal(s, ',');
    var t := s[..|s| - 1];
    assert t[|first| - 1] == ',';
  }

  /** Two `addTo` calls without names concatenate the emails with no separator, so the
      result is read as a single address: with the error address first it is an error report. */
  lemma UnnamedRecipientsMerge(errorAddress: string, other: string)
    requires ',' !in errorAddress && ',' !in other
    ensures var to := Concat(Concat(Null, ProcessEmail(Str(errorAddress), Null)), ProcessEmail(Str(other), Null));
      to == Str(errorAddress + other) && ToIsErrorEmail(to, errorAddress)
  {
    var s := errorAddress + other;
    assert ',' !in s;
    TrimKeepsUnframed(s, ',');
    assert OccursAt(s, errorAddress, 0);
  }

  // ---------------------------------------------------------------------------
  // Required configuration (`init`)
  // ---------------------------------------------------------------------------

  /** The settings `init` requires; an unset one is `Null`. */
  datatype Settings = Settings(
    postmarkServerToken: PhpString,
    errorEmailAddress: PhpString,
    safeEmailAddress: PhpString,
    viewPath: PhpString)

  /** The `InvalidConfigException` that `init` throws, by the setting it names. */
  datatype ConfigError =
    | ServerTokenMissing
    | ErrorEmailAddressMissing
    | SafeEmailAddressMissing
    | ViewPathMissing

  /** Position of each check in `init`. */
  function ConfigRank(e: ConfigError): nat
  {
    match e
    case ServerTokenMissing => 0
    case ErrorEmailAddressMissing => 1
    case SafeEmailAddressMissing => 2
    case ViewPathMissing => 3
  }

  /** `!isset(...)` for the setting that `e` names. */
  predicate IsMissing(settings: Settings, e: ConfigError)
  {
    match e
    case ServerTokenMissing => settings.postmarkServerToken == Null
    case ErrorEmailAddressMissing => settings.errorEmailAddress == Null
    case SafeEmailAddressMissing => settings.safeEmailAddress == Null
    case ViewPathMissing => settings.viewPath == Null
  }

  /** The checks of `init`, in order: the first missing setting, if any. */
  function Validate(settings: Settings): (r: Option<ConfigError>)
    ensures r.None? <==> forall e :: !IsMissing(settings, e)
    ensures r.Some? ==> IsMissing(settings, r.value)
    ensures r.Some? ==> forall e :: ConfigRank(e) < ConfigRank(r.value) ==> !IsMissing(settings, e)
  {
    if settings.postmarkServerToken == Null then
      assert IsMissing(settings, ServerTokenMissing);
      Some(ServerTokenMissing)
    else if settings.errorEmailAddress == Null then
      assert IsMissing(settings, ErrorEmailAddressMissing);
      Some(ErrorEmailAddressMissing)
    else if settings.safeEmailAddress == Null then
      assert IsMissing(settings, SafeEmailAddressMissing);
      Some(SafeEmailAddressMissing)
    else if settings.viewPath == Null then
      assert IsMissing(settings, ViewPathMissing);
      Some(ViewPathMissing)
    else None
  }

  // ---------------------------------------------------------------------------
  // `send`: checks, redirect, result
  // ---------------------------------------------------------------------------

  /** Why `send` did not return a boolean: the `ServerErrorHttpException` it throws. */
  datatype Failure =
    | ToBlank
    | SubjectBlank
    | BodyBlank
    | FailedToSend

  /** Position of each failure in `send`; the client's failure comes after every check. */
  function FailureRank(f: Failure): nat
  {
    match f
    case ToBlank => 0
    case SubjectBlank => 1
    case BodyBlank => 2
    case FailedToSend => 3
  }

  /** The condition under which the check for `f` throws, on the given fields. */
  predicate Fails(f: Failure, to: PhpString, subject: PhpString, htmlBody: PhpString, plainTextBody: PhpString)
  {
    match f
    case ToBlank => IsEmpty(to)
    case SubjectBlank => IsEmpty(subject)
    case BodyBlank => IsEmpty(htmlBody) && IsEmpty(plainTextBody)
    case FailedToSend => false
  }

  /** The three checks `send` makes before anything else, in order: the first that fails. */
  function Preflight(to: PhpString, subject: PhpString, htmlBody: PhpString, plainTextBody: PhpString): (r: Option<Failure>)
    ensures r.None? <==> forall f :: !Fails(f, to, subject, htmlBody, plainTextBody)
    ensures r.Some? ==> Fails(r.value, to, subject, htmlBody, plainTextBody)
    ensures r.Some? ==> forall f :: FailureRank(f) < FailureRank(r.value) ==> !Fails(f, to, subject, htmlBody, plainTextBody)
  {
    if IsEmpty(to) then
      assert Fails(ToBlank, to, subject, htmlBody, plainTextBody);
      Some(ToBlank)
    else if IsEmpty(subject) then
      assert Fails(SubjectBlank, to, subject, htmlBody, plainTextBody);
      Some(SubjectBlank)
    else if IsEmpty(htmlBody) && IsEmpty(plainTextBody) then
      assert Fails(BodyBlank, to, subject, htmlBody, plainTextBody);
      Some(BodyBlank)
    else None
  }

  /** A message with a recipient and a subject passes the checks as soon as one body
      is neither null, `""` nor `"0"`, whichever body that is. */
  lemma OneBodySuffices(to: PhpString, subject: PhpString, body: string, other: PhpString)
    requires !IsEmpty(to) && !IsEmpty(subject) && body != "" && body != "0"
    ensures Preflight(to, subject, Str(body), other).None?
    ensures Preflight(to, subject, other, Str(body)).None?
  {
  }

  /** The recipient list that reaches the client: in development, unless the message is
      an error report, the list is replaced by the safe address alone. */
  function Recipient(dev: bool, to: PhpString, errorAddress: string, safeAddress: string): (r: PhpString)
    ensures dev && !ToIsErrorEmail(to, errorAddress) ==> r == Str(SAFE_NAME + " <" + safeAddress + ">,")
    ensures !dev || ToIsErrorEmail(to, errorAddress) ==> r == to
  {
    SafeEntry(safeAddress);
    if dev && !ToIsErrorEmail(to, errorAddress) then ProcessEmail(Str(safeAddress), Str(SAFE_NAME)) else to
  }

  /** The entry `send` builds for the safe address: the display name has no comma to lose. */
  lemma SafeEntry(safeAddress: string)
    ensures ProcessEmail(Str(safeAddress), Str(SAFE_NAME)) == Str(SAFE_NAME + " <" + safeAddress + ">,")
  {
    assert ',' !in SAFE_NAME;
    RemoveAllKeepsCleanString(SAFE_NAME, ',');
  }

  /** After a redirect the list names exactly one recipient, the safe address. */
  lemma RedirectLeavesOnlySafeAddress(to: PhpString, errorAddress: string, safeAddress: string)
    requires ',' !in safeAddress
    requires !ToIsErrorEmail(to, errorAddress)
    ensures var r := Recipient(true, to, errorAddress, safeAddress);
      r.Str? && Explode(Trim(r.s, ','), ',') == [SAFE_NAME + " <" + safeAddress + ">"]
  {
    SafeListIsOneRecipient(safeAddress);
  }

  /** The safe entry, trimmed and split, is one piece: the entry without its trailing comma. */
  lemma SafeListIsOneRecipient(safeAddress: string)
    requires ',' !in safeAddress
    ensures var s := SAFE_NAME + " <" + safeAddress + ">,";
      Explode(Trim(s, ','), ',') == [SAFE_NAME + " <" + safeAddress + ">"]
  {
    var inner := " <" + safeAddress + ">";
    var t := SAFE_NAME + inner;
    var s := t + ",";
    assert s == SAFE_NAME + " <" + safeAddress + ">,";
    assert t == SAFE_NAME + " <" + safeAddress + ">";
    assert s[0] == 'S';
    assert s[|s| - 2] == '>';
    assert s[..|s| - 1] == t;
    TrimDropsFinal(s, ',');
    assert ',' !in SAFE_NAME;
    assert ',' !in inner;
    ExplodeWithoutSeparator(t, ',');
  }

  /** A string without the separator is one piece, itself. */
  lemma ExplodeWithoutSeparator(s: string, sep: char)
    requires sep !in s
    ensures Explode(s, sep) == [s]
  {
    ImplodeExplode(s, sep);
  }

  /** In development a message for the error address alone keeps its recipient. */
  lemma ErrorReportBypassesRedirect(dev: bool, errorAddress: string, name: PhpString, safeAddress: string)
    requires ',' !in errorAddress
    ensures var to := ProcessEmail(Str(errorAddress), name);
      Recipient(dev, to, errorAddress, safeAddress) == to
  {
    ErrorAddressAloneIsErrorEmail(errorAddress, name);
  }

  /** In development a message for two named recipients goes to the safe address instead. */
  lemma TwoRecipientsAreRedirected(e1: string, n1: string, e2: string, n2: string, errorAddress: string, safeAddress: string)
    ensures var to := Concat(ProcessEmail(Str(e1), Str(n1)), ProcessEmail(Str(e2), Str(n2)));
      Recipient(true, to, errorAddress, safeAddress) == Str(SAFE_NAME + " <" + safeAddress + ">,")
  {
    TwoNamedRecipientsAreNotErrorEmail(e1, n1, e2, n2, errorAddress);
  }

  /** What the Postmark client did with the request: answered, or threw a
      `PostmarkException` or another exception. */
  datatype ClientReply =
    | Response(errorcode: int)
    | PostmarkException
    | OtherException

  /** What `send` gives its caller: a failure that escapes as an exception, kept apart
      from a boolean it returns. */
  datatype SendOutcome =
    | Failed(reason: Failure)
    | Returned(sent: bool)

  /** `send`'s result once the client has been called: `errorcode === 0`, or a failure
      when the client threw. */
  function Delivery(reply: ClientReply): (o: SendOutcome)
    ensures o == Returned(true) <==> reply == Response(0)
    ensures o.Failed? <==> !reply.Response?
    ensures o.Failed? ==> o.reason == FailedToSend
  {
    match reply
    case Response(code) => Returned(code == 0)
    case PostmarkException => Failed(FailedToSend)
    case OtherException => Failed(FailedToSend)
  }

  /** An attachment: its name, MIME type and the bytes read from its file. */
  datatype Attachment = Attachment(name: string, mimeType: string, content: seq<bv8>)

  /** The arguments `send` passes to the client's `sendEmail`; tag, reply-to, cc, bcc,
      headers and link tracking are always null, and open tracking is requested. */
  datatype Request = Request(
    from: PhpString,
    to: PhpString,
    subject: PhpString,
    htmlBody: PhpString,
    textBody: PhpString,
    attachments: seq<Attachment>,
    trackOpens: bool)

  // ---------------------------------------------------------------------------
  // The mailer object
  // ---------------------------------------------------------------------------

  class PostmarkMailer {
    const postmarkServerToken: string
    const errorEmailAddress: string
    const safeEmailAddress: string
    const viewPath: string

    var to: PhpString
    var from: PhpString
    var subject: PhpString
    var htmlBody: PhpString
    var plainTextBody: PhpString
    var attachments: seq<Attachment>

    /** A mailer whose required settings are all present, with no message fields set. */
    constructor (postmarkServerToken: string, errorEmailAddress: string, safeEmailAddress: string, viewPath: string)
      ensures this.postmarkServerToken == postmarkServerToken
      ensures this.errorEmailAddress == errorEmailAddress
      ensures this.safeEmailAddress == safeEmailAddress
      ensures this.viewPath == viewPath
      ensures to == Null && from == Null && subject == Null
      ensures htmlBody == Null && plainTextBody == Null && attachments == []
    {
      this.postmarkServerToken := postmarkServerToken;
      this.errorEmailAddress := errorEmailAddress;
      this.safeEmailAddress := safeEmailAddress;
      this.viewPath := viewPath;
      to, from, subject := Null, Null, Null;
      htmlBody, plainTextBody := Null, Null;
      attachments := [];
    }

    /** `init`: a mailer when every required setting is set, otherwise the first one missing. */
    static method Init(settings: Settings) returns (r: Result<PostmarkMailer, ConfigError>)
      ensures Validate(settings).Some? ==> r == Err(Validate(settings).value)
      ensures Validate(settings).None? ==> r.Ok? && fresh(r.value)
      ensures r.Ok? ==>
        r.value.postmarkServerToken == AsString(settings.postmarkServerToken) &&
        r.value.errorEmailAddress == AsString(settings.errorEmailAddress) &&
        r.value.safeEmailAddress == AsString(settings.safeEmailAddress) &&
        r.value.viewPath == AsString(settings.viewPath)
      ensures r.Ok? ==> r.value.to == Null && r.value.from == Null && r.value.subject == Null
      ensures r.Ok? ==> r.value.htmlBody == Null && r.value.plainTextBody == Null && r.value.attachments == []
    {
      if settings.postmarkServerToken == Null {
        return Err(ServerTokenMissing);
      }
      if settings.errorEmailAddress == Null {
        return Err(ErrorEmailAddressMissing);
      }
      if settings.safeEmailAddress == Null {
        return Err(SafeEmailAddressMissing);
      }
      if settings.viewPath == Null {
        return Err(ViewPathMissing);
      }
      var mailer := new PostmarkMailer(settings.postmarkServerToken.s, settings.errorEmailAddress.s,
                                       settings.safeEmailAddress.s, settings.viewPath.s);
      return Ok(mailer);
    }

    /** `subject`: replaces the subject. */
    method Subject(text: PhpString)
      modifies this`subject
      ensures subject == text
    {
      subject := text;
    }

    /** `messageHtml`: replaces the HTML body. */
    method MessageHtml(body: PhpString)
      modifies this`htmlBody
      ensures htmlBody == body
    {
      htmlBody := body;
    }

    /** `messagePlain`: replaces the plain-text body. */
    method MessagePlain(body: PhpString)
      modifies this`plainTextBody
      ensures plainTextBody == body
    {
      plainTextBody := body;
    }

    /** `compose`: sets the HTML body, then the plain-text body, to the two rendered views. */
    method Compose(renderedHtml: PhpString, renderedText: PhpString)
      modifies this`htmlBody, this`plainTextBody
      ensures htmlBody == renderedHtml && plainTextBody == renderedText
    {
      MessageHtml(renderedHtml);
      MessagePlain(renderedText);
    }

    /** `addTo`: appends one formatted entry to the recipient list; earlier entries stay
      as they were, in front. */
    method AddTo(email: PhpString, name: PhpString)
      modifies this`to
      ensures to.Str? && AsString(old(to)) <= to.s
      ensures to.s[|AsString(old(to))|..] == AsString(ProcessEmail(email, name))
    {
      to := Concat(to, ProcessEmail(email, name));
    }

    /** `to`: replaces the recipient list by one formatted entry. */
    method To(email: PhpString, name: PhpString)
      modifies this`to
      ensures to == ProcessEmail(email, name)
    {
      to := ProcessEmail(email, name);
    }

    /** `from`: replaces the sender by one formatted entry. */
    method From(email: PhpString, name: PhpString)
      modifies this`from
      ensures from == ProcessEmail(email, name)
    {
      from := ProcessEmail(email, name);
    }

    /** `addCustomAttachment`: appends one attachment built from the file's bytes. */
    method AddCustomAttachment(name: string, mimeType: string, content: seq<bv8>)
      modifies this`attachments
      ensures |attachments| == |old(attachments)| + 1
      ensures attachments[..|old(attachments)|] == old(attachments)
      ensures attachments[|old(attachments)|] == Attachment(name, mimeType, content)
    {
      attachments := attachments + [Attachment(name, mimeType, content)];
    }

    /** `send`, with `YII_ENV_DEV` as `dev` and the client's answer as `reply`.
        `request` is what was handed to the client, `None` when it was not called. */
    method Send(dev: bool, reply: ClientReply) returns (outcome: SendOutcome, request: Option<Request>)
      modifies this`to
      ensures var blank := Preflight(old(to), subject, htmlBody, plainTextBody);
        blank.Some? ==> outcome == Failed(blank.value) && request == None && to == old(to)
      ensures Preflight(old(to), subject, htmlBody, plainTextBody).None? ==>
        to == Recipient(dev, old(to), errorEmailAddress, safeEmailAddress) &&
        request == Some(Request(from, to, subject, htmlBody, plainTextBody, attachments, true)) &&
        outcome == Delivery(reply)
    {
      if IsEmpty(to) {
        return Failed(ToBlank), None;
      }
      if IsEmpty(subject) {
        return Failed(SubjectBlank), None;
      }
      if IsEmpty(htmlBody) && IsEmpty(plainTextBody) {
        return Failed(BodyBlank), None;
      }
      if dev && !ToIsErrorEmail(to, errorEmailAddress) {
        To(Str(safeEmailAddress), Str(SAFE_NAME));
      }
      request := Some(Request(from, to, subject, htmlBody, plainTextBody, attachments, true));
      outcome := Delivery(reply);
    }
  }
}
