/**
  The contact-form relay (supabase/functions/send-contact-email/index.ts): an
  HTTP handler that answers CORS preflights, validates the submitted email
  address and message, builds a notification mail and hands it to the mail
  service, and reports the result as a JSON response.

  Reading the request body and sending the mail are effects outside the
  model. The parsed body (or the error the parse threw) is part of the
  request, and whether the send returned or threw is an extra input. The
  handler's result records the response and the mail handed to the send,
  if one was.
*/
module SendContactEmail {
  import opened Wrappers

  // ---------------- Message text ----------------

  /** The number of newline characters in `s`. */
  function CountNewlines(s: string): nat {
    if s == [] then 0 else (if s[0] == '\n' then 1 else 0) + CountNewlines(s[1..])
  }

  lemma {:induction false} CountNewlinesAppend(a: string, b: string)
    ensures CountNewlines(a + b) == CountNewlines(a) + CountNewlines(b)
  {
    if a == [] {
      assert a + b == b;
    } else {
      assert (a + b)[0] == a[0];
      assert (a + b)[1..] == a[1..] + b;
      CountNewlinesAppend(a[1..], b);
    }
  }

  /** `message.replace(/\n/g, '<br>')`: a line break becomes an HTML break. */
  function ReplaceNewlines(s: string): (r: string)
    ensures '\n' !in r
    ensures |r| == |s| + 3 * CountNewlines(s)
  {
    if s == [] then []
    else (if s[0] == '\n' then "<br>" else [s[0]]) + ReplaceNewlines(s[1..])
  }

  /** The replacement works character by character, so it distributes over concatenation. */
  lemma {:induction false} ReplaceNewlinesAppend(a: string, b: string)
    ensures ReplaceNewlines(a + b) == ReplaceNewlines(a) + ReplaceNewlines(b)
  {
    if a == [] {
      assert a + b == b;
    } else {
      assert (a + b)[0] == a[0];
      assert (a + b)[1..] == a[1..] + b;
      ReplaceNewlinesAppend(a[1..], b);
    }
  }

  /** A message without line breaks is embedded unchanged. */
  lemma {:induction false} ReplaceNewlinesIdentity(s: string)
    requires '\n' !in s
    ensures ReplaceNewlines(s) == s
  {
    if s != [] {
      assert forall k :: 0 <= k < |s[1..]| ==> s[1..][k] == s[k + 1];
      ReplaceNewlinesIdentity(s[1..]);
    }
  }

  /** Reads an embedded message back: every "<br>" becomes a line break again. */
  function RestoreNewlines(t: string): (s: string)
    ensures |s| <= |t|
  {
    if t == [] then []
    else if |t| >= 4 && t[..4] == "<br>" then "\n" + RestoreNewlines(t[4..])
    else [t[0]] + RestoreNewlines(t[1..])
  }

  /**
    A message that contains no '<' can be recovered from its embedded form,
    so the replacement loses nothing for such messages.
  */
  lemma {:induction false} ReplaceNewlinesRoundTrip(s: string)
    requires '<' !in s
    ensures RestoreNewlines(ReplaceNewlines(s)) == s
  {
    if s != [] {
      var rest := ReplaceNewlines(s[1..]);
      assert forall k :: 0 <= k < |s[1..]| ==> s[1..][k] == s[k + 1];
      ReplaceNewlinesRoundTrip(s[1..]);
      if s[0] == '\n' {
        var t := "<br>" + rest;
        assert t[..4] == "<br>";
        assert t[4..] == rest;
      } else {
        var t := [s[0]] + rest;
        assert t[0] == s[0] != '<';
        assert t[1..] == rest;
      }
    }
  }

  /**
    `message.length`: JavaScript strings count UTF-16 code units, so a
    character outside the Basic Multilingual Plane counts twice.
  */
  function Utf16Length(s: string): (n: nat)
    ensures |s| <= n <= 2 * |s|
  {
    if s == [] then 0 else (if s[0] as int >= 0x1_0000 then 2 else 1) + Utf16Length(s[1..])
  }

  // ---------------- The notification mail ----------------

  const FromAddress := "Atom 5 Contact <onboarding@resend.dev>"
  const ToAddress := "info@atom5engineering.com"
  const SubjectPrefix := "New Contact Form Submission from "
  /** The indentation of each line of the html template. */
  const HtmlIndent := "        "
  /** The indentation before the template's closing backquote. */
  const HtmlClosingIndent := "      "

  /** The fixed pieces of the html template. */
  const Heading := "<h2>New Contact Form Submission</h2>"
  const FromOpen := "<p><strong>From:</strong> "
  const MessageHeading := "<p><strong>Message:</strong></p>"
  const ParaOpen := "<p>"
  const ParaClose := "</p>"

  datatype Mail = Mail(from: string, to: seq<string>, subject: string, html: string, replyTo: string)

  /** One line of the html template: a line break, the indentation, then `content`. */
  function HtmlLine(content: string): string {
    "\n" + HtmlIndent + content
  }

  /** The html up to the message: the heading, the sender line, and the opening of the message paragraph. */
  function HtmlBeforeMessage(email: string): string {
    HtmlLine(Heading) + HtmlLine(FromOpen + email + ParaClose) + HtmlLine(MessageHeading)
    + HtmlLine(ParaOpen)
  }

  /** The html after the message: the paragraph's end and the template's last line. */
  const HtmlAfterMessage := ParaClose + "\n" + HtmlClosingIndent

  /** The html body: a heading, the sender, and the message with its line breaks as `<br>`. */
  function ContactHtml(email: string, message: string): (h: string)
    ensures |h| == |HtmlBeforeMessage(email)| + |message| + 3 * CountNewlines(message) + |HtmlAfterMessage|
    ensures h[..|HtmlBeforeMessage(email)|] == HtmlBeforeMessage(email)
  {
    HtmlBeforeMessage(email) + ReplaceNewlines(message) + HtmlAfterMessage
  }

  /** The mail handed to the mail service for a valid submission. */
  function ContactMail(email: string, message: string): (m: Mail)
    ensures m.to == [ToAddress] && m.from == FromAddress
    ensures m.replyTo == email && |SubjectPrefix| <= |m.subject| && m.subject[|SubjectPrefix|..] == m.replyTo
    ensures m.html == ContactHtml(email, message)
  {
    Mail(FromAddress, [ToAddress], SubjectPrefix + email, ContactHtml(email, message), email)
  }

  /**
    The mail goes to the one fixed inbox, from the fixed sender, with a
    subject naming the submitter and replies directed to them. The message
    sits between the fixed template parts with no line break left in it,
    and a message without '<' can be read back from the html.
  */
  lemma ContactMailShape(email: string, message: string)
    ensures var m := ContactMail(email, message);
      var start := |HtmlBeforeMessage(email)|;
      var end := |m.html| - |HtmlAfterMessage|;
      && m.from == FromAddress && m.to == [ToAddress]
      && m.subject[..|SubjectPrefix|] == SubjectPrefix && m.subject[|SubjectPrefix|..] == email
      && m.replyTo == email
      && 0 <= start <= end <= |m.html|
      && m.html[..start] == HtmlBeforeMessage(email)
      && m.html[end..] == HtmlAfterMessage
      && m.html[start..end] == ReplaceNewlines(message)
      && '\n' !in m.html[start..end]
      && ('<' !in message ==> RestoreNewlines(m.html[start..end]) == message)
  {
    var m := ContactMail(email, message);
    var before, body := HtmlBeforeMessage(email), ReplaceNewlines(message);
    assert m.html == before + body + HtmlAfterMessage;
    assert m.html[..|before|] == before;
    assert m.html[|before|..|m.html| - |HtmlAfterMessage|] == body;
    assert m.subject[|SubjectPrefix|..] == email;
    if '<' !in message {
      ReplaceNewlinesRoundTrip(message);
    }
  }

  // ---------------- The handler ----------------

  /** The fields of the parsed JSON body; `None` is a missing field. Or the error the parse threw. */
  datatype Body =
    | Parsed(email: Option<string>, message: Option<string>)
    | ParseFailed(error: string)

  datatype Request = Request(verb: string, body: Body)

  /** What the mail service did with the mail: returned, or threw an error with this message. */
  datatype SendOutcome = Returned | Threw(error: string)

  /** The JSON bodies the handler serializes, and the preflight's null body. */
  datatype ResponseBody = NullBody | ErrorBody(error: string) | SuccessBody

  datatype Response = Response(status: int, body: ResponseBody, headers: seq<(string, string)>)

  /** The handler's result: its response and the mail it handed to the send, if any. */
  datatype Outcome = Outcome(response: Response, sent: Option<Mail>)

  const MaxMessageLength := 5000
  const RequiredError := "Email and message are required"
  const TooLongError := "Message is too long"

  const CorsHeaders: seq<(string, string)> := [
    ("Access-Control-Allow-Origin", "*"),
    ("Access-Control-Allow-Headers", "authorization, x-client-info, apikey, content-type")
  ]

  /** The headers of every JSON response: the content type, then the CORS headers. */
  const JsonHeaders: seq<(string, string)> := [("Content-Type", "application/json")] + CorsHeaders

  /** `new Response(null, { headers: corsHeaders })`, whose status defaults to 200. */
  const Preflight := Response(200, NullBody, CorsHeaders)

  function JsonResponse(status: int, body: ResponseBody): Response {
    Response(status, body, JsonHeaders)
  }

  /** A field passes the presence check unless it is missing or empty. */
  predicate Present(field: Option<string>) {
    field.Some? && field.value != ""
  }

  /** Whether a submission passes both checks and is sent. */
  predicate Acceptable(email: Option<string>, message: Option<string>) {
    Present(email) && Present(message) && Utf16Length(message.value) <= MaxMessageLength
  }

  /**
    The handler's ordered chain: a preflight is answered at once; a body
    that fails to parse is a 500 carrying the parse error; a missing field
    is a 400, checked before the length; an over-long message is a 400;
    otherwise the mail is sent and the response is 200, or 500 with the
    error the send threw.
  */
  function Handle(req: Request, send: SendOutcome): (o: Outcome)
    ensures o.response.status in {200, 400, 500}
    ensures o.response.status == 400 ==> o.sent.None?
    ensures o.response.body == SuccessBody ==> o.sent.Some? && send.Returned?
    ensures req.verb != "OPTIONS" ==> o.response.headers == JsonHeaders
  {
    if req.verb == "OPTIONS" then Outcome(Preflight, None)
    else match req.body
      case ParseFailed(error) => Outcome(JsonResponse(500, ErrorBody(error)), None)
      case Parsed(email, message) =>
        if !Present(email) || !Present(message) then
          Outcome(JsonResponse(400, ErrorBody(RequiredError)), None)
        else if Utf16Length(message.value) > MaxMessageLength then
          Outcome(JsonResponse(400, ErrorBody(TooLongError)), None)
        else
          var mail := ContactMail(email.value, message.value);
          match send
          case Returned => Outcome(JsonResponse(200, SuccessBody), Some(mail))
          case Threw(error) => Outcome(JsonResponse(500, ErrorBody(error)), Some(mail))
  }

  /** A preflight is answered with the CORS headers and a null body, whatever the body and the mail service would do. */
  lemma PreflightShortCircuits(body: Body, send: SendOutcome)
    ensures Handle(Request("OPTIONS", body), send) == Outcome(Preflight, None)
    ensures Preflight.status == 200 && Preflight.body == NullBody && Preflight.headers == CorsHeaders
  {
  }

  /**
    Every other response is JSON with the CORS headers, and its status is
    200, 400 or 500.
  */
  lemma ResponseShape(req: Request, send: SendOutcome)
    requires req.verb != "OPTIONS"
    ensures var r := Handle(req, send).response;
      && r.headers == JsonHeaders
      && r.headers[1..] == CorsHeaders
      && r.status in {200, 400, 500}
      && (r.status == 200 <==> r.body == SuccessBody)
      && r.body != NullBody
  {
  }

  /**
    A missing or empty field is rejected with 400 and nothing is sent, even
    when the message is also too long: presence is checked first.
  */
  lemma MissingFieldRejected(verb: string, email: Option<string>, message: Option<string>, send: SendOutcome)
    requires verb != "OPTIONS"
    requires !Present(email) || !Present(message)
    ensures Handle(Request(verb, Parsed(email, message)), send)
         == Outcome(JsonResponse(400, ErrorBody(RequiredError)), None)
  {
  }

  /** A message longer than 5000 UTF-16 code units is rejected with 400 and nothing is sent. */
  lemma TooLongRejected(verb: string, email: string, message: string, send: SendOutcome)
    requires verb != "OPTIONS" && email != "" && message != ""
    requires Utf16Length(message) > MaxMessageLength
    ensures Handle(Request(verb, Parsed(Some(email), Some(message))), send)
         == Outcome(JsonResponse(400, ErrorBody(TooLongError)), None)
  {
  }

  /**
    A mail is handed to the service exactly when the request is not a
    preflight, its body parsed, and both checks pass, and it is then the
    contact mail for those fields.
  */
  lemma SentIffAcceptable(req: Request, send: SendOutcome)
    ensures var o := Handle(req, send);
      && (o.sent.Some? <==> req.verb != "OPTIONS" && req.body.Parsed? && Acceptable(req.body.email, req.body.message))
      && (o.sent.Some? ==> o.sent.value == ContactMail(req.body.email.value, req.body.message.value))
  {
  }

  /**
    For an acceptable submission the mail service alone decides: 200 with
    `{success: true}` when it returns, 500 with its error when it throws.
    A message of exactly 5000 code units is acceptable.
  */
  lemma AcceptedOutcome(verb: string, email: string, message: string, send: SendOutcome)
    requires verb != "OPTIONS" && Acceptable(Some(email), Some(message))
    ensures var o := Handle(Request(verb, Parsed(Some(email), Some(message))), send);
      && o.sent == Some(ContactMail(email, message))
      && (send.Returned? ==> o.response == JsonResponse(200, SuccessBody))
      && (send.Threw? ==> o.response == JsonResponse(500, ErrorBody(send.error)))
    ensures Utf16Length(message) == MaxMessageLength ==> Acceptable(Some(email), Some(message))
  {
  }

  /** A body that fails to parse is a 500 carrying the parse error, and nothing is sent. */
  lemma ParseFailureIsServerError(verb: string, error: string, send: SendOutcome)
    requires verb != "OPTIONS"
    ensures Handle(Request(verb, ParseFailed(error)), send)
         == Outcome(JsonResponse(500, ErrorBody(error)), None)
  {
  }
}
