/**
 * The serverless contact handler: method check, body check, JSON parse,
 * OAuth2 token exchange, mail send, each failure short-circuiting to a fixed
 * response. The parser, the token exchange and the mail transport are
 * external; they are given as a `Services` value that says how each call
 * turns out, and the handler reports the calls it made.
 */
module SendEmail {
  import opened Wrappers

  /** The destructured request body `{ name, email, subject, message }`. */
  datatype Submission = Submission(name: string, email: string, subject: string, message: string)

  /** The part of the incoming event the handler reads; an absent body is `None`. */
  datatype Event = Event(httpMethod: string, body: Option<string>)

  /** A handler result; an empty `headers` map stands for a result without headers. */
  datatype Response = Response(statusCode: int, headers: map<string, string>, body: string)

  datatype MailOptions = MailOptions(from: string, to: string, replyTo: string, subject: string, html: string)

  /** The process environment the handler reads: `USER_MAIL`, the owner's mailbox. */
  datatype Config = Config(userMail: string)

  /** How the external steps turn out: `parseJson` gives `None` where
      `JSON.parse` or the destructuring throws, `tokenGranted` is false where
      `getAccessToken` throws, `sendMail` is false where sending throws. */
  datatype Services = Services(
    parseJson: string -> Option<Submission>,
    tokenGranted: bool,
    sendMail: MailOptions -> bool)

  /** An external call the handler makes. */
  datatype Call = ParseJson(text: string) | GetAccessToken | SendMail(options: MailOptions)

  const CorsHeaders: map<string, string> :=
    map["Access-Control-Allow-Origin" := "*", "Access-Control-Allow-Headers" := "Content-Type"]

  const MethodNotAllowed := Response(405, map[], "Method Not Allowed")
  const MissingBody := Response(400, map[], "Missing request body")
  /** `JSON.stringify({ success: true, message: "Email sent successfully!" })` */
  const EmailSent := Response(200, CorsHeaders, "{\"success\":true,\"message\":\"Email sent successfully!\"}")
  /** `JSON.stringify({ success: false, error: "Failed to send email" })` */
  const SendFailed := Response(500, CorsHeaders, "{\"success\":false,\"error\":\"Failed to send email\"}")

  const SubjectPrefix := "Portfolio Contact: "

  /** The literal pieces of the HTML template, between the interpolations. */
  const HtmlHead := "\n        <h3>New Contact Form Submission</h3>\n        <p><strong>Name:</strong> "
  const HtmlAfterName := "</p>\n        <p><strong>Email:</strong> "
  const HtmlAfterEmail := "</p>\n        <p><strong>Subject:</strong> "
  const HtmlAfterSubject := "</p>\n        <p><strong>Message:</strong></p>\n        <p>"
  const HtmlTail := "</p>\n      "

  /** The mail body: the four fields pasted into the template as they are. */
  function MailHtml(s: Submission): string {
    HtmlHead + s.name + HtmlAfterName + s.email + HtmlAfterEmail + s.subject + HtmlAfterSubject + s.message + HtmlTail
  }

  /** `mailOptions`: from and to the owner, replies to the submitter. */
  function BuildMailOptions(config: Config, s: Submission): MailOptions {
    MailOptions(config.userMail, config.userMail, s.email, SubjectPrefix + s.subject, MailHtml(s))
  }

  /** `x` occurs in `s` as a contiguous piece. */
  ghost predicate IsInfix(x: string, s: string) {
    exists k :: 0 <= k <= |s| && x <= s[k..]
  }

  lemma InfixOfConcat(a: string, x: string, b: string)
    ensures IsInfix(x, a + x + b)
  {
    assert (a + x + b)[|a|..] == x + b;
  }

  /** The message's addressing: owner to owner, reply to the submitted
      address, and the submitted subject recoverable after the fixed label. */
  lemma MailAddressing(config: Config, s: Submission)
    ensures var m := BuildMailOptions(config, s);
      && m.from == config.userMail && m.to == config.userMail && m.replyTo == s.email
      && |SubjectPrefix| <= |m.subject| && m.subject[..|SubjectPrefix|] == SubjectPrefix
      && m.subject[|SubjectPrefix|..] == s.subject
  {
  }

  /** In any text laid out as the template is, with four pieces between five
      fixed parts, each piece occurs as it is. */
  lemma {:induction false} PiecesAreInfixes(
    h0: string, x1: string, h1: string, x2: string, h2: string,
    x3: string, h3: string, x4: string, h4: string)
    ensures var t := h0 + x1 + h1 + x2 + h2 + x3 + h3 + x4 + h4;
      IsInfix(x1, t) && IsInfix(x2, t) && IsInfix(x3, t) && IsInfix(x4, t)
  {
    var t := h0 + x1 + h1 + x2 + h2 + x3 + h3 + x4 + h4;
    var p1, p2, p3, p4 := h0, h0 + x1 + h1, h0 + x1 + h1 + x2 + h2, h0 + x1 + h1 + x2 + h2 + x3 + h3;
    assert t == p1 + x1 + (h1 + x2 + h2 + x3 + h3 + x4 + h4);
    assert t == p2 + x2 + (h2 + x3 + h3 + x4 + h4);
    assert t == p3 + x3 + (h3 + x4 + h4);
    assert t == p4 + x4 + h4;
    InfixOfConcat(p1, x1, h1 + x2 + h2 + x3 + h3 + x4 + h4);
    InfixOfConcat(p2, x2, h2 + x3 + h3 + x4 + h4);
    InfixOfConcat(p3, x3, h3 + x4 + h4);
    InfixOfConcat(p4, x4, h4);
  }

  /** No escaping: every submitted field, markup and all, occurs verbatim in
      the HTML body. */
  lemma HtmlCarriesFieldsVerbatim(s: Submission)
    ensures IsInfix(s.name, MailHtml(s)) && IsInfix(s.email, MailHtml(s))
    ensures IsInfix(s.subject, MailHtml(s)) && IsInfix(s.message, MailHtml(s))
  {
    PiecesAreInfixes(HtmlHead, s.name, HtmlAfterName, s.email, HtmlAfterEmail,
      s.subject, HtmlAfterSubject, s.message, HtmlTail);
  }

  /** Moving text and a copy of the separator from one side of a separator
      to the other keeps the concatenation. */
  lemma ShiftAcross(h: string, a: string, m: string, b: string, c: string)
    ensures h + (a + m + b) + m + c == h + a + m + (b + m + c)
  {
  }

  /** The two distinct submissions below produce the same HTML body: a name
      can carry the markup that the template itself puts between fields. */
  lemma HtmlAmbiguousWithoutEscaping()
    ensures var s1 := Submission("A" + HtmlAfterName + "B", "C", "S", "M");
            var s2 := Submission("A", "B" + HtmlAfterName + "C", "S", "M");
            s1 != s2 && MailHtml(s1) == MailHtml(s2)
  {
    var s1 := Submission("A" + HtmlAfterName + "B", "C", "S", "M");
    assert |s1.name| != |"A"|;
    ShiftAcross(HtmlHead, "A", HtmlAfterName, "B", "C");
  }

  /** `if (!event.body)`: an absent or empty body is falsy. */
  predicate HasBody(e: Event) {
    e.body.Some? && e.body.value != ""
  }

  /** `contactHandler`. */
  method ContactHandler(config: Config, event: Event, services: Services)
    returns (response: Response, calls: seq<Call>)
    // protocol errors answer without touching anything external
    ensures event.httpMethod != "POST" ==> response == MethodNotAllowed && calls == []
    ensures event.httpMethod == "POST" && !HasBody(event) ==> response == MissingBody && calls == []
    // a POST with a body is parsed first and ends in one of the two JSON envelopes
    ensures event.httpMethod == "POST" && HasBody(event) ==>
      && calls != [] && calls[0] == ParseJson(event.body.value)
      && (response == EmailSent || response == SendFailed)
    // success exactly when every external step succeeded
    ensures response == EmailSent <==>
      && event.httpMethod == "POST" && HasBody(event)
      && services.parseJson(event.body.value).Some?
      && services.tokenGranted
      && services.sendMail(BuildMailOptions(config, services.parseJson(event.body.value).value))
    // the CORS headers go with the JSON envelopes only
    ensures response.headers == CorsHeaders <==> response.statusCode == 200 || response.statusCode == 500
    ensures response.statusCode in {200, 400, 405, 500}
    // the send is the last call, made at most once, right after the token was obtained
    ensures forall k :: 0 <= k < |calls| && calls[k].SendMail? ==>
      && k == |calls| - 1 && 0 < k && calls[k - 1] == GetAccessToken
    ensures (exists k :: 0 <= k < |calls| && calls[k].SendMail?) <==>
      && event.httpMethod == "POST" && HasBody(event)
      && services.parseJson(event.body.value).Some? && services.tokenGranted
    // the token is asked for exactly when the parse succeeded, once, right after it
    ensures GetAccessToken in calls <==>
      event.httpMethod == "POST" && HasBody(event) && services.parseJson(event.body.value).Some?
    ensures forall k :: 0 <= k < |calls| && calls[k] == GetAccessToken ==> k == 1
    // the body is parsed once, as the first call
    ensures forall k :: 0 <= k < |calls| && calls[k].ParseJson? ==> k == 0
    // a failed step is the last call: nothing follows a failed parse or token step
    ensures event.httpMethod == "POST" && HasBody(event) && services.parseJson(event.body.value).None? ==>
      calls == [ParseJson(event.body.value)]
    ensures (event.httpMethod == "POST" && HasBody(event) && services.parseJson(event.body.value).Some?
             && !services.tokenGranted) ==>
      calls == [ParseJson(event.body.value), GetAccessToken]
    // no external call is made twice, so there are at most three
    ensures forall j, k :: 0 <= j < k < |calls| ==> calls[j] != calls[k]
    ensures |calls| <= 3
    // and what is sent is the message built from the parsed submission
    ensures forall k :: 0 <= k < |calls| && calls[k].SendMail? ==>
      calls[k].options == BuildMailOptions(config, services.parseJson(event.body.value).value)
  {
    assert CorsHeaders != map[] by { assert "Access-Control-Allow-Origin" in CorsHeaders; }
    if event.httpMethod != "POST" {
      return MethodNotAllowed, [];
    }
    if event.body.None? || event.body.value == "" {
      return MissingBody, [];
    }
    calls := [ParseJson(event.body.value)];
    var parsed := services.parseJson(event.body.value);
    if parsed.None? {
      return SendFailed, calls;
    }
    calls := calls + [GetAccessToken];
    if !services.tokenGranted {
      return SendFailed, calls;
    }
    var mailOptions := BuildMailOptions(config, parsed.value);
    calls := calls + [SendMail(mailOptions)];
    assert calls[2].SendMail?;
    if !services.sendMail(mailOptions) {
      return SendFailed, calls;
    }
    return EmailSent, calls;
  }
}
