/** The server-side contact-form handler (`api/contact.js`): the `isEmail` and
    `sanitize` helpers, the classification of the requested service into a
    subject prefix, and the handler itself, which gates a submission and then
    hands at most two notifications to the mail sender.

    The handler is a pure function here: its effects on the HTTP response and
    its calls to the mail sender come back as an `Outcome`, the response plus
    the notifications handed to the sender in call order. Whether a call to the
    sender throws is an input (`Delivery`). */
module Contact {
  import opened Wrappers
  import opened JsStrings

  /** The configured sender identity and internal recipient list. */
  const FromEmail: string := "Climpro <info@climpro.be>"
  const ToEmails: seq<string> := ["info@climpro.be"]

  /* ---------------------------------------------------------------------- */
  /* isEmail                                                                */
  /* ---------------------------------------------------------------------- */

  /** A character of the class `[^\s@]`. */
  predicate PlainChar(c: char) {
    !IsSpace(c) && c != '@'
  }

  predicate AllPlain(s: string) {
    forall k :: 0 <= k < |s| ==> PlainChar(s[k])
  }

  /** The length of the longest prefix of `s` made of `[^\s@]` characters. */
  function PlainPrefixLength(s: string): (n: nat)
    ensures n <= |s| && AllPlain(s[..n])
    ensures n == |s| || !PlainChar(s[n])
  {
    if s == [] || !PlainChar(s[0]) then 0
    else
      var n := 1 + PlainPrefixLength(s[1..]);
      assert s[..n] == [s[0]] + s[1..][..n - 1];
      n
  }

  /** A dot with at least one character on each side of it. */
  predicate HasInnerDot(t: string) {
    exists k :: 0 < k < |t| - 1 && t[k] == '.'
  }

  /** The email check on a string, by one scan: a non-empty run of `[^\s@]`,
      then `@`, then the rest all `[^\s@]` with an inner dot. */
  predicate IsEmailText(s: string) {
    var n := PlainPrefixLength(s);
    0 < n < |s| && s[n] == '@' && AllPlain(s[n + 1..]) && HasInnerDot(s[n + 1..])
  }

  /** `s` splits at an `@` at index `i` and a later `.` at index `j` into three
      non-empty runs of `[^\s@]` characters. */
  ghost predicate SplitsAsEmail(s: string, i: int, j: int) {
    && 0 < i && i + 1 < j && j + 1 < |s| && s[i] == '@' && s[j] == '.'
    && AllPlain(s[..i]) && AllPlain(s[i + 1..j]) && AllPlain(s[j + 1..])
  }

  /** The regular expression `^[^\s@]+@[^\s@]+\.[^\s@]+$` read off directly:
      some `@` and some later `.` split `s` into three runs of it. */
  ghost predicate MatchesEmailPattern(s: string) {
    exists i, j :: SplitsAsEmail(s, i, j)
  }

  /** The one-scan check and the pattern accept the same strings. */
  lemma IsEmailTextMatchesPattern(s: string)
    ensures IsEmailText(s) <==> MatchesEmailPattern(s)
  {
    if IsEmailText(s) {
      ScanMatches(s);
    }
    if MatchesEmailPattern(s) {
      var i, j :| SplitsAsEmail(s, i, j);
      PatternScans(s, i, j);
    }
  }

  lemma ScanMatches(s: string)
    requires IsEmailText(s)
    ensures MatchesEmailPattern(s)
  {
    var n := PlainPrefixLength(s);
    var t := s[n + 1..];
    var k :| 0 < k < |t| - 1 && t[k] == '.';
    var j := n + 1 + k;
    assert s[n + 1..j] == t[..k];
    assert s[j + 1..] == t[k + 1..];
    assert SplitsAsEmail(s, n, j);
  }

  lemma PatternScans(s: string, i: int, j: int)
    requires SplitsAsEmail(s, i, j)
    ensures IsEmailText(s)
  {
    var n := PlainPrefixLength(s);
    assert n == i;
    var t := s[i + 1..];
    forall m | 0 <= m < |t| ensures PlainChar(t[m]) {
      if m < j - i - 1 {
        assert t[m] == s[i + 1..j][m];
      } else if m > j - i - 1 {
        assert t[m] == s[j + 1..][m - (j - i)];
      }
    }
    assert t[j - i - 1] == '.';
  }

  /** `isEmail(v)`: true exactly when `(v || '')`, as a string, matches the
      email pattern; a missing or falsy value is never an email. */
  function IsEmail(v: JsValue): (r: bool)
    ensures r <==> MatchesEmailPattern(OrEmptyToString(v))
    ensures r ==> Truthy(v)
  {
    var s := OrEmptyToString(v);
    IsEmailTextMatchesPattern(s);
    IsEmailText(s)
  }

  /** Three non-empty `[^\s@]` runs joined as `a@b.c` make an email, whatever
      dots `b` and `c` hold. */
  lemma EmailFromParts(a: string, b: string, c: string)
    requires a != [] && b != [] && c != []
    requires AllPlain(a) && AllPlain(b) && AllPlain(c)
    ensures IsEmail(Str(a + "@" + b + "." + c))
  {
    var s := a + "@" + b + "." + c;
    var i, j := |a|, |a| + 1 + |b|;
    assert s[..i] == a;
    assert s[i + 1..j] == b;
    assert s[j + 1..] == c;
    assert SplitsAsEmail(s, i, j);
  }

  /* ---------------------------------------------------------------------- */
  /* sanitize                                                               */
  /* ---------------------------------------------------------------------- */

  predicate NoAngles(s: string) {
    '<' !in s && '>' !in s
  }

  /** `s.replace(/[<>]/g, '')`: every `<` and `>` removed, every other
      character kept as often as it occurs. */
  function StripAngles(s: string): (r: string)
    ensures NoAngles(r)
    ensures |r| <= |s|
    ensures NoAngles(s) ==> r == s
    ensures |s| == 1 ==> r == (if s[0] == '<' || s[0] == '>' then [] else s)
  {
    if s == [] then []
    else (if s[0] == '<' || s[0] == '>' then [] else [s[0]]) + StripAngles(s[1..])
  }

  /** Stripping works piece by piece and keeps the order: with the
      one-character case, every character is dropped or kept where it is. */
  lemma {:induction false} StripAnglesAppend(a: string, b: string)
    ensures StripAngles(a + b) == StripAngles(a) + StripAngles(b)
  {
    if a == [] {
      assert a + b == b;
    } else {
      assert (a + b)[0] == a[0];
      assert (a + b)[1..] == a[1..] + b;
      StripAnglesAppend(a[1..], b);
    }
  }

  /** Stripping keeps every other character, as often as it occurs. */
  lemma {:induction false} StripAnglesKeepsOthers(s: string, c: char)
    requires c != '<' && c != '>'
    ensures multiset(StripAngles(s))[c] == multiset(s)[c]
  {
    if s != [] {
      StripAnglesKeepsOthers(s[1..], c);
      assert s == [s[0]] + s[1..];
    }
  }

  /** `sanitize(v)`: no `<` or `>`, no white space at either end, never longer
      than the input's string form, and `""` for a missing or falsy input. */
  function Sanitize(v: JsValue): (r: string)
    ensures NoAngles(r)
    ensures Trimmed(r)
    ensures |r| <= |OrEmptyToString(v)|
    ensures !Truthy(v) ==> r == ""
  {
    var s := StripAngles(OrEmptyToString(v));
    TrimKeepsCharacters(s);
    Trim(s)
  }

  /** Sanitising twice is sanitising once. */
  lemma SanitizeIdempotent(v: JsValue)
    ensures Sanitize(Str(Sanitize(v))) == Sanitize(v)
  {
  }

  /** A clean string (no angle brackets, trimmed) passes through unchanged. */
  lemma SanitizeKeepsClean(s: string)
    requires NoAngles(s) && Trimmed(s)
    ensures Sanitize(Str(s)) == s
  {
  }

  /** Sanitising removes only the angle brackets and the white space around
      what is left: the result is what remains of the stripped string once a
      run of white space is cut from each end. */
  lemma SanitizeCutsOnlySpace(v: JsValue)
    ensures exists lead, trail :: AllSpace(lead) && AllSpace(trail)
              && StripAngles(OrEmptyToString(v)) == lead + Sanitize(v) + trail
  {
    var s := StripAngles(OrEmptyToString(v));
    var lead, trail := TrimParts(s);
    assert Sanitize(v) == Trim(s);
  }

  /* ---------------------------------------------------------------------- */
  /* Subject classification                                                 */
  /* ---------------------------------------------------------------------- */

  /** The four kinds of request the subject line distinguishes. */
  datatype Service = Maintenance | Repair | Installation | Quote

  /** The lower-cased service text contains `word`. */
  ghost predicate Mentions(service: string, word: string) {
    exists i :: OccursAt(ToLower(service), word, i)
  }

  /** The first of "entretien", "dépannage", "installation" that the
      lower-cased service text contains decides; with none of them it is a
      quote request. */
  function Classify(service: string): (c: Service)
    ensures c == Maintenance <==> Mentions(service, "entretien")
    ensures c == Repair <==>
              !Mentions(service, "entretien") && Mentions(service, "dépannage")
    ensures c == Installation <==>
              !Mentions(service, "entretien") && !Mentions(service, "dépannage")
              && Mentions(service, "installation")
    ensures c == Quote <==>
              !Mentions(service, "entretien") && !Mentions(service, "dépannage")
              && !Mentions(service, "installation")
  {
    var lower := ToLower(service);
    if Includes(lower, "entretien") then Maintenance
    else if Includes(lower, "dépannage") then Repair
    else if Includes(lower, "installation") then Installation
    else Quote
  }

  /** The subject prefix of each kind of request; every one starts with
      "Demande ". */
  function Label(c: Service): (r: string)
    ensures |r| > 8 && r[..8] == "Demande "
  {
    match c
    case Maintenance => "Demande d’entretien"
    case Repair => "Demande de dépannage"
    case Installation => "Demande d’info installation"
    case Quote => "Demande de devis gratuit"
  }

  /** No two kinds of request share a subject prefix. */
  lemma LabelsDistinct(c1: Service, c2: Service)
    ensures Label(c1) == Label(c2) ==> c1 == c2
  {
  }

  /** `subjectPrefix` for a sanitised service text: the label of the first
      keyword mentioned, in the order entretien, dépannage, installation, and
      the free-quote label when none is. */
  function SubjectPrefix(service: string): (r: string)
    ensures Mentions(service, "entretien") ==> r == "Demande d’entretien"
    ensures !Mentions(service, "entretien") && Mentions(service, "dépannage") ==>
              r == "Demande de dépannage"
    ensures !Mentions(service, "entretien") && !Mentions(service, "dépannage")
            && Mentions(service, "installation") ==>
              r == "Demande d’info installation"
    ensures !Mentions(service, "entretien") && !Mentions(service, "dépannage")
            && !Mentions(service, "installation") ==>
              r == "Demande de devis gratuit"
  {
    Label(Classify(service))
  }

  /* ---------------------------------------------------------------------- */
  /* The handler                                                            */
  /* ---------------------------------------------------------------------- */

  /** The fields of the JSON body the handler reads; any other is ignored. */
  datatype Body = Body(
    fullname: JsValue, email: JsValue, phone: JsValue, postal: JsValue,
    service: JsValue, appareils: JsValue, message: JsValue, pageSource: JsValue,
    hp: JsValue, consent: JsValue)

  /** What `req.body || {}` yields when there is no body: every field absent. */
  const EmptyBody: Body := Body(Undefined, Undefined, Undefined, Undefined,
    Undefined, Undefined, Undefined, Undefined, Undefined, Undefined)

  datatype Request = Request(httpMethod: string, body: Option<Body>)

  /** The response: its status, the `ok` and `error` members of its JSON
      body, and the `Allow` header when one is set. */
  datatype Response = Response(status: int, ok: bool, error: Option<string>, allow: Option<string>)

  /** What a notification's body shows: the internal one shows every sanitised
      field ('—' for an empty optional one, '/' for an empty page source), the
      acknowledgement a greeting name and a recap. */
  datatype Content =
    | InternalContent(name: string, email: string, phone: string, postal: string,
                      service: string, devices: string, message: string, source: string)
    | AckContent(greeting: string, service: string, postal: string, devices: string)

  /** One call to the mail sender. */
  datatype Notification = Notification(
    from: string, to: seq<string>, subject: string, replyTo: Option<string>, content: Content)

  /** Whether each of the two calls to the mail sender throws. */
  datatype Delivery = Delivery(internalThrows: bool, ackThrows: bool)

  /** The response, and the notifications handed to the sender in call order
      (a call that throws was still made). */
  datatype Outcome = Outcome(response: Response, attempts: seq<Notification>)

  /** The sanitised fields. */
  datatype Fields = Fields(
    full: string, msg: string, email: string, phone: string,
    postal: string, service: string, apps: string, page: string)

  function SanitizeFields(b: Body): (f: Fields)
    ensures NoAngles(f.full) && NoAngles(f.msg) && NoAngles(f.email) && NoAngles(f.phone)
    ensures NoAngles(f.postal) && NoAngles(f.service) && NoAngles(f.apps) && NoAngles(f.page)
  {
    Fields(Sanitize(b.fullname), Sanitize(b.message), Sanitize(b.email), Sanitize(b.phone),
           Sanitize(b.postal), Sanitize(b.service), Sanitize(b.appareils), Sanitize(b.pageSource))
  }

  const MethodNotAllowed: Response := Response(405, false, Some("Méthode non autorisée"), Some("POST"))
  const Accepted: Response := Response(200, true, None, None)
  const ConsentRequired: Response := Response(400, false, Some("Consentement requis"), None)
  const MissingFields: Response := Response(400, false, Some("Champs requis manquants"), None)
  const ContactRequired: Response := Response(400, false, Some("Email valide OU téléphone requis"), None)
  const ServerError: Response := Response(500, false, Some("Erreur serveur"), None)

  /** `v || '—'` on a sanitised string. */
  function OrDash(s: string): string {
    if s == "" then "—" else s
  }

  /** The notification to the internal recipients. */
  function InternalNotification(f: Fields): (n: Notification)
    ensures n.to == ToEmails && n.from == FromEmail
    ensures n.replyTo.Some? <==> f.email != ""
    ensures n.replyTo.Some? ==> n.replyTo.value == f.email
  {
    Notification(FromEmail, ToEmails, SubjectPrefix(f.service) + " — " + f.full,
      if f.email != "" then Some(f.email) else None,
      InternalContent(f.full, OrDash(f.email), OrDash(f.phone), f.postal, f.service,
                      OrDash(f.apps), f.msg, if f.page == "" then "/" else f.page))
  }

  /** The acknowledgement to the submitter. */
  function AckNotification(f: Fields): (n: Notification)
    ensures n.to == [f.email] && n.from == FromEmail && n.replyTo.None?
  {
    var first := FirstSegment(f.full, ' ');
    Notification(FromEmail, [f.email], "✅ " + SubjectPrefix(f.service) + " — Climpro", None,
      AckContent(first, f.service, f.postal, OrDash(f.apps)))
  }

  /** The sends of an accepted submission: the internal notification, then
      the acknowledgement if the email is valid; the first call that throws
      ends the handler with a server error. */
  function Dispatch(f: Fields, d: Delivery): (o: Outcome)
    ensures 1 <= |o.attempts| <= 2 && o.attempts[0] == InternalNotification(f)
    ensures |o.attempts| == 2 <==> !d.internalThrows && IsEmail(Str(f.email))
    ensures |o.attempts| == 2 ==> o.attempts[1] == AckNotification(f)
    ensures forall k :: 0 <= k < |o.attempts| ==> o.attempts[k].from == FromEmail
    ensures o.response == Accepted || o.response == ServerError
    ensures o.response == ServerError <==> d.internalThrows || (|o.attempts| == 2 && d.ackThrows)
  {
    var internal := InternalNotification(f);
    if d.internalThrows then Outcome(ServerError, [internal])
    else if !IsEmail(Str(f.email)) then Outcome(Accepted, [internal])
    else
      var ack := AckNotification(f);
      if d.ackThrows then Outcome(ServerError, [internal, ack])
      else Outcome(Accepted, [internal, ack])
  }

  /** The contact-method gate: a phone of at least six UTF-16 code units, or
      a valid email. */
  predicate HasContact(f: Fields): (r: bool)
    ensures r <==> Utf16Length(f.phone) >= 6 || MatchesEmailPattern(f.email)
  {
    (f.phone != "" && Utf16Length(f.phone) >= 6) || IsEmail(Str(f.email))
  }

  /** The shape every response of the handler has: `ok` exactly for status
      200, an error message exactly when not ok, and the `Allow` header exactly
      for status 405. */
  predicate WellFormed(r: Response) {
    && (r.ok <==> r.status == 200)
    && (r.error.None? <==> r.ok)
    && (r.allow.Some? <==> r.status == 405)
    && r.status in {200, 400, 405, 500}
  }

  /** The validation gates and the dispatch, on the sanitised fields. */
  function Validate(f: Fields, d: Delivery): (o: Outcome)
    ensures WellFormed(o.response) && o.response.status != 405
    ensures o.attempts != [] <==> o.response.status in {200, 500}
    ensures o.response.status == 500 ==> o.attempts != []
    ensures |o.attempts| <= 2
    ensures forall k :: 0 <= k < |o.attempts| ==> o.attempts[k].from == FromEmail
  {
    if f.full == "" || f.msg == "" || f.postal == "" || f.service == "" then
      Outcome(MissingFields, [])
    else if !HasContact(f) then Outcome(ContactRequired, [])
    else Dispatch(f, d)
  }

  /** `handler(req, res)`. The gates run in order and the first that fails
      decides the response; only a submission that passes them all reaches the
      mail sender. */
  function Handle(req: Request, d: Delivery): (o: Outcome)
    ensures WellFormed(o.response)
    ensures |o.attempts| <= 2
    ensures o.response.status == 500 ==> o.attempts != []
    ensures forall k :: 0 <= k < |o.attempts| ==> o.attempts[k].from == FromEmail
  {
    if req.httpMethod != "POST" then Outcome(MethodNotAllowed, [])
    else
      var b := req.body.GetOr(EmptyBody);
      if Truthy(b.hp) then Outcome(Accepted, [])
      else if !Truthy(b.consent) then Outcome(ConsentRequired, [])
      else Validate(SanitizeFields(b), d)
  }
}
