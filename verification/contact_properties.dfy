/** What the contact handler promises, stated against the model in `Contact`:
    the order of its gates, that nothing is sent unless a submission passes
    them all, the rules of the two sends, the subject classification, and
    worked examples of the handler. */
module ContactProperties {
  import opened Wrappers
  import opened JsStrings
  import opened Contact

  /** The body the handler reads from a request. */
  function BodyOf(req: Request): Body {
    req.body.GetOr(EmptyBody)
  }

  /** A submission that should reach the mail sender, written from the data
      model rather than from the handler: a POST, honeypot empty, consent
      given, name, message, postal code and service non-empty once sanitised,
      and a phone of at least six UTF-16 code units or an address matching the
      email pattern. */
  ghost predicate Deliverable(req: Request) {
    var b := BodyOf(req);
    var f := SanitizeFields(b);
    && req.httpMethod == "POST"
    && !Truthy(b.hp)
    && Truthy(b.consent)
    && f.full != "" && f.msg != "" && f.postal != "" && f.service != ""
    && (Utf16Length(f.phone) >= 6 || MatchesEmailPattern(f.email))
  }

  /** The validation gates on sanitised fields: the first failing one
      answers 400 with nothing sent, and passing both leads to the dispatch. */
  lemma ValidateOutcome(f: Fields, d: Delivery)
    ensures f.full == "" || f.msg == "" || f.postal == "" || f.service == "" ==>
              Validate(f, d) == Outcome(MissingFields, [])
    ensures f.full != "" && f.msg != "" && f.postal != "" && f.service != ""
            && Utf16Length(f.phone) < 6 && !MatchesEmailPattern(f.email) ==>
              Validate(f, d) == Outcome(ContactRequired, [])
    ensures f.full != "" && f.msg != "" && f.postal != "" && f.service != ""
            && (Utf16Length(f.phone) >= 6 || MatchesEmailPattern(f.email)) ==>
              Validate(f, d) == Dispatch(f, d)
  {
  }

  /** Past the method, honeypot and consent gates, the handler is the
      validation and dispatch of the sanitised fields. */
  lemma HandleReachesValidate(req: Request, d: Delivery)
    requires req.httpMethod == "POST" && !Truthy(BodyOf(req).hp) && Truthy(BodyOf(req).consent)
    ensures Handle(req, d) == Validate(SanitizeFields(BodyOf(req)), d)
  {
  }

  /* ---------------------------------------------------------------------- */
  /* The gates                                                              */
  /* ---------------------------------------------------------------------- */

  /** Any method but POST: 405 with `Allow: POST`, nothing sent. */
  lemma NonPostRejected(req: Request, d: Delivery)
    requires req.httpMethod != "POST"
    ensures Handle(req, d).attempts == []
    ensures Handle(req, d).response == Response(405, false, Some("Méthode non autorisée"), Some("POST"))
  {
  }

  /** A truthy honeypot: a silent 200, nothing sent, whatever else the body
      holds; in particular never a 400. */
  lemma HoneypotSilent(req: Request, d: Delivery)
    requires req.httpMethod == "POST" && Truthy(BodyOf(req).hp)
    ensures Handle(req, d).attempts == []
    ensures Handle(req, d).response == Response(200, true, None, None)
  {
  }

  /** Honeypot empty and consent falsy: 400 'Consentement requis'. */
  lemma ConsentRequiredGate(req: Request, d: Delivery)
    requires req.httpMethod == "POST" && !Truthy(BodyOf(req).hp)
    requires !Truthy(BodyOf(req).consent)
    ensures Handle(req, d).attempts == []
    ensures Handle(req, d).response == Response(400, false, Some("Consentement requis"), None)
  {
  }

  /** Consent given but a required field empty after sanitising: 400
      'Champs requis manquants'. */
  lemma RequiredFieldsGate(req: Request, d: Delivery)
    requires req.httpMethod == "POST" && !Truthy(BodyOf(req).hp) && Truthy(BodyOf(req).consent)
    requires var f := SanitizeFields(BodyOf(req));
             f.full == "" || f.msg == "" || f.postal == "" || f.service == ""
    ensures Handle(req, d).attempts == []
    ensures Handle(req, d).response == Response(400, false, Some("Champs requis manquants"), None)
  {
    HandleReachesValidate(req, d);
    ValidateOutcome(SanitizeFields(BodyOf(req)), d);
  }

  /** Every required field present but neither a long enough phone nor a
      valid email: 400 'Email valide OU téléphone requis'. */
  lemma ContactMethodGate(req: Request, d: Delivery)
    requires req.httpMethod == "POST" && !Truthy(BodyOf(req).hp) && Truthy(BodyOf(req).consent)
    requires var f := SanitizeFields(BodyOf(req));
             f.full != "" && f.msg != "" && f.postal != "" && f.service != ""
             && Utf16Length(f.phone) < 6 && !MatchesEmailPattern(f.email)
    ensures Handle(req, d).attempts == []
    ensures Handle(req, d).response == Response(400, false, Some("Email valide OU téléphone requis"), None)
  {
    HandleReachesValidate(req, d);
    ValidateOutcome(SanitizeFields(BodyOf(req)), d);
  }

  /** The mail sender is called exactly for the submissions that pass every
      gate, and whatever the sender does. */
  lemma SendsOnlyWhenDeliverable(req: Request, d: Delivery)
    ensures Handle(req, d).attempts != [] <==> Deliverable(req)
  {
    var b := BodyOf(req);
    if req.httpMethod == "POST" && !Truthy(b.hp) && Truthy(b.consent) {
      HandleReachesValidate(req, d);
      ValidateOutcome(SanitizeFields(b), d);
    }
  }

  /** A rejection or a silent honeypot never reaches the sender, so the
      sender's behaviour cannot change it. */
  lemma RejectionIgnoresDelivery(req: Request, d1: Delivery, d2: Delivery)
    requires !Deliverable(req)
    ensures Handle(req, d1) == Handle(req, d2)
  {
    var b := BodyOf(req);
    if req.httpMethod == "POST" && !Truthy(b.hp) && Truthy(b.consent) {
      HandleReachesValidate(req, d1);
      HandleReachesValidate(req, d2);
      ValidateOutcome(SanitizeFields(b), d1);
      ValidateOutcome(SanitizeFields(b), d2);
    }
  }

  /* ---------------------------------------------------------------------- */
  /* Dispatch of an accepted submission                                     */
  /* ---------------------------------------------------------------------- */

  /** A deliverable submission goes straight to the dispatch of its
      sanitised fields. */
  lemma HandleDispatches(req: Request, d: Delivery)
    requires Deliverable(req)
    ensures Handle(req, d) == Dispatch(SanitizeFields(BodyOf(req)), d)
  {
    HandleReachesValidate(req, d);
    ValidateOutcome(SanitizeFields(BodyOf(req)), d);
  }

  /** The internal notification: from the configured sender to the internal
      list, subject `prefix — name`, `reply_to` the sanitised email when it is
      non-empty and unset otherwise. It is always the first call. */
  lemma InternalSendFirst(req: Request, d: Delivery)
    requires Deliverable(req)
    ensures var o := Handle(req, d);
            var f := SanitizeFields(BodyOf(req));
            && o.attempts != []
            && o.attempts[0].from == FromEmail
            && o.attempts[0].to == ToEmails
            && o.attempts[0].subject == SubjectPrefix(f.service) + " — " + f.full
            && o.attempts[0].replyTo == (if f.email != "" then Some(f.email) else None)
  {
    HandleDispatches(req, d);
  }

  /** The acknowledgement rule on sanitised fields. */
  lemma DispatchAck(f: Fields, d: Delivery)
    ensures var o := Dispatch(f, d);
            && (|o.attempts| == 2 <==> !d.internalThrows && MatchesEmailPattern(f.email))
            && (|o.attempts| == 2 ==>
                  && o.attempts[1].to == [f.email]
                  && o.attempts[1].subject == "✅ " + SubjectPrefix(f.service) + " — Climpro"
                  && o.attempts[1].content.AckContent?
                  && o.attempts[1].content.greeting == FirstSegment(f.full, ' '))
  {
    var o := Dispatch(f, d);
    if |o.attempts| == 2 {
      assert o.attempts[1] == AckNotification(f);
    }
  }

  /** The acknowledgement is the second call, made exactly when the internal
      send did not throw and the sanitised email is valid; it goes to that
      email with subject `✅ prefix — Climpro` and greets the first
      space-separated word of the name. */
  lemma AckSendRule(req: Request, d: Delivery)
    requires Deliverable(req)
    ensures var o := Handle(req, d);
            var f := SanitizeFields(BodyOf(req));
            && (|o.attempts| == 2 <==> !d.internalThrows && MatchesEmailPattern(f.email))
            && (|o.attempts| == 2 ==>
                  && o.attempts[1].to == [f.email]
                  && o.attempts[1].subject == "✅ " + SubjectPrefix(f.service) + " — Climpro"
                  && o.attempts[1].content.AckContent?
                  && o.attempts[1].content.greeting == FirstSegment(f.full, ' '))
  {
    HandleDispatches(req, d);
    DispatchAck(SanitizeFields(BodyOf(req)), d);
  }

  /** An accepted submission ends in 200 `{ok: true}` when no send throws and
      in 500 'Erreur serveur' when one does, and no call follows one that
      threw. */
  lemma AcceptedResponse(req: Request, d: Delivery)
    requires Deliverable(req)
    ensures var o := Handle(req, d);
            && 1 <= |o.attempts| <= 2
            && (d.internalThrows ==> |o.attempts| == 1)
            && (if d.internalThrows || (|o.attempts| == 2 && d.ackThrows)
                then o.response == Response(500, false, Some("Erreur serveur"), None)
                else o.response == Response(200, true, None, None))
  {
    HandleDispatches(req, d);
  }

  /** The greeting of an acknowledgement is a non-empty word of the name: the
      name is trimmed, so it does not start with a space. */
  lemma GreetingIsFirstWord(full: string)
    requires full != [] && Trimmed(full)
    ensures var g := FirstSegment(full, ' ');
            g != [] && ' ' !in g && full[..|g|] == g
            && (|g| == |full| || full[|g|] == ' ')
  {
    assert IsSpace(' ');
  }

  /** A 200 `{ok: true}` means either a silent honeypot or an accepted
      submission whose sends all went through. */
  lemma OkMeansDeliveredOrHoneypot(req: Request, d: Delivery)
    ensures var o := Handle(req, d);
            o.response.ok <==>
              (req.httpMethod == "POST" && Truthy(BodyOf(req).hp))
              || (Deliverable(req) && !d.internalThrows
                  && !(d.ackThrows && |o.attempts| == 2))
  {
    var b := BodyOf(req);
    if req.httpMethod == "POST" && !Truthy(b.hp) && Truthy(b.consent) {
      HandleReachesValidate(req, d);
      ValidateOutcome(SanitizeFields(b), d);
    }
  }

  /* ---------------------------------------------------------------------- */
  /* Subject classification                                                 */
  /* ---------------------------------------------------------------------- */

  /** Writing any letters of the service as capitals, `É` for `é` included,
      does not change its kind. */
  lemma ClassifyIgnoresCase(s: string, t: string)
    requires CaseVariant(s, t)
    ensures Classify(t) == Classify(s)
  {
    ToLowerIgnoresCapitals(s, t);
  }

  /** "Entretien + Installation" is a maintenance request: entretien is
      checked first. */
  lemma MixedServiceIsMaintenance()
    ensures Classify("Entretien + Installation") == Maintenance
  {
    var lower := ToLower("Entretien + Installation");
    assert lower == "entretien + installation";
    assert OccursAt(lower, "entretien", 0);
  }

  /* ---------------------------------------------------------------------- */
  /* Worked examples                                                        */
  /* ---------------------------------------------------------------------- */

  /** A body with the given text fields, no page source and an empty
      honeypot. */
  function FormBody(fullname: string, email: string, phone: string, postal: string,
                    service: string, appareils: string, message: string, consent: bool): Body
  {
    Body(Str(fullname), Str(email), Str(phone), Str(postal), Str(service), Str(appareils),
         Str(message), Undefined, Str(""), Bool(consent))
  }

  /** A word whose first letter does not occur early enough is not included. */
  lemma NotIncluded(s: string, w: string)
    requires w != []
    requires forall i :: 0 <= i <= |s| - |w| ==> s[i] != w[0]
    ensures !Includes(s, w)
  {
  }

  /** 'Dépannage urgent' is a repair request. */
  lemma RepairServiceExample(service: string)
    requires service == "Dépannage urgent"
    ensures Classify(service) == Repair
  {
    var lower := ToLower(service);
    assert lower == "dépannage urgent";
    NotIncluded(lower, "entretien");
    assert OccursAt(lower, "dépannage", 0);
  }

  /** Text that sanitising leaves alone: no angle brackets, trimmed. */
  predicate CleanText(s: string) {
    NoAngles(s) && Trimmed(s)
  }

  /** 'DÉPANNAGE URGENT' is 'Dépannage urgent' written in capitals, and so a
      repair request too. */
  lemma CapitalRepairServiceExample(plain: string, service: string)
    requires plain == "Dépannage urgent" && service == "DÉPANNAGE URGENT"
    ensures CaseVariant(plain, service)
    ensures Classify(service) == Repair
  {
    assert CaseVariant(plain, service);
    ClassifyIgnoresCase(plain, service);
    RepairServiceExample(plain);
  }

  /** A form whose text fields are already clean sanitises to those fields,
      with an empty page source. */
  lemma CleanFormSanitizes(b: Body, f: Fields, consent: bool)
    requires CleanText(f.full) && CleanText(f.msg) && CleanText(f.email) && CleanText(f.phone)
    requires CleanText(f.postal) && CleanText(f.service) && CleanText(f.apps) && f.page == ""
    requires b == FormBody(f.full, f.email, f.phone, f.postal, f.service, f.apps, f.msg, consent)
    ensures SanitizeFields(b) == f
  {
    SanitizeKeepsClean(f.full);
    SanitizeKeepsClean(f.msg);
    SanitizeKeepsClean(f.email);
    SanitizeKeepsClean(f.phone);
    SanitizeKeepsClean(f.postal);
    SanitizeKeepsClean(f.service);
    SanitizeKeepsClean(f.apps);
  }

  /** 'jean@ex.com' is a valid email. */
  lemma ExampleEmailValid(e: string)
    requires e == "jean@ex.com"
    ensures MatchesEmailPattern(e)
  {
    assert e[..4] == "jean" && e[5..7] == "ex" && e[8..] == "com";
    assert SplitsAsEmail(e, 4, 7);
  }

  /** The greeting for 'Jean Dupont' is 'Jean'. */
  lemma ExampleGreeting(full: string)
    requires full == "Jean Dupont"
    ensures FirstSegment(full, ' ') == "Jean"
  {
    FirstSegmentAt(full, ' ', 4);
    assert full[..4] == "Jean";
  }

  /** The repair request as sanitised fields: both sends go out, the
      internal one titled 'Demande de dépannage — Jean Dupont', the second to
      the submitter, and the answer is 200. */
  lemma RepairDispatchExample(f: Fields, d: Delivery)
    requires f == Fields("Jean Dupont", "Panne clim", "jean@ex.com", "", "1000",
                         "Dépannage urgent", "2", "")
    requires d == Delivery(false, false)
    ensures var o := Validate(f, d);
            && o.response == Response(200, true, None, None)
            && |o.attempts| == 2
            && o.attempts[0].subject == "Demande de dépannage" + " — " + "Jean Dupont"
            && o.attempts[1].to == ["jean@ex.com"]
  {
    ExampleEmailValid(f.email);
    RepairServiceExample(f.service);
    ValidateOutcome(f, d);
    DispatchAck(f, d);
  }

  /** Every text of the repair request is clean. */
  lemma RepairTextClean(s: string)
    requires || s == "Jean Dupont" || s == "Panne clim" || s == "jean@ex.com" || s == ""
             || s == "1000" || s == "Dépannage urgent" || s == "2"
    ensures CleanText(s)
  {
  }

  /** The repair request itself: a POST whose body holds those fields as
      clean text, consent given and the honeypot empty, answers 200 after
      both sends. */
  lemma RepairRequestExample(req: Request, f: Fields, d: Delivery)
    requires f == Fields("Jean Dupont", "Panne clim", "jean@ex.com", "", "1000",
                         "Dépannage urgent", "2", "")
    requires req == Request("POST", Some(FormBody(f.full, f.email, f.phone, f.postal,
                                                  f.service, f.apps, f.msg, true)))
    requires d == Delivery(false, false)
    ensures var o := Handle(req, d);
            && o.response == Response(200, true, None, None)
            && |o.attempts| == 2
            && o.attempts[0].subject == "Demande de dépannage" + " — " + "Jean Dupont"
  {
    RepairTextClean(f.full);
    RepairTextClean(f.msg);
    RepairTextClean(f.email);
    RepairTextClean(f.phone);
    RepairTextClean(f.postal);
    RepairTextClean(f.service);
    RepairTextClean(f.apps);
    CleanFormSanitizes(BodyOf(req), f, true);
    HandleReachesValidate(req, d);
    RepairDispatchExample(f, d);
  }

  /** The same request without consent: 400 'Consentement requis', nothing sent. */
  lemma NoConsentExample(req: Request, d: Delivery)
    requires req == Request("POST", Some(FormBody("Jean Dupont", "jean@ex.com", "", "1000",
                                                  "Dépannage urgent", "2", "Panne clim", false)))
    ensures Handle(req, d) == Outcome(Response(400, false, Some("Consentement requis"), None), [])
  {
  }

  /** A five-digit phone and no email, as sanitised fields: 400 'Email
      valide OU téléphone requis'. */
  lemma ShortPhoneFieldsExample(f: Fields, d: Delivery)
    requires f == Fields("X", "Bonjour", "", "12345", "1000", "Devis", "", "")
    ensures Validate(f, d) == Outcome(Response(400, false, Some("Email valide OU téléphone requis"), None), [])
  {
    assert Utf16Length(f.phone) == 5;
    assert !MatchesEmailPattern(f.email);
    ValidateOutcome(f, d);
  }

  /** Every text of the short-phone form is clean. */
  lemma ShortPhoneTextClean(s: string)
    requires || s == "X" || s == "Bonjour" || s == "" || s == "12345" || s == "1000"
             || s == "Devis"
    ensures CleanText(s)
  {
  }

  /** The same from the request: consent given and the honeypot empty, but
      the contact gate refuses it and nothing is sent. */
  lemma ShortPhoneExample(req: Request, f: Fields, d: Delivery)
    requires f == Fields("X", "Bonjour", "", "12345", "1000", "Devis", "", "")
    requires req == Request("POST", Some(FormBody(f.full, f.email, f.phone, f.postal,
                                                  f.service, f.apps, f.msg, true)))
    ensures Handle(req, d) == Outcome(Response(400, false, Some("Email valide OU téléphone requis"), None), [])
  {
    ShortPhoneTextClean(f.full);
    ShortPhoneTextClean(f.msg);
    ShortPhoneTextClean(f.email);
    ShortPhoneTextClean(f.phone);
    ShortPhoneTextClean(f.postal);
    ShortPhoneTextClean(f.service);
    ShortPhoneTextClean(f.apps);
    CleanFormSanitizes(BodyOf(req), f, true);
    HandleReachesValidate(req, d);
    ShortPhoneFieldsExample(f, d);
  }

  /** A filled honeypot on an otherwise valid request: a silent 200 with
      nothing sent. */
  lemma BotExample(req: Request, d: Delivery)
    requires req == Request("POST", Some(FormBody("Jean Dupont", "jean@ex.com", "", "1000",
                                                  "Dépannage urgent", "2", "Panne clim", true)
                                         .(hp := Str("spam"))))
    ensures Handle(req, d) == Outcome(Response(200, true, None, None), [])
  {
    HoneypotSilent(req, d);
  }
}
