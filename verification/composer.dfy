/**
 * The e-mail composer's draft state: recipient, template, subject, body and
 * the two send flags. The lead collection is the component's `leads` prop,
 * read afresh on every event, so it is a parameter of the events that read it.
 * The two timers of a send are explicit events.
 */
module Composer {
  import opened Wrappers
  import opened Text
  import opened Leads
  import opened Templates

  /** The three states the send flags pass through. */
  datatype SendPhase = Idle | Sending | Sent

  /** The phase the flags stand for; `None` for the one combination no event sequence reaches through the button. */
  function PhaseOf(sending: bool, sent: bool): (p: Option<SendPhase>)
    ensures p.None? <==> sending && sent
  {
    if sending && sent then None
    else if sending then Some(Sending)
    else if sent then Some(Sent)
    else Some(Idle)
  }

  /**
   * The Send button is on screen only while `sent` is false (the success
   * message replaces the form) and is disabled while `to` is empty or a send
   * is in flight.
   */
  predicate SendEnabled(to: string, sending: bool, sent: bool)
  {
    !sent && to != "" && !sending
  }

  class EmailComposer {
    var to: string
    var template: Template
    var subject: string
    var body: string
    var sending: bool
    var sent: bool

    /** The flags are in one of the three phases. */
    predicate Valid()
      reads this
    {
      PhaseOf(sending, sent).Some?
    }

    function Phase(): SendPhase
      reads this
      requires Valid()
    {
      PhaseOf(sending, sent).value
    }

    /** `leads.find(l => l.email === to)` for the current recipient. */
    function SelectedLead(leads: seq<Lead>): Option<Lead>
      reads this
    {
      FindByEmail(leads, to)
    }

    /** Subject and body are the fill of the current template for the current recipient. */
    predicate Drafted(leads: seq<Lead>)
      reads this
    {
      subject == FillTemplate(template, SelectedLead(leads)).subject
      && body == FillTemplate(template, SelectedLead(leads)).body
    }

    /**
     * A freshly opened composer: no recipient, the first template, and its
     * subject and body as written, with the tokens not yet filled.
     */
    constructor ()
      ensures Valid() && Phase() == Idle
      ensures to == "" && template == EmailTemplates[0]
      ensures subject == EmailTemplates[0].subject && body == EmailTemplates[0].body
    {
      to := "";
      template := EmailTemplates[0];
      subject := EmailTemplates[0].subject;
      body := EmailTemplates[0].body;
      sending := false;
      sent := false;
    }

    /**
     * `handleTemplate`: pick a template and refill subject and body for the
     * current recipient. The template buttons belong to the form, which is
     * rendered only while `sent` is false.
     */
    method HandleTemplate(leads: seq<Lead>, tpl: Template)
      requires !sent
      modifies this`template, this`subject, this`body
      ensures template == tpl
      ensures Drafted(leads)
      ensures !Occurs(subject, SenderToken) && !Occurs(body, SenderToken)
    {
      template := tpl;
      var filled := FillTemplate(tpl, FindByEmail(leads, to));
      subject := filled.subject;
      body := filled.body;
    }

    /** `handleTo`: pick a recipient and refill subject and body from the current template; a form control too. */
    method HandleTo(leads: seq<Lead>, email: string)
      requires !sent
      modifies this`to, this`subject, this`body
      ensures to == email
      ensures Drafted(leads)
      ensures (forall i :: 0 <= i < |leads| ==> leads[i].email != email) ==>
        subject == FillTemplate(template, None).subject && body == FillTemplate(template, None).body
    {
      to := email;
      var filled := FillTemplate(template, FindByEmail(leads, email));
      subject := filled.subject;
      body := filled.body;
    }

    /** Typing in the subject field, shown while the message is not sent. */
    method EditSubject(text: string)
      requires !sent
      modifies this`subject
      ensures subject == text
    {
      subject := text;
    }

    /** Typing in the body field, shown while the message is not sent. */
    method EditBody(text: string)
      requires !sent
      modifies this`body
      ensures body == text
    {
      body := text;
    }

    /** `handleSend` as written: it starts the send with no check of its own. */
    method HandleSend()
      modifies this`sending
      ensures sending
    {
      sending := true;
    }

    /**
     * A click on the Send button: it reaches `handleSend` only when the button
     * is shown and enabled, so an idle composer with a recipient starts
     * sending and every other click does nothing.
     */
    method ClickSend() returns (fired: bool)
      requires Valid()
      modifies this`sending
      ensures Valid()
      ensures fired <==> old(Phase()) == Idle && to != ""
      ensures fired ==> Phase() == Sending
      ensures !fired ==> sending == old(sending)
    {
      fired := SendEnabled(to, sending, sent);
      if fired {
        HandleSend();
      }
    }

    /** The first timer of a send: the message is marked as sent. */
    method SendTimerFires()
      requires Valid() && Phase() == Sending
      modifies this`sending, this`sent
      ensures Valid() && Phase() == Sent
    {
      sending := false;
      sent := true;
    }
  }

  /**
   * The draft a composer opens with is not a fill of anything: the first
   * template's body still holds the `{sender}` token, which no fill leaves.
   */
  lemma OpeningDraftIsUnfilled(lead: Option<Lead>)
    ensures Occurs(EmailTemplates[0].body, SenderToken)
    ensures EmailTemplates[0].body != FillTemplate(EmailTemplates[0], lead).body
  {
    var b := EmailTemplates[0].body;
    var n := |b|;
    assert b[n - 8..] == SenderToken;
    assert OccursAt(b, SenderToken, n - 8);
  }
}
