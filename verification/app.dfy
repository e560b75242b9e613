/**
 * The top-level component's state: the lead collection, the search box and
 * stage filter, the sent-mail counter, the notification banner with its
 * pending clear-timers, the add-lead modal and the open composer. Each event
 * handler is a method; each timer that fires is an event of its own.
 */
module App {
  import opened Wrappers
  import opened Stages
  import opened Leads
  import opened Query
  import opened Templates
  import opened Composer

  const UpdatedMessage := "Lead updated ✓"
  const AddedMessage := "Lead added ✓"

  class CrmApp {
    var leads: seq<Lead>
    var search: string
    var filterStage: StageFilter
    var sentCount: int
    var notification: Option<string>
    /** Clear-timers started by `notify` that have not fired yet; none is ever cancelled. */
    var pendingClears: nat
    var showAddLead: bool
    var composer: EmailComposer?

    /** The list the table and the kanban show. */
    function Filtered(): seq<Lead>
      reads this
    {
      FilteredLeads(leads, search, filterStage)
    }

    /** An open composer's send flags are in one of their three phases. */
    predicate Valid()
      reads this, composer
    {
      composer != null ==> composer.Valid()
    }

    /** The sample data, an empty search, all stages, 12 e-mails already sent, nothing open. */
    constructor ()
      ensures Valid()
      ensures leads == InitialLeads && search == "" && filterStage == All && sentCount == 12
      ensures notification == None && pendingClears == 0 && !showAddLead && composer == null
    {
      leads := InitialLeads;
      search := "";
      filterStage := All;
      sentCount := 12;
      notification := None;
      pendingClears := 0;
      showAddLead := false;
      composer := null;
    }

    /** `notify`: show the message and start a timer that will clear the banner. */
    method Notify(msg: string)
      modifies this`notification, this`pendingClears
      ensures notification == Some(msg)
      ensures pendingClears == old(pendingClears) + 1
    {
      notification := Some(msg);
      pendingClears := pendingClears + 1;
    }

    /**
     * One notify timer fires: it clears whatever message is showing, even one
     * posted after the timer was started.
     */
    method ClearTimerFires()
      requires pendingClears > 0
      modifies this`notification, this`pendingClears
      ensures notification == None
      ensures pendingClears == old(pendingClears) - 1
    {
      notification := None;
      pendingClears := pendingClears - 1;
    }

    /** `updateLead(id, { stage })`: the stage patch, then the banner. */
    method UpdateLead(id: int, target: Stage)
      modifies this`leads, this`notification, this`pendingClears
      ensures leads == PatchStage(old(leads), id, target)
      ensures notification == Some(UpdatedMessage) && pendingClears == old(pendingClears) + 1
    {
      leads := PatchStage(leads, id, target);
      Notify(UpdatedMessage);
    }

    /** `addLead`: the record goes in front, then the banner. */
    method AddLead(lead: Lead)
      modifies this`leads, this`notification, this`pendingClears
      ensures leads == [lead] + old(leads)
      ensures notification == Some(AddedMessage) && pendingClears == old(pendingClears) + 1
    {
      leads := [lead] + leads;
      Notify(AddedMessage);
    }

    /** The "+ Add Lead" button. */
    method OpenAddLead()
      modifies this`showAddLead
      ensures showAddLead
    {
      showAddLead := true;
    }

    /** The modal's Cancel or close button. */
    method CloseAddLead()
      modifies this`showAddLead
      ensures !showAddLead
    {
      showAddLead := false;
    }

    /**
     * `handleAdd`: a form missing its name, company or email changes nothing
     * and the modal stays open; otherwise the record is added and the modal
     * closes.
     */
    method SubmitAddLead(form: LeadForm, id: int, today: string) returns (added: bool)
      modifies this`leads, this`notification, this`pendingClears, this`showAddLead
      ensures added <==> form.name != "" && form.company != "" && form.email != ""
      ensures leads == SubmitForm(old(leads), form, id, today)
      ensures !added ==>
        notification == old(notification) && pendingClears == old(pendingClears) && showAddLead == old(showAddLead)
      ensures added ==> notification == Some(AddedMessage) && pendingClears == old(pendingClears) + 1 && !showAddLead
    {
      var lead := NewLead(form, id, today);
      added := lead.Some?;
      if added {
        AddLead(lead.value);
        showAddLead := false;
      }
    }

    /** Typing in the search box. */
    method SetSearch(text: string)
      modifies this`search
      ensures search == text
      ensures forall i :: 0 <= i < |Filtered()| ==> MatchesSearch(Filtered()[i], text)
      ensures text == "" && filterStage == All ==> Filtered() == leads
    {
      search := text;
      ShownMatch();
      if text == "" && filterStage == All {
        FilteredLeadsUnfiltered(leads);
      }
    }

    /** One of the stage filter buttons ("All" or a stage). */
    method SetFilterStage(filter: StageFilter)
      modifies this`filterStage
      ensures filterStage == filter
      ensures forall i :: 0 <= i < |Filtered()| ==> MatchesStage(Filtered()[i], filter)
      ensures search == "" && filter == All ==> Filtered() == leads
    {
      filterStage := filter;
      ShownMatch();
      if search == "" && filter == All {
        FilteredLeadsUnfiltered(leads);
      }
    }

    /** Every row the table shows passes both the search and the stage filter. */
    lemma ShownMatch()
      ensures forall i :: 0 <= i < |Filtered()| ==>
        MatchesSearch(Filtered()[i], search) && MatchesStage(Filtered()[i], filterStage)
    {
      forall i | 0 <= i < |Filtered()|
        ensures MatchesSearch(Filtered()[i], search) && MatchesStage(Filtered()[i], filterStage)
      {
        assert Keep(search, filterStage)(Filtered()[i]);
      }
    }

    /**
     * "← Back" on a kanban card: offered for every stage after New, it moves
     * the card's lead one stage back.
     */
    method ClickBack(card: Lead) returns (moved: bool)
      modifies this`leads, this`notification, this`pendingClears
      ensures moved <==> card.stage != New
      ensures Back(card.stage).Some? ==> moved && leads == PatchStage(old(leads), card.id, Back(card.stage).value)
      ensures moved ==> notification == Some(UpdatedMessage) && pendingClears == old(pendingClears) + 1
      ensures !moved ==> leads == old(leads) && notification == old(notification) && pendingClears == old(pendingClears)
    {
      BackAdvanceAreInverse(card.stage);
      var target := Back(card.stage);
      moved := target.Some?;
      if moved {
        UpdateLead(card.id, target.value);
      }
    }

    /**
     * "Advance →" on a kanban card: offered for every kanban stage, it moves
     * the card's lead one stage on, from Closed Won to Closed Lost.
     */
    method ClickAdvance(card: Lead) returns (moved: bool)
      modifies this`leads, this`notification, this`pendingClears
      ensures moved <==> card.stage != ClosedLost
      ensures Advance(card.stage).Some? ==> moved && leads == PatchStage(old(leads), card.id, Advance(card.stage).value)
      ensures moved ==> notification == Some(UpdatedMessage) && pendingClears == old(pendingClears) + 1
      ensures !moved ==> leads == old(leads) && notification == old(notification) && pendingClears == old(pendingClears)
    {
      BackAdvanceAreInverse(card.stage);
      var target := Advance(card.stage);
      moved := target.Some?;
      if moved {
        UpdateLead(card.id, target.value);
      }
    }

    /**
     * `setShowEmail(true)`: a closed composer opens with a fresh draft; an
     * open one stays mounted and keeps its draft and send flags.
     */
    method OpenComposer()
      requires Valid()
      modifies this`composer
      ensures Valid() && composer != null
      ensures old(composer) != null ==> composer == old(composer)
      ensures old(composer) == null ==>
        && fresh(composer)
        && composer.Phase() == Idle && composer.to == ""
        && composer.template == EmailTemplates[0]
        && composer.subject == EmailTemplates[0].subject && composer.body == EmailTemplates[0].body
    {
      if composer == null {
        composer := new EmailComposer();
      }
    }

    /** `onClose`: the composer goes away, whatever its phase. */
    method CloseComposer()
      modifies this`composer
      ensures Valid() && composer == null
    {
      composer := null;
    }

    /** The template buttons of the open composer, which reads the current collection. */
    method ComposerPickTemplate(tpl: Template)
      requires composer != null && !composer.sent
      modifies composer`template, composer`subject, composer`body
      ensures composer.template == tpl && composer.Drafted(leads)
    {
      composer.HandleTemplate(leads, tpl);
    }

    /** The recipient select of the open composer, which reads the current collection. */
    method ComposerPickRecipient(email: string)
      requires composer != null && !composer.sent
      modifies composer`to, composer`subject, composer`body
      ensures composer.to == email && composer.Drafted(leads)
    {
      composer.HandleTo(leads, email);
    }

    /** The Send button of the open composer. */
    method ClickComposerSend() returns (fired: bool)
      requires Valid() && composer != null
      modifies composer`sending
      ensures Valid()
      ensures fired <==> old(composer.Phase()) == Idle && composer.to != ""
      ensures fired ==> composer.Phase() == Sending
      ensures !fired ==> composer.sending == old(composer.sending)
    {
      fired := composer.ClickSend();
    }

    /** The first timer of a send fires on the open composer. */
    method ComposerSendTimerFires()
      requires Valid() && composer != null && composer.Phase() == Sending
      modifies composer`sending, composer`sent
      ensures Valid() && composer.Phase() == Sent
    {
      composer.SendTimerFires();
    }

    /** The second timer of a send: `onSent` counts the e-mail, then `onClose` shuts the composer. */
    method ComposerCloseTimerFires()
      requires Valid() && composer != null && composer.Phase() == Sent
      modifies this`sentCount, this`composer
      ensures sentCount == old(sentCount) + 1
      ensures Valid() && composer == null
    {
      sentCount := sentCount + 1;
      composer := null;
    }
  }
}
