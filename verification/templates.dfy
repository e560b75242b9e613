/**
 * The e-mail templates and the placeholder fill the composer applies to them:
 * `{name}` becomes the lead's first name, `{company}` the lead's company and
 * `{sender}` the fixed sender name, each by a global, leftmost, non-overlapping
 * replacement, in that order.
 */
module Templates {
  import opened Wrappers
  import opened Text
  import opened Leads

  datatype Template = Template(id: int, name: string, subject: string, body: string)

  /** `EMAIL_TEMPLATES`: the four stock templates, in display order. */
  const EmailTemplates: seq<Template> := [
    Template(1, "Initial Outreach", "Quick question about {company}",
      "Hi {name},\n\nI came across {company} and was impressed by what you're building. I'd love to explore how we might work together...\n\nBest,\n{sender}"),
    Template(2, "Follow Up", "Following up \U{2013} {company}",
      "Hi {name},\n\nJust circling back on my previous message. I understand you're busy, but I believe we can add real value to {company}...\n\nBest,\n{sender}"),
    Template(3, "Proposal", "Proposal for {company} \U{2013} Next Steps",
      "Hi {name},\n\nAs discussed, I've put together a tailored proposal for {company}. Please find the key highlights below...\n\nBest,\n{sender}"),
    Template(4, "Closing", "Ready to move forward, {name}?",
      "Hi {name},\n\nI wanted to check in as we approach the end of the quarter. I'd love to finalize our partnership with {company}...\n\nBest,\n{sender}")
  ]

  const NameToken := "{name}"
  const CompanyToken := "{company}"
  const SenderToken := "{sender}"

  /** The fixed signature put in place of `{sender}`. */
  const Sender := "Alex Martinez"

  /** `name.split(" ")[0]`: the text before the first space. */
  function FirstName(name: string): string
  {
    Split(name, " ")[0]
  }

  /** What replaces `{name}`: the first name, or the token itself when there is no lead or the first name is empty. */
  function NameFill(lead: Option<Lead>): string
  {
    if lead.Some? && FirstName(lead.value.name) != "" then FirstName(lead.value.name) else NameToken
  }

  /** What replaces `{company}`: the company, or the token itself when there is no lead or the company is empty. */
  function CompanyFill(lead: Option<Lead>): string
  {
    if lead.Some? && lead.value.company != "" then lead.value.company else CompanyToken
  }

  /** `fill`: the three replacements, in the order name, company, sender. */
  function FillText(s: string, lead: Option<Lead>): string
  {
    ReplaceAll(ReplaceAll(ReplaceAll(s, NameToken, NameFill(lead)), CompanyToken, CompanyFill(lead)), SenderToken, Sender)
  }

  datatype Filled = Filled(subject: string, body: string)

  /** `fillTemplate`: subject and body filled for the same lead. */
  function FillTemplate(tpl: Template, lead: Option<Lead>): (f: Filled)
    ensures !Occurs(f.subject, SenderToken) && !Occurs(f.body, SenderToken)
    ensures lead.None? ==> f == Filled(ReplaceAll(tpl.subject, SenderToken, Sender), ReplaceAll(tpl.body, SenderToken, Sender))
  {
    FillSignsText(tpl.subject, lead);
    FillSignsText(tpl.body, lead);
    FillWithoutLead(tpl.subject);
    FillWithoutLead(tpl.body);
    Filled(FillText(tpl.subject, lead), FillText(tpl.body, lead))
  }

  /**
   * The first name is the longest prefix of the name without a space: the
   * whole name, or the part before the first space.
   */
  lemma {:induction false} FirstNameUpToSpace(name: string)
    ensures var f := FirstName(name);
      && |f| <= |name| && f == name[..|f|]
      && (forall i :: 0 <= i < |f| ==> f[i] != ' ')
      && (|f| == |name| || name[|f|] == ' ')
  {
    if StartsWith(name, " ") {
    } else if name != [] {
      FirstNameUpToSpace(name[1..]);
      var rest := FirstName(name[1..]);
      assert FirstName(name) == [name[0]] + rest;
    }
  }

  /** Without a lead the name and company tokens are put back as they were; only the sender is filled. */
  lemma FillWithoutLead(s: string)
    ensures FillText(s, None) == ReplaceAll(s, SenderToken, Sender)
  {
    ReplaceSelf(s, NameToken);
    ReplaceSelf(s, CompanyToken);
  }

  /**
   * A lead whose first name is empty (no lead, or a name that starts with a
   * space) keeps `{name}` literal; a lead with an empty company keeps
   * `{company}` literal. The other replacements happen as usual.
   */
  lemma FillKeepsMissingFields(s: string, lead: Option<Lead>)
    ensures (lead.None? || FirstName(lead.value.name) == "") ==>
      FillText(s, lead) == ReplaceAll(ReplaceAll(s, CompanyToken, CompanyFill(lead)), SenderToken, Sender)
    ensures (lead.None? || lead.value.company == "") ==>
      FillText(s, lead) == ReplaceAll(ReplaceAll(s, NameToken, NameFill(lead)), SenderToken, Sender)
  {
    ReplaceSelf(s, NameToken);
    ReplaceSelf(ReplaceAll(s, NameToken, NameFill(lead)), CompanyToken);
  }

  /** A non-empty name has an empty first name exactly when it starts with a space. */
  lemma {:induction false} LeadingSpaceEmptiesFirstName(name: string)
    ensures StartsWith(name, " ") <==> name != "" && FirstName(name) == ""
  {
    FirstNameUpToSpace(name);
  }

  /** No `{sender}` token survives a fill: the sender name cannot form a new one. */
  lemma FillSignsText(s: string, lead: Option<Lead>)
    ensures !Occurs(FillText(s, lead), SenderToken)
  {
    var t := ReplaceAll(ReplaceAll(s, NameToken, NameFill(lead)), CompanyToken, CompanyFill(lead));
    assert SenderToken[0] == '{' && SenderToken[1..] == "sender}";
    assert Sender[0] == 'A';
    assert '{' !in Sender;
    ReplaceLeavesNoToken(t, SenderToken, Sender);
  }

  /** A text without any of the three tokens is left exactly as it is, whoever the lead. */
  lemma FillPlainText(s: string, lead: Option<Lead>)
    requires !Occurs(s, NameToken) && !Occurs(s, CompanyToken) && !Occurs(s, SenderToken)
    ensures FillText(s, lead) == s
  {
    ReplaceAbsent(s, NameToken, NameFill(lead));
    ReplaceAbsent(s, CompanyToken, CompanyFill(lead));
    ReplaceAbsent(s, SenderToken, Sender);
  }
}
