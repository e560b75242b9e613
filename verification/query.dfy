/**
 * `filteredLeads`: the leads table and the kanban show the leads that match
 * the search box (case-insensitive, over name, company and email) and the
 * stage filter (a stage, or the "All" sentinel).
 */
module Query {
  import opened Seqs
  import opened Text
  import opened Stages
  import opened Leads

  /** The stage filter buttons: "All" or one of the six stages. */
  datatype StageFilter = All | Only(stage: Stage)

  /** `!q || name/company/email.toLowerCase().includes(q)` with `q = search.toLowerCase()`. */
  predicate MatchesSearch(lead: Lead, search: string)
  {
    var q := Lower(search);
    q == "" || Includes(Lower(lead.name), q) || Includes(Lower(lead.company), q) || Includes(Lower(lead.email), q)
  }

  /** `filterStage === "All" || l.stage === filterStage`. */
  predicate MatchesStage(lead: Lead, filter: StageFilter)
  {
    filter.All? || lead.stage == filter.stage
  }

  /** The predicate handed to `leads.filter`. */
  function Keep(search: string, filter: StageFilter): Lead -> bool
  {
    lead => MatchesSearch(lead, search) && MatchesStage(lead, filter)
  }

  /** `filteredLeads`. */
  function FilteredLeads(leads: seq<Lead>, search: string, filter: StageFilter): (r: seq<Lead>)
    ensures IsSubsequence(r, leads)
  {
    Filter(leads, Keep(search, filter))
  }

  /**
   * A lead is shown exactly when (1) the search is empty or the lower-cased
   * search text occurs in its lower-cased name, company or email, and (2) the
   * filter is "All" or names the lead's stage.
   */
  lemma FilteredLeadsExactly(leads: seq<Lead>, search: string, filter: StageFilter)
    ensures forall lead :: lead in FilteredLeads(leads, search, filter) <==>
      && lead in leads
      && (search == ""
          || Occurs(Lower(lead.name), Lower(search))
          || Occurs(Lower(lead.company), Lower(search))
          || Occurs(Lower(lead.email), Lower(search)))
      && (filter == All || lead.stage == filter.stage)
    ensures forall lead ::
      multiset(FilteredLeads(leads, search, filter))[lead] ==
      (if MatchesSearch(lead, search) && MatchesStage(lead, filter) then multiset(leads)[lead] else 0)
  {
    var r := FilteredLeads(leads, search, filter);
    forall lead
      ensures lead in r <==> lead in leads && MatchesSearch(lead, search) && MatchesStage(lead, filter)
    {
      if lead in r {
        var i :| 0 <= i < |r| && r[i] == lead;
      }
      if lead in leads && Keep(search, filter)(lead) {
        var i :| 0 <= i < |leads| && leads[i] == lead;
      }
    }
    forall lead: Lead
      ensures MatchesSearch(lead, search) <==>
        (search == ""
          || Occurs(Lower(lead.name), Lower(search))
          || Occurs(Lower(lead.company), Lower(search))
          || Occurs(Lower(lead.email), Lower(search)))
    {
      IncludesIffOccurs(Lower(lead.name), Lower(search));
      IncludesIffOccurs(Lower(lead.company), Lower(search));
      IncludesIffOccurs(Lower(lead.email), Lower(search));
    }
  }

  /**
   * The search ignores the case of the query: it is lower-cased before the
   * comparison, and lower-casing an already lower-cased query changes nothing.
   */
  lemma SearchIgnoresQueryCase(leads: seq<Lead>, search: string, filter: StageFilter)
    ensures FilteredLeads(leads, Lower(search), filter) == FilteredLeads(leads, search, filter)
  {
    LowerIdempotent(search);
    FilterSameChoice(leads, Keep(Lower(search), filter), Keep(search, filter));
  }

  /** Filtering the filtered list again with the same search and stage changes nothing. */
  lemma FilteredLeadsIdempotent(leads: seq<Lead>, search: string, filter: StageFilter)
    ensures FilteredLeads(FilteredLeads(leads, search, filter), search, filter) == FilteredLeads(leads, search, filter)
  {
    FilterIdempotent(leads, Keep(search, filter));
  }

  /** An empty search with the "All" filter shows every lead, in order. */
  lemma FilteredLeadsUnfiltered(leads: seq<Lead>)
    ensures FilteredLeads(leads, "", All) == leads
  {
    FilterAllKept(leads, Keep("", All));
  }

  // ─── The sample data ─────────────────────────────────────────────────────

  /** A field that does not contain the query, before or after lower-casing, does not let the lead through. */
  lemma StellarMiss(lead: Lead)
    requires !Occurs(Lower(lead.name), "stellar")
    requires !Occurs(Lower(lead.company), "stellar")
    requires !Occurs(Lower(lead.email), "stellar")
    ensures !MatchesSearch(lead, "stellar")
  {
    assert Lower("stellar") == "stellar";
    IncludesIffOccurs(Lower(lead.name), "stellar");
    IncludesIffOccurs(Lower(lead.company), "stellar");
    IncludesIffOccurs(Lower(lead.email), "stellar");
  }

  /** Stellar AI's record matches the search "stellar" through its e-mail address. */
  lemma StellarHit(lead: Lead)
    requires lead.email == "priya@stellar.ai"
    ensures MatchesSearch(lead, "stellar")
  {
    assert Lower("stellar") == "stellar";
    assert Lower(lead.email) == lead.email;
    assert OccursAt(Lower(lead.email), "stellar", 6);
    IncludesIffOccurs(Lower(lead.email), "stellar");
  }

  /** A lower-case letter that a text has in neither case is missing from its lower-cased form. */
  lemma LowerLacks(s: string, c: char)
    requires 'a' <= c <= 'z' && c !in s && UpperChar(c) !in s
    ensures c !in Lower(s)
  {
    forall i | 0 <= i < |s|
      ensures Lower(s)[i] != c
    {
      assert s[i] != c && s[i] != UpperChar(c);
    }
  }

  /** A field lacking, in either case, a letter of "stellar" does not contain it once lower-cased. */
  lemma LacksStellarLetter(s: string, c: char)
    requires c in "stellar" && c !in s && UpperChar(c) !in s
    ensures !Occurs(Lower(s), "stellar")
  {
    LowerLacks(s, c);
    MissingCharBlocks(Lower(s), "stellar", c);
  }

  /** A field already in lower case, with no "t" right before an "e", does not contain "stellar". */
  lemma LacksStellarPair(s: string)
    requires forall i :: 0 <= i < |s| ==> !('A' <= s[i] <= 'Z')
    requires forall i :: 0 <= i < |s| - 1 ==> s[i] != 't' || s[i + 1] != 'e'
    ensures !Occurs(Lower(s), "stellar")
  {
    assert Lower(s) == s;
    MissingPairBlocks(s, "stellar", 1);
  }

  /** The fields of sample lead 1 do not contain "stellar" in any case. */
  lemma StellarMiss0(name: string, company: string, email: string)
    requires name == "Sarah Chen" && company == "Nexus Corp" && email == "sarah@nexus.com"
    ensures !Occurs(Lower(name), "stellar") && !Occurs(Lower(company), "stellar") && !Occurs(Lower(email), "stellar")
  {
    LacksStellarLetter(name, 't');
    LacksStellarLetter(company, 't');
    LacksStellarLetter(email, 't');
  }

  /** The fields of sample lead 2 do not contain "stellar" in any case. */
  lemma StellarMiss1(name: string, company: string, email: string)
    requires name == "Marcus Webb" && company == "Orbit SaaS" && email == "m.webb@orbit.io"
    ensures !Occurs(Lower(name), "stellar") && !Occurs(Lower(company), "stellar") && !Occurs(Lower(email), "stellar")
  {
    LacksStellarLetter(name, 'l');
    LacksStellarLetter(company, 'l');
    LacksStellarLetter(email, 'l');
  }

  /** The fields of sample lead 4 do not contain "stellar" in any case. */
  lemma StellarMiss3(name: string, company: string, email: string)
    requires name == "James Okafor" && company == "BrightEdge" && email == "j.okafor@brightedge.com"
    ensures !Occurs(Lower(name), "stellar") && !Occurs(Lower(company), "stellar") && !Occurs(Lower(email), "stellar")
  {
    LacksStellarLetter(name, 'l');
    LacksStellarLetter(company, 'l');
    LacksStellarLetter(email, 'l');
  }

  /** The fields of sample lead 5 do not contain "stellar" in any case. */
  lemma StellarMiss4(name: string, company: string, email: string)
    requires name == "Lena Müller" && company == "DataStream GmbH" && email == "lena@datastream.de"
    ensures !Occurs(Lower(name), "stellar") && !Occurs(Lower(company), "stellar") && !Occurs(Lower(email), "stellar")
  {
    LacksStellarLetter(name, 't');
    LacksStellarLetter(company, 'l');
    LacksStellarPair(email);
  }

  /** The fields of sample lead 6 do not contain "stellar" in any case. */
  lemma StellarMiss5(name: string, company: string, email: string)
    requires name == "Carlos Rivera" && company == "PulseMedia" && email == "carlos@pulsemedia.com"
    ensures !Occurs(Lower(name), "stellar") && !Occurs(Lower(company), "stellar") && !Occurs(Lower(email), "stellar")
  {
    LacksStellarLetter(name, 't');
    LacksStellarLetter(company, 't');
    LacksStellarLetter(email, 't');
  }

  /** The fields of sample lead 7 do not contain "stellar" in any case. */
  lemma StellarMiss6(name: string, company: string, email: string)
    requires name == "Aisha Patel" && company == "QuantumLeap" && email == "a.patel@qleap.com"
    ensures !Occurs(Lower(name), "stellar") && !Occurs(Lower(company), "stellar") && !Occurs(Lower(email), "stellar")
  {
    LacksStellarLetter(name, 'r');
    LacksStellarLetter(company, 'r');
    LacksStellarLetter(email, 'r');
  }

  /** The fields of sample lead 8 do not contain "stellar" in any case. */
  lemma StellarMiss7(name: string, company: string, email: string)
    requires name == "Tom Bergmann" && company == "FlowStack" && email == "t.berg@flowstack.dev"
    ensures !Occurs(Lower(name), "stellar") && !Occurs(Lower(company), "stellar") && !Occurs(Lower(email), "stellar")
  {
    LacksStellarLetter(name, 's');
    LacksStellarLetter(company, 'e');
    LacksStellarPair(email);
  }

  /** The names, companies and e-mail addresses of the sample data, in its order. */
  predicate SampleContacts(leads: seq<Lead>)
  {
    && |leads| == 8
    && leads[0].name == "Sarah Chen" && leads[0].company == "Nexus Corp" && leads[0].email == "sarah@nexus.com"
    && leads[1].name == "Marcus Webb" && leads[1].company == "Orbit SaaS" && leads[1].email == "m.webb@orbit.io"
    && leads[2].name == "Priya Nair" && leads[2].company == "Stellar AI" && leads[2].email == "priya@stellar.ai"
    && leads[3].name == "James Okafor" && leads[3].company == "BrightEdge" && leads[3].email == "j.okafor@brightedge.com"
    && leads[4].name == "Lena Müller" && leads[4].company == "DataStream GmbH" && leads[4].email == "lena@datastream.de"
    && leads[5].name == "Carlos Rivera" && leads[5].company == "PulseMedia" && leads[5].email == "carlos@pulsemedia.com"
    && leads[6].name == "Aisha Patel" && leads[6].company == "QuantumLeap" && leads[6].email == "a.patel@qleap.com"
    && leads[7].name == "Tom Bergmann" && leads[7].company == "FlowStack" && leads[7].email == "t.berg@flowstack.dev"
  }

  /** The sample data has those contacts. */
  lemma InitialContacts()
    ensures SampleContacts(InitialLeads)
  {
  }

  /** Among leads with the sample contacts, the first, second and fourth do not match "stellar". */
  lemma StellarMissesFront(leads: seq<Lead>)
    requires SampleContacts(leads)
    ensures !MatchesSearch(leads[0], "stellar") && !MatchesSearch(leads[1], "stellar") && !MatchesSearch(leads[3], "stellar")
  {
    StellarMiss0(leads[0].name, leads[0].company, leads[0].email);
    StellarMiss(leads[0]);
    StellarMiss1(leads[1].name, leads[1].company, leads[1].email);
    StellarMiss(leads[1]);
    StellarMiss3(leads[3].name, leads[3].company, leads[3].email);
    StellarMiss(leads[3]);
  }

  /** Among leads with the sample contacts, the last four do not match "stellar". */
  lemma StellarMissesBack(leads: seq<Lead>)
    requires SampleContacts(leads)
    ensures !MatchesSearch(leads[4], "stellar") && !MatchesSearch(leads[5], "stellar") && !MatchesSearch(leads[6], "stellar") && !MatchesSearch(leads[7], "stellar")
  {
    StellarMiss4(leads[4].name, leads[4].company, leads[4].email);
    StellarMiss(leads[4]);
    StellarMiss5(leads[5].name, leads[5].company, leads[5].email);
    StellarMiss(leads[5]);
    StellarMiss6(leads[6].name, leads[6].company, leads[6].email);
    StellarMiss(leads[6]);
    StellarMiss7(leads[7].name, leads[7].company, leads[7].email);
    StellarMiss(leads[7]);
  }

  /** Among leads with the sample contacts, only the third matches the search "stellar". */
  lemma StellarMatchesOnlyThird(leads: seq<Lead>)
    requires SampleContacts(leads)
    ensures forall i :: 0 <= i < |leads| ==> (MatchesSearch(leads[i], "stellar") <==> i == 2)
  {
    StellarMissesFront(leads);
    StellarMissesBack(leads);
    StellarHit(leads[2]);
    forall i | 0 <= i < |leads|
      ensures MatchesSearch(leads[i], "stellar") <==> i == 2
    {
      assert i == 0 || i == 1 || i == 2 || i == 3 || i == 4 || i == 5 || i == 6 || i == 7;
    }
  }

  /** Searching the sample data for "stellar" shows Stellar AI's lead and nothing else. */
  lemma SampleSearchStellar()
    ensures FilteredLeads(InitialLeads, "stellar", All) == [InitialLeads[2]]
    ensures InitialLeads[2].company == "Stellar AI"
  {
    InitialContacts();
    StellarMatchesOnlyThird(InitialLeads);
    FilterSingle(InitialLeads, Keep("stellar", All), 2);
  }
}
