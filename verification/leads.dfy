/**
 * Lead records, the sample data, and the lead-store operations on the
 * collection: patch-by-id (`updateLead`), building a record from the add form
 * (`handleAdd`) and prepending it (`addLead`), and lookup by email (`find`).
 */
module Leads {
  import opened Wrappers
  import opened Seqs
  import opened Text
  import opened Stages

  /** A sales lead. Deal values are whole amounts; `lastContact` is an ISO date `YYYY-MM-DD`. */
  datatype Lead = Lead(
    id: int,
    name: string,
    company: string,
    email: string,
    phone: string,
    value: int,
    stage: Stage,
    source: string,
    assignedTo: string,
    lastContact: string,
    tags: seq<string>,
    avatar: string)

  /** `INITIAL_LEADS`. */
  const InitialLeads: seq<Lead> := [
    Lead(1, "Sarah Chen", "Nexus Corp", "sarah@nexus.com", "+1 555-0101", 48000, Qualified, "LinkedIn", "Alex M.", "2026-02-18", ["Enterprise", "Hot"], "SC"),
    Lead(2, "Marcus Webb", "Orbit SaaS", "m.webb@orbit.io", "+1 555-0142", 22500, Proposal, "Referral", "Jamie L.", "2026-02-19", ["Mid-Market"], "MW"),
    Lead(3, "Priya Nair", "Stellar AI", "priya@stellar.ai", "+1 555-0198", 97000, Negotiation, "Website", "Alex M.", "2026-02-17", ["Enterprise", "AI"], "PN"),
    Lead(4, "James Okafor", "BrightEdge", "j.okafor@brightedge.com", "+1 555-0234", 15000, New, "Cold Email", "Sam K.", "2026-02-20", ["SMB"], "JO"),
    Lead(5, "Lena Müller", "DataStream GmbH", "lena@datastream.de", "+49 555-0177", 63000, Qualified, "Conference", "Jamie L.", "2026-02-15", ["Enterprise", "EU"], "LM"),
    Lead(6, "Carlos Rivera", "PulseMedia", "carlos@pulsemedia.com", "+1 555-0299", 8500, ClosedWon, "Referral", "Sam K.", "2026-02-10", ["SMB"], "CR"),
    Lead(7, "Aisha Patel", "QuantumLeap", "a.patel@qleap.com", "+1 555-0311", 155000, Negotiation, "LinkedIn", "Alex M.", "2026-02-19", ["Enterprise", "Hot", "Priority"], "AP"),
    Lead(8, "Tom Bergmann", "FlowStack", "t.berg@flowstack.dev", "+1 555-0388", 31000, Proposal, "Website", "Sam K.", "2026-02-16", ["Tech", "Mid-Market"], "TB")
  ]

  // ─── updateLead ──────────────────────────────────────────────────────────

  /**
   * `leads.map(l => l.id === id ? { ...l, stage } : l)`: every record with the
   * id gets the new stage; nothing else changes.
   */
  function PatchStage(leads: seq<Lead>, id: int, target: Stage): (r: seq<Lead>)
    ensures |r| == |leads|
    ensures forall i :: 0 <= i < |leads| ==>
      && r[i] == leads[i].(stage := r[i].stage)
      && r[i].stage == (if leads[i].id == id then target else leads[i].stage)
  {
    seq(|leads|, i requires 0 <= i < |leads| => if leads[i].id == id then leads[i].(stage := target) else leads[i])
  }

  /** Patching an id that no record has leaves the collection as it was. */
  lemma PatchUnknownId(leads: seq<Lead>, id: int, target: Stage)
    requires forall i :: 0 <= i < |leads| ==> leads[i].id != id
    ensures PatchStage(leads, id, target) == leads
  {
    var r := PatchStage(leads, id, target);
    forall i | 0 <= i < |leads|
      ensures r[i] == leads[i]
    {
    }
  }

  /** Applying the same patch twice is the same as applying it once. */
  lemma PatchIdempotent(leads: seq<Lead>, id: int, target: Stage)
    ensures PatchStage(PatchStage(leads, id, target), id, target) == PatchStage(leads, id, target)
  {
    var once := PatchStage(leads, id, target);
    var twice := PatchStage(once, id, target);
    forall i | 0 <= i < |leads|
      ensures twice[i] == once[i]
    {
    }
  }

  // ─── handleAdd / addLead ─────────────────────────────────────────────────

  /**
   * The add-lead form. `value` stands for `parseFloat` of the typed amount:
   * None when it does not parse (NaN).
   */
  datatype LeadForm = LeadForm(
    name: string,
    company: string,
    email: string,
    phone: string,
    value: Option<int>,
    stage: Stage,
    source: string,
    assignedTo: string)

  /** The form as the dialog opens it. */
  const BlankForm: LeadForm := LeadForm("", "", "", "", None, New, "Website", "Alex M.")

  /** `parseFloat(form.value) || 0`: NaN and 0 both become 0; negative amounts pass. */
  function ParsedValue(parsed: Option<int>): (v: int)
    ensures parsed.None? ==> v == 0
    ensures parsed.Some? ==> v == parsed.value
  {
    if parsed.Some? && parsed.value != 0 then parsed.value else 0
  }

  /** A name token counts towards the initials when it is not empty. */
  predicate IsWord(token: string)
  {
    token != ""
  }

  /** The non-empty space-separated tokens of a name. */
  function Words(name: string): seq<string>
  {
    Filter(Split(name, " "), IsWord)
  }

  /**
   * `tokens.map(n => n[0]).join("")`: the first character of each token; an
   * empty token gives `undefined`, which `join` writes as nothing. The head
   * is the token's first character, where `n[0]` gives its first UTF-16 code
   * unit; the two differ only for characters above U+FFFF.
   */
  function Heads(tokens: seq<string>): string
  {
    if tokens == [] then ""
    else (if tokens[0] == "" then "" else [tokens[0][0]]) + Heads(tokens[1..])
  }

  /** `name.split(" ").map(n => n[0]).join("").slice(0, 2).toUpperCase()`. */
  function Initials(name: string): (r: string)
    ensures |r| <= 2
  {
    var heads := Heads(Split(name, " "));
    Upper(heads[..if |heads| < 2 then |heads| else 2])
  }

  /** The heads of the tokens are the first characters of the non-empty tokens, in order. */
  lemma {:induction false} HeadsAreWordStarts(tokens: seq<string>)
    ensures var words := Filter(tokens, IsWord);
      && |Heads(tokens)| == |words|
      && forall i :: 0 <= i < |words| ==> Heads(tokens)[i] == words[i][0]
  {
    if tokens != [] {
      HeadsAreWordStarts(tokens[1..]);
      var rest := Filter(tokens[1..], IsWord);
      var tail := Heads(tokens[1..]);
      if IsWord(tokens[0]) {
        assert Filter(tokens, IsWord) == [tokens[0]] + rest;
        assert Heads(tokens) == [tokens[0][0]] + tail;
        HeadsOfWordInFront(tokens[0], rest, tail);
      } else {
        assert Filter(tokens, IsWord) == rest;
        assert Heads(tokens) == Heads(tokens[1..]);
      }
    }
  }

  /** A non-empty token in front adds its first character in front of the heads of the rest. */
  lemma HeadsOfWordInFront(token: string, rest: seq<string>, tail: string)
    requires token != "" && forall i :: 0 <= i < |rest| ==> rest[i] != ""
    requires |tail| == |rest| && forall i :: 0 <= i < |rest| ==> tail[i] == rest[i][0]
    ensures var words, heads := [token] + rest, [token[0]] + tail;
      && |heads| == |words|
      && forall i :: 0 <= i < |words| ==> heads[i] == words[i][0]
  {
    var words, heads := [token] + rest, [token[0]] + tail;
    forall i | 0 < i < |words|
      ensures heads[i] == words[i][0]
    {
      assert words[i] == rest[i - 1] && heads[i] == tail[i - 1];
    }
  }

  /**
   * The initials are the upper-cased first characters of the first two
   * non-empty words of the name (fewer when the name has fewer words).
   */
  lemma InitialsOfFirstTwoWords(name: string)
    ensures var words := Words(name);
      && |Initials(name)| == (if |words| < 2 then |words| else 2)
      && forall i :: 0 <= i < |Initials(name)| ==> Initials(name)[i] == UpperChar(words[i][0])
  {
    HeadsAreWordStarts(Split(name, " "));
  }

  /**
   * `handleAdd`: nothing is built when name, company or email is empty;
   * otherwise the form's fields with the given id (`Date.now()`), the parsed
   * value, no tags, the initials and today's date (`YYYY-MM-DD`).
   */
  function NewLead(form: LeadForm, id: int, today: string): (r: Option<Lead>)
    ensures r.None? <==> form.name == "" || form.company == "" || form.email == ""
    ensures r.Some? ==>
      && r.value == Lead(id, form.name, form.company, form.email, form.phone, ParsedValue(form.value),
                         form.stage, form.source, form.assignedTo, today, [], Initials(form.name))
      && r.value.tags == []
      && |r.value.avatar| <= 2
  {
    if form.name == "" || form.company == "" || form.email == "" then None
    else Some(Lead(id, form.name, form.company, form.email, form.phone, ParsedValue(form.value),
                   form.stage, form.source, form.assignedTo, today, [], Initials(form.name)))
  }

  /**
   * `handleAdd` followed by `addLead`: a rejected form leaves the collection as
   * it was; an accepted one puts the new record in front of the old ones.
   */
  function SubmitForm(leads: seq<Lead>, form: LeadForm, id: int, today: string): (r: seq<Lead>)
    ensures NewLead(form, id, today).None? ==> r == leads
    ensures NewLead(form, id, today).Some? ==>
      |r| == |leads| + 1 && r[0] == NewLead(form, id, today).value && r[1..] == leads
  {
    match NewLead(form, id, today)
    case None => leads
    case Some(lead) => [lead] + leads
  }

  /** An example of the add form: "Ana Li" with no amount gets value 0 and initials "AL". */
  lemma AddAnaLi(leads: seq<Lead>, id: int, today: string)
    ensures var form := BlankForm.(name := "Ana Li", company := "Acme", email := "a@acme.com");
      var r := SubmitForm(leads, form, id, today);
      |r| == |leads| + 1 && r[0].value == 0 && r[0].avatar == "AL" && r[0].tags == [] && r[1..] == leads
  {
    InitialsOfAnaLi();
  }

  lemma InitialsOfAnaLi()
    ensures Initials("Ana Li") == "AL"
  {
    var parts := Split("Ana Li", " ");
    SplitAnaLi();
    assert Heads(parts) == "AL";
  }

  lemma SplitAnaLi()
    ensures Split("Ana Li", " ") == ["Ana", "Li"]
  {
    SplitNaLi();
    SplitOnSpace("A", "na Li");
    assert "A" + "na Li" == "Ana Li" && "A" + "na" == "Ana" && ["na", "Li"][1..] == ["Li"];
  }

  lemma SplitNaLi()
    ensures Split("na Li", " ") == ["na", "Li"]
  {
    SplitALi();
    SplitOnSpace("n", "a Li");
    assert "n" + "a Li" == "na Li" && "n" + "a" == "na" && ["a", "Li"][1..] == ["Li"];
  }

  lemma SplitALi()
    ensures Split("a Li", " ") == ["a", "Li"]
  {
    SplitSpaceLi();
    SplitOnSpace("a", " Li");
    assert "a" + " Li" == "a Li" && "a" + "" == "a" && ["", "Li"][1..] == ["Li"];
  }

  lemma SplitSpaceLi()
    ensures Split(" Li", " ") == ["", "Li"]
  {
    SplitLi();
    SplitOnSpace(" ", "Li");
    assert " " + "Li" == " Li";
  }

  lemma SplitLi()
    ensures Split("Li", " ") == ["Li"]
  {
    SplitOnSpace("i", "");
    assert "i" + "" == "i";
    assert Split("i", " ") == ["i"];
    SplitOnSpace("L", "i");
    assert "L" + "i" == "Li";
  }

  /** One step of splitting on a single space. */
  lemma SplitOnSpace(c: string, s: string)
    requires |c| == 1
    ensures Split("", " ") == [""]
    ensures c == " " ==> Split(c + s, " ") == [""] + Split(s, " ")
    ensures c != " " ==> Split(c + s, " ") == [c + Split(s, " ")[0]] + Split(s, " ")[1..]
  {
    assert (c + s)[..1] == c;
    assert (c + s)[1..] == s;
    assert c == [c[0]];
  }

  // ─── leads.find(l => l.email === to) ─────────────────────────────────────

  /** The first lead with this email, or None when no lead has it. */
  function FindByEmail(leads: seq<Lead>, email: string): (r: Option<Lead>)
    ensures r.None? <==> forall i :: 0 <= i < |leads| ==> leads[i].email != email
    ensures r.Some? ==> exists i :: (0 <= i < |leads| && leads[i] == r.value && r.value.email == email
      && forall j :: 0 <= j < i ==> leads[j].email != email)
  {
    if leads == [] then None
    else if leads[0].email == email then Some(leads[0])
    else
      var r := FindByEmail(leads[1..], email);
      assert r.Some? ==> exists i :: (0 < i < |leads| && leads[i] == r.value && r.value.email == email
        && forall j :: 0 <= j < i ==> leads[j].email != email) by {
        if r.Some? {
          var k :| 0 <= k < |leads| - 1 && leads[1..][k] == r.value && r.value.email == email
            && forall j :: 0 <= j < k ==> leads[1..][j].email != email;
          assert leads[k + 1] == r.value;
        }
      }
      r
  }
}
