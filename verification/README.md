# Nexus CRM lead-collection model

A Dafny model of the lead-collection logic inside the single-page CRM component
`src/components/crm-system.jsx`. The model covers:

- the six-stage sales pipeline and the kanban's Back/Advance buttons;
- the lead store operations `updateLead`, `addLead` and the add form's `handleAdd`;
- the search-and-stage filter behind the leads table and the kanban;
- the dashboard aggregates: pipeline value, closed-won value, won count, the
  per-stage bars and the kanban column totals;
- the e-mail composer: template filling, the recipient and template pickers,
  and the idle → sending → sent flags;
- the two colour helpers `tagColor` and `avatarColor`.

Pure code is modelled with datatypes, functions and lemmas. The component state
that handlers replace step by step is modelled with classes:

- `App.CrmApp` holds `leads`, `search`, `filterStage`, `sentCount`, the
  notification banner and the open modals.
- `Composer.EmailComposer` holds the composer's draft.

`avatarColor`'s accumulating loop is a method proved against a recursive
definition of the hash.

Modules, one per part of the component:

| module | file | what it holds |
|---|---|---|
| `Wrappers` | wrappers.dfy | `Option` |
| `Seqs` | seqs.dfy | order-preserving `Filter`, `IndexOf`, subsequence |
| `Text` | text.dfy | ASCII case mapping, `includes`, `split`/`join`, global `replace` |
| `Stages` | stages.dfy | `PIPELINE_STAGES`, the kanban slice, Back/Advance |
| `Leads` | leads.dfy | the lead record, sample data, stage patch, add form, initials, `find` by e-mail |
| `Query` | query.dfy | `filteredLeads` |
| `Metrics` | metrics.dfy | aggregates, stage bars, kanban columns |
| `Templates` | templates.dfy | `EMAIL_TEMPLATES`, `fillTemplate` |
| `Colors` | colors.dfy | `tagColor`, `avatarColor` |
| `Composer` | composer.dfy | the composer's state and events |
| `App` | app.dfy | the top-level component's state and events |

JavaScript semantics modelled explicitly:

- `split(" ")` keeps empty pieces, and `"".split(" ")` is `[""]`.
- `replace(/tok/g, …)` replaces leftmost, non-overlapping occurrences.
- `parseFloat(…) || 0` maps a failed parse and a parsed 0 alike to 0.
- `<<` goes through ToInt32.
- `val / denominator * 100` can be Infinity or NaN when the denominator is 0; otherwise it is an exact real, with no floating-point rounding.

The code is followed where it is weaker than a description of the product might suggest:

- ids are whatever `Date.now()` gave, with no uniqueness check;
- negative deal values are accepted;
- the bar percentage is guarded by the pipeline value alone;
- `handleSend` has no guard of its own; the rule lives only in the button;
- notification timers are never cancelled.

## Model

| member | source | states |
|---|---|---|
| `Stages.StageIndex` | src/components/crm-system.jsx:15 | the stage list holds each of the six stages exactly at its pipeline position |
| `Stages.KanbanOmitsOnlyClosedLost` | src/components/crm-system.jsx:90 | the kanban's five stages are all stages except Closed Lost |
| `Stages.BackAdvanceAreInverse` | src/components/crm-system.jsx:120-127 | Back exists exactly for stages after New, Advance exactly for stages before Closed Lost; each undoes the other |
| `Stages.AdvanceFromClosedWon` | src/components/crm-system.jsx:124-125 | Advance from Closed Won moves to Closed Lost; New has no Back; Closed Lost has no kanban column |
| `Seqs.Filter` | src/components/crm-system.jsx:364 | `Array.filter`: the result is an order-preserving subsequence, and each element occurs in it as often as in the input when it passes, otherwise not at all |
| `Seqs.FilterSingle` | src/components/crm-system.jsx:364 | when exactly one position passes, the filter gives that element alone |
| `Seqs.FilterIdempotent` | src/components/crm-system.jsx:364 | filtering a filtered list again with the same predicate changes nothing |
| `Seqs.IndexOf` | src/components/crm-system.jsx:120 | `indexOf`: -1 exactly when absent, otherwise the first position holding the element |
| `Leads.PatchStage` | src/components/crm-system.jsx:357-358 | same length and order; records with the id get the new stage, every other field and every other record unchanged |
| `Leads.PatchUnknownId` | src/components/crm-system.jsx:358 | an id no record has leaves the collection unchanged |
| `Leads.PatchIdempotent` | src/components/crm-system.jsx:358 | applying the same stage patch twice equals applying it once |
| `Leads.ParsedValue` | src/components/crm-system.jsx:300 | `parseFloat(value) or 0`: a failed parse gives 0, any other parsed number is kept |
| `Leads.Initials` | src/components/crm-system.jsx:300 | the avatar initials have at most two characters |
| `Leads.HeadsAreWordStarts` | src/components/crm-system.jsx:300 | `map(n => n[0]).join("")` yields exactly the first characters of the non-empty tokens; empty tokens add nothing |
| `Leads.InitialsOfFirstTwoWords` | src/components/crm-system.jsx:300 | the initials are the upper-cased first letters of the first two non-empty space-separated words |
| `Leads.NewLead` | src/components/crm-system.jsx:298-300 | no record exactly when name, company or email is empty; otherwise the form's fields, the given id and date, the parsed value, empty tags and the initials |
| `Leads.SubmitForm` | src/components/crm-system.jsx:298-301 | a rejected form leaves the collection as it was; an accepted one is prepended, length grows by one and the old leads follow in order |
| `Leads.AddAnaLi` | src/components/crm-system.jsx:300 | a form for "Ana Li" with no amount adds a lead worth 0 with initials "AL" and no tags in front of the old leads |
| `Leads.FindByEmail` | src/components/crm-system.jsx:148 | `leads.find(l => l.email === to)`: none exactly when no lead has the e-mail, else the first lead that has it |
| `Query.FilteredLeads` | src/components/crm-system.jsx:364-369 | the filtered list is an order-preserving subsequence of the leads |
| `Query.FilteredLeadsExactly` | src/components/crm-system.jsx:364-369 | a lead is kept exactly when the query is empty or its lower-case form occurs in the lower-cased name, company or email, and the filter is All or the lead's stage; a kept lead keeps its multiplicity |
| `Query.SampleSearchStellar` | src/components/crm-system.jsx:364-369 | on the sample data, searching "stellar" with All shows only the Stellar AI lead |
| `Query.FilteredLeadsIdempotent` | src/components/crm-system.jsx:364-369 | filtering the filtered list again with the same search and stage changes nothing |
| `Query.FilteredLeadsUnfiltered` | src/components/crm-system.jsx:346-347 | the initial empty search with "All" shows every lead in order |
| `Text.IncludesIffOccurs` | src/components/crm-system.jsx:366 | `includes` holds exactly when the query occurs at some position |
| `Text.LowerIdempotent` | src/components/crm-system.jsx:365-366 | lower-casing twice equals lower-casing once (used by `Query.SearchIgnoresQueryCase`) |
| `Query.SearchIgnoresQueryCase` | src/components/crm-system.jsx:365-366 | the filtered list for a query equals the filtered list for its lower-cased form: the search ignores the query's case |
| `Text.JoinSplit` | src/components/crm-system.jsx:152-154 | supporting lemma of `Text.ReplaceAllIsSplitJoin` (the component never splits and joins with one separator): joining the pieces of a split with the same separator rebuilds the string |
| `Text.ReplaceAllIsSplitJoin` | src/components/crm-system.jsx:152-154 | a global replace equals splitting on the token and joining with the replacement |
| `Text.SplitPiecesAreFree` | src/components/crm-system.jsx:152-154 | the pieces are cut at leftmost occurrences: no piece before the last contains the token, even overlapping its end |
| `Text.ReplaceSelf` | src/components/crm-system.jsx:152-153 | replacing a token by itself gives back the string |
| `Text.ReplaceAbsent` | src/components/crm-system.jsx:152-154 | a string without the token is unchanged |
| `Text.ReplaceLeavesNoToken` | src/components/crm-system.jsx:154 | when the replacement cannot start or complete a token, no occurrence of the token is left |
| `Metrics.WonCount` | src/components/crm-system.jsx:373 | the won count never exceeds the number of leads |
| `Metrics.ValuePartition` | src/components/crm-system.jsx:371-372 | pipeline value plus closed-won value plus the Closed Lost value is the value of all leads |
| `Metrics.PipelineIsOpenStages` | src/components/crm-system.jsx:371 | the pipeline value is the sum of the New, Qualified, Proposal and Negotiation values |
| `Metrics.CountPartition` | src/components/crm-system.jsx:446 | the six stage counts add up to the number of leads |
| `Metrics.StageValueBounds` | src/components/crm-system.jsx:371-372 | with non-negative values every stage value is non-negative, and an open stage's value is at most the pipeline value |
| `Metrics.TotalAppend` | src/components/crm-system.jsx:95 | the `reduce` sum of a concatenation is the sum of the sums |
| `Metrics.StagePercent` | src/components/crm-system.jsx:448 | the percentage is 0 whenever the pipeline value is not positive, whatever the closed-won value |
| `Metrics.Bar` | src/components/crm-system.jsx:446-448 | a bar's count and value are those of the leads in its stage |
| `Metrics.StageBars` | src/components/crm-system.jsx:445 | one bar per kanban stage, in pipeline order |
| `Metrics.BarCoversItsStage` | src/components/crm-system.jsx:446-447 | a bar covers exactly the leads of its stage, each as often as in the collection, in collection order |
| `Metrics.BarPercentInRange` | src/components/crm-system.jsx:448 | with non-negative values, every kanban stage's bar is a finite percentage in [0, 100] |
| `Metrics.BarsSumTo100` | src/components/crm-system.jsx:445-448 | with non-negative values and a positive pipeline value the five bars add up to exactly 100 in real arithmetic |
| `Metrics.BarsEmptyWithoutPipeline` | src/components/crm-system.jsx:448 | with a zero pipeline value every bar is 0 |
| `Metrics.WonOnlyExample` | src/components/crm-system.jsx:448 | a single Closed Won lead worth 8500 gives closed-won value 8500 yet a 0 bar |
| `Metrics.NegativeValueBreaksBar` | src/components/crm-system.jsx:448 | a New lead worth 100 beside a Closed Won lead worth -100 passes the guard and gets an infinite bar |
| `Metrics.Kanban` | src/components/crm-system.jsx:90-95 | one column per kanban stage holding exactly that stage's leads |
| `Metrics.KanbanCoverage` | src/components/crm-system.jsx:90-95 | each lead that is not Closed Lost is in its stage's column only; Closed Lost leads are on no column; the column totals sum to all value minus Closed Lost |
| `Metrics.InitialMetrics` | src/components/crm-system.jsx:371-373 | on the sample data the pipeline value is 431500 (the 8500 Closed Won deal is left out), the closed-won value 8500 and the won count 1 |
| `Metrics.PatchKeepsTotal` | src/components/crm-system.jsx:357-358 | a stage patch keeps the total value of the collection |
| `Templates.FirstNameUpToSpace` | src/components/crm-system.jsx:152 | `name.split(" ")[0]` is the longest prefix of the name without a space |
| `Templates.FillTemplate` | src/components/crm-system.jsx:150-156 | no `{sender}` is left in subject or body; without a lead only `{sender}` is replaced |
| `Templates.FillWithoutLead` | src/components/crm-system.jsx:152-154 | with no lead, `{name}` and `{company}` stay literal and only `{sender}` changes |
| `Templates.FillSignsText` | src/components/crm-system.jsx:154 | after the fill no `{sender}` token remains, for any text and any lead |
| `Templates.FillPlainText` | src/components/crm-system.jsx:151-154 | a text without any of the three tokens comes out unchanged |
| `Templates.FillKeepsMissingFields` | src/components/crm-system.jsx:152-153 | an empty first name leaves `{name}` literal and an empty company leaves `{company}` literal, as with no lead |
| `Templates.LeadingSpaceEmptiesFirstName` | src/components/crm-system.jsx:152 | the first name is empty, for a non-empty name, exactly when the name starts with a space |
| `Colors.TagColor` | src/components/crm-system.jsx:43-46 | a known tag gets its palette colour; the default grey is returned exactly for unknown tags |
| `Colors.ToInt32` | src/components/crm-system.jsx:57 | ToInt32 yields the signed 32-bit value congruent to its input modulo 2^32 |
| `Colors.AvatarColor` | src/components/crm-system.jsx:55-59 | the loop's colour is the palette entry at the absolute hash modulo 8 |
| `Colors.HashIsPolynomialModulo` | src/components/crm-system.jsx:57 | the loop's `h` equals the polynomial hash `31 * h + c` modulo 2^32 |
| `Colors.ShiftIsTimes32` | src/components/crm-system.jsx:57 | `h << 5` is congruent to `32 * h` modulo 2^32 |
| `Colors.HashBound` | src/components/crm-system.jsx:57 | the absolute value of `h` grows by at most 2^31 + 2^16 per character, so it is at most the name's length times that |
| `Composer.PhaseOf` | src/components/crm-system.jsx:146-147 | the two flags name one of idle, sending, sent, except both set at once |
| `Composer.EmailComposer.constructor` | src/components/crm-system.jsx:142-147 | a new composer has no recipient, the first template with its raw subject and body, and is idle |
| `Composer.EmailComposer.HandleTemplate` | src/components/crm-system.jsx:158-163 | offered only while the message is not sent; the template is set and subject and body become its fill for the current recipient, discarding edits |
| `Composer.EmailComposer.HandleTo` | src/components/crm-system.jsx:165-171 | offered only while the message is not sent; the recipient is set and subject and body become the current template's fill for the first lead with that e-mail, or the lead-less fill |
| `Composer.EmailComposer.EditSubject` | src/components/crm-system.jsx:217 | offered only while the message is not sent; the subject is what was typed |
| `Composer.EmailComposer.EditBody` | src/components/crm-system.jsx:222 | offered only while the message is not sent; the body is what was typed |
| `Composer.EmailComposer.HandleSend` | src/components/crm-system.jsx:173-174 | `handleSend` sets `sending` with no check |
| `Composer.EmailComposer.ClickSend` | src/components/crm-system.jsx:225 | the button fires exactly when idle with a recipient, then the composer is sending; otherwise nothing changes |
| `Composer.EmailComposer.SendTimerFires` | src/components/crm-system.jsx:175 | the first timer moves sending to sent |
| `Composer.OpeningDraftIsUnfilled` | src/components/crm-system.jsx:143-145 | the draft a composer opens with still holds `{sender}`, so it is no fill of its template |
| `App.CrmApp.constructor` | src/components/crm-system.jsx:344-353 | the sample leads, empty search, All, 12 sent, no banner, nothing open |
| `App.CrmApp.Notify` | src/components/crm-system.jsx:355 | the banner shows the message and one more clear timer is pending |
| `App.CrmApp.ClearTimerFires` | src/components/crm-system.jsx:355 | a clear timer empties the banner whatever message it shows |
| `App.CrmApp.UpdateLead` | src/components/crm-system.jsx:357-360 | the collection becomes its stage patch and "Lead updated ✓" is shown |
| `App.CrmApp.AddLead` | src/components/crm-system.jsx:362 | the record is prepended and "Lead added ✓" is shown |
| `App.CrmApp.OpenAddLead` | src/components/crm-system.jsx:420 | the add-lead modal is open |
| `App.CrmApp.CloseAddLead` | src/components/crm-system.jsx:610 | the add-lead modal is closed |
| `App.CrmApp.SubmitAddLead` | src/components/crm-system.jsx:298-302 | adds exactly when name, company and email are filled, then shows "Lead added ✓", starts one clear timer and closes the modal; otherwise nothing changes |
| `App.CrmApp.SetSearch` | src/components/crm-system.jsx:415 | the search text is what was typed; every row shown then matches it, and an empty search with All shows every lead |
| `App.CrmApp.SetFilterStage` | src/components/crm-system.jsx:487-488 | the stage filter is the button's value; every row shown is then in that stage (any stage for All), and All with an empty search shows every lead |
| `App.CrmApp.ShownMatch` | src/components/crm-system.jsx:364-369 | every lead the table and kanban show passes both the current search and the current stage filter |
| `App.CrmApp.ClickBack` | src/components/crm-system.jsx:120-121 | moves the card's lead one stage back exactly when it is past New, showing "Lead updated ✓" with one more clear timer; otherwise leads, banner and timers are unchanged |
| `App.CrmApp.ClickAdvance` | src/components/crm-system.jsx:124-125 | moves the card's lead one stage on exactly when it is before Closed Lost, showing "Lead updated ✓" with one more clear timer; otherwise leads, banner and timers are unchanged |
| `App.CrmApp.OpenComposer` | src/components/crm-system.jsx:418 | a closed composer opens fresh and idle, with no recipient, on the first template with its raw subject and body; an open composer stays as it was, draft and flags included |
| `App.CrmApp.CloseComposer` | src/components/crm-system.jsx:607 | the composer is closed |
| `App.CrmApp.ComposerPickTemplate` | src/components/crm-system.jsx:158-163 | while not sent, the open composer's draft is the fill for the current leads |
| `App.CrmApp.ComposerPickRecipient` | src/components/crm-system.jsx:165-171 | while not sent, the open composer's recipient is set and its draft is the fill for the current leads |
| `App.CrmApp.ClickComposerSend` | src/components/crm-system.jsx:225 | the open composer fires exactly when idle with a recipient and is then sending; otherwise its flags are unchanged |
| `App.CrmApp.ComposerSendTimerFires` | src/components/crm-system.jsx:175 | the open composer moves from sending to sent |
| `App.CrmApp.ComposerCloseTimerFires` | src/components/crm-system.jsx:607-608 | `sentCount` grows by one and the composer closes |

## Left out

- Rendering, styles, hover handlers and modal layout: presentation only.
- `fmt` (currency formatting through `Intl.NumberFormat`): a library call with no logic of the component's own.
- Timer durations (3000 ms for the banner, 1500 ms twice for a send): each timer is an event, and any interleaving of events is allowed.
- A send timer firing after its composer was closed is not modelled: the model's timer events act on the open composer only.
- `Date.now()` ids and `new Date().toISOString()` dates: both are parameters of the add.
- `parseFloat`: its result is an optional integer; deal values are integers, not floating point.
- `Text.ReplaceAll`: the `$&`, `$1` and `$$` patterns in the replacement string are not interpreted; names and companies are taken to hold no `$`.
- `Text.Lower` and `Text.Upper`: ASCII only, while `toLowerCase`/`toUpperCase` map all of Unicode. With full mapping, one character can become several, so the at-most-two-characters bound of `Leads.Initials` holds only under ASCII.
- `Colors.AvatarColor`: `h` is an exact integer, while JavaScript keeps it as a double. `Colors.HashBound` keeps the absolute value of `h` below 2^53 for names under 2^21 characters, where double arithmetic on integers is exact. Lone surrogates cannot occur in a Dafny string.
- `Metrics.BarsSumTo100`: the percentages are exact reals, while the component computes them in doubles, so the five bars sum to 100 only up to rounding (Qualified 1 and Proposal 2 give 99.99999999999999).
- `Leads.HeadsAreWordStarts`: takes the first character of each word, while `n[0]` takes the first UTF-16 code unit. The two differ for a word starting above U+FFFF, where the component keeps a lone high surrogate, which a Dafny string cannot hold.
- `Leads.InitialsOfFirstTwoWords`: the same gap; for a name such as "😀 Li" the component's initials start with a lone high surrogate, the model's with the whole character.
- `Colors.TagColor`: prototype keys such as `"constructor"` find an inherited function instead of the default colour.
- `Leads.PatchStage`: patches the stage only, because every caller of `updateLead` passes `{ stage }`; a general field merge is not modelled.
- The lead modal's own `notes` and `editStage` state, and the copy of the patch into `selectedLead`: not modelled.
- `emailTo`: it is written when the composer is opened from a lead but never passed to the composer, so it has no effect.
- The campaign open-rate percentages: rounded floats over static data.
- The view switch, the activity feed and the search box's placeholder: navigation and static content.
- The composer's `leads` prop is read afresh by each of its events, so the collection is an argument of `HandleTemplate` and `HandleTo`. The claim that subject and body match the fill holds for the collection at the time of the event.
