/**
 * The dashboard's roll-ups over the whole lead collection: pipeline value,
 * closed-won value and count, the per-stage bars with their percentage of
 * pipeline plus closed-won value, and the kanban columns with their totals.
 */
module Metrics {
  import opened Seqs
  import opened Stages
  import opened Leads

  /** `ls.reduce((s, l) => s + l.value, 0)`. */
  function Total(leads: seq<Lead>): int
  {
    if leads == [] then 0 else leads[0].value + Total(leads[1..])
  }

  /** `l => l.stage === stage`. */
  function InStage(stage: Stage): Lead -> bool
  {
    (lead: Lead) => lead.stage == stage
  }

  /** `l => !["Closed Won", "Closed Lost"].includes(l.stage)`. */
  predicate IsOpen(lead: Lead)
  {
    lead.stage != ClosedWon && lead.stage != ClosedLost
  }

  /** The leads in one stage, in collection order. */
  function WithStage(leads: seq<Lead>, stage: Stage): seq<Lead>
  {
    Filter(leads, InStage(stage))
  }

  /** Summed value of the leads in one stage. */
  function StageValue(leads: seq<Lead>, stage: Stage): int
  {
    Total(WithStage(leads, stage))
  }

  /** `totalPipelineValue`: summed value of the leads not yet closed. */
  function PipelineValue(leads: seq<Lead>): int
  {
    Total(Filter(leads, IsOpen))
  }

  /** `closedWon`: summed value of the Closed Won leads. */
  function ClosedWonValue(leads: seq<Lead>): int
  {
    StageValue(leads, ClosedWon)
  }

  /** `wonCount`: how many leads are Closed Won. */
  function WonCount(leads: seq<Lead>): (n: nat)
    ensures n <= |leads|
  {
    |WithStage(leads, ClosedWon)|
  }

  /** The front lead contributes to exactly the filters it passes. */
  lemma FilterCons(lead: Lead, rest: seq<Lead>, p: Lead -> bool)
    ensures Filter([lead] + rest, p) == (if p(lead) then [lead] else []) + Filter(rest, p)
  {
    assert ([lead] + rest)[1..] == rest;
  }

  /** The total of a concatenation is the sum of the totals. */
  lemma {:induction false} TotalAppend(a: seq<Lead>, b: seq<Lead>)
    ensures Total(a + b) == Total(a) + Total(b)
  {
    if a == [] {
      assert a + b == b;
    } else {
      assert (a + b)[1..] == a[1..] + b;
      TotalAppend(a[1..], b);
    }
  }

  /** With no negative deal values, every total is non-negative. */
  lemma {:induction false} TotalNonNegative(leads: seq<Lead>)
    requires forall i :: 0 <= i < |leads| ==> leads[i].value >= 0
    ensures Total(leads) >= 0
  {
    if leads != [] {
      TotalNonNegative(leads[1..]);
    }
  }

  /** The front lead adds its value to the pipeline value exactly when it is open. */
  lemma PipelineStep(leads: seq<Lead>)
    requires leads != []
    ensures PipelineValue(leads) == (if IsOpen(leads[0]) then leads[0].value else 0) + PipelineValue(leads[1..])
  {
    assert leads == [leads[0]] + leads[1..];
    FilterCons(leads[0], leads[1..], IsOpen);
    TotalAppend([leads[0]], Filter(leads[1..], IsOpen));
    assert Total([leads[0]]) == leads[0].value + Total([]);
  }

  /** The front lead adds its value to its own stage only. */
  lemma StageStep(leads: seq<Lead>, stage: Stage)
    requires leads != []
    ensures StageValue(leads, stage) == (if leads[0].stage == stage then leads[0].value else 0) + StageValue(leads[1..], stage)
  {
    assert leads == [leads[0]] + leads[1..];
    FilterCons(leads[0], leads[1..], InStage(stage));
    TotalAppend([leads[0]], WithStage(leads[1..], stage));
    assert Total([leads[0]]) == leads[0].value + Total([]);
  }

  /** The front lead adds one card to its own stage only. */
  lemma StageCountStep(leads: seq<Lead>, stage: Stage)
    requires leads != []
    ensures |WithStage(leads, stage)| == (if leads[0].stage == stage then 1 else 0) + |WithStage(leads[1..], stage)|
  {
  }

  /** Every lead is in exactly one of: open, Closed Won, Closed Lost. */
  lemma {:induction false} ValuePartition(leads: seq<Lead>)
    ensures PipelineValue(leads) + ClosedWonValue(leads) + StageValue(leads, ClosedLost) == Total(leads)
  {
    if leads != [] {
      ValuePartition(leads[1..]);
      PipelineStep(leads);
      StageStep(leads, ClosedWon);
      StageStep(leads, ClosedLost);
    }
  }

  /** The pipeline value is the sum of the four open stages' values. */
  lemma {:induction false} PipelineIsOpenStages(leads: seq<Lead>)
    ensures PipelineValue(leads)
      == StageValue(leads, New) + StageValue(leads, Qualified) + StageValue(leads, Proposal) + StageValue(leads, Negotiation)
  {
    if leads != [] {
      PipelineIsOpenStages(leads[1..]);
      PipelineStep(leads);
      StageStep(leads, New);
      StageStep(leads, Qualified);
      StageStep(leads, Proposal);
      StageStep(leads, Negotiation);
    }
  }

  /** Every lead is counted in exactly one of the six stages. */
  lemma {:induction false} CountPartition(leads: seq<Lead>)
    ensures |WithStage(leads, New)| + |WithStage(leads, Qualified)| + |WithStage(leads, Proposal)|
      + |WithStage(leads, Negotiation)| + |WithStage(leads, ClosedWon)| + |WithStage(leads, ClosedLost)| == |leads|
  {
    if leads != [] {
      CountPartition(leads[1..]);
      StageCountStep(leads, New);
      StageCountStep(leads, Qualified);
      StageCountStep(leads, Proposal);
      StageCountStep(leads, Negotiation);
      StageCountStep(leads, ClosedWon);
      StageCountStep(leads, ClosedLost);
    }
  }

  /** With non-negative deal values, no stage is worth more than the stages around it. */
  lemma StageValueBounds(leads: seq<Lead>, stage: Stage)
    requires forall i :: 0 <= i < |leads| ==> leads[i].value >= 0
    ensures forall s: Stage :: StageValue(leads, s) >= 0
    ensures stage != ClosedWon && stage != ClosedLost ==> StageValue(leads, stage) <= PipelineValue(leads)
  {
    forall s: Stage
      ensures StageValue(leads, s) >= 0
    {
      TotalNonNegative(WithStage(leads, s));
    }
    PipelineIsOpenStages(leads);
  }

  // ─── Stage bars ──────────────────────────────────────────────────────────

  /**
   * A JavaScript number computed as `val / denominator * 100`: a finite value,
   * or what a division by zero gives (Infinity, -Infinity, NaN for 0/0).
   */
  datatype Percent = Finite(r: real) | PosInfinity | NegInfinity | NaN

  /** `(val / denominator) * 100` in JavaScript arithmetic. */
  function Ratio(val: int, denominator: int): Percent
  {
    if denominator != 0 then Finite(val as real / denominator as real * 100.0)
    else if val > 0 then PosInfinity
    else if val < 0 then NegInfinity
    else NaN
  }

  /**
   * `pct`: the guard checks the pipeline value only, not the whole denominator
   * `pipeline + closedWon`.
   */
  function StagePercent(val: int, pipeline: int, closedWon: int): (pct: Percent)
    ensures pipeline <= 0 ==> pct == Finite(0.0)
  {
    if pipeline > 0 then Ratio(val, pipeline + closedWon) else Finite(0.0)
  }

  /** One row of "Pipeline by Stage": stage, lead count, summed value, bar width. */
  datatype StageBar = StageBar(stage: Stage, count: nat, value: int, pct: Percent)

  function Bar(leads: seq<Lead>, stage: Stage): (bar: StageBar)
    ensures bar.count == |WithStage(leads, stage)|
    ensures bar.value == StageValue(leads, stage)
  {
    StageBar(stage, |WithStage(leads, stage)|, StageValue(leads, stage),
             StagePercent(StageValue(leads, stage), PipelineValue(leads), ClosedWonValue(leads)))
  }

  /** The bars for `PIPELINE_STAGES.slice(0, 5)`. */
  function StageBars(leads: seq<Lead>): (bars: seq<StageBar>)
    ensures |bars| == |KanbanStages|
    ensures forall i :: 0 <= i < |bars| ==> bars[i].stage == KanbanStages[i]
  {
    seq(|KanbanStages|, i requires 0 <= i < |KanbanStages| => Bar(leads, KanbanStages[i]))
  }

  /** A bar covers exactly the leads of its stage. */
  lemma BarCoversItsStage(leads: seq<Lead>, stage: Stage)
    ensures forall lead :: lead in WithStage(leads, stage) <==> lead in leads && lead.stage == stage
    ensures IsSubsequence(WithStage(leads, stage), leads)
    ensures forall lead :: multiset(WithStage(leads, stage))[lead] == if lead.stage == stage then multiset(leads)[lead] else 0
  {
    var r := WithStage(leads, stage);
    forall lead
      ensures lead in r <==> lead in leads && lead.stage == stage
    {
      if lead in r {
        var i :| 0 <= i < |r| && r[i] == lead;
      }
      if lead in leads && lead.stage == stage {
        var i :| 0 <= i < |leads| && leads[i] == lead;
      }
    }
  }

  /**
   * With non-negative deal values, every bar is a finite percentage between 0
   * and 100.
   */
  lemma BarPercentInRange(leads: seq<Lead>, stage: Stage)
    requires stage in KanbanStages
    requires forall i :: 0 <= i < |leads| ==> leads[i].value >= 0
    ensures Bar(leads, stage).pct.Finite?
    ensures 0.0 <= Bar(leads, stage).pct.r <= 100.0
  {
    KanbanOmitsOnlyClosedLost(stage);
    StageShareBounds(leads, stage);
    var v, pipeline, won := StageValue(leads, stage), PipelineValue(leads), ClosedWonValue(leads);
    assert Bar(leads, stage).pct == StagePercent(v, pipeline, won);
    PercentOfShare(v, pipeline, won);
  }

  /** A share of pipeline plus closed-won, both non-negative, is a finite percentage from 0 to 100. */
  lemma PercentOfShare(v: int, pipeline: int, won: int)
    requires 0 <= pipeline && 0 <= won && 0 <= v <= pipeline + won
    ensures StagePercent(v, pipeline, won).Finite?
    ensures 0.0 <= StagePercent(v, pipeline, won).r <= 100.0
  {
    if pipeline > 0 {
      RatioBounds(v, pipeline + won);
    }
  }

  /** With non-negative deal values, a stage other than Closed Lost is worth at most pipeline plus closed-won. */
  lemma StageShareBounds(leads: seq<Lead>, stage: Stage)
    requires stage != ClosedLost
    requires forall i :: 0 <= i < |leads| ==> leads[i].value >= 0
    ensures 0 <= StageValue(leads, stage) <= PipelineValue(leads) + ClosedWonValue(leads)
    ensures 0 <= PipelineValue(leads) && 0 <= ClosedWonValue(leads)
  {
    StageValueBounds(leads, stage);
    TotalNonNegative(Filter(leads, IsOpen));
    assert ClosedWonValue(leads) >= 0;
  }

  /** `0 <= v <= d` with `d > 0` gives `0 <= v / d * 100 <= 100`. */
  lemma RatioBounds(v: int, d: int)
    requires 0 <= v <= d && d > 0
    ensures 0.0 <= v as real / d as real * 100.0 <= 100.0
  {
    var q := v as real / d as real;
    assert q * d as real == v as real;
    assert q <= 1.0;
  }

  /**
   * The guard looks only at the pipeline value: with nothing open, every bar is
   * 0 even when Closed Won is worth something.
   */
  lemma BarsEmptyWithoutPipeline(leads: seq<Lead>)
    requires PipelineValue(leads) == 0
    ensures forall i :: 0 <= i < |KanbanStages| ==> StageBars(leads)[i].pct == Finite(0.0)
  {
  }

  /**
   * An example of the above: one Closed Won lead worth 8500 gives a closed-won
   * value of 8500 and a Closed Won bar of 0.
   */
  lemma WonOnlyExample(lead: Lead)
    requires lead.stage == ClosedWon && lead.value == 8500
    ensures ClosedWonValue([lead]) == 8500 && PipelineValue([lead]) == 0
    ensures Bar([lead], ClosedWon).pct == Finite(0.0)
  {
    assert [lead][1..] == [];
    PipelineStep([lead]);
    StageStep([lead], ClosedWon);
    assert Bar([lead], ClosedWon).pct == StagePercent(StageValue([lead], ClosedWon), PipelineValue([lead]), ClosedWonValue([lead]));
  }

  /**
   * Negative amounts are accepted by the add form, and then the denominator can
   * be 0 while the guard passes: an open lead worth 100 next to a Closed Won
   * lead worth -100 gives the open stage an infinite bar.
   */
  lemma NegativeValueBreaksBar(open: Lead, won: Lead)
    requires open.stage == New && open.value == 100
    requires won.stage == ClosedWon && won.value == -100
    ensures Bar([open, won], New).pct == PosInfinity
  {
    OpenBesideWon(open, won);
    var leads := [open, won];
    assert Bar(leads, New).pct == StagePercent(StageValue(leads, New), PipelineValue(leads), ClosedWonValue(leads));
  }

  /** An open lead beside a Closed Won lead: each makes up its own aggregate. */
  lemma OpenBesideWon(open: Lead, won: Lead)
    requires IsOpen(open) && won.stage == ClosedWon
    ensures PipelineValue([open, won]) == open.value
    ensures ClosedWonValue([open, won]) == won.value
    ensures StageValue([open, won], open.stage) == open.value
  {
    assert [open, won][1..] == [won] && [won][1..] == [];
    PipelineStep([won]);
    PipelineStep([open, won]);
    StageStep([won], ClosedWon);
    StageStep([open, won], ClosedWon);
    StageStep([won], open.stage);
    StageStep([open, won], open.stage);
  }

  // ─── Kanban columns ──────────────────────────────────────────────────────

  /** One kanban column: its stage, its cards and the total shown in its header. */
  datatype Column = Column(stage: Stage, cards: seq<Lead>, total: int)

  /** The columns for `PIPELINE_STAGES.slice(0, 5)`, over the leads given (the filtered list). */
  function Kanban(leads: seq<Lead>): (columns: seq<Column>)
    ensures |columns| == |KanbanStages|
    ensures forall i :: 0 <= i < |columns| ==>
      columns[i].stage == KanbanStages[i] && columns[i].cards == WithStage(leads, KanbanStages[i])
  {
    seq(|KanbanStages|, i requires 0 <= i < |KanbanStages| =>
      Column(KanbanStages[i], WithStage(leads, KanbanStages[i]), StageValue(leads, KanbanStages[i])))
  }

  /**
   * Every lead that is not Closed Lost sits in the column of its stage; Closed
   * Lost leads are on no column; and the column totals add up to the whole
   * collection minus the Closed Lost value.
   */
  lemma KanbanCoverage(leads: seq<Lead>)
    ensures forall lead, i :: lead in leads && 0 <= i < 5 ==>
      (lead in Kanban(leads)[i].cards <==> lead.stage == KanbanStages[i])
    ensures forall lead: Lead, i :: lead.stage == ClosedLost && 0 <= i < 5 ==> lead !in Kanban(leads)[i].cards
    ensures var k := Kanban(leads);
      k[0].total + k[1].total + k[2].total + k[3].total + k[4].total == Total(leads) - StageValue(leads, ClosedLost)
  {
    KanbanColumnsHoldTheirStage(leads);
    KanbanTotals(leads);
  }

  /** Each column holds exactly the leads of its stage, so Closed Lost leads are on none. */
  lemma KanbanColumnsHoldTheirStage(leads: seq<Lead>)
    ensures forall i :: 0 <= i < 5 ==>
      forall lead :: lead in Kanban(leads)[i].cards <==> lead in leads && lead.stage == KanbanStages[i]
    ensures forall i :: 0 <= i < 5 ==> KanbanStages[i] != ClosedLost
  {
    var k := Kanban(leads);
    forall i | 0 <= i < 5
      ensures forall lead :: lead in k[i].cards <==> lead in leads && lead.stage == KanbanStages[i]
    {
      BarCoversItsStage(leads, KanbanStages[i]);
    }
    KanbanOmitsOnlyClosedLost(ClosedLost);
  }

  /** The five column totals add up to everything but the Closed Lost value. */
  lemma KanbanTotals(leads: seq<Lead>)
    ensures var k := Kanban(leads);
      k[0].total + k[1].total + k[2].total + k[3].total + k[4].total == Total(leads) - StageValue(leads, ClosedLost)
  {
    assert KanbanStages == [New, Qualified, Proposal, Negotiation, ClosedWon];
    ValuePartition(leads);
    PipelineIsOpenStages(leads);
  }

  /** Changing a lead's stage moves its value between stages but keeps the collection total. */
  lemma {:induction false} PatchKeepsTotal(leads: seq<Lead>, id: int, target: Stage)
    ensures Total(PatchStage(leads, id, target)) == Total(leads)
  {
    if leads != [] {
      var r := PatchStage(leads, id, target);
      PatchKeepsTotal(leads[1..], id, target);
      assert r[1..] == PatchStage(leads[1..], id, target);
    }
  }

  /**
   * With non-negative deal values and something in the pipeline, the five bars
   * split 100 percent between them.
   */
  lemma BarsSumTo100(leads: seq<Lead>)
    requires forall i :: 0 <= i < |leads| ==> leads[i].value >= 0
    requires PipelineValue(leads) > 0
    ensures Bar(leads, New).pct.Finite? && Bar(leads, Qualified).pct.Finite? && Bar(leads, Proposal).pct.Finite?
    ensures Bar(leads, Negotiation).pct.Finite? && Bar(leads, ClosedWon).pct.Finite?
    ensures Bar(leads, New).pct.r + Bar(leads, Qualified).pct.r + Bar(leads, Proposal).pct.r
      + Bar(leads, Negotiation).pct.r + Bar(leads, ClosedWon).pct.r == 100.0
  {
    PipelineIsOpenStages(leads);
    StageValueBounds(leads, New);
    var pipeline, won := PipelineValue(leads), ClosedWonValue(leads);
    assert Bar(leads, New).pct == StagePercent(StageValue(leads, New), pipeline, won);
    assert Bar(leads, Qualified).pct == StagePercent(StageValue(leads, Qualified), pipeline, won);
    assert Bar(leads, Proposal).pct == StagePercent(StageValue(leads, Proposal), pipeline, won);
    assert Bar(leads, Negotiation).pct == StagePercent(StageValue(leads, Negotiation), pipeline, won);
    assert Bar(leads, ClosedWon).pct == StagePercent(StageValue(leads, ClosedWon), pipeline, won);
    SharesSumToWhole(StageValue(leads, New), StageValue(leads, Qualified), StageValue(leads, Proposal),
                     StageValue(leads, Negotiation), StageValue(leads, ClosedWon),
                     PipelineValue(leads) + ClosedWonValue(leads));
  }

  /** Five parts of a positive whole, each as a percentage of it, add up to 100. */
  lemma SharesSumToWhole(a: int, b: int, c: int, e: int, f: int, d: int)
    requires d > 0 && a + b + c + e + f == d
    ensures a as real / d as real * 100.0 + b as real / d as real * 100.0 + c as real / d as real * 100.0
      + e as real / d as real * 100.0 + f as real / d as real * 100.0 == 100.0
  {
    var D := d as real;
    var qa, qb, qc, qe, qf := a as real / D, b as real / D, c as real / D, e as real / D, f as real / D;
    assert qa * D == a as real && qb * D == b as real && qc * D == c as real;
    assert qe * D == e as real && qf * D == f as real;
    var S := qa + qb + qc + qe + qf;
    assert S * D == qa * D + qb * D + qc * D + qe * D + qf * D;
    assert (S - 1.0) * D == 0.0;
    assert S == 1.0;
    assert qa * 100.0 + qb * 100.0 + qc * 100.0 + qe * 100.0 + qf * 100.0 == S * 100.0;
  }

  // ─── The sample data ─────────────────────────────────────────────────────

  /** One lead at a time: the pipeline contribution of `leads[k..]`. */
  lemma PipelineSuffixStep(leads: seq<Lead>, k: nat, stage: Stage, value: int)
    requires k < |leads| && leads[k].stage == stage && leads[k].value == value
    ensures PipelineValue(leads[k..]) == (if stage != ClosedWon && stage != ClosedLost then value else 0) + PipelineValue(leads[k + 1..])
  {
    var L := leads[k..];
    assert L[0] == leads[k] && L[1..] == leads[k + 1..];
    PipelineStep(L);
  }

  /** One lead at a time: the closed-won value and count contributions of `leads[k..]`. */
  lemma WonSuffixStep(leads: seq<Lead>, k: nat, stage: Stage, value: int)
    requires k < |leads| && leads[k].stage == stage && leads[k].value == value
    ensures ClosedWonValue(leads[k..]) == (if stage == ClosedWon then value else 0) + ClosedWonValue(leads[k + 1..])
    ensures WonCount(leads[k..]) == (if stage == ClosedWon then 1 else 0) + WonCount(leads[k + 1..])
  {
    var L := leads[k..];
    assert L[0] == leads[k] && L[1..] == leads[k + 1..];
    StageStep(L, ClosedWon);
    StageCountStep(L, ClosedWon);
  }

  /** The stages of the sample data, in its order. */
  predicate SampleStages(leads: seq<Lead>)
  {
    && |leads| == 8
    && leads[0].stage == Qualified && leads[1].stage == Proposal && leads[2].stage == Negotiation && leads[3].stage == New
    && leads[4].stage == Qualified && leads[5].stage == ClosedWon && leads[6].stage == Negotiation && leads[7].stage == Proposal
  }

  /** The deal values of the sample data, in its order. */
  predicate SampleValues(leads: seq<Lead>)
  {
    && |leads| == 8
    && leads[0].value == 48000 && leads[1].value == 22500 && leads[2].value == 97000 && leads[3].value == 15000
    && leads[4].value == 63000 && leads[5].value == 8500 && leads[6].value == 155000 && leads[7].value == 31000
  }

  /** The last four sample leads: two Negotiation and a Proposal deal are open, the Closed Won deal is not. */
  lemma SamplePipelineTail(leads: seq<Lead>)
    requires SampleStages(leads) && SampleValues(leads)
    ensures PipelineValue(leads[4..]) == 249000
  {
    PipelineSuffixStep(leads, 7, Proposal, 31000);
    PipelineSuffixStep(leads, 6, Negotiation, 155000);
    PipelineSuffixStep(leads, 5, ClosedWon, 8500);
    PipelineSuffixStep(leads, 4, Qualified, 63000);
    assert leads[8..] == [];
  }

  /** From the third sample lead on: the New and Negotiation deals join the tail's. */
  lemma SamplePipelineMiddle(leads: seq<Lead>)
    requires SampleStages(leads) && SampleValues(leads)
    ensures PipelineValue(leads[2..]) == 361000
  {
    SamplePipelineTail(leads);
    PipelineSuffixStep(leads, 3, New, 15000);
    PipelineSuffixStep(leads, 2, Negotiation, 97000);
  }

  /** Any eight leads with the sample data's stages and values have its pipeline value. */
  lemma SamplePipeline(leads: seq<Lead>)
    requires SampleStages(leads) && SampleValues(leads)
    ensures PipelineValue(leads) == 431500
  {
    SamplePipelineMiddle(leads);
    PipelineSuffixStep(leads, 1, Proposal, 22500);
    PipelineStep(leads);
  }

  /** The last four sample leads hold the one Closed Won deal. */
  lemma SampleWonTail(leads: seq<Lead>)
    requires SampleStages(leads) && SampleValues(leads)
    ensures ClosedWonValue(leads[4..]) == 8500 && WonCount(leads[4..]) == 1
  {
    WonSuffixStep(leads, 7, Proposal, 31000);
    WonSuffixStep(leads, 6, Negotiation, 155000);
    WonSuffixStep(leads, 5, ClosedWon, 8500);
    WonSuffixStep(leads, 4, Qualified, 63000);
    assert leads[8..] == [];
  }

  /** Any eight leads with the sample data's stages and values have its closed-won value and count. */
  lemma SampleWon(leads: seq<Lead>)
    requires SampleStages(leads) && SampleValues(leads)
    ensures ClosedWonValue(leads) == 8500 && WonCount(leads) == 1
  {
    SampleWonTail(leads);
    WonSuffixStep(leads, 3, New, 15000);
    WonSuffixStep(leads, 2, Negotiation, 97000);
    WonSuffixStep(leads, 1, Proposal, 22500);
    StageStep(leads, ClosedWon);
    StageCountStep(leads, ClosedWon);
  }

  /**
   * The dashboard over the sample data: the pipeline value leaves out the
   * 8500 Closed Won deal, which is the whole closed-won value and the one win.
   */
  lemma InitialMetrics()
    ensures PipelineValue(InitialLeads) == 431500
    ensures ClosedWonValue(InitialLeads) == 8500
    ensures WonCount(InitialLeads) == 1
  {
    assert SampleStages(InitialLeads) && SampleValues(InitialLeads);
    SamplePipeline(InitialLeads);
    SampleWon(InitialLeads);
  }
}
