/**
 * The pipeline stages and the kanban's Back / Advance navigation.
 *
 * The full list has six stages; the kanban board shows only the first five,
 * so "Closed Lost" has no column, yet Advance on a "Closed Won" card still
 * moves the lead to "Closed Lost".
 */
module Stages {
  import opened Wrappers
  import opened Seqs

  datatype Stage = New | Qualified | Proposal | Negotiation | ClosedWon | ClosedLost

  /** `PIPELINE_STAGES`, in display order. */
  const PipelineStages: seq<Stage> := [New, Qualified, Proposal, Negotiation, ClosedWon, ClosedLost]

  /** `PIPELINE_STAGES.slice(0, 5)`: the kanban columns and the dashboard's stage bars. */
  const KanbanStages: seq<Stage> := PipelineStages[..5]

  /** The stage a Back button moves to, or None when the card shows no Back button. */
  function Back(stage: Stage): Option<Stage>
  {
    var i := IndexOf(PipelineStages, stage);
    if i > 0 then Some(PipelineStages[i - 1]) else None
  }

  /** The stage an Advance button moves to, or None when the card shows no Advance button. */
  function Advance(stage: Stage): Option<Stage>
  {
    var i := IndexOf(PipelineStages, stage);
    if i < |PipelineStages| - 1 then Some(PipelineStages[i + 1]) else None
  }

  /** The position of each stage in `PipelineStages`. */
  function Position(stage: Stage): nat
  {
    match stage
    case New => 0
    case Qualified => 1
    case Proposal => 2
    case Negotiation => 3
    case ClosedWon => 4
    case ClosedLost => 5
  }

  /** `indexOf` finds every stage, at its position: the list has no duplicates and misses no stage. */
  lemma StageIndex(stage: Stage)
    ensures IndexOf(PipelineStages, stage) == Position(stage)
    ensures PipelineStages[Position(stage)] == stage
  {
    var i := IndexOf(PipelineStages, stage);
    assert PipelineStages[i] == stage;
  }

  /** The kanban shows every stage except Closed Lost. */
  lemma KanbanOmitsOnlyClosedLost(stage: Stage)
    ensures stage in KanbanStages <==> stage != ClosedLost
  {
    assert KanbanStages == [New, Qualified, Proposal, Negotiation, ClosedWon];
  }

  /**
   * Back is offered on every stage except New and Advance on every stage except
   * Closed Lost; each moves exactly one step along the full list, so the two are
   * inverse to each other.
   */
  lemma BackAdvanceAreInverse(stage: Stage)
    ensures Back(stage).None? <==> stage == New
    ensures Advance(stage).None? <==> stage == ClosedLost
    ensures Advance(stage).Some? ==> Back(Advance(stage).value) == Some(stage)
    ensures Back(stage).Some? ==> Advance(Back(stage).value) == Some(stage)
  {
    var i := Position(stage);
    BackAt(stage);
    AdvanceAt(stage);
    if i < 5 {
      PositionAt(i + 1);
      BackAt(PipelineStages[i + 1]);
    }
    if i > 0 {
      PositionAt(i - 1);
      AdvanceAt(PipelineStages[i - 1]);
    }
  }

  /** Back in terms of the stage's position. */
  lemma BackAt(stage: Stage)
    ensures Back(stage) == if Position(stage) > 0 then Some(PipelineStages[Position(stage) - 1]) else None
  {
    StageIndex(stage);
  }

  /** Advance in terms of the stage's position. */
  lemma AdvanceAt(stage: Stage)
    ensures Advance(stage) == if Position(stage) < 5 then Some(PipelineStages[Position(stage) + 1]) else None
  {
    StageIndex(stage);
  }

  /** The stage at each position of the list has that position. */
  lemma PositionAt(k: nat)
    requires k < |PipelineStages|
    ensures Position(PipelineStages[k]) == k
  {
    StageIndex(PipelineStages[k]);
  }

  /** Advance on the last kanban column moves the card off the board, to Closed Lost. */
  lemma AdvanceFromClosedWon()
    ensures Advance(ClosedWon) == Some(ClosedLost)
    ensures Back(New) == None
    ensures ClosedLost !in KanbanStages
  {
    StageIndex(ClosedWon);
    StageIndex(New);
    KanbanOmitsOnlyClosedLost(ClosedLost);
  }
}
