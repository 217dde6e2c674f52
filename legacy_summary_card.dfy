/**
 * The predecessor of the summary card (client/src/components/ArenaSummaryCard.jsx).
 * Its formatTeamStructure and low-sample rule are the current card's
 * (SummaryCard.FormatTeamStructure, SummaryCard.LowSample); what differs
 * is the click, which never expands the card, and the delete, which names
 * a summary by its signatures and server only.
 */
module LegacySummaryCard {
  import ArenaPage

  /** What a click on the predecessor card does. */
  datatype LegacyClick = ToggleCheck(checked: bool) | PassToParent

  /** handleCardClick: an admin's Ctrl/Meta-click toggles the check; any other click goes to onClick. */
  function CardClick(isAdmin: bool, modifier: bool, isChecked: bool): (r: LegacyClick)
    ensures r.ToggleCheck? <==> isAdmin && modifier
    ensures r.ToggleCheck? ==> r.checked == !isChecked
  {
    if isAdmin && modifier then ToggleCheck(!isChecked) else PassToParent
  }

  /** The arguments handleDeleteClick passes to onDelete once confirmed. */
  datatype DeleteArgs = DeleteArgs(atkSig: string, defSig: string, server: string)

  function DeleteClick(summary: ArenaPage.Item): (args: DeleteArgs)
    ensures args.atkSig == summary.atkSig && args.defSig == summary.defSig && args.server == summary.server
  {
    DeleteArgs(summary.atkSig, summary.defSig, summary.server)
  }

  /**
   * Season and tag are not passed, so two summaries of the same matchup and
   * server in different seasons or tags produce the same delete request.
   */
  lemma DeleteIgnoresSeasonAndTag(a: ArenaPage.Item, b: ArenaPage.Item)
    requires a.atkSig == b.atkSig && a.defSig == b.defSig && a.server == b.server
    ensures DeleteClick(a) == DeleteClick(b)
  {
  }
}
