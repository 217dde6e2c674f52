/**
 * The summary card of the arena page
 * (client/src/components/arena/ArenaSummaryCard.jsx): the six avatar
 * slots of a team, the loadout lookup of its avatars, the card click, the
 * detail list's selection, pager and batch delete, and the low-sample
 * warning.
 */
module SummaryCard {
  import opened Wrappers
  import Text
  import Decimal
  import Loadout
  import ArenaPage

  /** Whether an ID's decimal form starts with the digit d (a negative ID starts with '-'). */
  predicate Leads(id: int, d: nat) {
    id >= 0 && Decimal.LeadingDigit(id) == d
  }

  /** Leads is String(id).startsWith of the digit. */
  lemma LeadsIffPrefix(id: int, d: nat)
    requires d < 10
    ensures Leads(id, d) <==> Text.StartsWith(Decimal.IntToString(id), [Decimal.DigitChar(d)])
  {
    var s := Decimal.IntToString(id);
    assert Text.StartsWith(s, [Decimal.DigitChar(d)]) <==> s[0] == Decimal.DigitChar(d) by {
      assert Text.StartsWith(s, [Decimal.DigitChar(d)]) ==> s[..1][0] == Decimal.DigitChar(d);
      assert s[0] == Decimal.DigitChar(d) ==> s[..1] == [Decimal.DigitChar(d)];
    }
    if id >= 0 {
      Decimal.NatToStringHead(id);
      assert Decimal.DigitChar(Decimal.LeadingDigit(id)) == Decimal.DigitChar(d) ==> Decimal.LeadingDigit(id) == d;
    }
  }

  /** teamIds.filter(id => String(id).startsWith(d)): the IDs leading with d, in order. */
  function WithLeading(ids: seq<int>, d: nat): (r: seq<int>)
    ensures |r| <= |ids|
    ensures forall x :: x in r <==> x in ids && Leads(x, d)
  {
    if ids == [] then []
    else WithLeading(ids[..|ids| - 1], d) + (if Leads(ids[|ids| - 1], d) then [ids[|ids| - 1]] else [])
  }

  /** Filtering keeps relative order: the filter of a concatenation is the concatenation of the filters. */
  lemma {:induction false} WithLeadingAppend(a: seq<int>, b: seq<int>, d: nat)
    ensures WithLeading(a + b, d) == WithLeading(a, d) + WithLeading(b, d)
    decreases |b|
  {
    if b == [] {
      assert a + b == a;
    } else {
      var init := b[..|b| - 1];
      assert (a + b)[..|a + b| - 1] == a + init;
      assert (a + b)[|a + b| - 1] == b[|b| - 1];
      WithLeadingAppend(a, init, d);
    }
  }

  /**
   * The `[...list]`, pad-with-null while loop and `slice(0, n)` of
   * formatTeamStructure: exactly n slots, the first IDs of the list in
   * order, null after the list runs out.
   */
  method Fill(list: seq<int>, n: nat) returns (slots: seq<Option<int>>)
    ensures |slots| == n
    ensures forall i :: 0 <= i < n ==> slots[i] == if i < |list| then Some(list[i]) else None
  {
    var filled := seq(|list|, i requires 0 <= i < |list| => Some(list[i]));
    while |filled| < n
      invariant |filled| >= |list|
      invariant forall i :: 0 <= i < |filled| ==> filled[i] == if i < |list| then Some(list[i]) else None
      decreases n - |filled|
    {
      filled := filled + [None];
    }
    slots := filled[..n];
  }

  /**
   * formatTeamStructure: four striker slots (IDs starting "1") and two
   * special slots (IDs starting "2"), each list in team order, padded with
   * null or truncated; any other ID is dropped.
   */
  method FormatTeamStructure(teamIds: seq<int>) returns (strikers: seq<Option<int>>, specials: seq<Option<int>>)
    ensures |strikers| == 4 && |specials| == 2
    ensures forall i :: 0 <= i < 4 ==>
              strikers[i] == if i < |WithLeading(teamIds, 1)| then Some(WithLeading(teamIds, 1)[i]) else None
    ensures forall i :: 0 <= i < 2 ==>
              specials[i] == if i < |WithLeading(teamIds, 2)| then Some(WithLeading(teamIds, 2)[i]) else None
  {
    strikers := Fill(WithLeading(teamIds, 1), 4);
    specials := Fill(WithLeading(teamIds, 2), 2);
  }

  /**
   * Every shown avatar is a team member of the right kind, and a team with
   * at most four strikers and two specials shows all of them.
   */
  lemma FormatShowsTeam(teamIds: seq<int>, strikers: seq<Option<int>>, specials: seq<Option<int>>)
    requires |strikers| == 4 && |specials| == 2
    requires forall i :: 0 <= i < 4 ==>
               strikers[i] == if i < |WithLeading(teamIds, 1)| then Some(WithLeading(teamIds, 1)[i]) else None
    requires forall i :: 0 <= i < 2 ==>
               specials[i] == if i < |WithLeading(teamIds, 2)| then Some(WithLeading(teamIds, 2)[i]) else None
    ensures forall s :: s in strikers && s.Some? ==> s.value in teamIds && Leads(s.value, 1)
    ensures forall s :: s in specials && s.Some? ==> s.value in teamIds && Leads(s.value, 2)
    ensures |WithLeading(teamIds, 1)| <= 4 ==> forall x :: x in teamIds && Leads(x, 1) ==> Some(x) in strikers
    ensures |WithLeading(teamIds, 2)| <= 2 ==> forall x :: x in teamIds && Leads(x, 2) ==> Some(x) in specials
  {
    var st := WithLeading(teamIds, 1);
    var sp := WithLeading(teamIds, 2);
    forall s | s in strikers && s.Some? ensures s.value in teamIds && Leads(s.value, 1) {
      var i :| 0 <= i < 4 && strikers[i] == s;
      assert i < |st| && s.value == st[i];
      assert st[i] in st;
    }
    forall s | s in specials && s.Some? ensures s.value in teamIds && Leads(s.value, 2) {
      var i :| 0 <= i < 2 && specials[i] == s;
      assert i < |sp| && s.value == sp[i];
      assert sp[i] in sp;
    }
    if |st| <= 4 {
      forall x | x in teamIds && Leads(x, 1) ensures Some(x) in strikers {
        var i :| 0 <= i < |st| && st[i] == x;
        assert strikers[i] == Some(x);
      }
    }
    if |sp| <= 2 {
      forall x | x in teamIds && Leads(x, 2) ensures Some(x) in specials {
        var i :| 0 <= i < |sp| && sp[i] == x;
        assert specials[i] == Some(x);
      }
    }
  }

  /** The loadoutMap memo: the forEach writes map[entry.id] = entry, so the last entry per ID wins. */
  method LoadoutMap(loadouts: seq<Loadout.Entry>) returns (m: map<int, Loadout.Entry>)
    ensures m == Loadout.LookupOf(loadouts)
    ensures forall id :: id in m <==> exists j :: 0 <= j < |loadouts| && loadouts[j].id == id
    ensures forall j, id :: Loadout.LastListing(loadouts, j, id) ==> id in m && m[id] == loadouts[j]
  {
    m := map[];
    for i := 0 to |loadouts|
      invariant m == Loadout.LookupOf(loadouts[..i])
    {
      assert loadouts[..i + 1][..i] == loadouts[..i];
      m := m[loadouts[i].id := loadouts[i]];
    }
    assert loadouts[..|loadouts|] == loadouts;
    forall id ensures id in m <==> exists j :: 0 <= j < |loadouts| && loadouts[j].id == id {
      Loadout.LookupDomain(loadouts, id);
    }
    forall j, id | Loadout.LastListing(loadouts, j, id) ensures id in m && m[id] == loadouts[j] {
      Loadout.LookupLastWins(loadouts, j, id);
    }
  }

  /** The "low sample" warning: fewer than 30 battles. */
  predicate LowSample(total: int) {
    total < 30
  }

  /** The warning turns off exactly at 30 battles. */
  lemma LowSampleThreshold(total: int)
    ensures LowSample(total) <==> total <= 29
    ensures LowSample(29) && !LowSample(30)
  {
  }

  /** toggleDetailSelect on a set of loadout hashes. */
  function Toggle(selected: set<string>, hash: string): (r: set<string>)
    ensures hash in r <==> hash !in selected
    ensures forall h :: h != hash ==> (h in r <==> h in selected)
  {
    if hash in selected then selected - {hash} else selected + {hash}
  }

  /** Toggling the same hash twice restores the selection. */
  lemma ToggleTwice(selected: set<string>, hash: string)
    ensures Toggle(Toggle(selected, hash), hash) == selected
  {
    var once := Toggle(selected, hash);
    var twice := Toggle(once, hash);
    assert forall h :: h in twice <==> h in selected;
  }

  /** Prev button of the detail pager: Math.max(1, page - 1). */
  function PrevTarget(page: int): (p: int)
    ensures p >= 1 && (p == page - 1 || p == 1)
  {
    if page - 1 > 1 then page - 1 else 1
  }

  /** Next button of the detail pager: Math.min(totalPages, page + 1). */
  function NextTarget(page: int, totalPages: int): (p: int)
    ensures p <= totalPages && (p == page + 1 || p == totalPages)
  {
    if page + 1 < totalPages then page + 1 else totalPages
  }

  /**
   * From a page in range, both buttons land in range; an enabled prev
   * (page > 1) moves back one page and an enabled next (page < total)
   * forward one.
   */
  lemma PagerInRange(page: int, totalPages: int)
    requires 1 <= page <= totalPages
    ensures 1 <= PrevTarget(page) <= totalPages && 1 <= NextTarget(page, totalPages) <= totalPages
    ensures page > 1 ==> PrevTarget(page) == page - 1
    ensures page < totalPages ==> NextTarget(page, totalPages) == page + 1
  {
  }

  /** One entry of the detail delete request. */
  datatype DetailItem = DetailItem(server: string, season: int, tag: string, atkSig: string, defSig: string,
                                   loadoutHash: string)

  /** The entry for one selected hash, carrying the summary's key fields and `tag || ""`. */
  function DetailFor(summary: ArenaPage.Item, hash: string): (d: DetailItem)
    ensures d.loadoutHash == hash && d.atkSig == summary.atkSig && d.defSig == summary.defSig
    ensures d.server == summary.server && d.season == summary.season && d.tag == ArenaPage.TagText(summary.tag)
  {
    DetailItem(summary.server, summary.season, ArenaPage.TagText(summary.tag), summary.atkSig, summary.defSig, hash)
  }

  /** Array.from(selectedDetails).map(...): one entry per selected hash, in the set's iteration order. */
  method DetailItems(summary: ArenaPage.Item, hashes: set<string>) returns (items: seq<DetailItem>)
    ensures |items| == |hashes|
    ensures forall h :: h in hashes ==> DetailFor(summary, h) in items
    ensures forall i :: 0 <= i < |items| ==> items[i].loadoutHash in hashes && items[i] == DetailFor(summary, items[i].loadoutHash)
  {
    var f := h => DetailFor(summary, h);
    items := ArenaPage.MapSet(hashes, f);
    forall i | 0 <= i < |items|
      ensures items[i].loadoutHash in hashes && items[i] == DetailFor(summary, items[i].loadoutHash)
    {
      var h :| h in hashes && items[i] == f(h);
    }
  }

  /** What a click on the card does. */
  datatype Click =
    | CheckToggled(checked: bool)                  // admin Ctrl/Meta-click: only the check flips
    | Expansion(expanded: bool, fetch: bool)       // the card opens or closes; fetch loads detail page 1

  /** The expandable detail list of one card. */
  class DetailPanel {
    const summary: ArenaPage.Item
    var isExpanded: bool
    var hasLoadedDetail: bool
    var isLoadingDetail: bool
    var selectedDetails: set<string>
    var detailPage: int
    var detailTotalPages: int

    constructor (summary: ArenaPage.Item)
      ensures this.summary == summary
      ensures !isExpanded && !hasLoadedDetail && !isLoadingDetail && selectedDetails == {}
      ensures detailPage == 1 && detailTotalPages == 0
    {
      this.summary := summary;
      isExpanded := false;
      hasLoadedDetail := false;
      isLoadingDetail := false;
      selectedDetails := {};
      detailPage := 1;
      detailTotalPages := 0;
    }

    /**
     * handleCardClick: an admin's Ctrl/Meta-click only toggles the check;
     * any other click flips expansion and starts loading page 1 only when
     * the card opens for the first time and nothing is loading.
     */
    method CardClick(isAdmin: bool, modifier: bool, isChecked: bool) returns (r: Click)
      modifies this
      ensures isAdmin && modifier ==> r == CheckToggled(!isChecked) && isExpanded == old(isExpanded)
                                      && isLoadingDetail == old(isLoadingDetail)
      ensures !(isAdmin && modifier) ==>
                isExpanded == !old(isExpanded)
                && r == Expansion(isExpanded, isExpanded && !old(hasLoadedDetail) && !old(isLoadingDetail))
                && isLoadingDetail == (old(isLoadingDetail) || r.fetch)
      ensures hasLoadedDetail == old(hasLoadedDetail) && selectedDetails == old(selectedDetails)
      ensures detailPage == old(detailPage) && detailTotalPages == old(detailTotalPages)
    {
      if isAdmin && modifier {
        return CheckToggled(!isChecked);
      }
      var nextExpanded := !isExpanded;
      isExpanded := nextExpanded;
      var fetch := nextExpanded && !hasLoadedDetail && !isLoadingDetail;
      if fetch {
        isLoadingDetail := true;
      }
      r := Expansion(nextExpanded, fetch);
    }

    /**
     * loadDetails settling: on success the list is marked loaded, the
     * selection cleared and the page and page count (`totalPages || 0`)
     * taken over; loading ends either way.
     */
    method LoadSettled(page: int, totalPages: Option<int>, ok: bool)
      modifies this
      ensures !isLoadingDetail && isExpanded == old(isExpanded)
      ensures ok ==> hasLoadedDetail && selectedDetails == {} && detailPage == page
                     && detailTotalPages == (if totalPages.Some? then totalPages.value else 0)
      ensures !ok ==> hasLoadedDetail == old(hasLoadedDetail) && selectedDetails == old(selectedDetails)
                      && detailPage == old(detailPage) && detailTotalPages == old(detailTotalPages)
    {
      if ok {
        hasLoadedDetail := true;
        selectedDetails := {};
        detailPage := page;
        detailTotalPages := if totalPages.Some? then totalPages.value else 0;
      }
      isLoadingDetail := false;
    }

    /** toggleDetailSelect: flips that one hash. */
    method ToggleDetailSelect(hash: string)
      modifies this
      ensures selectedDetails == Toggle(old(selectedDetails), hash)
      ensures isExpanded == old(isExpanded) && isLoadingDetail == old(isLoadingDetail)
    {
      var next := selectedDetails;
      if hash in next {
        next := next - {hash};
      } else {
        next := next + {hash};
      }
      selectedDetails := next;
    }

    /**
     * handleDeleteDetails, once confirmed: nothing without a selection;
     * otherwise one entry per selected hash, and on success the selection
     * is cleared and the current page reloads.
     */
    method DeleteDetails(succeeded: bool) returns (sent: Option<seq<DetailItem>>)
      modifies this
      ensures old(selectedDetails) == {} <==> sent.None?
      ensures sent.Some? ==> |sent.value| == |old(selectedDetails)|
      ensures sent.Some? ==> forall h :: h in old(selectedDetails) ==> DetailFor(summary, h) in sent.value
      ensures sent.Some? ==> forall i :: 0 <= i < |sent.value| ==>
                sent.value[i].loadoutHash in old(selectedDetails) && sent.value[i] == DetailFor(summary, sent.value[i].loadoutHash)
      ensures selectedDetails == if sent.Some? && succeeded then {} else old(selectedDetails)
      ensures isLoadingDetail == (old(isLoadingDetail) || (sent.Some? && succeeded))
      ensures detailPage == old(detailPage)
    {
      if |selectedDetails| == 0 {
        return None;
      }
      var items := DetailItems(summary, selectedDetails);
      sent := Some(items);
      if succeeded {
        selectedDetails := {};
        isLoadingDetail := true;
      }
    }
  }
}
