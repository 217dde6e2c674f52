/**
 * The arena_stats table of the Python backend (server/app/crud.py).
 * batch_upsert_stats locates each row by the strict (input-order)
 * signatures and applies the same counter rules as the Go repository: add
 * the deltas, delete the row when the total falls to zero or below, clamp
 * the wins, and move last_seen forward only on a positive delta.
 * get_filtered_summaries is modelled by the choices it makes: the offset,
 * which filters apply, and the ORDER BY column and direction.
 */
module Crud {
  import opened Wrappers
  import Text
  import Team
  import PyUtils
  import StatsRepo

  /** The columns written besides the key and the counters. */
  datatype Payload = Payload(atkSmart: string, defSmart: string, atkTeam: seq<int>, defTeam: seq<int>)

  type ArenaStats = map<StatsRepo.SummaryKey, StatsRepo.Row<Payload>>

  /** The smart signature generate_signatures gives a team of integers. */
  function SmartOf(team: seq<int>): (s: string)
    ensures PyUtils.GenerateSignatures(team).1 == Ok(s)
    ensures s == Team.Signature(team)
  {
    PyUtils.SmartSigAgreesWithGo(team);
    Team.Signature(team)
  }

  /** The row an item addresses: server, season, tag and both strict signatures. */
  function KeyOf(item: StatsRepo.StatsUpdate): (k: StatsRepo.SummaryKey)
    ensures k.atkSig == PyUtils.GenerateSignatures(item.atkTeam).0
    ensures k.defSig == PyUtils.GenerateSignatures(item.defTeam).0
  {
    StatsRepo.SummaryKey(item.server, item.season, item.tag, Team.JoinIds(item.atkTeam), Team.JoinIds(item.defTeam))
  }

  function PayloadOf(item: StatsRepo.StatsUpdate): Payload {
    Payload(SmartOf(item.atkTeam), SmartOf(item.defTeam), item.atkTeam, item.defTeam)
  }

  /** The table after one item of batch_upsert_stats. */
  function ApplyItem(t: ArenaStats, item: StatsRepo.StatsUpdate): ArenaStats {
    StatsRepo.Upsert(StatsRepo.Exact, t, KeyOf(item), PayloadOf(item), item.winsDelta, item.lossesDelta, item.timestamp)
  }

  /** The table after a batch, items applied in order. */
  function ApplyAll(t: ArenaStats, items: seq<StatsRepo.StatsUpdate>): ArenaStats {
    if items == [] then t
    else ApplyItem(ApplyAll(t, items[..|items| - 1]), items[|items| - 1])
  }

  lemma ApplyAllStep(t: ArenaStats, items: seq<StatsRepo.StatsUpdate>, i: nat)
    requires i < |items|
    ensures ApplyAll(t, items[..i + 1]) == ApplyItem(ApplyAll(t, items[..i]), items[i])
    ensures StatsRepo.Counted(StatsRepo.Exact, items[..i + 1]) == StatsRepo.Counted(StatsRepo.Exact, items[..i]) + (if StatsRepo.TotalDelta(StatsRepo.Exact, items[i]) == 0 then 0 else 1)
  {
    assert items[..i + 1][..i] == items[..i];
  }

  /**
   * The counters computed by the loop body of batch_upsert_stats: the new
   * total, wins and last_seen, then None for the DELETE branch or the
   * clamped counters of the INSERT OR REPLACE.
   */
  method NewCounters(existing: Option<StatsRepo.Counters>, item: StatsRepo.StatsUpdate)
      returns (r: Option<StatsRepo.Counters>)
    ensures r == StatsRepo.Step(StatsRepo.Exact, existing, item.winsDelta, item.lossesDelta, item.timestamp)
  {
    var totalDelta := item.winsDelta + item.lossesDelta;
    var newTotal, newWins, newLastSeen;
    if existing.Some? {
      var row := existing.value;
      newTotal := row.total + totalDelta;
      newWins := row.wins + item.winsDelta;
      newLastSeen := if totalDelta > 0 then Max(row.lastSeen, item.timestamp) else row.lastSeen;
    } else {
      newTotal := totalDelta;
      newWins := item.winsDelta;
      newLastSeen := item.timestamp;
    }
    if newTotal <= 0 {
      return None;
    }
    if newWins < 0 {
      newWins := 0;
    }
    if newWins > newTotal {
      newWins := newTotal;
    }
    r := Some(StatsRepo.Counters(newTotal, newWins, newLastSeen));
  }

  /** A non-zero delta deletes the row or replaces it, as the step on its counters says. */
  lemma UpsertByStep<K, P>(t: map<K, StatsRepo.Row<P>>, k: K, p: P, w: int, l: int, ts: int, c: Option<StatsRepo.Counters>)
    requires w + l != 0
    requires c == StatsRepo.Step(StatsRepo.Exact, if k in t then Some(t[k].counters) else None, w, l, ts)
    ensures StatsRepo.Upsert(StatsRepo.Exact, t, k, p, w, l, ts) == if c.None? then t - {k} else t[k := StatsRepo.Row(p, c.value)]
  {
  }

  /** The arena_stats table behind a connection. */
  class ArenaStatsDb {
    var rows: ArenaStats

    ghost predicate Valid()
      reads this
    {
      StatsRepo.ValidTable(rows)
    }

    constructor ()
      ensures Valid() && rows == map[]
    {
      rows := map[];
    }

    /**
     * One pass of the loop of batch_upsert_stats for an item with a
     * non-zero delta: the lookup by strict signatures, the new counters,
     * then the DELETE or the clamped INSERT OR REPLACE.
     */
    method UpsertItem(item: StatsRepo.StatsUpdate)
      requires StatsRepo.TotalDelta(StatsRepo.Exact, item) != 0
      modifies this
      ensures rows == ApplyItem(old(rows), item)
    {
      var key, payload := KeyOf(item), PayloadOf(item);
      var existing := if key in rows then Some(rows[key].counters) else None;
      var counters := NewCounters(existing, item);
      UpsertByStep(rows, key, payload, item.winsDelta, item.lossesDelta, item.timestamp, counters);
      if counters.None? {
        rows := rows - {key};
      } else {
        rows := rows[key := StatsRepo.Row(payload, counters.value)];
      }
    }

    /** crud.py batch_upsert_stats: applies the items in order and counts those with a non-zero delta. */
    method BatchUpsertStats(updates: seq<StatsRepo.StatsUpdate>) returns (count: nat)
      requires Valid()
      modifies this
      ensures Valid()
      ensures rows == ApplyAll(old(rows), updates)
      ensures count == StatsRepo.Counted(StatsRepo.Exact, updates)
    {
      count := 0;
      ghost var start := rows;
      for i := 0 to |updates|
        invariant rows == ApplyAll(start, updates[..i])
        invariant count == StatsRepo.Counted(StatsRepo.Exact, updates[..i])
        invariant Valid()
      {
        ApplyAllStep(start, updates, i);
        var item := updates[i];
        if item.winsDelta + item.lossesDelta == 0 {
          StatsRepo.UpsertZero(StatsRepo.Exact, rows, KeyOf(item), PayloadOf(item), item.winsDelta, item.lossesDelta, item.timestamp);
          continue;
        }
        StatsRepo.UpsertValid(StatsRepo.Exact, rows, KeyOf(item), PayloadOf(item), item.winsDelta, item.lossesDelta, item.timestamp);
        UpsertItem(item);
        count := count + 1;
      }
      assert updates[..|updates|] == updates;
    }
  }

  function Max(a: int, b: int): int {
    if a >= b then a else b
  }

  // ---------------------------------------------------------------------
  // Properties of the batch

  /** Every row of the table after a batch satisfies total > 0 and 0 <= wins <= total. */
  lemma {:induction false} ApplyAllValid(t: ArenaStats, items: seq<StatsRepo.StatsUpdate>)
    requires StatsRepo.ValidTable(t)
    ensures StatsRepo.ValidTable(ApplyAll(t, items))
  {
    if items != [] {
      var n := |items| - 1;
      ApplyAllValid(t, items[..n]);
      var item := items[n];
      StatsRepo.UpsertValid(StatsRepo.Exact, ApplyAll(t, items[..n]), KeyOf(item), PayloadOf(item), item.winsDelta, item.lossesDelta, item.timestamp);
    }
  }

  /**
   * Rows are located by the strict signatures: two teams with the same IDs
   * in a different order address different rows, while the stored smart
   * signatures are equal.
   */
  lemma StrictKeysSeparateOrders(a: StatsRepo.StatsUpdate, b: StatsRepo.StatsUpdate)
    requires a.server == b.server && a.season == b.season && a.tag == b.tag && a.defTeam == b.defTeam
    requires a.atkTeam != b.atkTeam
    requires Team.Normalized(a.atkTeam) == Team.Normalized(b.atkTeam)
    ensures KeyOf(a) != KeyOf(b)
    ensures PayloadOf(a).atkSmart == PayloadOf(b).atkSmart
  {
    if Team.JoinIds(a.atkTeam) == Team.JoinIds(b.atkTeam) {
      Team.JoinIdsInjective(a.atkTeam, b.atkTeam);
    }
  }

  /**
   * One item's effect on its own row: the deltas are added to an existing
   * row (or start an absent one), the row is removed when the total falls
   * to zero or below, the wins are clamped into [0, total], and last_seen
   * becomes max(old, ts) on a positive delta and is otherwise kept.
   */
  lemma ApplyItemAtKey(t: ArenaStats, item: StatsRepo.StatsUpdate)
    requires StatsRepo.TotalDelta(StatsRepo.Exact, item) != 0
    ensures var r := ApplyItem(t, item);
            var k := KeyOf(item);
            var newTotal := (if k in t then t[k].counters.total else 0) + StatsRepo.TotalDelta(StatsRepo.Exact, item);
            var newWins := (if k in t then t[k].counters.wins else 0) + item.winsDelta;
            (k in r <==> newTotal > 0)
            && (k in r ==> r[k].payload == PayloadOf(item)
                           && r[k].counters.total == newTotal
                           && r[k].counters.wins == StatsRepo.Clamp(newWins, newTotal)
                           && r[k].counters.lastSeen ==
                                (if k !in t then item.timestamp
                                 else if StatsRepo.TotalDelta(StatsRepo.Exact, item) > 0 then Max(t[k].counters.lastSeen, item.timestamp)
                                 else t[k].counters.lastSeen))
  {
    UpsertOwnRow(t, KeyOf(item), PayloadOf(item), item.winsDelta, item.lossesDelta, item.timestamp);
  }

  /** ApplyItemAtKey for any key and payload type. */
  lemma UpsertOwnRow<K, P>(t: map<K, StatsRepo.Row<P>>, k: K, p: P, w: int, l: int, ts: int)
    requires w + l != 0
    ensures var r := StatsRepo.Upsert(StatsRepo.Exact, t, k, p, w, l, ts);
            var newTotal := (if k in t then t[k].counters.total else 0) + (w + l);
            var newWins := (if k in t then t[k].counters.wins else 0) + w;
            (k in r <==> newTotal > 0)
            && (k in r ==> r[k].payload == p
                           && r[k].counters.total == newTotal
                           && r[k].counters.wins == StatsRepo.Clamp(newWins, newTotal)
                           && r[k].counters.lastSeen ==
                                (if k !in t then ts
                                 else if w + l > 0 then Max(t[k].counters.lastSeen, ts)
                                 else t[k].counters.lastSeen))
  {
    StatsRepo.UpsertAtKey(StatsRepo.Exact, t, k, p, w, l, ts);
  }

  /** An item touches only the row it addresses. */
  lemma ApplyItemFrame(t: ArenaStats, item: StatsRepo.StatsUpdate, other: StatsRepo.SummaryKey)
    requires other != KeyOf(item)
    ensures var r := ApplyItem(t, item);
            (other in r <==> other in t) && (other in t ==> r[other] == t[other])
  {
    StatsRepo.UpsertFrame(StatsRepo.Exact, t, KeyOf(item), PayloadOf(item), item.winsDelta, item.lossesDelta, item.timestamp, other);
  }

  /** A zero-delta item leaves the table as it was. */
  lemma ApplyItemZero(t: ArenaStats, item: StatsRepo.StatsUpdate)
    requires StatsRepo.TotalDelta(StatsRepo.Exact, item) == 0
    ensures ApplyItem(t, item) == t
  {
    StatsRepo.UpsertZero(StatsRepo.Exact, t, KeyOf(item), PayloadOf(item), item.winsDelta, item.lossesDelta, item.timestamp);
  }

  // ---------------------------------------------------------------------
  // get_filtered_summaries: paging and ordering choices

  /** The ORDER BY expression, per aggregation mode. */
  datatype SortKey = TotalBattles | LastSeen | WinRate | WilsonScore

  /** The parts of the listing query that select and order rows. */
  datatype Listing = Listing(offset: int, limit: int, serverFilter: Option<string>, seasonFilter: Option<int>,
                             tagFilter: Option<string>, sortKey: SortKey, ascending: bool)

  /** The query parameters that decide the listing. */
  datatype ListingRequest = ListingRequest(page: int, limit: int, server: string, season: Option<int>,
                                           sort: string, ignoreSpecials: bool, tag: Option<string>)

  /** The column chosen for a sort option; "composite" falls back to the win-rate expression when aggregating. */
  function SortKeyOf(sort: string, ignoreSpecials: bool): SortKey {
    if sort == "newest" then LastSeen
    else if Text.Contains(sort, "win_rate") then WinRate
    else if sort == "composite" then (if ignoreSpecials then WinRate else WilsonScore)
    else TotalBattles
  }

  /** The choices get_filtered_summaries makes for a request. */
  function ListingOf(req: ListingRequest): (l: Listing)
    ensures l.offset == (req.page - 1) * req.limit && l.limit == req.limit
    ensures l.serverFilter.None? <==> req.server == "all"
    ensures l.serverFilter.Some? ==> l.serverFilter.value == req.server
    ensures l.seasonFilter.Some? <==> req.season.Some? && req.season.value != 0
    ensures l.tagFilter == req.tag
    ensures l.ascending <==> Text.Contains(req.sort, "asc")
  {
    Listing((req.page - 1) * req.limit, req.limit,
            if req.server != "all" then Some(req.server) else None,
            if req.season.Some? && req.season.value != 0 then req.season else None,
            req.tag,
            SortKeyOf(req.sort, req.ignoreSpecials),
            Text.Contains(req.sort, "asc"))
  }

  /** Whether a row's key passes the server, season and tag filters of a listing. */
  predicate Passes(k: StatsRepo.SummaryKey, l: Listing) {
    (l.serverFilter.None? || k.server == l.serverFilter.value)
    && (l.seasonFilter.None? || k.season == l.seasonFilter.value)
    && (l.tagFilter.None? || k.tag == l.tagFilter.value)
  }

  /** Listing "all" servers ignores the server of a row; any other server keeps only its own rows. */
  lemma ServerAllIgnoresServer(req: ListingRequest, k: StatsRepo.SummaryKey, server: string)
    requires req.server == "all"
    ensures Passes(k, ListingOf(req)) == Passes(k.(server := server), ListingOf(req))
  {
  }

  /** The listing of page p + 1 starts where the listing of page p ends. */
  lemma ConsecutivePages(req: ListingRequest)
    ensures ListingOf(req.(page := req.page + 1)).offset == ListingOf(req).offset + req.limit
  {
  }

  /** A string missing the first character of a non-empty word does not contain it. */
  lemma NotContains(s: string, sub: string)
    requires |sub| >= 1 && sub[0] !in s
    ensures !Text.Contains(s, sub)
  {
  }

  /**
   * The sort options of the client map to their columns: "newest" to
   * last_seen, any option naming win_rate to the win-rate expression,
   * "composite" to wilson_score (the win-rate expression when aggregating),
   * anything else to the battle total; and the direction test is case
   * sensitive.
   */
  lemma SortChoices()
    ensures SortKeyOf("newest", false) == LastSeen
    ensures SortKeyOf("win_rate_desc", false) == WinRate && SortKeyOf("win_rate_asc", true) == WinRate
    ensures SortKeyOf("composite", false) == WilsonScore && SortKeyOf("composite", true) == WinRate
    ensures SortKeyOf("default", true) == TotalBattles
    ensures ListingOf(ListingRequest(1, 20, "global", None, "win_rate_asc", false, None)).ascending
    ensures !ListingOf(ListingRequest(1, 20, "global", None, "ASC", false, None)).ascending
  {
    assert Text.OccursAt("win_rate_desc", "win_rate", 0);
    assert Text.OccursAt("win_rate_asc", "win_rate", 0);
    assert Text.OccursAt("win_rate_asc", "asc", 9);
    NotContains("composite", "win_rate");
    NotContains("default", "win_rate");
    NotContains("ASC", "asc");
  }
}
