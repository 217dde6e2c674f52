/**
 * The statistics handlers of the Go backend (server/internal/handlers/stats.go):
 * the response items and page count of the listing endpoints, the admin's
 * manual entry, and the two delete endpoints.
 */
module StatsHandler {
  import opened Wrappers
  import Loadout
  import StatsRepo
  import Submissions
  import Decimal

  /** The exact page count: the fewest pages of `limit` rows that hold `total` rows. */
  function CeilPages(total: nat, limit: nat): (pages: nat)
    requires limit > 0
    ensures (pages - 1) * limit < total <= pages * limit || (total == 0 && pages == 0)
  {
    (total + limit - 1) / limit
  }

  /**
   * totalPages of both listings (stats.go:94-97 and 170-173):
   * `(total + int64(req.Limit) - 1) / int64(req.Limit)` for a positive
   * limit, 0 otherwise. The row count is an int64 and the limit a uint64,
   * so the conversion, both sums and the truncating division follow Go's
   * 64-bit arithmetic.
   */
  function TotalPages(total: nat, limit: nat): (pages: int)
    requires total <= Decimal.MaxInt64 && limit < Decimal.Two64
    ensures Decimal.MinInt64 <= pages <= Decimal.MaxInt64
    ensures limit == 0 ==> pages == 0
    ensures 0 < limit <= Decimal.MaxInt64 && total + limit - 1 <= Decimal.MaxInt64 ==>
              pages == CeilPages(total, limit)
  {
    if limit > 0 then
      Decimal.Wrap64OfUnsigned(limit);
      var l := Decimal.Wrap64(limit);
      Decimal.Wrap64(Decimal.GoQuo(Decimal.Wrap64(Decimal.Wrap64(total + l) - 1), l))
    else 0
  }

  /** No fewer pages of `limit` rows hold `total` rows than the exact page count. */
  lemma CeilPagesLeast(total: nat, limit: nat, p: nat)
    requires limit > 0 && p * limit >= total
    ensures CeilPages(total, limit) <= p
  {
    var q := CeilPages(total, limit);
    if total > 0 {
      LessByFactor(q - 1, p, limit);
    }
  }

  /**
   * Where no sum wraps, the page count is the least number of pages of
   * `limit` rows that hold `total` rows.
   */
  lemma TotalPagesLeast(total: nat, limit: nat, p: nat)
    requires 0 < limit <= Decimal.MaxInt64 && total + limit - 1 <= Decimal.MaxInt64
    requires p * limit >= total
    ensures TotalPages(total, limit) <= p
  {
    CeilPagesLeast(total, limit, p);
  }

  /**
   * A limit of MaxInt64 makes `total + limit - 1` wrap negative, so five
   * rows report 0 pages; a limit of 2^64 - 1 converts to -1, so a hundred
   * rows report -98 pages.
   */
  lemma TotalPagesWraps()
    ensures TotalPages(5, Decimal.MaxInt64) == 0
    ensures TotalPages(100, Decimal.Two64 - 1) == -98
  {
    assert Decimal.Wrap64(5 + Decimal.MaxInt64) == Decimal.MinInt64 + 4;
    assert Decimal.Wrap64(Decimal.Two64 - 1) == -1;
  }

  lemma LessByFactor(a: int, b: int, c: int)
    requires c > 0 && a * c < b * c
    ensures a < b
  {
    assert (b - a) * c == b * c - a * c;
  }

  /** One row of the listing query: the row's key and its stored columns. */
  datatype SummaryRow = SummaryRow(key: StatsRepo.SummaryKey, row: StatsRepo.Row<StatsRepo.Teams>)

  /** SummaryResponseItem without the floating-point columns. */
  datatype SummaryItem = SummaryItem(server: string, season: int, tag: string,
                                     attackingTeam: seq<int>, defendingTeam: seq<int>,
                                     total: int, wins: int, losses: int, lastSeen: int,
                                     atkSig: string, defSig: string)

  /**
   * The loop of GetSummaries that fills respData by index (stats.go:69-92):
   * one item per row, in order, with the row's own fields and
   * losses = total - wins.
   */
  method ResponseItems(rows: seq<SummaryRow>) returns (items: seq<SummaryItem>)
    ensures |items| == |rows|
    ensures forall i :: 0 <= i < |rows| ==>
              var r := rows[i];
              items[i].server == r.key.server && items[i].season == r.key.season && items[i].tag == r.key.tag
              && items[i].atkSig == r.key.atkSig && items[i].defSig == r.key.defSig
              && items[i].attackingTeam == r.row.payload.atkTeam && items[i].defendingTeam == r.row.payload.defTeam
              && items[i].total == r.row.counters.total && items[i].wins == r.row.counters.wins
              && items[i].lastSeen == r.row.counters.lastSeen
              && items[i].wins + items[i].losses == items[i].total
    ensures forall i :: 0 <= i < |rows| && StatsRepo.ValidCounters(rows[i].row.counters) ==>
              0 <= items[i].losses <= items[i].total
  {
    var respData := new SummaryItem[|rows|];
    for i := 0 to |rows|
      invariant forall j :: 0 <= j < i ==>
                  var r := rows[j];
                  respData[j] == SummaryItem(r.key.server, r.key.season, r.key.tag,
                                             r.row.payload.atkTeam, r.row.payload.defTeam,
                                             r.row.counters.total, r.row.counters.wins,
                                             r.row.counters.total - r.row.counters.wins,
                                             r.row.counters.lastSeen, r.key.atkSig, r.key.defSig)
    {
      var row := rows[i];
      respData[i] := SummaryItem(row.key.server, row.key.season, row.key.tag,
                                 row.row.payload.atkTeam, row.row.payload.defTeam,
                                 row.row.counters.total, row.row.counters.wins,
                                 row.row.counters.total - row.row.counters.wins,
                                 row.row.counters.lastSeen, row.key.atkSig, row.key.defSig);
    }
    items := respData[..];
  }

  /** ManualAddRequest. */
  datatype ManualAddRequest = ManualAddRequest(server: string, season: int, tag: string,
                                               atkTeam: seq<int>, defTeam: seq<int>,
                                               wins: int, losses: int,
                                               atkLoadout: seq<Loadout.Entry>, defLoadout: seq<Loadout.Entry>)

  /** The first guard of ManualAdd that refuses the request, in the handler's order (stats.go:190-201). */
  function ManualAddError(req: ManualAddRequest): (e: Option<string>)
    ensures e.None? <==> req.season >= 1 && req.wins >= 0 && req.losses >= 0 && req.wins + req.losses > 0
    ensures req.season < 1 ==> e == Some("Season must be positive")
  {
    if req.season < 1 then Some("Season must be positive")
    else if req.wins < 0 || req.losses < 0 then Some("Counts cannot be negative")
    else if req.wins == 0 && req.losses == 0 then Some("Action required")
    else None
  }

  /** The history row an accepted manual entry records: approved, with the admin's note. */
  function ManualSubmission(req: ManualAddRequest, now: int): Submissions.Submission {
    Submissions.Submission(req.server, req.season, req.tag, req.atkTeam, req.defTeam,
                           req.atkLoadout, req.defLoadout, req.wins, req.losses,
                           "Admin Manual Entry", None, Submissions.Approved, now)
  }

  /**
   * An accepted manual entry is an approval that can be undone: reverting
   * the recorded submission restores both tables' counts, as long as the
   * grown totals fit Go's 64-bit int.
   */
  lemma ManualAddRevertible(s: StatsRepo.SummaryTable, d: StatsRepo.DetailTable, req: ManualAddRequest,
                            now: int, later: int, sha1: string -> Loadout.Digest)
    requires ManualAddError(req).None? && StatsRepo.ValidTable(s) && StatsRepo.ValidTable(d)
    requires var sub := ManualSubmission(req, now);
             StatsRepo.RoomFor(s, StatsRepo.SummaryKeyOf(Submissions.StatsUpdateOf(sub, 1, now)), req.wins + req.losses)
             && StatsRepo.RoomFor(d, StatsRepo.DetailKeyOf(Submissions.DetailUpdateOf(sub, 1, now), sha1), req.wins + req.losses)
    ensures var sub := ManualSubmission(req, now);
            var t := Submissions.Transition(sub.status, "revert");
            t == Ok((Submissions.Pending, -1))
            && StatsRepo.SameCounts(Submissions.SummariesAfter(Submissions.SummariesAfter(s, sub, 1, now), sub, -1, later), s)
            && StatsRepo.SameCounts(Submissions.DetailsAfter(Submissions.DetailsAfter(d, sub, 1, now, sha1), sub, -1, later, sha1), d)
  {
    var sub := ManualSubmission(req, now);
    Submissions.ApproveThenRevertSummaries(s, sub.(status := Submissions.Pending), now, later);
    assert Submissions.StatsUpdateOf(sub.(status := Submissions.Pending), 1, now) == Submissions.StatsUpdateOf(sub, 1, now);
    assert Submissions.StatsUpdateOf(sub.(status := Submissions.Pending), -1, later) == Submissions.StatsUpdateOf(sub, -1, later);
    Submissions.ApproveThenRevertDetails(d, sub, now, later, sha1);
  }

  /** StatsHandler: the aggregate tables, and the submissions table that ManualAdd writes to. */
  class StatsHandler {
    const table: Submissions.SubmissionTable
    const repo: StatsRepo.StatsRepository

    ghost predicate Valid()
      reads table, repo
    {
      table.Valid() && repo.Valid()
    }

    constructor(table: Submissions.SubmissionTable, repo: StatsRepo.StatsRepository)
      ensures this.table == table && this.repo == repo
    {
      this.table := table;
      this.repo := repo;
    }

    /**
     * ManualAdd: a refused request writes nothing; an accepted one records an
     * approved submission and applies the same deltas to the summary and the
     * detail table, in one transaction.
     */
    method ManualAdd(req: ManualAddRequest, now: int) returns (r: Result<(), string>)
      requires Valid()
      modifies table, repo`summaries, repo`details
      ensures Valid()
      ensures ManualAddError(req).Some? ==>
                r == Err(ManualAddError(req).value)
                && table.rows == old(table.rows) && table.nextId == old(table.nextId)
                && repo.summaries == old(repo.summaries) && repo.details == old(repo.details)
      ensures ManualAddError(req).None? ==>
                var sub := ManualSubmission(req, now);
                r == Ok(())
                && table.rows == old(table.rows)[old(table.nextId) := sub]
                && repo.summaries == Submissions.SummariesAfter(old(repo.summaries), sub, 1, now)
                && repo.details == Submissions.DetailsAfter(old(repo.details), sub, 1, now, repo.sha1)
    {
      if req.season < 1 {
        return Err("Season must be positive");
      }
      if req.wins < 0 || req.losses < 0 {
        return Err("Counts cannot be negative");
      }
      if req.wins == 0 && req.losses == 0 {
        return Err("Action required");
      }
      var sub := ManualSubmission(req, now);
      var _ := table.Create(sub);
      var updateItem := StatsRepo.StatsUpdate(req.server, req.season, req.tag, req.atkTeam, req.defTeam,
                                              req.wins, req.losses, now);
      var detailUpdate := StatsRepo.DetailUpdate(updateItem, req.atkLoadout, req.defLoadout);
      assert updateItem == Submissions.StatsUpdateOf(sub, 1, now);
      assert detailUpdate == Submissions.DetailUpdateOf(sub, 1, now);
      var _ := repo.BatchUpsertStats([updateItem]);
      var _ := repo.BatchUpsertDetails([detailUpdate]);
      r := Ok(());
    }

    /** DeleteSummaryDetails: an empty list is refused; otherwise the repository deletes and recalculates. */
    method DeleteSummaryDetails(items: seq<StatsRepo.DetailKey>) returns (r: Result<int, string>)
      requires Valid()
      modifies repo`summaries, repo`details
      ensures Valid()
      ensures items == [] <==> r == Err("Items cannot be empty")
      ensures items == [] ==> repo.summaries == old(repo.summaries) && repo.details == old(repo.details)
      ensures items != [] ==>
                r.Ok? && r.value == |old(repo.details).Keys * StatsRepo.ItemSet(items)|
                && repo.details == old(repo.details) - StatsRepo.ItemSet(items)
                && forall g :: g in StatsRepo.GroupsOf(items) ==> StatsRepo.Recalculated(repo.summaries, repo.details, g)
    {
      if |items| == 0 {
        return Err("Items cannot be empty");
      }
      var count := repo.DeleteDetailsAndRecalc(items);
      r := Ok(count);
    }

    /** DeleteSummary: removes the one summary row; the count is 1 if it existed. */
    method DeleteSummary(key: StatsRepo.SummaryKey) returns (count: int)
      requires Valid()
      modifies repo`summaries
      ensures Valid()
      ensures repo.summaries == old(repo.summaries) - {key}
      ensures count == if key in old(repo.summaries) then 1 else 0
    {
      count := repo.DeleteSummary(key);
    }
  }
}
