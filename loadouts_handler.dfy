/**
 * The loadout endpoint of the Go backend (server/internal/handlers/loadouts.go):
 * guards on the request, the weapon-star rule on each loadout entry, and one
 * summary update and one detail update with the same deltas.
 */
module LoadoutsHandler {
  import opened Wrappers
  import Loadout
  import Team
  import StatsRepo

  /** LoadoutRequest; a null timestamp is None. */
  datatype LoadoutRequest = LoadoutRequest(server: string, season: int, tag: string,
                                           atkTeam: seq<int>, defTeam: seq<int>,
                                           atkLoadout: seq<Loadout.Entry>, defLoadout: seq<Loadout.Entry>,
                                           wins: int, losses: int, timestamp: Option<int>)

  /** A weapon star is only allowed on a starred student (loadouts.go:60). */
  predicate WellStarred(e: Loadout.Entry) {
    !(e.weaponStar > 0 && e.star <= 0)
  }

  predicate AllWellStarred(arr: seq<Loadout.Entry>) {
    forall i :: 0 <= i < |arr| ==> WellStarred(arr[i])
  }

  /** validateLoadout (loadouts.go:61-68): the scan stops at the first offending entry. */
  method ValidateLoadout(arr: seq<Loadout.Entry>) returns (ok: bool)
    ensures ok <==> AllWellStarred(arr)
    ensures !ok ==> exists i :: 0 <= i < |arr| && arr[i].weaponStar > 0 && arr[i].star <= 0
  {
    for i := 0 to |arr|
      invariant forall j :: 0 <= j < i ==> WellStarred(arr[j])
    {
      var e := arr[i];
      if e.weaponStar > 0 && e.star <= 0 {
        return false;
      }
    }
    return true;
  }

  /** The first guard that refuses the request, in the handler's order (loadouts.go:42-72). */
  function AddLoadoutError(req: LoadoutRequest): (e: Option<string>)
    ensures e.None? <==>
              req.season >= 1 && |req.atkTeam| > 0 && |req.defTeam| > 0
              && req.wins >= 0 && req.losses >= 0 && req.wins + req.losses != 0
              && AllWellStarred(req.atkLoadout) && AllWellStarred(req.defLoadout)
    ensures req.season < 1 ==> e == Some("Season must be positive")
    ensures req.season >= 1 && (|req.atkTeam| == 0 || |req.defTeam| == 0) ==> e == Some("Teams cannot be empty")
  {
    if req.season < 1 then Some("Season must be positive")
    else if |req.atkTeam| == 0 || |req.defTeam| == 0 then Some("Teams cannot be empty")
    else if req.wins < 0 || req.losses < 0 || req.wins + req.losses == 0 then Some("Wins/Losses invalid")
    else if !AllWellStarred(req.atkLoadout) || !AllWellStarred(req.defLoadout) then Some("weapon_star>0 requires star>0")
    else None
  }

  /** The request's timestamp when given, otherwise the clock (loadouts.go:55-58). */
  function TimestampOf(req: LoadoutRequest, now: int): (ts: int)
    ensures req.timestamp.Some? ==> ts == req.timestamp.value
    ensures req.timestamp.None? ==> ts == now
  {
    if req.timestamp.Some? then req.timestamp.value else now
  }

  function SummaryUpdateOf(req: LoadoutRequest, now: int): StatsRepo.StatsUpdate {
    StatsRepo.StatsUpdate(req.server, req.season, req.tag, req.atkTeam, req.defTeam,
                          req.wins, req.losses, TimestampOf(req, now))
  }

  function DetailUpdateOf(req: LoadoutRequest, now: int): (u: StatsRepo.DetailUpdate)
    ensures u.base == SummaryUpdateOf(req, now)
    ensures u.atkLoadout == req.atkLoadout && u.defLoadout == req.defLoadout
  {
    StatsRepo.DetailUpdate(SummaryUpdateOf(req, now), req.atkLoadout, req.defLoadout)
  }

  /**
   * An accepted request adds its battles to the summary row of its teams:
   * over valid rows, the row exists afterwards and its total and wins grew by
   * exactly the request's counts, as long as the grown total fits Go's
   * 64-bit int (StatsRepo.OverflowDropsRow shows what happens past it).
   */
  lemma AcceptedGrowsSummary(s: StatsRepo.SummaryTable, req: LoadoutRequest, now: int)
    requires AddLoadoutError(req).None? && StatsRepo.ValidTable(s)
    requires StatsRepo.RoomFor(s, StatsRepo.SummaryKeyOf(SummaryUpdateOf(req, now)), req.wins + req.losses)
    ensures var u := SummaryUpdateOf(req, now);
            var k := StatsRepo.SummaryKeyOf(u);
            var s2 := StatsRepo.ApplyStatsAll(s, [u]);
            k in s2
            && s2[k].counters.total == (if k in s then s[k].counters.total else 0) + req.wins + req.losses
            && s2[k].counters.wins == (if k in s then s[k].counters.wins else 0) + req.wins
  {
    var u := SummaryUpdateOf(req, now);
    StatsRepo.ApplyStatsSingle(s, u);
    var p := StatsRepo.Teams(Team.Normalized(u.atkTeam), Team.Normalized(u.defTeam));
    StatsRepo.UpsertAddsBattles(s, StatsRepo.SummaryKeyOf(u), p, req.wins, req.losses, u.timestamp);
  }

  /** The same for the detail row of its loadouts: both tables get the same deltas. */
  lemma AcceptedGrowsDetail(d: StatsRepo.DetailTable, req: LoadoutRequest, now: int, sha1: string -> Loadout.Digest)
    requires AddLoadoutError(req).None? && StatsRepo.ValidTable(d)
    requires StatsRepo.RoomFor(d, StatsRepo.DetailKeyOf(DetailUpdateOf(req, now), sha1), req.wins + req.losses)
    ensures var u := DetailUpdateOf(req, now);
            var k := StatsRepo.DetailKeyOf(u, sha1);
            var d2 := StatsRepo.ApplyDetailsAll(d, [u], sha1);
            k in d2
            && d2[k].counters.total == (if k in d then d[k].counters.total else 0) + req.wins + req.losses
            && d2[k].counters.wins == (if k in d then d[k].counters.wins else 0) + req.wins
  {
    var u := DetailUpdateOf(req, now);
    StatsRepo.ApplyDetailSingle(d, u, sha1);
    StatsRepo.UpsertAddsBattles(d, StatsRepo.DetailKeyOf(u, sha1), StatsRepo.DetailPayload(u),
                                req.wins, req.losses, u.base.timestamp);
  }

  /** LoadoutHandler: the aggregate tables. */
  class LoadoutHandler {
    const repo: StatsRepo.StatsRepository

    constructor(repo: StatsRepo.StatsRepository)
      ensures this.repo == repo
    {
      this.repo := repo;
    }

    /**
     * AddLoadout: a refused request changes nothing; an accepted one applies
     * the summary update and then the detail update, with the same deltas and
     * timestamp.
     */
    method AddLoadout(req: LoadoutRequest, now: int) returns (r: Result<(), string>)
      requires repo.Valid()
      modifies repo`summaries, repo`details
      ensures repo.Valid()
      ensures AddLoadoutError(req).Some? ==>
                r == Err(AddLoadoutError(req).value)
                && repo.summaries == old(repo.summaries) && repo.details == old(repo.details)
      ensures AddLoadoutError(req).None? ==>
                r == Ok(())
                && repo.summaries == StatsRepo.ApplyStatsAll(old(repo.summaries), [SummaryUpdateOf(req, now)])
                && repo.details == StatsRepo.ApplyDetailsAll(old(repo.details), [DetailUpdateOf(req, now)], repo.sha1)
    {
      if req.season < 1 {
        return Err("Season must be positive");
      }
      if |req.atkTeam| == 0 || |req.defTeam| == 0 {
        return Err("Teams cannot be empty");
      }
      if req.wins < 0 || req.losses < 0 || req.wins + req.losses == 0 {
        return Err("Wins/Losses invalid");
      }
      var ts := now;
      if req.timestamp.Some? {
        ts := req.timestamp.value;
      }
      var atkOk := ValidateLoadout(req.atkLoadout);
      var defOk := true;
      if atkOk {
        defOk := ValidateLoadout(req.defLoadout);
      }
      if !atkOk || !defOk {
        return Err("weapon_star>0 requires star>0");
      }
      var detailUpdate := StatsRepo.DetailUpdate(
        StatsRepo.StatsUpdate(req.server, req.season, req.tag, req.atkTeam, req.defTeam, req.wins, req.losses, ts),
        req.atkLoadout, req.defLoadout);
      var update := StatsRepo.StatsUpdate(req.server, req.season, req.tag, req.atkTeam, req.defTeam,
                                          req.wins, req.losses, ts);
      var _ := repo.BatchUpsertStats([update]);
      var _ := repo.BatchUpsertDetails([detailUpdate]);
      r := Ok(());
    }
  }
}
