/**
 * The submission handlers of the Go backend (server/internal/handlers/submissions.go):
 * the JSON upload that folds battle records into one summary update per
 * aggregation key, the creation of a pending submission, and the
 * approve / reject / revert state machine with its effect on the aggregate
 * tables. The database is two objects: the submissions table below and the
 * StatsRepository of StatsRepo.
 */
module Submissions {
  import opened Wrappers
  import Text
  import Decimal
  import Team
  import Loadout
  import StatsRepo

  // ---------------------------------------------------------------------
  // Upload aggregation (submissions.go:48-153)

  /** One element of the uploaded JSON array. */
  datatype UploadRecord = UploadRecord(server: string, season: int, tag: string,
                                       attackingTeamIds: seq<int>, defendingTeamIds: seq<int>,
                                       win: bool, time: string)

  datatype AggKey = AggKey(server: string, tag: string, season: int, atkSig: string, defSig: string)

  datatype AggVal = AggVal(wins: int, losses: int, timestamp: int, atkTeam: seq<int>, defTeam: seq<int>)

  type Aggregation = map<AggKey, AggVal>

  /**
   * What a record falls back on: the form's default server, the default
   * season as strconv.Atoi reads it with its error discarded, the clock, and
   * time.Parse tried with RFC 3339 and then with "2006-01-02T15:04:05",
   * giving Unix seconds.
   */
  datatype UploadContext = UploadContext(defaultServer: string, defaultSeason: int, now: int,
                                         parseTime: string -> Option<int>)

  function ContextOf(defaultServer: string, defaultSeason: string, now: int,
                     parseTime: string -> Option<int>): UploadContext {
    UploadContext(defaultServer, Decimal.AtoiValue(defaultSeason), now, parseTime)
  }

  predicate Accepted(row: UploadRecord) {
    |row.attackingTeamIds| > 0 && |row.defendingTeamIds| > 0
  }

  function ServerOf(row: UploadRecord, ctx: UploadContext): string {
    var server := Text.ToLower(row.server);
    if server == "" then ctx.defaultServer else server
  }

  function SeasonOf(row: UploadRecord, ctx: UploadContext): int {
    if row.season == 0 then ctx.defaultSeason else row.season
  }

  function TimeOf(row: UploadRecord, ctx: UploadContext): int {
    if row.time != "" && ctx.parseTime(row.time).Some? then ctx.parseTime(row.time).value else ctx.now
  }

  function KeyOf(row: UploadRecord, ctx: UploadContext): AggKey {
    AggKey(ServerOf(row, ctx), row.tag, SeasonOf(row, ctx),
           Team.Signature(row.attackingTeamIds), Team.Signature(row.defendingTeamIds))
  }

  /** What one accepted record contributes: its key, its outcome, its time and its normalised teams. */
  datatype Battle = Battle(key: AggKey, win: bool, ts: int, atkTeam: seq<int>, defTeam: seq<int>)

  function BattleOf(row: UploadRecord, ctx: UploadContext): Battle {
    Battle(KeyOf(row, ctx), row.win, TimeOf(row, ctx),
           Team.Normalized(row.attackingTeamIds), Team.Normalized(row.defendingTeamIds))
  }

  /** The battles of the accepted records, in input order; the others are skipped (submissions.go:83-85). */
  function Observed(records: seq<UploadRecord>, ctx: UploadContext): (bs: seq<Battle>)
    ensures |bs| <= |records|
  {
    if records == [] then []
    else
      var row := records[|records| - 1];
      Observed(records[..|records| - 1], ctx) + (if Accepted(row) then [BattleOf(row, ctx)] else [])
  }

  /** One battle folded into the aggregation (submissions.go:110-122). */
  function Tally(agg: Aggregation, b: Battle): Aggregation {
    var v := if b.key in agg then agg[b.key] else AggVal(0, 0, 0, b.atkTeam, b.defTeam);
    agg[b.key := AggVal(if b.win then v.wins + 1 else v.wins,
                        if b.win then v.losses else v.losses + 1,
                        if b.ts > v.timestamp then b.ts else v.timestamp,
                        v.atkTeam, v.defTeam)]
  }

  function TallyAll(bs: seq<Battle>): Aggregation {
    if bs == [] then map[] else Tally(TallyAll(bs[..|bs| - 1]), bs[|bs| - 1])
  }

  /** The aggregation of an upload. */
  function Aggregate(records: seq<UploadRecord>, ctx: UploadContext): Aggregation {
    TallyAll(Observed(records, ctx))
  }

  /** Each accepted record yields its battle, each skipped record none. */
  lemma ObservedStep(records: seq<UploadRecord>, ctx: UploadContext, i: int)
    requires 0 <= i < |records|
    ensures Observed(records[..i + 1], ctx)
            == Observed(records[..i], ctx) + (if Accepted(records[i]) then [BattleOf(records[i], ctx)] else [])
  {
    assert records[..i + 1][..i] == records[..i];
  }

  lemma TallyAllStep(bs: seq<Battle>, b: Battle)
    ensures TallyAll(bs + [b]) == Tally(TallyAll(bs), b)
  {
    assert (bs + [b])[..|bs|] == bs;
  }

  /** How many battles have the key. */
  function Count(bs: seq<Battle>, k: AggKey): (n: nat)
    ensures n <= |bs|
  {
    if bs == [] then 0
    else Count(bs[..|bs| - 1], k) + (if bs[|bs| - 1].key == k then 1 else 0)
  }

  /** How many battles have the key and were won. */
  function CountWon(bs: seq<Battle>, k: AggKey): (n: nat)
    ensures n <= Count(bs, k)
  {
    if bs == [] then 0
    else CountWon(bs[..|bs| - 1], k) + (if bs[|bs| - 1].key == k && bs[|bs| - 1].win then 1 else 0)
  }

  /**
   * A key is aggregated exactly when some battle has it; its wins count the
   * won battles and wins + losses all of them (submissions.go:108-119).
   */
  lemma {:induction false} TallyCounts(bs: seq<Battle>, k: AggKey)
    ensures k in TallyAll(bs) <==> Count(bs, k) > 0
    ensures k in TallyAll(bs) ==>
              TallyAll(bs)[k].wins == CountWon(bs, k)
              && TallyAll(bs)[k].wins + TallyAll(bs)[k].losses == Count(bs, k)
  {
    if bs != [] {
      TallyCounts(bs[..|bs| - 1], k);
    }
  }

  lemma {:induction false} CountWitness(bs: seq<Battle>, k: AggKey, i: int)
    requires 0 <= i < |bs| && bs[i].key == k
    ensures Count(bs, k) > 0
  {
    if i < |bs| - 1 {
      assert bs[..|bs| - 1][i] == bs[i];
      CountWitness(bs[..|bs| - 1], k, i);
    }
  }

  /**
   * The timestamp of a key is never negative, at least the time of every
   * battle with that key, and, unless it is the initial 0, the time of one of
   * them: the maximum of 0 and those times (submissions.go:120-122).
   */
  lemma {:induction false} TallyTimestamp(bs: seq<Battle>, k: AggKey)
    requires k in TallyAll(bs)
    ensures var ts := TallyAll(bs)[k].timestamp;
            ts >= 0
            && (forall i :: 0 <= i < |bs| && bs[i].key == k ==> bs[i].ts <= ts)
            && (ts != 0 ==> exists i :: 0 <= i < |bs| && bs[i].key == k && bs[i].ts == ts)
  {
    var front := bs[..|bs| - 1];
    var prev := TallyAll(front);
    if k in prev {
      TallyTimestamp(front, k);
    }
    var ts := TallyAll(bs)[k].timestamp;
    forall i | 0 <= i < |bs| && bs[i].key == k
      ensures bs[i].ts <= ts
    {
      if i < |front| {
        assert bs[i] == front[i];
        TallyCounts(front, k);
        CountWitness(front, k, i);
      }
    }
    if ts != 0 {
      if k in prev && ts == prev[k].timestamp {
        var i :| 0 <= i < |front| && front[i].key == k && front[i].ts == ts;
        assert bs[i] == front[i];
      }
    }
  }

  /** A battle whose teams' signatures are the ones in its key. */
  predicate Consistent(b: Battle) {
    Team.Signature(b.atkTeam) == b.key.atkSig && Team.Signature(b.defTeam) == b.key.defSig
  }

  /** Every observed battle is consistent: normalising a normalised team changes nothing. */
  lemma {:induction false} ObservedConsistent(records: seq<UploadRecord>, ctx: UploadContext)
    ensures forall i :: 0 <= i < |Observed(records, ctx)| ==> Consistent(Observed(records, ctx)[i])
  {
    if records != [] {
      var front := records[..|records| - 1];
      var row := records[|records| - 1];
      var last := if Accepted(row) then [BattleOf(row, ctx)] else [];
      ObservedConsistent(front, ctx);
      assert forall i :: 0 <= i < |last| ==> Consistent(last[i]) by {
        if Accepted(row) {
          BattleConsistent(row, ctx);
        }
      }
      assert Observed(records, ctx) == Observed(front, ctx) + last;
      ConsistentAppend(Observed(front, ctx), last);
    }
  }

  lemma BattleConsistent(row: UploadRecord, ctx: UploadContext)
    ensures Consistent(BattleOf(row, ctx))
  {
    Team.NormalizedIdempotent(row.attackingTeamIds);
    Team.NormalizedIdempotent(row.defendingTeamIds);
  }

  lemma ConsistentAppend(a: seq<Battle>, b: seq<Battle>)
    requires forall i :: 0 <= i < |a| ==> Consistent(a[i])
    requires forall i :: 0 <= i < |b| ==> Consistent(b[i])
    ensures forall i :: 0 <= i < |a + b| ==> Consistent((a + b)[i])
  {
    forall i | 0 <= i < |a + b| ensures Consistent((a + b)[i]) {
      if i >= |a| {
        assert (a + b)[i] == b[i - |a|];
      }
    }
  }

  /** Every entry's counts are not negative and add up to at least 1. */
  lemma {:induction false} TallyPositive(bs: seq<Battle>, k: AggKey)
    requires k in TallyAll(bs)
    ensures TallyAll(bs)[k].wins >= 0 && TallyAll(bs)[k].losses >= 0
    ensures TallyAll(bs)[k].wins + TallyAll(bs)[k].losses > 0
  {
    var front := bs[..|bs| - 1];
    if k in TallyAll(front) {
      TallyPositive(front, k);
    }
  }

  /**
   * Over consistent battles, every entry's teams carry its key's signatures:
   * the teams are those of the key's first battle.
   */
  lemma {:induction false} TallyTeams(bs: seq<Battle>, k: AggKey)
    requires forall i :: 0 <= i < |bs| ==> Consistent(bs[i])
    requires k in TallyAll(bs)
    ensures Consistent(Battle(k, true, 0, TallyAll(bs)[k].atkTeam, TallyAll(bs)[k].defTeam))
  {
    var front := bs[..|bs| - 1];
    if k in TallyAll(front) {
      assert forall i :: 0 <= i < |front| ==> front[i] == bs[i];
      TallyTeams(front, k);
    } else {
      assert Consistent(bs[|bs| - 1]);
    }
  }

  /** The summary update of one aggregation entry (submissions.go:127-136). */
  function UpdateOf(k: AggKey, v: AggVal): StatsRepo.StatsUpdate {
    StatsRepo.StatsUpdate(k.server, k.season, k.tag, v.atkTeam, v.defTeam, v.wins, v.losses, v.timestamp)
  }

  /** The updates list every entry of the aggregation once, in some order. */
  predicate Lists(updates: seq<StatsRepo.StatsUpdate>, agg: Aggregation) {
    |updates| == |agg|
    && (forall k :: k in agg ==> UpdateOf(k, agg[k]) in updates)
    && (forall i :: 0 <= i < |updates| ==> exists k :: k in agg && updates[i] == UpdateOf(k, agg[k]))
  }

  /**
   * Every update of an upload counts in the batch. A Go slice holds at most
   * MaxInt64 battles, so no entry's wins + losses wraps to 0.
   */
  lemma ListedCounted(agg: Aggregation, bs: seq<Battle>, updates: seq<StatsRepo.StatsUpdate>)
    requires agg == TallyAll(bs) && Lists(updates, agg) && |bs| <= Decimal.MaxInt64
    ensures StatsRepo.Counted(StatsRepo.Wrapping64, updates) == |updates|
  {
    forall i | 0 <= i < |updates|
      ensures StatsRepo.TotalDelta(StatsRepo.Wrapping64, updates[i]) != 0
    {
      var k :| k in agg && updates[i] == UpdateOf(k, agg[k]);
      TallyPositive(bs, k);
      TallyCounts(bs, k);
    }
    CountedAll(updates);
  }

  /** Every update of an upload targets the summary row its aggregation key names. */
  lemma ListedKeys(records: seq<UploadRecord>, ctx: UploadContext, k: AggKey)
    requires k in Aggregate(records, ctx)
    ensures var u := UpdateOf(k, Aggregate(records, ctx)[k]);
            StatsRepo.SummaryKeyOf(u) == StatsRepo.SummaryKey(k.server, k.season, k.tag, k.atkSig, k.defSig)
  {
    ObservedConsistent(records, ctx);
    TallyTeams(Observed(records, ctx), k);
  }

  /** A batch in which every item has a non-zero delta counts all of them. */
  lemma {:induction false} CountedAll(items: seq<StatsRepo.StatsUpdate>)
    requires forall i :: 0 <= i < |items| ==> StatsRepo.TotalDelta(StatsRepo.Wrapping64, items[i]) != 0
    ensures StatsRepo.Counted(StatsRepo.Wrapping64, items) == |items|
  {
    if items != [] {
      CountedAll(items[..|items| - 1]);
    }
  }

  /** The per-record part of the aggregation loop (submissions.go:87-106). */
  method ReadRecord(row: UploadRecord, ctx: UploadContext) returns (b: Battle)
    ensures b == BattleOf(row, ctx)
  {
    var server := Text.ToLower(row.server);
    if server == "" {
      server := ctx.defaultServer;
    }
    var season := row.season;
    if season == 0 {
      season := ctx.defaultSeason;
    }
    var ts := ctx.now;
    if row.time != "" {
      var t := ctx.parseTime(row.time);
      if t.Some? {
        ts := t.value;
      }
    }
    var atkList, atkSig := Team.NormalizeTeam(row.attackingTeamIds);
    var defList, defSig := Team.NormalizeTeam(row.defendingTeamIds);
    b := Battle(AggKey(server, row.tag, season, atkSig, defSig), row.win, ts, atkList, defList);
  }

  /** The body of the aggregation loop for one record (submissions.go:83-122). */
  method AddUpload(agg: Aggregation, row: UploadRecord, ctx: UploadContext) returns (r: Aggregation)
    ensures r == if Accepted(row) then Tally(agg, BattleOf(row, ctx)) else agg
  {
    r := agg;
    if |row.attackingTeamIds| == 0 || |row.defendingTeamIds| == 0 {
      return;
    }
    var b := ReadRecord(row, ctx);
    r := TallyBattle(agg, b);
  }

  /** The in-place update of the key's entry (submissions.go:110-122). */
  method TallyBattle(agg: Aggregation, b: Battle) returns (r: Aggregation)
    ensures r == Tally(agg, b)
  {
    r := agg;
    var key := b.key;
    if key !in r {
      r := r[key := AggVal(0, 0, 0, b.atkTeam, b.defTeam)];
    }
    var val := r[key];
    if b.win {
      val := val.(wins := val.wins + 1);
    } else {
      val := val.(losses := val.losses + 1);
    }
    if b.ts > val.timestamp {
      val := val.(timestamp := b.ts);
    }
    r := r[key := val];
  }

  /** The aggregation loop of UploadJSON (submissions.go:80-123). */
  method AggregateUploads(records: seq<UploadRecord>, ctx: UploadContext) returns (agg: Aggregation)
    ensures agg == Aggregate(records, ctx)
  {
    agg := map[];
    for i := 0 to |records|
      invariant agg == TallyAll(Observed(records[..i], ctx))
    {
      ObservedStep(records, ctx, i);
      var prev := Observed(records[..i], ctx);
      if Accepted(records[i]) {
        TallyAllStep(prev, BattleOf(records[i], ctx));
      } else {
        assert prev + [] == prev;
      }
      agg := AddUpload(agg, records[i], ctx);
    }
    assert records[..|records|] == records;
  }

  /** The loop that lists the aggregation as summary updates (submissions.go:125-137). */
  method UpdatesOf(agg: Aggregation) returns (updates: seq<StatsRepo.StatsUpdate>)
    ensures Lists(updates, agg)
  {
    updates := [];
    var rest := agg.Keys;
    while rest != {}
      invariant rest <= agg.Keys
      invariant |updates| + |rest| == |agg|
      invariant forall k :: k in agg && k !in rest ==> UpdateOf(k, agg[k]) in updates
      invariant forall i :: 0 <= i < |updates| ==> exists k :: k in agg && updates[i] == UpdateOf(k, agg[k])
      decreases |rest|
    {
      var k :| k in rest;
      updates := updates + [UpdateOf(k, agg[k])];
      rest := rest - {k};
    }
  }

  datatype UploadOutcome = NoValidData | Imported(records: nat, summaries: int)

  // ---------------------------------------------------------------------
  // Submissions and their state machine (submissions.go:155-346)

  datatype Status = Pending | Approved | Rejected

  datatype Submission = Submission(server: string, season: int, tag: string,
                                   atkTeam: seq<int>, defTeam: seq<int>,
                                   atkLoadout: seq<Loadout.Entry>, defLoadout: seq<Loadout.Entry>,
                                   wins: int, losses: int, note: string,
                                   imagePath: Option<string>, status: Status, createdAt: int)

  /**
   * What an action does to a submission's status, and the sign of the deltas
   * it applies to both tables: 1 for approve, -1 for reverting an approved
   * submission, 0 for no stats change.
   */
  function Transition(status: Status, action: string): (r: Result<(Status, int), string>)
    ensures r.Ok? ==> -1 <= r.value.1 <= 1
    ensures action == "approve" ==> (r.Ok? <==> status == Pending) && (r.Ok? ==> r.value == (Approved, 1))
    ensures action == "reject" ==> r == Ok((Rejected, 0))
    ensures action == "revert" ==> (r.Ok? <==> status != Pending)
                                   && (r.Ok? ==> r.value.0 == Pending && (r.value.1 == -1 <==> status == Approved))
    ensures r.Ok? && r.value.1 != 0 ==> action == "approve" || (action == "revert" && status == Approved)
    ensures action != "approve" && action != "reject" && action != "revert" ==> r == Err("invalid action")
  {
    if action == "approve" then
      if status != Pending then Err("submission already processed") else Ok((Approved, 1))
    else if action == "reject" then
      Ok((Rejected, 0))
    else if action == "revert" then
      if status == Pending then Err("cannot revert pending submission")
      else Ok((Pending, if status == Approved then -1 else 0))
    else
      Err("invalid action")
  }

  /** A count times the sign, as Go computes it: the count itself, or its negation, which wraps at MinInt64. */
  function Signed(sign: int, n: int): int {
    if sign == -1 then Decimal.Wrap64(-n) else sign * n
  }

  /** A count within Go's range is applied as itself and reverted as its negation. */
  lemma SignedInRange(n: int)
    requires 0 <= n <= Decimal.MaxInt64
    ensures Signed(1, n) == n && Signed(-1, n) == -n
  {
  }

  /** The summary update a submission applies, with its deltas multiplied by the sign. */
  function StatsUpdateOf(sub: Submission, sign: int, now: int): StatsRepo.StatsUpdate {
    StatsRepo.StatsUpdate(sub.server, sub.season, sub.tag, sub.atkTeam, sub.defTeam,
                          Signed(sign, sub.wins), Signed(sign, sub.losses), now)
  }

  function DetailUpdateOf(sub: Submission, sign: int, now: int): StatsRepo.DetailUpdate {
    StatsRepo.DetailUpdate(StatsUpdateOf(sub, sign, now), sub.atkLoadout, sub.defLoadout)
  }

  /** The summary table after an action of the given sign; 0 leaves it as it is. */
  function SummariesAfter(t: StatsRepo.SummaryTable, sub: Submission, sign: int, now: int): StatsRepo.SummaryTable {
    if sign == 0 then t else StatsRepo.ApplyStatsAll(t, [StatsUpdateOf(sub, sign, now)])
  }

  function DetailsAfter(t: StatsRepo.DetailTable, sub: Submission, sign: int, now: int,
                        sha1: string -> Loadout.Digest): StatsRepo.DetailTable {
    if sign == 0 then t else StatsRepo.ApplyDetailsAll(t, [DetailUpdateOf(sub, sign, now)], sha1)
  }

  /**
   * Approving a pending submission and then reverting it leaves every
   * summary row's existence, total and wins as they were, provided the stored
   * rows are valid, the submission's counts are not negative and the grown
   * total fits Go's 64-bit int.
   */
  lemma ApproveThenRevertSummaries(t: StatsRepo.SummaryTable, sub: Submission, now1: int, now2: int)
    requires StatsRepo.ValidTable(t) && sub.wins >= 0 && sub.losses >= 0
    requires StatsRepo.RoomFor(t, StatsRepo.SummaryKeyOf(StatsUpdateOf(sub, 1, now1)), sub.wins + sub.losses)
    ensures var approved := Transition(sub.status, "approve");
            approved.Ok? ==>
              var reverted := Transition(approved.value.0, "revert");
              reverted.Ok? && reverted.value.0 == Pending
              && StatsRepo.SameCounts(SummariesAfter(SummariesAfter(t, sub, approved.value.1, now1), sub,
                                                     reverted.value.1, now2), t)
  {
    var up := StatsUpdateOf(sub, 1, now1);
    var down := StatsUpdateOf(sub, -1, now2);
    var k := StatsRepo.SummaryKeyOf(up);
    StatsRepo.RoomBoundsDeltas(t, k, sub.wins, sub.losses);
    SignedInRange(sub.wins);
    SignedInRange(sub.losses);
    StatsRepo.ApplyStatsSingle(t, up);
    var m := StatsRepo.ApplyStats(t, up);
    StatsRepo.ApplyStatsSingle(m, down);
    var p := StatsRepo.Teams(Team.Normalized(sub.atkTeam), Team.Normalized(sub.defTeam));
    StatsRepo.RevertRestoresTable(t, k, p, p, sub.wins, sub.losses, now1, now2);
  }

  /** The same for the detail table, under the same conditions. */
  lemma ApproveThenRevertDetails(t: StatsRepo.DetailTable, sub: Submission, now1: int, now2: int,
                                 sha1: string -> Loadout.Digest)
    requires StatsRepo.ValidTable(t) && sub.wins >= 0 && sub.losses >= 0
    requires StatsRepo.RoomFor(t, StatsRepo.DetailKeyOf(DetailUpdateOf(sub, 1, now1), sha1), sub.wins + sub.losses)
    ensures StatsRepo.SameCounts(DetailsAfter(DetailsAfter(t, sub, 1, now1, sha1), sub, -1, now2, sha1), t)
  {
    var up := DetailUpdateOf(sub, 1, now1);
    var down := DetailUpdateOf(sub, -1, now2);
    var k := StatsRepo.DetailKeyOf(up, sha1);
    StatsRepo.RoomBoundsDeltas(t, k, sub.wins, sub.losses);
    SignedInRange(sub.wins);
    SignedInRange(sub.losses);
    StatsRepo.ApplyDetailSingle(t, up, sha1);
    var m := StatsRepo.ApplyDetail(t, up, sha1);
    StatsRepo.ApplyDetailSingle(m, down, sha1);
    assert StatsRepo.DetailKeyOf(down, sha1) == k;
    var p := StatsRepo.DetailPayload(up);
    assert StatsRepo.DetailPayload(down) == p;
    StatsRepo.RevertRestoresTable(t, k, p, p, sub.wins, sub.losses, now1, now2);
  }

  /**
   * A stored count below zero breaks the cancel-out: CreateSubmission keeps
   * Atoi's value of the form text unchecked, so "-3" is stored as -3 wins.
   * Approving it on an empty table creates no row, and reverting it then
   * creates one with three battles, all won.
   */
  lemma NegativeCountSurvivesRevert(sub: Submission, now1: int, now2: int)
    requires sub.status == Pending && sub.wins == Decimal.AtoiValue("-3") && sub.losses == 0
    ensures var approved := SummariesAfter(map[], sub, 1, now1);
            var reverted := SummariesAfter(approved, sub, -1, now2);
            var k := StatsRepo.SummaryKeyOf(StatsUpdateOf(sub, 1, now1));
            approved == map[]
            && k in reverted && reverted[k].counters.total == 3 && reverted[k].counters.wins == 3
            && !StatsRepo.SameCounts(reverted, map[])
  {
    assert Decimal.AtoiValue("-3") == -3 by {
      var body := "-3"[1..];
      assert body == ['3'] && Decimal.AllDigits(body);
      assert Decimal.DigitsValue(body) == Decimal.DigitsValue(body[..0]) * 10 + Decimal.DigitOf('3');
      assert Decimal.DigitOf('3') == 3;
    }
    var up := StatsUpdateOf(sub, 1, now1);
    var down := StatsUpdateOf(sub, -1, now2);
    assert up.winsDelta == -3 && up.lossesDelta == 0;
    assert down.winsDelta == 3 && down.lossesDelta == 0;
    StatsRepo.ApplyStatsSingle(map[], up);
    StatsRepo.UpsertNeverCreatesOnLoss(StatsRepo.Wrapping64, map[], StatsRepo.SummaryKeyOf(up),
                                       StatsRepo.Teams(Team.Normalized(sub.atkTeam), Team.Normalized(sub.defTeam)),
                                       -3, 0, now1);
    var approved: StatsRepo.SummaryTable := map[];
    StatsRepo.ApplyStatsSingle(approved, down);
    assert StatsRepo.SummaryKeyOf(down) == StatsRepo.SummaryKeyOf(up);
    StatsRepo.UpsertAtKey(StatsRepo.Wrapping64, approved, StatsRepo.SummaryKeyOf(up),
                          StatsRepo.Teams(Team.Normalized(sub.atkTeam), Team.Normalized(sub.defTeam)),
                          3, 0, now2);
  }

  /** The form fields of CreateSubmission, as text, and the uploaded image's file name if any. */
  datatype SubmissionForm = SubmissionForm(server: string, season: string, tag: string,
                                           atkTeam: string, defTeam: string,
                                           atkLoadout: string, defLoadout: string,
                                           wins: string, losses: string, note: string,
                                           image: Option<string>)

  /**
   * json.Unmarshal of a team, whose error the handler ignores (the value it
   * leaves behind), and of a loadout, whose error it reports.
   */
  datatype Decoders = Decoders(team: string -> seq<int>, loadout: string -> Option<seq<Loadout.Entry>>)

  /** filepath.Ext: the suffix from the last '.' of the final path element, or "". */
  function Ext(path: string): (e: string)
    ensures e == "" || (e[0] == '.' && Text.EndsWith(path, e))
    ensures forall i :: 1 <= i < |e| ==> e[i] != '.' && e[i] != '/'
  {
    if |path| == 0 || path[|path| - 1] == '/' then ""
    else if path[|path| - 1] == '.' then "."
    else
      var e := Ext(path[..|path| - 1]);
      if e == "" then "" else e + [path[|path| - 1]]
  }

  predicate AllowedExtension(ext: string) {
    ext == ".jpg" || ext == ".jpeg" || ext == ".png" || ext == ".webp"
  }

  /** The loadout of a form field: absent when the field is empty, else its JSON decoding. */
  function LoadoutOf(s: string, dec: Decoders): Option<seq<Loadout.Entry>> {
    if s == "" then Some([]) else dec.loadout(s)
  }

  /** The reason CreateSubmission refuses a form, checked in the handler's order, or None. */
  function FormError(form: SubmissionForm, dec: Decoders): Option<string> {
    if form.image.Some? && !AllowedExtension(Text.ToLower(Ext(form.image.value))) then Some("Unsupported file type")
    else if LoadoutOf(form.atkLoadout, dec).None? then Some("Invalid atk_loadout JSON")
    else if LoadoutOf(form.defLoadout, dec).None? then Some("Invalid def_loadout JSON")
    else None
  }

  /** The row CreateSubmission stores for an accepted form: always pending. */
  function SubmissionOf(form: SubmissionForm, dec: Decoders, uuid: string, now: int): Submission
    requires FormError(form, dec).None?
  {
    var image := if form.image.Some? then Some("/uploads/" + uuid + Text.ToLower(Ext(form.image.value))) else None;
    Submission(form.server, Decimal.AtoiValue(form.season), form.tag,
               dec.team(form.atkTeam), dec.team(form.defTeam),
               LoadoutOf(form.atkLoadout, dec).value, LoadoutOf(form.defLoadout, dec).value,
               Decimal.AtoiValue(form.wins), Decimal.AtoiValue(form.losses), form.note,
               image, Pending, now)
  }

  /**
   * The form check CreateSubmission evidently intends: FormError's reasons,
   * then counts below zero refused as the manual add refuses them.
   */
  function CheckedFormError(form: SubmissionForm, dec: Decoders): (r: Option<string>)
    ensures FormError(form, dec).Some? ==> r == FormError(form, dec)
    ensures r.None? <==> FormError(form, dec).None?
                         && Decimal.AtoiValue(form.wins) >= 0 && Decimal.AtoiValue(form.losses) >= 0
  {
    if FormError(form, dec).Some? then FormError(form, dec)
    else if Decimal.AtoiValue(form.wins) < 0 || Decimal.AtoiValue(form.losses) < 0 then Some("Counts cannot be negative")
    else None
  }

  /**
   * With the checked form, every stored submission is revertible: approving
   * it and reverting it restores every summary and detail row's existence,
   * total and wins, while the grown totals fit Go's 64-bit int.
   */
  lemma CheckedFormRevertible(form: SubmissionForm, dec: Decoders, uuid: string, now: int,
                              t: StatsRepo.SummaryTable, d: StatsRepo.DetailTable, now1: int, now2: int,
                              sha1: string -> Loadout.Digest)
    requires CheckedFormError(form, dec).None?
    requires StatsRepo.ValidTable(t) && StatsRepo.ValidTable(d)
    requires var sub := SubmissionOf(form, dec, uuid, now);
             StatsRepo.RoomFor(t, StatsRepo.SummaryKeyOf(StatsUpdateOf(sub, 1, now1)), sub.wins + sub.losses)
             && StatsRepo.RoomFor(d, StatsRepo.DetailKeyOf(DetailUpdateOf(sub, 1, now1), sha1), sub.wins + sub.losses)
    ensures var sub := SubmissionOf(form, dec, uuid, now);
            sub.status == Pending
            && StatsRepo.SameCounts(SummariesAfter(SummariesAfter(t, sub, 1, now1), sub, -1, now2), t)
            && StatsRepo.SameCounts(DetailsAfter(DetailsAfter(d, sub, 1, now1, sha1), sub, -1, now2, sha1), d)
  {
    var sub := SubmissionOf(form, dec, uuid, now);
    ApproveThenRevertSummaries(t, sub, now1, now2);
    ApproveThenRevertDetails(d, sub, now1, now2, sha1);
  }

  /** The submissions table: rows by id, ids handed out in increasing order. */
  class SubmissionTable {
    var rows: map<int, Submission>
    var nextId: int

    ghost predicate Valid()
      reads this
    {
      nextId >= 1 && forall id :: id in rows ==> 1 <= id < nextId
    }

    constructor()
      ensures rows == map[] && nextId == 1
      ensures Valid()
    {
      rows := map[];
      nextId := 1;
    }

    /** INSERT: the new row gets the next id. */
    method Create(sub: Submission) returns (id: int)
      requires Valid()
      modifies this
      ensures id == old(nextId) && id !in old(rows)
      ensures rows == old(rows)[id := sub] && nextId == old(nextId) + 1
      ensures Valid()
    {
      id := nextId;
      rows := rows[id := sub];
      nextId := nextId + 1;
    }

    /** UPDATE of an existing row. */
    method Save(id: int, sub: Submission)
      requires Valid() && id in rows
      modifies this`rows
      ensures rows == old(rows)[id := sub]
      ensures Valid()
    {
      rows := rows[id := sub];
    }
  }

  /** SubmissionHandler: the submissions table and the aggregate tables. */
  class SubmissionHandler {
    const table: SubmissionTable
    const repo: StatsRepo.StatsRepository

    ghost predicate Valid()
      reads table, repo
    {
      table.Valid() && repo.Valid()
    }

    constructor(table: SubmissionTable, repo: StatsRepo.StatsRepository)
      ensures this.table == table && this.repo == repo
    {
      this.table := table;
      this.repo := repo;
    }

    /**
     * UploadJSON after decoding: aggregate the records, list the aggregation
     * as updates in some order, and apply them unless there are none.
     */
    method UploadJSON(records: seq<UploadRecord>, defaultServer: string, defaultSeason: string, now: int,
                      parseTime: string -> Option<int>) returns (outcome: UploadOutcome)
      requires Valid()
      requires |records| <= Decimal.MaxInt64  // the length of a Go slice is an int
      modifies repo`summaries
      ensures Valid()
      ensures var agg := Aggregate(records, ContextOf(defaultServer, defaultSeason, now, parseTime));
              (outcome.NoValidData? <==> agg == map[])
              && (outcome.NoValidData? ==> repo.summaries == old(repo.summaries))
              && (outcome.Imported? ==>
                    outcome.records == |records| && outcome.summaries == |agg|
                    && exists updates :: Lists(updates, agg)
                                         && repo.summaries == StatsRepo.ApplyStatsAll(old(repo.summaries), updates))
    {
      var ctx := ContextOf(defaultServer, defaultSeason, now, parseTime);
      var agg := AggregateUploads(records, ctx);
      var updates := UpdatesOf(agg);
      if |updates| == 0 {
        assert agg.Keys == {};
        return NoValidData;
      }
      var count := repo.BatchUpsertStats(updates);
      ListedCounted(agg, Observed(records, ctx), updates);
      outcome := Imported(|records|, count);
    }

    /** CreateSubmission: a valid form becomes a pending submission under the next id. */
    method CreateSubmission(form: SubmissionForm, dec: Decoders, uuid: string, now: int) returns (r: Result<int, string>)
      requires Valid()
      modifies table
      ensures Valid()
      ensures FormError(form, dec).Some? ==>
                r == Err(FormError(form, dec).value)
                && table.rows == old(table.rows) && table.nextId == old(table.nextId)
      ensures FormError(form, dec).None? ==>
                r == Ok(old(table.nextId))
                && table.rows == old(table.rows)[r.value := SubmissionOf(form, dec, uuid, now)]
      ensures r.Ok? ==> table.rows[r.value].status == Pending && r.value !in old(table.rows)
    {
      var imagePath: Option<string> := None;
      if form.image.Some? {
        var ext := Text.ToLower(Ext(form.image.value));
        if !AllowedExtension(ext) {
          return Err("Unsupported file type");
        }
        imagePath := Some("/uploads/" + uuid + ext);
      }
      var atkLoadout: seq<Loadout.Entry> := [];
      if form.atkLoadout != "" {
        var decoded := dec.loadout(form.atkLoadout);
        if decoded.None? {
          return Err("Invalid atk_loadout JSON");
        }
        atkLoadout := decoded.value;
      }
      var defLoadout: seq<Loadout.Entry> := [];
      if form.defLoadout != "" {
        var decoded := dec.loadout(form.defLoadout);
        if decoded.None? {
          return Err("Invalid def_loadout JSON");
        }
        defLoadout := decoded.value;
      }
      var sub := Submission(form.server, Decimal.AtoiValue(form.season), form.tag,
                            dec.team(form.atkTeam), dec.team(form.defTeam), atkLoadout, defLoadout,
                            Decimal.AtoiValue(form.wins), Decimal.AtoiValue(form.losses), form.note,
                            imagePath, Pending, now);
      var id := table.Create(sub);
      r := Ok(id);
    }

    /**
     * ProcessSubmission in its transaction: an unknown id or a refused action
     * changes nothing; otherwise the deltas of the transition are applied to
     * both tables and the new status is saved.
     */
    method ProcessSubmission(id: int, action: string, now: int) returns (r: Result<(), string>)
      requires Valid()
      modifies table`rows, repo`summaries, repo`details
      ensures Valid()
      ensures id !in old(table.rows) ==> r == Err("record not found")
      ensures r.Err? ==> table.rows == old(table.rows) && repo.summaries == old(repo.summaries)
                         && repo.details == old(repo.details)
      ensures id in old(table.rows) ==>
                var sub := old(table.rows[id]);
                var t := Transition(sub.status, action);
                (t.Err? ==> r == Err(t.error))
                && (t.Ok? ==>
                      r.Ok?
                      && table.rows == old(table.rows)[id := sub.(status := t.value.0)]
                      && repo.summaries == SummariesAfter(old(repo.summaries), sub, t.value.1, now)
                      && repo.details == DetailsAfter(old(repo.details), sub, t.value.1, now, repo.sha1))
    {
      if id !in table.rows {
        return Err("record not found");
      }
      var sub := table.rows[id];
      var status: Status;
      if action == "approve" {
        if sub.status != Pending {
          return Err("submission already processed");
        }
        ApplyDeltas(sub, 1, now);
        status := Approved;
      } else if action == "reject" {
        status := Rejected;
      } else if action == "revert" {
        if sub.status == Pending {
          return Err("cannot revert pending submission");
        }
        if sub.status == Approved {
          ApplyDeltas(sub, -1, now);
        }
        status := Pending;
      } else {
        return Err("invalid action");
      }
      table.Save(id, sub.(status := status));
      r := Ok(());
    }

    /** One single-item batch on each table (submissions.go:262-290 and 301-329). */
    method ApplyDeltas(sub: Submission, sign: int, now: int)
      requires Valid() && sign != 0
      modifies repo`summaries, repo`details
      ensures Valid()
      ensures repo.summaries == SummariesAfter(old(repo.summaries), sub, sign, now)
      ensures repo.details == DetailsAfter(old(repo.details), sub, sign, now, repo.sha1)
    {
      var update := StatsUpdateOf(sub, sign, now);
      var _ := repo.BatchUpsertStats([update]);
      var detailUpdate := DetailUpdateOf(sub, sign, now);
      var _ := repo.BatchUpsertDetails([detailUpdate]);
    }
  }
}
