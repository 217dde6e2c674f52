/**
 * The manual-add, listing and submission routes of the Python backend
 * (server/app/routers/stats.py and server/app/routers/submissions.py). Both
 * write rows of the `battles` table: one row per battle, with the fully
 * sorted comma-join of each team as its signature. The database is a class
 * holding the battles list and the submissions table.
 */
module PyRouters {
  import opened Wrappers
  import Text
  import Sorting
  import Team
  import StatsHandler
  import Submissions
  import Decimal

  /** config.py MAX_MANUAL_COUNT. */
  const MaxManualCount: int := 2000

  /** One row of the battles table; the team columns hold the JSON of the team as given. */
  datatype Battle = Battle(server: string, season: int, tag: string, timestamp: int, isWin: bool,
                           atkSig: string, defSig: string, atkTeam: seq<int>, defTeam: seq<int>)

  /** An HTTPException: status code and detail. */
  datatype HttpError = HttpError(status: int, detail: string)

  /** `",".join(map(str, sorted(team)))`. */
  function SortedSig(team: seq<int>): string {
    Team.JoinIds(Sorting.SortInts(team))
  }

  /** Two teams get the same battle signature exactly when they hold the same IDs, each as often. */
  lemma SortedSigIff(a: seq<int>, b: seq<int>)
    ensures SortedSig(a) == SortedSig(b) <==> multiset(a) == multiset(b)
  {
    if SortedSig(a) == SortedSig(b) {
      Team.JoinIdsInjective(Sorting.SortInts(a), Sorting.SortInts(b));
    }
    if multiset(a) == multiset(b) {
      Sorting.SortIntsOfPermutation(a, b);
    }
  }

  /** `n` copies of a row, as appended by `for _ in range(n)`: none for n <= 0. */
  function Repeat<T>(r: T, n: int): (s: seq<T>)
    ensures |s| == if n > 0 then n else 0
    ensures forall i :: 0 <= i < |s| ==> s[i] == r
    decreases n
  {
    if n <= 0 then [] else Repeat(r, n - 1) + [r]
  }

  /** The rows of an accepted add: the win rows, then the loss rows. */
  function Records<T>(winRow: T, lossRow: T, wins: int, losses: int): seq<T> {
    Repeat(winRow, wins) + Repeat(lossRow, losses)
  }

  /**
   * The added rows: max(wins, 0) win rows first, then max(losses, 0) loss
   * rows, and nothing else.
   */
  lemma RecordsShape<T>(winRow: T, lossRow: T, wins: int, losses: int)
    ensures var rs := Records(winRow, lossRow, wins, losses);
            var w := if wins > 0 then wins else 0;
            var l := if losses > 0 then losses else 0;
            |rs| == w + l
            && (forall i :: 0 <= i < w ==> rs[i] == winRow)
            && (forall i :: w <= i < |rs| ==> rs[i] == lossRow)
  {
    var rs := Records(winRow, lossRow, wins, losses);
    var a, b := Repeat(winRow, wins), Repeat(lossRow, losses);
    assert rs == a + b;
    forall i | 0 <= i < |a| ensures rs[i] == winRow {
      assert rs[i] == a[i];
    }
    forall i | |a| <= i < |rs| ensures rs[i] == lossRow {
      assert rs[i] == b[i - |a|];
    }
  }

  /** The two loops that fill the record list: `wins` win rows, then `losses` loss rows. */
  method ExpandRecords<T>(winRow: T, lossRow: T, wins: int, losses: int) returns (records: seq<T>)
    ensures records == Records(winRow, lossRow, wins, losses)
  {
    records := [];
    var i := 0;
    while i < wins
      invariant 0 <= i <= (if wins > 0 then wins else 0)
      invariant records == Repeat(winRow, i)
    {
      records := records + [winRow];
      i := i + 1;
    }
    assert records == Repeat(winRow, wins);
    ghost var winRows := records;
    var j := 0;
    while j < losses
      invariant 0 <= j <= (if losses > 0 then losses else 0)
      invariant records == winRows + Repeat(lossRow, j)
    {
      records := records + [lossRow];
      j := j + 1;
    }
    assert records == winRows + Repeat(lossRow, losses);
  }

  // ---------------------------------------------------------------------
  // stats.py manual_add

  datatype ManualAddRequest = ManualAddRequest(server: string, season: int, tag: string,
                                               atkTeam: seq<int>, defTeam: seq<int>, wins: int, losses: int)

  /** The first failing guard of manual_add, in the order they are checked. */
  function ManualAddCheck(req: ManualAddRequest): Option<HttpError> {
    if req.season < 1 then Some(HttpError(400, "Season must be a positive integer"))
    else if req.wins > MaxManualCount || req.losses > MaxManualCount then
      Some(HttpError(400, "Wins and Losses must each be less than 2000"))
    else if req.wins < 0 || req.losses < 0 then Some(HttpError(400, "Counts cannot be negative"))
    else if req.wins == 0 && req.losses == 0 then Some(HttpError(400, "At least one win or loss is required"))
    else None
  }

  /** The guards of manual_add in order; the first that fails gives the 400 response. */
  method ManualAddGuards(req: ManualAddRequest) returns (rejected: Option<HttpError>)
    ensures rejected == ManualAddCheck(req)
  {
    if req.season < 1 {
      return Some(HttpError(400, "Season must be a positive integer"));
    }
    if req.wins > MaxManualCount || req.losses > MaxManualCount {
      return Some(HttpError(400, "Wins and Losses must each be less than 2000"));
    }
    if req.wins < 0 || req.losses < 0 {
      return Some(HttpError(400, "Counts cannot be negative"));
    }
    if req.wins == 0 && req.losses == 0 {
      return Some(HttpError(400, "At least one win or loss is required"));
    }
    return None;
  }

  /**
   * A request passes exactly when the season is positive, both counts lie in
   * [0, 2000] (2000 itself is allowed) and at least one is positive; the
   * season guard comes first, and the upper bound is checked before the sign.
   */
  lemma ManualAddAccepts(req: ManualAddRequest)
    ensures ManualAddCheck(req).None? <==>
              req.season >= 1 && 0 <= req.wins <= MaxManualCount && 0 <= req.losses <= MaxManualCount
              && req.wins + req.losses > 0
    ensures req.season < 1 ==> ManualAddCheck(req) == Some(HttpError(400, "Season must be a positive integer"))
    ensures req.season >= 1 && req.wins < 0 && req.losses > MaxManualCount ==>
              ManualAddCheck(req) == Some(HttpError(400, "Wins and Losses must each be less than 2000"))
    ensures ManualAddCheck(req).Some? ==> ManualAddCheck(req).value.status == 400
  {
  }

  /** The win row of an accepted manual add. */
  function ManualRow(req: ManualAddRequest, now: int): Battle {
    Battle(req.server, req.season, req.tag, now, true, SortedSig(req.atkTeam), SortedSig(req.defTeam),
           req.atkTeam, req.defTeam)
  }

  // ---------------------------------------------------------------------
  // stats.py get_summaries

  /** One row of the listing query, as get_filtered_summaries returns it. */
  datatype SummaryRow = SummaryRow(server: string, season: int, tag: string, atkTeam: seq<int>, defTeam: seq<int>,
                                   total: int, wins: int, lastTime: int, atkSig: string, defSig: string)

  /** One element of `data` in the response; the float columns are not part of this model. */
  datatype SummaryItem = SummaryItem(server: string, season: int, tag: string, attackingTeam: seq<int>,
                                     defendingTeam: seq<int>, total: int, wins: int, losses: int,
                                     lastSeen: int, atkSig: string, defSig: string)

  /** The response item of a row, with `losses = total - wins`. */
  function ItemOf(row: SummaryRow): (item: SummaryItem)
    ensures item.wins + item.losses == item.total == row.total
    ensures item.wins == row.wins && item.atkSig == row.atkSig && item.defSig == row.defSig
  {
    SummaryItem(row.server, row.season, row.tag, row.atkTeam, row.defTeam, row.total, row.wins,
                row.total - row.wins, row.lastTime, row.atkSig, row.defSig)
  }

  /** The loop of get_summaries that appends one result per row, in row order. */
  method SummaryResults(rows: seq<SummaryRow>) returns (results: seq<SummaryItem>)
    ensures |results| == |rows|
    ensures forall i :: 0 <= i < |rows| ==> results[i] == ItemOf(rows[i])
  {
    results := [];
    for i := 0 to |rows|
      invariant |results| == i
      invariant forall k :: 0 <= k < i ==> results[k] == ItemOf(rows[k])
    {
      results := results + [ItemOf(rows[i])];
    }
  }

  /**
   * `(total_count + limit - 1) // limit if limit > 0 else 0`, with Python's
   * floor division on unbounded integers: the exact page count.
   */
  function PyTotalPages(total: nat, limit: int): (pages: int)
    ensures limit <= 0 ==> pages == 0
    ensures limit > 0 ==> pages == StatsHandler.CeilPages(total, limit)
  {
    if limit > 0 then (total + limit - 1) / limit else 0
  }

  /** For a positive limit, totalPages is the least page count whose pages hold every row. */
  lemma PyTotalPagesCeil(total: nat, limit: int)
    requires limit > 0
    ensures PyTotalPages(total, limit) * limit >= total
    ensures forall p: nat :: p * limit >= total ==> PyTotalPages(total, limit) <= p
  {
    forall p: nat | p * limit >= total ensures PyTotalPages(total, limit) <= p {
      StatsHandler.CeilPagesLeast(total, limit, p);
    }
  }

  /**
   * The two backends report the same page count while the Go backend's
   * sums stay within its 64-bit int; at a limit of MaxInt64 five rows make
   * one page here and none there.
   */
  lemma PyTotalPagesAgreesWithGo(total: nat, limit: nat)
    requires 0 < limit <= Decimal.MaxInt64 && total + limit - 1 <= Decimal.MaxInt64
    ensures PyTotalPages(total, limit) == StatsHandler.TotalPages(total, limit)
    ensures PyTotalPages(5, Decimal.MaxInt64) == 1 && StatsHandler.TotalPages(5, Decimal.MaxInt64) == 0
  {
    StatsHandler.TotalPagesWraps();
  }

  // ---------------------------------------------------------------------
  // submissions.py

  /** A row of the submissions table; the team columns hold the form's text as it was sent, unparsed. */
  datatype PySubmission = PySubmission(server: string, season: int, tag: string, atkTeamJson: string,
                                       defTeamJson: string, wins: int, losses: int, note: string,
                                       imagePath: Option<string>, createdAt: int, status: Submissions.Status)

  datatype SubmissionForm = SubmissionForm(server: string, season: int, tag: string, atkTeam: string,
                                           defTeam: string, wins: int, losses: int, note: string)

  /**
   * What `json.loads` of a team column, iterated and compared with 0, gives:
   * the IDs, or the text of the exception raised by malformed JSON, a value
   * that cannot be iterated, or an element that cannot be compared with 0.
   */
  type TeamDecoder = string -> Result<seq<int>, string>

  /** `[x for x in team if x > 0]`. */
  function Clean(team: seq<int>): (r: seq<int>)
    ensures |r| <= |team|
    ensures forall i :: 0 <= i < |r| ==> r[i] > 0
  {
    if team == [] then []
    else Clean(team[..|team| - 1]) + (if team[|team| - 1] > 0 then [team[|team| - 1]] else [])
  }

  /** Cleaning keeps exactly the positive IDs, each as often as it occurs. */
  lemma {:induction false} CleanMultiset(team: seq<int>, x: int)
    ensures multiset(Clean(team))[x] == if x > 0 then multiset(team)[x] else 0
  {
    if team != [] {
      var n := |team| - 1;
      CleanMultiset(team[..n], x);
      assert team == team[..n] + [team[n]];
    }
  }

  /** The battle row an approval writes before the win/loss split, given the decoded teams. */
  function ApprovalRow(sub: PySubmission, atkTeam: seq<int>, defTeam: seq<int>, now: int): Battle {
    Battle(sub.server, sub.season, sub.tag, now, true, SortedSig(Clean(atkTeam)), SortedSig(Clean(defTeam)),
           atkTeam, defTeam)
  }

  /**
   * The outcome of approve_submission: an unknown id raises 404, a
   * processed one 400, and a team column that does not decode its
   * exception; the catch-all turns each into a 500 whose detail is the
   * inner exception's text.
   */
  function ApproveCheck(subs: map<int, PySubmission>, id: int, decode: TeamDecoder): (r: Option<HttpError>)
    ensures r.Some? ==> r.value.status == 500
    ensures r.None? <==> id in subs && subs[id].status == Submissions.Pending
                         && decode(subs[id].atkTeamJson).Ok? && decode(subs[id].defTeamJson).Ok?
  {
    if id !in subs then Some(HttpError(500, "404: Submission not found"))
    else if subs[id].status != Submissions.Pending then Some(HttpError(500, "400: Submission already processed"))
    else match decode(subs[id].atkTeamJson)
      case Err(e) => Some(HttpError(500, e))
      case Ok(_) =>
        match decode(subs[id].defTeamJson)
        case Err(e) => Some(HttpError(500, e))
        case Ok(_) => None
  }

  /** The Python backend's database: the battles list and the submissions table. */
  class PyDatabase {
    var battles: seq<Battle>
    var submissions: map<int, PySubmission>
    var nextId: int

    ghost predicate Valid()
      reads this
    {
      forall id :: id in submissions ==> id < nextId
    }

    constructor ()
      ensures Valid() && battles == [] && submissions == map[] && nextId == 1
    {
      battles := [];
      submissions := map[];
      nextId := 1;
    }

    /**
     * stats.py manual_add: the guards in order, then `wins` win rows and
     * `losses` loss rows stamped `now`, each with the sorted signatures.
     */
    method ManualAdd(req: ManualAddRequest, now: int) returns (r: Result<nat, HttpError>)
      modifies this`battles
      ensures ManualAddCheck(req).Some? ==> r == Err(ManualAddCheck(req).value) && battles == old(battles)
      ensures ManualAddCheck(req).None? ==>
                r == Ok(req.wins + req.losses)
                && battles == old(battles) + Records(ManualRow(req, now), ManualRow(req, now).(isWin := false), req.wins, req.losses)
    {
      var rejected := ManualAddGuards(req);
      if rejected.Some? {
        return Err(rejected.value);
      }
      var atkSig := SortedSig(req.atkTeam);
      var defSig := SortedSig(req.defTeam);
      var winRow := Battle(req.server, req.season, req.tag, now, true, atkSig, defSig, req.atkTeam, req.defTeam);
      var recordsToAdd := ExpandRecords(winRow, winRow.(isWin := false), req.wins, req.losses);
      battles := battles + recordsToAdd;
      r := Ok(|recordsToAdd|);
    }

    /** submissions.py create_submission: a new pending row under the next id. */
    method CreateSubmission(form: SubmissionForm, imagePath: Option<string>, now: int) returns (id: int)
      requires Valid()
      modifies this`submissions, this`nextId
      ensures Valid()
      ensures id == old(nextId) && id !in old(submissions)
      ensures submissions == old(submissions)[id := PySubmission(form.server, form.season, form.tag, form.atkTeam,
                                form.defTeam, form.wins, form.losses, form.note, imagePath, now, Submissions.Pending)]
    {
      id := nextId;
      submissions := submissions[id := PySubmission(form.server, form.season, form.tag, form.atkTeam, form.defTeam,
                                                   form.wins, form.losses, form.note, imagePath, now, Submissions.Pending)];
      nextId := nextId + 1;
    }

    /**
     * submissions.py approve_submission: only a pending submission whose
     * team columns decode is approved; its win and loss rows are added with
     * the signatures of its cleaned, sorted teams, and its status becomes
     * approved. On error the transaction is rolled back and nothing changes,
     * so a submission with a malformed team stays pending.
     */
    method ApproveSubmission(id: int, now: int, decode: TeamDecoder) returns (r: Option<HttpError>)
      modifies this`battles, this`submissions
      ensures r == ApproveCheck(old(submissions), id, decode)
      ensures r.Some? ==> battles == old(battles) && submissions == old(submissions)
      ensures r.None? ==>
                var sub := old(submissions)[id];
                var row := ApprovalRow(sub, decode(sub.atkTeamJson).value, decode(sub.defTeamJson).value, now);
                battles == old(battles) + Records(row, row.(isWin := false), sub.wins, sub.losses)
                && submissions == old(submissions)[id := sub.(status := Submissions.Approved)]
    {
      if id !in submissions {
        return Some(HttpError(500, "404: Submission not found"));
      }
      var data := submissions[id];
      if data.status != Submissions.Pending {
        return Some(HttpError(500, "400: Submission already processed"));
      }
      var atkTeam := decode(data.atkTeamJson);
      if atkTeam.Err? {
        return Some(HttpError(500, atkTeam.error));
      }
      var defTeam := decode(data.defTeamJson);
      if defTeam.Err? {
        return Some(HttpError(500, defTeam.error));
      }
      var cleanAtk := Clean(atkTeam.value);
      var cleanDef := Clean(defTeam.value);
      var atkSig := SortedSig(cleanAtk);
      var defSig := SortedSig(cleanDef);
      var winRow := Battle(data.server, data.season, data.tag, now, true, atkSig, defSig, atkTeam.value, defTeam.value);
      var records := ExpandRecords(winRow, winRow.(isWin := false), data.wins, data.losses);
      battles := battles + records;
      submissions := submissions[id := data.(status := Submissions.Approved)];
      r := None;
    }

    /** submissions.py reject_submission: sets "rejected" whatever the status; an unknown id changes nothing. */
    method RejectSubmission(id: int)
      modifies this`submissions
      ensures id in old(submissions) ==> submissions == old(submissions)[id := old(submissions)[id].(status := Submissions.Rejected)]
      ensures id !in old(submissions) ==> submissions == old(submissions)
    {
      if id in submissions {
        submissions := submissions[id := submissions[id].(status := Submissions.Rejected)];
      }
    }
  }

  /**
   * Approval is one-shot: after a successful approval, approving the same
   * submission again fails with the wrapped 400; a rejected submission
   * cannot be approved.
   */
  lemma ApproveOnce(subs: map<int, PySubmission>, id: int, decode: TeamDecoder)
    requires ApproveCheck(subs, id, decode).None?
    ensures ApproveCheck(subs[id := subs[id].(status := Submissions.Approved)], id, decode)
              == Some(HttpError(500, "400: Submission already processed"))
    ensures ApproveCheck(subs[id := subs[id].(status := Submissions.Rejected)], id, decode)
              == Some(HttpError(500, "400: Submission already processed"))
  {
  }

  /**
   * The approval rows carry the cleaned teams' signatures: IDs <= 0 and the
   * order of the team never change the signature.
   */
  lemma ApprovalSigIgnoresOrder(sub: PySubmission, a: seq<int>, b: seq<int>, def: seq<int>, now: int)
    requires forall x :: x > 0 ==> multiset(a)[x] == multiset(b)[x]
    ensures ApprovalRow(sub, a, def, now).atkSig == ApprovalRow(sub, b, def, now).atkSig
  {
    forall x ensures multiset(Clean(a))[x] == multiset(Clean(b))[x] {
      CleanMultiset(a, x);
      CleanMultiset(b, x);
    }
    assert multiset(Clean(a)) == multiset(Clean(b));
    SortedSigIff(Clean(a), Clean(b));
  }
}
