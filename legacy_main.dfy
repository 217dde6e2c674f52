/**
 * The first-generation Python server (server/main.py): its own signature
 * rule (the first four IDs as given, the rest sorted as strings), the
 * Wilson lower bound's empty-sample case, and the battle rows written by
 * manual_add and upload_json. Unlike the routers, these rows carry no
 * server column, manual_add checks nothing, and an upload row without a
 * Season gets season 1.
 */
module LegacyMain {
  import opened Wrappers
  import Text
  import Decimal
  import Sorting
  import Team
  import PyRouters

  /** generate_signatures of main.py: (strict, smart). */
  function LegacySignatures(team: seq<int>): (string, string) {
    var ids := Team.Numerals(team);
    var strict := Text.Join(ids, ",");
    if |ids| >= 6 then (strict, Text.Join(ids[..4] + Sorting.SortLex(ids[4..]), ",")) else (strict, strict)
  }

  /**
   * The strict signature is the comma-join in input order. The smart one
   * equals it below six IDs; from six IDs on, it splits back into the first
   * four numerals unchanged followed by the others sorted as strings, the
   * same numerals each as often.
   */
  lemma {:induction false} LegacySignaturesShape(team: seq<int>)
    ensures LegacySignatures(team).0 == Team.JoinIds(team)
    ensures |team| < 6 ==> LegacySignatures(team).1 == LegacySignatures(team).0
    ensures |team| >= 6 ==>
              var parts := Text.Split(LegacySignatures(team).1, ',');
              var ids := Team.Numerals(team);
              |parts| == |team|
              && parts[..4] == ids[..4]
              && Sorting.LexSorted(parts[4..])
              && multiset(parts) == multiset(ids)
  {
    if |team| >= 6 {
      var ids := Team.Numerals(team);
      var sorted := Sorting.SortLex(ids[4..]);
      var final := ids[..4] + sorted;
      assert |sorted| == |ids[4..]| by {
        assert |multiset(sorted)| == |multiset(ids[4..])|;
      }
      assert forall i :: 0 <= i < |ids| ==> ',' !in ids[i] by {
        forall i | 0 <= i < |ids| ensures ',' !in ids[i] {
          Decimal.NumeralHasNo(team[i], ',');
        }
      }
      KeepsNoSeparator(ids, sorted);
      assert Text.Split(Text.Join(final, ","), ',') == final by {
        Text.SplitJoin(final, ',');
      }
      assert final[4..] == sorted;
      assert ids == ids[..4] + ids[4..];
    }
  }

  /** Reordering the tail of numerals brings in no separator. */
  lemma KeepsNoSeparator(ids: seq<string>, sorted: seq<string>)
    requires |ids| >= 4
    requires forall i :: 0 <= i < |ids| ==> ',' !in ids[i]
    requires multiset(sorted) == multiset(ids[4..])
    ensures forall i :: 0 <= i < |ids[..4] + sorted| ==> ',' !in (ids[..4] + sorted)[i]
  {
    var final := ids[..4] + sorted;
    forall i | 0 <= i < |final| ensures ',' !in final[i] {
      if i < 4 {
        assert final[i] == ids[i];
      } else {
        assert final[i] == sorted[i - 4];
        assert final[i] in multiset(ids[4..]);
        var k :| 0 <= k < |ids[4..]| && ids[4..][k] == final[i];
        assert ids[4 + k] == final[i];
      }
    }
  }

  /** The tail is sorted as strings, not as numbers: "10" comes before "9". */
  lemma LegacySortsAsStrings()
    ensures Sorting.SortLex(["9", "10"]) == ["10", "9"]
  {
    assert Sorting.LexLe("10", "9");
    assert !Sorting.LexLe("9", "10");
    assert Sorting.SortLex(["10"]) == ["10"];
  }

  /**
   * wilson_lower_bound with z = 1.96 on exact reals, the square root taken
   * as a parameter; an empty sample scores 0. For n != 0 the denominator
   * 1 + z^2/n is non-zero, since it vanishes only at n = -3.8416.
   */
  function WilsonLowerBound(wins: int, n: int, sqrt: real -> real): (score: real)
    ensures n == 0 ==> score == 0.0
  {
    if n == 0 then 0.0
    else
      var z := 1.96;
      var phat := wins as real / n as real;
      var numerator := phat + z * z / (2.0 * n as real)
                       - z * sqrt((phat * (1.0 - phat) + z * z / (4.0 * n as real)) / n as real);
      var denominator := 1.0 + z * z / n as real;
      numerator / denominator
  }

  /** A row of the legacy battles table: no server column. */
  datatype LegacyBattle = LegacyBattle(season: int, tag: string, timestamp: int, isWin: bool,
                                       atkSig: string, defSig: string, atkTeam: seq<int>, defTeam: seq<int>)

  datatype LegacyManualAddRequest = LegacyManualAddRequest(season: int, tag: string, atkTeam: seq<int>,
                                                           defTeam: seq<int>, wins: int, losses: int)

  function LegacyRow(season: int, tag: string, ts: int, isWin: bool, atk: seq<int>, def: seq<int>): LegacyBattle {
    LegacyBattle(season, tag, ts, isWin, PyRouters.SortedSig(atk), PyRouters.SortedSig(def), atk, def)
  }

  /** One record of an uploaded JSON list; a missing key is None. */
  datatype UploadRecord = UploadRecord(season: Option<int>, win: bool, tag: Option<string>,
                                       atkTeam: Option<seq<int>>, defTeam: Option<seq<int>>, time: Option<string>)

  function TeamOf(t: Option<seq<int>>): seq<int> {
    if t.Some? then t.value else []
  }

  /** Whether upload_json keeps a record: both teams present and non-empty. */
  predicate Kept(rec: UploadRecord) {
    TeamOf(rec.atkTeam) != [] && TeamOf(rec.defTeam) != []
  }

  /**
   * The timestamp of a record: the parsed Time when it is a non-empty string
   * that parses, otherwise the current time.
   */
  function TimestampOf(rec: UploadRecord, parse: string -> Option<int>, now: int): int {
    if rec.time.Some? && rec.time.value != "" && parse(rec.time.value).Some? then parse(rec.time.value).value else now
  }

  /** The row inserted for a kept record. */
  function UploadRow(rec: UploadRecord, parse: string -> Option<int>, now: int): LegacyBattle {
    LegacyRow(if rec.season.Some? then rec.season.value else 1,
              if rec.tag.Some? then rec.tag.value else "",
              TimestampOf(rec, parse, now), rec.win, TeamOf(rec.atkTeam), TeamOf(rec.defTeam))
  }

  /** The insert list of upload_json: one row per kept record, in order. */
  function UploadRows(data: seq<UploadRecord>, parse: string -> Option<int>, now: int): seq<LegacyBattle> {
    if data == [] then []
    else
      var last := data[|data| - 1];
      UploadRows(data[..|data| - 1], parse, now) + (if Kept(last) then [UploadRow(last, parse, now)] else [])
  }

  /** The number of kept records. */
  function KeptCount(data: seq<UploadRecord>): nat {
    if data == [] then 0 else KeptCount(data[..|data| - 1]) + (if Kept(data[|data| - 1]) then 1 else 0)
  }

  /**
   * One row per kept record; every row has a non-empty team on each side
   * and its teams' sorted signatures.
   */
  lemma {:induction false} UploadRowsShape(data: seq<UploadRecord>, parse: string -> Option<int>, now: int)
    ensures var rows := UploadRows(data, parse, now);
            |rows| == KeptCount(data) && forall i :: 0 <= i < |rows| ==> Shaped(rows[i])
  {
    if data != [] {
      var front, last := data[..|data| - 1], data[|data| - 1];
      var tail := if Kept(last) then [UploadRow(last, parse, now)] else [];
      UploadRowsShape(front, parse, now);
      assert UploadRows(data, parse, now) == UploadRows(front, parse, now) + tail;
      ShapedAppend(UploadRows(front, parse, now), tail);
    }
  }

  /** A row with a non-empty team on each side and its teams' sorted signatures. */
  predicate Shaped(row: LegacyBattle) {
    row.atkTeam != [] && row.defTeam != []
    && row.atkSig == PyRouters.SortedSig(row.atkTeam) && row.defSig == PyRouters.SortedSig(row.defTeam)
  }

  lemma ShapedAppend(a: seq<LegacyBattle>, b: seq<LegacyBattle>)
    requires forall i :: 0 <= i < |a| ==> Shaped(a[i])
    requires forall i :: 0 <= i < |b| ==> Shaped(b[i])
    ensures forall i :: 0 <= i < |a + b| ==> Shaped((a + b)[i])
  {
    forall i | 0 <= i < |a + b| ensures Shaped((a + b)[i]) {
      if i >= |a| {
        assert (a + b)[i] == b[i - |a|];
      }
    }
  }

  /** The battles table of the legacy server. */
  class LegacyDatabase {
    var battles: seq<LegacyBattle>

    constructor ()
      ensures battles == []
    {
      battles := [];
    }

    /**
     * main.py manual_add: no guard at all; `wins` win rows and `losses` loss
     * rows stamped `now` with the sorted signatures.
     */
    method ManualAdd(req: LegacyManualAddRequest, now: int) returns (added: nat)
      modifies this
      ensures battles == old(battles) + PyRouters.Records(LegacyRow(req.season, req.tag, now, true, req.atkTeam, req.defTeam),
                                                           LegacyRow(req.season, req.tag, now, false, req.atkTeam, req.defTeam),
                                                           req.wins, req.losses)
      ensures added == (if req.wins > 0 then req.wins else 0) + (if req.losses > 0 then req.losses else 0)
    {
      var atkSig := PyRouters.SortedSig(req.atkTeam);
      var defSig := PyRouters.SortedSig(req.defTeam);
      var winRow := LegacyBattle(req.season, req.tag, now, true, atkSig, defSig, req.atkTeam, req.defTeam);
      var recordsToAdd := PyRouters.ExpandRecords(winRow, winRow.(isWin := false), req.wins, req.losses);
      PyRouters.RecordsShape(winRow, winRow.(isWin := false), req.wins, req.losses);
      battles := battles + recordsToAdd;
      added := |recordsToAdd|;
    }

    /**
     * main.py upload_json: the loop skips records lacking a team and builds
     * the insert list; the rows are inserted together.
     */
    method UploadJSON(data: seq<UploadRecord>, parse: string -> Option<int>, now: int) returns (imported: nat)
      modifies this
      ensures battles == old(battles) + UploadRows(data, parse, now)
      ensures imported == KeptCount(data)
    {
      var insertList: seq<LegacyBattle> := [];
      for i := 0 to |data|
        invariant insertList == UploadRows(data[..i], parse, now)
      {
        assert data[..i + 1][..i] == data[..i];
        var row := data[i];
        var season := if row.season.Some? then row.season.value else 1;
        var tag := if row.tag.Some? then row.tag.value else "";
        var atkTeam := if row.atkTeam.Some? then row.atkTeam.value else [];
        var defTeam := if row.defTeam.Some? then row.defTeam.value else [];
        if atkTeam == [] || defTeam == [] {
          continue;
        }
        var timestamp := now;
        if row.time.Some? && row.time.value != "" {
          var parsed := parse(row.time.value);
          if parsed.Some? {
            timestamp := parsed.value;
          }
        }
        var atkSig := PyRouters.SortedSig(atkTeam);
        var defSig := PyRouters.SortedSig(defTeam);
        insertList := insertList + [LegacyBattle(season, tag, timestamp, row.win, atkSig, defSig, atkTeam, defTeam)];
      }
      assert data[..|data|] == data;
      UploadRowsShape(data, parse, now);
      battles := battles + insertList;
      imported := |insertList|;
    }
  }
}
