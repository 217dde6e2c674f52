/**
 * The data-entry page (client/src/pages/Settings/SettingsPage.jsx) and its
 * predecessor (client/src/components/SettingsPage.jsx): the six-slot team
 * editors, the checks before a manual entry is confirmed, the request an
 * admin's confirmed entry sends, and the size gate of the import file.
 * Numbers are typed into text inputs and read with parseInt; NaN is None.
 */
module SettingsPage {
  import opened Wrappers
  import Decimal
  import ArenaPage
  import StatsHandler

  /** The largest win or loss count the form lets through. */
  const MaxCount: int := 2000

  /** The largest import file: 20 MiB. */
  const MaxFileSize: int := 20 * 1024 * 1024

  /** team.filter(id => id > 0): the filled slots, in slot order. */
  function CleanTeam(team: seq<int>): (r: seq<int>)
    ensures |r| <= |team|
    ensures forall x :: x in r <==> x in team && x > 0
  {
    if team == [] then []
    else CleanTeam(team[..|team| - 1]) + (if team[|team| - 1] > 0 then [team[|team| - 1]] else [])
  }

  lemma {:induction false} CleanAppend(a: seq<int>, b: seq<int>)
    ensures CleanTeam(a + b) == CleanTeam(a) + CleanTeam(b)
    decreases |b|
  {
    if b == [] {
      assert a + b == a;
    } else {
      var init := b[..|b| - 1];
      assert (a + b)[..|a + b| - 1] == a + init;
      assert (a + b)[|a + b| - 1] == b[|b| - 1];
      CleanAppend(a, init);
    }
  }

  /**
   * What the submitted team becomes after a slot edit: a cleared slot drops
   * out, a slot holding a student's (positive) ID appears at its place
   * among the other filled slots.
   */
  lemma SlotEditInCleanTeam(team: seq<int>, index: nat, id: int)
    requires index < |team|
    ensures CleanTeam(team[index := id]) == CleanTeam(team[..index]) + (if id > 0 then [id] else []) + CleanTeam(team[index + 1..])
  {
    var t := team[index := id];
    assert t == team[..index] + [id] + team[index + 1..];
    CleanAppend(team[..index] + [id], team[index + 1..]);
    CleanAppend(team[..index], [id]);
    assert CleanTeam([id]) == CleanTeam([]) + (if id > 0 then [id] else []) by {
      assert [id][..0] == [];
    }
  }

  /** A JavaScript comparison with NaN (None) is false. */
  predicate Below(v: Option<int>, c: int) { v.Some? && v.value < c }
  predicate Above(v: Option<int>, c: int) { v.Some? && v.value > c }

  /** What handlePreSubmit ends in: the first error message, or the confirm dialog. */
  datatype PreSubmitOutcome = EmptyTeam | BadSeason | NegativeCount | TooMany | ZeroCounts | Confirm

  /**
   * handlePreSubmit as written: the guards in their order, each compared
   * the JavaScript way, so a NaN passes every one of them.
   */
  function PreSubmit(atk: seq<int>, def: seq<int>, season: string, wins: string, losses: string): (r: PreSubmitOutcome)
    ensures r == EmptyTeam <==> CleanTeam(atk) == [] || CleanTeam(def) == []
    ensures var s := Decimal.JsParseInt(season);
            var w := Decimal.JsParseInt(wins);
            var l := Decimal.JsParseInt(losses);
            r == Confirm <==>
              CleanTeam(atk) != [] && CleanTeam(def) != [] && !Below(s, 1) && !Below(w, 0) && !Below(l, 0)
              && !Above(w, MaxCount) && !Above(l, MaxCount) && !(w == Some(0) && l == Some(0))
  {
    var s := Decimal.JsParseInt(season);
    var w := Decimal.JsParseInt(wins);
    var l := Decimal.JsParseInt(losses);
    if CleanTeam(atk) == [] || CleanTeam(def) == [] then EmptyTeam
    else if Below(s, 1) then BadSeason
    else if Below(w, 0) || Below(l, 0) then NegativeCount
    else if Above(w, MaxCount) || Above(l, MaxCount) then TooMany
    else if w == Some(0) && l == Some(0) then ZeroCounts
    else Confirm
  }

  /** The number a parseInt result carries over JSON: NaN serialises as null, which the Go handler reads as 0. */
  function Wire(v: Option<int>): int {
    if v.Some? then v.value else 0
  }

  /**
   * handleFinalSubmit for an admin: the manualAddRecord request, with the
   * filled slots only and parseInt of each number; no loadouts are sent.
   */
  function AdminRequest(server: string, season: string, tag: string, atk: seq<int>, def: seq<int>,
                        wins: string, losses: string): (req: StatsHandler.ManualAddRequest)
    ensures req.atkTeam == CleanTeam(atk) && req.defTeam == CleanTeam(def)
    ensures forall x :: x in req.atkTeam + req.defTeam ==> x > 0
    ensures Decimal.JsParseInt(season).Some? ==> req.season == Decimal.JsParseInt(season).value
    ensures Decimal.JsParseInt(wins).Some? ==> req.wins == Decimal.JsParseInt(wins).value
  {
    StatsHandler.ManualAddRequest(server, Wire(Decimal.JsParseInt(season)), tag, CleanTeam(atk), CleanTeam(def),
                                  Wire(Decimal.JsParseInt(wins)), Wire(Decimal.JsParseInt(losses)), [], [])
  }

  /** The three inputs of the entry below, as parseInt reads them. */
  lemma EntryNumbers()
    ensures Decimal.JsParseInt("").None?
    ensures Decimal.JsParseInt("1") == Some(1) && Decimal.JsParseInt("0") == Some(0)
  {
    Decimal.JsParseIntItoa(1);
    Decimal.JsParseIntItoa(0);
    assert Decimal.IntToString(1) == "1";
    assert Decimal.IntToString(0) == "0";
  }

  /** A team with one student in the first slot is not empty once cleaned. */
  lemma OneStudentTeam(x: int)
    requires x > 0
    ensures CleanTeam([x, 0, 0, 0, 0, 0]) != []
  {
    assert [x, 0, 0, 0, 0, 0][0] == x;
    assert x in CleanTeam([x, 0, 0, 0, 0, 0]);
  }

  /**
   * An empty season box passes every check of handlePreSubmit, and the
   * request the confirmed entry then sends is one the server refuses.
   */
  lemma PreSubmitLetsEmptySeasonThrough()
    ensures PreSubmit([10000, 0, 0, 0, 0, 0], [10001, 0, 0, 0, 0, 0], "", "1", "0") == Confirm
    ensures StatsHandler.ManualAddError(AdminRequest("global", "", "", [10000, 0, 0, 0, 0, 0], [10001, 0, 0, 0, 0, 0], "1", "0")).Some?
  {
    EntryNumbers();
    OneStudentTeam(10000);
    OneStudentTeam(10001);
  }

  /**
   * handlePreSubmit with the evident intent: a number that does not parse
   * fails the check it feeds, as an out-of-range one does.
   */
  function PreSubmitChecked(atk: seq<int>, def: seq<int>, season: string, wins: string, losses: string): (r: PreSubmitOutcome)
    ensures r == EmptyTeam <==> CleanTeam(atk) == [] || CleanTeam(def) == []
    ensures r == Confirm ==> PreSubmit(atk, def, season, wins, losses) == Confirm
  {
    var s := Decimal.JsParseInt(season);
    var w := Decimal.JsParseInt(wins);
    var l := Decimal.JsParseInt(losses);
    if CleanTeam(atk) == [] || CleanTeam(def) == [] then EmptyTeam
    else if s.None? || s.value < 1 then BadSeason
    else if w.None? || l.None? || w.value < 0 || l.value < 0 then NegativeCount
    else if w.value > MaxCount || l.value > MaxCount then TooMany
    else if w.value == 0 && l.value == 0 then ZeroCounts
    else Confirm
  }

  /**
   * A confirmed entry under the corrected check sends a request the Go
   * handler accepts, with non-empty teams of positive IDs and counts of at
   * most MaxCount; the two checks agree whenever all three numbers parse.
   */
  lemma CheckedConfirmAccepted(server: string, season: string, tag: string, atk: seq<int>, def: seq<int>,
                               wins: string, losses: string)
    ensures PreSubmitChecked(atk, def, season, wins, losses) == Confirm ==>
              var req := AdminRequest(server, season, tag, atk, def, wins, losses);
              StatsHandler.ManualAddError(req).None? && req.atkTeam != [] && req.defTeam != []
              && req.wins <= MaxCount && req.losses <= MaxCount
    ensures Decimal.JsParseInt(season).Some? && Decimal.JsParseInt(wins).Some? && Decimal.JsParseInt(losses).Some? ==>
              PreSubmitChecked(atk, def, season, wins, losses) == PreSubmit(atk, def, season, wins, losses)
  {
  }

  /** What the predecessor page's handleManualSubmit does. */
  datatype LegacyOutcome =
    | TeamsEmpty
    | Sent(season: Option<int>, tag: string, atkTeam: seq<int>, defTeam: seq<int>, wins: Option<int>, losses: Option<int>)

  /**
   * The predecessor's only check is that both cleaned teams are non-empty;
   * season and counts go out as parsed, whatever they are.
   */
  function LegacyManualSubmit(atk: seq<int>, def: seq<int>, season: string, tag: string, wins: string, losses: string): (r: LegacyOutcome)
    ensures r.TeamsEmpty? <==> CleanTeam(atk) == [] || CleanTeam(def) == []
    ensures r.Sent? ==> r.atkTeam == CleanTeam(atk) && r.defTeam == CleanTeam(def)
                        && r.season == Decimal.JsParseInt(season) && r.wins == Decimal.JsParseInt(wins)
  {
    if CleanTeam(atk) == [] || CleanTeam(def) == [] then TeamsEmpty
    else Sent(Decimal.JsParseInt(season), tag, CleanTeam(atk), CleanTeam(def), Decimal.JsParseInt(wins), Decimal.JsParseInt(losses))
  }

  /** Every entry the current page confirms, the predecessor sent too; the predecessor also sent zero counts. */
  lemma LegacyLooser(atk: seq<int>, def: seq<int>, season: string, tag: string, wins: string, losses: string)
    ensures PreSubmit(atk, def, season, wins, losses) == Confirm ==> LegacyManualSubmit(atk, def, season, tag, wins, losses).Sent?
    ensures PreSubmit(atk, def, "9", "0", "0") == ZeroCounts || PreSubmit(atk, def, "9", "0", "0") == EmptyTeam
    ensures LegacyManualSubmit(atk, def, "9", tag, "0", "0").Sent? <==> PreSubmit(atk, def, "9", "0", "0") == ZeroCounts
  {
    Decimal.JsParseIntItoa(9);
    Decimal.JsParseIntItoa(0);
    assert Decimal.IntToString(9) == "9";
    assert Decimal.IntToString(0) == "0";
  }

  /** What picking an import file leads to. */
  datatype FileOutcome = NoFile | TooLarge | AskConfirm(size: int)

  /** handleFileSelect: no file does nothing; over 20 MiB is refused; otherwise the import is offered for confirmation. */
  function FileSelect(size: Option<int>): (r: FileOutcome)
    ensures r.NoFile? <==> size.None?
    ensures r.AskConfirm? <==> size.Some? && size.value <= MaxFileSize
    ensures r.AskConfirm? ==> r.size == size.value
  {
    if size.None? then NoFile
    else if size.value > MaxFileSize then TooLarge
    else AskConfirm(size.value)
  }

  /** A file of exactly 20 MiB is accepted; one byte more is refused. */
  lemma FileSizeBoundary()
    ensures FileSelect(Some(20971520)) == AskConfirm(20971520)
    ensures FileSelect(Some(20971521)) == TooLarge
  {
  }

  /** The two six-slot team editors and the slot the open selector will fill. */
  class TeamEditor {
    var atkTeam: seq<int>
    var defTeam: seq<int>
    var pending: Option<(string, nat)>

    predicate Valid()
      reads this
    {
      |atkTeam| == 6 && |defTeam| == 6 && (pending.Some? ==> pending.value.1 < 6)
    }

    constructor ()
      ensures Valid() && atkTeam == [0, 0, 0, 0, 0, 0] && defTeam == [0, 0, 0, 0, 0, 0] && pending.None?
    {
      atkTeam := [0, 0, 0, 0, 0, 0];
      defTeam := [0, 0, 0, 0, 0, 0];
      pending := None;
    }

    /**
     * openSelector: remembers the side and slot the pick goes to and opens
     * the selector on strikers for slots 0-3 and specials beyond.
     */
    method OpenSelector(side: string, index: nat) returns (filter: ArenaPage.StudentFilter)
      requires Valid() && index < 6
      modifies this
      ensures Valid() && pending == Some((side, index))
      ensures filter == (if index < 4 then ArenaPage.Striker else ArenaPage.Special)
      ensures atkTeam == old(atkTeam) && defTeam == old(defTeam)
    {
      pending := Some((side, index));
      filter := ArenaPage.SelectorFilter(Some(index));
    }

    /** The selector callback: the remembered slot of the remembered side ("atk", else defence) takes the ID. */
    method Picked(studentId: int)
      requires Valid() && pending.Some?
      modifies this
      ensures Valid() && pending == old(pending)
      ensures old(pending).value.0 == "atk" ==>
                atkTeam == old(atkTeam)[old(pending).value.1 := studentId] && defTeam == old(defTeam)
      ensures old(pending).value.0 != "atk" ==>
                defTeam == old(defTeam)[old(pending).value.1 := studentId] && atkTeam == old(atkTeam)
    {
      var (side, index) := pending.value;
      if side == "atk" {
        var newTeam := atkTeam;
        newTeam := newTeam[index := studentId];
        atkTeam := newTeam;
      } else {
        var newTeam := defTeam;
        newTeam := newTeam[index := studentId];
        defTeam := newTeam;
      }
    }

    /** clearSlot: that slot of that side becomes 0, which the submitted team leaves out. */
    method ClearSlot(side: string, index: nat)
      requires Valid() && index < 6
      modifies this
      ensures Valid() && pending == old(pending)
      ensures side == "atk" ==> atkTeam == old(atkTeam)[index := 0] && defTeam == old(defTeam)
      ensures side != "atk" ==> defTeam == old(defTeam)[index := 0] && atkTeam == old(atkTeam)
    {
      if side == "atk" {
        atkTeam := atkTeam[index := 0];
      } else {
        defTeam := defTeam[index := 0];
      }
    }
  }
}
