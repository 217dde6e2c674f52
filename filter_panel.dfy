/**
 * The filter panel of the arena page
 * (client/src/components/arena/ArenaFilterPanel.jsx): picking and clearing
 * a team slot of either side, the minimum-battles and minimum-win-rate
 * inputs, and the reset button. Each handler passes a new filter object up
 * through onChange; here it is the function's result.
 */
module FilterPanel {
  import opened Wrappers
  import Decimal
  import ApiClient

  type Filters = ApiClient.Filters

  /** Which slot map a side names: "atk" the attackers', anything else the defenders'. */
  datatype Side = Atk | Def

  function SideOf(side: string): (s: Side)
    ensures s == Atk <==> side == "atk"
  {
    if side == "atk" then Atk else Def
  }

  function SlotsOf(f: Filters, s: Side): map<nat, int> {
    if s == Atk then f.atkSlots else f.defSlots
  }

  function WithSlots(f: Filters, s: Side, slots: map<nat, int>): Filters {
    if s == Atk then f.(atkSlots := slots) else f.(defSlots := slots)
  }

  /**
   * The selector callback of handleSlotClick: that side's slot `index` now
   * holds the student's ID; every other slot, the other side and every
   * other filter field are unchanged.
   */
  function SlotPicked(f: Filters, side: string, index: nat, studentId: int): (r: Filters)
    ensures SlotsOf(r, SideOf(side)) == SlotsOf(f, SideOf(side))[index := studentId]
    ensures index in SlotsOf(r, SideOf(side)) && SlotsOf(r, SideOf(side))[index] == studentId
    ensures forall i :: i != index ==> (i in SlotsOf(r, SideOf(side)) <==> i in SlotsOf(f, SideOf(side)))
    ensures SideOf(side) == Atk ==> r == f.(atkSlots := r.atkSlots)
    ensures SideOf(side) == Def ==> r == f.(defSlots := r.defSlots)
  {
    var key := SideOf(side);
    WithSlots(f, key, SlotsOf(f, key)[index := studentId])
  }

  /** handleSlotClear: that side's slot map loses `index`; everything else is unchanged. */
  function SlotCleared(f: Filters, side: string, index: nat): (r: Filters)
    ensures index !in SlotsOf(r, SideOf(side))
    ensures forall i :: i != index ==> (i in SlotsOf(r, SideOf(side)) <==> i in SlotsOf(f, SideOf(side)))
    ensures forall i :: i != index && i in SlotsOf(r, SideOf(side)) ==> SlotsOf(r, SideOf(side))[i] == SlotsOf(f, SideOf(side))[i]
    ensures SideOf(side) == Atk ==> r == f.(atkSlots := r.atkSlots)
    ensures SideOf(side) == Def ==> r == f.(defSlots := r.defSlots)
  {
    var key := SideOf(side);
    WithSlots(f, key, SlotsOf(f, key) - {index})
  }

  /** Picking a student for a slot and then clearing it leaves the side's map without that slot, the rest as before. */
  lemma PickThenClear(f: Filters, side: string, index: nat, studentId: int)
    ensures SlotCleared(SlotPicked(f, side, index, studentId), side, index) == SlotCleared(f, side, index)
  {
    var key := SideOf(side);
    assert SlotsOf(f, key)[index := studentId] - {index} == SlotsOf(f, key) - {index};
  }

  /** Clearing a slot that is already empty changes nothing. */
  lemma ClearEmptySlot(f: Filters, side: string, index: nat)
    requires index !in SlotsOf(f, SideOf(side))
    ensures SlotCleared(f, side, index) == f
  {
    assert SlotsOf(f, SideOf(side)) - {index} == SlotsOf(f, SideOf(side));
  }

  /** The minimum-battles input: empty text is null, anything else parseInt of it (NaN as None). */
  function MinBattlesInput(text: string): (n: Option<int>)
    ensures text == "" ==> n.None?
    ensures text != "" ==> n == Decimal.JsParseInt(text)
  {
    if text == "" then None else Decimal.JsParseInt(text)
  }

  /** Typing the numeral of a count that is a safe integer sets exactly that count. */
  lemma MinBattlesTyped(n: int)
    requires Decimal.SafeInteger(n)
    ensures MinBattlesInput(Decimal.IntToString(n)) == Some(n)
  {
    Decimal.JsParseIntItoa(n);
  }

  /**
   * The minimum-win-rate input: a percentage; empty text is null, anything
   * else parseFloat of it (a parameter; NaN is None) divided by 100.
   */
  function MinWinRateInput(text: string, parseFloat: string -> Option<real>): (rate: Option<real>)
    ensures text == "" ==> rate.None?
    ensures text != "" ==> (rate.Some? <==> parseFloat(text).Some?)
    ensures rate.Some? ==> rate.value * 100.0 == parseFloat(text).value
  {
    if text == "" then None
    else if parseFloat(text).Some? then Some(parseFloat(text).value / 100.0)
    else None
  }

  /** The minimum-battles input changes only that field. */
  function WithMinBattles(f: Filters, text: string): (r: Filters)
    ensures r.minBattles == MinBattlesInput(text) && r == f.(minBattles := r.minBattles)
  {
    f.(minBattles := MinBattlesInput(text))
  }

  /**
   * The reset button: the empty filter object, so no season, win rate,
   * battle count, team or slot filter is left.
   */
  function Reset(): (r: Filters)
    ensures r.season.None? && r.minWinRate.None? && r.maxWinRate.None? && r.minBattles.None?
    ensures r.atkContains == [] && r.defContains == [] && r.atkSlots == map[] && r.defSlots == map[]
  {
    ApiClient.NoFilters
  }
}
