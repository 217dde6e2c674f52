/**
 * The aggregate tables of the Go backend (server/internal/repository/stats_repo.go).
 * arena_stats holds one row per (server, season, tag, atk signature, def
 * signature); arena_stats_details refines it by a loadout hash. Both tables
 * are maps here, and one row step (add the deltas, delete when the total is
 * no longer positive, clamp the wins) serves both.
 */
module StatsRepo {
  import opened Wrappers
  import Text
  import Team
  import Loadout
  import Decimal

  /** The five columns that identify an arena_stats row. */
  datatype SummaryKey = SummaryKey(server: string, season: int, tag: string, atkSig: string, defSig: string)

  /** The six columns that identify an arena_stats_details row: its summary's key and the loadout hash. */
  datatype DetailKey = DetailKey(group: SummaryKey, loadoutHash: string)

  datatype Counters = Counters(total: int, wins: int, lastSeen: int)

  /** A stored row: the columns copied from the last write, and its counters. */
  datatype Row<P> = Row(payload: P, counters: Counters)

  datatype Teams = Teams(atkTeam: seq<int>, defTeam: seq<int>)
  datatype Loadouts = Loadouts(teams: Teams, atkLoadout: seq<Loadout.Entry>, defLoadout: seq<Loadout.Entry>)

  type SummaryTable = map<SummaryKey, Row<Teams>>
  type DetailTable = map<DetailKey, Row<Loadouts>>

  /** StatsUpdateDTO. */
  datatype StatsUpdate = StatsUpdate(server: string, season: int, tag: string,
                                     atkTeam: seq<int>, defTeam: seq<int>,
                                     winsDelta: int, lossesDelta: int, timestamp: int)

  /** StatsDetailUpdateDTO: the summary fields plus both loadouts. */
  datatype DetailUpdate = DetailUpdate(base: StatsUpdate, atkLoadout: seq<Loadout.Entry>, defLoadout: seq<Loadout.Entry>)

  /** What every stored row satisfies. */
  predicate ValidCounters(c: Counters) {
    c.total > 0 && 0 <= c.wins <= c.total
  }

  predicate ValidTable<K(==), P>(t: map<K, Row<P>>) {
    forall k :: k in t ==> ValidCounters(t[k].counters)
  }

  /** The clamp of stats_repo.go:74-79, first to 0 and then to the total. */
  function Clamp(wins: int, total: int): int {
    if wins < 0 then 0 else if wins > total then total else wins
  }

  /**
   * How the counters are added. Python's int is exact; Go's `int` is 64
   * bits wide and wraps around (stats_repo.go:32, 53-54).
   */
  datatype Arithmetic = Exact | Wrapping64

  function Add(arith: Arithmetic, a: int, b: int): (r: int)
    ensures arith == Exact ==> r == a + b
    ensures arith == Wrapping64 ==> Decimal.MinInt64 <= r <= Decimal.MaxInt64 && (a + b - r) % Decimal.Two64 == 0
  {
    if arith == Exact then a + b else Decimal.Wrap64(a + b)
  }

  /** An item's wins delta plus its losses delta, the number a zero test skips on. */
  function TotalDelta(arith: Arithmetic, item: StatsUpdate): int {
    Add(arith, item.winsDelta, item.lossesDelta)
  }

  /**
   * The counters of a row after one item (stats_repo.go:52-79), given the
   * row's counters if it exists; None when the row is absent afterwards.
   */
  function Step(arith: Arithmetic, existing: Option<Counters>, winsDelta: int, lossesDelta: int, ts: int): (r: Option<Counters>)
    ensures r.Some? ==> ValidCounters(r.value)
  {
    var delta := Add(arith, winsDelta, lossesDelta);
    var newTotal := if existing.Some? then Add(arith, existing.value.total, delta) else delta;
    var newWins := if existing.Some? then Add(arith, existing.value.wins, winsDelta) else winsDelta;
    var newLastSeen :=
      if existing.None? then ts
      else if delta > 0 && ts > existing.value.lastSeen then ts
      else existing.value.lastSeen;
    if newTotal <= 0 then None
    else Some(Counters(newTotal, Clamp(newWins, newTotal), newLastSeen))
  }

  /** The table after one item for row k carrying payload p; a zero delta is skipped. */
  function Upsert<K(==), P>(arith: Arithmetic, t: map<K, Row<P>>, k: K, p: P, winsDelta: int, lossesDelta: int, ts: int): map<K, Row<P>> {
    if Add(arith, winsDelta, lossesDelta) == 0 then t
    else
      match Step(arith, if k in t then Some(t[k].counters) else None, winsDelta, lossesDelta, ts)
      case None => t - {k}
      case Some(c) => t[k := Row(p, c)]
  }

  /** What happens at the item's own key, before and after the clamp. */
  lemma UpsertAtKey<K, P>(arith: Arithmetic, t: map<K, Row<P>>, k: K, p: P, w: int, l: int, ts: int)
    requires Add(arith, w, l) != 0
    ensures var r := Upsert(arith, t, k, p, w, l, ts);
            var delta := Add(arith, w, l);
            var newTotal := if k in t then Add(arith, t[k].counters.total, delta) else delta;
            var newWins := if k in t then Add(arith, t[k].counters.wins, w) else w;
            (k in r <==> newTotal > 0)
            && (k in r ==> r[k].payload == p && r[k].counters.total == newTotal
                           && r[k].counters.wins == Clamp(newWins, newTotal))
            && (k !in t && k in r ==> r[k].counters.lastSeen == ts)
  {
  }

  /** Adding n battles to row k, or starting it with n, stays within Go's 64-bit int. */
  predicate RoomFor<K(==), P>(t: map<K, Row<P>>, k: K, n: int) {
    (if k in t then t[k].counters.total else 0) + n <= Decimal.MaxInt64
  }

  /** Deltas that leave room in a valid table are each within Go's 64-bit int. */
  lemma RoomBoundsDeltas<K, P>(t: map<K, Row<P>>, k: K, w: int, l: int)
    requires ValidTable(t) && w >= 0 && l >= 0 && RoomFor(t, k, w + l)
    ensures w <= Decimal.MaxInt64 && l <= Decimal.MaxInt64
  {
  }

  /**
   * Over valid rows, Go adds non-negative deltas without clamping and the
   * row exists afterwards, as long as the new total fits its 64-bit int.
   */
  lemma UpsertAddsBattles<K, P>(t: map<K, Row<P>>, k: K, p: P, w: int, l: int, ts: int)
    requires ValidTable(t) && w >= 0 && l >= 0 && w + l > 0 && RoomFor(t, k, w + l)
    ensures var r := Upsert(Wrapping64, t, k, p, w, l, ts);
            k in r
            && r[k].counters.total == (if k in t then t[k].counters.total else 0) + w + l
            && r[k].counters.wins == (if k in t then t[k].counters.wins else 0) + w
  {
    UpsertAtKey(Wrapping64, t, k, p, w, l, ts);
  }

  /**
   * Past the 64-bit range Go's sum wraps: wins = MaxInt64 with losses = 1
   * adds up to MinInt64, so the item deletes a stored row and never creates
   * an absent one, where exact arithmetic would grow the row by 2^63.
   */
  lemma OverflowDropsRow<K, P>(t: map<K, Row<P>>, k: K, p: P, ts: int)
    requires ValidTable(t) && RoomFor(t, k, 0)
    ensures k !in Upsert(Wrapping64, t, k, p, Decimal.MaxInt64, 1, ts)
    ensures k in Upsert(Exact, t, k, p, Decimal.MaxInt64, 1, ts)
  {
    assert Add(Wrapping64, Decimal.MaxInt64, 1) == Decimal.MinInt64;
    UpsertAtKey(Wrapping64, t, k, p, Decimal.MaxInt64, 1, ts);
    UpsertAtKey(Exact, t, k, p, Decimal.MaxInt64, 1, ts);
  }

  /** An item touches no row but its own. */
  lemma UpsertFrame<K, P>(arith: Arithmetic, t: map<K, Row<P>>, k: K, p: P, w: int, l: int, ts: int, other: K)
    requires other != k
    ensures var r := Upsert(arith, t, k, p, w, l, ts);
            (other in r <==> other in t) && (other in t ==> r[other] == t[other])
  {
  }

  /** An item with a zero delta changes nothing. */
  lemma UpsertZero<K, P>(arith: Arithmetic, t: map<K, Row<P>>, k: K, p: P, w: int, l: int, ts: int)
    requires Add(arith, w, l) == 0
    ensures Upsert(arith, t, k, p, w, l, ts) == t
  {
  }

  /** Every row written has total > 0 and 0 <= wins <= total. */
  lemma UpsertValid<K, P>(arith: Arithmetic, t: map<K, Row<P>>, k: K, p: P, w: int, l: int, ts: int)
    requires ValidTable(t)
    ensures ValidTable(Upsert(arith, t, k, p, w, l, ts))
  {
  }

  /** A row's lastSeen only moves forward, and only on a positive delta with a newer timestamp. */
  lemma UpsertLastSeen<K, P>(arith: Arithmetic, t: map<K, Row<P>>, k: K, p: P, w: int, l: int, ts: int)
    requires k in t && k in Upsert(arith, t, k, p, w, l, ts)
    ensures var r := Upsert(arith, t, k, p, w, l, ts);
            r[k].counters.lastSeen >= t[k].counters.lastSeen
            && (r[k].counters.lastSeen != t[k].counters.lastSeen <==> Add(arith, w, l) > 0 && ts > t[k].counters.lastSeen)
  {
  }

  /** A non-positive delta never creates a row. */
  lemma UpsertNeverCreatesOnLoss<K, P>(arith: Arithmetic, t: map<K, Row<P>>, k: K, p: P, w: int, l: int, ts: int)
    requires k !in t && Add(arith, w, l) <= 0
    ensures k !in Upsert(arith, t, k, p, w, l, ts)
  {
  }

  /**
   * In Go, adding (w, l) and then (-w, -l) to the same row restores its
   * total and wins, and removes the row when the first step created it, as
   * long as the grown total fits its 64-bit int.
   */
  lemma RevertRestores<K, P>(t: map<K, Row<P>>, k: K, p: P, q: P, w: int, l: int, ts: int, ts2: int)
    requires ValidTable(t) && w >= 0 && l >= 0 && w + l > 0 && RoomFor(t, k, w + l)
    ensures var r := Upsert(Wrapping64, Upsert(Wrapping64, t, k, p, w, l, ts), k, q, -w, -l, ts2);
            (k in r <==> k in t)
            && (k in t ==> r[k].counters.total == t[k].counters.total && r[k].counters.wins == t[k].counters.wins)
  {
    UpsertAddsBattles(t, k, p, w, l, ts);
    var m := Upsert(Wrapping64, t, k, p, w, l, ts);
    assert Add(Wrapping64, -w, -l) == -(w + l);
    UpsertAtKey(Wrapping64, m, k, q, -w, -l, ts2);
  }

  /** Two tables agree on which rows exist and on every row's total and wins. */
  ghost predicate SameCounts<K(!new), P>(a: map<K, Row<P>>, b: map<K, Row<P>>) {
    (forall k :: k in a <==> k in b)
    && (forall k :: k in a && k in b ==>
          a[k].counters.total == b[k].counters.total && a[k].counters.wins == b[k].counters.wins)
  }

  /**
   * The whole-table form of RevertRestores: in Go, adding non-negative
   * deltas to a row and then subtracting them again leaves every row's
   * existence, total and wins as they were, while the grown total fits.
   */
  lemma RevertRestoresTable<K(!new), P>(t: map<K, Row<P>>, k: K, p: P, q: P, w: int, l: int, ts: int, ts2: int)
    requires ValidTable(t) && w >= 0 && l >= 0 && RoomFor(t, k, w + l)
    ensures SameCounts(Upsert(Wrapping64, Upsert(Wrapping64, t, k, p, w, l, ts), k, q, -w, -l, ts2), t)
  {
    var m := Upsert(Wrapping64, t, k, p, w, l, ts);
    var r := Upsert(Wrapping64, m, k, q, -w, -l, ts2);
    if w + l == 0 {
      UpsertZero(Wrapping64, t, k, p, w, l, ts);
      UpsertZero(Wrapping64, m, k, q, -w, -l, ts2);
    } else {
      RevertRestores(t, k, p, q, w, l, ts, ts2);
      forall o | o != k
        ensures (o in r <==> o in t) && (o in t ==> r[o] == t[o])
      {
        UpsertFrame(Wrapping64, t, k, p, w, l, ts, o);
        UpsertFrame(Wrapping64, m, k, q, -w, -l, ts2, o);
      }
    }
  }

  lemma RemoveAbsent<K, V>(t: map<K, V>, k: K)
    requires k !in t
    ensures t - {k} == t
  {
  }

  /** The arena_stats key of an item: its own fields and both normalised signatures. */
  function SummaryKeyOf(item: StatsUpdate): SummaryKey {
    SummaryKey(item.server, item.season, item.tag, Team.Signature(item.atkTeam), Team.Signature(item.defTeam))
  }

  function ApplyStats(t: SummaryTable, item: StatsUpdate): SummaryTable {
    Upsert(Wrapping64, t, SummaryKeyOf(item), Teams(Team.Normalized(item.atkTeam), Team.Normalized(item.defTeam)),
           item.winsDelta, item.lossesDelta, item.timestamp)
  }

  /** The table after a batch, item by item in order. */
  function ApplyStatsAll(t: SummaryTable, items: seq<StatsUpdate>): SummaryTable {
    if items == [] then t
    else ApplyStats(ApplyStatsAll(t, items[..|items| - 1]), items[|items| - 1])
  }

  /** The number of items with a non-zero delta: the count a batch returns. */
  function Counted(arith: Arithmetic, items: seq<StatsUpdate>): (n: nat)
    ensures n <= |items|
  {
    if items == [] then 0
    else Counted(arith, items[..|items| - 1]) + (if TotalDelta(arith, items[|items| - 1]) == 0 then 0 else 1)
  }

  lemma ApplyStatsAllStep(t: SummaryTable, items: seq<StatsUpdate>, i: int)
    requires 0 <= i < |items|
    ensures ApplyStatsAll(t, items[..i + 1]) == ApplyStats(ApplyStatsAll(t, items[..i]), items[i])
    ensures Counted(Wrapping64, items[..i + 1]) == Counted(Wrapping64, items[..i]) + (if TotalDelta(Wrapping64, items[i]) == 0 then 0 else 1)
  {
    assert items[..i + 1][..i] == items[..i];
  }

  /** A batch of one item is that item's upsert. */
  lemma ApplyStatsSingle(t: SummaryTable, item: StatsUpdate)
    ensures ApplyStatsAll(t, [item]) == ApplyStats(t, item)
  {
    assert [item][..0] == [];
  }

  /** The loadout hash of a detail item, over both loadouts aligned to the normalised teams. */
  function LoadoutHashOf(item: DetailUpdate, sha1: string -> Loadout.Digest): string {
    var atk := Loadout.Aligned(Team.Normalized(item.base.atkTeam), item.atkLoadout);
    var def := Loadout.Aligned(Team.Normalized(item.base.defTeam), item.defLoadout);
    var raw := Loadout.RawKey(atk, def);
    raw + "::" + Loadout.ShortHex(sha1(raw))
  }

  function DetailKeyOf(item: DetailUpdate, sha1: string -> Loadout.Digest): DetailKey {
    DetailKey(SummaryKeyOf(item.base), LoadoutHashOf(item, sha1))
  }

  function DetailPayload(item: DetailUpdate): Loadouts {
    var atkList := Team.Normalized(item.base.atkTeam);
    var defList := Team.Normalized(item.base.defTeam);
    Loadouts(Teams(atkList, defList), Loadout.Aligned(atkList, item.atkLoadout), Loadout.Aligned(defList, item.defLoadout))
  }

  function ApplyDetail(t: DetailTable, item: DetailUpdate, sha1: string -> Loadout.Digest): DetailTable {
    Upsert(Wrapping64, t, DetailKeyOf(item, sha1), DetailPayload(item),
           item.base.winsDelta, item.base.lossesDelta, item.base.timestamp)
  }

  function ApplyDetailsAll(t: DetailTable, items: seq<DetailUpdate>, sha1: string -> Loadout.Digest): DetailTable {
    if items == [] then t
    else ApplyDetail(ApplyDetailsAll(t, items[..|items| - 1], sha1), items[|items| - 1], sha1)
  }

  function Bases(items: seq<DetailUpdate>): (r: seq<StatsUpdate>)
    ensures |r| == |items| && forall i :: 0 <= i < |items| ==> r[i] == items[i].base
  {
    seq(|items|, i requires 0 <= i < |items| => items[i].base)
  }

  lemma ApplyDetailsAllStep(t: DetailTable, items: seq<DetailUpdate>, i: int, sha1: string -> Loadout.Digest)
    requires 0 <= i < |items|
    ensures ApplyDetailsAll(t, items[..i + 1], sha1) == ApplyDetail(ApplyDetailsAll(t, items[..i], sha1), items[i], sha1)
    ensures Counted(Wrapping64, Bases(items[..i + 1])) == Counted(Wrapping64, Bases(items[..i])) + (if TotalDelta(Wrapping64, items[i].base) == 0 then 0 else 1)
  {
    assert items[..i + 1][..i] == items[..i];
    CountedBasesStep(items, i);
  }

  lemma CountedBasesStep(items: seq<DetailUpdate>, i: int)
    requires 0 <= i < |items|
    ensures Counted(Wrapping64, Bases(items[..i + 1])) == Counted(Wrapping64, Bases(items[..i])) + (if TotalDelta(Wrapping64, items[i].base) == 0 then 0 else 1)
  {
    var b := Bases(items[..i + 1]);
    assert b[..i] == Bases(items[..i]);
    assert b[i] == items[i].base;
  }

  lemma ApplyDetailSingle(t: DetailTable, item: DetailUpdate, sha1: string -> Loadout.Digest)
    ensures ApplyDetailsAll(t, [item], sha1) == ApplyDetail(t, item, sha1)
  {
    assert [item][..0] == [];
  }

  /** Two detail rows whose loadouts differ only in entries for IDs outside the team share a key. */
  lemma DetailKeyIgnoresForeignEntries(a: DetailUpdate, b: DetailUpdate, sha1: string -> Loadout.Digest)
    requires a.base == b.base
    requires Loadout.Aligned(Team.Normalized(a.base.atkTeam), a.atkLoadout) == Loadout.Aligned(Team.Normalized(b.base.atkTeam), b.atkLoadout)
    requires Loadout.Aligned(Team.Normalized(a.base.defTeam), a.defLoadout) == Loadout.Aligned(Team.Normalized(b.base.defTeam), b.defLoadout)
    ensures DetailKeyOf(a, sha1) == DetailKeyOf(b, sha1)
  {
  }

  /** Sum of totals, sum of wins, and the largest lastSeen (None over no rows). */
  datatype Agg = Agg(total: int, wins: int, lastSeen: Option<int>)

  function AddRow(a: Agg, c: Counters): Agg {
    Agg(a.total + c.total, a.wins + c.wins,
        if a.lastSeen.Some? && a.lastSeen.value >= c.lastSeen then a.lastSeen else Some(c.lastSeen))
  }

  /** The detail keys of ks that belong to summary g. */
  function GroupOf(ks: set<DetailKey>, g: SummaryKey): (r: set<DetailKey>)
    ensures r <= ks
  {
    set k | k in ks && k.group == g
  }

  lemma GroupOfAdd(done: set<DetailKey>, k: DetailKey, g: SummaryKey)
    requires k !in done
    ensures k.group == g ==> GroupOf(done + {k}, g) == GroupOf(done, g) + {k}
    ensures k.group == g ==> GroupOf(done + {k}, g) - {k} == GroupOf(done, g)
    ensures k.group != g ==> GroupOf(done + {k}, g) == GroupOf(done, g)
  {
  }

  /** COALESCE(SUM(total)), COALESCE(SUM(wins)) and MAX(last_seen) over the rows ks of t. */
  ghost function AggOver(t: DetailTable, ks: set<DetailKey>): Agg
    requires ks <= t.Keys
    decreases |ks|
  {
    if ks == {} then Agg(0, 0, None)
    else
      var k :| k in ks;
      AddRow(AggOver(t, ks - {k}), t[k].counters)
  }

  lemma AddRowCommutes(a: Agg, c: Counters, d: Counters)
    ensures AddRow(AddRow(a, c), d) == AddRow(AddRow(a, d), c)
  {
  }

  /** The aggregate does not depend on the order the rows are taken in. */
  lemma {:induction false} AggOverRemove(t: DetailTable, ks: set<DetailKey>, y: DetailKey)
    requires ks <= t.Keys && y in ks
    ensures AggOver(t, ks) == AddRow(AggOver(t, ks - {y}), t[y].counters)
    decreases |ks|
  {
    var k :| k in ks && AggOver(t, ks) == AddRow(AggOver(t, ks - {k}), t[k].counters);
    if k != y {
      AggOverRemove(t, ks - {k}, y);
      AggOverRemove(t, ks - {y}, k);
      assert ks - {k} - {y} == ks - {y} - {k};
      AddRowCommutes(AggOver(t, ks - {k} - {y}), t[y].counters, t[k].counters);
    }
  }

  /** Over valid rows: no rows sums to zero; otherwise the total is positive, wins are within it, and a maximum exists. */
  lemma {:induction false} AggOverValid(t: DetailTable, ks: set<DetailKey>)
    requires ks <= t.Keys && ValidTable(t)
    ensures var a := AggOver(t, ks);
            (ks == {} <==> a.total == 0)
            && 0 <= a.wins <= a.total
            && (a.lastSeen.Some? <==> ks != {})
    decreases |ks|
  {
    if ks != {} {
      var k :| k in ks;
      AggOverRemove(t, ks, k);
      AggOverValid(t, ks - {k});
    }
  }

  /** The aggregated lastSeen is the largest lastSeen of the rows. */
  lemma {:induction false} AggOverMax(t: DetailTable, ks: set<DetailKey>)
    requires ks <= t.Keys && ks != {}
    ensures AggOver(t, ks).lastSeen.Some?
    ensures forall k :: k in ks ==> t[k].counters.lastSeen <= AggOver(t, ks).lastSeen.value
    ensures exists k :: k in ks && t[k].counters.lastSeen == AggOver(t, ks).lastSeen.value
    decreases |ks|
  {
    var k :| k in ks;
    AggOverRemove(t, ks, k);
    if ks - {k} != {} {
      AggOverMax(t, ks - {k});
    } else {
      assert ks == {k};
    }
  }

  /** The keys an item list names. */
  function ItemSet<T>(items: seq<T>): set<T> {
    set k | k in items
  }

  /** The summaries an item list touches. */
  function GroupsOf(items: seq<DetailKey>): set<SummaryKey> {
    set k | k in items :: k.group
  }

  lemma ItemSetStep(t: DetailTable, items: seq<DetailKey>, i: int)
    requires 0 <= i < |items|
    ensures ItemSet(items[..i + 1]) == ItemSet(items[..i]) + {items[i]}
    ensures GroupsOf(items[..i + 1]) == GroupsOf(items[..i]) + {items[i].group}
    ensures RowsDeleted(t.Keys, items[..i + 1]) == RowsDeleted(t.Keys, items[..i]) + (if items[i] in t && items[i] !in ItemSet(items[..i]) then 1 else 0)
  {
    assert items[..i + 1] == items[..i] + [items[i]];
    assert items[..i + 1][..i] == items[..i];
  }

  /** The rows a delete list removes from t, each counted once, the first time it is named. */
  function RowsDeleted<T>(present: set<T>, items: seq<T>): nat {
    if items == [] then 0
    else
      var rest := items[..|items| - 1];
      var x := items[|items| - 1];
      RowsDeleted(present, rest) + (if x in present && x !in ItemSet(rest) then 1 else 0)
  }

  /** That count is the number of listed keys present in t. */
  lemma {:induction false} RowsDeletedCount<T>(present: set<T>, items: seq<T>)
    ensures RowsDeleted(present, items) == |present * ItemSet(items)|
  {
    if items != [] {
      var rest := items[..|items| - 1];
      var x := items[|items| - 1];
      RowsDeletedCount(present, rest);
      assert items == rest + [x];
      assert ItemSet(items) == ItemSet(rest) + {x};
      CountStep(present, ItemSet(rest), x);
    }
  }

  /** Naming one more key adds one deleted row iff that row was still there. */
  lemma CountStep<T>(present: set<T>, removed: set<T>, x: T)
    ensures |present * (removed + {x})| == |present * removed| + (if x in present && x !in removed then 1 else 0)
  {
    if x in present && x !in removed {
      assert present * (removed + {x}) == present * removed + {x};
    } else {
      assert present * (removed + {x}) == present * removed;
    }
  }

  /** The summary row g as recalcSummaryFromDetails leaves it for detail table d. */
  ghost predicate Recalculated(s: SummaryTable, d: DetailTable, g: SummaryKey) {
    var a := AggOver(d, GroupOf(d.Keys, g));
    if a.total == 0 then g !in s
    else
      g in s && a.lastSeen.Some?
      && s[g].counters == Counters(a.total, a.wins, a.lastSeen.value)
      && exists k :: k in d && k.group == g && s[g].payload == d[k].payload.teams
  }

  /** GetFilteredSummaries' ORDER BY column. */
  datatype SortColumn = TotalBattles | LastSeen | AvgWinRate | WilsonScore

  /** stats_repo.go:254-269: the direction is ascending iff the lower-cased sort contains "asc". */
  function OrderBy(sort: string): (r: (SortColumn, bool))
    ensures r.1 <==> Text.Contains(Text.ToLower(sort), "asc")
  {
    var ascending := Text.Contains(Text.ToLower(sort), "asc");
    var column :=
      if sort == "newest" then LastSeen
      else if Text.Contains(sort, "win_rate") then AvgWinRate
      else if sort == "composite" then WilsonScore
      else TotalBattles;
    (column, ascending)
  }

  /** The sort choices the summary list offers that name a column. */
  lemma ClientSortColumns()
    ensures OrderBy("newest").0 == LastSeen
    ensures OrderBy("win_rate_desc").0 == AvgWinRate
    ensures OrderBy("win_rate_asc").0 == AvgWinRate
  {
    assert Text.OccursAt("win_rate_desc", "win_rate", 0);
    assert Text.OccursAt("win_rate_asc", "win_rate", 0);
  }

  /**
   * stats_repo.go:273: (Page - 1) * Limit in uint64 arithmetic, so page 0
   * wraps around instead of giving a negative offset.
   */
  function Offset(page: nat, limit: nat): (o: nat)
    requires page < Decimal.Two64 && limit < Decimal.Two64
    ensures o < Decimal.Two64
  {
    var before := (page - 1) % Decimal.Two64;
    (before * limit) % Decimal.Two64
  }

  /** For page >= 1 and no overflow, the offset skips the previous pages exactly. */
  lemma OffsetOfPage(page: nat, limit: nat)
    requires 1 <= page < Decimal.Two64 && limit < Decimal.Two64 && (page - 1) * limit < Decimal.Two64
    ensures Offset(page, limit) == (page - 1) * limit
  {
  }

  /** Page 0 wraps to the largest page, so with a limit of 20 the offset is 2^64 - 20. */
  lemma OffsetOfPageZero(limit: nat)
    requires 0 < limit < Decimal.Two64
    ensures Offset(0, limit) == Decimal.Two64 - limit
  {
    assert (0 - 1) % Decimal.Two64 == Decimal.Two64 - 1;
    assert (Decimal.Two64 - 1) * limit == (limit - 1) * Decimal.Two64 + (Decimal.Two64 - limit);
  }

  /** The two tables of the Go backend; the SHA-1 of the loadout hash is a fixed function. */
  class StatsRepository {
    var summaries: SummaryTable
    var details: DetailTable
    const sha1: string -> Loadout.Digest

    ghost predicate Valid()
      reads this
    {
      ValidTable(summaries) && ValidTable(details)
    }

    constructor(sha1: string -> Loadout.Digest)
      ensures summaries == map[] && details == map[] && this.sha1 == sha1
      ensures Valid()
    {
      summaries := map[];
      details := map[];
      this.sha1 := sha1;
    }

    /** stats_repo.go BatchUpsertStats: the items in order, returning how many were not skipped. */
    method BatchUpsertStats(updates: seq<StatsUpdate>) returns (count: int)
      requires Valid()
      modifies this`summaries
      ensures summaries == ApplyStatsAll(old(summaries), updates)
      ensures count == Counted(Wrapping64, updates)
      ensures Valid()
    {
      count := 0;
      for i := 0 to |updates|
        invariant summaries == ApplyStatsAll(old(summaries), updates[..i])
        invariant count == Counted(Wrapping64, updates[..i])
        invariant Valid()
      {
        ApplyStatsAllStep(old(summaries), updates, i);
        var counted := UpsertStatsItem(updates[i]);
        if counted {
          count := count + 1;
        }
      }
      assert updates[..|updates|] == updates;
    }

    /** The body of BatchUpsertStats' loop (stats_repo.go:29-101) for one item. */
    method UpsertStatsItem(item: StatsUpdate) returns (counted: bool)
      requires Valid()
      modifies this`summaries
      ensures summaries == ApplyStats(old(summaries), item)
      ensures counted <==> TotalDelta(Wrapping64, item) != 0
      ensures Valid()
    {
      var key, payload := StatsTarget(item);
      var totalDelta := Add(Wrapping64, item.winsDelta, item.lossesDelta);
      if totalDelta == 0 {
        return false;
      }
      summaries := UpsertRow(summaries, key, payload, item.winsDelta, item.lossesDelta, item.timestamp);
      UpsertValid(Wrapping64, old(summaries), key, payload, item.winsDelta, item.lossesDelta, item.timestamp);
      counted := true;
    }

    /** stats_repo.go BatchUpsertDetails: as BatchUpsertStats, keyed by the loadout hash as well. */
    method BatchUpsertDetails(updates: seq<DetailUpdate>) returns (count: int)
      requires Valid()
      modifies this`details
      ensures details == ApplyDetailsAll(old(details), updates, sha1)
      ensures count == Counted(Wrapping64, Bases(updates))
      ensures Valid()
    {
      count := 0;
      for i := 0 to |updates|
        invariant details == ApplyDetailsAll(old(details), updates[..i], sha1)
        invariant count == Counted(Wrapping64, Bases(updates[..i]))
        invariant Valid()
      {
        ApplyDetailsAllStep(old(details), updates, i, sha1);
        var counted := UpsertDetailItem(updates[i]);
        if counted {
          count := count + 1;
        }
      }
      assert updates[..|updates|] == updates;
    }

    /** The body of BatchUpsertDetails' loop (stats_repo.go:114-193) for one item. */
    method UpsertDetailItem(item: DetailUpdate) returns (counted: bool)
      requires Valid()
      modifies this`details
      ensures details == ApplyDetail(old(details), item, sha1)
      ensures counted <==> TotalDelta(Wrapping64, item.base) != 0
      ensures Valid()
    {
      var key, payload := DetailTarget(item, sha1);
      var totalDelta := Add(Wrapping64, item.base.winsDelta, item.base.lossesDelta);
      if totalDelta == 0 {
        return false;
      }
      details := UpsertRow(details, key, payload, item.base.winsDelta, item.base.lossesDelta, item.base.timestamp);
      UpsertValid(Wrapping64, old(details), key, payload, item.base.winsDelta, item.base.lossesDelta, item.base.timestamp);
      counted := true;
    }

    /** stats_repo.go:29-30 and 40-41: the normalised teams, and the row's key. */
    static method StatsTarget(item: StatsUpdate) returns (key: SummaryKey, payload: Teams)
      ensures key == SummaryKeyOf(item) && payload == Teams(Team.Normalized(item.atkTeam), Team.Normalized(item.defTeam))
    {
      var atkList, atkSig := Team.NormalizeTeam(item.atkTeam);
      var defList, defSig := Team.NormalizeTeam(item.defTeam);
      payload := Teams(atkList, defList);
      key := SummaryKey(item.server, item.season, item.tag, atkSig, defSig);
    }

    /** stats_repo.go:114-119 and 129-130: the normalised teams and loadouts, and the row's key. */
    static method DetailTarget(item: DetailUpdate, sha1: string -> Loadout.Digest) returns (key: DetailKey, payload: Loadouts)
      ensures key == DetailKeyOf(item, sha1) && payload == DetailPayload(item)
    {
      var atkList, atkSig := Team.NormalizeTeam(item.base.atkTeam);
      var defList, defSig := Team.NormalizeTeam(item.base.defTeam);
      var normAtkLoadout := Loadout.NormalizeLoadout(atkList, item.atkLoadout);
      var normDefLoadout := Loadout.NormalizeLoadout(defList, item.defLoadout);
      var loadoutHash := Loadout.BuildLoadoutHash(normAtkLoadout, normDefLoadout, sha1);
      payload := Loadouts(Teams(atkList, defList), normAtkLoadout, normDefLoadout);
      key := DetailKey(SummaryKey(item.base.server, item.base.season, item.base.tag, atkSig, defSig), loadoutHash);
    }

    /** stats_repo.go DeleteSummary: removes the row, reporting how many rows went. */
    method DeleteSummary(key: SummaryKey) returns (affected: int)
      requires Valid()
      modifies this`summaries
      ensures summaries == old(summaries) - {key}
      ensures affected == if key in old(summaries) then 1 else 0
      ensures Valid()
    {
      affected := if key in summaries then 1 else 0;
      summaries := summaries - {key};
    }

    /**
     * The aggregate query of recalcSummaryFromDetails (stats_repo.go:380-400):
     * sums and maximum over the details of summary key, and one of them.
     */
    method AggregateGroup(key: SummaryKey) returns (agg: Agg, first: Option<Loadouts>)
      ensures agg == AggOver(details, GroupOf(details.Keys, key))
      ensures first.None? <==> GroupOf(details.Keys, key) == {}
      ensures first.Some? ==> exists k :: k in details && k.group == key && details[k].payload == first.value
    {
      var todo := details.Keys;
      ghost var done: set<DetailKey> := {};
      agg := Agg(0, 0, None);
      first := None;
      while todo != {}
        invariant todo <= details.Keys && done == details.Keys - todo
        invariant agg == AggOver(details, GroupOf(done, key))
        invariant first.None? <==> GroupOf(done, key) == {}
        invariant first.Some? ==> exists k :: k in done && k.group == key && details[k].payload == first.value
        decreases |todo|
      {
        var k :| k in todo;
        GroupOfAdd(done, k, key);
        if k.group == key {
          AggOverRemove(details, GroupOf(done + {k}, key), k);
          agg := AddRow(agg, details[k].counters);
          if first.None? {
            first := Some(details[k].payload);
          }
        }
        done := done + {k};
        todo := todo - {k};
      }
      assert done == details.Keys;
    }

    /**
     * stats_repo.go recalcSummaryFromDetails: with no details of summary key
     * left, delete the summary, otherwise write the sums, the latest
     * lastSeen and one detail's team lists.
     */
    method RecalcSummaryFromDetails(key: SummaryKey)
      requires Valid()
      modifies this`summaries
      ensures Recalculated(summaries, details, key)
      ensures forall g :: g != key ==> (g in summaries <==> g in old(summaries))
      ensures forall g :: g != key && g in summaries ==> summaries[g] == old(summaries)[g]
      ensures Valid()
    {
      var agg, first := AggregateGroup(key);
      AggOverValid(details, GroupOf(details.Keys, key));
      if agg.total == 0 {
        var _ := DeleteSummary(key);
      } else {
        summaries := summaries[key := Row(first.value.teams, Counters(agg.total, agg.wins, agg.lastSeen.value))];
      }
    }

    /**
     * stats_repo.go DeleteDetailsAndRecalc: delete each listed detail row,
     * counting the rows that went, then recalculate every summary one of the
     * items belonged to.
     */
    method DeleteDetailsAndRecalc(items: seq<DetailKey>) returns (deleted: int)
      requires Valid()
      modifies this`details, this`summaries
      ensures details == old(details) - ItemSet(items)
      ensures deleted == |old(details).Keys * ItemSet(items)|
      ensures forall g :: g in GroupsOf(items) ==> Recalculated(summaries, details, g)
      ensures forall g :: g !in GroupsOf(items) ==> (g in summaries <==> g in old(summaries))
      ensures forall g :: g !in GroupsOf(items) && g in summaries ==> summaries[g] == old(summaries)[g]
      ensures Valid()
    {
      var keys;
      deleted, keys := DeleteDetails(items);
      RowsDeletedCount(old(details).Keys, items);
      RecalcGroups(keys);
    }

    /** The first loop of DeleteDetailsAndRecalc (stats_repo.go:429-439). */
    method DeleteDetails(items: seq<DetailKey>) returns (deleted: int, keys: set<SummaryKey>)
      requires Valid()
      modifies this`details
      ensures details == old(details) - ItemSet(items)
      ensures deleted == RowsDeleted(old(details).Keys, items)
      ensures keys == GroupsOf(items)
      ensures Valid()
    {
      deleted := 0;
      keys := {};
      ghost var removed: set<DetailKey> := {};
      for i := 0 to |items|
        invariant removed == ItemSet(items[..i]) && keys == GroupsOf(items[..i])
        invariant details == old(details) - removed
        invariant deleted == RowsDeleted(old(details).Keys, items[..i])
        invariant Valid()
      {
        var it := items[i];
        ItemSetStep(old(details), items, i);
        var affected := DeleteDetail(it);
        deleted := deleted + affected;
        keys := keys + {it.group};
        removed := removed + {it};
      }
      assert items[..|items|] == items;
    }

    /** One delete of DeleteDetailsAndRecalc's first loop, reporting the rows affected. */
    method DeleteDetail(key: DetailKey) returns (affected: int)
      requires Valid()
      modifies this`details
      ensures details == old(details) - {key}
      ensures affected == if key in old(details) then 1 else 0
      ensures Valid()
    {
      affected := if key in details then 1 else 0;
      details := details - {key};
    }

    /** The second loop of DeleteDetailsAndRecalc (stats_repo.go:441-445). */
    method RecalcGroups(keys: set<SummaryKey>)
      requires Valid()
      modifies this`summaries
      ensures forall g :: g in keys ==> Recalculated(summaries, details, g)
      ensures forall g :: g !in keys ==> (g in summaries <==> g in old(summaries))
      ensures forall g :: g !in keys && g in summaries ==> summaries[g] == old(summaries)[g]
      ensures Valid()
    {
      ghost var doneKeys: set<SummaryKey> := {};
      var todo := keys;
      while todo != {}
        invariant todo <= keys && doneKeys == keys - todo
        invariant forall g :: g in doneKeys ==> Recalculated(summaries, details, g)
        invariant forall g :: g !in doneKeys ==> (g in summaries <==> g in old(summaries))
        invariant forall g :: g !in doneKeys && g in summaries ==> summaries[g] == old(summaries)[g]
        invariant Valid()
        decreases |todo|
      {
        var g :| g in todo;
        RecalcSummaryFromDetails(g);
        doneKeys := doneKeys + {g};
        todo := todo - {g};
      }
    }
  }

  /**
   * The row write shared by both batch loops (stats_repo.go:37-100 and
   * 126-192): look the row up, compute its new counters, then delete it or
   * save it with the item's columns.
   */
  method UpsertRow<K(==), P>(t: map<K, Row<P>>, key: K, payload: P, winsDelta: int, lossesDelta: int, ts: int)
      returns (r: map<K, Row<P>>)
    requires Add(Wrapping64, winsDelta, lossesDelta) != 0
    ensures r == Upsert(Wrapping64, t, key, payload, winsDelta, lossesDelta, ts)
  {
    var totalDelta := Decimal.Wrap64(winsDelta + lossesDelta);
    var found := key in t;
    var newTotal, newWins, newLastSeen;
    if found {
      var stats := t[key].counters;
      newTotal := Decimal.Wrap64(stats.total + totalDelta);
      newWins := Decimal.Wrap64(stats.wins + winsDelta);
      if totalDelta > 0 && ts > stats.lastSeen {
        newLastSeen := ts;
      } else {
        newLastSeen := stats.lastSeen;
      }
    } else {
      newTotal := totalDelta;
      newWins := winsDelta;
      newLastSeen := ts;
    }
    if newTotal <= 0 {
      if found {
        r := t - {key};
      } else {
        r := t;
        RemoveAbsent(t, key);
      }
    } else {
      if newWins < 0 {
        newWins := 0;
      }
      if newWins > newTotal {
        newWins := newTotal;
      }
      r := t[key := Row(payload, Counters(newTotal, newWins, newLastSeen))];
    }
  }
}
