/**
 * The dashboard's API client (client/src/services/api.js): the API base
 * URL, the Authorization header, the query strings of the summary, detail
 * and season requests, and the student-data language. The network calls
 * themselves are not modelled; a fetch outcome is a parameter.
 */
module ApiClient {
  import opened Wrappers
  import Text
  import Decimal
  import Team
  import Parsers
  import Auth

  const DefaultEnvUrl: string := "http://localhost:8000"

  /**
   * API_BASE: the configured URL (the default when it is unset or empty),
   * with "/api" appended unless it already ends with it.
   */
  function ApiBase(envUrl: string): (base: string)
    ensures Text.EndsWith(base, "/api")
    ensures var url := if envUrl == "" then DefaultEnvUrl else envUrl;
            base == url || base == url + "/api"
  {
    var url := if envUrl == "" then DefaultEnvUrl else envUrl;
    if Text.EndsWith(url, "/api") then url else url + "/api"
  }

  /** A base that already ends with "/api" is kept as it is, so the rule is idempotent. */
  lemma ApiBaseIdempotent(envUrl: string)
    ensures ApiBase(ApiBase(envUrl)) == ApiBase(envUrl)
  {
  }

  /** getAuthHeaders: a Bearer header only when a non-empty token is stored. */
  function AuthHeaders(token: Option<string>): (headers: seq<(string, string)>)
    ensures headers == [] <==> token.None? || token.value == ""
    ensures headers != [] ==> headers == [("Authorization", "Bearer " + token.value)]
  {
    if token.Some? && token.value != "" then [("Authorization", "Bearer " + token.value)] else []
  }

  /**
   * The header the client sends is one the Go middleware accepts in form and
   * reads the stored token back from; the request passes exactly when that
   * token verifies with an allowed role.
   */
  lemma AuthHeaderAccepted(token: string, roles: seq<string>, verify: string -> Auth.TokenCheck)
    requires token != ""
    ensures var header := AuthHeaders(Some(token))[0].1;
            Auth.Decide(header, roles, verify).Ok?
            <==> verify(token).Verified? && verify(token).claims.role in roles
  {
    var header := "Bearer " + token;
    assert Text.StartsWith(header, "Bearer ");
    assert header[7..] == token;
    Auth.PassesOnlyListedRoles(header, roles, verify);
  }

  /** getAllStudents: the data language is "zh" for any Chinese locale, otherwise "en". */
  function StudentDataLang(lang: string): (dbLang: string)
    ensures dbLang == "zh" || dbLang == "en"
    ensures dbLang == "zh" <==> Text.StartsWith(lang, "zh")
  {
    if Text.StartsWith(lang, "zh") then "zh" else "en"
  }

  /**
   * The filter state of the arena page. A number field is None when it is
   * null or undefined; win rates are fractions.
   */
  datatype Filters = Filters(
    season: Option<int>, minWinRate: Option<real>, maxWinRate: Option<real>, minBattles: Option<int>,
    atkContains: seq<int>, defContains: seq<int>, atkSlots: map<nat, int>, defSlots: map<nat, int>)

  /** The empty filter object {}. */
  const NoFilters: Filters := Filters(None, None, None, None, [], [], map[], map[])

  predicate Truthy(n: Option<int>) { n.Some? && n.value != 0 }

  predicate TruthyReal(x: Option<real>) { x.Some? && x.value != 0.0 }

  /**
   * The URLSearchParams of getArenaSummaries, one field per parameter
   * (page, limit, sort, server, season, min_win_rate, max_win_rate,
   * min_battles, atk_contains, def_contains, atk_slots, def_slots); None
   * when the parameter is not appended. Every parameter is appended at most
   * once, so only the order of the query string is lost, which the servers
   * do not depend on.
   */
  datatype SummariesQuery = SummariesQuery(
    page: string, limit: string, sort: string, server: string,
    season: Option<string>, minWinRate: Option<string>, maxWinRate: Option<string>, minBattles: Option<string>,
    atkContains: Option<string>, defContains: Option<string>, atkSlots: Option<string>, defSlots: Option<string>)

  /** The URLSearchParams of getSummaryDetails (atk_sig, def_sig, server, page, limit, sort, season, tag). */
  datatype DetailQuery = DetailQuery(
    atkSig: string, defSig: string, server: string, page: string, limit: string, sort: string,
    season: Option<string>, tag: Option<string>)

  /** The "idx:id" pair of one slot. */
  function SlotPart(idx: int, id: int): string {
    Decimal.IntToString(idx) + ":" + Decimal.IntToString(id)
  }

  predicate IsMin(k: nat, s: set<nat>) {
    k in s && forall j :: j in s ==> k <= j
  }

  /** A non-empty set of naturals has a smallest element. */
  lemma {:induction false} HasMinimum(s: set<nat>)
    requires s != {}
    ensures exists k :: IsMin(k, s)
    decreases |s|
  {
    var x :| x in s;
    var rest := s - {x};
    if rest == {} {
      forall j | j in s ensures x <= j {
        assert j !in rest;
      }
      assert IsMin(x, s);
    } else {
      HasMinimum(rest);
      var m :| IsMin(m, rest);
      var least := if x < m then x else m;
      forall j | j in s ensures least <= j {
        if j != x {
          assert j in rest;
        }
      }
      assert IsMin(least, s);
    }
  }

  function MinKey(s: set<nat>): (k: nat)
    requires s != {}
    ensures k in s && forall j :: j in s ==> k <= j
  {
    HasMinimum(s);
    var k :| IsMin(k, s);
    k
  }

  /** The keys in ascending order, the order Object.entries gives integer-like keys. */
  function AscendingKeys(s: set<nat>): (ks: seq<nat>)
    ensures forall k :: k in ks <==> k in s
    ensures forall i, j :: 0 <= i < j < |ks| ==> ks[i] < ks[j]
    decreases |s|
  {
    if s == {} then []
    else
      var k := MinKey(s);
      var smaller := s - {k};
      assert |smaller| < |s|;
      var rest := AscendingKeys(smaller);
      AscendingCons(k, smaller, rest);
      [k] + rest
  }

  /** A key below every key of the rest may go in front of the rest's ascending list. */
  lemma AscendingCons(k: nat, smaller: set<nat>, rest: seq<nat>)
    requires k !in smaller && forall j :: j in smaller ==> k < j
    requires forall j :: j in rest <==> j in smaller
    requires forall i, j :: 0 <= i < j < |rest| ==> rest[i] < rest[j]
    ensures forall j :: j in [k] + rest <==> j in smaller + {k}
    ensures forall i, j :: 0 <= i < j < |[k] + rest| ==> ([k] + rest)[i] < ([k] + rest)[j]
  {
    var ks := [k] + rest;
    forall i, j | 0 <= i < j < |ks| ensures ks[i] < ks[j] {
      assert ks[j] == rest[j - 1] && rest[j - 1] in smaller;
      if i > 0 {
        assert ks[i] == rest[i - 1];
      }
    }
  }

  function SlotParts(ks: seq<nat>, m: map<nat, int>): (parts: seq<string>)
    requires forall k :: k in ks ==> k in m
    ensures |parts| == |ks|
  {
    seq(|ks|, i requires 0 <= i < |ks| => SlotPart(ks[i], m[ks[i]]))
  }

  /** Object.entries(slots).map(([idx, id]) => `${idx}:${id}`).join(","). */
  function EncodeSlots(m: map<nat, int>): string {
    Text.Join(SlotParts(AscendingKeys(m.Keys), m), ",")
  }

  /** The value sent for an ID list: the comma-join, only when the list is non-empty. */
  function IdsParam(ids: seq<int>): Option<string> {
    if |ids| > 0 then Some(Team.JoinIds(ids)) else None
  }

  /** The value sent for a slot map: its encoding, only when it has a key. */
  function SlotsParam(m: map<nat, int>): Option<string> {
    if |m| > 0 then Some(EncodeSlots(m)) else None
  }

  /**
   * getArenaSummaries: the URLSearchParams built by conditional appends.
   * page, limit, sort and server are always sent; season, the win rates and
   * min_battles only when truthy (so 0 is omitted); the ID lists and slot
   * maps only when non-empty; fmt prints a win-rate number.
   */
  method SummariesParams(page: int, f: Filters, limit: int, sort: string, server: string, fmt: real -> string)
    returns (params: SummariesQuery)
    ensures params.page == Decimal.IntToString(page) && params.limit == Decimal.IntToString(limit)
    ensures params.sort == sort && params.server == server
    ensures params.season.Some? <==> Truthy(f.season)
    ensures params.season.Some? ==> params.season.value == Decimal.IntToString(f.season.value)
    ensures params.minWinRate.Some? <==> TruthyReal(f.minWinRate)
    ensures params.minWinRate.Some? ==> params.minWinRate.value == fmt(f.minWinRate.value)
    ensures params.maxWinRate.Some? <==> TruthyReal(f.maxWinRate)
    ensures params.maxWinRate.Some? ==> params.maxWinRate.value == fmt(f.maxWinRate.value)
    ensures params.minBattles.Some? <==> Truthy(f.minBattles)
    ensures params.minBattles.Some? ==> params.minBattles.value == Decimal.IntToString(f.minBattles.value)
    ensures params.atkContains == IdsParam(f.atkContains) && params.defContains == IdsParam(f.defContains)
    ensures params.atkSlots == SlotsParam(f.atkSlots) && params.defSlots == SlotsParam(f.defSlots)
  {
    params := SummariesQuery(Decimal.IntToString(page), Decimal.IntToString(limit), sort, server,
                             None, None, None, None, None, None, None, None);
    params := AppendNumberFilters(params, f, fmt);
    params := AppendTeamFilters(params, f);
  }

  /** The season, win-rate and min-battles appends of getArenaSummaries. */
  method AppendNumberFilters(params0: SummariesQuery, f: Filters, fmt: real -> string) returns (params: SummariesQuery)
    requires params0.season.None? && params0.minWinRate.None? && params0.maxWinRate.None? && params0.minBattles.None?
    ensures params.page == params0.page && params.limit == params0.limit
    ensures params.sort == params0.sort && params.server == params0.server
    ensures params.atkContains == params0.atkContains && params.defContains == params0.defContains
    ensures params.atkSlots == params0.atkSlots && params.defSlots == params0.defSlots
    ensures params.season.Some? <==> Truthy(f.season)
    ensures params.season.Some? ==> params.season.value == Decimal.IntToString(f.season.value)
    ensures params.minWinRate.Some? <==> TruthyReal(f.minWinRate)
    ensures params.minWinRate.Some? ==> params.minWinRate.value == fmt(f.minWinRate.value)
    ensures params.maxWinRate.Some? <==> TruthyReal(f.maxWinRate)
    ensures params.maxWinRate.Some? ==> params.maxWinRate.value == fmt(f.maxWinRate.value)
    ensures params.minBattles.Some? <==> Truthy(f.minBattles)
    ensures params.minBattles.Some? ==> params.minBattles.value == Decimal.IntToString(f.minBattles.value)
  {
    params := params0;
    if f.season.Some? && f.season.value != 0 {
      params := params.(season := Some(Decimal.IntToString(f.season.value)));
    }
    if f.minWinRate.Some? && f.minWinRate.value != 0.0 {
      params := params.(minWinRate := Some(fmt(f.minWinRate.value)));
    }
    if f.maxWinRate.Some? && f.maxWinRate.value != 0.0 {
      params := params.(maxWinRate := Some(fmt(f.maxWinRate.value)));
    }
    if f.minBattles.Some? && f.minBattles.value != 0 {
      params := params.(minBattles := Some(Decimal.IntToString(f.minBattles.value)));
    }
  }

  /** The contains-list and slot-map appends of getArenaSummaries. */
  method AppendTeamFilters(params0: SummariesQuery, f: Filters) returns (params: SummariesQuery)
    requires params0.atkContains.None? && params0.defContains.None? && params0.atkSlots.None? && params0.defSlots.None?
    ensures params.page == params0.page && params.limit == params0.limit
    ensures params.sort == params0.sort && params.server == params0.server
    ensures params.season == params0.season && params.minWinRate == params0.minWinRate
    ensures params.maxWinRate == params0.maxWinRate && params.minBattles == params0.minBattles
    ensures params.atkContains == IdsParam(f.atkContains) && params.defContains == IdsParam(f.defContains)
    ensures params.atkSlots == SlotsParam(f.atkSlots) && params.defSlots == SlotsParam(f.defSlots)
  {
    params := params0;
    if |f.atkContains| > 0 {
      params := params.(atkContains := Some(Team.JoinIds(f.atkContains)));
    }
    if |f.defContains| > 0 {
      params := params.(defContains := Some(Team.JoinIds(f.defContains)));
    }
    if |f.atkSlots| > 0 {
      params := params.(atkSlots := Some(EncodeSlots(f.atkSlots)));
    }
    if |f.defSlots| > 0 {
      params := params.(defSlots := Some(EncodeSlots(f.defSlots)));
    }
  }

  /** What the Go handler reads for a parameter: its value, or "" when it is absent. */
  function Received(v: Option<string>): string {
    if v.Some? then v.value else ""
  }

  /**
   * Every list of safe-integer IDs the client sends (or omits) is read back
   * unchanged by ParseIDList; String prints such numbers exactly.
   */
  lemma IdsRoundTrip(ids: seq<int>)
    requires forall i :: 0 <= i < |ids| ==> Decimal.SafeInteger(ids[i])
    ensures Parsers.IdListOf(Received(IdsParam(ids))) == ids
  {
    if |ids| > 0 {
      var parts := Team.Numerals(ids);
      Text.JoinNonEmpty(parts, ",");
      Team.SplitJoinIds(ids);
      forall i | 0 <= i < |parts| ensures Parsers.ParseToken(parts[i]) == Some(ids[i]) {
        NumeralTrimmed(ids[i]);
        Decimal.AtoiItoa(ids[i]);
      }
      Parsers.ParsedIdsAll(parts, ids);
    }
  }

  lemma NumeralTrimmed(n: int)
    ensures Text.Trim(Decimal.IntToString(n)) == Decimal.IntToString(n)
  {
    var s := Decimal.IntToString(n);
    assert Decimal.IsDigit(s[|s| - 1]) && (Decimal.IsDigit(s[0]) || s[0] == '-');
    Text.TrimUnpadded(s);
  }

  /** One slot part is read back as its index and ID. */
  lemma SlotPartRoundTrip(idx: int, id: int)
    requires Decimal.SafeInteger(idx) && Decimal.SafeInteger(id)
    ensures Parsers.SlotOf(SlotPart(idx, id)) == Some((idx, id))
  {
    var a := Decimal.IntToString(idx);
    var b := Decimal.IntToString(id);
    Decimal.NumeralHasNo(idx, ':');
    Decimal.NumeralHasNo(id, ':');
    Text.SplitCons(a, b, ':');
    Text.SplitNoSep(b, ':');
    assert SlotPart(idx, id) == a + [':'] + b;
    NumeralTrimmed(idx);
    NumeralTrimmed(id);
    Decimal.AtoiItoa(idx);
    Decimal.AtoiItoa(id);
  }

  /** The last part assigns its own slot on top of the map of the parts before it. */
  lemma AssignLastSlotPart(ks: seq<nat>, m: map<nat, int>)
    requires ks != []
    requires forall k :: k in ks ==> k in m && k <= Decimal.MaxSafeInteger && Decimal.SafeInteger(m[k])
    ensures Parsers.SlotsOf(SlotParts(ks, m))
            == Parsers.SlotsOf(SlotParts(ks[..|ks| - 1], m))[ks[|ks| - 1] := m[ks[|ks| - 1]]]
  {
    var init := ks[..|ks| - 1];
    var last := ks[|ks| - 1];
    var parts := SlotParts(ks, m);
    assert parts[..|parts| - 1] == SlotParts(init, m) by {
      assert forall k :: k in init ==> k in ks;
      forall i | 0 <= i < |init| ensures parts[i] == SlotParts(init, m)[i] {
        assert init[i] == ks[i];
      }
    }
    assert Parsers.SlotOf(parts[|parts| - 1]) == Some((last, m[last])) by {
      assert parts[|parts| - 1] == SlotPart(last, m[last]);
      SlotPartRoundTrip(last, m[last]);
    }
  }

  /** Assigning the parts of distinct keys rebuilds the map on those keys. */
  lemma {:induction false} AssignSlotParts(ks: seq<nat>, m: map<nat, int>)
    requires forall k :: k in ks ==> k in m && k <= Decimal.MaxSafeInteger && Decimal.SafeInteger(m[k])
    ensures var r := Parsers.SlotsOf(SlotParts(ks, m));
            (forall k :: k in r <==> k >= 0 && k in ks) && (forall k: nat :: k in ks ==> r[k] == m[k])
  {
    if ks != [] {
      var init := ks[..|ks| - 1];
      var last := ks[|ks| - 1];
      assert forall k :: k in init ==> k in ks;
      AssignSlotParts(init, m);
      AssignLastSlotPart(ks, m);
      var r0 := Parsers.SlotsOf(SlotParts(init, m));
      var r := Parsers.SlotsOf(SlotParts(ks, m));
      assert r == r0[last := m[last]];
      forall k: int ensures k in r <==> k >= 0 && k in ks {
        assert k in ks <==> k in init || k == last;
      }
      forall k: nat | k in ks ensures r[k] == m[k] {
        if k != last {
          assert k in init;
        }
      }
    }
  }

  /**
   * Every slot map the client sends (or omits) is read back unchanged by
   * ParseSlotMap, given slot indexes and IDs that are safe integers.
   */
  lemma SlotsRoundTrip(m: map<nat, int>)
    requires forall k :: k in m ==> k <= Decimal.MaxSafeInteger && Decimal.SafeInteger(m[k])
    ensures var r := Parsers.SlotMapOf(Received(SlotsParam(m)));
            (forall k :: k in r <==> k >= 0 && k in m) && (forall k: nat :: k in m ==> r[k] == m[k])
  {
    if |m| > 0 {
      var ks := AscendingKeys(m.Keys);
      var parts := SlotParts(ks, m);
      assert ks != [] by {
        var k :| k in m;
        assert k in ks;
      }
      assert |SlotPart(ks[0], m[ks[0]])| >= 1;
      Text.JoinNonEmpty(parts, ",");
      forall i | 0 <= i < |parts| ensures ',' !in parts[i] {
        Decimal.NumeralHasNo(ks[i], ',');
        Decimal.NumeralHasNo(m[ks[i]], ',');
      }
      Text.SplitJoin(parts, ',');
      AssignSlotParts(ks, m);
    }
  }

  /**
   * getSummaryDetails: the signatures, server and paging always; season only
   * when truthy, and a null or empty tag not at all.
   */
  method DetailParams(atkSig: string, defSig: string, server: string, season: Option<int>, tag: Option<string>,
                      page: int, limit: int, sort: string) returns (params: DetailQuery)
    ensures params.atkSig == atkSig && params.defSig == defSig && params.server == server
    ensures params.page == Decimal.IntToString(page) && params.limit == Decimal.IntToString(limit) && params.sort == sort
    ensures params.season.Some? <==> Truthy(season)
    ensures params.season.Some? ==> params.season.value == Decimal.IntToString(season.value)
    ensures params.tag.Some? <==> tag.Some? && tag.value != ""
    ensures params.tag.Some? ==> params.tag == tag
  {
    params := DetailQuery(atkSig, defSig, server, Decimal.IntToString(page), Decimal.IntToString(limit), sort, None, None);
    if season.Some? && season.value != 0 {
      params := params.(season := Some(Decimal.IntToString(season.value)));
    }
    if tag.Some? && tag.value != "" {
      params := params.(tag := tag);
    }
  }

  /** getSeasons' URL: "?server=" only for a truthy server other than "all". */
  function SeasonsUrl(base: string, server: Option<string>): (url: string)
    ensures Text.StartsWith(url, base + "/seasons")
    ensures url == base + "/seasons" <==> server.None? || server.value == "" || server.value == "all"
  {
    if server.Some? && server.value != "" && server.value != "all" then base + "/seasons?server=" + server.value
    else base + "/seasons"
  }

  /** The seasons shown when the request fails. */
  const FallbackSeasons: seq<int> := [1, 2, 3, 4, 5, 6, 7, 8, 9, 10]

  /** getSeasons' result: the fetched list, or seasons 1 to 10 on any failure. */
  function Seasons(fetched: Option<seq<int>>): (seasons: seq<int>)
    ensures fetched.None? ==> |seasons| == 10 && forall i :: 0 <= i < 10 ==> seasons[i] == i + 1
    ensures fetched.Some? ==> seasons == fetched.value
  {
    if fetched.Some? then fetched.value else FallbackSeasons
  }
}
