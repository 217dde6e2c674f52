/**
 * Query-string parsers of the Go backend (server/internal/utils/parsers.go):
 * a comma-separated ID list, and a comma-separated list of "index:id" slot
 * assignments.
 */
module Parsers {
  import opened Wrappers
  import Text
  import Decimal

  /** The integer a token holds once its surrounding whitespace is trimmed. */
  function ParseToken(p: string): Option<int> {
    Decimal.GoAtoi(Text.Trim(p))
  }

  /** The values of the parts that `parse` accepts, in part order; the other parts are dropped. */
  function Collect(parts: seq<string>, parse: string -> Option<int>): (ids: seq<int>)
    ensures |ids| <= |parts|
  {
    if parts == [] then []
    else
      var last := parse(parts[|parts| - 1]);
      Collect(parts[..|parts| - 1], parse) + (if last.Some? then [last.value] else [])
  }

  /** The integers of the tokens that parse, in token order. */
  function ParsedIds(parts: seq<string>): (ids: seq<int>)
    ensures |ids| <= |parts|
  {
    Collect(parts, ParseToken)
  }

  /** What ParseIDList returns: nothing for "", otherwise the parsed tokens. */
  function IdListOf(s: string): seq<int> {
    if s == "" then [] else ParsedIds(Text.Split(s, ','))
  }

  method ParseIDList(s: string) returns (ids: seq<int>)
    ensures ids == IdListOf(s)
    ensures s == "" ==> ids == []
    ensures |ids| <= |Text.Split(s, ',')|
  {
    if s == "" {
      return [];
    }
    var parts := Text.Split(s, ',');
    ids := [];
    for i := 0 to |parts|
      invariant ids == ParsedIds(parts[..i])
    {
      assert parts[..i + 1][..i] == parts[..i];
      var val := Decimal.GoAtoi(Text.Trim(parts[i]));
      if val.Some? {
        ids := ids + [val.value];
      }
    }
    assert parts[..|parts|] == parts;
  }

  lemma {:induction false} CollectAll(parts: seq<string>, ids: seq<int>, parse: string -> Option<int>)
    requires |parts| == |ids|
    requires forall i :: 0 <= i < |parts| ==> parse(parts[i]) == Some(ids[i])
    ensures Collect(parts, parse) == ids
  {
    if parts != [] {
      var n := |parts| - 1;
      CollectAll(parts[..n], ids[..n], parse);
      assert ids == ids[..n] + [ids[n]];
    }
  }

  /** When every token parses, the result is the tokens' values one for one. */
  lemma ParsedIdsAll(parts: seq<string>, ids: seq<int>)
    requires |parts| == |ids|
    requires forall i :: 0 <= i < |parts| ==> ParseToken(parts[i]) == Some(ids[i])
    ensures ParsedIds(parts) == ids
  {
    CollectAll(parts, ids, ParseToken);
  }

  lemma {:induction false} CollectMembers(parts: seq<string>, v: int, parse: string -> Option<int>)
    ensures v in Collect(parts, parse) <==> exists i :: 0 <= i < |parts| && parse(parts[i]) == Some(v)
  {
    if parts != [] {
      var n := |parts| - 1;
      CollectMembers(parts[..n], v, parse);
      if v in Collect(parts[..n], parse) {
        var i :| 0 <= i < n && parse(parts[..n][i]) == Some(v);
        assert parse(parts[i]) == Some(v);
      }
      if exists i :: 0 <= i < |parts| && parse(parts[i]) == Some(v) {
        var i :| 0 <= i < |parts| && parse(parts[i]) == Some(v);
        if i < n {
          assert parse(parts[..n][i]) == Some(v);
        }
      }
    }
  }

  /** An integer is kept exactly when some token parses to it; tokens that do not parse contribute nothing. */
  lemma ParsedIdsMembers(parts: seq<string>, v: int)
    ensures v in ParsedIds(parts) <==> exists i :: 0 <= i < |parts| && ParseToken(parts[i]) == Some(v)
  {
    CollectMembers(parts, v, ParseToken);
  }

  /** An empty query value holds no ID. */
  lemma NoIdsInEmpty()
    ensures ParsedIds(Text.Split("", ',')) == []
  {
    Text.SplitNoSep("", ',');
    assert Decimal.GoAtoi(Text.Trim("")) == None;
  }

  /** A part "index:id" whose two halves both parse. */
  function SlotOf(p: string): Option<(int, int)> {
    var kv := Text.Split(p, ':');
    if |kv| == 2 then
      var idx := ParseToken(kv[0]);
      var uid := ParseToken(kv[1]);
      if idx.Some? && uid.Some? then Some((idx.value, uid.value)) else None
    else None
  }

  /** The map built from the accepted parts in order, so a later part overwrites an earlier one. */
  function Assign(parts: seq<string>, slot: string -> Option<(int, int)>): map<int, int> {
    if parts == [] then map[]
    else
      var m := Assign(parts[..|parts| - 1], slot);
      var s := slot(parts[|parts| - 1]);
      if s.Some? then m[s.value.0 := s.value.1] else m
  }

  /** The slot map of a list of parts. */
  function SlotsOf(parts: seq<string>): map<int, int> {
    Assign(parts, SlotOf)
  }

  /** What ParseSlotMap returns: nothing for "", otherwise the parsed slots. */
  function SlotMapOf(s: string): map<int, int> {
    if s == "" then map[] else SlotsOf(Text.Split(s, ','))
  }

  method ParseSlotMap(s: string) returns (result: map<int, int>)
    ensures result == SlotMapOf(s)
    ensures s == "" ==> result == map[]
  {
    if s == "" {
      return map[];
    }
    result := map[];
    var parts := Text.Split(s, ',');
    for i := 0 to |parts|
      invariant result == SlotsOf(parts[..i])
    {
      assert parts[..i + 1][..i] == parts[..i];
      var kv := Text.Split(parts[i], ':');
      if |kv| == 2 {
        var idx := Decimal.GoAtoi(Text.Trim(kv[0]));
        var uid := Decimal.GoAtoi(Text.Trim(kv[1]));
        if idx.Some? && uid.Some? {
          result := result[idx.value := uid.value];
        }
      }
    }
    assert parts[..|parts|] == parts;
  }

  /** The part at j sets slot k, and no later part sets slot k. */
  predicate LastSetter(parts: seq<string>, j: int, k: int, slot: string -> Option<(int, int)>) {
    0 <= j < |parts| && slot(parts[j]).Some? && slot(parts[j]).value.0 == k &&
    forall l :: j < l < |parts| ==> !(slot(parts[l]).Some? && slot(parts[l]).value.0 == k)
  }

  lemma {:induction false} AssignLastWins(parts: seq<string>, j: int, k: int, slot: string -> Option<(int, int)>)
    requires LastSetter(parts, j, k, slot)
    ensures k in Assign(parts, slot) && Assign(parts, slot)[k] == slot(parts[j]).value.1
  {
    var n := |parts| - 1;
    if j < n {
      assert LastSetter(parts[..n], j, k, slot) by {
        forall l | j < l < n ensures !(slot(parts[..n][l]).Some? && slot(parts[..n][l]).value.0 == k) {
          assert parts[..n][l] == parts[l];
        }
      }
      AssignLastWins(parts[..n], j, k, slot);
    }
  }

  /** A repeated slot index takes the value of its last occurrence. */
  lemma SlotsLastWins(parts: seq<string>, j: int, k: int)
    requires LastSetter(parts, j, k, SlotOf)
    ensures k in SlotsOf(parts) && SlotsOf(parts)[k] == SlotOf(parts[j]).value.1
  {
    AssignLastWins(parts, j, k, SlotOf);
  }

  lemma {:induction false} AssignDomain(parts: seq<string>, k: int, slot: string -> Option<(int, int)>)
    ensures k in Assign(parts, slot) <==>
      exists j :: 0 <= j < |parts| && slot(parts[j]).Some? && slot(parts[j]).value.0 == k
  {
    if parts != [] {
      var n := |parts| - 1;
      AssignDomain(parts[..n], k, slot);
      if k in Assign(parts[..n], slot) {
        var j :| 0 <= j < n && slot(parts[..n][j]).Some? && slot(parts[..n][j]).value.0 == k;
        assert parts[..n][j] == parts[j];
      }
      if exists j :: 0 <= j < |parts| && slot(parts[j]).Some? && slot(parts[j]).value.0 == k {
        var j :| 0 <= j < |parts| && slot(parts[j]).Some? && slot(parts[j]).value.0 == k;
        if j < n {
          assert parts[..n][j] == parts[j];
        }
      }
    }
  }

  /** Only parts that split into exactly two parsable halves ever set a slot. */
  lemma SlotsDomain(parts: seq<string>, k: int)
    ensures k in SlotsOf(parts) <==>
      exists j :: 0 <= j < |parts| && SlotOf(parts[j]).Some? && SlotOf(parts[j]).value.0 == k
  {
    AssignDomain(parts, k, SlotOf);
  }
}
