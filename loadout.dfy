/**
 * Loadout alignment and the loadout dedup key of the Go backend
 * (server/internal/utils/loadout.go). SHA-1 is not modelled: the digest
 * function is a parameter, and only its 20-byte length is assumed.
 */
module Loadout {
  import Text
  import Decimal

  /** One student's loadout: ID, star level and weapon star level. */
  datatype Entry = Entry(id: int, star: int, weaponStar: int)

  /** The lookup map NormalizeLoadout fills: for each ID, the last entry listed for it. */
  function LookupOf(loadout: seq<Entry>): (m: map<int, Entry>)
    ensures forall id :: id in m ==> m[id].id == id
  {
    if loadout == [] then map[]
    else
      var e := loadout[|loadout| - 1];
      LookupOf(loadout[..|loadout| - 1])[e.id := e]
  }

  /** The aligned loadout: per team member, its looked-up entry, or a zeroed one. */
  function Aligned(team: seq<int>, loadout: seq<Entry>): seq<Entry> {
    var lookup := LookupOf(loadout);
    seq(|team|, i requires 0 <= i < |team| =>
      if team[i] in lookup then lookup[team[i]] else Entry(team[i], 0, 0))
  }

  /** loadout.go NormalizeLoadout: a loop fills the lookup map, a second writes the result by index. */
  method NormalizeLoadout(team: seq<int>, loadout: seq<Entry>) returns (result: seq<Entry>)
    ensures result == Aligned(team, loadout)
    ensures |team| == 0 ==> result == []
  {
    if |team| == 0 {
      return [];
    }
    var lookup: map<int, Entry> := map[];
    for j := 0 to |loadout|
      invariant lookup == LookupOf(loadout[..j])
    {
      assert loadout[..j + 1][..j] == loadout[..j];
      lookup := lookup[loadout[j].id := loadout[j]];
    }
    assert loadout[..|loadout|] == loadout;
    var arr := new Entry[|team|];
    for i := 0 to |team|
      invariant forall k :: 0 <= k < i ==> arr[k] == Aligned(team, loadout)[k]
    {
      if team[i] in lookup {
        arr[i] := lookup[team[i]];
      } else {
        arr[i] := Entry(team[i], 0, 0);
      }
    }
    result := arr[..];
  }

  /** The last index j at which the loadout lists id. */
  predicate LastListing(loadout: seq<Entry>, j: int, id: int) {
    0 <= j < |loadout| && loadout[j].id == id &&
    forall l :: j < l < |loadout| ==> loadout[l].id != id
  }

  lemma {:induction false} LookupLastWins(loadout: seq<Entry>, j: int, id: int)
    requires LastListing(loadout, j, id)
    ensures id in LookupOf(loadout) && LookupOf(loadout)[id] == loadout[j]
  {
    var n := |loadout| - 1;
    if j < n {
      assert LastListing(loadout[..n], j, id);
      LookupLastWins(loadout[..n], j, id);
    }
  }

  lemma {:induction false} LookupDomain(loadout: seq<Entry>, id: int)
    ensures id in LookupOf(loadout) <==> exists j :: 0 <= j < |loadout| && loadout[j].id == id
  {
    if loadout != [] {
      var n := |loadout| - 1;
      LookupDomain(loadout[..n], id);
      if id in LookupOf(loadout[..n]) {
        var j :| 0 <= j < n && loadout[..n][j].id == id;
        assert loadout[j].id == id;
      }
    }
  }

  /**
   * The aligned loadout has one entry per team member, carrying that
   * member's ID; a member the loadout does not list gets stars 0 and 0; a
   * member listed several times gets its last listing.
   */
  lemma AlignedShape(team: seq<int>, loadout: seq<Entry>, i: int)
    requires 0 <= i < |team|
    ensures |Aligned(team, loadout)| == |team|
    ensures Aligned(team, loadout)[i].id == team[i]
    ensures (forall j :: 0 <= j < |loadout| ==> loadout[j].id != team[i]) ==>
              Aligned(team, loadout)[i] == Entry(team[i], 0, 0)
    ensures forall j :: LastListing(loadout, j, team[i]) ==> Aligned(team, loadout)[i] == loadout[j]
  {
    LookupDomain(loadout, team[i]);
    forall j | LastListing(loadout, j, team[i]) ensures Aligned(team, loadout)[i] == loadout[j] {
      LookupLastWins(loadout, j, team[i]);
    }
  }

  /** Entries for IDs outside the team never reach the result; every entry comes from the loadout or is zeroed. */
  lemma AlignedOnlyTeam(team: seq<int>, loadout: seq<Entry>)
    ensures forall e :: e in Aligned(team, loadout) ==>
      e.id in team && (e in loadout || e == Entry(e.id, 0, 0))
  {
    var r := Aligned(team, loadout);
    forall e | e in r ensures e.id in team && (e in loadout || e == Entry(e.id, 0, 0)) {
      var i :| 0 <= i < |r| && r[i] == e;
      AlignedShape(team, loadout, i);
      LookupDomain(loadout, team[i]);
      if team[i] in LookupOf(loadout) {
        LookupMember(loadout, team[i]);
      }
    }
  }

  lemma {:induction false} LookupMember(loadout: seq<Entry>, id: int)
    requires id in LookupOf(loadout)
    ensures LookupOf(loadout)[id] in loadout
  {
    var n := |loadout| - 1;
    if loadout[n].id != id {
      LookupMember(loadout[..n], id);
    }
  }

  /** A byte of the digest. */
  newtype Byte = b: int | 0 <= b < 256

  /** A SHA-1 digest: 20 bytes. */
  type Digest = d: seq<Byte> | |d| == 20 witness seq(20, _ => 0)

  /** fmt "%d-%d-%d" of an entry. */
  function Part(e: Entry): string {
    Decimal.IntToString(e.id) + "-" + Decimal.IntToString(e.star) + "-" + Decimal.IntToString(e.weaponStar)
  }

  function Parts(l: seq<Entry>): (r: seq<string>)
    ensures |r| == |l|
  {
    seq(|l|, i requires 0 <= i < |l| => Part(l[i]))
  }

  /** The readable half of the key: the parts of each side joined by "|", the sides separated by "||". */
  function RawKey(atk: seq<Entry>, def: seq<Entry>): string {
    Text.Join(Parts(atk), "|") + "||" + Text.Join(Parts(def), "|")
  }

  function HexDigit(d: int): (c: char)
    requires 0 <= d < 16
    ensures c in "0123456789abcdef"
  {
    "0123456789abcdef"[d]
  }

  /** hex.EncodeToString: two lower-case hex digits per byte, high nibble first. */
  function Hex(bytes: seq<Byte>): (s: string)
    ensures |s| == 2 * |bytes|
    ensures forall i :: 0 <= i < |s| ==> s[i] in "0123456789abcdef"
  {
    if bytes == [] then ""
    else [HexDigit(bytes[0] as int / 16), HexDigit(bytes[0] as int % 16)] + Hex(bytes[1..])
  }

  /** The first 8 hex digits of the digest, which are those of its first 4 bytes. */
  function ShortHex(d: Digest): (s: string)
    ensures |s| == 8
  {
    Hex(d)[..8]
  }

  lemma {:induction false} HexPrefix(bytes: seq<Byte>, n: nat)
    requires n <= |bytes|
    ensures Hex(bytes)[..2 * n] == Hex(bytes[..n])
  {
    if n > 0 {
      HexPrefix(bytes[1..], n - 1);
      assert bytes[..n][1..] == bytes[1..][..n - 1];
    }
  }

  lemma ShortHexOfFirstBytes(d: Digest)
    ensures ShortHex(d) == Hex(d[..4])
  {
    HexPrefix(d, 4);
  }

  /**
   * loadout.go BuildLoadoutHash: the parts of each side are appended in a
   * loop, then the key is the raw text, "::", and the first 8 hex digits of
   * the SHA-1 digest of the raw text.
   */
  method BuildLoadoutHash(atk: seq<Entry>, def: seq<Entry>, sha1: string -> Digest) returns (hash: string)
    ensures hash == RawKey(atk, def) + "::" + ShortHex(sha1(RawKey(atk, def)))
    ensures |hash| == |RawKey(atk, def)| + 10
  {
    var atkParts := CollectParts(atk);
    var defParts := CollectParts(def);
    var raw := Text.Join(atkParts, "|") + "||" + Text.Join(defParts, "|");
    hash := raw + "::" + Hex(sha1(raw))[..8];
  }

  /** One of the two loops of BuildLoadoutHash: the "%d-%d-%d" part of each entry appended in order. */
  method CollectParts(entries: seq<Entry>) returns (parts: seq<string>)
    ensures parts == Parts(entries)
  {
    parts := [];
    for i := 0 to |entries|
      invariant parts == Parts(entries[..i])
    {
      parts := parts + [Part(entries[i])];
    }
    assert entries[..|entries|] == entries;
  }
}
