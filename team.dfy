/**
 * Team-signature canonicalisation of the Go backend (server/internal/utils/team.go).
 * Strikers (IDs whose decimal form does not start with '2') keep their
 * order; specials (decimal form starting with '2') are sorted and placed
 * after them; the signature is the comma-join of the decimal forms.
 */
module Team {
  import Text
  import Decimal
  import Sorting

  /**
   * A special ID: non-negative with leading decimal digit 2, which is
   * exactly when its decimal form starts with "2" (SpecialIffPrefix2); a
   * negative ID prints with a leading '-' and is never special.
   */
  predicate IsSpecial(pid: int) {
    pid >= 0 && Decimal.LeadingDigit(pid) == 2
  }

  lemma SpecialIffPrefix2(pid: int)
    ensures IsSpecial(pid) <==> Text.StartsWith(Decimal.IntToString(pid), "2")
  {
    var s := Decimal.IntToString(pid);
    assert Text.StartsWith(s, "2") <==> s[0] == '2' by {
      assert Text.StartsWith(s, "2") ==> s[..1][0] == '2';
      assert s[0] == '2' ==> s[..1] == "2";
    }
    if pid >= 0 {
      Decimal.NatToStringHead(pid);
    }
  }

  /** The non-special IDs, in input order. */
  function Strikers(t: seq<int>): (r: seq<int>)
    ensures |r| <= |t|
    ensures forall i :: 0 <= i < |r| ==> !IsSpecial(r[i])
  {
    if t == [] then []
    else Strikers(t[..|t| - 1]) + (if IsSpecial(t[|t| - 1]) then [] else [t[|t| - 1]])
  }

  /** The special IDs, in input order. */
  function Specials(t: seq<int>): (r: seq<int>)
    ensures |r| <= |t|
    ensures forall i :: 0 <= i < |r| ==> IsSpecial(r[i])
  {
    if t == [] then []
    else Specials(t[..|t| - 1]) + (if IsSpecial(t[|t| - 1]) then [t[|t| - 1]] else [])
  }

  /** The canonical order: strikers as given, then the specials in ascending order. */
  function Normalized(t: seq<int>): seq<int> {
    Strikers(t) + Sorting.SortInts(Specials(t))
  }

  /** The decimal forms of a list of IDs. */
  function Numerals(t: seq<int>): (r: seq<string>)
    ensures |r| == |t|
  {
    seq(|t|, i requires 0 <= i < |t| => Decimal.IntToString(t[i]))
  }

  /** The comma-join of the decimal forms. */
  function JoinIds(t: seq<int>): string {
    Text.Join(Numerals(t), ",")
  }

  /** The signature NormalizeTeam returns for a team. */
  function Signature(t: seq<int>): string {
    JoinIds(Normalized(t))
  }

  /**
   * team.go NormalizeTeam: one pass splits the IDs into strikers and
   * specials, sort.Ints orders the specials, and a second pass prints each ID
   * of the final list into strList by index before the comma-join.
   */
  method NormalizeTeam(teamList: seq<int>) returns (finalList: seq<int>, sig: string)
    ensures finalList == Normalized(teamList)
    ensures sig == JoinIds(finalList)
    ensures |teamList| == 0 ==> finalList == [] && sig == ""
  {
    if |teamList| == 0 {
      return [], "";
    }
    var strikers: seq<int> := [];
    var specials: seq<int> := [];
    for i := 0 to |teamList|
      invariant strikers == Strikers(teamList[..i])
      invariant specials == Specials(teamList[..i])
    {
      var pid := teamList[i];
      FilterStep(teamList, i);
      if IsSpecial(pid) {
        specials := specials + [pid];
      } else {
        strikers := strikers + [pid];
      }
    }
    assert teamList[..|teamList|] == teamList;
    specials := Sorting.SortInts(specials);
    finalList := strikers + specials;
    sig := PrintIds(finalList);
  }

  /** The second pass of NormalizeTeam: each ID printed into strList by index, then the comma-join. */
  method PrintIds(finalList: seq<int>) returns (sig: string)
    ensures sig == JoinIds(finalList)
  {
    var strList := new string[|finalList|];
    ghost var numerals := Numerals(finalList);
    for i := 0 to |finalList|
      invariant strList[..i] == numerals[..i]
    {
      strList[i] := Decimal.IntToString(finalList[i]);
      assert strList[..i + 1] == strList[..i] + [strList[i]];
    }
    assert strList[..] == strList[..|finalList|] == numerals;
    sig := Text.Join(strList[..], ",");
  }

  lemma FilterStep(t: seq<int>, i: nat)
    requires i < |t|
    ensures Strikers(t[..i + 1]) == Strikers(t[..i]) + (if IsSpecial(t[i]) then [] else [t[i]])
    ensures Specials(t[..i + 1]) == Specials(t[..i]) + (if IsSpecial(t[i]) then [t[i]] else [])
  {
    assert t[..i + 1][..i] == t[..i];
  }

  lemma {:induction false} PartitionMultiset(t: seq<int>)
    ensures multiset(Strikers(t)) + multiset(Specials(t)) == multiset(t)
  {
    if t != [] {
      PartitionMultiset(t[..|t| - 1]);
      assert t == t[..|t| - 1] + [t[|t| - 1]];
    }
  }

  /** The normalised list holds exactly the input IDs, each as often as in the input. */
  lemma NormalizedIsPermutation(t: seq<int>)
    ensures multiset(Normalized(t)) == multiset(t)
    ensures |Normalized(t)| == |t|
  {
    PartitionMultiset(t);
    assert |multiset(Normalized(t))| == |multiset(t)|;
  }

  /**
   * The shape of the normalised list: the strikers of the input, in input
   * order, and after them the specials in ascending order.
   */
  lemma NormalizedShape(t: seq<int>)
    ensures Normalized(t)[..|Strikers(t)|] == Strikers(t)
    ensures forall i :: 0 <= i < |Strikers(t)| ==> !IsSpecial(Normalized(t)[i])
    ensures forall i :: |Strikers(t)| <= i < |Normalized(t)| ==> IsSpecial(Normalized(t)[i])
    ensures Sorting.Sorted(Normalized(t)[|Strikers(t)|..])
  {
    var r := Normalized(t);
    var k := |Strikers(t)|;
    var sorted := Sorting.SortInts(Specials(t));
    assert r[k..] == sorted;
    forall i | k <= i < |r| ensures IsSpecial(r[i]) {
      assert r[i] == sorted[i - k];
      assert sorted[i - k] in multiset(Specials(t));
      var j :| 0 <= j < |Specials(t)| && Specials(t)[j] == sorted[i - k];
    }
  }

  lemma {:induction false} FilterAppend(a: seq<int>, b: seq<int>)
    ensures Strikers(a + b) == Strikers(a) + Strikers(b)
    ensures Specials(a + b) == Specials(a) + Specials(b)
    decreases |b|
  {
    if b == [] {
      assert a + b == a;
    } else {
      var b' := b[..|b| - 1];
      assert (a + b)[..|a + b| - 1] == a + b';
      FilterAppend(a, b');
    }
  }

  lemma {:induction false} FilterOfStrikers(s: seq<int>)
    requires forall i :: 0 <= i < |s| ==> !IsSpecial(s[i])
    ensures Strikers(s) == s && Specials(s) == []
  {
    if s != [] {
      FilterOfStrikers(s[..|s| - 1]);
      assert s == s[..|s| - 1] + [s[|s| - 1]];
    }
  }

  lemma {:induction false} FilterOfSpecials(s: seq<int>)
    requires forall i :: 0 <= i < |s| ==> IsSpecial(s[i])
    ensures Strikers(s) == [] && Specials(s) == s
  {
    if s != [] {
      FilterOfSpecials(s[..|s| - 1]);
      assert s == s[..|s| - 1] + [s[|s| - 1]];
    }
  }

  /** Normalising a normalised list returns it unchanged. */
  lemma NormalizedIdempotent(t: seq<int>)
    ensures Normalized(Normalized(t)) == Normalized(t)
  {
    NormalizedShape(t);
    var r := Normalized(t);
    var k := |Strikers(t)|;
    var front, back := r[..k], r[k..];
    assert r == front + back;
    FilterAppend(front, back);
    FilterOfStrikers(front);
    FilterOfSpecials(back);
    assert Strikers(r) == front;
    assert Specials(r) == back;
    Sorting.SortIntsOfSorted(back);
    assert Normalized(r) == front + back;
  }

  /**
   * The canonical order depends only on the strikers' order and on which
   * specials are present: reordering the specials gives the same list.
   */
  lemma NormalizedIgnoresSpecialOrder(a: seq<int>, b: seq<int>)
    requires Strikers(a) == Strikers(b)
    requires multiset(Specials(a)) == multiset(Specials(b))
    ensures Normalized(a) == Normalized(b)
  {
    Sorting.SortIntsOfPermutation(Specials(a), Specials(b));
  }

  /** The decimal forms contain no comma, so the signature splits back into them. */
  lemma SplitJoinIds(t: seq<int>)
    requires |t| >= 1
    ensures Text.Split(JoinIds(t), ',') == Numerals(t)
  {
    forall i | 0 <= i < |t| ensures ',' !in Numerals(t)[i] {
      Decimal.NumeralHasNo(t[i], ',');
    }
    Text.SplitJoin(Numerals(t), ',');
  }

  /** The signature is empty exactly when the team is empty. */
  lemma SignatureEmptyIff(t: seq<int>)
    ensures Signature(t) == "" <==> t == []
  {
    NormalizedIsPermutation(t);
    if t != [] {
      Text.JoinNonEmpty(Numerals(Normalized(t)), ",");
    }
  }

  lemma IntToStringInjective(x: int, y: int)
    requires Decimal.IntToString(x) == Decimal.IntToString(y)
    ensures x == y
  {
    var s := Decimal.IntToString(x);
    if x < 0 {
      assert s[1..] == Decimal.NatToString(-x) == Decimal.NatToString(-y);
      Decimal.NatToStringInjective(-x, -y);
    } else {
      Decimal.NatToStringInjective(x, y);
    }
  }

  /** Different ID lists have different comma-joins: the join determines the list. */
  lemma JoinIdsInjective(a: seq<int>, b: seq<int>)
    requires JoinIds(a) == JoinIds(b)
    ensures a == b
  {
    if a != [] {
      Text.JoinNonEmpty(Numerals(a), ",");
    }
    if b != [] {
      Text.JoinNonEmpty(Numerals(b), ",");
    }
    if a != [] && b != [] {
      SplitJoinIds(a);
      SplitJoinIds(b);
      assert |a| == |b|;
      forall i | 0 <= i < |a| ensures a[i] == b[i] {
        assert Numerals(a)[i] == Numerals(b)[i];
        IntToStringInjective(a[i], b[i]);
      }
    }
  }
}
