/**
 * Signature helpers of the Python backend (server/app/utils.py):
 * normalize_to_smart_sig puts the tokens of a comma-separated signature in
 * canonical order (tokens not starting with "2" first, in their order, then
 * the "2" tokens sorted), and generate_signatures pairs the input-order
 * ("strict") signature of a team with that canonical ("smart") one.
 * Python's sort with a mixed int/str key raises TypeError; that is the
 * error result here.
 */
module PyUtils {
  import opened Wrappers
  import Text
  import Decimal
  import Sorting
  import Team

  /** The tokens kept: every part stripped, the empty ones dropped, in order (utils.py:33). */
  function Tokens(parts: seq<string>): (r: seq<string>)
    ensures |r| <= |parts|
  {
    if parts == [] then []
    else
      var t := Text.Trim(parts[|parts| - 1]);
      Tokens(parts[..|parts| - 1]) + (if t != "" then [t] else [])
  }

  /** `pid.startswith("2")`. */
  predicate IsSpecialToken(t: string) {
    |t| >= 1 && t[0] == '2'
  }

  /** `x.isdigit()` on ASCII text: non-empty and all digits. */
  predicate IsDigitToken(t: string) {
    |t| >= 1 && Decimal.AllDigits(t)
  }

  /** The tokens appended to `strikers`, in order. */
  function PyStrikers(ts: seq<string>): (r: seq<string>)
    ensures |r| <= |ts|
    ensures forall i :: 0 <= i < |r| ==> !IsSpecialToken(r[i])
  {
    if ts == [] then []
    else PyStrikers(ts[..|ts| - 1]) + (if IsSpecialToken(ts[|ts| - 1]) then [] else [ts[|ts| - 1]])
  }

  /** The tokens appended to `specials`, in order. */
  function PySpecials(ts: seq<string>): (r: seq<string>)
    ensures |r| <= |ts|
    ensures forall i :: 0 <= i < |r| ==> IsSpecialToken(r[i])
  {
    if ts == [] then []
    else PySpecials(ts[..|ts| - 1]) + (if IsSpecialToken(ts[|ts| - 1]) then [ts[|ts| - 1]] else [])
  }

  /** The sort key `int(x)` of a digit token. */
  function Value(t: string): nat {
    if Decimal.AllDigits(t) then Decimal.DigitsValue(t) else 0
  }

  /** The integer keys of a list of tokens. */
  function Values(s: seq<string>): (r: seq<int>)
    ensures |r| == |s|
  {
    seq(|s|, i requires 0 <= i < |s| => Value(s[i]))
  }

  predicate ValueSorted(s: seq<string>) {
    Sorting.Sorted(Values(s))
  }

  function InsertByValue(x: string, s: seq<string>): (r: seq<string>)
    ensures multiset(r) == multiset(s) + multiset{x}
  {
    if s == [] || Value(x) <= Value(s[0]) then [x] + s
    else
      assert s == [s[0]] + s[1..];
      [s[0]] + InsertByValue(x, s[1..])
  }

  /** The keys of a token followed by a list are its key followed by theirs. */
  lemma ValuesCons(a: string, rest: seq<string>)
    ensures Values([a] + rest) == [Value(a)] + Values(rest)
  {
    var l := Values([a] + rest);
    var r := [Value(a)] + Values(rest);
    forall i | 0 <= i < |l| ensures l[i] == r[i] {
      if i > 0 {
        assert ([a] + rest)[i] == rest[i - 1];
      }
    }
  }

  /** The keys of a list's tail are the tail of its keys. */
  lemma ValuesTail(s: seq<string>)
    requires s != []
    ensures Values(s)[1..] == Values(s[1..])
  {
    var l := Values(s)[1..];
    var r := Values(s[1..]);
    forall i | 0 <= i < |l| ensures l[i] == r[i] {
      assert s[1..][i] == s[i + 1];
    }
  }

  /** Inserting a token inserts its key into the keys. */
  lemma {:induction false} InsertByValueValues(x: string, s: seq<string>)
    ensures Values(InsertByValue(x, s)) == Sorting.Insert(Value(x), Values(s))
  {
    var vs := Values(s);
    if s != [] && Value(x) > Value(s[0]) {
      var rest := InsertByValue(x, s[1..]);
      InsertByValueValues(x, s[1..]);
      assert vs[0] == Value(s[0]);
      ValuesTail(s);
      assert InsertByValue(x, s) == [s[0]] + rest;
      ValuesCons(s[0], rest);
      assert Sorting.Insert(Value(x), vs) == [vs[0]] + Sorting.Insert(Value(x), vs[1..]);
    } else {
      assert InsertByValue(x, s) == [x] + s;
      ValuesCons(x, s);
      assert Sorting.Insert(Value(x), vs) == [Value(x)] + vs;
    }
  }

  /** A stable insertion sort of digit tokens by `int(x)`, as Python's list.sort(key=...). */
  function SortByValue(s: seq<string>): (r: seq<string>)
    ensures multiset(r) == multiset(s)
    ensures ValueSorted(r)
  {
    if s == [] then []
    else
      assert s == [s[0]] + s[1..];
      var sorted := SortByValue(s[1..]);
      InsertByValueValues(s[0], sorted);
      InsertByValue(s[0], sorted)
  }

  predicate AllDigitTokens(s: seq<string>) {
    forall i :: 0 <= i < |s| ==> IsDigitToken(s[i])
  }

  predicate NoDigitTokens(s: seq<string>) {
    forall i :: 0 <= i < |s| ==> !IsDigitToken(s[i])
  }

  /**
   * `specials.sort(key=lambda x: int(x) if x.isdigit() else x)`: fewer than
   * two tokens are never compared; digit tokens sort by value, the others by
   * code point; a list holding both kinds makes Python compare an int with a
   * str, which raises TypeError.
   */
  function SortSpecials(sp: seq<string>): (r: Result<seq<string>, string>)
    ensures r.Ok? ==> multiset(r.value) == multiset(sp)
    ensures r.Err? <==> |sp| >= 2 && !AllDigitTokens(sp) && !NoDigitTokens(sp)
    ensures r.Ok? && AllDigitTokens(sp) ==> ValueSorted(r.value)
    ensures r.Ok? && NoDigitTokens(sp) ==> Sorting.LexSorted(r.value)
  {
    if |sp| <= 1 then Ok(sp)
    else if AllDigitTokens(sp) then Ok(SortByValue(sp))
    else if NoDigitTokens(sp) then Ok(Sorting.SortLex(sp))
    else Err("TypeError: '<' not supported between instances of 'str' and 'int'")
  }

  /** `strikers + specials` once the specials are sorted, or the TypeError. */
  function FinalOfTokens(parts: seq<string>): Result<seq<string>, string> {
    match SortSpecials(PySpecials(parts))
    case Err(e) => Err(e)
    case Ok(sorted) => Ok(PyStrikers(parts) + sorted)
  }

  /** The final list for a non-empty signature, or the TypeError. */
  function FinalList(sigStr: string): Result<seq<string>, string> {
    FinalOfTokens(Tokens(Text.Split(sigStr, ',')))
  }

  /** What normalize_to_smart_sig returns or raises. */
  function SmartSig(sigStr: string): (r: Result<string, string>)
    ensures sigStr == "" ==> r == Ok("")
  {
    if sigStr == "" then Ok("")
    else
      match FinalList(sigStr)
      case Err(e) => Err(e)
      case Ok(final) => Ok(Text.Join(final, ","))
  }

  /**
   * utils.py normalize_to_smart_sig: the comprehension cleans the tokens, a
   * loop appends each to strikers or specials, the specials are sorted in
   * place, and the result is the comma-join.
   */
  method NormalizeToSmartSig(sigStr: string) returns (r: Result<string, string>)
    ensures r == SmartSig(sigStr)
  {
    if sigStr == "" {
      return Ok("");
    }
    var parts := Tokens(Text.Split(sigStr, ','));
    var strikers: seq<string> := [];
    var specials: seq<string> := [];
    for i := 0 to |parts|
      invariant strikers == PyStrikers(parts[..i])
      invariant specials == PySpecials(parts[..i])
    {
      assert parts[..i + 1][..i] == parts[..i];
      var pid := parts[i];
      if pid[..] != [] && pid[0] == '2' {
        specials := specials + [pid];
      } else {
        strikers := strikers + [pid];
      }
    }
    assert parts[..|parts|] == parts;
    var sorted := SortSpecials(specials);
    if sorted.Err? {
      return Err(sorted.error);
    }
    var finalList := strikers + sorted.value;
    r := Ok(Text.Join(finalList, ","));
  }

  /** utils.py generate_signatures: the input-order join, and its canonical form. */
  function GenerateSignatures(team: seq<int>): (r: (string, Result<string, string>))
    ensures r.0 == Text.Join(Team.Numerals(team), ",")
  {
    var raw := Team.JoinIds(team);
    (raw, SmartSig(raw))
  }

  // ---------------------------------------------------------------------
  // The shape of the result

  lemma {:induction false} TokensMembers(parts: seq<string>, t: string)
    ensures t in Tokens(parts) <==> t != "" && exists i :: 0 <= i < |parts| && Text.Trim(parts[i]) == t
  {
    if parts != [] {
      var n := |parts| - 1;
      TokensMembers(parts[..n], t);
      TrimsToLast(parts, t);
    }
  }

  /** Some part of the list strips to `t`. */
  predicate TrimsTo(parts: seq<string>, t: string) {
    exists i :: 0 <= i < |parts| && Text.Trim(parts[i]) == t
  }

  /** Some part strips to `t` exactly when some earlier part does or the last one does. */
  lemma {:induction false} TrimsToLast(parts: seq<string>, t: string)
    requires parts != []
    ensures TrimsTo(parts, t) <==> TrimsTo(parts[..|parts| - 1], t) || Text.Trim(parts[|parts| - 1]) == t
  {
    var n := |parts| - 1;
    if TrimsTo(parts[..n], t) {
      var i :| 0 <= i < n && Text.Trim(parts[..n][i]) == t;
      assert Text.Trim(parts[i]) == t;
    }
    if TrimsTo(parts, t) {
      var i :| 0 <= i < |parts| && Text.Trim(parts[i]) == t;
      if i < n {
        assert Text.Trim(parts[..n][i]) == t;
      }
    }
  }

  /** A token is non-empty, carries no whitespace at either end and no separator. */
  predicate Clean(t: string) {
    |t| >= 1 && !Text.IsSpace(t[0]) && !Text.IsSpace(t[|t| - 1]) && ',' !in t
  }

  lemma TrimKeepsOut(s: string, c: char)
    requires c !in s
    ensures c !in Text.Trim(s)
  {
    Text.TrimLeftShape(s);
    Text.TrimRightShape(Text.TrimLeft(s));
  }

  /** Every kept token of a comma split is clean. */
  lemma TokensClean(s: string)
    ensures forall t :: t in Tokens(Text.Split(s, ',')) ==> Clean(t)
  {
    var parts := Text.Split(s, ',');
    forall t | t in Tokens(parts) ensures Clean(t) {
      TokensMembers(parts, t);
      var i :| 0 <= i < |parts| && Text.Trim(parts[i]) == t;
      Text.TrimShape(parts[i]);
      TrimKeepsOut(parts[i], ',');
    }
  }

  lemma {:induction false} PartitionMultiset(ts: seq<string>)
    ensures multiset(PyStrikers(ts)) + multiset(PySpecials(ts)) == multiset(ts)
  {
    if ts != [] {
      PartitionMultiset(ts[..|ts| - 1]);
      assert ts == ts[..|ts| - 1] + [ts[|ts| - 1]];
    }
  }

  /**
   * For a non-empty signature that sorts without error, the final list
   * holds exactly the cleaned tokens: first the tokens not starting with
   * "2", in input order, then the "2" tokens, ordered by integer value when
   * all are digits and by code point when none is.
   */
  lemma FinalListShape(sigStr: string)
    requires FinalList(sigStr).Ok?
    ensures var parts := Tokens(Text.Split(sigStr, ','));
            var final := FinalList(sigStr).value;
            var k := |PyStrikers(parts)|;
            multiset(final) == multiset(parts)
            && final[..k] == PyStrikers(parts)
            && (forall i :: k <= i < |final| ==> IsSpecialToken(final[i]))
            && (AllDigitTokens(PySpecials(parts)) ==> ValueSorted(final[k..]))
            && (NoDigitTokens(PySpecials(parts)) ==> Sorting.LexSorted(final[k..]))
            && (forall t :: t in final ==> Clean(t))
  {
    var parts := Tokens(Text.Split(sigStr, ','));
    var final := FinalList(sigStr).value;
    var sp := PySpecials(parts);
    var sorted := SortSpecials(sp).value;
    var k := |PyStrikers(parts)|;
    PartitionMultiset(parts);
    assert final[k..] == sorted;
    forall i | k <= i < |final| ensures IsSpecialToken(final[i]) {
      assert final[i] in multiset(sorted);
      assert final[i] in sp;
    }
    TokensClean(sigStr);
    forall t | t in final ensures Clean(t) {
      assert t in multiset(final);
    }
  }

  // ---------------------------------------------------------------------
  // Idempotence

  lemma {:induction false} TokensOfClean(ts: seq<string>)
    requires forall i :: 0 <= i < |ts| ==> Clean(ts[i])
    ensures Tokens(ts) == ts
  {
    if ts != [] {
      var n := |ts| - 1;
      TokensOfClean(ts[..n]);
      Text.TrimUnpadded(ts[n]);
      assert ts == ts[..n] + [ts[n]];
    }
  }

  lemma {:induction false} PartitionAppend(a: seq<string>, b: seq<string>)
    ensures PyStrikers(a + b) == PyStrikers(a) + PyStrikers(b)
    ensures PySpecials(a + b) == PySpecials(a) + PySpecials(b)
    decreases |b|
  {
    if b == [] {
      assert a + b == a;
    } else {
      var b' := b[..|b| - 1];
      assert (a + b)[..|a + b| - 1] == a + b';
      PartitionAppend(a, b');
    }
  }

  lemma {:induction false} PartitionOfStrikers(s: seq<string>)
    requires forall i :: 0 <= i < |s| ==> !IsSpecialToken(s[i])
    ensures PyStrikers(s) == s && PySpecials(s) == []
  {
    if s != [] {
      PartitionOfStrikers(s[..|s| - 1]);
      assert s == s[..|s| - 1] + [s[|s| - 1]];
    }
  }

  lemma {:induction false} PartitionOfSpecials(s: seq<string>)
    requires forall i :: 0 <= i < |s| ==> IsSpecialToken(s[i])
    ensures PyStrikers(s) == [] && PySpecials(s) == s
  {
    if s != [] {
      PartitionOfSpecials(s[..|s| - 1]);
      assert s == s[..|s| - 1] + [s[|s| - 1]];
    }
  }

  lemma {:induction false} SortByValueOfSorted(s: seq<string>)
    requires ValueSorted(s)
    ensures SortByValue(s) == s
  {
    if s != [] {
      assert ValueSorted(s[1..]) by {
        ValuesTail(s);
      }
      SortByValueOfSorted(s[1..]);
      assert s == [s[0]] + s[1..];
      assert |s| > 1 ==> Value(s[0]) <= Value(s[1]) by {
        if |s| > 1 {
          assert Values(s)[0] <= Values(s)[1];
        }
      }
    }
  }

  lemma {:induction false} SortLexOfSorted(s: seq<string>)
    requires Sorting.LexSorted(s)
    ensures Sorting.SortLex(s) == s
  {
    if s != [] {
      SortLexOfSorted(s[1..]);
      assert s == [s[0]] + s[1..];
    }
  }

  /** Sorting what the sort produced changes nothing. */
  lemma {:induction false} SortSpecialsStable(sp: seq<string>)
    requires SortSpecials(sp).Ok?
    ensures SortSpecials(SortSpecials(sp).value) == SortSpecials(sp)
  {
    var sorted := SortSpecials(sp).value;
    if |sp| >= 2 {
      assert |sorted| == |sp| by {
        assert |multiset(sorted)| == |multiset(sp)|;
      }
      if AllDigitTokens(sp) {
        assert AllDigitTokens(sorted) by {
          forall i | 0 <= i < |sorted| ensures IsDigitToken(sorted[i]) {
            assert sorted[i] in multiset(sp);
          }
        }
        SortByValueOfSorted(sorted);
      } else {
        assert NoDigitTokens(sorted) by {
          forall i | 0 <= i < |sorted| ensures !IsDigitToken(sorted[i]) {
            assert sorted[i] in multiset(sp);
          }
        }
        SortLexOfSorted(sorted);
      }
    }
  }

  lemma TokensOfJoin(final: seq<string>)
    requires 1 <= |final|
    requires forall i :: 0 <= i < |final| ==> Clean(final[i])
    ensures Tokens(Text.Split(Text.Join(final, ","), ',')) == final
  {
    Text.SplitJoin(final, ',');
    TokensOfClean(final);
  }

  lemma {:induction false} PartitionOfFinal(final: seq<string>, k: nat)
    requires k <= |final|
    requires forall i :: 0 <= i < k ==> !IsSpecialToken(final[i])
    requires forall i :: k <= i < |final| ==> IsSpecialToken(final[i])
    ensures PyStrikers(final) == final[..k] && PySpecials(final) == final[k..]
  {
    if |final| == k {
      PartitionOfStrikers(final);
      assert final[..k] == final;
    } else {
      var n := |final| - 1;
      var init, last := final[..n], final[n];
      assert IsSpecialToken(last);
      assert PyStrikers(init) == init[..k] && PySpecials(init) == init[k..] by {
        assert forall i :: 0 <= i < n ==> init[i] == final[i];
        PartitionOfFinal(init, k);
      }
      assert PyStrikers(final) == PyStrikers(init);
      assert PySpecials(final) == PySpecials(init) + [last];
      assert init[..k] == final[..k];
      assert init[k..] + [last] == final[k..];
    }
  }

  /** A list of tokens in final order is its own final list. */
  lemma {:induction false} FinalOfFinal(final: seq<string>, k: nat)
    requires k <= |final|
    requires forall i :: 0 <= i < k ==> !IsSpecialToken(final[i])
    requires forall i :: k <= i < |final| ==> IsSpecialToken(final[i])
    requires SortSpecials(final[k..]) == Ok(final[k..])
    ensures FinalOfTokens(final) == Ok(final)
  {
    PartitionOfFinal(final, k);
    assert final[..k] + final[k..] == final;
  }

  /** normalize_to_smart_sig is idempotent: normalising its own result gives that result again. */
  lemma {:induction false} SmartSigIdempotent(sigStr: string)
    requires SmartSig(sigStr).Ok?
    ensures SmartSig(SmartSig(sigStr).value) == SmartSig(sigStr)
  {
    if sigStr != "" {
      var parts := Tokens(Text.Split(sigStr, ','));
      var final := FinalList(sigStr).value;
      var k := |PyStrikers(parts)|;
      FinalListShape(sigStr);
      if final != [] {
        assert forall i :: 0 <= i < |final| ==> Clean(final[i]) by {
          forall i | 0 <= i < |final| ensures Clean(final[i]) {
            assert final[i] in final;
          }
        }
        Text.JoinNonEmpty(final, ",");
        SortSpecialsStable(PySpecials(parts));
        assert final[k..] == SortSpecials(PySpecials(parts)).value;
        TokensOfJoin(final);
        FinalOfFinal(final, k);
      }
    }
  }

  // ---------------------------------------------------------------------
  // Agreement with the Go backend's NormalizeTeam

  lemma NumeralsAppend(a: seq<int>, b: seq<int>)
    ensures Team.Numerals(a + b) == Team.Numerals(a) + Team.Numerals(b)
  {
  }

  lemma NumeralsPrefix(t: seq<int>, n: nat)
    requires n <= |t|
    ensures Team.Numerals(t)[..n] == Team.Numerals(t[..n])
  {
  }

  /** A decimal numeral is clean, so cleaning the tokens of a joined team changes nothing. */
  lemma NumeralsClean(t: seq<int>)
    ensures forall i :: 0 <= i < |t| ==> Clean(Team.Numerals(t)[i])
  {
    forall i | 0 <= i < |t| ensures Clean(Team.Numerals(t)[i]) {
      Decimal.NumeralHasNo(t[i], ',');
    }
  }

  lemma StartsWith2(s: string)
    requires |s| >= 1
    ensures Text.StartsWith(s, "2") <==> s[0] == '2'
  {
    assert Text.StartsWith(s, "2") ==> s[..1][0] == '2';
    assert s[0] == '2' ==> s[..1] == "2";
  }

  /** The Python partition of the numerals is the numerals of Go's partition. */
  lemma {:induction false} PartitionOfNumerals(t: seq<int>)
    ensures PyStrikers(Team.Numerals(t)) == Team.Numerals(Team.Strikers(t))
    ensures PySpecials(Team.Numerals(t)) == Team.Numerals(Team.Specials(t))
  {
    if t != [] {
      var n := |t| - 1;
      PartitionOfNumerals(t[..n]);
      NumeralsPrefix(t, n);
      var s := Decimal.IntToString(t[n]);
      Team.SpecialIffPrefix2(t[n]);
      StartsWith2(s);
      NumeralsAppend(Team.Strikers(t[..n]), if Team.IsSpecial(t[n]) then [] else [t[n]]);
      NumeralsAppend(Team.Specials(t[..n]), if Team.IsSpecial(t[n]) then [t[n]] else []);
    }
  }

  lemma ValueOfNumeral(n: nat)
    ensures Value(Decimal.IntToString(n)) == n
  {
    Decimal.DigitsValueOfNat(n);
  }

  /** The numerals of a non-empty list are the head's numeral followed by the tail's numerals. */
  lemma {:induction false} NumeralsTail(u: seq<int>)
    requires u != []
    ensures Team.Numerals(u)[0] == Decimal.IntToString(u[0])
    ensures Team.Numerals(u)[1..] == Team.Numerals(u[1..])
    ensures Team.Numerals(u) == [Decimal.IntToString(u[0])] + Team.Numerals(u[1..])
  {
    var nu, nt := Team.Numerals(u), Team.Numerals(u[1..]);
    forall i | 0 <= i < |nt| ensures nu[1..][i] == nt[i] {
      assert u[1..][i] == u[i + 1];
    }
    assert nu[1..] == nt;
    assert nu == [nu[0]] + nu[1..];
  }

  lemma {:induction false} InsertByValueOfNumerals(x: int, u: seq<int>)
    requires x >= 0 && forall i :: 0 <= i < |u| ==> u[i] >= 0
    ensures InsertByValue(Decimal.IntToString(x), Team.Numerals(u)) == Team.Numerals(Sorting.Insert(x, u))
  {
    var nx := Decimal.IntToString(x);
    ValueOfNumeral(x);
    if u == [] {
      assert Team.Numerals([x]) == [nx];
    } else {
      var nu := Team.Numerals(u);
      NumeralsTail(u);
      ValueOfNumeral(u[0]);
      if x <= u[0] {
        assert InsertByValue(nx, nu) == [nx] + nu;
        assert Sorting.Insert(x, u) == [x] + u;
        NumeralsTail([x] + u);
        assert ([x] + u)[1..] == u;
      } else {
        var rest := Sorting.Insert(x, u[1..]);
        assert InsertByValue(nx, nu) == [nu[0]] + InsertByValue(nx, nu[1..]);
        InsertByValueOfNumerals(x, u[1..]);
        assert Sorting.Insert(x, u) == [u[0]] + rest;
        NumeralsTail([u[0]] + rest);
        assert ([u[0]] + rest)[1..] == rest;
      }
    }
  }

  /** Sorting the numerals of natural numbers by value gives the numerals of the sorted numbers. */
  lemma {:induction false} SortByValueOfNumerals(s: seq<int>)
    requires forall i :: 0 <= i < |s| ==> s[i] >= 0
    ensures SortByValue(Team.Numerals(s)) == Team.Numerals(Sorting.SortInts(s))
  {
    if s != [] {
      var ns := Team.Numerals(s);
      var sorted := Sorting.SortInts(s[1..]);
      NumeralsTail(s);
      SortByValueOfNumerals(s[1..]);
      assert forall i :: 0 <= i < |sorted| ==> sorted[i] >= 0 by {
        forall i | 0 <= i < |sorted| ensures sorted[i] >= 0 {
          assert sorted[i] in multiset(s[1..]);
        }
      }
      InsertByValueOfNumerals(s[0], sorted);
      assert SortByValue(ns) == InsertByValue(ns[0], SortByValue(ns[1..]));
      assert Sorting.SortInts(s) == Sorting.Insert(s[0], sorted);
    }
  }

  /** The "2" numerals are all digit tokens, and Python sorts them as Go sorts the IDs. */
  lemma {:induction false} SortSpecialsOfNumerals(sp: seq<int>)
    requires forall i :: 0 <= i < |sp| ==> Team.IsSpecial(sp[i])
    ensures SortSpecials(Team.Numerals(sp)) == Ok(Team.Numerals(Sorting.SortInts(sp)))
  {
    assert AllDigitTokens(Team.Numerals(sp)) by {
      forall i | 0 <= i < |sp| ensures IsDigitToken(Team.Numerals(sp)[i]) {
        Team.SpecialIffPrefix2(sp[i]);
      }
    }
    if |sp| >= 2 {
      SortByValueOfNumerals(sp);
    } else if |sp| == 1 {
      assert Sorting.SortInts(sp) == sp;
    }
  }

  lemma {:induction false} FinalListOfNumerals(t: seq<int>)
    requires t != []
    ensures FinalList(Team.JoinIds(t)) == Ok(Team.Numerals(Team.Normalized(t)))
  {
    NumeralsClean(t);
    TokensOfJoin(Team.Numerals(t));
    PartitionOfNumerals(t);
    SortSpecialsOfNumerals(Team.Specials(t));
    NumeralsAppend(Team.Strikers(t), Sorting.SortInts(Team.Specials(t)));
  }

  /**
   * For every list of integers, normalize_to_smart_sig of its comma-join is
   * the signature Go's NormalizeTeam gives it: both backends agree on the
   * canonical form of a team.
   */
  lemma SmartSigAgreesWithGo(t: seq<int>)
    ensures SmartSig(Team.JoinIds(t)) == Ok(Team.Signature(t))
    ensures GenerateSignatures(t).1 == Ok(Team.Signature(t))
  {
    Team.SignatureEmptyIff(t);
    if t != [] {
      Text.JoinNonEmpty(Team.Numerals(t), ",");
      FinalListOfNumerals(t);
    } else {
      assert Team.JoinIds(t) == "";
    }
  }
}
