/**
 * Comment threads of the Go backend (server/internal/handlers/comments.go):
 * signatures are canonicalised with ensureSig before they are stored or
 * queried, and deleting a comment also deletes its direct replies.
 */
module CommentsHandler {
  import opened Wrappers
  import Text
  import Decimal
  import Team
  import Parsers

  /** What ensureSig returns: "" for "", the input itself when no token parses, else the canonical signature. */
  function EnsuredSig(s: string): string {
    if s == "" then ""
    else
      var ids := Parsers.ParsedIds(Text.Split(s, ','));
      if ids == [] then s else Team.Signature(ids)
  }

  /** comments.go ensureSig: a loop collects the parsable tokens, then NormalizeTeam canonicalises them. */
  method EnsureSig(sigStr: string) returns (sig: string)
    ensures sig == EnsuredSig(sigStr)
    ensures sigStr == "" ==> sig == ""
    ensures Parsers.ParsedIds(Text.Split(sigStr, ',')) == [] ==> sig == sigStr
  {
    if sigStr == "" {
      return "";
    }
    var parts := Text.Split(sigStr, ',');
    var ids: seq<int> := [];
    for i := 0 to |parts|
      invariant ids == Parsers.ParsedIds(parts[..i])
    {
      assert parts[..i + 1][..i] == parts[..i];
      var val := Decimal.GoAtoi(Text.Trim(parts[i]));
      if val.Some? {
        ids := ids + [val.value];
      }
    }
    assert parts[..|parts|] == parts;
    if |ids| == 0 {
      return sigStr;
    }
    var _, finalSig := Team.NormalizeTeam(ids);
    sig := finalSig;
  }

  /** A printed ID reads back as itself once trimmed, when it fits a 64-bit int. */
  lemma ParseTokenOfNumeral(n: int)
    requires Decimal.MinInt64 <= n <= Decimal.MaxInt64
    ensures Parsers.ParseToken(Decimal.IntToString(n)) == Some(n)
  {
    var s := Decimal.IntToString(n);
    assert !Text.IsSpace(s[0]) && !Text.IsSpace(s[|s| - 1]);
    Text.TrimUnpadded(s);
    Decimal.AtoiItoa(n);
  }

  /** Every 64-bit ID list of length at least one reads back from its comma-join. */
  lemma ParseJoinIds(t: seq<int>)
    requires |t| >= 1
    requires forall i :: 0 <= i < |t| ==> Decimal.MinInt64 <= t[i] <= Decimal.MaxInt64
    ensures Parsers.ParsedIds(Text.Split(Team.JoinIds(t), ',')) == t
  {
    Team.SplitJoinIds(t);
    forall i | 0 <= i < |t| ensures Parsers.ParseToken(Team.Numerals(t)[i]) == Some(t[i]) {
      ParseTokenOfNumeral(t[i]);
    }
    Parsers.ParsedIdsAll(Team.Numerals(t), t);
  }

  lemma ParsedIdsInRange(parts: seq<string>)
    ensures forall v :: v in Parsers.ParsedIds(parts) ==> Decimal.MinInt64 <= v <= Decimal.MaxInt64
  {
    forall v | v in Parsers.ParsedIds(parts) ensures Decimal.MinInt64 <= v <= Decimal.MaxInt64 {
      Parsers.ParsedIdsMembers(parts, v);
    }
  }

  /** ensureSig is idempotent on inputs holding at least one integer token. */
  lemma EnsuredSigIdempotent(s: string)
    requires Parsers.ParsedIds(Text.Split(s, ',')) != []
    ensures EnsuredSig(EnsuredSig(s)) == EnsuredSig(s)
  {
    var ids := Parsers.ParsedIds(Text.Split(s, ','));
    Parsers.NoIdsInEmpty();
    assert s != "";
    var n := Team.Normalized(ids);
    Team.NormalizedIsPermutation(ids);
    ParsedIdsInRange(Text.Split(s, ','));
    forall i | 0 <= i < |n| ensures Decimal.MinInt64 <= n[i] <= Decimal.MaxInt64 {
      assert n[i] in multiset(ids);
      assert n[i] in ids;
    }
    ParseJoinIds(n);
    Team.SignatureEmptyIff(ids);
    Team.NormalizedIdempotent(ids);
  }

  /** Two signatures naming the same strikers in the same order and the same specials in any order. */
  predicate SameTeamUpToSpecials(a: string, b: string) {
    var ia := Parsers.ParsedIds(Text.Split(a, ','));
    var ib := Parsers.ParsedIds(Text.Split(b, ','));
    ia != [] && ib != [] &&
    Team.Strikers(ia) == Team.Strikers(ib) &&
    multiset(Team.Specials(ia)) == multiset(Team.Specials(ib))
  }

  /** Reordering the special IDs of a signature does not change its ensured form. */
  lemma EnsuredSigIgnoresSpecialOrder(a: string, b: string)
    requires SameTeamUpToSpecials(a, b)
    ensures EnsuredSig(a) == EnsuredSig(b)
  {
    Parsers.NoIdsInEmpty();
    var ia := Parsers.ParsedIds(Text.Split(a, ','));
    var ib := Parsers.ParsedIds(Text.Split(b, ','));
    assert a != "" && b != "";
    assert EnsuredSig(a) == Team.Signature(ia);
    assert EnsuredSig(b) == Team.Signature(ib);
    Team.NormalizedIgnoresSpecialOrder(ia, ib);
  }

  /** A stored comment. */
  datatype Comment = Comment(
    id: nat, server: string, atkSig: string, defSig: string,
    username: string, content: string, parentId: Option<nat>, createdAt: int)

  /** The body of an add-comment request. */
  datatype CommentRequest = CommentRequest(
    server: string, atkSig: string, defSig: string,
    username: string, content: string, parentId: Option<nat>)

  /** The rows a query for (server, atk, def) selects. */
  predicate Selected(c: Comment, server: string, atk: string, def: string) {
    c.server == server && c.atkSig == atk && c.defSig == def
  }

  function Matching(cs: seq<Comment>, server: string, atk: string, def: string): (r: seq<Comment>)
    ensures forall c :: c in r <==> c in cs && Selected(c, server, atk, def)
  {
    if cs == [] then []
    else
      var last := cs[|cs| - 1];
      Matching(cs[..|cs| - 1], server, atk, def) + (if Selected(last, server, atk, def) then [last] else [])
  }

  lemma MatchingStep(cs: seq<Comment>, i: nat, server: string, atk: string, def: string)
    requires i < |cs|
    ensures Matching(cs[..i + 1], server, atk, def)
            == Matching(cs[..i], server, atk, def) + (if Selected(cs[i], server, atk, def) then [cs[i]] else [])
  {
    assert cs[..i + 1][..i] == cs[..i];
  }

  /** A row DeleteComment(id) keeps: neither the comment itself nor one of its direct replies. */
  predicate Survives(c: Comment, id: nat) {
    c.id != id && c.parentId != Some(id)
  }

  /** The rows left after deleting comment id, in their original order. */
  function AfterDelete(cs: seq<Comment>, id: nat): (r: seq<Comment>)
    ensures |r| <= |cs|
    ensures forall c :: c in r <==> c in cs && Survives(c, id)
  {
    if cs == [] then []
    else
      var last := cs[|cs| - 1];
      AfterDelete(cs[..|cs| - 1], id) + (if Survives(last, id) then [last] else [])
  }

  /** A stored comment is found by a query for the same team written with its specials in another order. */
  lemma ReorderedQueryFindsComment(store: seq<Comment>, c: Comment, req: CommentRequest, atkQ: string, defQ: string)
    requires c in store
    requires c.server == req.server && c.atkSig == EnsuredSig(req.atkSig) && c.defSig == EnsuredSig(req.defSig)
    requires SameTeamUpToSpecials(req.atkSig, atkQ) && SameTeamUpToSpecials(req.defSig, defQ)
    ensures c in Matching(store, req.server, EnsuredSig(atkQ), EnsuredSig(defQ))
  {
    EnsuredSigIgnoresSpecialOrder(req.atkSig, atkQ);
    EnsuredSigIgnoresSpecialOrder(req.defSig, defQ);
  }

  /** The comments table. */
  class CommentStore {
    var comments: seq<Comment>
    var nextId: nat

    /** Every stored id was issued before nextId. */
    ghost predicate Valid()
      reads this
    {
      forall c :: c in comments ==> c.id < nextId
    }

    constructor ()
      ensures Valid() && comments == [] && nextId == 1
    {
      comments := [];
      nextId := 1;
    }

    /** GetComments: the rows for the server (default "global") and the ensured signatures. */
    method GetComments(server: Option<string>, atkSig: string, defSig: string) returns (found: seq<Comment>)
      ensures found == Matching(comments, if server.Some? then server.value else "global",
                                EnsuredSig(atkSig), EnsuredSig(defSig))
    {
      var finalAtk := EnsureSig(atkSig);
      var finalDef := EnsureSig(defSig);
      var srv := if server.Some? then server.value else "global";
      var cs := comments;
      found := [];
      for i := 0 to |cs|
        invariant found == Matching(cs[..i], srv, finalAtk, finalDef)
      {
        MatchingStep(cs, i, srv, finalAtk, finalDef);
        if Selected(cs[i], srv, finalAtk, finalDef) {
          found := found + [cs[i]];
        }
      }
      assert cs[..|cs|] == cs;
    }

    /** AddComment: stores the request under ensured signatures, stamped with the current time. */
    method AddComment(req: CommentRequest, now: int) returns (id: nat)
      requires Valid()
      modifies this
      ensures Valid()
      ensures id == old(nextId) && nextId == old(nextId) + 1
      ensures comments == old(comments) + [Comment(id, req.server, EnsuredSig(req.atkSig),
                                  EnsuredSig(req.defSig), req.username, req.content, req.parentId, now)]
    {
      var atk := EnsureSig(req.atkSig);
      var def := EnsureSig(req.defSig);
      id := nextId;
      comments := comments + [Comment(id, req.server, atk, def, req.username, req.content, req.parentId, now)];
      nextId := nextId + 1;
    }

    /** DeleteComment: removes the comment and every comment whose parent it is. */
    method DeleteComment(id: nat)
      requires Valid()
      modifies this`comments
      ensures Valid()
      ensures comments == AfterDelete(old(comments), id)
    {
      comments := AfterDelete(comments, id);
    }
  }
}
