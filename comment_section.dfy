/**
 * The threaded comment box under an arena matchup
 * (client/src/components/arena/ArenaCommentSection.jsx): grouping the
 * fetched comments into roots and reply buckets, what is displayed, the
 * post guard and the local cascade delete.
 */
module CommentSection {
  import opened Wrappers
  import Text
  import CommentsHandler

  type Comment = CommentsHandler.Comment

  /** A comment with a falsy parent_id (null or 0) is a root. */
  predicate IsRoot(c: Comment) {
    c.parentId.None? || c.parentId == Some(0)
  }

  /** The roots, in input order. */
  function Roots(cs: seq<Comment>): (r: seq<Comment>)
    ensures forall c :: c in r <==> c in cs && IsRoot(c)
  {
    if cs == [] then []
    else
      var last := cs[|cs| - 1];
      Roots(cs[..|cs| - 1]) + (if IsRoot(last) then [last] else [])
  }

  /** The replies filed under parent p, in input order. */
  function RepliesTo(cs: seq<Comment>, p: nat): (r: seq<Comment>)
    ensures forall c :: c in r <==> c in cs && !IsRoot(c) && c.parentId == Some(p)
  {
    if cs == [] then []
    else
      var last := cs[|cs| - 1];
      RepliesTo(cs[..|cs| - 1], p) + (if !IsRoot(last) && last.parentId == Some(p) then [last] else [])
  }

  /**
   * repliesMap: a bucket exactly for each parent id some reply names
   * (its replies being non-empty), holding that parent's replies in input
   * order.
   */
  function Buckets(cs: seq<Comment>): (b: map<nat, seq<Comment>>)
    ensures forall p :: p in b <==> RepliesTo(cs, p) != []
    ensures forall p :: p in b ==> b[p] == RepliesTo(cs, p)
  {
    if cs == [] then map[]
    else
      var last := cs[|cs| - 1];
      var b := Buckets(cs[..|cs| - 1]);
      if IsRoot(last) then b
      else
        var p := last.parentId.value;
        b[p := (if p in b then b[p] else []) + [last]]
  }

  /** Filing comment i extends the grouping of the comments before it. */
  lemma GroupsStep(cs: seq<Comment>, i: nat)
    requires i < |cs|
    ensures Roots(cs[..i + 1]) == Roots(cs[..i]) + (if IsRoot(cs[i]) then [cs[i]] else [])
    ensures var b := Buckets(cs[..i]);
            var p := cs[i].parentId;
            Buckets(cs[..i + 1])
            == if IsRoot(cs[i]) then b else b[p.value := (if p.value in b then b[p.value] else []) + [cs[i]]]
  {
    assert cs[..i + 1][..i] == cs[..i];
  }

  /** structuredComments: the forEach that files each comment as a root or under its parent. */
  method Structure(comments: seq<Comment>) returns (roots: seq<Comment>, repliesMap: map<nat, seq<Comment>>)
    ensures roots == Roots(comments)
    ensures repliesMap == Buckets(comments)
  {
    roots := [];
    repliesMap := map[];
    for i := 0 to |comments|
      invariant roots == Roots(comments[..i])
      invariant repliesMap == Buckets(comments[..i])
    {
      var c := comments[i];
      GroupsStep(comments, i);
      if c.parentId.Some? && c.parentId.value != 0 {
        var p := c.parentId.value;
        var bucket := if p in repliesMap then repliesMap[p] else [];
        repliesMap := repliesMap[p := bucket + [c]];
      } else {
        roots := roots + [c];
      }
    }
    assert comments[..|comments|] == comments;
  }

  /** Grouping keeps input order: the roots of a concatenation are the roots of each part, in turn. */
  lemma {:induction false} RootsOfAppend(a: seq<Comment>, b: seq<Comment>)
    ensures Roots(a + b) == Roots(a) + Roots(b)
    decreases |b|
  {
    if b == [] {
      assert a + b == a;
    } else {
      var b' := b[..|b| - 1];
      assert (a + b)[..|a + b| - 1] == a + b';
      assert (a + b)[|a + b| - 1] == b[|b| - 1];
      RootsOfAppend(a, b');
    }
  }

  /** The same for the bucket of each parent. */
  lemma {:induction false} RepliesOfAppend(a: seq<Comment>, b: seq<Comment>, p: nat)
    ensures RepliesTo(a + b, p) == RepliesTo(a, p) + RepliesTo(b, p)
    decreases |b|
  {
    if b == [] {
      assert a + b == a;
    } else {
      var b' := b[..|b| - 1];
      assert (a + b)[..|a + b| - 1] == a + b';
      assert (a + b)[|a + b| - 1] == b[|b| - 1];
      RepliesOfAppend(a, b', p);
    }
  }

  /** Counting an element in a filter that keeps or drops the last element. */
  lemma CountStep<T>(cs: seq<T>, kept: seq<T>, keptInit: seq<T>, tail: seq<T>, c: T)
    requires cs != [] && kept == keptInit + tail
    ensures multiset(kept)[c] == multiset(keptInit)[c] + multiset(tail)[c]
    ensures multiset(cs)[c] == multiset(cs[..|cs| - 1])[c] + multiset([cs[|cs| - 1]])[c]
  {
    assert cs == cs[..|cs| - 1] + [cs[|cs| - 1]];
  }

  /** A comment is among the roots as often as it occurs, if it is a root. */
  lemma {:induction false} RootsCount(cs: seq<Comment>, c: Comment)
    ensures multiset(Roots(cs))[c] == (if IsRoot(c) then multiset(cs)[c] else 0)
  {
    if cs != [] {
      var init := cs[..|cs| - 1];
      var last := cs[|cs| - 1];
      var tail := if IsRoot(last) then [last] else [];
      RootsCount(init, c);
      CountStep(cs, Roots(cs), Roots(init), tail, c);
    }
  }

  /** A comment is in the bucket of p as often as it occurs, if it is a reply to p. */
  lemma {:induction false} RepliesCount(cs: seq<Comment>, c: Comment, p: nat)
    ensures multiset(RepliesTo(cs, p))[c] == (if !IsRoot(c) && c.parentId == Some(p) then multiset(cs)[c] else 0)
  {
    if cs != [] {
      var init := cs[..|cs| - 1];
      var last := cs[|cs| - 1];
      var tail := if !IsRoot(last) && last.parentId == Some(p) then [last] else [];
      RepliesCount(init, c, p);
      CountStep(cs, RepliesTo(cs, p), RepliesTo(init, p), tail, c);
    }
  }

  /**
   * Every comment lands in exactly one place, as often as it occurs: among
   * the roots if it is one, otherwise in the bucket of its parent and no
   * other.
   */
  lemma GroupsPartition(cs: seq<Comment>, c: Comment, p: nat)
    ensures multiset(Roots(cs))[c] == (if IsRoot(c) then multiset(cs)[c] else 0)
    ensures multiset(RepliesTo(cs, p))[c] == (if !IsRoot(c) && c.parentId == Some(p) then multiset(cs)[c] else 0)
  {
    RootsCount(cs, c);
    RepliesCount(cs, c, p);
  }

  /** What is rendered for the roots rs: each root followed by its bucket, if any. */
  function DisplayedFrom(rs: seq<Comment>, b: map<nat, seq<Comment>>): seq<Comment> {
    if rs == [] then []
    else
      var last := rs[|rs| - 1];
      DisplayedFrom(rs[..|rs| - 1], b) + [last] + (if last.id in b then b[last.id] else [])
  }

  /** The comments the section shows, in display order. */
  function Displayed(cs: seq<Comment>): seq<Comment> {
    DisplayedFrom(Roots(cs), Buckets(cs))
  }

  /** The bucket shown under a root holds exactly the replies naming it. */
  lemma BucketMembers(cs: seq<Comment>, id: nat, c: Comment)
    ensures var b := Buckets(cs);
            c in (if id in b then b[id] else []) <==> c in cs && !IsRoot(c) && c.parentId == Some(id)
  {
  }

  /** The ids of the comments in rs. */
  function Ids(rs: seq<Comment>): (ids: set<nat>)
    ensures forall r :: r in rs ==> r.id in ids
  {
    if rs == [] then {} else Ids(rs[..|rs| - 1]) + {rs[|rs| - 1].id}
  }

  /** Whether c sits in the bucket of one of the roots rs. */
  predicate InRootBucket(c: Comment, rs: seq<Comment>, b: map<nat, seq<Comment>>) {
    rs != [] && (InRootBucket(c, rs[..|rs| - 1], b) || (rs[|rs| - 1].id in b && c in b[rs[|rs| - 1].id]))
  }

  lemma {:induction false} DisplayedFromMembers(rs: seq<Comment>, b: map<nat, seq<Comment>>, c: Comment)
    ensures c in DisplayedFrom(rs, b) <==> c in rs || InRootBucket(c, rs, b)
  {
    if rs != [] {
      DisplayedFromMembers(rs[..|rs| - 1], b, c);
      assert rs == rs[..|rs| - 1] + [rs[|rs| - 1]];
    }
  }

  lemma {:induction false} InRootBucketMembers(rs: seq<Comment>, cs: seq<Comment>, c: Comment)
    ensures InRootBucket(c, rs, Buckets(cs)) <==> c in cs && !IsRoot(c) && c.parentId.value in Ids(rs)
  {
    if rs != [] {
      InRootBucketMembers(rs[..|rs| - 1], cs, c);
      BucketMembers(cs, rs[|rs| - 1].id, c);
    }
  }

  /**
   * Shown are exactly the roots and the replies whose parent is a root;
   * a reply to a reply or to an absent comment stays in its bucket unseen.
   */
  lemma DisplayedMembers(cs: seq<Comment>, c: Comment)
    ensures c in Displayed(cs) <==> c in cs && (IsRoot(c) || c.parentId.value in Ids(Roots(cs)))
  {
    DisplayedFromMembers(Roots(cs), Buckets(cs), c);
    InRootBucketMembers(Roots(cs), cs, c);
  }

  /** Only a root offers the reply action. */
  predicate OffersReply(c: Comment) {
    IsRoot(c)
  }

  /** A reply made through a root's reply action is displayed once it is fetched. */
  lemma ReplyToRootDisplayed(cs: seq<Comment>, root: Comment, reply: Comment)
    requires root in cs && OffersReply(root) && root.id != 0
    requires reply.parentId == Some(root.id)
    ensures reply in Displayed(cs + [reply])
  {
    RootsOfAppend(cs, [reply]);
    DisplayedMembers(cs + [reply], reply);
  }

  /** The comment section's state. */
  class CommentBox {
    const server: string
    const atkSig: string
    const defSig: string
    var comments: seq<Comment>
    var username: string
    var mainInput: string
    var replyingTo: Option<nat>
    var replyInput: string

    constructor (server: string, atkSig: string, defSig: string)
      ensures this.server == server && this.atkSig == atkSig && this.defSig == defSig
      ensures comments == [] && username == "" && mainInput == "" && replyingTo.None? && replyInput == ""
    {
      this.server := server;
      this.atkSig := atkSig;
      this.defSig := defSig;
      comments := [];
      username := "";
      mainInput := "";
      replyingTo := None;
      replyInput := "";
    }

    /**
     * handlePost: whitespace-only content sends nothing and changes nothing;
     * otherwise the request carries the content as typed. After a
     * successful post a reply clears the reply box and closes it, a
     * top-level post clears the main box; a failed post changes nothing.
     * The list is reloaded from the server afterwards.
     */
    method Post(content: string, parentId: Option<nat>, succeeded: bool) returns (sent: Option<CommentsHandler.CommentRequest>)
      modifies this
      ensures sent.None? <==> Text.Trim(content) == ""
      ensures sent.Some? ==> sent.value == CommentsHandler.CommentRequest(server, atkSig, defSig, username, content, parentId)
      ensures comments == old(comments) && username == old(username)
      ensures if sent.Some? && succeeded && parentId.Some? && parentId.value != 0
              then replyInput == "" && replyingTo.None? && mainInput == old(mainInput)
              else if sent.Some? && succeeded
              then mainInput == "" && replyInput == old(replyInput) && replyingTo == old(replyingTo)
              else mainInput == old(mainInput) && replyInput == old(replyInput) && replyingTo == old(replyingTo)
    {
      if Text.Trim(content) == "" {
        return None;
      }
      sent := Some(CommentsHandler.CommentRequest(server, atkSig, defSig, username, content, parentId));
      if succeeded {
        if parentId.Some? && parentId.value != 0 {
          replyInput := "";
          replyingTo := None;
        } else {
          mainInput := "";
        }
      }
    }

    /**
     * handleDelete: after the server deletes comment id, the local list
     * drops that comment and its direct replies, the same rule the server
     * applies; on failure the list is unchanged.
     */
    method Delete(id: nat, succeeded: bool)
      modifies this
      ensures comments == (if succeeded then CommentsHandler.AfterDelete(old(comments), id) else old(comments))
      ensures username == old(username) && mainInput == old(mainInput)
      ensures replyingTo == old(replyingTo) && replyInput == old(replyInput)
    {
      if succeeded {
        comments := LocalFilter(comments, id);
      }
    }
  }

  /** The filter of handleDelete, written as the loop of Array.prototype.filter. */
  method LocalFilter(prev: seq<Comment>, id: nat) returns (kept: seq<Comment>)
    ensures kept == CommentsHandler.AfterDelete(prev, id)
  {
    kept := [];
    for i := 0 to |prev|
      invariant kept == CommentsHandler.AfterDelete(prev[..i], id)
    {
      assert prev[..i + 1][..i] == prev[..i];
      if prev[i].id != id && prev[i].parentId != Some(id) {
        kept := kept + [prev[i]];
      }
    }
    assert prev[..|prev|] == prev;
  }

  /** A local delete removes the comment and its direct replies and keeps everything else. */
  lemma LocalDeleteRemovesFamily(cs: seq<Comment>, id: nat, c: Comment)
    requires c in cs
    ensures c !in CommentsHandler.AfterDelete(cs, id) <==> c.id == id || c.parentId == Some(id)
  {
  }
}
