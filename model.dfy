/**
 * The records the decision engine keeps and reports, and the derived
 * quantities computed from them.
 */
module Model {
  import opened Classifier

  type IdeaId = string
  type UserId = string

  datatype Option<T> = None | Some(value: T)

  /** An idea as the engine stores it: the tally since its last registration. */
  datatype Idea = Idea(
    id: IdeaId,
    title: string,
    strength: int,
    engagedUsers: set<UserId>,
    commentWeights: seq<int>)

  /** A comment as recorded, with the classifier's verdict on its text. */
  datatype Comment = Comment(
    ideaId: IdeaId,
    user: UserId,
    text: string,
    kind: CommentType,
    weight: int)

  /** One line of the result list. */
  datatype Record = Record(
    id: IdeaId,
    title: string,
    strength: int,
    engagedCount: nat,
    quorumReached: bool,
    comments: seq<Comment>)

  predicate NoDuplicates<T(==)>(s: seq<T>) {
    forall i, j :: 0 <= i < j < |s| ==> s[i] != s[j]
  }

  // ---------------------------------------------------------------------
  // Sums of weights

  /** The total of the weights, added from the left starting at 0. */
  function Sum(ws: seq<int>): int {
    if ws == [] then 0 else ws[0] + Sum(ws[1..])
  }

  lemma {:induction false} SumConcat(a: seq<int>, b: seq<int>)
    ensures Sum(a + b) == Sum(a) + Sum(b)
  {
    if a == [] {
      assert a + b == b;
    } else {
      assert (a + b)[1..] == a[1..] + b;
      SumConcat(a[1..], b);
    }
  }

  /** Appending one weight adds exactly that weight to the sum. */
  lemma SumAppend(ws: seq<int>, w: int)
    ensures Sum(ws + [w]) == Sum(ws) + w
  {
    SumConcat(ws, [w]);
    assert Sum([w]) == w + Sum([]);
  }

  /** Taking one weight out of the list takes exactly that weight off the sum. */
  lemma SumRemove(b: seq<int>, k: nat)
    requires k < |b|
    ensures Sum(b) == b[k] + Sum(b[..k] + b[k + 1..])
  {
    assert b == b[..k] + ([b[k]] + b[k + 1..]);
    SumConcat(b[..k], [b[k]] + b[k + 1..]);
    SumConcat([b[k]], b[k + 1..]);
    SumConcat(b[..k], b[k + 1..]);
    assert Sum([b[k]]) == b[k] + Sum([]);
  }

  /** Removing the first weight of `a` and a matching weight of `b` keeps them permutations of each other. */
  lemma RemoveMatching(a: seq<int>, b: seq<int>, k: nat)
    requires multiset(a) == multiset(b) && a != [] && k < |b| && b[k] == a[0]
    ensures multiset(a[1..]) == multiset(b[..k] + b[k + 1..])
  {
    var rest := b[..k] + b[k + 1..];
    assert a == [a[0]] + a[1..];
    assert multiset(a) == multiset{a[0]} + multiset(a[1..]);
    assert b == b[..k] + [b[k]] + b[k + 1..];
    assert multiset(b) == multiset(b[..k]) + multiset{b[k]} + multiset(b[k + 1..]);
    assert multiset(rest) == multiset(b[..k]) + multiset(b[k + 1..]);
    assert multiset(a[1..]) == multiset(a) - multiset{a[0]};
  }

  /** The sum does not depend on the order in which the weights arrived. */
  lemma {:induction false} SumPermutation(a: seq<int>, b: seq<int>)
    requires multiset(a) == multiset(b)
    ensures Sum(a) == Sum(b)
  {
    if a == [] {
      assert |b| == |multiset(b)| == 0;
    } else {
      assert a[0] in multiset(b);
      var k :| 0 <= k < |b| && b[k] == a[0];
      RemoveMatching(a, b, k);
      SumPermutation(a[1..], b[..k] + b[k + 1..]);
      SumRemove(b, k);
    }
  }

  // ---------------------------------------------------------------------
  // Comments of one idea

  /** The comments on `id`, in list order. */
  function CommentsFor(cs: seq<Comment>, id: IdeaId): (r: seq<Comment>)
    ensures |r| <= |cs|
  {
    if cs == [] then []
    else (if cs[0].ideaId == id then [cs[0]] else []) + CommentsFor(cs[1..], id)
  }

  /** The filter keeps exactly the comments on `id`. */
  lemma {:induction false} CommentsForMember(cs: seq<Comment>, id: IdeaId, c: Comment)
    ensures c in CommentsFor(cs, id) <==> c in cs && c.ideaId == id
  {
    if cs != [] {
      CommentsForMember(cs[1..], id, c);
      assert cs == [cs[0]] + cs[1..];
    }
  }


  /** Filtering an extended list extends the filtered list by the new comment, if it matches. */
  lemma {:induction false} CommentsForAppend(cs: seq<Comment>, c: Comment, id: IdeaId)
    ensures CommentsFor(cs + [c], id) == CommentsFor(cs, id) + (if c.ideaId == id then [c] else [])
  {
    if cs == [] {
      assert [c][1..] == [];
    } else {
      var head := if cs[0].ideaId == id then [cs[0]] else [];
      assert (cs + [c])[1..] == cs[1..] + [c];
      assert CommentsFor(cs + [c], id) == head + CommentsFor(cs[1..] + [c], id);
      CommentsForAppend(cs[1..], c, id);
    }
  }

  /** The weights of the comments, in order. */
  function Weights(cs: seq<Comment>): seq<int> {
    seq(|cs|, i requires 0 <= i < |cs| => cs[i].weight)
  }

  /** The distinct users among the comments: each author added to a set in turn. */
  function Users(cs: seq<Comment>): set<UserId> {
    if cs == [] then {} else Users(cs[..|cs| - 1]) + {cs[|cs| - 1].user}
  }

  /** A user is engaged exactly when some comment is by that user. */
  lemma {:induction false} UsersMember(cs: seq<Comment>, u: UserId)
    ensures u in Users(cs) <==> exists i :: 0 <= i < |cs| && cs[i].user == u
  {
    if cs != [] {
      var init := cs[..|cs| - 1];
      UsersMember(init, u);
      if u in Users(init) {
        var i :| 0 <= i < |init| && init[i].user == u;
        assert cs[i].user == u;
      }
      if exists i :: 0 <= i < |cs| && cs[i].user == u {
        var i :| 0 <= i < |cs| && cs[i].user == u;
        if i < |init| {
          assert init[i].user == u;
        }
      }
    }
  }

  lemma WeightsAppend(cs: seq<Comment>, c: Comment)
    ensures Weights(cs + [c]) == Weights(cs) + [c.weight]
  {
  }

  lemma UsersAppend(cs: seq<Comment>, c: Comment)
    ensures Users(cs + [c]) == Users(cs) + {c.user}
  {
    assert (cs + [c])[..|cs|] == cs;
  }

  /** However many comments a user writes, the user is counted once. */
  lemma {:induction false} UsersAtMostComments(cs: seq<Comment>)
    ensures |Users(cs)| <= |cs|
  {
    if cs != [] {
      var init := cs[..|cs| - 1];
      assert cs == init + [cs[|cs| - 1]];
      UsersAppend(init, cs[|cs| - 1]);
      UsersAtMostComments(init);
    }
  }
}
