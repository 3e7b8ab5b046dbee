/**
 * The bee-swarm decision engine: ideas are registered, comments on them are
 * classified and tallied, and the ideas are reported ranked by strength.
 */
module Swarm {
  import opened Classifier
  import opened Model
  import opened Ranking

  /** The quorum threshold of an engine built without one. */
  const DefaultQuorum: int := 3

  /** The entry a (re)registration stores: nothing tallied yet. */
  function NewIdea(id: IdeaId, title: string): Idea {
    Idea(id, title, 0, {}, [])
  }

  /**
   * The tally of `idea` is that of the last `|idea.commentWeights|` comments
   * of `cs` (the comments addressed to it, in arrival order): its weights
   * are theirs in order, its strength is their sum and its engaged users
   * are their authors.
   */
  ghost predicate Tracks(idea: Idea, cs: seq<Comment>) {
    && |idea.commentWeights| <= |cs|
    && idea.commentWeights == Weights(cs[|cs| - |idea.commentWeights|..])
    && idea.engagedUsers == Users(cs[|cs| - |idea.commentWeights|..])
    && idea.strength == Sum(idea.commentWeights)
  }

  /** The idea's tally after one more comment. */
  function Tally(idea: Idea, c: Comment): Idea {
    var weights := idea.commentWeights + [c.weight];
    idea.(commentWeights := weights,
          strength := Sum(weights),
          engagedUsers := idea.engagedUsers + {c.user})
  }

  /** Recomputing the sum after a comment adds exactly the comment's weight. */
  lemma TallyAddsWeight(idea: Idea, c: Comment)
    requires idea.strength == Sum(idea.commentWeights)
    ensures Tally(idea, c).strength == idea.strength + c.weight
  {
    SumAppend(idea.commentWeights, c.weight);
  }

  /** A user who already commented on the idea is not counted again. */
  lemma RepeatUserNotRecounted(idea: Idea, c: Comment)
    requires c.user in idea.engagedUsers
    ensures Tally(idea, c).engagedUsers == idea.engagedUsers
    ensures |Tally(idea, c).engagedUsers| == |idea.engagedUsers|
  {
  }

  /** `order` lists the keys of `ideas`, each once. */
  ghost predicate OrderMatches(order: seq<IdeaId>, ideas: map<IdeaId, Idea>) {
    NoDuplicates(order) && forall k :: k in ideas <==> k in order
  }

  /** Each idea is stored under its own id and its tally follows its comments. */
  ghost predicate IdeasTracked(ideas: map<IdeaId, Idea>, comments: seq<Comment>) {
    forall k :: k in ideas ==> ideas[k].id == k && Tracks(ideas[k], CommentsFor(comments, k))
  }

  /** Every recorded comment is on a registered idea. */
  ghost predicate CommentsKnown(comments: seq<Comment>, ideas: map<IdeaId, Idea>) {
    forall i :: 0 <= i < |comments| ==> comments[i].ideaId in ideas
  }

  lemma RegisterKeepsOrder(order: seq<IdeaId>, ideas: map<IdeaId, Idea>, id: IdeaId, idea: Idea)
    requires OrderMatches(order, ideas)
    ensures OrderMatches(if id in ideas then order else order + [id], ideas[id := idea])
  {
  }

  lemma RegisterKeepsTracked(ideas: map<IdeaId, Idea>, comments: seq<Comment>, id: IdeaId, title: string)
    requires IdeasTracked(ideas, comments)
    ensures IdeasTracked(ideas[id := NewIdea(id, title)], comments)
  {
    var cs := CommentsFor(comments, id);
    assert cs[|cs|..] == [];
  }

  lemma RegisterKeepsKnown(comments: seq<Comment>, ideas: map<IdeaId, Idea>, id: IdeaId, idea: Idea)
    requires CommentsKnown(comments, ideas)
    ensures CommentsKnown(comments, ideas[id := idea])
  {
  }

  lemma TracksAppend(idea: Idea, cs: seq<Comment>, c: Comment)
    requires Tracks(idea, cs)
    ensures Tracks(Tally(idea, c), cs + [c])
  {
    var n := |idea.commentWeights|;
    var recent := cs[|cs| - n..];
    assert (cs + [c])[|cs| + 1 - (n + 1)..] == recent + [c];
    WeightsAppend(recent, c);
    UsersAppend(recent, c);
    SumAppend(idea.commentWeights, c.weight);
  }

  lemma CommentKeepsTracked(ideas: map<IdeaId, Idea>, comments: seq<Comment>, c: Comment)
    requires IdeasTracked(ideas, comments) && c.ideaId in ideas
    ensures IdeasTracked(ideas[c.ideaId := Tally(ideas[c.ideaId], c)], comments + [c])
  {
    var ideas' := ideas[c.ideaId := Tally(ideas[c.ideaId], c)];
    forall k | k in ideas'
      ensures ideas'[k].id == k && Tracks(ideas'[k], CommentsFor(comments + [c], k))
    {
      CommentsForAppend(comments, c, k);
      if k == c.ideaId {
        assert CommentsFor(comments + [c], k) == CommentsFor(comments, k) + [c];
        TracksAppend(ideas[k], CommentsFor(comments, k), c);
      } else {
        assert CommentsFor(comments + [c], k) == CommentsFor(comments, k);
        assert ideas'[k] == ideas[k];
      }
    }
  }

  lemma CommentKeepsKnown(comments: seq<Comment>, ideas: map<IdeaId, Idea>, c: Comment, idea: Idea)
    requires CommentsKnown(comments, ideas) && c.ideaId in ideas
    ensures CommentsKnown(comments + [c], ideas[c.ideaId := idea])
  {
  }

  /** The engine's invariant over its three pieces of state. */
  ghost predicate EngineInvariant(order: seq<IdeaId>, ideas: map<IdeaId, Idea>, comments: seq<Comment>) {
    OrderMatches(order, ideas) && IdeasTracked(ideas, comments) && CommentsKnown(comments, ideas)
  }

  /** (Re)registering an idea keeps the invariant. */
  lemma RegisterPreserves(order: seq<IdeaId>, ideas: map<IdeaId, Idea>, comments: seq<Comment>,
                          id: IdeaId, title: string)
    requires EngineInvariant(order, ideas, comments)
    ensures EngineInvariant(if id in ideas then order else order + [id],
                            ideas[id := NewIdea(id, title)], comments)
  {
    RegisterKeepsOrder(order, ideas, id, NewIdea(id, title));
    RegisterKeepsTracked(ideas, comments, id, title);
    RegisterKeepsKnown(comments, ideas, id, NewIdea(id, title));
  }

  /** Recording a classified comment on a registered idea and tallying it keeps the invariant. */
  lemma CommentPreserves(order: seq<IdeaId>, ideas: map<IdeaId, Idea>, comments: seq<Comment>, c: Comment)
    requires EngineInvariant(order, ideas, comments)
    requires c.ideaId in ideas
    ensures EngineInvariant(order, ideas[c.ideaId := Tally(ideas[c.ideaId], c)], comments + [c])
    ensures Tally(ideas[c.ideaId], c).strength == ideas[c.ideaId].strength + c.weight
  {
    TallyAddsWeight(ideas[c.ideaId], c);
    CommentKeepsTracked(ideas, comments, c);
    CommentKeepsKnown(comments, ideas, c, Tally(ideas[c.ideaId], c));
    RegisterKeepsOrder(order, ideas, c.ideaId, Tally(ideas[c.ideaId], c));
  }

  /** The result record of a registered idea. */
  function ToRecord(idea: Idea, comments: seq<Comment>, threshold: int): Record {
    Record(idea.id, idea.title, idea.strength, |idea.engagedUsers|,
           |idea.engagedUsers| >= threshold, CommentsFor(comments, idea.id))
  }

  /** The records built in registration order are in increasing rank. */
  lemma BuiltInRankOrder(built: seq<Record>, order: seq<IdeaId>, ideas: map<IdeaId, Idea>,
                         comments: seq<Comment>, threshold: int)
    requires OrderMatches(order, ideas)
    requires forall k :: k in ideas ==> ideas[k].id == k
    requires |built| == |order|
    requires forall n :: 0 <= n < |order| ==> built[n] == ToRecord(ideas[order[n]], comments, threshold)
    ensures forall i, j :: 0 <= i < j < |built| ==> Rank(order, built[i].id) < Rank(order, built[j].id)
  {
    forall i, j | 0 <= i < j < |built|
      ensures Rank(order, built[i].id) < Rank(order, built[j].id)
    {
      IndexOfDistinct(order, i);
      IndexOfDistinct(order, j);
    }
  }

  /** A rearrangement of the built records holds each idea's record and nothing else. */
  lemma RearrangedRecords(results: seq<Record>, built: seq<Record>, order: seq<IdeaId>,
                          ideas: map<IdeaId, Idea>, comments: seq<Comment>, threshold: int)
    requires OrderMatches(order, ideas)
    requires forall k :: k in ideas ==> ideas[k].id == k
    requires |built| == |order|
    requires forall n :: 0 <= n < |order| ==> built[n] == ToRecord(ideas[order[n]], comments, threshold)
    requires multiset(results) == multiset(built)
    requires RankedBy(results, order)
    ensures forall i :: 0 <= i < |results| ==>
      results[i].id in ideas && results[i] == ToRecord(ideas[results[i].id], comments, threshold)
    ensures forall k :: k in ideas ==> exists i :: 0 <= i < |results| && results[i].id == k
    ensures forall i, j :: 0 <= i < j < |results| ==> results[i].id != results[j].id
  {
    forall i | 0 <= i < |results|
      ensures results[i].id in ideas && results[i] == ToRecord(ideas[results[i].id], comments, threshold)
    {
      assert results[i] in multiset(built);
      var n :| 0 <= n < |built| && built[n] == results[i];
    }
    forall k | k in ideas
      ensures exists i :: 0 <= i < |results| && results[i].id == k
    {
      var n := IndexOf(order, k);
      assert built[n] in multiset(results);
      var i :| 0 <= i < |results| && results[i] == built[n];
      assert results[i].id == k;
    }
    forall i, j | 0 <= i < j < |results|
      ensures results[i].id != results[j].id
    {
      assert Precedes(results[i], results[j], order);
    }
  }

  /**
   * `results` is the ranked result list of the engine state: one record per
   * registered idea and no other, each the record of its idea, sorted by
   * strength, highest first, with ties in registration order.
   */
  ghost predicate RankedResults(results: seq<Record>, order: seq<IdeaId>, ideas: map<IdeaId, Idea>,
                                comments: seq<Comment>, threshold: int) {
    && |results| == |order|
    && (forall k :: k in ideas <==> exists i :: 0 <= i < |results| && results[i].id == k)
    && (forall i, j :: 0 <= i < j < |results| ==> results[i].id != results[j].id)
    && (forall i :: 0 <= i < |results| ==>
          results[i].id in ideas && results[i] == ToRecord(ideas[results[i].id], comments, threshold))
    && RankedBy(results, order)
  }

  /** Sorting the records built in registration order gives the ranked result list. */
  lemma SortedRecordsRanked(built: seq<Record>, order: seq<IdeaId>, ideas: map<IdeaId, Idea>,
                            comments: seq<Comment>, threshold: int)
    requires EngineInvariant(order, ideas, comments)
    requires |built| == |order|
    requires forall n :: 0 <= n < |order| ==> built[n] == ToRecord(ideas[order[n]], comments, threshold)
    ensures RankedResults(SortDesc(built), order, ideas, comments, threshold)
  {
    BuiltInRankOrder(built, order, ideas, comments, threshold);
    SortDescRanked(built, order);
    RearrangedRecords(SortDesc(built), built, order, ideas, comments, threshold);
  }

  class BeeSwarmDecision {
    /** The keys of `ideas` in dictionary insertion order. */
    var order: seq<IdeaId>
    var ideas: map<IdeaId, Idea>
    /** Every recorded comment, in arrival order. */
    var comments: seq<Comment>
    var quorumThreshold: int

    ghost predicate Valid()
      reads this
    {
      EngineInvariant(order, ideas, comments)
    }

    /** The comments on the idea since it was last registered. */
    ghost function RecentComments(id: IdeaId): (cs: seq<Comment>)
      reads this
      requires Valid() && id in ideas
    {
      var all := CommentsFor(comments, id);
      all[|all| - |ideas[id].commentWeights|..]
    }

    /** A new, empty engine; without a threshold it uses the default quorum. */
    constructor (quorumThreshold: int := DefaultQuorum)
      ensures Valid()
      ensures order == [] && ideas == map[] && comments == []
      ensures this.quorumThreshold == quorumThreshold
    {
      order := [];
      ideas := map[];
      comments := [];
      this.quorumThreshold := quorumThreshold;
    }

    /** Replaces the engine state by one that keeps the invariant; the threshold stays. */
    method Store(newOrder: seq<IdeaId>, newIdeas: map<IdeaId, Idea>, newComments: seq<Comment>)
      requires EngineInvariant(newOrder, newIdeas, newComments)
      modifies this
      ensures Valid()
      ensures order == newOrder && ideas == newIdeas && comments == newComments
      ensures quorumThreshold == old(quorumThreshold)
    {
      order := newOrder;
      ideas := newIdeas;
      comments := newComments;
    }

    /**
     * Registers an idea, or re-registers it: its tally starts again from
     * nothing, a known id keeps its place in the order, and the comments
     * already recorded for it stay recorded.
     */
    method AddIdea(id: IdeaId, title: string)
      requires Valid()
      modifies this
      ensures Valid()
      ensures ideas == old(ideas)[id := NewIdea(id, title)]
      ensures order == if id in old(ideas) then old(order) else old(order) + [id]
      ensures comments == old(comments) && quorumThreshold == old(quorumThreshold)
    {
      RegisterPreserves(order, ideas, comments, id, title);
      Store(if id in ideas then order else order + [id], ideas[id := NewIdea(id, title)], comments);
    }

    /**
     * Records a comment on a registered idea; a comment on an unknown idea
     * is dropped and nothing changes.
     */
    method AddComment(ideaId: IdeaId, user: UserId, text: string) returns (added: Option<Comment>)
      requires Valid()
      modifies this
      ensures Valid()
      ensures order == old(order) && quorumThreshold == old(quorumThreshold)
      ensures ideaId !in old(ideas) ==>
        added == None && ideas == old(ideas) && comments == old(comments)
      ensures ideaId in old(ideas) ==>
        var cl := Classify(text);
        var c := Comment(ideaId, user, text, cl.kind, cl.weight);
        var before := old(ideas)[ideaId];
        && added == Some(c)
        && comments == old(comments) + [c]
        && ideas == old(ideas)[ideaId := Tally(before, c)]
        && ideas[ideaId].strength == before.strength + cl.weight
    {
      if ideaId !in ideas {
        added := None;
      } else {
        var classification := Classify(text);
        var comment := Comment(ideaId, user, text, classification.kind, classification.weight);

        CommentPreserves(order, ideas, comments, comment);
        Store(order, ideas[ideaId := Tally(ideas[ideaId], comment)], comments + [comment]);
        added := Some(comment);
      }
    }

    /**
     * An idea has reached quorum when the number of distinct users who
     * commented on it since its registration is at least the threshold; an
     * unknown idea never has.
     */
    function CheckQuorum(ideaId: IdeaId): (reached: bool)
      reads this
      requires Valid()
      ensures reached <==>
        ideaId in ideas && |Users(RecentComments(ideaId))| >= quorumThreshold
    {
      if ideaId !in ideas then false
      else |ideas[ideaId].engagedUsers| >= quorumThreshold
    }

    /**
     * One record per registered idea, strongest first; ideas of equal
     * strength keep their registration order.
     */
    method GetResults() returns (results: seq<Record>)
      requires Valid()
      ensures RankedResults(results, order, ideas, comments, quorumThreshold)
      ensures NonIncreasing(results)
      ensures forall i :: 0 <= i < |results| ==> results[i].quorumReached == CheckQuorum(results[i].id)
    {
      var built: seq<Record> := [];
      for n := 0 to |order|
        invariant |built| == n
        invariant forall k :: 0 <= k < n ==> built[k] == ToRecord(ideas[order[k]], comments, quorumThreshold)
      {
        built := built + [ToRecord(ideas[order[n]], comments, quorumThreshold)];
      }
      results := SortDesc(built);
      SortedRecordsRanked(built, order, ideas, comments, quorumThreshold);
      RankedIsNonIncreasing(results, order);
      forall i | 0 <= i < |results|
        ensures results[i].quorumReached == CheckQuorum(results[i].id)
      {
        assert results[i] == ToRecord(ideas[results[i].id], comments, quorumThreshold);
      }
    }
  }
}
