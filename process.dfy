/**
 * The request driver: a fresh engine is built with the requested quorum,
 * every idea of the request is registered in turn, then every comment is
 * recorded in turn, and the ranked results are returned.
 */
module Process {
  import opened Classifier
  import opened Model
  import opened Ranking
  import opened Swarm

  /** An idea of the request: its id and its title. */
  datatype IdeaInput = IdeaInput(id: IdeaId, title: string)

  /** A comment of the request: the idea it is on, its author and its text. */
  datatype CommentInput = CommentInput(ideaId: IdeaId, user: UserId, text: string)

  /** The ids of `ideas` in order of first appearance: the engine's key order. */
  function FirstSeen(ideas: seq<IdeaInput>): seq<IdeaId> {
    if ideas == [] then []
    else
      var init := FirstSeen(ideas[..|ideas| - 1]);
      var id := ideas[|ideas| - 1].id;
      if id in init then init else init + [id]
  }

  /** An id is in the key order exactly when some idea of the request carries it, and only once. */
  lemma {:induction false} FirstSeenIds(ideas: seq<IdeaInput>)
    ensures NoDuplicates(FirstSeen(ideas))
    ensures forall k :: k in FirstSeen(ideas) <==> exists i :: 0 <= i < |ideas| && ideas[i].id == k
  {
    if ideas != [] {
      var init := ideas[..|ideas| - 1];
      FirstSeenIds(init);
      forall k | k in FirstSeen(ideas)
        ensures exists i :: 0 <= i < |ideas| && ideas[i].id == k
      {
        if k in FirstSeen(init) {
          var i :| 0 <= i < |init| && init[i].id == k;
          assert ideas[i].id == k;
        } else {
          assert ideas[|ideas| - 1].id == k;
        }
      }
      forall k | exists i :: 0 <= i < |ideas| && ideas[i].id == k
        ensures k in FirstSeen(ideas)
      {
        var i :| 0 <= i < |ideas| && ideas[i].id == k;
        if i < |init| {
          assert init[i].id == k;
        }
      }
    }
  }

  /** The title of the last idea of the request with id `id`: later registrations overwrite earlier ones. */
  function LastTitle(ideas: seq<IdeaInput>, id: IdeaId): string
    requires id in FirstSeen(ideas)
  {
    var last := ideas[|ideas| - 1];
    if last.id == id then last.title else LastTitle(ideas[..|ideas| - 1], id)
  }

  /** The title is that of an idea of the request with that id, and no later idea has that id. */
  lemma {:induction false} LastTitleIsLast(ideas: seq<IdeaInput>, id: IdeaId)
    requires id in FirstSeen(ideas)
    ensures exists i :: 0 <= i < |ideas| && ideas[i] == IdeaInput(id, LastTitle(ideas, id))
                        && (forall j :: i < j < |ideas| ==> ideas[j].id != id)
  {
    var n := |ideas| - 1;
    if ideas[n].id != id {
      var init := ideas[..n];
      LastTitleIsLast(init, id);
      var i :| 0 <= i < |init| && init[i] == IdeaInput(id, LastTitle(init, id))
               && (forall j :: i < j < |init| ==> init[j].id != id);
      assert ideas[i] == init[i];
      forall j | i < j < |ideas|
        ensures ideas[j].id != id
      {
        if j < n {
          assert ideas[j] == init[j];
        }
      }
    }
  }

  /** The comment the engine records for an input on a registered idea. */
  function Recorded(c: CommentInput): Comment {
    var cl := Classify(c.text);
    Comment(c.ideaId, c.user, c.text, cl.kind, cl.weight)
  }

  /** The comments the engine keeps: those on a registered idea, in arrival order. */
  function Admit(registered: seq<IdeaId>, cs: seq<CommentInput>): (r: seq<Comment>)
    ensures |r| <= |cs|
  {
    if cs == [] then []
    else
      var c := cs[|cs| - 1];
      Admit(registered, cs[..|cs| - 1]) + (if c.ideaId in registered then [Recorded(c)] else [])
  }

  /** Every admitted comment is the record of an input on a registered idea. */
  lemma {:induction false} AdmitMember(registered: seq<IdeaId>, cs: seq<CommentInput>, r: Comment)
    ensures r in Admit(registered, cs) <==>
      exists i :: 0 <= i < |cs| && cs[i].ideaId in registered && r == Recorded(cs[i])
  {
    if cs != [] {
      var init := cs[..|cs| - 1];
      AdmitMember(registered, init, r);
      if exists i :: 0 <= i < |init| && init[i].ideaId in registered && r == Recorded(init[i]) {
        var i :| 0 <= i < |init| && init[i].ideaId in registered && r == Recorded(init[i]);
        assert cs[i] == init[i];
      }
      if exists i :: 0 <= i < |cs| && cs[i].ideaId in registered && r == Recorded(cs[i]) {
        var i :| 0 <= i < |cs| && cs[i].ideaId in registered && r == Recorded(cs[i]);
        if i < |init| {
          assert cs[i] == init[i];
        }
      }
    }
  }

  /** The effective threshold: the requested quorum, or the default. */
  function Threshold(quorum: Option<int>): int {
    match quorum
    case Some(q) => q
    case None => DefaultQuorum
  }

  /** Every stored idea carries the title of its last registration in the request. */
  ghost predicate TitledBy(store: map<IdeaId, Idea>, inIdeas: seq<IdeaInput>) {
    forall k :: k in store ==> k in FirstSeen(inIdeas) && store[k].title == LastTitle(inIdeas, k)
  }

  /** Every stored idea has tallied every recorded comment on it. */
  ghost predicate FullyCounted(store: map<IdeaId, Idea>, comments: seq<Comment>) {
    forall k :: k in store ==> |store[k].commentWeights| == |CommentsFor(comments, k)|
  }

  lemma RegisterStep(store: map<IdeaId, Idea>, inIdeas: seq<IdeaInput>, x: IdeaInput)
    requires TitledBy(store, inIdeas) && FullyCounted(store, [])
    ensures TitledBy(store[x.id := NewIdea(x.id, x.title)], inIdeas + [x])
    ensures FullyCounted(store[x.id := NewIdea(x.id, x.title)], [])
  {
    assert (inIdeas + [x])[..|inIdeas|] == inIdeas;
  }

  lemma CommentStep(store: map<IdeaId, Idea>, comments: seq<Comment>, c: Comment, inIdeas: seq<IdeaInput>)
    requires TitledBy(store, inIdeas) && FullyCounted(store, comments)
    requires c.ideaId in store
    ensures TitledBy(store[c.ideaId := Tally(store[c.ideaId], c)], inIdeas)
    ensures FullyCounted(store[c.ideaId := Tally(store[c.ideaId], c)], comments + [c])
  {
    forall k | k in store
      ensures CommentsFor(comments + [c], k) == CommentsFor(comments, k) + (if c.ideaId == k then [c] else [])
    {
      CommentsForAppend(comments, c, k);
    }
  }

  /** An idea's tally that covers all of its comments is the tally of all of them. */
  lemma FullyTracked(idea: Idea, cs: seq<Comment>)
    requires Tracks(idea, cs) && |idea.commentWeights| == |cs|
    ensures idea.strength == Sum(Weights(cs))
    ensures idea.engagedUsers == Users(cs)
  {
    assert cs[0..] == cs;
  }

  /**
   * What the engine state left by the driver says about each result record:
   * the title of its last registration, the admitted comments on it, a
   * strength that is their weights' sum, an engaged count that is their
   * number of distinct authors, and the quorum verdict on that count.
   */
  lemma DriverResults(results: seq<Record>, order: seq<IdeaId>, ideas: map<IdeaId, Idea>,
                      comments: seq<Comment>, threshold: int,
                      inIdeas: seq<IdeaInput>, inComments: seq<CommentInput>)
    requires EngineInvariant(order, ideas, comments)
    requires RankedResults(results, order, ideas, comments, threshold)
    requires order == FirstSeen(inIdeas)
    requires comments == Admit(order, inComments)
    requires TitledBy(ideas, inIdeas) && FullyCounted(ideas, comments)
    ensures forall i :: 0 <= i < |results| ==>
      var r := results[i];
      && r.id in FirstSeen(inIdeas)
      && r.title == LastTitle(inIdeas, r.id)
      && r.comments == CommentsFor(Admit(FirstSeen(inIdeas), inComments), r.id)
      && r.strength == Sum(Weights(r.comments))
      && r.engagedCount == |Users(r.comments)|
      && r.quorumReached == (r.engagedCount >= threshold)
  {
    forall i | 0 <= i < |results|
      ensures var r := results[i];
        && r.id in FirstSeen(inIdeas)
        && r.title == LastTitle(inIdeas, r.id)
        && r.comments == CommentsFor(Admit(FirstSeen(inIdeas), inComments), r.id)
        && r.strength == Sum(Weights(r.comments))
        && r.engagedCount == |Users(r.comments)|
        && r.quorumReached == (r.engagedCount >= threshold)
    {
      var k := results[i].id;
      assert results[i] == ToRecord(ideas[k], comments, threshold);
      FullyTracked(ideas[k], CommentsFor(comments, k));
    }
  }

  /** Registers the ideas of the request, in order, on a fresh engine. */
  method RegisterAll(swarm: BeeSwarmDecision, ideas: seq<IdeaInput>)
    requires swarm.Valid() && swarm.order == [] && swarm.ideas == map[] && swarm.comments == []
    modifies swarm
    ensures swarm.Valid() && swarm.quorumThreshold == old(swarm.quorumThreshold)
    ensures swarm.order == FirstSeen(ideas) && swarm.comments == []
    ensures TitledBy(swarm.ideas, ideas) && FullyCounted(swarm.ideas, [])
  {
    for n := 0 to |ideas|
      invariant swarm.Valid() && swarm.quorumThreshold == old(swarm.quorumThreshold)
      invariant swarm.order == FirstSeen(ideas[..n])
      invariant swarm.comments == []
      invariant TitledBy(swarm.ideas, ideas[..n]) && FullyCounted(swarm.ideas, [])
    {
      assert ideas[..n + 1] == ideas[..n] + [ideas[n]];
      RegisterStep(swarm.ideas, ideas[..n], ideas[n]);
      swarm.AddIdea(ideas[n].id, ideas[n].title);
    }
    assert ideas[..|ideas|] == ideas;
  }

  /** Records the comments of the request, in order, after the ideas are registered. */
  method RecordAll(swarm: BeeSwarmDecision, ideas: seq<IdeaInput>, comments: seq<CommentInput>)
    requires swarm.Valid() && swarm.comments == []
    requires TitledBy(swarm.ideas, ideas) && FullyCounted(swarm.ideas, [])
    modifies swarm
    ensures swarm.Valid() && swarm.quorumThreshold == old(swarm.quorumThreshold)
    ensures swarm.order == old(swarm.order) && swarm.comments == Admit(swarm.order, comments)
    ensures TitledBy(swarm.ideas, ideas) && FullyCounted(swarm.ideas, swarm.comments)
  {
    for n := 0 to |comments|
      invariant swarm.Valid() && swarm.quorumThreshold == old(swarm.quorumThreshold)
      invariant swarm.order == old(swarm.order)
      invariant swarm.comments == Admit(swarm.order, comments[..n])
      invariant TitledBy(swarm.ideas, ideas) && FullyCounted(swarm.ideas, swarm.comments)
    {
      assert comments[..n + 1][..n] == comments[..n];
      if comments[n].ideaId in swarm.ideas {
        CommentStep(swarm.ideas, swarm.comments, Recorded(comments[n]), ideas);
      }
      var added := swarm.AddComment(comments[n].ideaId, comments[n].user, comments[n].text);
    }
    assert comments[..|comments|] == comments;
  }

  /**
   * Handles one decision request: the quorum (default 3), the ideas and the
   * comments. The result has one record per distinct idea id, ranked by
   * strength with ties in order of first registration, and each record
   * reflects every admitted comment on its idea.
   */
  method Process(quorum: Option<int>, ideas: seq<IdeaInput>, comments: seq<CommentInput>)
    returns (results: seq<Record>)
    ensures |results| == |FirstSeen(ideas)|
    ensures forall k :: k in FirstSeen(ideas) <==> exists i :: 0 <= i < |results| && results[i].id == k
    ensures forall i, j :: 0 <= i < j < |results| ==> results[i].id != results[j].id
    ensures RankedBy(results, FirstSeen(ideas))
    ensures forall i :: 0 <= i < |results| ==>
      var r := results[i];
      && r.id in FirstSeen(ideas)
      && r.title == LastTitle(ideas, r.id)
      && r.comments == CommentsFor(Admit(FirstSeen(ideas), comments), r.id)
      && r.strength == Sum(Weights(r.comments))
      && r.engagedCount == |Users(r.comments)|
      && r.quorumReached == (r.engagedCount >= Threshold(quorum))
  {
    var swarm := new BeeSwarmDecision(Threshold(quorum));
    RegisterAll(swarm, ideas);
    RecordAll(swarm, ideas, comments);
    results := swarm.GetResults();
    DriverResults(results, swarm.order, swarm.ideas, swarm.comments, swarm.quorumThreshold, ideas, comments);
  }
}
