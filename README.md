# Bee-swarm decision engine, modelled in Dafny

The engine ranks proposed ideas by the weighted engagement they receive,
in the manner of a bee swarm. Ideas are registered under an id. A comment
on an idea is classified by keywords into one of four classes:

| class | Finnish name | weight |
|---|---|---|
| challenge | haaste | -2 |
| development | kehitys | +3 |
| combination | yhdistys | +4 |
| support | tuki | +2 |

The classified comment is recorded against its idea. Each idea keeps:

- the list of its comment weights;
- its strength, which is the sum of those weights;
- the set of users who commented on it.

An idea reaches quorum when the number of distinct commenting users is at
least the engine's threshold. The results list has one record per idea:

- id, title and strength;
- number of engaged users;
- quorum verdict;
- every recorded comment on that idea.

The list is sorted by strength, highest first. The sort is stable, so ideas
of equal strength stay in registration order.

The model has five modules:

- `Classifier` (classifier.dfy): the pure comment classifier.
  - Lowering is defined per character.
  - Substring presence is a scan. It is proved equal to "occurs at some
    position".
  - The three keyword lists are tested in priority order.
- `Model` (model.dfy): the stored entities and derived quantities.
  - The entities are the idea, the comment and the result record.
  - The derived quantities are:
    - `Sum`, Python's `sum`;
    - `CommentsFor`, the per-idea comment filter;
    - `Weights` and `Users`, the weights and the distinct authors of a list
      of comments.
- `Ranking` (ranking.dfy): the stable descending sort of the result list.
  - It is a stable insertion sort, `SortDesc`.
  - It is proved, for every input, to be a permutation that is
    non-increasing in strength.
  - Among equal strengths it keeps the registration order, and it keeps
    the input order of each strength class.
- `Swarm` (swarm.dfy): the engine itself, the class `BeeSwarmDecision`.
  - Its fields are the key order of the idea dictionary, the dictionary as
    a map, the list of all comments and the quorum threshold.
  - Every method keeps the invariant `Valid()`. Each stored idea is filed
    under its own id. Its tally is that of the comments on it since its last
    registration:
    - the weights are theirs, in order;
    - the strength is their sum;
    - the engaged users are their authors.
- `Process` (process.dfy): the request driver.
  - It builds an engine with the requested (or default) quorum.
  - It registers every idea, then records every comment, then returns the
    ranked results.
  - Its contract describes each result record in terms of the request
    alone.

Python's dictionary keeps insertion order, and assigning to an existing key
does not move it. So the map is paired with a sequence of keys that a
re-registration leaves unchanged.

## Model

| member | source | states |
|---|---|---|
| Classifier.Classify | app.py:26-46 | the result is one of the four classes with that class's weight (-2, 3, 4, 2) |
| Classifier.ClassifyPriority | app.py:28-46 | challenge iff a challenge word occurs in the lowered text; development iff a develop word occurs and no challenge word; combination iff a combine word occurs and neither earlier list does; support iff no listed word occurs |
| Classifier.CommentType.Name | app.py:33-46 | the four class names the engine reports: haaste, kehitys, yhdistys, tuki; Classify returns them through the class |
| Classifier.CommentType.Weight | app.py:33-46 | the weight of each class: -2, 3, 4 and 2; Classify's ensures ties every verdict's weight to its class |
| Classifier.ClassifyIgnoresCase | app.py:28 | classifying the lowered text gives the same verdict as classifying the text |
| Classifier.LowerChar | app.py:28 | an upper-case Latin letter moves to its lower-case partner (code point + 32); any other character is unchanged; the result is never upper case |
| Classifier.ToLower | app.py:28 | lowering keeps the length of the text |
| Classifier.ToLowerIdempotent | app.py:28 | lowering twice is lowering once |
| Classifier.ContainsIffOccurs | app.py:32 | the left-to-right scan finds `word` exactly when `word` occurs at some position of the text (Python's `word in text`) |
| Classifier.Contains | app.py:32 | the substring test `word in text`; ContainsIffOccurs proves it true exactly when the word occurs at some position |
| Classifier.AnyContains | app.py:31-43 | some word of a keyword list is in the text; AnyContainsIffMentions proves it true exactly when some listed word occurs |
| Classifier.AnyContainsIffMentions | app.py:31-43 | the any-word test over a keyword list holds exactly when some word of the list occurs in the text |
| Model.SumConcat | app.py:68 | the sum of a concatenation is the sum of the parts |
| Model.Sum | app.py:68 | the sum of the weights; SumConcat, SumAppend and SumPermutation state how it behaves |
| Model.SumAppend | app.py:67-68 | appending a weight adds exactly that weight to the sum |
| Model.SumRemove | app.py:68 | taking the weight at one position out of the list takes exactly that weight off the sum |
| Model.SumPermutation | app.py:68 | two weight lists that are permutations of each other have the same sum: the strength does not depend on the order in which comments arrive |
| Model.Weights | app.py:67 | the weights of a list of comments, in order; WeightsAppend shows one more comment appends its weight |
| Model.Users | app.py:69 | the set of authors of a list of comments; UsersMember proves a user is in it exactly when some comment is theirs |
| Model.CommentsFor | app.py:92 | the filtered list is no longer than the comment list |
| Model.CommentsForMember | app.py:92 | a comment is kept exactly when it is in the list and is on the given idea |
| Model.CommentsForAppend | app.py:92 | after a comment is appended, the filter for an idea gains that comment at the end exactly when it is on that idea, and is otherwise unchanged |
| Model.UsersMember | app.py:69 | a user is engaged exactly when some comment in the list is by that user |
| Model.UsersAppend | app.py:69 | one more comment adds its author to the set of engaged users |
| Model.UsersAtMostComments | app.py:69 | the number of engaged users is at most the number of comments |
| Ranking.Insert | app.py:96 | inserting a record gives a permutation of the record plus the list, one longer |
| Ranking.SortDesc | app.py:96 | the sorted list is a permutation of the input (same multiset, same length) |
| Ranking.IndexOf | app.py:85 | the index is that of the key's first occurrence |
| Ranking.SortDescRanked | app.py:85-96 | a list built in increasing key order sorts to a list that is ordered by strength, highest first, with equal strengths in key order |
| Ranking.RankedIsNonIncreasing | app.py:96 | a ranked list is non-increasing in strength |
| Ranking.InsertNonIncreasing | app.py:96 | inserting a record into a non-increasing list keeps it non-increasing in strength |
| Ranking.SortDescNonIncreasing | app.py:96 | for every input, the sorted list is non-increasing in strength |
| Ranking.InsertStable | app.py:96 | insertion keeps the relative order of the records of each strength |
| Ranking.SortDescStable | app.py:96 | the sort is stable: for every strength, the records of that strength appear in the same order as in the input |
| Swarm.TallyAddsWeight | app.py:66-68 | recomputing the strength as the sum of the extended weight list adds exactly the new comment's weight |
| Swarm.NewIdea | app.py:18-24 | the entry a registration stores: the given id and title, strength 0, no engaged users and no weights; AddIdea's ensures stores it at the id |
| Swarm.Tally | app.py:66-69 | one comment's update of an idea: its weight appended, its strength recomputed as the sum, its author added; TallyAddsWeight, TracksAppend and RepeatUserNotRecounted state its effect |
| Swarm.ToRecord | app.py:86-93 | the result record of an idea: id, title, strength, engaged count, the quorum verdict on that count, and every recorded comment on the idea; GetResults' ensures makes every result record the ToRecord of its idea |
| Swarm.RepeatUserNotRecounted | app.py:69 | a comment by an already engaged user leaves the engaged set and its size unchanged |
| Swarm.RegisterPreserves | app.py:16-24 | (re)registering an idea keeps the engine invariant: a known key keeps its place and a new key goes last |
| Swarm.CommentPreserves | app.py:53-69 | recording and tallying a comment on a registered idea keeps the engine invariant, and the idea's strength grows by the comment's weight |
| Swarm.TracksAppend | app.py:63-69 | tallying a comment extends the idea's record of its recent comments by that comment |
| Swarm.SortedRecordsRanked | app.py:83-97 | sorting the records built in key order gives the ranked result list: exactly one record per registered idea, in rank order |
| Swarm.RearrangedRecords | app.py:85-96 | every permutation of the built records holds each idea's record once and nothing else |
| Swarm.BeeSwarmDecision.constructor | app.py:11-14 | a new engine has no ideas and no comments; it takes the given threshold as it is, and a new engine without a threshold gets 3 |
| Swarm.BeeSwarmDecision.AddIdea | app.py:16-24 | the idea at `id` becomes a fresh entry (strength 0, no users, no weights); other ideas, the comments and the threshold are untouched; a known key keeps its place and a new key goes last |
| Swarm.BeeSwarmDecision.AddComment | app.py:48-71 | on an unknown idea: returns None and changes nothing. Otherwise it appends one comment (idea id, user, text, classifier's type and weight) and returns it. The idea's weights gain that weight at the end, its strength becomes their sum, which is the old strength plus the weight, and the user joins its engaged set. Other ideas, the order and the threshold are unchanged |
| Swarm.BeeSwarmDecision.CheckQuorum | app.py:73-79 | false for an unknown idea; otherwise true iff the number of distinct users who commented on the idea since its registration is at least the threshold |
| Swarm.BeeSwarmDecision.GetResults | app.py:81-98 | one record per registered idea, each once; each record has the idea's id, title and strength, its engaged count, the quorum verdict (which agrees with CheckQuorum) and every recorded comment on the idea, in arrival order; the list is non-increasing in strength, and equal strengths keep the dictionary's insertion order |
| Process.FirstSeenIds | app.py:121-122 | the key order left by the registrations holds each registered id exactly once |
| Process.FirstSeen | app.py:121-122 | the key order the registrations leave: ids in order of first registration; FirstSeenIds proves it holds each registered id exactly once |
| Process.LastTitle | app.py:121-122 | the title the dictionary keeps for an id; LastTitleIsLast proves it is the last registration's |
| Process.Recorded | app.py:53-61 | the comment record of a request comment: its idea id, user and text with the classifier's type and weight |
| Process.Admit | app.py:125-130 | the comments the engine records from the request: the classified ones on registered ideas, in order; AdmitMember proves membership both ways |
| Process.Threshold | app.py:117-118 | the requested quorum, or 3 when the request names none |
| Process.LastTitleIsLast | app.py:121-122 | the title kept for an id is that of its last registration in the request |
| Process.AdmitMember | app.py:125-130 | the recorded comments are exactly the classified request comments on registered ideas |
| Process.RegisterAll | app.py:121-122 | after the registration loop the key order is the order of first registration (FirstSeen), no comment is recorded yet, every stored idea carries the title of the last registration with its id and has no tallied comments, and the threshold is unchanged |
| Process.RecordAll | app.py:125-130 | after the comment loop the key order and threshold are unchanged, the recorded comments are the admitted ones (classified, on registered ideas) in arrival order, every title is still the last registration's, and every idea has tallied all recorded comments on it |
| Process.FullyTracked | app.py:66-69 | a tally that covers all comments on an idea has their weight sum as strength and their authors as engaged users |
| Process.DriverResults | app.py:117-133 | after the driver runs, each result record carries the title of its idea's last registration, the admitted comments on it, a strength that is their weight sum, an engaged count that is their number of distinct authors, and the quorum verdict on that count |
| Process.Process | app.py:117-133 | one record per distinct idea id of the request, ranked by strength with ties in order of first registration. Each record is determined by the request alone: its last title, its admitted comments, their weight sum, their distinct-author count, and the quorum (default 3) applied to that count |

## Left out

- HTTP transport is left out as outside the engine: Flask, CORS, the `/`, `/api/process` and `/health` routes, JSON parsing and serialisation, and reading the port and starting the server (app.py:1-6, 100-153).
- The `try/except` that turns a malformed request into a 400 response is left out, as is the `KeyError` of a missing field. The driver takes its inputs already split into typed idea and comment records; only the missing `quorum` key is modelled, by `Option` with default 3.
- Classifier.LowerChar: Python's `str.lower()` covers all of Unicode, including multi-character lowerings. The model lowers only A–Z and the Latin-1 Supplement capitals À–Þ (except ×), which include the Finnish Å, Ä and Ö. Every other character passes through unchanged.
- Idea ids and user ids are strings; the source accepts any hashable JSON value.
- Integers are unbounded, as Python's are.
- Ranking.SortDesc: Python's Timsort is modelled by a stable insertion sort. Only its result is specified, and the model proves it for every input: a permutation (SortDesc), non-increasing in strength (SortDescNonIncreasing), and stable within each strength (SortDescStable). The algorithm's steps are not modelled.
- The quorum threshold is not validated, because the code does none: any integer is accepted, including zero and negative values.
- Engaged users are those who commented on the idea since its last registration, not every author of a comment that carries its id. The code resets the set on re-registration and keeps the old comments in the list (app.py:18-24, app.py:92), and the model follows the code.
- `CheckQuorum` is modelled as a function that reads the engine state, because `check_quorum` changes nothing.
- The process driver discards `add_comment`'s return value, as the source does.
