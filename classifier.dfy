/**
 * The comment classifier of the bee-swarm decision engine: a comment is
 * lowered and then tested, by substring presence, against three fixed
 * keyword lists in a fixed priority order; a comment that mentions none of
 * them is plain support.
 */
module Classifier {

  /** The four comment classes, named as the engine reports them. */
  datatype CommentType = Haaste | Kehitys | Yhdistys | Tuki {

    /** The class name as it appears in a result record. */
    function Name(): string {
      match this
      case Haaste => "haaste"
      case Kehitys => "kehitys"
      case Yhdistys => "yhdistys"
      case Tuki => "tuki"
    }

    /** The weight a comment of this class adds to its idea's strength. */
    function Weight(): int {
      match this
      case Haaste => -2
      case Kehitys => 3
      case Yhdistys => 4
      case Tuki => 2
    }
  }

  datatype Classification = Classification(kind: CommentType, weight: int)

  /** Phrases of inability or of a problem: a challenge. */
  const ChallengeWords: seq<string> := ["en voi", "ei toimi", "ei sovi", "allergia", "ongelma", "ei pysty"]

  /** Phrases of suggestion or question: a development. */
  const DevelopWords: seq<string> := ["voisiko", "entä jos", "kysyä", "ehkä", "voisi"]

  /** Phrases of merging or conjunction: a combination. */
  const CombineWords: seq<string> := ["yhdistetään", "plus", "ja", "samalla"]

  // ---------------------------------------------------------------------
  // Lowering

  /** An upper-case letter of Basic Latin or of the Latin-1 Supplement. */
  predicate IsUpper(c: char) {
    ('A' <= c <= 'Z') || ('À' <= c <= 'Þ' && c != '×')
  }

  /**
   * Lower-cases the letters of Basic Latin and of the Latin-1 Supplement
   * (which holds the Finnish letters Å, Ä and Ö); every other character is
   * left as it is.
   */
  function LowerChar(c: char): (l: char)
    ensures IsUpper(c) ==> l as int == c as int + 32
    ensures !IsUpper(c) ==> l == c
    ensures !IsUpper(l)
  {
    if IsUpper(c) then (c as int + 32) as char else c
  }

  function ToLower(s: string): (l: string)
    ensures |l| == |s|
  {
    seq(|s|, i requires 0 <= i < |s| => LowerChar(s[i]))
  }

  lemma ToLowerIdempotent(s: string)
    ensures ToLower(ToLower(s)) == ToLower(s)
  {
    var l := ToLower(s);
    forall i | 0 <= i < |s|
      ensures ToLower(l)[i] == l[i]
    {
      assert !IsUpper(l[i]);
    }
  }

  // ---------------------------------------------------------------------
  // Substring presence

  /** `word` occurs in `text` at position `i`. */
  ghost predicate OccursAt(text: string, word: string, i: int) {
    0 <= i && i + |word| <= |text| && text[i..i + |word|] == word
  }

  /** `word in text`, as a string test: `word` occurs somewhere in `text`. */
  ghost predicate Occurs(text: string, word: string) {
    exists i :: OccursAt(text, word, i)
  }

  /** Some word of `words` occurs in `text`. */
  ghost predicate Mentions(text: string, words: seq<string>) {
    exists k :: 0 <= k < |words| && Occurs(text, words[k])
  }

  function StartsWith(text: string, word: string): bool {
    |word| <= |text| && text[..|word|] == word
  }

  /** Substring test by scanning every start position from the left. */
  function Contains(text: string, word: string): bool {
    StartsWith(text, word) || (|text| > 0 && Contains(text[1..], word))
  }

  lemma {:induction false} ContainsIffOccurs(text: string, word: string)
    ensures Contains(text, word) <==> Occurs(text, word)
  {
    if StartsWith(text, word) {
      assert OccursAt(text, word, 0);
    } else if |text| > 0 {
      ContainsIffOccurs(text[1..], word);
      if Contains(text[1..], word) {
        var i :| OccursAt(text[1..], word, i);
        OccursAtTail(text, word, i);
      }
      if Occurs(text, word) {
        var i :| OccursAt(text, word, i);
        assert i != 0;
        OccursAtTail(text, word, i - 1);
      }
    }
  }

  /** An occurrence in the tail of the text is an occurrence one position later in the text. */
  lemma OccursAtTail(text: string, word: string, i: int)
    requires |text| > 0 && 0 <= i
    ensures OccursAt(text[1..], word, i) <==> OccursAt(text, word, i + 1)
  {
    if i + |word| <= |text| - 1 {
      assert text[1..][i..i + |word|] == text[i + 1..i + 1 + |word|];
    }
  }

  /** Some word of the list is found in the text, trying the words in list order. */
  function AnyContains(text: string, words: seq<string>): bool {
    |words| > 0 && (Contains(text, words[0]) || AnyContains(text, words[1..]))
  }

  lemma {:induction false} AnyContainsIffMentions(text: string, words: seq<string>)
    ensures AnyContains(text, words) <==> Mentions(text, words)
  {
    if |words| > 0 {
      ContainsIffOccurs(text, words[0]);
      AnyContainsIffMentions(text, words[1..]);
      if Mentions(text, words[1..]) {
        var k :| 0 <= k < |words| - 1 && Occurs(text, words[1..][k]);
        assert Occurs(text, words[k + 1]);
      }
      if Mentions(text, words) && !Occurs(text, words[0]) {
        var k :| 0 <= k < |words| && Occurs(text, words[k]);
        assert k != 0 && Occurs(text, words[1..][k - 1]);
      }
    }
  }

  // ---------------------------------------------------------------------
  // Classification

  /**
   * Classifies a comment: the first of the challenge, develop and combine
   * lists with a word present in the lowered text decides; otherwise the
   * comment is support.
   */
  function Classify(text: string): (r: Classification)
    ensures r.weight == r.kind.Weight()
  {
    var lowered := ToLower(text);
    if AnyContains(lowered, ChallengeWords) then Classification(Haaste, Haaste.Weight())
    else if AnyContains(lowered, DevelopWords) then Classification(Kehitys, Kehitys.Weight())
    else if AnyContains(lowered, CombineWords) then Classification(Yhdistys, Yhdistys.Weight())
    else Classification(Tuki, Tuki.Weight())
  }

  /**
   * The classes in priority order: a challenge word anywhere makes a
   * challenge, whatever else the text holds; a develop word makes a
   * development unless a challenge word is present; a combine word makes a
   * combination unless a word of an earlier list is present; and support is
   * exactly the case of no listed word at all. Whether a word is present is
   * all that matters, not where it stands in the text.
   */
  lemma ClassifyPriority(text: string)
    ensures var r := Classify(text);
      var lowered := ToLower(text);
      && (r.kind == Haaste <==> Mentions(lowered, ChallengeWords))
      && (r.kind == Kehitys <==>
            !Mentions(lowered, ChallengeWords) && Mentions(lowered, DevelopWords))
      && (r.kind == Yhdistys <==>
            !Mentions(lowered, ChallengeWords) && !Mentions(lowered, DevelopWords)
            && Mentions(lowered, CombineWords))
      && (r.kind == Tuki <==>
            !Mentions(lowered, ChallengeWords) && !Mentions(lowered, DevelopWords)
            && !Mentions(lowered, CombineWords))
  {
    var lowered := ToLower(text);
    AnyContainsIffMentions(lowered, ChallengeWords);
    AnyContainsIffMentions(lowered, DevelopWords);
    AnyContainsIffMentions(lowered, CombineWords);
  }

  /** Classification is insensitive to case: lowering first changes nothing. */
  lemma ClassifyIgnoresCase(text: string)
    ensures Classify(ToLower(text)) == Classify(text)
  {
    ToLowerIdempotent(text);
  }
}
