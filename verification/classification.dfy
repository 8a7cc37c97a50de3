/** The classification step of the `process` command: one text in, one winning
    label and score out. The zero-shot classifier itself is a parameter. */
module Classification {
  import opened Wrappers
  import opened Text
  import opened Taxonomy

  /** What the classifier returns: labels ranked best first, with their scores. */
  datatype Ranking = Ranking(labels: seq<string>, scores: seq<real>)

  /** The `winner_tag` / `winner_score` pair. */
  datatype Winner = Winner(tag: string, score: real)

  /** Reading the top entry of an empty ranking raises an IndexError. */
  datatype ClassifyError = IndexError

  /** The classifier is any function from a text and a candidate list to a ranking. */
  type Classifier = (string, seq<string>) -> Ranking

  /** `candidate_tags + [NONE_TAG]`: the candidates in their order, then the sentinel once more. */
  function CandidateLabels(candidates: seq<string>): (full: seq<string>)
    ensures |full| == |candidates| + 1
    ensures full[..|candidates|] == candidates && full[|candidates|] == NoneTag
    ensures multiset(full)[NoneTag] == multiset(candidates)[NoneTag] + 1
    ensures forall t :: t != NoneTag ==> multiset(full)[t] == multiset(candidates)[t]
  {
    candidates + [NoneTag]
  }

  /** `run_classification`: blank text (after stripping) is the sentinel with full
      confidence and the classifier is not asked; otherwise the classifier gets the
      stripped text and the extended candidate list, and its top label and score win. */
  function RunClassification(text: string, candidates: seq<string>, classify: Classifier)
    : (r: Result<Winner, ClassifyError>)
    ensures IsBlank(text) ==> r == Success(Winner(NoneTag, 1.0))
    ensures !IsBlank(text) ==>
      var ranking := classify(Strip(text), CandidateLabels(candidates));
      if |ranking.labels| > 0 && |ranking.scores| > 0
      then r == Success(Winner(ranking.labels[0], ranking.scores[0]))
      else r == Failure(IndexError)
  {
    var t := Strip(text);
    StripEmptyIffBlank(text);
    if t == [] then Success(Winner(NoneTag, 1.0))
    else
      var ranking := classify(t, CandidateLabels(candidates));
      if |ranking.labels| == 0 || |ranking.scores| == 0 then Failure(IndexError)
      else Success(Winner(ranking.labels[0], ranking.scores[0]))
  }

  /** On blank text the classifier is not consulted: any two classifiers give the same result. */
  lemma BlankTextIgnoresClassifier(text: string, candidates: seq<string>, c1: Classifier, c2: Classifier)
    requires IsBlank(text)
    ensures RunClassification(text, candidates, c1) == RunClassification(text, candidates, c2)
    ensures RunClassification(text, candidates, c1).Success?
  {
  }

  /** Surrounding whitespace does not change what the classifier sees or what it decides. */
  lemma {:induction false} PaddingIrrelevant(text: string, candidates: seq<string>, classify: Classifier)
    ensures RunClassification(Strip(text), candidates, classify) == RunClassification(text, candidates, classify)
  {
    StripIdempotent(text);
    StripEmptyIffBlank(text);
    StripEmptyIffBlank(Strip(text));
  }
}
