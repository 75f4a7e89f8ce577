/** The scoring selector at the end of `read_generic_output`: one score per
    taxon from its accumulated lists, under the chosen policy. */
module Scores {
  import opened Wrappers
  import opened ReadErrors
  import opened KrakenLine
  import opened Accumulation

  /** The scoring policies the reader supports. */
  datatype Scoring = SHEL | KRAKEN | LENGTH | LOGLENGTH | NORMA

  function SumReal(xs: seq<real>): real
  {
    if |xs| == 0 then 0.0 else SumReal(xs[..|xs| - 1]) + xs[|xs| - 1]
  }

  /** `statistics.mean`. */
  function Mean(xs: seq<real>): real
    requires |xs| > 0
  {
    SumReal(xs) / |xs| as real
  }

  function AsReals(xs: seq<int>): (r: seq<real>)
    ensures |r| == |xs| && forall i :: 0 <= i < |xs| ==> r[i] == xs[i] as real
  {
    seq(|xs|, i requires 0 <= i < |xs| => xs[i] as real)
  }

  lemma {:induction false} SumBetween(xs: seq<real>, lo: real, hi: real)
    requires forall i :: 0 <= i < |xs| ==> lo <= xs[i] <= hi
    ensures |xs| as real * lo <= SumReal(xs) <= |xs| as real * hi
    decreases |xs|
  {
    if |xs| > 0 {
      SumBetween(xs[..|xs| - 1], lo, hi);
      var n := (|xs| - 1) as real;
      assert |xs| as real * lo == n * lo + lo && |xs| as real * hi == n * hi + hi;
    }
  }

  /** A mean lies between any bounds of its values. */
  lemma MeanBetween(xs: seq<real>, lo: real, hi: real)
    requires |xs| > 0
    requires forall i :: 0 <= i < |xs| ==> lo <= xs[i] <= hi
    ensures lo <= Mean(xs) <= hi
  {
    SumBetween(xs, lo, hi);
    var n := |xs| as real;
    assert Mean(xs) * n == SumReal(xs);
  }

  /** The score of one taxon from its lists of shel values, relative
      scores and lengths. LOGLENGTH takes `log10` as a parameter and fails
      where Python's raises (a mean that is not positive); NORMA fails where
      the division by the mean length does. */
  function PolicyScore(shels: seq<real>, rels: seq<real>, lengths: seq<int>,
                       scoring: Scoring, log10: real -> real, t: string): Result<real, ReadError>
    requires |shels| > 0 && |rels| > 0 && |lengths| > 0
  {
    match scoring
    case SHEL => Success(Mean(shels))
    case KRAKEN => Success(Mean(rels))
    case LENGTH => Success(Mean(AsReals(lengths)))
    case LOGLENGTH =>
      var m := Mean(AsReals(lengths));
      if m <= 0.0 then Failure(LogDomain(t)) else Success(log10(m))
    case NORMA =>
      var m := Mean(AsReals(lengths));
      if m == 0.0 then Failure(ZeroMeanLength(t)) else Success(Mean(shels) / m * 100.0)
  }

  /** One taxon's score raises exactly under LOGLENGTH with a mean length
      that is not positive and under NORMA with a mean length of 0, with the
      error naming the taxon; a NORMA score times the mean length is 100
      times the mean `shel`. */
  lemma PolicyScoreFails(shels: seq<real>, rels: seq<real>, lengths: seq<int>,
                         scoring: Scoring, log10: real -> real, t: string)
    requires |shels| > 0 && |rels| > 0 && |lengths| > 0
    ensures var r := PolicyScore(shels, rels, lengths, scoring, log10, t);
            && (r.Failure? <==> || (scoring == LOGLENGTH && Mean(AsReals(lengths)) <= 0.0)
                                || (scoring == NORMA && Mean(AsReals(lengths)) == 0.0))
            && (r.Failure? ==> r.error == (if scoring == LOGLENGTH then LogDomain(t) else ZeroMeanLength(t)))
            && (r.Success? && scoring == NORMA ==> r.value * Mean(AsReals(lengths)) == Mean(shels) * 100.0)
  {
  }

  /** The score of a taxon from its three lists. */
  function TaxonScore(acc: Accumulator, scoring: Scoring, log10: real -> real, t: string): Result<real, ReadError>
    requires Valid(acc) && t in acc.scores
  {
    PolicyScore(acc.scores[t], acc.kmerel[t], acc.lengths[t], scoring, log10, t)
  }

  /** The dictionary comprehension from the `i`-th taxon in insertion
      order on: the first taxon whose score raises ends it. */
  function ScoresFrom(acc: Accumulator, scoring: Scoring, log10: real -> real, i: nat)
    : Result<map<string, real>, ReadError>
    requires Valid(acc) && i <= |acc.taxa|
    decreases |acc.taxa| - i
  {
    if i == |acc.taxa| then Success(map[])
    else
      var first :- TaxonScore(acc, scoring, log10, acc.taxa[i]);
      var rest :- ScoresFrom(acc, scoring, log10, i + 1);
      Success(rest[acc.taxa[i] := first])
  }

  /** `out_scores`. */
  function SelectScores(acc: Accumulator, scoring: Scoring, log10: real -> real): (r: Result<map<string, real>, ReadError>)
    requires Valid(acc)
    ensures r.Success? ==> r.value.Keys == acc.scores.Keys
    ensures r.Failure? ==> exists t :: t in acc.scores && TaxonScore(acc, scoring, log10, t) == Failure(r.error)
  {
    ScoresFromFails(acc, scoring, log10, 0);
    ScoresFromKeys(acc, scoring, log10);
    ScoresFrom(acc, scoring, log10, 0)
  }

  // ---------------------------------------------------------------- properties

  /** From the `i`-th taxon on, the comprehension raises exactly when
      some taxon's score does, and then it raises the error of the first
      such taxon. */
  lemma {:induction false} ScoresFromFails(acc: Accumulator, scoring: Scoring, log10: real -> real, i: nat)
    requires Valid(acc) && i <= |acc.taxa|
    ensures ScoresFrom(acc, scoring, log10, i).Failure?
            <==> exists j :: i <= j < |acc.taxa| && TaxonScore(acc, scoring, log10, acc.taxa[j]).Failure?
    ensures ScoresFrom(acc, scoring, log10, i).Failure? ==>
              exists j :: && i <= j < |acc.taxa|
                          && TaxonScore(acc, scoring, log10, acc.taxa[j]) == Failure(ScoresFrom(acc, scoring, log10, i).error)
                          && forall k :: i <= k < j ==> TaxonScore(acc, scoring, log10, acc.taxa[k]).Success?
    decreases |acc.taxa| - i
  {
    if i < |acc.taxa| {
      ScoresFromFails(acc, scoring, log10, i + 1);
      var first := TaxonScore(acc, scoring, log10, acc.taxa[i]);
      if first.Success? && ScoresFrom(acc, scoring, log10, i + 1).Failure? {
        var j :| && i + 1 <= j < |acc.taxa|
                 && TaxonScore(acc, scoring, log10, acc.taxa[j]) == Failure(ScoresFrom(acc, scoring, log10, i + 1).error)
                 && forall k :: i + 1 <= k < j ==> TaxonScore(acc, scoring, log10, acc.taxa[k]).Success?;
        assert forall k :: i <= k < j ==> TaxonScore(acc, scoring, log10, acc.taxa[k]).Success?;
      }
    }
  }

  /** From the `i`-th taxon on, a successful comprehension has exactly those
      taxa as keys, each with its own score. */
  lemma {:induction false} ScoresFromValues(acc: Accumulator, scoring: Scoring, log10: real -> real, i: nat)
    requires Valid(acc) && i <= |acc.taxa|
    requires ScoresFrom(acc, scoring, log10, i).Success?
    ensures forall j :: i <= j < |acc.taxa| ==> acc.taxa[j] in ScoresFrom(acc, scoring, log10, i).value
    ensures forall t :: t in ScoresFrom(acc, scoring, log10, i).value ==>
              && t in acc.scores
              && TaxonScore(acc, scoring, log10, t) == Success(ScoresFrom(acc, scoring, log10, i).value[t])
    decreases |acc.taxa| - i
  {
    if i < |acc.taxa| {
      ScoresFromValues(acc, scoring, log10, i + 1);
    }
  }

  /** A successful comprehension over all taxa has exactly the accumulated
      taxa as keys. */
  lemma ScoresFromKeys(acc: Accumulator, scoring: Scoring, log10: real -> real)
    requires Valid(acc)
    ensures ScoresFrom(acc, scoring, log10, 0).Success? ==> ScoresFrom(acc, scoring, log10, 0).value.Keys == acc.scores.Keys
  {
    if ScoresFrom(acc, scoring, log10, 0).Success? {
      ScoresFromValues(acc, scoring, log10, 0);
      forall t | t in acc.scores
        ensures t in ScoresFrom(acc, scoring, log10, 0).value
      {
        var j :| 0 <= j < |acc.taxa| && acc.taxa[j] == t;
      }
    }
  }

  /** The scores have exactly the accumulated taxa as keys, and each is the
      policy's score of that taxon. */
  lemma SelectedKeys(acc: Accumulator, scoring: Scoring, log10: real -> real)
    requires Valid(acc)
    requires SelectScores(acc, scoring, log10).Success?
    ensures SelectScores(acc, scoring, log10).value.Keys == acc.scores.Keys
    ensures forall t :: t in acc.scores ==>
              TaxonScore(acc, scoring, log10, t) == Success(SelectScores(acc, scoring, log10).value[t])
  {
    ScoresFromValues(acc, scoring, log10, 0);
    forall t | t in acc.scores
      ensures t in SelectScores(acc, scoring, log10).value
    {
      var j :| 0 <= j < |acc.taxa| && acc.taxa[j] == t;
    }
  }

  /** SHEL, KRAKEN and LENGTH never raise: they are means of non-empty lists. */
  lemma PlainPoliciesSucceed(acc: Accumulator, scoring: Scoring, log10: real -> real)
    requires Valid(acc)
    requires scoring == SHEL || scoring == KRAKEN || scoring == LENGTH
    ensures SelectScores(acc, scoring, log10).Success?
  {
    ScoresFromFails(acc, scoring, log10, 0);
  }

  /** SHEL, KRAKEN and LENGTH: each taxon's score is the mean of its shel
      values, of its relative scores, of its lengths. */
  lemma PlainPolicyValues(acc: Accumulator, log10: real -> real, t: string)
    requires Valid(acc) && t in acc.scores
    ensures SelectScores(acc, SHEL, log10).Success? && t in SelectScores(acc, SHEL, log10).value
            && SelectScores(acc, SHEL, log10).value[t] == Mean(acc.scores[t])
    ensures SelectScores(acc, KRAKEN, log10).Success? && t in SelectScores(acc, KRAKEN, log10).value
            && SelectScores(acc, KRAKEN, log10).value[t] == Mean(acc.kmerel[t])
    ensures SelectScores(acc, LENGTH, log10).Success? && t in SelectScores(acc, LENGTH, log10).value
            && SelectScores(acc, LENGTH, log10).value[t] == Mean(AsReals(acc.lengths[t]))
  {
    PlainPoliciesSucceed(acc, SHEL, log10);
    PlainPoliciesSucceed(acc, KRAKEN, log10);
    PlainPoliciesSucceed(acc, LENGTH, log10);
    SelectedKeys(acc, SHEL, log10);
    SelectedKeys(acc, KRAKEN, log10);
    SelectedKeys(acc, LENGTH, log10);
  }

  /** The selection raises exactly when the score of some taxon does. */
  lemma SelectFails(acc: Accumulator, scoring: Scoring, log10: real -> real)
    requires Valid(acc)
    ensures SelectScores(acc, scoring, log10).Failure?
            <==> exists t :: t in acc.scores && TaxonScore(acc, scoring, log10, t).Failure?
  {
    if exists t :: t in acc.scores && TaxonScore(acc, scoring, log10, t).Failure? {
      var t :| t in acc.scores && TaxonScore(acc, scoring, log10, t).Failure?;
      var j :| 0 <= j < |acc.taxa| && acc.taxa[j] == t;
      ScoresFromFails(acc, scoring, log10, 0);
    }
  }

  /** Under SHEL a taxon's score lies between any bounds of its `shel`
      values, in particular between their smallest and largest. */
  lemma ShelScoreWithin(acc: Accumulator, log10: real -> real, t: string, lo: real, hi: real)
    requires Valid(acc) && t in acc.scores
    requires forall i :: 0 <= i < |acc.scores[t]| ==> lo <= acc.scores[t][i] <= hi
    ensures SelectScores(acc, SHEL, log10).Success? && t in SelectScores(acc, SHEL, log10).value
    ensures lo <= SelectScores(acc, SHEL, log10).value[t] <= hi
  {
    PlainPolicyValues(acc, log10, t);
    MeanBetween(acc.scores[t], lo, hi);
  }

  /** NORMA raises exactly when some taxon has a mean length of 0. */
  lemma NormaFails(acc: Accumulator, log10: real -> real)
    requires Valid(acc)
    ensures SelectScores(acc, NORMA, log10).Failure?
            <==> exists t :: t in acc.scores && Mean(AsReals(acc.lengths[t])) == 0.0
  {
    SelectFails(acc, NORMA, log10);
    forall t | t in acc.scores
      ensures TaxonScore(acc, NORMA, log10, t).Failure? <==> Mean(AsReals(acc.lengths[t])) == 0.0
    {
    }
  }

  /** NORMA is the SHEL score per unit of the LENGTH score, in percent. */
  lemma NormaFromShelAndLength(acc: Accumulator, log10: real -> real, t: string)
    requires Valid(acc) && t in acc.scores
    requires TaxonScore(acc, NORMA, log10, t).Success?
    ensures TaxonScore(acc, NORMA, log10, t).value
            == TaxonScore(acc, SHEL, log10, t).value / TaxonScore(acc, LENGTH, log10, t).value * 100.0
  {
  }

  /** LOGLENGTH raises exactly when some taxon's mean length is not positive. */
  lemma LogLengthFails(acc: Accumulator, log10: real -> real)
    requires Valid(acc)
    ensures SelectScores(acc, LOGLENGTH, log10).Failure?
            <==> exists t :: t in acc.scores && Mean(AsReals(acc.lengths[t])) <= 0.0
  {
    SelectFails(acc, LOGLENGTH, log10);
    forall t | t in acc.scores
      ensures TaxonScore(acc, LOGLENGTH, log10, t).Failure? <==> Mean(AsReals(acc.lengths[t])) <= 0.0
    {
    }
  }

  /** LOGLENGTH is `log10` of the LENGTH score. */
  lemma LogLengthFromLength(acc: Accumulator, log10: real -> real, t: string)
    requires Valid(acc) && t in acc.scores
    requires TaxonScore(acc, LOGLENGTH, log10, t).Success?
    ensures TaxonScore(acc, LOGLENGTH, log10, t).value == log10(TaxonScore(acc, LENGTH, log10, t).value)
  {
  }

  /** Two reads of taxon 9606 with shel 80 and 120 score 100 under SHEL. */
  lemma ShelExample(log10: real -> real)
    ensures var a := ClassifiedRead("9606", 100, 80.0, 50.0);
            var b := ClassifiedRead("9606", 150, 120.0, 60.0);
            SelectScores(Accumulate([a, b]), SHEL, log10) == Success(map["9606" := 100.0])
  {
    var a := ClassifiedRead("9606", 100, 80.0, 50.0);
    var b := ClassifiedRead("9606", 150, 120.0, 60.0);
    var acc := Accumulate([a, b]);
    assert [a, b][..1] == [a];
    assert Accumulate([a]) == Append(Empty, a);
    assert acc == Append(Append(Empty, a), b);
    assert acc.taxa == ["9606"];
    assert acc.scores["9606"] == [80.0, 120.0];
    assert Mean([80.0, 120.0]) == 100.0 by {
      assert [80.0, 120.0][..1] == [80.0];
    }
    var r := SelectScores(acc, SHEL, log10);
    PlainPoliciesSucceed(acc, SHEL, log10);
    SelectedKeys(acc, SHEL, log10);
    assert r.value.Keys == {"9606"};
  }
}
