/**
  The twelve Likert items of the technostress scale, their average and the
  three-bucket stress level derived from it.

  Each item is answered on a slider from 1 to 5. The average is the exact
  quotient of the sum by the number of items, written as a `real`: with
  twelve integer answers, comparing it with 2.5 and 3.5 gives the same
  verdicts as Python's floating-point division does, and
  `LevelMatchesScoreSum` restates the classifier on the integer sum.
 */
module Scoring {

  /** The question codes, in the order the form shows them. */
  const Codes: seq<string> := ["S1", "S2", "S3", "S4", "S5", "S6",
                               "S7", "S8", "S9", "S10", "S11", "S12"]

  /** The number of items on the scale. */
  const ItemCount: nat := 12

  const MinScore: int := 1
  const MaxScore: int := 5

  lemma CodesDistinct()
    ensures |Codes| == ItemCount
    ensures forall i, j :: 0 <= i < j < |Codes| ==> Codes[i] != Codes[j]
  {
  }

  /** The answers a slider can produce: one per item, each within 1..5. */
  predicate InRange(answers: seq<int>)
  {
    forall i :: 0 <= i < |answers| ==> MinScore <= answers[i] <= MaxScore
  }

  function Sum(s: seq<int>): int
  {
    if s == [] then 0 else Sum(s[..|s| - 1]) + s[|s| - 1]
  }

  /** Twelve equal answers sum to twelve times that answer. */
  lemma {:induction false} SumOfConstant(s: seq<int>, c: int)
    requires forall i :: 0 <= i < |s| ==> s[i] == c
    ensures Sum(s) == c * |s|
  {
    if s != [] {
      SumOfConstant(s[..|s| - 1], c);
    }
  }

  /** The sum of answers within 1..5 lies between 1 and 5 times their number. */
  lemma {:induction false} SumBounds(s: seq<int>)
    requires InRange(s)
    ensures MinScore * |s| <= Sum(s) <= MaxScore * |s|
  {
    if s != [] {
      SumBounds(s[..|s| - 1]);
    }
  }

  /** `ortalama = sum(cevap_listesi) / len(cevap_listesi)`. */
  function Average(answers: seq<int>): real
    requires |answers| == ItemCount
  {
    Sum(answers) as real / ItemCount as real
  }

  /** Twelve answers within 1..5 average to a value within 1..5. */
  lemma AverageBounds(answers: seq<int>)
    requires |answers| == ItemCount && InRange(answers)
    ensures MinScore as real <= Average(answers) <= MaxScore as real
  {
    SumBounds(answers);
  }

  /** The stress level: Düşük, Orta or Yüksek. */
  datatype Level = Dusuk | Orta | Yuksek
  {
    /** The text stored in the Düzey column. */
    function Label(): (s: string)
      ensures |s| > 0
    {
      match this
      case Dusuk => "D\U{FC}\U{15F}\U{FC}k"
      case Orta => "Orta"
      case Yuksek => "Y\U{FC}ksek"
    }

    /** The buckets in increasing order of stress. */
    function Rank(): nat
    {
      match this
      case Dusuk => 0
      case Orta => 1
      case Yuksek => 2
    }
  }

  /** The classifier of the result screen; a value on a boundary belongs to
      the upper bucket. */
  function Classify(average: real): (level: Level)
    ensures level == Dusuk <==> average < 2.5
    ensures level == Orta <==> 2.5 <= average < 3.5
    ensures level == Yuksek <==> 3.5 <= average
  {
    if average < 2.5 then Dusuk
    else if average < 3.5 then Orta
    else Yuksek
  }

  /** An independent statement of the classifier on the integer sum of the
      twelve answers: 2.5 and 3.5 times twelve are 30 and 42. */
  function LevelOfScoreSum(sum: int): Level
  {
    if sum < 30 then Dusuk else if sum < 42 then Orta else Yuksek
  }

  lemma LevelMatchesScoreSum(answers: seq<int>)
    requires |answers| == ItemCount
    ensures Classify(Average(answers)) == LevelOfScoreSum(Sum(answers))
  {
  }

  /** A higher average never gives a lower level. */
  lemma ClassifyMonotonic(a: real, b: real)
    requires a <= b
    ensures Classify(a).Rank() <= Classify(b).Rank()
  {
  }

  /** The three labels are distinct, so the Düzey column determines the level. */
  lemma LabelInjective(x: Level, y: Level)
    requires x.Label() == y.Label()
    ensures x == y
  {
  }

  /** The `puanlar` dictionary: the slider answers keyed by question code,
      filled one question at a time in form order. */
  method CollectScores(answers: seq<int>) returns (puanlar: map<string, int>)
    requires |answers| == ItemCount
    ensures puanlar.Keys == set k | k in Codes
    ensures forall i :: 0 <= i < ItemCount ==> puanlar[Codes[i]] == answers[i]
    ensures AnswerList(puanlar) == answers
  {
    CodesDistinct();
    puanlar := map[];
    var n := 0;
    while n < ItemCount
      invariant 0 <= n <= ItemCount
      invariant puanlar.Keys == set i | 0 <= i < n :: Codes[i]
      invariant forall i :: 0 <= i < n ==> puanlar[Codes[i]] == answers[i]
    {
      puanlar := puanlar[Codes[n] := answers[n]];
      n := n + 1;
    }
  }

  /** `list(puanlar.values())`: the scores back in form order. */
  function AnswerList(puanlar: map<string, int>): (answers: seq<int>)
    requires forall k :: k in Codes ==> k in puanlar
    ensures |answers| == ItemCount
    ensures forall i :: 0 <= i < ItemCount ==> answers[i] == puanlar[Codes[i]]
  {
    seq(ItemCount, i requires 0 <= i < ItemCount => puanlar[Codes[i]])
  }
}
