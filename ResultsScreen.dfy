/**
  The rules of the results summary (src/components/ResultsScreen.tsx): the
  rating and colour bands of the score, the badge class of a tier, the
  comparison with the national average and the recommendation list.
 */
module ResultsScreen {
  import CarbonTypes
  import CarbonTiers

  type Tier = CarbonTypes.Tier

  /** Line 16: the average footprint the score is compared with, in kg CO2 per day. */
  const AverageCarbonFootprint: real := 8.5

  // ---------------------------------------------------------------------------
  // Rating and colour bands
  // ---------------------------------------------------------------------------

  /** The four ratings getScoreRating can return. */
  datatype Rating = Excellent | Good | Average | High

  /** Position of a rating from the best to the worst footprint. */
  function RatingRank(r: Rating): nat
  {
    match r
    case Excellent => 0
    case Good => 1
    case Average => 2
    case High => 3
  }

  /** getScoreRating: bands closed on the right at 4, 7 and 10. */
  function ScoreRating(score: real): (r: Rating)
    ensures r == Excellent <==> score <= 4.0
    ensures r == Good <==> 4.0 < score <= 7.0
    ensures r == Average <==> 7.0 < score <= 10.0
    ensures r == High <==> 10.0 < score
  {
    if score <= 4.0 then Excellent
    else if score <= 7.0 then Good
    else if score <= 10.0 then Average
    else High
  }

  /** The bands are ordered by score: a higher score never gets a better rating. */
  lemma RatingMonotone(s1: real, s2: real)
    requires s1 <= s2
    ensures RatingRank(ScoreRating(s1)) <= RatingRank(ScoreRating(s2))
  {
  }

  /** The three text colours getScoreColor can return. */
  datatype ScoreColor = TextSuccess | TextEcoMedium | TextEcoHigh

  /** getScoreColor: bands closed on the right at 4 and 7. */
  function ScoreColorOf(score: real): (c: ScoreColor)
    ensures c == TextSuccess <==> score <= 4.0
    ensures c == TextEcoMedium <==> 4.0 < score <= 7.0
    ensures c == TextEcoHigh <==> 7.0 < score
  {
    if score <= 4.0 then TextSuccess
    else if score <= 7.0 then TextEcoMedium
    else TextEcoHigh
  }

  /** Colour and rating agree on the first two bands; Average and High share
      the eco-high colour. */
  lemma ColourAgreesWithRating(score: real)
    ensures ScoreColorOf(score) == TextSuccess <==> ScoreRating(score) == Excellent
    ensures ScoreColorOf(score) == TextEcoMedium <==> ScoreRating(score) == Good
    ensures ScoreColorOf(score) == TextEcoHigh <==> ScoreRating(score) in {Average, High}
  {
  }

  // ---------------------------------------------------------------------------
  // Tier badges
  // ---------------------------------------------------------------------------

  /** The badge classes of getTierBadge. */
  datatype BadgeClass = TierLow | TierMedium | TierHigh

  /** getTierBadge: LOW and MEDIUM get their own class, anything else tier-high. */
  function TierBadge(t: Tier): (b: BadgeClass)
    ensures b == TierLow <==> t == CarbonTypes.Low
    ensures b == TierMedium <==> t == CarbonTypes.Medium
    ensures b == TierHigh <==> t == CarbonTypes.High
  {
    if t == CarbonTypes.Low then TierLow
    else if t == CarbonTypes.Medium then TierMedium
    else assert t.High?; TierHigh
  }

  // ---------------------------------------------------------------------------
  // Comparison with the average
  // ---------------------------------------------------------------------------

  /** percentageOfAverage: the score as a whole percentage of the average,
      rounded half up. */
  function PercentageOfAverage(score: real): (p: int)
    ensures p as real - 0.5 <= score / AverageCarbonFootprint * 100.0 < p as real + 0.5
  {
    CarbonTiers.Round(score / AverageCarbonFootprint * 100.0)
  }

  /** isAboveAverage. */
  predicate IsAboveAverage(score: real)
  {
    score > AverageCarbonFootprint
  }

  /** The percentage and the above-average flag agree: above the average the
      percentage is at least 100, at or below it at most 100. */
  lemma PercentageAgreesWithAverage(score: real)
    ensures IsAboveAverage(score) ==> PercentageOfAverage(score) >= 100
    ensures !IsAboveAverage(score) ==> PercentageOfAverage(score) <= 100
    ensures score == AverageCarbonFootprint ==> PercentageOfAverage(score) == 100
  {
    var x := score / AverageCarbonFootprint * 100.0;
    if IsAboveAverage(score) {
      assert x > 100.0;
    } else {
      assert x <= 100.0;
    }
  }

  /** Line 95: the progress bar value, the percentage capped at 100. */
  function ProgressValue(percentage: int): (v: int)
    ensures v <= 100 && v <= percentage
    ensures v == percentage || v == 100
  {
    if percentage > 100 then 100 else percentage
  }

  /** For a non-negative score the bar lies in [0, 100] and is full exactly
      when the percentage reaches 100, which every above-average score does. */
  lemma ProgressBounds(score: real)
    requires score >= 0.0
    ensures 0 <= ProgressValue(PercentageOfAverage(score)) <= 100
    ensures ProgressValue(PercentageOfAverage(score)) == 100 <==> PercentageOfAverage(score) >= 100
    ensures IsAboveAverage(score) ==> ProgressValue(PercentageOfAverage(score)) == 100
  {
    PercentageAgreesWithAverage(score);
  }

  // ---------------------------------------------------------------------------
  // Recommendations
  // ---------------------------------------------------------------------------

  const TransportAdvice := "Consider using public transport or cycling more often"
  const HomeAdvice := "Optimize home energy usage or consider shared living"
  const SolarAdvice := "Installing solar panels can significantly reduce your footprint"
  const CoolingAdvice := "Use fans more and AC less, or upgrade to energy-efficient units"
  const ShoppingAdvice := "Shop locally and use reusable bags"

  /** Where a message stands in the fixed category order transport, home,
      solar, cooling, shopping; 5 for any other string. */
  function AdvicePosition(m: string): nat
  {
    if m == TransportAdvice then 0
    else if m == HomeAdvice then 1
    else if m == SolarAdvice then 2
    else if m == CoolingAdvice then 3
    else if m == ShoppingAdvice then 4
    else 5
  }

  /** The five messages are distinct and stand at positions 0 to 4. */
  lemma AdvicePositions()
    ensures AdvicePosition(TransportAdvice) == 0 && AdvicePosition(HomeAdvice) == 1
    ensures AdvicePosition(SolarAdvice) == 2 && AdvicePosition(CoolingAdvice) == 3
    ensures AdvicePosition(ShoppingAdvice) == 4
  {
    assert |TransportAdvice| == 53 && |HomeAdvice| == 52 && |ShoppingAdvice| == 34;
    assert |SolarAdvice| == |CoolingAdvice| == 63;
    assert SolarAdvice[62] == 't' && CoolingAdvice[62] == 's';
  }

  /** One message when the tier is HIGH, none otherwise. */
  function AdviceIf(t: Tier, message: string): (r: seq<string>)
    ensures message in r <==> t == CarbonTypes.High
    ensures forall x :: x in r ==> x == message
  {
    if t == CarbonTypes.High then [message] else []
  }

  /** 1 for a HIGH tier, 0 otherwise. */
  function HighIndicator(t: Tier): nat
  {
    if t == CarbonTypes.High then 1 else 0
  }

  /** How many of the five tiers are HIGH. */
  function HighCount(tiers: CarbonTypes.AnimationTiers): nat
  {
    HighIndicator(tiers.transport) + HighIndicator(tiers.home) + HighIndicator(tiers.solar)
      + HighIndicator(tiers.cooling) + HighIndicator(tiers.shopping)
  }

  /** recommendations: the messages of the HIGH categories, spread in category
      order; one per HIGH tier, so at most five. */
  function Recommendations(tiers: CarbonTypes.AnimationTiers): (r: seq<string>)
    ensures |r| == HighCount(tiers) <= 5
  {
    AdviceIf(tiers.transport, TransportAdvice) + AdviceIf(tiers.home, HomeAdvice)
      + AdviceIf(tiers.solar, SolarAdvice) + AdviceIf(tiers.cooling, CoolingAdvice)
      + AdviceIf(tiers.shopping, ShoppingAdvice)
  }

  /** A category's message is recommended exactly when its tier is HIGH, and
      nothing else is ever recommended. */
  lemma RecommendationsContents(tiers: CarbonTypes.AnimationTiers)
    ensures var r := Recommendations(tiers);
      && (TransportAdvice in r <==> tiers.transport == CarbonTypes.High)
      && (HomeAdvice in r <==> tiers.home == CarbonTypes.High)
      && (SolarAdvice in r <==> tiers.solar == CarbonTypes.High)
      && (CoolingAdvice in r <==> tiers.cooling == CarbonTypes.High)
      && (ShoppingAdvice in r <==> tiers.shopping == CarbonTypes.High)
      && (forall x :: x in r ==> AdvicePosition(x) < 5)
  {
    AdvicePositions();
  }

  /** Messages in strictly increasing category order (so also without repeats). */
  predicate Ordered(s: seq<string>)
  {
    forall i, j :: 0 <= i < j < |s| ==> AdvicePosition(s[i]) < AdvicePosition(s[j])
  }

  /** Two ordered lists, every position of the first below k and of the second
      at least k, concatenate to an ordered list. */
  lemma OrderedAppend(s: seq<string>, t: seq<string>, k: nat)
    requires Ordered(s) && Ordered(t)
    requires forall x :: x in s ==> AdvicePosition(x) < k
    requires forall y :: y in t ==> AdvicePosition(y) >= k
    ensures Ordered(s + t)
  {
    forall i, j | 0 <= i < j < |s + t|
      ensures AdvicePosition((s + t)[i]) < AdvicePosition((s + t)[j])
    {
      if j < |s| {
        assert (s + t)[i] == s[i] && (s + t)[j] == s[j];
      } else if i < |s| {
        assert (s + t)[i] in s && (s + t)[j] in t;
      } else {
        assert (s + t)[i] == t[i - |s|] && (s + t)[j] == t[j - |s|];
      }
    }
  }

  /** The list follows the order transport, home, solar, cooling, shopping. */
  lemma {:induction false} RecommendationsOrdered(tiers: CarbonTypes.AnimationTiers)
    ensures Ordered(Recommendations(tiers))
  {
    AdvicePositions();
    var p1 := AdviceIf(tiers.transport, TransportAdvice);
    var p2 := p1 + AdviceIf(tiers.home, HomeAdvice);
    var p3 := p2 + AdviceIf(tiers.solar, SolarAdvice);
    var p4 := p3 + AdviceIf(tiers.cooling, CoolingAdvice);
    OrderedAppend(p1, AdviceIf(tiers.home, HomeAdvice), 1);
    OrderedAppend(p2, AdviceIf(tiers.solar, SolarAdvice), 2);
    OrderedAppend(p3, AdviceIf(tiers.cooling, CoolingAdvice), 3);
    OrderedAppend(p4, AdviceIf(tiers.shopping, ShoppingAdvice), 4);
  }

  /** Line 135: the recommendation card is shown only when the list is non-empty,
      that is exactly when some tier is HIGH. */
  predicate ShowRecommendations(tiers: CarbonTypes.AnimationTiers)
  {
    |Recommendations(tiers)| > 0
  }

  lemma ShowRecommendationsIffSomeHigh(tiers: CarbonTypes.AnimationTiers)
    ensures ShowRecommendations(tiers) <==>
      CarbonTypes.High in {tiers.transport, tiers.home, tiers.solar, tiers.cooling, tiers.shopping}
  {
  }
}
