# Carbon-footprint survey: a verified model of its core logic

This project models the logic behind a carbon-footprint survey web app in
Dafny. The app asks five questions: transport, home, solar, cooling and
shopping. It keeps a survey record and classifies each category as LOW,
MEDIUM or HIGH to drive on-screen animations. It then computes a daily
score in kg CO2 and shows a results screen.

The model has five modules:

- `CarbonTypes` (`Types.dfy`) holds the survey record, the tier labels and
  the five-tier record of `src/types/carbonCalculator.ts`. Home, cooling and
  shopping identifiers are datatypes. Each has an extra "unknown" case,
  which stands for the identifiers the source's `||` fallbacks and `default:`
  branch catch.
- `CarbonTiers` (`CarbonTiers.dfy`) holds the classifiers and the score of
  `src/utils/carbonTiers.ts`. The two routines that work step by step,
  `calculateShoppingTier` and `calculateCarbonScore`, are methods. Each is
  proved equal to a specification function, and the properties are proved
  as lemmas about those functions.
- `TransportQuestion` (`TransportQuestion.dfy`) holds the mode selection and
  the percentage split of `src/components/questions/TransportQuestion.tsx`.
  - Toggling a mode rebuilds an even split in a loop.
  - Editing one mode's percentage runs a proportional pass, then a
    correction pass, over the other modes.
  - The loops are methods proved equal to specification functions
    (`Adjusted`, `ApplyPass`, `SumOver`). The lemmas show when the
    distribution stays valid: keys equal to the selected modes, no negative
    share, and a total of 100.
- `ResultsScreen` (`ResultsScreen.dfy`) holds the pure rules of
  `src/components/ResultsScreen.tsx`:
  - the rating and colour bands;
  - the badge class;
  - the percentage of the 8.5 average and its capped progress value;
  - the ordered recommendation list.
- `CarbonCalculator` (`CarbonCalculator.dfy`) holds the step controller of
  `src/components/CarbonCalculator.tsx`. It is a class with the fields
  `currentQuestion`, `carbonData` and `animationTiers`. Its methods mirror
  `handleNext`, `handleBack`, `updateCarbonData` and `updateAnimationTiers`.
  Pure functions give the progress bar, the index-to-screen mapping, the
  shallow merge and the tiers of a record.

All numbers (kilometres, percentages, scores) are Dafny `real`s, so the
arithmetic is exact. `Math.round` is `Floor(x + 1/2)`, which matches
JavaScript's rounding toward +∞ on ties.

## Model

| member | source | states |
|---|---|---|
| `CarbonTiers.GetTier` | src/utils/carbonTiers.ts:4-8 | LOW iff value ≤ low; MEDIUM iff low < value ≤ high; HIGH iff the value is above both thresholds |
| `CarbonTiers.GetTierMonotone` | src/utils/carbonTiers.ts:4-8 | for low ≤ high, a larger value never gets a lower tier |
| `CarbonTiers.TransportTier` | src/utils/carbonTiers.ts:10-16 | with walk or cycle, LOW iff 0.7·km ≤ 10 and HIGH iff 0.7·km > 35; otherwise LOW iff km ≤ 10 and HIGH iff km > 35; so up to 10 km is LOW and beyond 50 km HIGH whatever the modes |
| `CarbonTiers.TransportTierBoundaries` | src/utils/carbonTiers.ts:10-16 | thresholds 10 and 35 km belong to the lower tier; 12 km with walk scales to 8.4 (LOW) where by bus it is MEDIUM; 50 km with walk scales to 35 (MEDIUM); 50 km by bus alone is HIGH |
| `CarbonTiers.EcoTransportNeverRaisesTier` | src/utils/carbonTiers.ts:10-16 | for a non-negative distance, walking or cycling never raises the tier above the unscaled one |
| `CarbonTiers.TransportTierMonotone` | src/utils/carbonTiers.ts:10-16 | with the same modes, more kilometres never lower the tier |
| `CarbonTiers.Area` | src/utils/carbonTiers.ts:19-27 | every home type, the unknown one included (600), has a positive area |
| `CarbonTiers.HomeTier` | src/utils/carbonTiers.ts:18-31 | area per person against 200 and 500: for a positive count LOW iff area ≤ 200·occupants, HIGH iff area > 500·occupants; zero occupants (the unguarded division by zero) is HIGH |
| `CarbonTiers.MoreOccupantsNeverRaiseHomeTier` | src/utils/carbonTiers.ts:18-31 | from one occupant upwards, more occupants never raise the home tier |
| `CarbonTiers.SolarTierNonIncreasing` | src/utils/carbonTiers.ts:33-38 | a higher solar percentage never raises the tier |
| `CarbonTiers.SolarTier` | src/utils/carbonTiers.ts:33-38 | inverted bands: LOW iff the percentage is ≥ 60, HIGH iff < 25, MEDIUM between |
| `CarbonTiers.CoolingTier` | src/utils/carbonTiers.ts:40-49 | LOW exactly for fan, HIGH exactly for ac-most, MEDIUM for cooler, ac-few and unknown types |
| `CarbonTiers.CalculateShoppingTier` | src/utils/carbonTiers.ts:51-76 | the switch plus the reusable-bag downgrade computes the shopping tier specification |
| `CarbonTiers.ShoppingTier` | src/utils/carbonTiers.ts:51-76 | never above the source's base tier; never HIGH with bags; equal to the base tier without bags |
| `CarbonTiers.ReusableBagsDowngradeOneStep` | src/utils/carbonTiers.ts:51-76 | bags lower the source's base tier by exactly one step, and LOW stays LOW; supermarket with bags is MEDIUM; without bags the base tier stands |
| `CarbonTiers.Round` | src/utils/carbonTiers.ts:113 | Math.round lands within half a unit of its argument, ties upward |
| `CarbonTiers.RoundMonotone` | src/utils/carbonTiers.ts:113 | rounding preserves order |
| `CarbonTiers.CalculateCarbonScore` | src/utils/carbonTiers.ts:78-114 | the step-by-step accumulation equals the transport-plus-home subtotal, times the solar factor, plus cooling and shopping terms, rounded to a tenth |
| `CarbonTiers.CarbonScore` | src/utils/carbonTiers.ts:78-114 | the score of a record (`RawScore`: transport plus home, solar-discounted, plus cooling and shopping) rounded to a whole number of tenths, within 0.05 of the raw score |
| `CarbonTiers.ScoreNonNegative` | src/utils/carbonTiers.ts:78-114 | with non-negative km and a solar share in [0, 100], the score is at least 0.9 (the cheapest cooling plus shopping) |
| `CarbonTiers.SolarDiscountsSubtotalOnly` | src/utils/carbonTiers.ts:89-92 | solar removes its share of the transport-plus-home subtotal and nothing else |
| `CarbonTiers.FullSolarLeavesCoolingAndShopping` | src/utils/carbonTiers.ts:89-113 | at 100% solar the score is the rounded cooling plus shopping terms alone |
| `CarbonTiers.ScoreExample` | src/utils/carbonTiers.ts:78-114 | 0 km, one occupant, no solar, fan, local shopping without bags scores 6.0 |
| `TransportQuestion.Without` | src/components/questions/TransportQuestion.tsx:49 | the filter keeps exactly the elements other than the mode, keeps a list duplicate-free, shortens it by one when the mode was present and returns it unchanged when absent |
| `TransportQuestion.WithoutKeepsOrder` | src/components/questions/TransportQuestion.tsx:49 | in a duplicate-free list the mode is cut out from its position and every other mode keeps its place and order |
| `TransportQuestion.ToggleSelection` | src/components/questions/TransportQuestion.tsx:48-50 | an unselected mode is appended at the end; the mode is selected afterwards iff it was not before; no other mode's membership changes; duplicate-free stays duplicate-free |
| `TransportQuestion.ToggleRemovesInPlace` | src/components/questions/TransportQuestion.tsx:48-49 | deselecting the mode at position k of a duplicate-free selection leaves the others in their order |
| `TransportQuestion.ShowDistribution` | src/components/questions/TransportQuestion.tsx:43-45 | the percentage panel is shown exactly when more than one mode is selected |
| `TransportQuestion.ToggleTwiceRestores` | src/components/questions/TransportQuestion.tsx:48-50 | toggling an unselected mode twice restores the exact list |
| `TransportQuestion.ShareBounds` | src/components/questions/TransportQuestion.tsx:55-64 | every share of an even split is non-negative and at most the last share |
| `TransportQuestion.EvenSplit` | src/components/questions/TransportQuestion.tsx:53-66 | the loop's map has the selected modes as keys; mode i gets ⌊100/N⌋, the last gets the remainder; empty selection gives the empty map |
| `TransportQuestion.ValidDistribution` | src/components/questions/TransportQuestion.tsx:53-66 | the invariant the two handlers are proved against: a duplicate-free selection, keys exactly the selected modes, no negative share, a total of 100 when any mode is selected |
| `TransportQuestion.EvenSplitIsValid` | src/components/questions/TransportQuestion.tsx:53-66 | an even split is a valid distribution (keys, non-negative, total 100) whose last share is the largest |
| `TransportQuestion.HandleModeToggle` | src/components/questions/TransportQuestion.tsx:47-73 | new selection is the toggle, distance kept, distribution a fresh valid even split over the new selection |
| `TransportQuestion.ToggleForgetsPercentages` | src/components/questions/TransportQuestion.tsx:52-72 | the split depends on the new selection alone, not on earlier percentages |
| `TransportQuestion.SumModes` | src/components/questions/TransportQuestion.tsx:84 | the reduce over the other modes computes their sum, missing entries reading 0 |
| `TransportQuestion.SumValues` | src/components/questions/TransportQuestion.tsx:95 | the reduce over the map's values computes the sum of all entries |
| `TransportQuestion.RunPass` | src/components/questions/TransportQuestion.tsx:87-91 | one forEach pass rewrites each listed mode from its current value, as the pass specification says |
| `TransportQuestion.RescaleOthers` | src/components/questions/TransportQuestion.tsx:83-92 | the proportional pass runs only when the other modes hold a positive total |
| `TransportQuestion.CorrectTotal` | src/components/questions/TransportQuestion.tsx:94-101 | when the map does not add up to 100, the error is spread evenly over the other modes, clamped at 0 |
| `TransportQuestion.Adjusted` | src/components/questions/TransportQuestion.tsx:75-101 | specification of the edit: set the mode, the proportional pass, then the correction pass (its properties: `AdjustedBasics`, `AdjustPreservesDistribution`) |
| `TransportQuestion.HandleDistributionChange` | src/components/questions/TransportQuestion.tsx:75-107 | selection and distance unchanged; the distribution is the edit followed by both passes |
| `TransportQuestion.ApplyPassFrame` | src/components/questions/TransportQuestion.tsx:87-91 | a pass touches only the listed modes and leaves each of them non-negative (the Math.max clamp) |
| `TransportQuestion.ApplyPassAt` | src/components/questions/TransportQuestion.tsx:87-91 | over a duplicate-free list, each listed mode is rewritten exactly once, from its value before the pass |
| `TransportQuestion.MapSumOfKeys` | src/components/questions/TransportQuestion.tsx:95 | the sum of all map values equals the sum over a duplicate-free list of exactly its keys |
| `TransportQuestion.AdjustedBasics` | src/components/questions/TransportQuestion.tsx:76-101 | on any input, the edited mode holds exactly the requested value (missing reads 0); keys are added only for the edited or selected modes; other entries are never made negative |
| `TransportQuestion.ProportionalRewrite` | src/components/questions/TransportQuestion.tsx:89-90 | with the factor c = (T − Δ)/T ≥ 0 the proportional rewrite is multiplication by c, and the clamp never bites |
| `TransportQuestion.ProportionedFromScales` | src/components/questions/TransportQuestion.tsx:83-92 | the proportional pass scales every other mode by c and their total becomes T − Δ exactly |
| `TransportQuestion.CorrectionSkipped` | src/components/questions/TransportQuestion.tsx:95-96 | when the map already adds up to 100 the correction pass changes nothing |
| `TransportQuestion.AdjustProportional` | src/components/questions/TransportQuestion.tsx:83-96 | from a valid distribution, editing a mode that held less than 100 scales every other mode by (100 − value)/(100 − old) and the result is valid with no correction |
| `TransportQuestion.CorrectionPassEven` | src/components/questions/TransportQuestion.tsx:97-100 | when the other modes all read 0 the correction gives each (100 − value)/k, which together make 100 − value |
| `TransportQuestion.AdjustFromZeroOthers` | src/components/questions/TransportQuestion.tsx:86-101 | editing a mode that held 100 skips the proportional pass and the correction gives each other mode (100 − value)/k; the result is valid |
| `TransportQuestion.AdjustPreservesDistribution` | src/components/questions/TransportQuestion.tsx:75-107 | with the panel shown, a selected mode and a slider value in [0, 100], a valid distribution stays valid and the edited mode holds the value |
| `TransportQuestion.AdjustSingleMode` | src/components/questions/TransportQuestion.tsx:43-45 | with one selected mode only its entry changes, to the requested value (not 100), and the panel is hidden |
| `ResultsScreen.ScoreRating` | src/components/ResultsScreen.tsx:33-38 | Excellent iff ≤ 4, Good iff in (4, 7], Average iff in (7, 10], High iff > 10 |
| `ResultsScreen.RatingMonotone` | src/components/ResultsScreen.tsx:33-38 | a higher score never gets a better rating |
| `ResultsScreen.ScoreColorOf` | src/components/ResultsScreen.tsx:27-31 | success iff ≤ 4, eco-medium iff in (4, 7], eco-high iff > 7 |
| `ResultsScreen.ColourAgreesWithRating` | src/components/ResultsScreen.tsx:27-38 | colour and rating agree on the first two bands; Average and High share eco-high |
| `ResultsScreen.TierBadge` | src/components/ResultsScreen.tsx:42-46 | tier-low iff LOW, tier-medium iff MEDIUM, tier-high iff HIGH |
| `ResultsScreen.PercentageOfAverage` | src/components/ResultsScreen.tsx:16-24 | the percentage is within half a point of score/8.5·100 |
| `ResultsScreen.IsAboveAverage` | src/components/ResultsScreen.tsx:25 | the score is strictly above the 8.5 average (related to the percentage by `PercentageAgreesWithAverage`) |
| `ResultsScreen.PercentageAgreesWithAverage` | src/components/ResultsScreen.tsx:24-25 | above the average the percentage is ≥ 100, otherwise ≤ 100, and exactly 100 at the average |
| `ResultsScreen.ProgressValue` | src/components/ResultsScreen.tsx:95 | the bar value is the percentage capped at 100 |
| `ResultsScreen.ProgressBounds` | src/components/ResultsScreen.tsx:95 | for a non-negative score the bar lies in [0, 100], is full iff the percentage reaches 100, and is full whenever the score is above average |
| `ResultsScreen.AdviceIf` | src/components/ResultsScreen.tsx:49-53 | a category contributes its message iff its tier is HIGH, and nothing else |
| `ResultsScreen.Recommendations` | src/components/ResultsScreen.tsx:48-54 | one message per HIGH tier, so at most five |
| `ResultsScreen.RecommendationsContents` | src/components/ResultsScreen.tsx:48-54 | each category's message is present iff its tier is HIGH; no other message appears |
| `ResultsScreen.RecommendationsOrdered` | src/components/ResultsScreen.tsx:48-54 | messages appear in the order transport, home, solar, cooling, shopping, without repeats |
| `ResultsScreen.ShowRecommendationsIffSomeHigh` | src/components/ResultsScreen.tsx:135 | the recommendation card is shown iff some tier is HIGH |
| `CarbonCalculator.NextIndex` | src/components/CarbonCalculator.tsx:72-76 | next moves the index up by one or not at all, and keeps an index in 0..5 in range |
| `CarbonCalculator.BackIndex` | src/components/CarbonCalculator.tsx:81-85 | back moves the index down by one or not at all, and keeps an index in 0..5 in range |
| `CarbonCalculator.NextBackInverse` | src/components/CarbonCalculator.tsx:72-85 | within range, back undoes next and next undoes back; next at 5 and back at 0 change nothing |
| `CarbonCalculator.ReplayStaysInRange` | src/components/CarbonCalculator.tsx:19-22 | from 0..5 the index stays in 0..5 under any sequence of next/back presses |
| `CarbonCalculator.NextsReachResults` | src/components/CarbonCalculator.tsx:72-79 | n presses of next from q reach min(q + n, 5) |
| `CarbonCalculator.Progress` | src/components/CarbonCalculator.tsx:87 | (q + 1)/6 · 100, the progress bar value (its properties: `ProgressStrictlyIncreasing`, `ProgressBounds`) |
| `CarbonCalculator.ProgressStrictlyIncreasing` | src/components/CarbonCalculator.tsx:87 | the progress value strictly increases with the index and is 100 only at index 5 |
| `CarbonCalculator.ProgressBounds` | src/components/CarbonCalculator.tsx:87 | for an index in 0..5 progress lies in [100/6, 100] and is 100 iff the index is 5 |
| `CarbonCalculator.StepAt` | src/components/CarbonCalculator.tsx:90-150 | the screen at an index: a screen exactly for 0..5, nothing otherwise |
| `CarbonCalculator.StepAtIndex` | src/components/CarbonCalculator.tsx:90-150 | indices 0..5 and only they show a screen; each screen sits at exactly one index; results is at 5 |
| `CarbonCalculator.InitialData` | src/components/CarbonCalculator.tsx:23-42 | the default record: no mode, 10 km, a 2bhk for three without solar, AC in a few rooms, quick-commerce without bags |
| `CarbonCalculator.InitialTiers` | src/components/CarbonCalculator.tsx:44-50 | the default tiers: MEDIUM for transport, home, cooling and shopping, HIGH for solar |
| `CarbonCalculator.TiersFor` | src/components/CarbonCalculator.tsx:52-62 | each of the five tiers is its classifier applied to the record, solar from the percentage alone (its properties: `TiersIgnoreSolarSwitch`, `MergeTierLocality`) |
| `CarbonCalculator.InitialTiersDisagreeOnTransport` | src/components/CarbonCalculator.tsx:23-50 | the initial tiers equal the classifiers of the initial record except transport, initialised MEDIUM where 10 km without modes is LOW |
| `CarbonCalculator.TiersIgnoreSolarSwitch` | src/components/CarbonCalculator.tsx:52-62 | no tier, solar included, depends on hasSolar; only the percentage counts |
| `CarbonCalculator.Merge` | src/components/CarbonCalculator.tsx:64-66 | the spread of a partial update over the record (its properties: `MergeReplacesPresentCategories`, `MergeThen`) |
| `CarbonCalculator.MergeReplacesPresentCategories` | src/components/CarbonCalculator.tsx:64-66 | a category present in the update replaces the old one, an absent one is kept; the empty update is the identity; merging twice equals merging once |
| `CarbonCalculator.MergeThen` | src/components/CarbonCalculator.tsx:64-66 | two successive merges are one merge of the updates combined, the later one winning |
| `CarbonCalculator.MergeTierLocality` | src/components/CarbonCalculator.tsx:52-66 | the tiers of categories absent from an update are unchanged; a home update is the only one that can move the solar tier |
| `CarbonCalculator.SolarChange` | src/components/CarbonCalculator.tsx:114-118 | the solar screen's update: the current home record with only hasSolar and the percentage rewritten (`SolarChangeKeepsHome`) |
| `CarbonCalculator.SolarChangeKeepsHome` | src/components/CarbonCalculator.tsx:114-118 | the solar answer keeps the home type and occupants and every other category, and changes at most the solar tier |
| `CarbonCalculator.ScreenChangesAreLocal` | src/components/CarbonCalculator.tsx:97-136 | each answer replaces only its own category; the transport, cooling and shopping answers move only their own tier, the home answer only the home and solar tiers |
| `CarbonCalculator.Calculator.constructor` | src/components/CarbonCalculator.tsx:22-50 | the first question, the default record and the default tiers, which are not consistent with the record |
| `CarbonCalculator.Calculator.UpdateAnimationTiers` | src/components/CarbonCalculator.tsx:52-62 | the five tiers become the classifiers of the given record; nothing else changes |
| `CarbonCalculator.Calculator.UpdateCarbonData` | src/components/CarbonCalculator.tsx:64-70 | the record becomes the shallow merge of the update, the tiers are consistent with it, the index is kept |
| `CarbonCalculator.Calculator.HandleNext` | src/components/CarbonCalculator.tsx:72-79 | below 5 the index moves forward with no report; at 5 it stays and the score of the current record is reported; record and tiers unchanged |
| `CarbonCalculator.Calculator.HandleBack` | src/components/CarbonCalculator.tsx:81-85 | the index moves back unless it is 0; record and tiers unchanged |
| `CarbonCalculator.Calculator.CurrentProgress` | src/components/CarbonCalculator.tsx:87 | the progress of the current index lies in [100/6, 100] and is 100 iff on the results screen |
| `CarbonCalculator.Calculator.CurrentStep` | src/components/CarbonCalculator.tsx:90-150 | the screen shown is the one whose position is the current index |

## Left out

- IEEE-754 floating point is not modelled: every quantity is an exact real.
  So a rounding residue that would make the total differ from 100 at
  src/components/questions/TransportQuestion.tsx:96 never arises here.
- Line 97 of TransportQuestion.tsx divides by the number of other modes. With
  none, JavaScript gets ±Infinity and then visits no mode. The model skips
  the pass, which has the same effect.
- The code does not force a single selected mode to 100%. It keeps the
  requested value. The model follows the code (`AdjustSingleMode`).
- The requested value is not clamped by the code. The model does not clamp
  it either. The validity lemmas assume the slider's range [0, 100].
- JavaScript's prototype-key lookups are not modelled. These are lookups of
  `__proto__`-like identifiers in the plain-object tables read with an
  `|| default` fallback: `areaMap` and `coolingMap` for the tiers
  (src/utils/carbonTiers.ts:27, 48) and `coolingEmissions` and
  `shoppingEmissions` for the score (src/utils/carbonTiers.ts:101, 109). An
  unknown identifier is the datatype's unknown case, which takes the
  fallback.
- Presentation is not modelled: JSX, class strings, icons, animations,
  `toFixed` formatting, toasts and logging.
- Also not modelled:
  - the per-mode emission factors shown in the transport screen (display only);
  - the area table of the home screen (display only);
  - the defaults the solar and shopping screens pick when a switch is flipped.
- The optional `onComplete` callback becomes `HandleNext`'s returned score.
- The `useEffect` behind `showDistribution` is modelled as the predicate it
  establishes.
- React's batching of state updates is not modelled. This includes the
  stale `carbonData.home` the solar screen's closure could capture. Updates
  are applied one at a time to the current record.
- `TransportQuestion.HandleModeToggle`: the even split and its validity are
  stated for a duplicate-free selection. Starting from the empty initial
  selection, toggling only ever produces such selections (`ToggleSelection`
  keeps a list duplicate-free). The source's `filter` also handles
  duplicates, and the model's `Without` does too, but no share values are
  stated for them.
- `TransportQuestion.AdjustPreservesDistribution`: stated for two or more
  selected modes, a selected edited mode and a value in [0, 100]. Other
  inputs get only `AdjustedBasics`, which says the edit lands and no other
  entry turns negative.
- The occupant count is an integer, where the source's
  type allows any number, because the home screen's slider moves in steps
  of 1 from 1 to 10 (src/components/questions/HomeQuestion.tsx:112-114).
  Fractional counts, including those below 1 that the score's guard
  (src/utils/carbonTiers.ts:86) would see, are not modelled.
- `CarbonTiers.MoreOccupantsNeverRaiseHomeTier`: the monotonicity is stated
  from one occupant upwards, the slider's minimum. For negative counts the
  source divides by a negative number, and the model follows it.
