/**
  Tier classifiers and the carbon-score aggregator (src/utils/carbonTiers.ts).
  Every classifier is total: unknown category identifiers fall back to a
  fixed default, as the source's `||` fallbacks and `default:` branch do.
 */
module CarbonTiers {
  import opened CarbonTypes

  // ---------------------------------------------------------------------------
  // Classifiers
  // ---------------------------------------------------------------------------

  /** Two-threshold classification; each boundary belongs to the lower tier. */
  function GetTier(value: real, low: real, high: real): (r: Tier)
    ensures r == Low <==> value <= low
    ensures r == Medium <==> low < value <= high
    ensures r == High <==> low < value && high < value
  {
    if value <= low then Low
    else if value <= high then Medium
    else High
  }

  /** With ordered thresholds a larger value never gets a lower tier. */
  lemma GetTierMonotone(v1: real, v2: real, low: real, high: real)
    requires low <= high && v1 <= v2
    ensures Rank(GetTier(v1, low, high)) <= Rank(GetTier(v2, low, high))
  {
  }

  /** Walking or cycling among the selected modes counts for a lower distance. */
  predicate HasEcoTransport(selectedModes: seq<string>)
  {
    "walk" in selectedModes || "cycle" in selectedModes
  }

  /** Daily distance, scaled by 0.7 with walking or cycling, against 10 and
      35 km: up to 10 km is LOW and beyond 50 km HIGH whatever the modes. */
  function TransportTier(dailyKm: real, selectedModes: seq<string>): (r: Tier)
    ensures dailyKm <= 10.0 ==> r == Low
    ensures dailyKm > 50.0 ==> r == High
    ensures !HasEcoTransport(selectedModes) && dailyKm > 35.0 ==> r == High
    ensures HasEcoTransport(selectedModes) ==>
      (r == Low <==> dailyKm * 0.7 <= 10.0) && (r == High <==> dailyKm * 0.7 > 35.0)
    ensures !HasEcoTransport(selectedModes) ==>
      (r == Low <==> dailyKm <= 10.0) && (r == High <==> dailyKm > 35.0)
  {
    var adjustedKm := if HasEcoTransport(selectedModes) then dailyKm * 0.7 else dailyKm;
    GetTier(adjustedKm, 10.0, 35.0)
  }

  /** The thresholds 10 and 35 are inclusive; 12 km with walking scales to 8.4 (LOW);
      50 km with walking scales to exactly 35. */
  lemma TransportTierBoundaries()
    ensures TransportTier(10.0, []) == Low
    ensures TransportTier(10.01, []) == Medium
    ensures TransportTier(35.0, []) == Medium
    ensures TransportTier(35.01, []) == High
    ensures TransportTier(12.0, ["walk"]) == Low
    ensures TransportTier(12.0, ["bus"]) == Medium
    ensures TransportTier(50.0, ["walk"]) == Medium
    ensures TransportTier(50.0, ["bus", "cycle"]) == Medium
    ensures TransportTier(50.0, ["bus"]) == High
  {
  }

  /** For a non-negative distance the eco scaling never raises the tier. */
  lemma EcoTransportNeverRaisesTier(dailyKm: real, selectedModes: seq<string>)
    requires dailyKm >= 0.0
    ensures Rank(TransportTier(dailyKm, selectedModes)) <= Rank(TransportTier(dailyKm, []))
  {
    GetTierMonotone(dailyKm * 0.7, dailyKm, 10.0, 35.0);
  }

  /** A longer daily distance never lowers the transport tier. */
  lemma TransportTierMonotone(km1: real, km2: real, selectedModes: seq<string>)
    requires km1 <= km2
    ensures Rank(TransportTier(km1, selectedModes)) <= Rank(TransportTier(km2, selectedModes))
  {
    if HasEcoTransport(selectedModes) {
      GetTierMonotone(km1 * 0.7, km2 * 0.7, 10.0, 35.0);
    } else {
      GetTierMonotone(km1, km2, 10.0, 35.0);
    }
  }

  /** Floor area in square feet per home type; unknown types count as 600. */
  function Area(kind: HomeType): (r: real)
    ensures r > 0.0
  {
    match kind
    case Rk1 => 200.0
    case Bhk1 => 400.0
    case Bhk2 => 800.0
    case Bhk3 => 1200.0
    case Villa => 2000.0
    case UnknownHome => 600.0
  }

  /** Area per person against 200 and 500. The source does not guard the
      division: with no occupants the quotient is +Infinity, above both
      thresholds, so the tier is HIGH. */
  function HomeTier(kind: HomeType, occupants: int): (r: Tier)
    ensures occupants == 0 ==> r == High
    ensures occupants > 0 ==> (r == Low <==> Area(kind) <= 200.0 * occupants as real)
    ensures occupants > 0 ==> (r == High <==> Area(kind) > 500.0 * occupants as real)
  {
    if occupants == 0 then High
    else
      QuotientAtMost(Area(kind), occupants as real, 200.0);
      QuotientAtMost(Area(kind), occupants as real, 500.0);
      GetTier(Area(kind) / occupants as real, 200.0, 500.0)
  }

  /** For a positive number of occupants, the area per person is at most t
      exactly when the area is at most t per occupant. */
  lemma QuotientAtMost(a: real, p: real, t: real)
    requires p != 0.0
    ensures p > 0.0 ==> (a / p <= t <==> a <= t * p)
  {
    var x := a / p;
    assert x * p == a;
    if p > 0.0 {
      if x <= t {
        assert x * p <= t * p;
      } else {
        assert x * p > t * p;
      }
    }
  }

  /** From one occupant upwards, more occupants never raise the home tier. */
  lemma MoreOccupantsNeverRaiseHomeTier(kind: HomeType, o1: int, o2: int)
    requires 1 <= o1 <= o2
    ensures Rank(HomeTier(kind, o2)) <= Rank(HomeTier(kind, o1))
  {
    var a := Area(kind);
    var x, y := a / o2 as real, a / o1 as real;
    QuotientAntitone(a, o1 as real, o2 as real);
    GetTierMonotone(x, y, 200.0, 500.0);
  }

  /** Dividing a positive amount among more parts gives smaller parts. */
  lemma QuotientAntitone(a: real, p: real, q: real)
    requires a > 0.0 && 0.0 < p <= q
    ensures a / q <= a / p
  {
    var x, y := a / q, a / p;
    assert x * q == a && y * p == a;
    assert x * p <= x * q;
    assert (y - x) * p >= 0.0;
  }

  /** Inverted scale: more solar means a lower tier. */
  function SolarTier(solarPercentage: real): (r: Tier)
    ensures r == Low <==> solarPercentage >= 60.0
    ensures r == High <==> solarPercentage < 25.0
  {
    if solarPercentage >= 60.0 then Low
    else if solarPercentage >= 25.0 then Medium
    else High
  }

  /** A larger share of solar never raises the tier. */
  lemma SolarTierNonIncreasing(p1: real, p2: real)
    requires p1 <= p2
    ensures Rank(SolarTier(p2)) <= Rank(SolarTier(p1))
  {
  }

  /** The cooling table: only fans are LOW, only AC in most rooms is HIGH,
      everything else, unknown types included, is MEDIUM. */
  function CoolingTier(kind: CoolingType): (r: Tier)
    ensures r == Low <==> kind == Fan
    ensures r == High <==> kind == AcMost
    ensures r == Medium <==> kind in {Cooler, AcFew, UnknownCooling}
  {
    match kind
    case Fan => Low
    case Cooler => Medium
    case AcFew => Medium
    case AcMost => High
    case UnknownCooling => Medium
  }

  function BaseShoppingTier(source: ShoppingSource): Tier
  {
    match source
    case Local => Low
    case QuickCommerce => Medium
    case Supermarket => High
    case UnknownSource => Medium
  }

  /** One step down the scale; LOW stays LOW. */
  function Downgrade(t: Tier): Tier
  {
    match t
    case High => Medium
    case Medium => Low
    case Low => Low
  }

  /** Specification of the shopping tier: the source's base tier, moved down
      one step when reusable bags are used. */
  function ShoppingTier(source: ShoppingSource, reusableBags: bool): (r: Tier)
    ensures Rank(r) <= Rank(BaseShoppingTier(source))
    ensures reusableBags ==> r != High
    ensures !reusableBags ==> r == BaseShoppingTier(source)
  {
    if reusableBags then Downgrade(BaseShoppingTier(source)) else BaseShoppingTier(source)
  }

  /** The classifier as the source writes it: a switch that sets a local tier,
      then at most one of two downgrading branches. */
  method CalculateShoppingTier(source: ShoppingSource, reusableBags: bool) returns (tier: Tier)
    ensures tier == ShoppingTier(source, reusableBags)
  {
    match source {
      case Local => tier := Low;
      case QuickCommerce => tier := Medium;
      case Supermarket => tier := High;
      case UnknownSource => tier := Medium;
    }
    if reusableBags && tier == High {
      tier := Medium;
    } else if reusableBags && tier == Medium {
      tier := Low;
    }
  }

  /** Bags lower the tier by exactly one step (never two); without bags the
      base tier stands. */
  lemma ReusableBagsDowngradeOneStep(source: ShoppingSource)
    ensures Rank(ShoppingTier(source, true)) == if Rank(BaseShoppingTier(source)) == 0 then 0 else Rank(BaseShoppingTier(source)) - 1
    ensures ShoppingTier(source, false) == BaseShoppingTier(source)
    ensures ShoppingTier(Supermarket, true) == Medium
    ensures ShoppingTier(Local, true) == Low
  {
  }

  // ---------------------------------------------------------------------------
  // Score
  // ---------------------------------------------------------------------------

  /** Math.round: the nearest integer, halves rounded towards +infinity. */
  function Round(x: real): (r: int)
    ensures r as real - 0.5 <= x < r as real + 0.5
  {
    (x + 0.5).Floor
  }

  lemma RoundMonotone(x: real, y: real)
    requires x <= y
    ensures Round(x) <= Round(y)
  {
  }

  function RoundToTenth(x: real): real
  {
    Round(x * 10.0) as real / 10.0
  }

  /** Per-day emissions of each cooling type; unknown types count 1.0. */
  function CoolingEmission(kind: CoolingType): real
  {
    match kind
    case Fan => 0.5
    case Cooler => 1.0
    case AcFew => 2.0
    case AcMost => 4.0
    case UnknownCooling => 1.0
  }

  /** Per-day emissions of each shopping source; unknown sources count 1.0. */
  function ShoppingEmission(source: ShoppingSource): real
  {
    match source
    case Local => 0.5
    case QuickCommerce => 1.5
    case Supermarket => 2.0
    case UnknownSource => 1.0
  }

  /** 1/occupants, or 1 when there is no positive number of occupants. */
  function HomeMultiplier(occupants: int): real
  {
    if occupants > 0 then 1.0 / occupants as real else 1.0
  }

  /** Transport plus home: the only part of the score solar discounts. */
  function Subtotal(d: CarbonData): real
  {
    d.transport.dailyKm * 0.2 + 5.0 * HomeMultiplier(d.home.occupants)
  }

  function SolarFactor(home: HomeData): real
  {
    if home.hasSolar then 1.0 - home.solarPercentage / 100.0 else 1.0
  }

  function ShoppingTerm(shopping: ShoppingData): real
  {
    ShoppingEmission(shopping.source) * (if shopping.reusableBags then 0.8 else 1.0)
  }

  /** The unrounded score as a sum of its terms. */
  function RawScore(d: CarbonData): real
  {
    Subtotal(d) * SolarFactor(d.home) + CoolingEmission(d.cooling.kind) + ShoppingTerm(d.shopping)
  }

  /** Specification of calculateCarbonScore: the raw score rounded to one decimal. */
  function CarbonScore(d: CarbonData): (r: real)
    ensures (r * 10.0).Floor as real == r * 10.0
    ensures r - 0.05 <= RawScore(d) < r + 0.05
  {
    var k := Round(RawScore(d) * 10.0);
    assert RoundToTenth(RawScore(d)) * 10.0 == k as real;
    RoundToTenth(RawScore(d))
  }

  /** The score as the source accumulates it, one term at a time. */
  method CalculateCarbonScore(d: CarbonData) returns (result: real)
    ensures result == CarbonScore(d)
  {
    var score := 0.0;
    score := score + d.transport.dailyKm * 0.2;
    var homeMultiplier := if d.home.occupants > 0 then 1.0 / d.home.occupants as real else 1.0;
    score := score + 5.0 * homeMultiplier;
    assert score == Subtotal(d);
    if d.home.hasSolar {
      score := score * (1.0 - d.home.solarPercentage / 100.0);
    }
    assert score == Subtotal(d) * SolarFactor(d.home);
    score := score + CoolingEmission(d.cooling.kind);
    var shoppingScore := ShoppingEmission(d.shopping.source);
    if d.shopping.reusableBags {
      shoppingScore := shoppingScore * 0.8;
    }
    score := score + shoppingScore;
    assert score == RawScore(d);
    result := Round(score * 10.0) as real / 10.0;
  }

  /** With a non-negative distance and a solar share in [0, 100] the score is
      at least the smallest cooling plus shopping terms, 0.9, so never negative. */
  lemma ScoreNonNegative(d: CarbonData)
    requires d.transport.dailyKm >= 0.0
    requires 0.0 <= d.home.solarPercentage <= 100.0
    ensures CarbonScore(d) >= 0.9
  {
    var s := Subtotal(d);
    var f := SolarFactor(d.home);
    assert s >= 0.0 by {
      var o := d.home.occupants;
      if o > 0 {
        assert 1.0 / o as real > 0.0;
      }
    }
    assert 0.0 <= f <= 1.0;
    assert s * f >= 0.0;
    assert RawScore(d) >= 0.9;
    RoundMonotone(9.0, RawScore(d) * 10.0);
  }

  /** Solar discounts only transport plus home: the raw score with solar is the
      one without it, less the solar share of that subtotal. */
  lemma SolarDiscountsSubtotalOnly(d: CarbonData)
    requires d.home.hasSolar
    ensures RawScore(d) == RawScore(d.(home := d.home.(hasSolar := false)))
                            - d.home.solarPercentage / 100.0 * Subtotal(d)
  {
  }

  /** At 100% solar only the cooling and shopping terms remain. */
  lemma FullSolarLeavesCoolingAndShopping(d: CarbonData)
    requires d.home.hasSolar && d.home.solarPercentage == 100.0
    ensures CarbonScore(d) == RoundToTenth(CoolingEmission(d.cooling.kind) + ShoppingTerm(d.shopping))
  {
  }

  /** 0 km, one occupant, no solar, fan, local shopping without bags: 0 + 5 + 0.5 + 0.5. */
  lemma ScoreExample(d: CarbonData)
    requires d.transport.dailyKm == 0.0 && d.home.occupants == 1 && !d.home.hasSolar
    requires d.cooling.kind == Fan && d.shopping == ShoppingData(Local, false)
    ensures CarbonScore(d) == 6.0
  {
    assert RawScore(d) == 6.0;
    assert Round(60.0) == 60;
  }
}
