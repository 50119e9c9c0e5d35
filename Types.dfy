/**
  The survey record and the tier labels shared by every part of the calculator
  (src/types/carbonCalculator.ts).
 */
module CarbonTypes {

  /** AnimationState: the three-level impact label, LOW being the least costly. */
  datatype Tier = Low | Medium | High

  /** Position of a tier on the LOW < MEDIUM < HIGH scale. */
  function Rank(t: Tier): nat
  {
    match t
    case Low => 0
    case Medium => 1
    case High => 2
  }

  /** Home types known to the classifier; any other identifier is UnknownHome. */
  datatype HomeType = Rk1 | Bhk1 | Bhk2 | Bhk3 | Villa | UnknownHome

  /** Cooling types; an identifier outside the four known ones is UnknownCooling. */
  datatype CoolingType = Fan | Cooler | AcFew | AcMost | UnknownCooling

  /** Where groceries are bought; an identifier outside the three known ones is UnknownSource. */
  datatype ShoppingSource = Local | QuickCommerce | Supermarket | UnknownSource

  /** Transport answers: the selected mode ids in selection order, the daily
      distance in km and the percentage of that distance per mode. */
  datatype TransportData = TransportData(
    selectedModes: seq<string>,
    dailyKm: real,
    modeDistribution: map<string, real>)

  datatype HomeData = HomeData(
    kind: HomeType,
    occupants: int,
    hasSolar: bool,
    solarPercentage: real)

  datatype CoolingData = CoolingData(kind: CoolingType)

  datatype ShoppingData = ShoppingData(source: ShoppingSource, reusableBags: bool)

  /** CarbonData: the whole survey record, one sub-record per category. */
  datatype CarbonData = CarbonData(
    transport: TransportData,
    home: HomeData,
    cooling: CoolingData,
    shopping: ShoppingData)

  /** AnimationTiers: one tier per category shown on screen. */
  datatype AnimationTiers = AnimationTiers(
    transport: Tier,
    home: Tier,
    cooling: Tier,
    shopping: Tier,
    solar: Tier)

  datatype Option<T> = None | Some(value: T)
}
