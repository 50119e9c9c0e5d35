/**
  The survey step controller (src/components/CarbonCalculator.tsx): the
  question index, the survey record and the five on-screen tiers, the
  next/back navigation, the shallow merge of a partial update followed by the
  recomputation of every tier, the progress bar and the index-to-step mapping.
 */
module CarbonCalculator {
  import opened CarbonTypes
  import CarbonTiers

  /** Line 19: five questions, indices 0 to 4; index 5 is the results screen. */
  const TotalQuestions: int := 5

  // ---------------------------------------------------------------------------
  // Navigation
  // ---------------------------------------------------------------------------

  /** handleNext's effect on the index: one step forward below 5, none at 5. */
  function NextIndex(q: int): (r: int)
    ensures 0 <= q <= TotalQuestions ==> 0 < r <= TotalQuestions
    ensures r == q + 1 || r == q
  {
    if q < TotalQuestions then q + 1 else q
  }

  /** handleBack's effect on the index: one step back above 0, none at 0. */
  function BackIndex(q: int): (r: int)
    ensures 0 <= q <= TotalQuestions ==> 0 <= r < TotalQuestions
    ensures r == q - 1 || r == q
  {
    if q > 0 then q - 1 else q
  }

  /** Inside the range, back undoes next and next undoes back. */
  lemma NextBackInverse(q: int)
    ensures 0 <= q < TotalQuestions ==> BackIndex(NextIndex(q)) == q
    ensures 0 < q <= TotalQuestions ==> NextIndex(BackIndex(q)) == q
    ensures NextIndex(TotalQuestions) == TotalQuestions && BackIndex(0) == 0
  {
  }

  /** A button press of the survey. */
  datatype Move = Next | Back

  /** The index after a sequence of presses, starting from q. */
  function Replay(q: int, moves: seq<Move>): int
    decreases |moves|
  {
    if moves == [] then q
    else
      var q' := if moves[0] == Next then NextIndex(q) else BackIndex(q);
      Replay(q', moves[1..])
  }

  /** The index stays within [0, 5] under any sequence of presses. */
  lemma {:induction false} ReplayStaysInRange(q: int, moves: seq<Move>)
    requires 0 <= q <= TotalQuestions
    ensures 0 <= Replay(q, moves) <= TotalQuestions
    decreases |moves|
  {
    if moves != [] {
      var q' := if moves[0] == Next then NextIndex(q) else BackIndex(q);
      ReplayStaysInRange(q', moves[1..]);
    }
  }

  /** n presses of next. */
  function Nexts(n: nat): (r: seq<Move>)
    ensures |r| == n && forall i :: 0 <= i < n ==> r[i] == Next
  {
    if n == 0 then [] else [Next] + Nexts(n - 1)
  }

  /** Pressing next n times from an index in range reaches min(q + n, 5). */
  lemma {:induction false} NextsReachResults(q: int, n: nat)
    requires 0 <= q <= TotalQuestions
    ensures Replay(q, Nexts(n)) == if q + n < TotalQuestions then q + n else TotalQuestions
    decreases n
  {
    if n > 0 {
      assert Nexts(n)[1..] == Nexts(n - 1);
      NextsReachResults(NextIndex(q), n - 1);
    }
  }

  // ---------------------------------------------------------------------------
  // Progress bar and steps
  // ---------------------------------------------------------------------------

  /** Line 87: the progress bar value for index q. */
  function Progress(q: int): real
  {
    (q + 1) as real / (TotalQuestions + 1) as real * 100.0
  }

  /** Progress grows strictly with the index and is 100 exactly at index 5. */
  lemma ProgressStrictlyIncreasing(q1: int, q2: int)
    requires q1 < q2
    ensures Progress(q1) < Progress(q2)
    ensures Progress(q1) == 100.0 <==> q1 == TotalQuestions
  {
    var a := (q1 + 1) as real;
    var b := (q2 + 1) as real;
    assert a / 6.0 < b / 6.0;
    if Progress(q1) == 100.0 {
      assert a / 6.0 == 1.0;
    }
  }

  /** Inside the range the bar lies between one sixth and the whole, and is
      whole only on the results screen. */
  lemma ProgressBounds(q: int)
    requires 0 <= q <= TotalQuestions
    ensures 100.0 / 6.0 <= Progress(q) <= 100.0
    ensures Progress(q) == 100.0 <==> q == TotalQuestions
  {
    assert 1.0 <= (q + 1) as real <= 6.0;
    if q < TotalQuestions {
      ProgressStrictlyIncreasing(q, TotalQuestions);
    }
  }

  /** The six screens renderQuestion can show. */
  datatype Step = TransportStep | HomeStep | SolarStep | CoolingStep | ShoppingStep | ResultsStep

  /** renderQuestion: the screen shown at index q, None for an index outside 0..5. */
  function StepAt(q: int): (r: Option<Step>)
    ensures r.Some? <==> 0 <= q <= TotalQuestions
  {
    match q
    case 0 => Some(TransportStep)
    case 1 => Some(HomeStep)
    case 2 => Some(SolarStep)
    case 3 => Some(CoolingStep)
    case 4 => Some(ShoppingStep)
    case 5 => Some(ResultsStep)
    case _ => None
  }

  /** The position of a screen in the survey. */
  function StepIndex(s: Step): nat
  {
    match s
    case TransportStep => 0
    case HomeStep => 1
    case SolarStep => 2
    case CoolingStep => 3
    case ShoppingStep => 4
    case ResultsStep => 5
  }

  /** Every index in 0..5 shows exactly one screen, each screen at exactly one
      index, and the results screen is the last. */
  lemma StepAtIndex(q: int, s: Step)
    ensures StepAt(q).Some? <==> 0 <= q <= TotalQuestions
    ensures StepAt(StepIndex(s)) == Some(s)
    ensures StepAt(q) == Some(s) ==> q == StepIndex(s)
    ensures StepAt(q) == Some(ResultsStep) <==> q == TotalQuestions
  {
    match s
    case TransportStep =>
    case HomeStep =>
    case SolarStep =>
    case CoolingStep =>
    case ShoppingStep =>
    case ResultsStep =>
  }

  // ---------------------------------------------------------------------------
  // Survey record and tiers
  // ---------------------------------------------------------------------------

  /** Lines 23-42: no mode, 10 km a day, a 2bhk home for three without solar,
      AC in a few rooms, quick-commerce shopping without bags. */
  function InitialData(): CarbonData
  {
    CarbonData(
      TransportData([], 10.0, map[]),
      HomeData(Bhk2, 3, false, 0.0),
      CoolingData(AcFew),
      ShoppingData(QuickCommerce, false))
  }

  /** Lines 44-50: every category MEDIUM except solar, HIGH. */
  function InitialTiers(): AnimationTiers
  {
    AnimationTiers(Medium, Medium, Medium, Medium, High)
  }

  /** updateAnimationTiers: each tier is its classifier applied to the record;
      solar reads the percentage only. */
  function TiersFor(d: CarbonData): AnimationTiers
  {
    AnimationTiers(
      transport := CarbonTiers.TransportTier(d.transport.dailyKm, d.transport.selectedModes),
      home := CarbonTiers.HomeTier(d.home.kind, d.home.occupants),
      cooling := CarbonTiers.CoolingTier(d.cooling.kind),
      shopping := CarbonTiers.ShoppingTier(d.shopping.source, d.shopping.reusableBags),
      solar := CarbonTiers.SolarTier(d.home.solarPercentage))
  }

  /** The initial tiers do not match the initial record: the transport tier of
      10 km without modes is LOW, not MEDIUM; the four others agree. */
  lemma InitialTiersDisagreeOnTransport()
    ensures TiersFor(InitialData()) == InitialTiers().(transport := Low)
    ensures TiersFor(InitialData()) != InitialTiers()
  {
    CarbonTiers.TransportTierBoundaries();
    assert 800.0 / 3.0 <= 500.0;
  }

  /** The solar tier, like every other tier, ignores the hasSolar switch. */
  lemma TiersIgnoreSolarSwitch(d: CarbonData, hasSolar: bool)
    ensures TiersFor(d.(home := d.home.(hasSolar := hasSolar))) == TiersFor(d)
    ensures !d.home.hasSolar && d.home.solarPercentage >= 60.0 ==> TiersFor(d).solar == Low
  {
  }

  /** Partial<CarbonData>: each category present or absent. */
  datatype Update = Update(
    transport: Option<TransportData>,
    home: Option<HomeData>,
    cooling: Option<CoolingData>,
    shopping: Option<ShoppingData>)

  /** The value an update leaves in one category. */
  function Pick<T>(current: T, update: Option<T>): T
  {
    if update.Some? then update.value else current
  }

  /** The spread merge of line 66: a category present in the update replaces
      the whole sub-record, an absent one keeps the old one. */
  function Merge(d: CarbonData, u: Update): CarbonData
  {
    CarbonData(
      Pick(d.transport, u.transport),
      Pick(d.home, u.home),
      Pick(d.cooling, u.cooling),
      Pick(d.shopping, u.shopping))
  }

  /** Categories absent from the update are unchanged, present ones replaced;
      the empty update changes nothing and merging twice is merging once. */
  lemma MergeReplacesPresentCategories(d: CarbonData, u: Update)
    ensures u.transport.None? ==> Merge(d, u).transport == d.transport
    ensures u.home.None? ==> Merge(d, u).home == d.home
    ensures u.cooling.None? ==> Merge(d, u).cooling == d.cooling
    ensures u.shopping.None? ==> Merge(d, u).shopping == d.shopping
    ensures u.transport.Some? ==> Merge(d, u).transport == u.transport.value
    ensures u.home.Some? ==> Merge(d, u).home == u.home.value
    ensures u.cooling.Some? ==> Merge(d, u).cooling == u.cooling.value
    ensures u.shopping.Some? ==> Merge(d, u).shopping == u.shopping.value
    ensures Merge(d, Update(None, None, None, None)) == d
    ensures Merge(Merge(d, u), u) == Merge(d, u)
  {
  }

  /** The later of two updates wins category by category. */
  function Then(u: Update, v: Update): Update
  {
    Update(
      if v.transport.Some? then v.transport else u.transport,
      if v.home.Some? then v.home else u.home,
      if v.cooling.Some? then v.cooling else u.cooling,
      if v.shopping.Some? then v.shopping else u.shopping)
  }

  /** Two merges in a row are one merge of the combined update. */
  lemma MergeThen(d: CarbonData, u: Update, v: Update)
    ensures Merge(Merge(d, u), v) == Merge(d, Then(u, v))
  {
  }

  /** Only the tiers of the categories an update touches can change; a home
      update can change both the home and the solar tier. */
  lemma MergeTierLocality(d: CarbonData, u: Update)
    ensures var t, t' := TiersFor(d), TiersFor(Merge(d, u));
      && (u.transport.None? ==> t'.transport == t.transport)
      && (u.home.None? ==> t'.home == t.home && t'.solar == t.solar)
      && (u.cooling.None? ==> t'.cooling == t.cooling)
      && (u.shopping.None? ==> t'.shopping == t.shopping)
  {
  }

  // The updates the five question screens send (lines 97, 105, 114-118, 126, 135-136).

  function TransportChange(transport: TransportData): Update
  {
    Update(Some(transport), None, None, None)
  }

  function HomeChange(home: HomeData): Update
  {
    Update(None, Some(home), None, None)
  }

  /** Lines 114-118: the solar screen copies the current home record and
      rewrites only the switch and the percentage. */
  function SolarChange(current: HomeData, hasSolar: bool, solarPercentage: real): Update
  {
    Update(None, Some(current.(hasSolar := hasSolar, solarPercentage := solarPercentage)), None, None)
  }

  function CoolingChange(kind: CoolingType): Update
  {
    Update(None, None, Some(CoolingData(kind)), None)
  }

  function ShoppingChange(source: ShoppingSource, reusableBags: bool): Update
  {
    Update(None, None, None, Some(ShoppingData(source, reusableBags)))
  }

  /** The solar answer keeps the home type and occupants and every other
      category, and of the tiers it can change only the solar one. */
  lemma SolarChangeKeepsHome(d: CarbonData, hasSolar: bool, solarPercentage: real)
    ensures var r := Merge(d, SolarChange(d.home, hasSolar, solarPercentage));
      && r.home.kind == d.home.kind && r.home.occupants == d.home.occupants
      && r.home.hasSolar == hasSolar && r.home.solarPercentage == solarPercentage
      && r.transport == d.transport && r.cooling == d.cooling && r.shopping == d.shopping
      && TiersFor(r) == TiersFor(d).(solar := CarbonTiers.SolarTier(solarPercentage))
  {
  }

  /** Each of the other screens replaces its own category and, of the tiers,
      can change only its own. */
  lemma ScreenChangesAreLocal(d: CarbonData, transport: TransportData, home: HomeData,
                              kind: CoolingType, source: ShoppingSource, reusableBags: bool)
    ensures var r := Merge(d, TransportChange(transport));
      r == d.(transport := transport) && TiersFor(r) == TiersFor(d).(transport := TiersFor(r).transport)
    ensures var r := Merge(d, HomeChange(home));
      r == d.(home := home)
      && TiersFor(r) == TiersFor(d).(home := CarbonTiers.HomeTier(home.kind, home.occupants),
                                     solar := CarbonTiers.SolarTier(home.solarPercentage))
    ensures var r := Merge(d, CoolingChange(kind));
      r == d.(cooling := CoolingData(kind)) && TiersFor(r) == TiersFor(d).(cooling := CarbonTiers.CoolingTier(kind))
    ensures var r := Merge(d, ShoppingChange(source, reusableBags));
      r == d.(shopping := ShoppingData(source, reusableBags))
      && TiersFor(r) == TiersFor(d).(shopping := CarbonTiers.ShoppingTier(source, reusableBags))
  {
  }

  // ---------------------------------------------------------------------------
  // The component's state
  // ---------------------------------------------------------------------------

  class Calculator {
    var currentQuestion: int
    var carbonData: CarbonData
    var animationTiers: AnimationTiers

    /** The index is always a screen of the survey. */
    predicate Valid()
      reads this
    {
      0 <= currentQuestion <= TotalQuestions
    }

    /** The tiers on screen are those of the current record. */
    predicate Consistent()
      reads this
    {
      animationTiers == TiersFor(carbonData)
    }

    /** Lines 22-50: the first question, the default record and the default
        tiers, which are not yet consistent with the record. */
    constructor ()
      ensures Valid() && !Consistent()
      ensures currentQuestion == 0 && carbonData == InitialData() && animationTiers == InitialTiers()
    {
      currentQuestion := 0;
      carbonData := InitialData();
      animationTiers := InitialTiers();
      InitialTiersDisagreeOnTransport();
    }

    /** Lines 52-62: recompute all five tiers from newData. */
    method UpdateAnimationTiers(newData: CarbonData)
      modifies this
      ensures animationTiers == TiersFor(newData)
      ensures currentQuestion == old(currentQuestion) && carbonData == old(carbonData)
    {
      var shopping := CarbonTiers.CalculateShoppingTier(newData.shopping.source, newData.shopping.reusableBags);
      animationTiers := AnimationTiers(
        transport := CarbonTiers.TransportTier(newData.transport.dailyKm, newData.transport.selectedModes),
        home := CarbonTiers.HomeTier(newData.home.kind, newData.home.occupants),
        cooling := CarbonTiers.CoolingTier(newData.cooling.kind),
        shopping := shopping,
        solar := CarbonTiers.SolarTier(newData.home.solarPercentage));
    }

    /** Lines 64-70: merge the update into the record and recompute the tiers,
        which are consistent with the record from then on. */
    method UpdateCarbonData(updates: Update)
      requires Valid()
      modifies this
      ensures Valid() && Consistent()
      ensures carbonData == Merge(old(carbonData), updates)
      ensures currentQuestion == old(currentQuestion)
    {
      var newData := Merge(carbonData, updates);
      UpdateAnimationTiers(newData);
      carbonData := newData;
    }

    /** Lines 72-79: below the results screen move forward; on it, stay and
        report the score of the current record. */
    method HandleNext() returns (completion: Option<real>)
      requires Valid()
      modifies this
      ensures Valid()
      ensures currentQuestion == NextIndex(old(currentQuestion))
      ensures completion.Some? <==> old(currentQuestion) == TotalQuestions
      ensures completion.Some? ==> completion.value == CarbonTiers.CarbonScore(carbonData)
      ensures carbonData == old(carbonData) && animationTiers == old(animationTiers)
    {
      if currentQuestion < TotalQuestions {
        currentQuestion := currentQuestion + 1;
        completion := None;
      } else {
        var score := CarbonTiers.CalculateCarbonScore(carbonData);
        completion := Some(score);
      }
    }

    /** Lines 81-85: move back unless on the first question. */
    method HandleBack()
      requires Valid()
      modifies this
      ensures Valid()
      ensures currentQuestion == BackIndex(old(currentQuestion))
      ensures carbonData == old(carbonData) && animationTiers == old(animationTiers)
    {
      if currentQuestion > 0 {
        currentQuestion := currentQuestion - 1;
      }
    }

    /** Line 87: the progress bar of the current index. */
    function CurrentProgress(): (p: real)
      reads this
      requires Valid()
      ensures 100.0 / 6.0 <= p <= 100.0
      ensures p == 100.0 <==> currentQuestion == TotalQuestions
    {
      ProgressBounds(currentQuestion);
      Progress(currentQuestion)
    }

    /** Lines 90-150: the screen for the current index. */
    function CurrentStep(): (s: Step)
      reads this
      requires Valid()
      ensures StepAt(currentQuestion) == Some(s) && StepIndex(s) == currentQuestion
    {
      StepAtIndex(currentQuestion, TransportStep);
      var s := StepAt(currentQuestion).value;
      StepAtIndex(currentQuestion, s);
      s
    }
  }
}
