/** The rating engine of the tenant-insurance demo
    (apps/tenant-insurance/lib/rating.ts): a monthly premium built from a
    plan base, five rounded adjustments, four flat-rate endorsements and a
    floor of 8.

    The adjustments multiply the base by a floating-point factor and round
    the product with `Math.round`. Their exact values depend on double
    arithmetic, so the model names each factor symbolically and takes the
    rounding as a parameter `adj`: `adj(base, f)` is what `Math.round`
    returns for that base and factor. What the model proves holds for every
    such rounding, and the zero adjustments hold for every rounding that
    sends an exactly neutral factor to 0. */
module Rating {
  import opened Wrappers

  datatype Building = Apartment | House | Condo
  datatype Deductible = D250 | D500 | D1000
  datatype Endorsement = Jewelry | Electronics | IdentityTheft | WaterBackup

  /** The order of `Object.keys(endorsementRates)`. */
  const EndorsementKeys: seq<Endorsement> := [Jewelry, Electronics, IdentityTheft, WaterBackup]

  /** The floor of every premium. */
  const MinimumPremium: int := 8

  /** The zip risk band: a zip starting with '9' is dearer (factor 1.15),
      one starting with '1' cheaper (0.93), any other neutral (1.0). */
  datatype ZipBand = HighRisk | LowRisk | NeutralBand

  /** The factor of each adjustment, by what `rate` derives it from:
      - `ZipRisk`: the band's factor;
      - `PropertyShare(v)`: `1 + v / 100000`, where `v` is already capped
        at the value where the factor reaches its cap of 1.6;
      - `BuildingFactor`: 0.98, 1.08 and 1.0 for apartment, house, condo;
      - `ClaimsSurcharge(n)`: `0.08 * n`, n capped at 3;
      - `DeductibleCredit`: 1.1, 1.0 and 0.9 for 250, 500, 1000. */
  datatype Factor =
    | ZipRisk(band: ZipBand)
    | PropertyShare(value: int)
    | BuildingFactor(building: Building)
    | ClaimsSurcharge(claims: int)
    | DeductibleCredit(deductible: Deductible)

  /** The property value from which the factor `1 + v / 100000` is capped
      at 1.6. */
  const PropertyCapValue: int := 60000
  /** The number of prior claims from which the surcharge stops growing. */
  const ClaimsCap: int := 3

  /** A rounding that gives 0 for every factor that is exactly neutral:
      `base * (1.0 - 1)`, `base * (1 + 0 / 100000 - 1)` and
      `base * 0.08 * 0` are all exactly 0 in doubles. */
  ghost predicate NeutralRounding(adj: (int, Factor) -> int) {
    && (forall b :: adj(b, ZipRisk(NeutralBand)) == 0)
    && (forall b :: adj(b, PropertyShare(0)) == 0)
    && (forall b :: adj(b, BuildingFactor(Condo)) == 0)
    && (forall b :: adj(b, ClaimsSurcharge(0)) == 0)
    && (forall b :: adj(b, DeductibleCredit(D500)) == 0)
  }

  /** `RatingInput`. `state` is carried along but not rated. */
  datatype RatingInput = RatingInput(plan: string, zip: string, state: Option<string>, propertyValue: int,
                                     building: Building, priorClaims: int, deductible: Deductible,
                                     endorsements: map<Endorsement, bool>)

  /** `RatingBreakdown` */
  datatype Breakdown = Breakdown(base: int, riskZip: int, propertyAdj: int, buildingAdj: int, claimsAdj: int,
                                 deductibleAdj: int, endorsements: map<Endorsement, int>, total: int)

  function Min(a: int, b: int): int { if a <= b then a else b }
  function Max(a: int, b: int): int { if a >= b then a else b }

  /** The plan base: "Plus" 24, "Standard" 16, anything else 10. */
  function Base(plan: string): (b: int)
    ensures plan == "Plus" <==> b == 24
    ensures plan == "Standard" <==> b == 16
    ensures plan != "Plus" && plan != "Standard" <==> b == 10
  {
    if plan == "Plus" then 24 else if plan == "Standard" then 16 else 10
  }

  /** `/^9/` and `/^1/` look at the first character only. */
  function ZipBandOf(zip: string): (z: ZipBand)
    ensures z == HighRisk <==> |zip| > 0 && zip[0] == '9'
    ensures z == LowRisk <==> |zip| > 0 && zip[0] == '1'
  {
    if |zip| > 0 && zip[0] == '9' then HighRisk
    else if |zip| > 0 && zip[0] == '1' then LowRisk
    else NeutralBand
  }

  function EndorsementRate(k: Endorsement): int {
    match k
    case Jewelry => 6
    case Electronics => 4
    case IdentityTheft => 3
    case WaterBackup => 5
  }

  /** `endorsements[k] ? endorsementRates[k] : 0`; a key left out of the
      partial record is not selected. */
  predicate Selected(sel: map<Endorsement, bool>, k: Endorsement) {
    k in sel && sel[k]
  }

  function Charge(sel: map<Endorsement, bool>, k: Endorsement): int {
    if Selected(sel, k) then EndorsementRate(k) else 0
  }

  /** The charges of the first `n` keys summed from the left, as the
      `reduce` over `Object.values` does. */
  function ChargeSum(sel: map<Endorsement, bool>, n: nat): int
    requires n <= |EndorsementKeys|
  {
    if n == 0 then 0 else ChargeSum(sel, n - 1) + Charge(sel, EndorsementKeys[n - 1])
  }

  function EndorsementTotal(sel: map<Endorsement, bool>): int {
    ChargeSum(sel, |EndorsementKeys|)
  }

  /** The sum of the endorsement charges is the rates of the selected keys:
      jewelry 6, electronics 4, identity theft 3, water backup 5. */
  lemma {:induction false} EndorsementTotalSpec(sel: map<Endorsement, bool>)
    ensures EndorsementTotal(sel) ==
              (if Selected(sel, Jewelry) then 6 else 0) + (if Selected(sel, Electronics) then 4 else 0)
              + (if Selected(sel, IdentityTheft) then 3 else 0) + (if Selected(sel, WaterBackup) then 5 else 0)
    ensures 0 <= EndorsementTotal(sel) <= 18
  {
    assert ChargeSum(sel, 1) == Charge(sel, Jewelry);
    assert ChargeSum(sel, 2) == ChargeSum(sel, 1) + Charge(sel, Electronics);
    assert ChargeSum(sel, 3) == ChargeSum(sel, 2) + Charge(sel, IdentityTheft);
    assert ChargeSum(sel, 4) == ChargeSum(sel, 3) + Charge(sel, WaterBackup);
  }

  /** The base plus the five adjustments, before the endorsements. */
  function Subtotal(r: Breakdown): int {
    r.base + r.riskZip + r.propertyAdj + r.buildingAdj + r.claimsAdj + r.deductibleAdj
  }

  /** `rate`. */
  function Rate(input: RatingInput, adj: (int, Factor) -> int): (r: Breakdown)
    ensures r.base == Base(input.plan)
    ensures r.riskZip == adj(r.base, ZipRisk(ZipBandOf(input.zip)))
    ensures r.propertyAdj == adj(r.base, PropertyShare(Min(input.propertyValue, PropertyCapValue)))
    ensures r.buildingAdj == adj(r.base, BuildingFactor(input.building))
    ensures r.claimsAdj == adj(r.base, ClaimsSurcharge(Min(input.priorClaims, ClaimsCap)))
    ensures r.deductibleAdj == adj(r.base, DeductibleCredit(input.deductible))
    ensures r.endorsements.Keys == {Jewelry, Electronics, IdentityTheft, WaterBackup}
    ensures forall k :: k in r.endorsements ==> r.endorsements[k] == Charge(input.endorsements, k)
    ensures r.total >= MinimumPremium
    ensures r.total >= Subtotal(r) + EndorsementTotal(input.endorsements)
    ensures r.total == MinimumPremium || r.total == Subtotal(r) + EndorsementTotal(input.endorsements)
  {
    var base := Base(input.plan);
    var riskZip := adj(base, ZipRisk(ZipBandOf(input.zip)));
    var propertyAdj := adj(base, PropertyShare(Min(input.propertyValue, PropertyCapValue)));
    var buildingAdj := adj(base, BuildingFactor(input.building));
    var claimsAdj := adj(base, ClaimsSurcharge(Min(input.priorClaims, ClaimsCap)));
    var deductibleAdj := adj(base, DeductibleCredit(input.deductible));
    var charges := map k | k in EndorsementKeys :: Charge(input.endorsements, k);
    var subtotal := base + riskZip + propertyAdj + buildingAdj + claimsAdj + deductibleAdj;
    Breakdown(base, riskZip, propertyAdj, buildingAdj, claimsAdj, deductibleAdj, charges,
              Max(MinimumPremium, subtotal + EndorsementTotal(input.endorsements)))
  }

  /** The premium is the floor or the sum of all the breakdown's parts, the
      selected endorsements at their fixed rates. */
  lemma RateTotal(input: RatingInput, adj: (int, Factor) -> int)
    ensures var r := Rate(input, adj);
      r.total == Max(MinimumPremium, Subtotal(r)
                     + (if Selected(input.endorsements, Jewelry) then 6 else 0)
                     + (if Selected(input.endorsements, Electronics) then 4 else 0)
                     + (if Selected(input.endorsements, IdentityTheft) then 3 else 0)
                     + (if Selected(input.endorsements, WaterBackup) then 5 else 0))
  {
    EndorsementTotalSpec(input.endorsements);
  }

  function WithEndorsement(input: RatingInput, k: Endorsement): RatingInput {
    input.(endorsements := input.endorsements[k := true])
  }

  /** Selecting one more endorsement leaves every adjustment as it was,
      never lowers the premium, and raises it by exactly that endorsement's
      rate when the premium was above the floor. */
  lemma {:induction false} AddEndorsement(input: RatingInput, adj: (int, Factor) -> int, k: Endorsement)
    requires !Selected(input.endorsements, k)
    ensures var r, r' := Rate(input, adj), Rate(WithEndorsement(input, k), adj);
      && Subtotal(r') == Subtotal(r)
      && r'.endorsements == r.endorsements[k := EndorsementRate(k)]
      && r.total <= r'.total <= r.total + EndorsementRate(k)
      && (r.total > MinimumPremium ==> r'.total == r.total + EndorsementRate(k))
  {
    var sel, sel' := input.endorsements, WithEndorsement(input, k).endorsements;
    EndorsementTotalSpec(sel);
    EndorsementTotalSpec(sel');
    var r, r' := Rate(input, adj), Rate(WithEndorsement(input, k), adj);
    assert r'.endorsements.Keys == r.endorsements[k := EndorsementRate(k)].Keys;
  }

  /** Prior claims beyond 3 cost no more than 3 do. */
  lemma ClaimsSaturate(input: RatingInput, adj: (int, Factor) -> int)
    requires input.priorClaims >= ClaimsCap
    ensures Rate(input, adj) == Rate(input.(priorClaims := ClaimsCap), adj)
  {
  }

  /** From a property value of 60000 the property factor is at its cap, so
      greater values rate the same. */
  lemma PropertyCap(input: RatingInput, adj: (int, Factor) -> int, value: int)
    requires input.propertyValue >= PropertyCapValue && value >= PropertyCapValue
    ensures Rate(input, adj) == Rate(input.(propertyValue := value), adj)
  {
  }

  /** Each adjustment depends on its own input alone: a neutral zip, a
      property value of 0, a condo, no prior claims and the 500 deductible
      each make their own adjustment 0, whatever the other inputs are; with
      all five the premium is the base with the endorsements, floored. */
  lemma NeutralAdjustments(input: RatingInput, adj: (int, Factor) -> int)
    requires NeutralRounding(adj)
    ensures ZipBandOf(input.zip) == NeutralBand ==> Rate(input, adj).riskZip == 0
    ensures input.propertyValue == 0 ==> Rate(input, adj).propertyAdj == 0
    ensures input.building == Condo ==> Rate(input, adj).buildingAdj == 0
    ensures input.priorClaims == 0 ==> Rate(input, adj).claimsAdj == 0
    ensures input.deductible == D500 ==> Rate(input, adj).deductibleAdj == 0
    ensures ZipBandOf(input.zip) == NeutralBand && input.propertyValue == 0 && input.building == Condo
            && input.priorClaims == 0 && input.deductible == D500 ==>
              Rate(input, adj).total == Max(MinimumPremium, Rate(input, adj).base + EndorsementTotal(input.endorsements))
  {
    var b := Base(input.plan);
    assert adj(b, ZipRisk(NeutralBand)) == 0;
  }
}
