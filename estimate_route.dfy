/** The estimate endpoint (apps/tenant-insurance/app/api/estimate/route.ts):
    fills in defaults for the fields a request leaves out, rates the result
    and answers with the premium and the breakdown.

    A parsed body is a record of optional fields; a field that is absent or
    `null` is `None`, as `??` treats both alike. `Number(...)` coercion of
    non-numeric values is not modelled: the numeric fields are integers. */
module EstimateRoute {
  import opened Wrappers
  import opened Rating

  datatype EstimateBody = EstimateBody(plan: Option<string>, zip: Option<string>, state: Option<string>,
                                       propertyValue: Option<int>, building: Option<Building>,
                                       priorClaims: Option<int>, deductible: Option<Deductible>,
                                       endorsements: Option<map<Endorsement, bool>>)

  /** What `req.json()` yields: a body that does not parse, the JSON value
      `null` (reading a field of it throws), or an object. */
  datatype Payload = Malformed | NullBody | Body(body: EstimateBody)

  datatype EstimateResponse =
    | Quoted(premium: int, breakdown: Breakdown)
    | Rejected(status: int, error: string)

  const InvalidPayload: string := "Invalid payload"

  /** The rating input of a request: each field as sent, else its default. */
  function Defaulted(body: EstimateBody): (r: RatingInput)
    ensures r.plan == body.plan.GetOr("Standard")
    ensures r.zip == body.zip.GetOr("")
    ensures r.state == body.state
    ensures r.propertyValue == body.propertyValue.GetOr(25000)
    ensures r.building == body.building.GetOr(Apartment)
    ensures r.priorClaims == body.priorClaims.GetOr(0)
    ensures r.deductible == body.deductible.GetOr(D500)
    ensures r.endorsements == body.endorsements.GetOr(map[])
  {
    RatingInput(body.plan.GetOr("Standard"), body.zip.GetOr(""), body.state,
                body.propertyValue.GetOr(25000), body.building.GetOr(Apartment),
                body.priorClaims.GetOr(0), body.deductible.GetOr(D500), body.endorsements.GetOr(map[]))
  }

  /** `POST`: a body that cannot be read is answered 400 "Invalid payload";
      any object is rated, and the premium is the breakdown's total. */
  function Post(payload: Payload, adj: (int, Factor) -> int): (r: EstimateResponse)
    ensures r.Rejected? <==> !payload.Body?
    ensures r.Rejected? ==> r == Rejected(400, InvalidPayload)
    ensures r.Quoted? ==> r.breakdown == Rate(Defaulted(payload.body), adj)
    ensures r.Quoted? ==> r.premium == r.breakdown.total && r.premium >= MinimumPremium
  {
    match payload
    case Body(body) =>
      var breakdown := Rate(Defaulted(body), adj);
      Quoted(breakdown.total, breakdown)
    case _ => Rejected(400, InvalidPayload)
  }

  /** An empty object is rated as a Standard apartment worth 25000 with no
      claims, the 500 deductible and no endorsements: the base is 16 and
      no endorsement is charged. */
  lemma EmptyBody(adj: (int, Factor) -> int)
    ensures var e := EstimateBody(None, None, None, None, None, None, None, None);
      && Defaulted(e) == RatingInput("Standard", "", None, 25000, Apartment, 0, D500, map[])
      && Post(Body(e), adj).Quoted?
      && Post(Body(e), adj).breakdown.base == 16
      && Post(Body(e), adj).breakdown.claimsAdj == adj(16, ClaimsSurcharge(0))
      && Post(Body(e), adj).breakdown.endorsements == map[Jewelry := 0, Electronics := 0, IdentityTheft := 0, WaterBackup := 0]
  {
    var r := Post(Body(EstimateBody(None, None, None, None, None, None, None, None)), adj).breakdown;
    assert r.endorsements.Keys == map[Jewelry := 0, Electronics := 0, IdentityTheft := 0, WaterBackup := 0].Keys;
  }
}
