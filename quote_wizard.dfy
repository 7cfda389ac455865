/** The quote wizard (apps/tenant-insurance/app/quote/wizard/page.tsx): the
    validation schema of its form, the plan parameter guard, and the four
    step machine that requests an estimate on entering the review step. */
module QuoteWizard {
  import opened Wrappers
  import opened Text
  import opened Rating

  const Steps: seq<string> := ["About you", "Location", "Coverage", "Review"]
  const Plans: seq<string> := ["Essential", "Standard", "Plus"]
  const BuildingTypes: seq<string> := ["apartment", "house", "condo"]
  const Deductibles: seq<int> := [250, 500, 1000]

  /** The raw form values, before the schema checks them. */
  datatype FormInput = FormInput(plan: string, firstName: string, lastName: string, email: string,
                                 zip: string, state: string, buildingType: string, propertyValue: int,
                                 priorClaims: int, deductible: int,
                                 jewelry: bool, electronics: bool, identityTheft: bool, waterBackup: bool)

  datatype Field = PlanField | FirstName | LastName | Email | Zip | State | BuildingType
                 | PropertyValue | PriorClaims | DeductibleField

  /** `^\d{5}$`: exactly five ASCII digits. */
  predicate FiveDigits(s: string) {
    |s| == 5 && AllDigits(s)
  }

  const AllFields: set<Field> := {PlanField, FirstName, LastName, Email, Zip, State, BuildingType,
                                   PropertyValue, PriorClaims, DeductibleField}

  /** The rule of each field of the schema, broken. */
  predicate Rejects(v: FormInput, f: Field, isEmail: string -> bool) {
    match f
    case PlanField => v.plan !in Plans
    case FirstName => |v.firstName| < 1
    case LastName => |v.lastName| < 1
    case Email => !isEmail(v.email)
    case Zip => !FiveDigits(v.zip)
    case State => Utf16Length(v.state) != 2
    case BuildingType => v.buildingType !in BuildingTypes
    case PropertyValue => !(5000 <= v.propertyValue <= 250000)
    case PriorClaims => !(0 <= v.priorClaims <= 5)
    case DeductibleField => v.deductible !in Deductibles
  }

  /** The fields the schema rejects. Address checking belongs to the schema
      library and is the parameter `isEmail`. */
  function Issues(v: FormInput, isEmail: string -> bool): (r: set<Field>)
    ensures PlanField in r <==> v.plan !in Plans
    ensures FirstName in r <==> v.firstName == ""
    ensures LastName in r <==> v.lastName == ""
    ensures Email in r <==> !isEmail(v.email)
    ensures Zip in r <==> !FiveDigits(v.zip)
    ensures State in r <==> Utf16Length(v.state) != 2
    ensures BuildingType in r <==> v.buildingType !in BuildingTypes
    ensures PropertyValue in r <==> !(5000 <= v.propertyValue <= 250000)
    ensures PriorClaims in r <==> !(0 <= v.priorClaims <= 5)
    ensures DeductibleField in r <==> v.deductible !in Deductibles
  {
    set f | f in AllFields && Rejects(v, f, isEmail)
  }

  /** Parsing with the schema: the values with the state upper-cased when
      nothing is rejected, else the rejected fields. */
  function Parse(v: FormInput, isEmail: string -> bool): (r: Result<FormInput, set<Field>>)
    ensures r.Err? <==> Issues(v, isEmail) != {}
    ensures r.Err? ==> r.error == Issues(v, isEmail)
  {
    var issues := Issues(v, isEmail);
    if issues == {} then Ok(v.(state := UpperAll(v.state))) else Err(issues)
  }

  /** Accepted values meet every rule of the schema, and the state is two
      UTF-16 code units (two characters, or one beyond the Basic
      Multilingual Plane) with no lower-case letter left. */
  lemma ParseAccepted(v: FormInput, isEmail: string -> bool)
    requires Parse(v, isEmail).Ok?
    ensures var p := Parse(v, isEmail).value;
      && p.plan in Plans && |p.firstName| >= 1 && |p.lastName| >= 1 && isEmail(p.email)
      && FiveDigits(p.zip) && Utf16Length(p.state) == 2 && 1 <= |p.state| <= 2
      && (forall i :: 0 <= i < |p.state| ==> !AsciiLowerLetter(p.state[i]))
      && p.buildingType in BuildingTypes
      && 5000 <= p.propertyValue <= 250000 && 0 <= p.priorClaims <= 5 && p.deductible in Deductibles
      && p.(state := v.state) == v
  {
    var issues := Issues(v, isEmail);
    assert PlanField !in issues && Zip !in issues && State !in issues;
    UpperAllUtf16Length(v.state);
  }

  /** The form's default values, with the plan that opened the wizard. */
  function Defaults(plan: string): FormInput {
    FormInput(plan, "", "", "", "", "CA", "apartment", 25000, 0, 500, false, false, false, false)
  }

  /** The defaults are rejected for the empty names and zip and for nothing
      the defaults fill in. */
  lemma DefaultsRejected(plan: string, isEmail: string -> bool)
    requires plan in Plans
    ensures var r := Issues(Defaults(plan), isEmail);
      && {FirstName, LastName, Zip} <= r
      && r <= {FirstName, LastName, Zip, Email}
  {
    assert "apartment" in BuildingTypes;
    assert 500 in Deductibles;
  }

  /** The plan search parameter sends the visitor back to "/plans" when it
      is missing, empty or not a plan. */
  predicate RedirectsToPlans(planParam: Option<string>) {
    planParam.None? || planParam.value == "" || planParam.value !in Plans
  }

  /** `initialPlan ?? "Standard"`, where an empty parameter counts as none. */
  function InitialPlan(planParam: Option<string>): string {
    if planParam.Some? && planParam.value != "" then planParam.value else "Standard"
  }

  /** A wizard that stays has a valid plan preselected: the one asked for. */
  lemma InitialPlanValid(planParam: Option<string>)
    ensures !RedirectsToPlans(planParam) ==> InitialPlan(planParam) == planParam.value && InitialPlan(planParam) in Plans
    ensures InitialPlan(planParam) !in Plans ==> RedirectsToPlans(planParam)
  {
  }

  /** `((step + 1) / steps.length) * 100`; quarters are exact in doubles. */
  function Progress(step: int): (p: int)
    requires 0 <= step < |Steps|
    ensures p == 25 * (step + 1)
    ensures 25 <= p <= 100
  {
    (step + 1) * 100 / |Steps|
  }

  /** The estimate the wizard keeps: the endpoint's premium and breakdown. */
  datatype Quote = Quote(premium: int, breakdown: Breakdown)

  class Wizard {
    var step: int
    var quote: Option<Quote>

    predicate Valid()
      reads this
    {
      0 <= step < |Steps|
    }

    constructor ()
      ensures Valid() && step == 0 && quote == None
    {
      step, quote := 0, None;
    }

    /** `next`, with the estimate it would await as the parameter: advances
        unless at the review step, and requests the estimate exactly when
        leaving the coverage step. */
    method Next(estimate: Quote) returns (requested: bool)
      requires Valid()
      modifies this
      ensures Valid()
      ensures step == if old(step) < |Steps| - 1 then old(step) + 1 else old(step)
      ensures requested <==> old(step) == |Steps| - 2
      ensures quote == if requested then Some(estimate) else old(quote)
    {
      var current := step;
      if current < |Steps| - 1 {
        step := current + 1;
      }
      requested := current == |Steps| - 2;
      if requested {
        quote := Some(estimate);
      }
    }

    /** `prev`: back one step unless at the first. */
    method Prev()
      requires Valid()
      modifies this
      ensures Valid()
      ensures step == if old(step) > 0 then old(step) - 1 else old(step)
      ensures quote == old(quote)
    {
      if step > 0 {
        step := step - 1;
      }
    }
  }
}
