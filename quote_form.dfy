/** The quick-quote form (apps/tenant-insurance/components/quote-form.tsx):
    a local premium estimate, the digit-only input fields, and the submit
    step that prefers the server's premium and stops the demo timer.

    The estimate rounds a floating-point product; as in `Rating`, the
    rounding is a parameter `round(base, band, v)`: what
    `Math.round(base * risk * Math.min(1 + v / 100000, 1.5))` returns. */
module QuoteForm {
  import opened Wrappers
  import opened Text
  import opened Rating
  import TaskStore

  /** The property value from which `1 + v / 100000` reaches its cap 1.5. */
  const EstimateCapValue: int := 50000

  /** `estimateMonthlyPremium`: the same plan bases as `rate`, never below 8. */
  function EstimatePremium(propertyValue: int, zip: string, plan: string, round: (int, ZipBand, int) -> int): (p: int)
    ensures p >= MinimumPremium
    ensures p == MinimumPremium || p == round(Base(plan), ZipBandOf(zip), Min(propertyValue, EstimateCapValue))
  {
    Max(MinimumPremium, round(Base(plan), ZipBandOf(zip), Min(propertyValue, EstimateCapValue)))
  }

  /** Above 50000 the property value no longer changes the estimate. */
  lemma EstimateCap(zip: string, plan: string, round: (int, ZipBand, int) -> int, v: int, w: int)
    requires v >= EstimateCapValue && w >= EstimateCapValue
    ensures EstimatePremium(v, zip, plan, round) == EstimatePremium(w, zip, plan, round)
  {
  }

  /** `value.replace(/[^0-9]/g, "")`: the ASCII digits of the text, in order. */
  function DigitsOnly(s: string): (r: string)
    ensures AllDigits(r) && |r| <= |s|
    decreases |s|
  {
    if s == [] then []
    else DigitsOnly(s[..|s| - 1]) + (if AsciiDigit(s[|s| - 1]) then [s[|s| - 1]] else [])
  }

  /** Filtering distributes over concatenation: every digit is kept, in
      order, and nothing else is. */
  lemma {:induction false} DigitsOnlyAppend(a: string, b: string)
    ensures DigitsOnly(a + b) == DigitsOnly(a) + DigitsOnly(b)
    decreases |b|
  {
    if b == [] {
      assert a + b == a;
    } else {
      var b' := b[..|b| - 1];
      assert (a + b)[..|a + b| - 1] == a + b';
      assert (a + b)[|a + b| - 1] == b[|b| - 1];
      DigitsOnlyAppend(a, b');
    }
  }

  /** A text of digits only is kept whole, so filtering twice is filtering
      once. */
  lemma {:induction false} DigitsOnlyOfDigits(s: string)
    requires AllDigits(s)
    ensures DigitsOnly(s) == s
    decreases |s|
  {
    if s != [] {
      DigitsOnlyOfDigits(s[..|s| - 1]);
      assert s == s[..|s| - 1] + [s[|s| - 1]];
    }
  }

  lemma DigitsOnlyIdempotent(s: string)
    ensures DigitsOnly(DigitsOnly(s)) == DigitsOnly(s)
  {
    DigitsOnlyOfDigits(DigitsOnly(s));
  }

  /** The property field: `Number(digits) || 0`. The digits always read as a
      number, and the empty text reads as 0, so `|| 0` only keeps 0. */
  function PropertyInput(raw: string): nat {
    ParseDigits(DigitsOnly(raw))
  }

  /** Typing a numeral gives its value; typing no digit at all gives 0. */
  lemma PropertyInputSpec(n: nat, raw: string)
    ensures PropertyInput(NatToString(n)) == n
    ensures DigitsOnly(raw) == [] ==> PropertyInput(raw) == 0
  {
    DigitsOnlyOfDigits(NatToString(n));
    ParseNatToString(n);
  }

  /** What the estimate request came back with: the fetch or the JSON
      decoding threw, or a JSON object with or without a `premium`. */
  datatype SubmitResponse = SubmitFailed | Answered(premium: Option<int>)

  datatype Toast = Sent(email: string, plan: string, quote: int) | CouldNotSubmit

  /** The form's state cells. */
  class Form {
    var plan: string
    var zip: string
    var propertyValue: nat
    var email: string

    constructor (initialPlan: string)
      ensures plan == initialPlan && zip == "" && propertyValue == 25000 && email == ""
    {
      plan, zip, propertyValue, email := initialPlan, "", 25000, "";
    }

    /** The zip field keeps the digits typed. */
    method SetZip(raw: string)
      modifies this
      ensures zip == DigitsOnly(raw) && AllDigits(zip)
      ensures plan == old(plan) && propertyValue == old(propertyValue) && email == old(email)
    {
      zip := DigitsOnly(raw);
    }

    /** The property field keeps the value of the digits typed. */
    method SetPropertyValue(raw: string)
      modifies this
      ensures propertyValue == PropertyInput(raw)
      ensures plan == old(plan) && zip == old(zip) && email == old(email)
    {
      propertyValue := PropertyInput(raw);
    }

    /** `onSubmit`: a premium in the answer is the quote, else the local
        estimate; a successful answer stops the demo timer, a failed one
        leaves it alone. An answer without a premium, such as the 400 of a
        rejected body, still counts as success. */
    method Submit(response: SubmitResponse, store: TaskStore.Store, now: int, round: (int, ZipBand, int) -> int)
      returns (toast: Toast)
      requires store.Valid()
      modifies store
      ensures store.Valid()
      ensures response.SubmitFailed? <==> toast == CouldNotSubmit
      ensures response.SubmitFailed? ==> store.State() == old(store.State())
      ensures response.Answered? ==>
                && toast == Sent(email, plan, response.premium.GetOr(EstimatePremium(propertyValue, zip, plan, round)))
                && store.State() == TaskStore.Stopped(old(store.State()), None, now)
    {
      var premium := EstimatePremium(propertyValue, zip, plan, round);
      if response.SubmitFailed? {
        return CouldNotSubmit;
      }
      var quote := response.premium.GetOr(premium);
      toast := Sent(email, plan, quote);
      store.Stop(None, now);
    }
  }
}
