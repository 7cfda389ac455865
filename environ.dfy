/** The process environment as the Python scripts read it: `os.getenv` and the
    `a or b` fallback chains in which an empty string counts as missing. */
module Environ {
  import opened Wrappers

  type Env = map<string, string>

  /** `os.getenv(name)` */
  function Getenv(env: Env, name: string): Option<string> {
    if name in env then Some(env[name]) else None
  }

  /** `os.getenv(name, default)`: the default replaces only a missing variable,
      not an empty one. */
  function GetenvOr(env: Env, name: string, default: string): string {
    if name in env then env[name] else default
  }

  /** Truthiness of an optional string, the same in Python and in
      JavaScript: present and non-empty. */
  predicate Truthy(o: Option<string>) {
    o.Some? && o.value != ""
  }

  /** `a or b` on optional strings. */
  function Or(a: Option<string>, b: Option<string>): Option<string> {
    if Truthy(a) then a else b
  }

  /** `a or b or ... or default`: the first truthy candidate, else the default. */
  function FirstTruthy(candidates: seq<Option<string>>, default: string): (r: string)
    ensures r == default || exists i :: 0 <= i < |candidates| && Truthy(candidates[i]) && r == candidates[i].value
    decreases |candidates|
  {
    if candidates == [] then default
    else if Truthy(candidates[0]) then candidates[0].value
    else FirstTruthy(candidates[1..], default)
  }

  /** The chain picks the earliest truthy candidate; when none is truthy it
      picks the default. */
  lemma {:induction false} FirstTruthyPicksEarliest(candidates: seq<Option<string>>, default: string)
    ensures (forall i :: 0 <= i < |candidates| ==> !Truthy(candidates[i])) ==> FirstTruthy(candidates, default) == default
    ensures forall i :: 0 <= i < |candidates| && Truthy(candidates[i])
              && (forall j :: 0 <= j < i ==> !Truthy(candidates[j]))
              ==> FirstTruthy(candidates, default) == candidates[i].value
    decreases |candidates|
  {
    if candidates != [] {
      FirstTruthyPicksEarliest(candidates[1..], default);
      forall i | 0 <= i < |candidates| && Truthy(candidates[i]) && (forall j :: 0 <= j < i ==> !Truthy(candidates[j]))
        ensures FirstTruthy(candidates, default) == candidates[i].value
      {
        if i > 0 {
          assert !Truthy(candidates[0]);
          assert candidates[1..][i - 1] == candidates[i];
          forall j | 0 <= j < i - 1 ensures !Truthy(candidates[1..][j]) {
            assert candidates[1..][j] == candidates[j + 1];
          }
        }
      }
    }
  }

  /** The values of the environment variables `names`, in order. */
  function EnvValues(env: Env, names: seq<string>): (r: seq<Option<string>>)
    ensures |r| == |names| && forall i :: 0 <= i < |names| ==> r[i] == Getenv(env, names[i])
    decreases |names|
  {
    if names == [] then [] else [Getenv(env, names[0])] + EnvValues(env, names[1..])
  }

  /** `arg or os.getenv(names[0]) or ... or default`: a setting resolved from a
      command-line argument, then the environment, then a default. */
  function Resolved(arg: Option<string>, env: Env, names: seq<string>, default: string): string {
    FirstTruthy([arg] + EnvValues(env, names), default)
  }

  /** The argument wins when it is non-empty; otherwise the variables are
      tried in order, an empty one counting as unset. */
  lemma ResolvedPrecedence(arg: Option<string>, env: Env, names: seq<string>, default: string)
    ensures Truthy(arg) ==> Resolved(arg, env, names, default) == arg.value
    ensures !Truthy(arg) && |names| >= 1 && Truthy(Getenv(env, names[0])) ==>
              Resolved(arg, env, names, default) == env[names[0]]
    ensures !Truthy(arg) && |names| >= 2 && !Truthy(Getenv(env, names[0])) && Truthy(Getenv(env, names[1])) ==>
              Resolved(arg, env, names, default) == env[names[1]]
    ensures !Truthy(arg) && (forall i :: 0 <= i < |names| ==> !Truthy(Getenv(env, names[i]))) ==>
              Resolved(arg, env, names, default) == default
  {
    var cs := [arg] + EnvValues(env, names);
    FirstTruthyPicksEarliest(cs, default);
    if !Truthy(arg) && (forall i :: 0 <= i < |names| ==> !Truthy(Getenv(env, names[i]))) {
      assert forall i :: 0 <= i < |cs| ==> !Truthy(cs[i]) by {
        forall i | 0 <= i < |cs| ensures !Truthy(cs[i]) {
          if i > 0 { assert cs[i] == Getenv(env, names[i - 1]); }
        }
      }
    }
    if !Truthy(arg) && |names| >= 2 && !Truthy(Getenv(env, names[0])) && Truthy(Getenv(env, names[1])) {
      assert cs[2] == Getenv(env, names[1]);
      assert forall j :: 0 <= j < 2 ==> !Truthy(cs[j]);
    }
    if !Truthy(arg) && |names| >= 1 && Truthy(Getenv(env, names[0])) {
      assert cs[1] == Getenv(env, names[0]);
      assert forall j :: 0 <= j < 1 ==> !Truthy(cs[j]);
    }
  }
}
