/**
 * noona/logger/validateEnv.mjs: `validateEnv(requiredVars, optionalVars)`,
 * the boot-time check of `process.env`. Each variable is reported as set or
 * unset; an unset required variable makes the process exit with code 1.
 */
module ValidateEnv {
  import opened Wrappers
  import opened JsString

  /** One report line: `✓ key = value`, or the key flagged as unset. */
  datatype Status = Present(key: string, value: string) | Unset(key: string)

  /** How the call ends: `process.exit(1)`, or a normal return. */
  datatype EnvResult = Exit(code: int) | Continue

  /** `!process.env[key]` decides: an empty value counts as unset. */
  function StatusOf(env: map<string, string>, key: string): (s: Status)
    ensures s.key == key
    ensures s.Present? <==> Truthy(Lookup(env, key))
  {
    if Truthy(Lookup(env, key)) then Present(key, env[key]) else Unset(key)
  }

  /** The report for a list of keys: one line per key, in order. */
  function Statuses(env: map<string, string>, keys: seq<string>): (report: seq<Status>)
    ensures |report| == |keys|
    ensures forall i :: 0 <= i < |keys| ==> report[i] == StatusOf(env, keys[i])
    decreases |keys|
  {
    if keys == [] then []
    else Statuses(env, keys[..|keys| - 1]) + [StatusOf(env, keys[|keys| - 1])]
  }

  predicate AnyMissing(env: map<string, string>, keys: seq<string>) {
    exists k :: k in keys && !Truthy(Lookup(env, k))
  }

  /**
   * Checks every required variable (the loop does not stop at the first
   * missing one), then reports the optional ones, which never cause failure.
   */
  method Validate(env: map<string, string>, requiredVars: seq<string>, optionalVars: seq<string>)
    returns (result: EnvResult, report: seq<Status>)
    ensures result == Exit(1) <==> AnyMissing(env, requiredVars)
    ensures result == Continue <==> !AnyMissing(env, requiredVars)
    ensures report == Statuses(env, requiredVars) + Statuses(env, optionalVars)
  {
    var hasMissing, required := CheckRequired(env, requiredVars);
    var optional := ReportOptional(env, optionalVars);
    report := required + optional;
    if hasMissing {
      return Exit(1), report;
    }
    result := Continue;
  }

  /** The first loop: every required key is reported, and `hasMissing` is set by any unset one. */
  method CheckRequired(env: map<string, string>, keys: seq<string>) returns (hasMissing: bool, report: seq<Status>)
    ensures hasMissing <==> AnyMissing(env, keys)
    ensures report == Statuses(env, keys)
  {
    hasMissing := false;
    report := [];
    for i := 0 to |keys|
      invariant report == Statuses(env, keys[..i])
      invariant hasMissing <==> AnyMissing(env, keys[..i])
    {
      var key := keys[i];
      assert keys[..i + 1] == keys[..i] + [key];
      if !Truthy(Lookup(env, key)) {
        report := report + [Unset(key)];
        hasMissing := true;
      } else {
        report := report + [Present(key, env[key])];
      }
    }
    assert keys[..|keys|] == keys;
  }

  /** The second loop: every optional key is reported; nothing else happens. */
  method ReportOptional(env: map<string, string>, keys: seq<string>) returns (report: seq<Status>)
    ensures report == Statuses(env, keys)
  {
    report := [];
    for i := 0 to |keys|
      invariant report == Statuses(env, keys[..i])
    {
      var key := keys[i];
      assert keys[..i + 1] == keys[..i] + [key];
      if !Truthy(Lookup(env, key)) {
        report := report + [Unset(key)];
      } else {
        report := report + [Present(key, env[key])];
      }
    }
    assert keys[..|keys|] == keys;
  }

  /** Optional variables never decide the outcome: any value for them, or none, gives the same result. */
  lemma OptionalNeverFails(env: map<string, string>, requiredVars: seq<string>, key: string, value: string)
    requires key !in requiredVars
    ensures AnyMissing(env[key := value], requiredVars) <==> AnyMissing(env, requiredVars)
    ensures AnyMissing(env - {key}, requiredVars) <==> AnyMissing(env, requiredVars)
  {
    assert forall k :: k in requiredVars ==> Lookup(env[key := value], k) == Lookup(env, k);
    assert forall k :: k in requiredVars ==> Lookup(env - {key}, k) == Lookup(env, k);
  }
}
