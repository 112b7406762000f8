/**
 * `shouldShowTechnicalDetails` (apps/web/lib/errors/debug.ts): technical
 * error details are shown only outside production, and only when the public
 * debug flag is exactly "true". The process environment is a parameter.
 */
module ErrorDebug {

  type Env = map<string, string>

  /** `process.env.NAME === text`, an unset variable being `undefined`. */
  predicate EnvIs(env: Env, name: string, text: string) {
    name in env && env[name] == text
  }

  function ShouldShowTechnicalDetails(env: Env): (show: bool)
    ensures EnvIs(env, "NODE_ENV", "production") ==> !show
    ensures show <==> !EnvIs(env, "NODE_ENV", "production") && EnvIs(env, "NEXT_PUBLIC_ERROR_DEBUG", "true")
  {
    if EnvIs(env, "NODE_ENV", "production") then false
    else EnvIs(env, "NEXT_PUBLIC_ERROR_DEBUG", "true")
  }

  /** Only NODE_ENV and NEXT_PUBLIC_ERROR_DEBUG matter: environments that agree on them agree on the result. */
  lemma OnlyTwoVariablesMatter(env: Env, other: Env)
    requires ("NODE_ENV" in env <==> "NODE_ENV" in other) && ("NODE_ENV" in env ==> env["NODE_ENV"] == other["NODE_ENV"])
    requires ("NEXT_PUBLIC_ERROR_DEBUG" in env <==> "NEXT_PUBLIC_ERROR_DEBUG" in other)
    requires "NEXT_PUBLIC_ERROR_DEBUG" in env ==> env["NEXT_PUBLIC_ERROR_DEBUG"] == other["NEXT_PUBLIC_ERROR_DEBUG"]
    ensures ShouldShowTechnicalDetails(env) == ShouldShowTechnicalDetails(other)
  {
  }

  /** The flag is compared exactly: "TRUE", "1" or an unset flag keep the details hidden. */
  lemma FlagIsExact(env: Env)
    requires !EnvIs(env, "NODE_ENV", "production")
    ensures ShouldShowTechnicalDetails(env[("NEXT_PUBLIC_ERROR_DEBUG") := "TRUE"]) == false
    ensures ShouldShowTechnicalDetails(env[("NEXT_PUBLIC_ERROR_DEBUG") := "1"]) == false
    ensures ShouldShowTechnicalDetails(env - {"NEXT_PUBLIC_ERROR_DEBUG"}) == false
    ensures ShouldShowTechnicalDetails(env[("NEXT_PUBLIC_ERROR_DEBUG") := "true"]) == true
  {
    assert "TRUE" != "true" && "1" != "true";
  }
}
