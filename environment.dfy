/** Configuration read from the process environment. */
module Environment {
  import opened Js

  /** The value of an environment variable: a string, or `undefined` when unset. */
  function EnvValue(v: Option<string>): JsValue {
    match v
    case Some(s) => Str(s)
    case None => Undefined
  }

  /** Database mode: DB_HOST is truthy and not strictly equal to "localhost". */
  predicate UseDatabase(dbHost: Option<string>)
    ensures UseDatabase(dbHost) ==> dbHost.Some? && dbHost.value != ""
    ensures dbHost == Some("localhost") ==> !UseDatabase(dbHost)
  {
    Truthy(EnvValue(dbHost)) && !StrictEquals(EnvValue(dbHost), Str("localhost"))
  }

  /** Database mode is on exactly when DB_HOST is set, non-empty and not "localhost". */
  lemma UseDatabaseIff(dbHost: Option<string>)
    ensures UseDatabase(dbHost) <==> dbHost.Some? && dbHost.value != "" && dbHost.value != "localhost"
  {
  }
}
