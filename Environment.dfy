/** The process environment, passed in as a value instead of read from the OS. */
module Environment {
  import opened Wrappers

  /** Variable name to value; an unset variable is a missing key. */
  type Env = map<string, string>

  /** os.getenv(name): None when the variable is unset. */
  function Getenv(env: Env, name: string): Option<string> {
    if name in env then Some(env[name]) else None
  }

  /** Python truthiness of an optional string: neither None nor "". */
  predicate Truthy(v: Option<string>) {
    v.Some? && v.value != ""
  }
}
