/**
 * Python value conventions the source relies on: truthiness of an optional
 * string, the `a or b` fallback, and environment-variable lookups.
 */
module Settings {
  import opened Wrappers

  /** The process environment (`os.environ`), a map from names to values. */
  type Env = map<string, string>

  /** `bool(v)` for a value that is `None` or a `str`: only a non-empty string is true. */
  predicate Truthy(v: Option<string>) {
    v.Some? && v.value != ""
  }

  /** Python's `a or b`: `a` when it is truthy, otherwise `b` unchanged. */
  function OrElse(a: Option<string>, b: Option<string>): Option<string> {
    if Truthy(a) then a else b
  }

  /** The fallback is truthy exactly when one of its operands is, and it is always one of them. */
  lemma OrElseTruthy(a: Option<string>, b: Option<string>)
    ensures Truthy(OrElse(a, b)) <==> Truthy(a) || Truthy(b)
    ensures OrElse(a, b) == a || OrElse(a, b) == b
  {
  }

  /** `os.getenv(key)`. */
  function GetEnv(env: Env, key: string): Option<string> {
    if key in env then Some(env[key]) else None
  }

  /** `os.getenv(key, default)`. */
  function GetEnvOr(env: Env, key: string, default: string): string {
    if key in env then env[key] else default
  }
}
