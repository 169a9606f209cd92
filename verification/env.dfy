/** The server's configuration environment: `process.env` as a map. */
module Env {
  type Environment = map<string, string>

  /** `const { KEY = default } = process.env`: the default applies only when
      the variable is not set at all; a variable set to the empty string
      keeps that empty value. */
  function EnvOr(env: Environment, key: string, default: string): (r: string)
    ensures key !in env ==> r == default
    ensures key in env ==> r == env[key]
  {
    if key in env then env[key] else default
  }
}
