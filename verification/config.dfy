/** The request/response record shared by both Go files and the
    environment lookup with a fallback (imageup.go). */
module Config {

  /** The process environment, as the map os.LookupEnv consults. */
  type Env = map<string, string>

  /** ImageConfig is both one requested size (input) and one uploaded
      derivative (output). Go's `int` is modelled unbounded. */
  datatype ImageConfig = ImageConfig(
    fileName: string,
    name: string,
    url: string,
    fill: bool,
    width: int,
    height: int)

  /** GetEnv: the value of `key` whenever it is set, even when it is set to
      the empty string; `fallback` only when it is not set at all. */
  function GetEnv(env: Env, key: string, fallback: string): (r: string)
    ensures key in env ==> r == env[key]
    ensures key !in env ==> r == fallback
  {
    if key in env then env[key] else fallback
  }
}
