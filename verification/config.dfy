/** Configuration as the agent reads it: a map from variable name to its
    string value, an absent key being `undefined`. */
module Config {

  type Config = map<string, string>

  /** `configService.get(key, default)`: the default replaces only an absent
      value, so a variable set to the empty string yields the empty string. */
  function Lookup(config: Config, key: string, default: string): (v: string)
    ensures key in config ==> v == config[key]
    ensures key !in config ==> v == default
  {
    if key in config then config[key] else default
  }

  /** The truthiness test `if (value)` on a configured string: present and
      non-empty, which is the truthiness of the looked-up value when the
      lookup has no default. */
  predicate IsSet(config: Config, key: string)
    ensures IsSet(config, key) <==> Lookup(config, key, "") != ""
  {
    key in config && config[key] != ""
  }

  /** `process.env[key] || default`: the default replaces an absent or an
      empty value. */
  function LookupNonEmpty(config: Config, key: string, default: string): (v: string)
    ensures IsSet(config, key) ==> v == config[key]
    ensures !IsSet(config, key) ==> v == default
  {
    if IsSet(config, key) then config[key] else default
  }
}
