/** The form's configuration lookup and the `ALLOW_FUTURE` flag. */
module Config {
  import opened Text

  /** A value in the secrets store: text, or another TOML value (number, boolean, table). */
  datatype Secret = SecretText(text: string) | SecretOther

  /** Both sources' texts are blank exactly when they strip to "". */
  lemma SourcesBlankness(secrets: map<string, Secret>, env: map<string, string>, key: string)
    ensures key in secrets && secrets[key].SecretText? ==>
      (Strip(secrets[key].text) == "" <==> IsBlank(secrets[key].text))
    ensures key in env ==> (Strip(env[key]) == "" <==> IsBlank(env[key]))
  {
    if key in secrets && secrets[key].SecretText? {
      StripEmptyIffBlank(secrets[key].text);
    }
    if key in env {
      StripEmptyIffBlank(env[key]);
    }
  }

  /** The secret under `key` is text that is not blank. */
  predicate SecretUsable(secrets: map<string, Secret>, key: string) {
    key in secrets && secrets[key].SecretText? && !IsBlank(secrets[key].text)
  }

  /** The environment variable `key` is set and not blank. */
  predicate EnvUsable(env: map<string, string>, key: string) {
    key in env && !IsBlank(env[key])
  }

  /**
   * `cfg(key, default)`: the stripped secret if it is non-blank text, else the
   * stripped environment variable if it is non-blank, else `default` as given.
   */
  function Cfg(secrets: map<string, Secret>, env: map<string, string>, key: string, default: string): (r: string)
    ensures SecretUsable(secrets, key) ==> r == Strip(secrets[key].text)
    ensures !SecretUsable(secrets, key) && EnvUsable(env, key) ==> r == Strip(env[key])
    ensures !SecretUsable(secrets, key) && !EnvUsable(env, key) ==> r == default
  {
    SourcesBlankness(secrets, env, key);
    if key in secrets && secrets[key].SecretText? && Strip(secrets[key].text) != "" then
      Strip(secrets[key].text)
    else if key in env && Strip(env[key]) != "" then
      Strip(env[key])
    else
      default
  }

  /** Whatever `cfg` returns is the default, or non-blank text with no surrounding whitespace. */
  lemma CfgStrippedOrDefault(secrets: map<string, Secret>, env: map<string, string>, key: string, default: string)
    ensures var r := Cfg(secrets, env, key, default);
      r == default || (r != "" && Strip(r) == r)
  {
    SourcesBlankness(secrets, env, key);
    if SecretUsable(secrets, key) {
      StripIdempotent(secrets[key].text);
    } else if EnvUsable(env, key) {
      StripIdempotent(env[key]);
    }
  }

  /** `value.lower() in ("1", "true", "yes", "y")`. */
  predicate AllowFuture(value: string) {
    var v := Lower(value);
    v == "1" || v == "true" || v == "yes" || v == "y"
  }

  /** `c` lower-cases to the ASCII letter `l`. */
  predicate Letter(c: char, l: char)
    requires 'a' <= l <= 'z'
  {
    c == l || c as int == l as int - 32
  }

  /** The accepted spellings, character by character, in any mix of cases. */
  lemma AllowFutureSpellings(value: string)
    ensures AllowFuture(value) <==>
      (|value| == 1 && (value[0] == '1' || Letter(value[0], 'y'))) ||
      (|value| == 3 && Letter(value[0], 'y') && Letter(value[1], 'e') && Letter(value[2], 's')) ||
      (|value| == 4 && Letter(value[0], 't') && Letter(value[1], 'r') && Letter(value[2], 'u') &&
        Letter(value[3], 'e'))
  {
    var v := Lower(value);
    if |value| == 1 {
      assert v == "1" <==> value[0] == '1';
      assert v == "y" <==> Letter(value[0], 'y');
    } else if |value| == 3 {
      assert v == "yes" <==> v[0] == 'y' && v[1] == 'e' && v[2] == 's';
    } else if |value| == 4 {
      assert v == "true" <==> v[0] == 't' && v[1] == 'r' && v[2] == 'u' && v[3] == 'e';
    }
  }

  /** `ALLOW_FUTURE = cfg("ALLOW_FUTURE", "false").lower() in (...)`. */
  predicate AllowFutureSetting(secrets: map<string, Secret>, env: map<string, string>) {
    AllowFuture(Cfg(secrets, env, "ALLOW_FUTURE", "false"))
  }

  /** With the flag set nowhere (or set blank), future times are refused. */
  lemma FutureForbiddenByDefault(secrets: map<string, Secret>, env: map<string, string>)
    requires !SecretUsable(secrets, "ALLOW_FUTURE") && !EnvUsable(env, "ALLOW_FUTURE")
    ensures !AllowFutureSetting(secrets, env)
  {
    assert Lower("false") == "false";
  }
}
