/**
 * How `_listen_loop` finds the OpenAI key (both editions of the
 * speech-to-text module): the `openai_api_key` attribute of the `TTS`
 * configuration section if it has one, otherwise the dictionary entry of
 * that name if the section is a dict, and, when what was found is missing
 * or empty, the `OPENAI_API_KEY` environment variable.
 */
module ApiKey {
  import opened Wrappers

  /** The values the key can take: Python `None` or a string. */
  datatype PyValue = PyNone | PyStr(s: string)

  /**
   * The `TTS` configuration section as the loop sees it: whether it has an
   * `openai_api_key` attribute (and its value), whether it is a dict, and
   * the dict's entries.
   */
  datatype TtsConf = TtsConf(attribute: Option<PyValue>, isDict: bool, entries: map<string, PyValue>)

  const KeyName: string := "openai_api_key"

  /** Python truthiness of a key value: a non-empty string. */
  predicate Truthy(v: PyValue) {
    v.PyStr? && v.s != []
  }

  /** The value the `if hasattr … elif isinstance(…, dict)` chain leaves in `api_key`. */
  function ConfigKey(conf: TtsConf): (v: PyValue)
    ensures conf.attribute.Some? ==> v == conf.attribute.value
    ensures conf.attribute.None? && conf.isDict && KeyName in conf.entries ==> v == conf.entries[KeyName]
    ensures conf.attribute.None? && !(conf.isDict && KeyName in conf.entries) ==> v == PyNone
  {
    if conf.attribute.Some? then conf.attribute.value
    else if conf.isDict then (if KeyName in conf.entries then conf.entries[KeyName] else PyNone)
    else PyNone
  }

  /** `os.environ.get("OPENAI_API_KEY")`. */
  function EnvValue(env: Option<string>): PyValue {
    if env.Some? then PyStr(env.value) else PyNone
  }

  /** The final `api_key`: the configured value when it is truthy, the environment's otherwise. */
  function ResolveApiKey(conf: TtsConf, env: Option<string>): (k: PyValue)
    ensures Truthy(ConfigKey(conf)) ==> k == ConfigKey(conf)
    ensures !Truthy(ConfigKey(conf)) ==> k == EnvValue(env)
  {
    var configured := ConfigKey(conf);
    if Truthy(configured) then configured else EnvValue(env)
  }

  /**
   * The loop gives up before opening any stream exactly when neither the
   * configuration nor the environment supplies a non-empty key.
   */
  lemma NoKeyIffNothingSupplied(conf: TtsConf, env: Option<string>)
    ensures !Truthy(ResolveApiKey(conf, env)) <==>
      !Truthy(ConfigKey(conf)) && (env.None? || env.value == [])
  {
  }

  /**
   * The attribute takes precedence over the dictionary entry even when the
   * section is also a dict, and even when the attribute is `None` or empty:
   * then the entry is never read and the environment decides.
   */
  lemma AttributeShadowsEntry(conf: TtsConf, env: Option<string>)
    requires conf.attribute.Some?
    ensures ResolveApiKey(conf, env) ==
      (if Truthy(conf.attribute.value) then conf.attribute.value else EnvValue(env))
  {
  }

  /** A non-empty configured key always beats the environment variable. */
  lemma ConfigBeatsEnvironment(conf: TtsConf, env1: Option<string>, env2: Option<string>)
    requires Truthy(ConfigKey(conf))
    ensures ResolveApiKey(conf, env1) == ResolveApiKey(conf, env2)
  {
  }
}
