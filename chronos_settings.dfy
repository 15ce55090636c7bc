/** The system-wide Chronos settings (`ChronosConfig`,
    paasta_tools/chronos_tools.py:37-62): a mapping loaded from a JSON file
    at `path`, with getters for the API endpoint and its credentials. A
    missing key raises `ChronosNotConfigured` naming the setting and the
    file. Loading the file is not part of this model. */
module ChronosSettings {
  import opened PyValues

  datatype ChronosConfig = ChronosConfig(entries: map<string, Value>, path: string)

  /** The message of the `ChronosNotConfigured` raised for a missing setting. */
  function NotFoundMessage(key: string, path: string): string
  {
    "Could not find chronos " + key + " in system chronos config: " + path
  }

  /** `self[key]`, with a missing key reported as `ChronosNotConfigured`
      naming the key and the file. */
  function Setting(config: ChronosConfig, key: string): (r: Result<Value>)
    ensures r.Ok? <==> key in config.entries
    ensures r.Ok? ==> r.value == config.entries[key]
    ensures r.Raise? ==> r.error == ChronosNotConfigured(NotFoundMessage(key, config.path))
  {
    if key in config.entries then Ok(config.entries[key])
    else Raise(ChronosNotConfigured(NotFoundMessage(key, config.path)))
  }

  /** `get_url`: the `url` entry. */
  function GetUrl(config: ChronosConfig): (r: Result<Value>)
    ensures r.Ok? <==> "url" in config.entries
    ensures r.Ok? ==> r.value == config.entries["url"]
    ensures r.Raise? ==> r.error == ChronosNotConfigured(NotFoundMessage("url", config.path))
  {
    Setting(config, "url")
  }

  /** `get_username`: the `user` entry. */
  function GetUsername(config: ChronosConfig): (r: Result<Value>)
    ensures r.Ok? <==> "user" in config.entries
    ensures r.Ok? ==> r.value == config.entries["user"]
    ensures r.Raise? ==> r.error == ChronosNotConfigured(NotFoundMessage("user", config.path))
  {
    Setting(config, "user")
  }

  /** `get_password`: the `password` entry. */
  function GetPassword(config: ChronosConfig): (r: Result<Value>)
    ensures r.Ok? <==> "password" in config.entries
    ensures r.Ok? ==> r.value == config.entries["password"]
    ensures r.Raise? ==> r.error == ChronosNotConfigured(NotFoundMessage("password", config.path))
  {
    Setting(config, "password")
  }

  /** The three getters read distinct keys: each fails on its own, and a
      configuration with all three keys answers all three. */
  lemma GettersIndependent(config: ChronosConfig)
    ensures GetUrl(config).Ok? && GetUsername(config).Ok? && GetPassword(config).Ok?
            <==> {"url", "user", "password"} <= config.entries.Keys
  {
  }
}
