/** `AppConfig.BuildConnectionString` (AppConfig.cs): a connection string assembled
    from four configuration keys by successive appends to a `StringBuilder`. */
module AppConfig {
  import opened Wrappers
  import opened Text
  import Postgres

  /** A `StringBuilder`: the text appended so far. */
  class StringBuilder {
    var text: string

    constructor ()
      ensures text == ""
    {
      text := "";
    }

    method Append(s: string)
      modifies this
      ensures text == old(text) + s
    {
      text := text + s;
    }
  }

  /** `config.GetValue<string>(key)`: null for a missing key. */
  function GetValue(config: map<string, string>, key: string): Option<string> {
    if key in config then Some(config[key]) else None
  }

  const HostKey := "DB_HOST"
  const UsernameKey := "DB_USERNAME"
  const PasswordKey := "DB_PASSWORD"
  const NameKey := "DB_NAME"

  /** The string the five appends produce. */
  function AppConnectionString(config: map<string, string>): string {
    ("Host=" + Interpolated(GetValue(config, HostKey)) + ";") +
    ("Username=" + Interpolated(GetValue(config, UsernameKey)) + ";") +
    ("Password=" + Interpolated(GetValue(config, PasswordKey)) + ";") +
    ("Database=" + Interpolated(GetValue(config, NameKey)) + ";") +
    "Pooling=true;"
  }

  /** `BuildConnectionString`: reads only the configuration it is given. */
  method BuildConnectionString(config: map<string, string>) returns (r: string)
    ensures r == AppConnectionString(config)
  {
    var connectionString := new StringBuilder();
    connectionString.Append("Host=" + Interpolated(GetValue(config, HostKey)) + ";");
    connectionString.Append("Username=" + Interpolated(GetValue(config, UsernameKey)) + ";");
    connectionString.Append("Password=" + Interpolated(GetValue(config, PasswordKey)) + ";");
    connectionString.Append("Database=" + Interpolated(GetValue(config, NameKey)) + ";");
    connectionString.Append("Pooling=true;");
    assert "" + ("Host=" + Interpolated(GetValue(config, HostKey)) + ";") ==
      "Host=" + Interpolated(GetValue(config, HostKey)) + ";";
    r := connectionString.text;
  }

  /** The segments, fed by `DB_HOST`, `DB_USERNAME`, `DB_PASSWORD`, `DB_NAME`. */
  function AppSegments(config: map<string, string>): seq<string> {
    ["Host=" + Interpolated(GetValue(config, HostKey)), "Username=" + Interpolated(GetValue(config, UsernameKey)),
     "Password=" + Interpolated(GetValue(config, PasswordKey)), "Database=" + Interpolated(GetValue(config, NameKey)),
     "Pooling=true"]
  }

  /** Splitting at `;` gives back the five segments in order, the last being the
      pooling flag (no port segment), when no looked-up value contains `;`. */
  lemma AppConnectionStringSegments(config: map<string, string>)
    requires ';' !in Interpolated(GetValue(config, HostKey)) && ';' !in Interpolated(GetValue(config, UsernameKey))
    requires ';' !in Interpolated(GetValue(config, PasswordKey)) && ';' !in Interpolated(GetValue(config, NameKey))
    ensures SplitOn(AppConnectionString(config), ';') == AppSegments(config) + [""]
  {
    var s := AppSegments(config);
    assert s == [s[0]] + [s[1]] + [s[2]] + [s[3]] + [s[4]];
    TerminatedConcat([s[0]] + [s[1]] + [s[2]] + [s[3]], [s[4]], ';');
    TerminatedConcat([s[0]] + [s[1]] + [s[2]], [s[3]], ';');
    TerminatedConcat([s[0]] + [s[1]], [s[2]], ';');
    TerminatedConcat([s[0]], [s[1]], ';');
    TerminatedSingle(s[0], ';');
    TerminatedSingle(s[1], ';');
    TerminatedSingle(s[2], ';');
    TerminatedSingle(s[3], ';');
    TerminatedSingle(s[4], ';');
    assert "Pooling=true;" == "Pooling=true" + ";";
    assert AppConnectionString(config) == Terminated(s, ';');
    SplitTerminated(s, ';');
  }

  /** Every result ends with the pooling flag. */
  lemma AppConnectionStringEnding(config: map<string, string>)
    ensures EndsWith(AppConnectionString(config), "Pooling=true;")
  {
  }

  /** A missing key leaves its own value empty, whatever the other keys hold. */
  lemma AppSegmentsMissingKeys(config: map<string, string>)
    ensures HostKey !in config ==> AppSegments(config)[0] == "Host="
    ensures UsernameKey !in config ==> AppSegments(config)[1] == "Username="
    ensures PasswordKey !in config ==> AppSegments(config)[2] == "Password="
    ensures NameKey !in config ==> AppSegments(config)[3] == "Database="
  {
  }

  /** Adding a port segment gives the Postgres configuration's connection string for
      the same values. */
  lemma AppConnectionStringMatchesPostgres(config: map<string, string>, port: Option<string>)
    ensures AppConnectionString(config) + ("Port=" + Interpolated(port) + ";") ==
      Postgres.ConnectionString(Postgres.PostgresDatabaseConfig(
        GetValue(config, NameKey), GetValue(config, HostKey), GetValue(config, UsernameKey),
        GetValue(config, PasswordKey), port))
  {
  }
}
