/** `PostgresDatabaseConfig` (PostgresDatabaseConfig.cs): settable connection fields
    with defaults, and the connection string computed from their current values. */
module Postgres {
  import opened Wrappers
  import opened Text

  /** The settable properties; a property set to null (or never set) is `None`. */
  datatype PostgresDatabaseConfig = PostgresDatabaseConfig(
    name: Option<string>,
    host: Option<string>,
    username: Option<string>,
    password: Option<string>,
    port: Option<string>)

  /** A freshly constructed configuration: every property at its initialiser. Until a
      name is set it connects to the local server with an empty database name. */
  function Default(): (r: PostgresDatabaseConfig)
    ensures ConnectionString(r) ==
      "Host=localhost;" + "Username=postgres;" + "Password=postgres;" + "Database=;" + "Pooling=true;" + "Port=5432;"
  {
    var r := PostgresDatabaseConfig(None, Some("localhost"), Some("postgres"), Some("postgres"), Some("5432"));
    assert "Host=" + "localhost" + ";" == "Host=localhost;";
    assert "Username=" + "postgres" + ";" == "Username=postgres;";
    assert "Password=" + "postgres" + ";" == "Password=postgres;";
    assert "Database=" + "" + ";" == "Database=;";
    assert "Port=" + "5432" + ";" == "Port=5432;";
    r
  }

  /** The `ConnectionString` property: the current values interpolated verbatim. */
  function ConnectionString(c: PostgresDatabaseConfig): string {
    ("Host=" + Interpolated(c.host) + ";") +
    ("Username=" + Interpolated(c.username) + ";") +
    ("Password=" + Interpolated(c.password) + ";") +
    ("Database=" + Interpolated(c.name) + ";") +
    "Pooling=true;" +
    ("Port=" + Interpolated(c.port) + ";")
  }

  /** The `key=value` segments of the connection string, in order. */
  function Segments(c: PostgresDatabaseConfig): seq<string> {
    ["Host=" + Interpolated(c.host), "Username=" + Interpolated(c.username),
     "Password=" + Interpolated(c.password), "Database=" + Interpolated(c.name),
     "Pooling=true", "Port=" + Interpolated(c.port)]
  }

  /** No value contains the separator `;`. */
  predicate Unseparated(c: PostgresDatabaseConfig) {
    && ';' !in Interpolated(c.host) && ';' !in Interpolated(c.username)
    && ';' !in Interpolated(c.password) && ';' !in Interpolated(c.name)
    && ';' !in Interpolated(c.port)
  }

  /** The connection string is its six segments, each terminated by `;`. */
  lemma ConnectionStringIsTerminated(c: PostgresDatabaseConfig)
    ensures ConnectionString(c) == Terminated(Segments(c), ';')
  {
    var s := Segments(c);
    SixTerminated(s[0], s[1], s[2], s[3], s[4], s[5]);
    assert s == [s[0], s[1], s[2], s[3], s[4], s[5]];
    assert "Pooling=true;" == "Pooling=true" + ";";
  }

  /** Six parts, terminated. */
  lemma SixTerminated(a: string, b: string, c: string, d: string, e: string, f: string)
    ensures Terminated([a, b, c, d, e, f], ';') ==
      (a + ";") + (b + ";") + (c + ";") + (d + ";") + (e + ";") + (f + ";")
  {
    assert [a, b, c, d, e, f] == [a] + [b] + [c] + [d] + [e] + [f];
    TerminatedConcat([a] + [b] + [c] + [d] + [e], [f], ';');
    TerminatedConcat([a] + [b] + [c] + [d], [e], ';');
    TerminatedConcat([a] + [b] + [c], [d], ';');
    TerminatedConcat([a] + [b], [c], ';');
    TerminatedConcat([a], [b], ';');
    TerminatedSingle(a, ';');
    TerminatedSingle(b, ';');
    TerminatedSingle(c, ';');
    TerminatedSingle(d, ';');
    TerminatedSingle(e, ';');
    TerminatedSingle(f, ';');
  }

  /** Splitting the connection string at `;` gives back exactly its six segments in
      order (and the empty remainder after the final `;`) when no value contains `;`. */
  lemma ConnectionStringSegments(c: PostgresDatabaseConfig)
    requires Unseparated(c)
    ensures SplitOn(ConnectionString(c), ';') == Segments(c) + [""]
  {
    ConnectionStringIsTerminated(c);
    SplitTerminated(Segments(c), ';');
  }

  /** Values are not escaped: a `;` inside the password splits it into two segments. */
  lemma PasswordIsNotEscaped(c: PostgresDatabaseConfig, a: string, b: string)
    requires c.password == Some(a + ";" + b) && ';' !in a && ';' !in b
    requires Unseparated(c.(password := None))
    ensures SplitOn(ConnectionString(c), ';') ==
      ["Host=" + Interpolated(c.host), "Username=" + Interpolated(c.username), "Password=" + a, b,
       "Database=" + Interpolated(c.name), "Pooling=true", "Port=" + Interpolated(c.port), ""]
  {
    var s := Segments(c);
    ConnectionStringIsTerminated(c);
    assert s[2] == ("Password=" + a) + [';'] + b;
    assert s == s[..2] + [s[2]] + s[3..];
    var parts := s[..2] + ["Password=" + a, b] + s[3..];
    TerminatedSplitPart(s[..2], "Password=" + a, b, s[3..], ';');
    SplitTerminated(parts, ';');
  }

  /** An unset `Name` leaves the `Database=` segment empty. */
  lemma UnsetNameGivesEmptyDatabase(c: PostgresDatabaseConfig)
    requires c.name == None && Unseparated(c)
    ensures |SplitOn(ConnectionString(c), ';')| == 7 && SplitOn(ConnectionString(c), ';')[3] == "Database="
  {
    ConnectionStringSegments(c);
  }

  /** Whatever the other values hold, an unset `Name` is rendered as `Database=;`
      right before the pooling flag. */
  lemma UnsetNameEnding(c: PostgresDatabaseConfig)
    requires c.name == None
    ensures EndsWith(ConnectionString(c), "Database=;Pooling=true;Port=" + Interpolated(c.port) + ";")
  {
  }

  /** Every connection string ends with the pooling flag and the port segment. */
  lemma ConnectionStringEnding(c: PostgresDatabaseConfig)
    ensures EndsWith(ConnectionString(c), "Pooling=true;Port=" + Interpolated(c.port) + ";")
  {
  }

  /** With only the database name set, the defaults give the local server. */
  lemma DefaultSegments(n: string)
    ensures Segments(Default().(name := Some(n))) ==
      ["Host=localhost", "Username=postgres", "Password=postgres", "Database=" + n, "Pooling=true", "Port=5432"]
  {
    assert "Host=" + "localhost" == "Host=localhost";
    assert "Username=" + "postgres" == "Username=postgres";
    assert "Password=" + "postgres" == "Password=postgres";
    assert "Port=" + "5432" == "Port=5432";
  }
}
