// Effective settings of the terminal client: command-line flags override
// the config file, which overrides the saved session, which overrides the
// built-in defaults.

module TuiConfig {
  import opened Common

  const DEFAULT_SERVER: string := "irc.freeq.at:6697"
  const DEFAULT_CHANNEL: string := "#freeq"
  const TLS_PORT_SUFFIX: string := ":6697"

  /** The command-line flags that take part in resolution. */
  datatype Cli = Cli(server: Option<string>, nick: Option<string>, handle: Option<string>, did: Option<string>,
                     appPassword: Option<string>, genKey: bool, irohAddr: Option<string>,
                     channels: Option<string>, tls: bool, tlsInsecure: bool, vi: bool)

  /** `tui.toml`. */
  datatype Config = Config(server: Option<string>, nick: Option<string>, handle: Option<string>,
                           tls: Option<bool>, tlsInsecure: Option<bool>, vi: Option<bool>,
                           channels: Option<seq<string>>, irohAddr: Option<string>)

  /** `session.toml`, saved on quit. */
  datatype Session = Session(server: Option<string>, nick: Option<string>, handle: Option<string>, channels: seq<string>)

  datatype Resolved = Resolved(server: string, nick: string, handle: Option<string>, tls: bool, tlsInsecure: bool,
                               vi: bool, channels: seq<string>, irohAddr: Option<string>)

  /** The first present value of a chain of `or_else`s. */
  function OrElse(a: Option<string>, b: Option<string>): (r: Option<string>)
    ensures a.Some? ==> r == a
    ensures a.None? ==> r == b
  {
    if a.Some? then a else b
  }

  function UnwrapOr(a: Option<string>, d: string): (r: string)
    ensures a.Some? ==> r == a.value
    ensures a.None? ==> r == d
  {
    if a.Some? then a.value else d
  }

  function UnwrapBool(a: Option<bool>): (r: bool)
    ensures r <==> a == Some(true)
  {
    if a.Some? then a.value else false
  }

  /** A server address without a port gets the TLS port. */
  function WithPort(server: string): (r: string)
    ensures ':' in server ==> r == server
    ensures ':' !in server ==> r == server + TLS_PORT_SUFFIX
    ensures ':' in r && StartsWith(r, server)
  {
    if ':' in server then server else server + TLS_PORT_SUFFIX
  }

  /** The handle's first label (before the first '.'), used as a default nick. */
  function HandleNick(handle: string): (r: string)
    ensures r <= handle && '.' !in r
    ensures |r| < |handle| ==> handle[|r|] == '.'
    ensures '.' !in handle ==> r == handle
  {
    match FindChar(handle, '.')
    case None => handle
    case Some(i) => handle[..i]
  }

  /** A piece that is non-empty and neither starts nor ends with whitespace. */
  predicate TrimmedPiece(p: string)
  {
    p != [] && !IsWhitespace(p[0]) && !IsWhitespace(p[|p| - 1])
  }

  /** The trimmed, non-empty pieces. */
  function NonEmptyTrimmed(parts: seq<string>): (r: seq<string>)
    ensures |r| <= |parts|
    ensures forall i | 0 <= i < |r| :: TrimmedPiece(r[i])
  {
    if parts == [] then []
    else
      var t := Trim(parts[0]);
      var rest := NonEmptyTrimmed(parts[1..]);
      if t == [] then rest else [t] + rest
  }

  /** A comma-separated channel list: split on ',', trim each piece, drop empty ones. */
  function SplitChannels(s: string): (r: seq<string>)
    ensures forall i | 0 <= i < |r| :: TrimmedPiece(r[i]) && ',' !in r[i]
  {
    var parts := Split(s, ',');
    NoCommaTrimmed(parts);
    NonEmptyTrimmed(parts)
  }

  lemma {:induction false} NoCommaTrimmed(parts: seq<string>)
    requires forall i | 0 <= i < |parts| :: ',' !in parts[i]
    ensures forall i | 0 <= i < |NonEmptyTrimmed(parts)| :: ',' !in NonEmptyTrimmed(parts)[i]
  {
    if parts != [] {
      NoCommaTrimmed(parts[1..]);
      var t := Trim(parts[0]);
      TrimIsTrimmed(parts[0]);
      var k :| TrimmedAt(parts[0], t, k);
      forall j | 0 <= j < |t| ensures t[j] != ',' {
        assert t[j] == parts[0][k + j];
      }
    }
  }

  /** A channel name that survives splitting unchanged. */
  predicate PlainChannel(c: string)
  {
    c != [] && ',' !in c && forall i | 0 <= i < |c| :: !IsWhitespace(c[i])
  }

  lemma TrimPlain(c: string)
    requires PlainChannel(c)
    ensures Trim(c) == c
  {
    assert TrimStart(c) == c;
    assert TrimEnd(c) == c;
  }

  lemma {:induction false} SplitOfJoin(cs: seq<string>)
    requires cs != [] && forall i | 0 <= i < |cs| :: ',' !in cs[i]
    ensures Split(Join(cs, ","), ',') == cs
    decreases |cs|
  {
    if |cs| > 1 {
      JoinCons(cs);
      SplitCons(cs[0], Join(cs[1..], ","));
      SplitOfJoin(cs[1..]);
      assert cs == [cs[0]] + cs[1..];
    } else {
      assert FindChar(cs[0], ',').None?;
    }
  }

  lemma JoinCons(cs: seq<string>)
    requires |cs| > 1
    ensures Join(cs, ",") == cs[0] + "," + Join(cs[1..], ",")
  {
  }

  lemma SplitCons(a: string, rest: string)
    requires ',' !in a
    ensures Split(a + "," + rest, ',') == [a] + Split(rest, ',')
  {
    var s := a + "," + rest;
    assert s[|a|] == ',' && s[..|a|] == a;
    assert s[|a| + 1..] == rest;
  }

  lemma {:induction false} TrimmedPlain(cs: seq<string>)
    requires forall i | 0 <= i < |cs| :: PlainChannel(cs[i])
    ensures NonEmptyTrimmed(cs) == cs
  {
    if cs != [] {
      TrimPlain(cs[0]);
      TrimmedPlain(cs[1..]);
      assert cs == [cs[0]] + cs[1..];
    }
  }

  /** A list of plain channel names written with commas reads back as the same list. */
  lemma SplitChannelsRoundTrip(cs: seq<string>)
    requires cs != [] && forall i | 0 <= i < |cs| :: PlainChannel(cs[i])
    ensures SplitChannels(Join(cs, ",")) == cs
  {
    SplitOfJoin(cs);
    TrimmedPlain(cs);
  }

  /**
   * `Resolved::merge`. `username` is the system user name, when it can be
   * read.
   */
  function Merge(cli: Cli, config: Config, session: Session, username: Option<string>): (r: Resolved)
    ensures var server := UnwrapOr(OrElse(cli.server, OrElse(config.server, session.server)), DEFAULT_SERVER);
      r.server == WithPort(server)
    ensures r.handle == OrElse(cli.handle, OrElse(config.handle, session.handle))
    ensures r.tls <==> cli.tls || config.tls == Some(true) || EndsWith(r.server, TLS_PORT_SUFFIX)
    ensures r.tlsInsecure <==> cli.tlsInsecure || config.tlsInsecure == Some(true)
    ensures r.vi <==> cli.vi || config.vi == Some(true)
    ensures r.irohAddr == OrElse(cli.irohAddr, config.irohAddr)
    ensures r.channels ==
      if cli.channels.Some? then SplitChannels(cli.channels.value)
      else if config.channels.Some? then config.channels.value
      else if session.channels != [] then session.channels
      else [DEFAULT_CHANNEL]
    ensures var explicit := OrElse(cli.nick, OrElse(config.nick, session.nick));
      (explicit.Some? ==> r.nick == explicit.value) &&
      (explicit.None? && r.handle.Some? ==> r.nick == HandleNick(r.handle.value)) &&
      (explicit.None? && r.handle.None? ==> r.nick == UnwrapOr(username, "guest"))
  {
    var server := WithPort(UnwrapOr(OrElse(cli.server, OrElse(config.server, session.server)), DEFAULT_SERVER));
    var handle := OrElse(cli.handle, OrElse(config.handle, session.handle));
    var explicitNick := OrElse(cli.nick, OrElse(config.nick, session.nick));
    var nick :=
      if explicitNick.Some? then explicitNick.value
      else if handle.Some? then HandleNick(handle.value)
      else UnwrapOr(username, "guest");
    var tls := (cli.tls || UnwrapBool(config.tls)) || EndsWith(server, TLS_PORT_SUFFIX);
    var channels :=
      if cli.channels.Some? then SplitChannels(cli.channels.value)
      else if config.channels.Some? then config.channels.value
      else if session.channels != [] then session.channels
      else [DEFAULT_CHANNEL];
    Resolved(server, nick, handle, tls, cli.tlsInsecure || UnwrapBool(config.tlsInsecure),
             cli.vi || UnwrapBool(config.vi), channels, OrElse(cli.irohAddr, config.irohAddr))
  }

  /** With nothing configured anywhere, the defaults apply: the TLS port on the default server, and "#freeq". */
  lemma MergeDefaults(username: Option<string>)
    ensures var r := Merge(Cli(None, None, None, None, None, false, None, None, false, false, false),
                           Config(None, None, None, None, None, None, None, None),
                           Session(None, None, None, []), username);
      r.server == DEFAULT_SERVER && r.tls && r.channels == [DEFAULT_CHANNEL] && r.nick == UnwrapOr(username, "guest")
  {
    assert ':' in DEFAULT_SERVER by { assert DEFAULT_SERVER[12] == ':'; }
    assert EndsWith(DEFAULT_SERVER, TLS_PORT_SUFFIX) by { assert DEFAULT_SERVER[12..] == TLS_PORT_SUFFIX; }
  }

  /** A bare host name resolves to the TLS port with TLS on, whatever the flags say. */
  lemma BareHostUsesTls(cli: Cli, config: Config, session: Session, username: Option<string>, host: string)
    requires cli.server == Some(host) && ':' !in host
    ensures Merge(cli, config, session, username).server == host + TLS_PORT_SUFFIX
    ensures Merge(cli, config, session, username).tls
  {
    var s := host + TLS_PORT_SUFFIX;
    assert s[|s| - |TLS_PORT_SUFFIX|..] == TLS_PORT_SUFFIX;
  }

  /** `has_explicit_cli_args`: any flag that skips the interactive setup. */
  function HasExplicitCliArgs(cli: Cli): (r: bool)
    ensures r <==> cli.server.Some? || cli.nick.Some? || cli.handle.Some? || cli.did.Some? ||
                   cli.appPassword.Some? || cli.genKey || cli.irohAddr.Some? || cli.channels.Some?
    ensures !r ==> Merge(cli, Config(None, None, None, None, None, None, None, None), Session(None, None, None, []), None).channels == [DEFAULT_CHANNEL]
  {
    cli.server.Some? || cli.nick.Some? || cli.handle.Some? || cli.did.Some? || cli.appPassword.Some? ||
    cli.genKey || cli.irohAddr.Some? || cli.channels.Some?
  }

  /** `has_saved_session`: a handle is remembered, so the client can log in again unattended. */
  function HasSavedSession(config: Config, session: Session): (r: bool)
    ensures r <==> config.handle.Some? || session.handle.Some?
    ensures r <==> Merge(Cli(None, None, None, None, None, false, None, None, false, false, false), config, session, None).handle.Some?
  {
    config.handle.Some? || session.handle.Some?
  }
}
