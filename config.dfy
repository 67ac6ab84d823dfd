/**
 * The start-up decisions of `main`, `checkparams` and `opendb`: which input
 * to index, where each database parameter comes from, and the DSN handed to
 * the MySQL driver.  Every `os.Exit` becomes an error value with its status.
 */
module Config {
  import opened Wrappers
  import opened Text

  /** What to index: a tar archive (`-T`) or a directory tree (`-D`). */
  datatype Input = TarFile(path: string) | Directory(path: string)

  datatype ConfigError =
    | NoInput                 // "Please use -T or -D flag"
    | BothInputs              // "Flags -T and -D are mutually exclusive"
    | Missing(envvar: string) // "Parameter or environment variable was not passed: <envvar>"
  {
    /** Every one of these ends the process with `os.Exit(1)`. */
    function ExitStatus(): (c: int)
      ensures c == 1
    {
      1
    }
  }

  /** The check of `main` that exactly one of `-T` and `-D` is given. */
  function SelectInput(tarfile: string, directory: string): (r: Result<Input, ConfigError>)
    ensures r == Ok(TarFile(tarfile)) <==> tarfile != "" && directory == ""
    ensures r == Ok(Directory(directory)) <==> tarfile == "" && directory != ""
    ensures r == Err(NoInput) <==> tarfile == "" && directory == ""
    ensures r == Err(BothInputs) <==> tarfile != "" && directory != ""
  {
    if tarfile == "" && directory == "" then Err(NoInput)
    else if tarfile != "" && directory != "" then Err(BothInputs)
    else if tarfile != "" then Ok(TarFile(tarfile))
    else Ok(Directory(directory))
  }

  /** `os.Getenv`: an unset variable reads as the empty string. */
  function Getenv(env: map<string, string>, name: string): (v: string)
    ensures name !in env ==> v == ""
  {
    if name in env then env[name] else ""
  }

  /** `validate`: the flag when it is set, else the environment variable, else exit. */
  function Resolve(flag: string, env: map<string, string>, envvar: string): (r: Result<string, ConfigError>)
    ensures r.Ok? <==> flag != "" || Getenv(env, envvar) != ""
    ensures r.Ok? ==> r.value != ""
    ensures flag != "" ==> r == Ok(flag)
    ensures flag == "" && r.Ok? ==> r.value == Getenv(env, envvar)
    ensures r.Err? ==> r.error == Missing(envvar)
  {
    if flag != "" then Ok(flag)
    else if Getenv(env, envvar) == "" then Err(Missing(envvar))
    else Ok(Getenv(env, envvar))
  }

  /** The four connection parameters. */
  datatype Params = Params(database: string, user: string, password: string, host: string)

  /** `checkparams`: the parameters are validated in this order, and the first missing one exits. */
  function CheckParams(opts: Params, env: map<string, string>): (r: Result<Params, ConfigError>)
    ensures r.Ok? ==> r.value.database != "" && r.value.user != "" && r.value.password != "" && r.value.host != ""
  {
    var database := Resolve(opts.database, env, "DATABASE");
    if database.Err? then Err(database.error) else
    var user := Resolve(opts.user, env, "DBUSER");
    if user.Err? then Err(user.error) else
    var password := Resolve(opts.password, env, "DBPASSWORD");
    if password.Err? then Err(password.error) else
    var host := Resolve(opts.host, env, "DBHOST");
    if host.Err? then Err(host.error) else
    Ok(Params(database.value, user.value, password.value, host.value))
  }

  /** With every flag set the environment is never consulted. */
  lemma FlagsWin(opts: Params, env: map<string, string>)
    requires opts.database != "" && opts.user != "" && opts.password != "" && opts.host != ""
    ensures CheckParams(opts, env) == Ok(opts)
  {
  }

  /** The error names the first parameter, in the order of `checkparams`, that neither source gives. */
  lemma FirstMissing(opts: Params, env: map<string, string>)
    ensures CheckParams(opts, env).Err? <==>
      Resolve(opts.database, env, "DATABASE").Err? || Resolve(opts.user, env, "DBUSER").Err? ||
      Resolve(opts.password, env, "DBPASSWORD").Err? || Resolve(opts.host, env, "DBHOST").Err?
    ensures Resolve(opts.database, env, "DATABASE").Err? ==> CheckParams(opts, env) == Err(Missing("DATABASE"))
    ensures Resolve(opts.database, env, "DATABASE").Ok? && Resolve(opts.user, env, "DBUSER").Err? ==>
      CheckParams(opts, env) == Err(Missing("DBUSER"))
    ensures (Resolve(opts.database, env, "DATABASE").Ok? && Resolve(opts.user, env, "DBUSER").Ok? &&
             Resolve(opts.password, env, "DBPASSWORD").Err?) ==>
      CheckParams(opts, env) == Err(Missing("DBPASSWORD"))
    ensures (Resolve(opts.database, env, "DATABASE").Ok? && Resolve(opts.user, env, "DBUSER").Ok? &&
             Resolve(opts.password, env, "DBPASSWORD").Ok? && Resolve(opts.host, env, "DBHOST").Err?) ==>
      CheckParams(opts, env) == Err(Missing("DBHOST"))
    ensures CheckParams(opts, env).Ok? ==>
      CheckParams(opts, env).value == Params(Resolve(opts.database, env, "DATABASE").value,
                                             Resolve(opts.user, env, "DBUSER").value,
                                             Resolve(opts.password, env, "DBPASSWORD").value,
                                             Resolve(opts.host, env, "DBHOST").value)
  {
  }

  /** What `main` does before opening the database: the input check first, then the parameters. */
  function Startup(tarfile: string, directory: string, opts: Params, env: map<string, string>)
    : (r: Result<(Input, Params), ConfigError>)
    ensures SelectInput(tarfile, directory).Err? ==> r == Err(SelectInput(tarfile, directory).error)
    ensures r.Ok? ==> Ok(r.value.0) == SelectInput(tarfile, directory) && Ok(r.value.1) == CheckParams(opts, env)
  {
    match SelectInput(tarfile, directory)
    case Err(e) => Err(e)
    case Ok(input) =>
      match CheckParams(opts, env)
      case Err(e) => Err(e)
      case Ok(params) => Ok((input, params))
  }

  /** The driver's protocol and parameters: a host starting with `/` is a unix socket. */
  function Transport(host: string): (string, string)
  {
    if HasPrefix(host, "/") then ("unix", "charset=utf8mb4" + "&loc=local")
    else ("tcp", "charset=utf8mb4")
  }

  /** The DSN `opendb` gives `sql.Open`: `user:password@proto(host)/database?params`. */
  function Dsn(p: Params): string
  {
    var (proto, params) := Transport(p.host);
    p.user + ":" + p.password + "@" + proto + "(" + p.host + ")/" + p.database + "?" + params
  }

  /** The parts of a DSN of the shape above. */
  datatype DsnParts = DsnParts(user: string, password: string, proto: string, host: string,
                               database: string, params: string)

  /**
   * Reads a DSN back into its parts: the database and parameters after the
   * last '/', split at their first '?'; before that '/', the credentials up
   * to the last '@', split at their first ':'; and the address after that
   * '@', `proto(host)`.  Cutting at the last '@' lets the password hold any
   * character.
   */
  function ParseDsn(dsn: string): Option<DsnParts>
  {
    if '/' !in dsn then None else
    var (address, tail) := SplitLast(dsn, '/');
    if '?' !in tail then None else
    var (database, params) := SplitFirst(tail, '?');
    match ParseAddress(address)
    case None => None
    case Some((user, password, proto, host)) => Some(DsnParts(user, password, proto, host, database, params))
  }

  /** Reads `user:password@proto(host)` back into its four parts. */
  function ParseAddress(address: string): Option<(string, string, string, string)>
  {
    if '@' !in address then None else
    var (credentials, net) := SplitLast(address, '@');
    if ':' !in credentials then None else
    var (user, password) := SplitFirst(credentials, ':');
    match ParseNet(net)
    case None => None
    case Some((proto, host)) => Some((user, password, proto, host))
  }

  /** Reads `proto(host)` back: the protocol up to the first '(', the host up to the final ')'. */
  function ParseNet(net: string): Option<(string, string)>
  {
    if '(' !in net || !EndsWith(net, ')') then None else
    var (proto, rest) := SplitFirst(net, '(');
    if rest == [] then None else Some((proto, rest[..|rest| - 1]))
  }

  /** The layout of a DSN: the address, '/', then the database and its parameters. */
  function Layout(d: DsnParts): string
  {
    Address(d) + ['/'] + (d.database + ['?'] + d.params)
  }

  /** `user:password@proto(host)`. */
  function Address(d: DsnParts): string
  {
    (d.user + [':'] + d.password) + ['@'] + Net(d.proto, d.host)
  }

  function Net(proto: string, host: string): string
  {
    proto + ['('] + host + [')']
  }

  lemma LayoutOfDsn(p: Params)
    ensures var (proto, params) := Transport(p.host);
      Dsn(p) == Layout(DsnParts(p.user, p.password, proto, p.host, p.database, params))
  {
  }

  /**
   * `ParseDsn` undoes the layout of a DSN when the user holds no ':', the
   * protocol and the host no '@', the protocol no '(', and the database and
   * the parameters no '/', the database no '?'.  The password is free.
   */
  lemma ParseLayout(d: DsnParts)
    requires ':' !in d.user && '@' !in d.proto && '@' !in d.host && '(' !in d.proto
    requires '/' !in d.database && '/' !in d.params && '?' !in d.database
    ensures ParseDsn(Layout(d)) == Some(d)
  {
    var tail := d.database + ['?'] + d.params;
    assert '/' !in tail;
    SplitLastUnique(Layout(d), '/', Address(d), tail);
    SplitFirstUnique(tail, '?', d.database, d.params);
    ParseAddressLayout(d);
  }

  lemma ParseAddressLayout(d: DsnParts)
    requires ':' !in d.user && '@' !in d.proto && '@' !in d.host && '(' !in d.proto
    ensures ParseAddress(Address(d)) == Some((d.user, d.password, d.proto, d.host))
  {
    var net := Net(d.proto, d.host);
    assert '@' !in net;
    SplitLastUnique(Address(d), '@', d.user + [':'] + d.password, net);
    SplitFirstUnique(d.user + [':'] + d.password, ':', d.user, d.password);
    ParseNetLayout(d.proto, d.host);
  }

  lemma ParseNetLayout(proto: string, host: string)
    requires '(' !in proto
    ensures ParseNet(Net(proto, host)) == Some((proto, host))
  {
    SplitFirstUnique(Net(proto, host), '(', proto, host + [')']);
    assert (host + [')'])[..|host|] == host;
  }

  /**
   * The DSN carries each parameter unchanged, whatever the password holds;
   * its protocol is `unix`, with `loc=local` added to the driver parameters,
   * exactly when the host starts with `/`, and `tcp` otherwise.  This holds
   * as long as the user holds no ':', the host no '@' and the database
   * neither '/' nor '?'.
   */
  lemma DsnRoundTrip(p: Params)
    requires ':' !in p.user && '@' !in p.host && '/' !in p.database && '?' !in p.database
    ensures ParseDsn(Dsn(p)) == Some(DsnParts(p.user, p.password,
              if HasPrefix(p.host, "/") then "unix" else "tcp", p.host, p.database,
              if HasPrefix(p.host, "/") then "charset=utf8mb4&loc=local" else "charset=utf8mb4"))
  {
    var (proto, params) := Transport(p.host);
    assert proto == if HasPrefix(p.host, "/") then "unix" else "tcp";
    assert params == if HasPrefix(p.host, "/") then "charset=utf8mb4&loc=local" else "charset=utf8mb4";
    assert '(' !in proto && '@' !in proto && '/' !in params;
    LayoutOfDsn(p);
    ParseLayout(DsnParts(p.user, p.password, proto, p.host, p.database, params));
  }
}
