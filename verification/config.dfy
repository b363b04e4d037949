/**
 * `initConfig`: where the daemon's settings come from. A flag the user set
 * on the command line beats the configuration file; an unset flag defers to
 * the file, and a key the file lacks reads as the zero value. The resolved
 * Docker host becomes a `tcp://<host>:<port>` URL only for a positive port.
 */
module Config {
  import opened Errors

  /** Go's `int32`. */
  newtype int32 = x: int | -0x8000_0000 <= x < 0x8000_0000

  datatype Option<T> = None | Some(value: T)

  /** A registered command-line flag: its current value and whether the user set it. */
  datatype Flag<T> = Flag(value: T, changed: bool)

  /** The four flags `initConfig` resolves (the config-file flag is handled separately). */
  datatype Flags = Flags(dockerRegistry: Flag<string>, dockerHost: Flag<string>, dockerPort: Flag<int32>, dnsHost: Flag<string>)

  /** A configuration file's contents, by key, as strings and as 32-bit integers. */
  datatype Values = Values(strings: map<string, string>, int32s: map<string, int32>)

  /** The package-level settings `initConfig` assigns. */
  datatype Settings = Settings(dockerRegistry: string, dockerHost: string, dnsHost: string)

  const RegistryKey: string := "docker-registry"
  const HostKey: string := "docker-host"
  const PortKey: string := "docker-port"
  const DnsKey: string := "dns-host"

  /** The package defaults, which stand until `initConfig` assigns. */
  const Defaults: Settings := Settings("dockerhub.build.couchbase.com", "/var/run/docker.sock", "")

  /** The flags as registered: the package defaults, port 0, none set by the user. */
  const Registered: Flags := Flags(Flag(Defaults.dockerRegistry, false), Flag(Defaults.dockerHost, false),
                                   Flag(0, false), Flag(Defaults.dnsHost, false))

  /** A configuration file with no keys: what a missing or unreadable file reads as. */
  const NoValues: Values := Values(map[], map[])

  /** `getStringArg`: a set flag wins; otherwise the file's value, or "" when the file lacks the key. */
  function StringArg(flag: Flag<string>, values: Values, key: string): (v: string)
    ensures flag.changed ==> v == flag.value
    ensures !flag.changed && key in values.strings ==> v == values.strings[key]
    ensures !flag.changed && key !in values.strings ==> v == ""
  {
    if flag.changed then flag.value
    else if key in values.strings then values.strings[key]
    else ""
  }

  /** `getInt32Arg`: a set flag wins; otherwise the file's value, or 0 when the file lacks the key. */
  function Int32Arg(flag: Flag<int32>, values: Values, key: string): (v: int32)
    ensures flag.changed ==> v == flag.value
    ensures !flag.changed && key in values.int32s ==> v == values.int32s[key]
    ensures !flag.changed && key !in values.int32s ==> v == 0
  {
    if flag.changed then flag.value
    else if key in values.int32s then values.int32s[key]
    else 0
  }

  /** An unset flag's value never matters: only whether it was set does. */
  lemma UnsetFlagValueIgnored(x: string, y: string, values: Values, key: string)
    ensures StringArg(Flag(x, false), values, key) == StringArg(Flag(y, false), values, key)
  {
  }

  /** A set flag makes the configuration file irrelevant. */
  lemma SetFlagOverridesFile(flag: Flag<string>, a: Values, b: Values, key: string)
    requires flag.changed
    ensures StringArg(flag, a, key) == StringArg(flag, b, key) == flag.value
  {
  }

  // Decimal notation, as Go's `%d` prints a non-negative integer.

  predicate IsDigit(c: char)
  {
    '0' <= c <= '9'
  }

  predicate IsDecimal(s: string)
  {
    forall i :: 0 <= i < |s| ==> IsDigit(s[i])
  }

  function DigitChar(d: nat): (c: char)
    requires d < 10
    ensures IsDigit(c) && DigitValue(c) == d
  {
    (48 + d) as char
  }

  function DigitValue(c: char): nat
    requires IsDigit(c)
  {
    c as int - 48
  }

  /** The shortest decimal notation of `n`: no leading zero unless `n` is zero. */
  function DecimalDigits(n: nat): (s: string)
    ensures |s| > 0 && IsDecimal(s)
    ensures s[0] == '0' ==> n == 0
  {
    if n < 10 then [DigitChar(n)] else DecimalDigits(n / 10) + [DigitChar(n % 10)]
  }

  /** The number a string of decimal digits denotes. */
  function ParseDecimal(s: string): nat
    requires IsDecimal(s)
  {
    if |s| == 0 then 0 else ParseDecimal(s[..|s| - 1]) * 10 + DigitValue(s[|s| - 1])
  }

  /** Printing then parsing a number gives it back. */
  lemma {:induction false} ParsePrinted(n: nat)
    ensures ParseDecimal(DecimalDigits(n)) == n
  {
    if n >= 10 {
      var s := DecimalDigits(n);
      assert s[..|s| - 1] == DecimalDigits(n / 10);
      ParsePrinted(n / 10);
    }
  }

  /** A digit string without a leading zero denotes a positive number. */
  lemma {:induction false} LeadingDigitPositive(s: string)
    requires IsDecimal(s) && |s| > 0 && s[0] != '0'
    ensures ParseDecimal(s) > 0
  {
    if |s| > 1 {
      LeadingDigitPositive(s[..|s| - 1]);
    }
  }

  /** Parsing then printing a digit string without a leading zero gives it back. */
  lemma {:induction false} PrintParsed(s: string)
    requires IsDecimal(s) && |s| > 0 && s[0] != '0'
    ensures DecimalDigits(ParseDecimal(s)) == s
  {
    if |s| > 1 {
      var front := s[..|s| - 1];
      LeadingDigitPositive(front);
      PrintParsed(front);
      var n := ParseDecimal(s);
      assert n / 10 == ParseDecimal(front) && n % 10 == DigitValue(s[|s| - 1]);
      assert DigitChar(n % 10) == s[|s| - 1];
      assert s == front + [s[|s| - 1]];
    }
  }

  /**
   * `dockerHost` after `initConfig`: a TCP URL for a positive port, the plain
   * host otherwise. In the URL the last ':' separates the host, whatever
   * colons it contains, from the port's digits.
   */
  function DockerHost(host: string, port: int32): (h: string)
    ensures port <= 0 ==> h == host
    ensures port > 0 ==> |h| >= 6 && h[..6] == "tcp://"
                         && SplitAtLastColon(h[6..]) == Some((host, DecimalDigits(port as nat)))
  {
    if port > 0 then
      var digits := DecimalDigits(port as nat);
      var h := "tcp://" + host + ":" + digits;
      assert h[6..] == host + [':'] + digits;
      assert ':' !in digits by {
        assert forall i :: 0 <= i < |digits| ==> IsDigit(digits[i]);
      }
      var split := SplitAtLastColon(h[6..]);
      SplitIsUnique(host, digits, split.value.0, split.value.1);
      h
    else host
  }

  /** Splits `s` at its last ':'; None when there is none. */
  function SplitAtLastColon(s: string): (r: Option<(string, string)>)
    ensures r.None? <==> ':' !in s
    ensures r.Some? ==> s == r.value.0 + [':'] + r.value.1 && ':' !in r.value.1
  {
    if |s| == 0 then None
    else if s[|s| - 1] == ':' then Some((s[..|s| - 1], []))
    else
      match SplitAtLastColon(s[..|s| - 1])
      case None => None
      case Some((front, back)) =>
        assert s == s[..|s| - 1] + [s[|s| - 1]];
        Some((front, back + [s[|s| - 1]]))
  }

  /**
   * Reads a `tcp://<host>:<port>` URL with a positive 32-bit port in
   * shortest decimal notation back into its host and port.
   */
  function ParseTcpHost(s: string): (r: Option<(string, int32)>)
    ensures r.Some? ==> r.value.1 > 0 && DockerHost(r.value.0, r.value.1) == s
  {
    if |s| < 6 || s[..6] != "tcp://" then None
    else
      match SplitAtLastColon(s[6..])
      case None => None
      case Some((host, digits)) =>
        if IsDecimal(digits) && |digits| > 0 && digits[0] != '0' && ParseDecimal(digits) < 0x8000_0000
        then
          TcpHostParsed(s, host, digits);
          Some((host, ParseDecimal(digits) as int32))
        else None
  }

  /** A URL split at its last ':' into a host and canonical digits is the formatted URL of that host and port. */
  lemma TcpHostParsed(s: string, host: string, digits: string)
    requires |s| >= 6 && s[..6] == "tcp://" && s[6..] == host + [':'] + digits
    requires IsDecimal(digits) && |digits| > 0 && digits[0] != '0' && ParseDecimal(digits) < 0x8000_0000
    ensures ParseDecimal(digits) > 0 && DockerHost(host, ParseDecimal(digits) as int32) == s
  {
    PrintParsed(digits);
    LeadingDigitPositive(digits);
    var port := ParseDecimal(digits) as int32;
    assert DecimalDigits(port as nat) == digits;
    calc {
      s;
      s[..6] + s[6..];
      "tcp://" + host + ":" + digits;
      DockerHost(host, port);
    }
  }

  /** A positive port's URL reads back as exactly that host and port, whatever the host contains. */
  lemma TcpHostRoundTrip(host: string, port: int32)
    requires port > 0
    ensures ParseTcpHost(DockerHost(host, port)) == Some((host, port))
  {
    ParsePrinted(port as nat);
  }

  /** Two ways of writing a string as `a + ":" + b` with no ':' in `b` coincide. */
  lemma SplitIsUnique(a: string, b: string, c: string, d: string)
    requires a + [':'] + b == c + [':'] + d
    requires ':' !in b && ':' !in d
    ensures a == c && b == d
  {
    var s := a + [':'] + b;
    assert forall i :: |a| < i < |s| ==> s[i] == b[i - |a| - 1];
    assert forall i :: |c| < i < |s| ==> s[i] == d[i - |c| - 1];
    assert s[|a|] == ':' && s[|c|] == ':';
    assert a == s[..|a|] && c == s[..|c|];
    assert b == s[|a| + 1..] && d == s[|c| + 1..];
  }

  /** The settings the flags and a configuration file resolve to. */
  function Resolve(flags: Flags, values: Values): (s: Settings)
    ensures flags.dockerRegistry.changed ==> s.dockerRegistry == flags.dockerRegistry.value
    ensures flags.dnsHost.changed ==> s.dnsHost == flags.dnsHost.value
    ensures flags.dockerHost.changed && flags.dockerPort.changed ==> s.dockerHost == DockerHost(flags.dockerHost.value, flags.dockerPort.value)
  {
    Settings(StringArg(flags.dockerRegistry, values, RegistryKey),
             DockerHost(StringArg(flags.dockerHost, values, HostKey), Int32Arg(flags.dockerPort, values, PortKey)),
             StringArg(flags.dnsHost, values, DnsKey))
  }

  /** Every flag marked as not set by the user, with its value kept. */
  function Unset(flags: Flags): Flags
  {
    Flags(flags.dockerRegistry.(changed := false), flags.dockerHost.(changed := false),
          flags.dockerPort.(changed := false), flags.dnsHost.(changed := false))
  }

  /**
   * `createConfigFile`: the flags' current values, the port only when
   * positive. Read back with no flag set, the file alone reproduces the
   * settings the flags describe.
   */
  function Written(flags: Flags): (values: Values)
    ensures PortKey in values.int32s <==> flags.dockerPort.value > 0
    ensures Resolve(Unset(flags), values)
         == Settings(flags.dockerRegistry.value, DockerHost(flags.dockerHost.value, flags.dockerPort.value), flags.dnsHost.value)
  {
    Values(map[RegistryKey := flags.dockerRegistry.value, HostKey := flags.dockerHost.value, DnsKey := flags.dnsHost.value],
           if flags.dockerPort.value > 0 then map[PortKey := flags.dockerPort.value] else map[])
  }

  /** Where the configuration file is looked for, and what the file system answers. */
  datatype Location =
    | Given(read: Result<Values>)
    | InHome(home: Result<string>, present: bool, create: MaybeError, read: Result<Values>)

  /** How `initConfig` ends: the process exits, or the settings are assigned. */
  datatype Outcome = Exited(error: Error) | Configured(settings: Settings)

  /**
   * `initConfig`. An unreadable file is read as empty. When the home
   * directory cannot be found the process exits; when the default file is
   * missing it is created from the flags and then read, and when it cannot
   * be created `initConfig` returns at once, leaving the package defaults.
   */
  function InitConfig(flags: Flags, location: Location): (o: Outcome)
    ensures o.Exited? <==> location.InHome? && location.home.Err?
    ensures location.InHome? && location.home.Ok? && !location.present && location.create.NonNil? ==> o == Configured(Defaults)
  {
    match location
    case Given(read) => Configured(Resolve(flags, Contents(read)))
    case InHome(home, present, create, read) =>
      if home.Err? then Exited(home.error)
      else if present then Configured(Resolve(flags, Contents(read)))
      else if create.NonNil? then Configured(Defaults)
      else Configured(Resolve(flags, Written(flags)))
  }

  function Contents(read: Result<Values>): Values
  {
    if read.Ok? then read.value else NoValues
  }

  /** A file that could not be created leaves the package defaults, even over flags the user set. */
  lemma CreateFailureKeepsDefaults(flags: Flags, home: string, e: Error, read: Result<Values>)
    ensures InitConfig(flags, InHome(Ok(home), false, NonNil(e), read)) == Configured(Defaults)
  {
  }

  /**
   * A freshly created default file holds the flags' values, so reading it
   * back resolves every setting to its flag's value, set by the user or not.
   */
  lemma FreshFileMirrorsFlags(flags: Flags, home: string, read: Result<Values>)
    ensures InitConfig(flags, InHome(Ok(home), false, Nil, read))
         == Configured(Settings(flags.dockerRegistry.value,
                                DockerHost(flags.dockerHost.value, flags.dockerPort.value),
                                flags.dnsHost.value))
  {
  }

  /**
   * A file that lacks every key resolves the unset flags to empty settings:
   * the flags' registered defaults are not consulted.
   */
  lemma MissingKeysReadAsEmpty()
    ensures Resolve(Registered, NoValues) == Settings("", "", "")
  {
  }

  /**
   * The resolved Docker host is the resolved host string itself for a
   * non-positive port, and otherwise a URL that reads back as exactly the
   * resolved host and port.
   */
  lemma ResolvedDockerHost(flags: Flags, values: Values)
    ensures var host := StringArg(flags.dockerHost, values, HostKey);
            var port := Int32Arg(flags.dockerPort, values, PortKey);
            && (port <= 0 ==> Resolve(flags, values).dockerHost == host)
            && (port > 0 ==> ParseTcpHost(Resolve(flags, values).dockerHost) == Some((host, port)))
  {
    var port := Int32Arg(flags.dockerPort, values, PortKey);
    if port > 0 {
      TcpHostRoundTrip(StringArg(flags.dockerHost, values, HostKey), port);
    }
  }

  /** The string a setting resolves to from its flag and a file's contents. */
  function Chosen(flag: Flag<string>, file: Values, key: string): string
  {
    if flag.changed then flag.value else if key in file.strings then file.strings[key] else ""
  }

  /**
   * With a file named on the command line, or a default file that already
   * exists, the settings come from the flags and that file: a set flag's
   * value is the setting; an unset flag defers to the file's value for its
   * key, and to the empty value when the file lacks the key or could not be
   * read. The Docker host is the chosen host for a non-positive chosen port,
   * and otherwise a URL that reads back as exactly the chosen host and port.
   */
  lemma ExistingFileResolves(flags: Flags, location: Location)
    requires location.Given? || (location.InHome? && location.home.Ok? && location.present)
    ensures var o := InitConfig(flags, location);
            var file := if location.read.Ok? then location.read.value else NoValues;
            var host := Chosen(flags.dockerHost, file, HostKey);
            var port := if flags.dockerPort.changed then flags.dockerPort.value
                        else if PortKey in file.int32s then file.int32s[PortKey] else 0;
            && o.Configured?
            && o.settings.dockerRegistry == Chosen(flags.dockerRegistry, file, RegistryKey)
            && o.settings.dnsHost == Chosen(flags.dnsHost, file, DnsKey)
            && (port <= 0 ==> o.settings.dockerHost == host)
            && (port > 0 ==> ParseTcpHost(o.settings.dockerHost) == Some((host, port)))
  {
    var file := Contents(location.read);
    ResolvedDockerHost(flags, file);
  }
}
