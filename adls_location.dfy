/** Parser for Azure Data Lake Storage Gen2 and Blob storage locations of the
    form  <scheme>://[<container>@]<host>[/<path>].

    A location is either decomposed into its scheme, optional container, host,
    storage account and path, or rejected with the validation message
    "Invalid ADLS URI: " followed by the input.  Nothing is decoded: the path
    keeps percent-escapes and characters such as '?' exactly as given. */
module ADLSLocation {
  import opened Wrappers
  import opened Strings

  /** The accepted dialects: Data Lake Gen2 (abfs, abfss) and legacy Blob
      (wasb, wasbs).  Matching is exact and case-sensitive. */
  datatype Scheme = Abfs | Abfss | Wasb | Wasbs {
    function Name(): string {
      match this
      case Abfs => "abfs"
      case Abfss => "abfss"
      case Wasb => "wasb"
      case Wasbs => "wasbs"
    }
  }

  /** The scheme spelled `name`, if `name` is one of the accepted ones. */
  function SchemeNamed(name: string): (r: Option<Scheme>)
    ensures forall sc: Scheme :: r == Some(sc) <==> sc.Name() == name
  {
    if name == "abfs" then Some(Abfs)
    else if name == "abfss" then Some(Abfss)
    else if name == "wasb" then Some(Wasb)
    else if name == "wasbs" then Some(Wasbs)
    else None
  }

  /** A parsed location.  `container` is absent when the authority has no
      '@'; `path` is empty, never absent, when nothing follows the authority. */
  datatype Location = Location(
    scheme: Scheme,
    container: Option<string>,
    host: string,
    storageAccount: string,
    path: string)

  /** The storage account named by a host: its first dot-delimited label,
      whatever the cloud suffix after it. */
  function FirstLabel(host: string): (account: string)
    ensures '.' !in account
    ensures account == host || account + "." <= host
  {
    SplitFirstPrefixFree(host, '.');
    SplitFirst(host, ".").0
  }

  /** Everything after "://": the authority up to the first '/', split at its
      first '@' into container and host, and the path after that '/'. */
  function Decompose(scheme: Scheme, rest: string): Location {
    var (authority, path) := SplitFirst(rest, "/");
    var (container, host) := SplitFirst(authority, "@");
    match host
    case Some(h) => Location(scheme, Some(container), h, FirstLabel(h), path.GetOr(""))
    case None => Location(scheme, None, authority, FirstLabel(authority), path.GetOr(""))
  }

  /** The location named by `raw`, or the validation message when `raw` has
      no "://" or the text before its first "://" is not an accepted scheme. */
  function Parse(raw: string): (r: Result<Location, string>)
    ensures r.Failure? ==> r.error == "Invalid ADLS URI: " + raw
  {
    var (name, rest) := SplitFirst(raw, "://");
    var scheme := SchemeNamed(name);
    if rest.Some? && scheme.Some? then Success(Decompose(scheme.value, rest.value))
    else Failure("Invalid ADLS URI: " + raw)
  }

  /** The text between "://" and the path: `container@host`, or `host`. */
  function Authority(loc: Location): string {
    match loc.container
    case Some(c) => c + "@" + loc.host
    case None => loc.host
  }

  /** The canonical spelling  scheme://[container@]host/path  of a location. */
  function Render(loc: Location): string {
    loc.scheme.Name() + "://" + (Authority(loc) + "/" + loc.path)
  }

  /** The shape of every location the parser can produce: no '/' before the
      path, no '@' in the container (or anywhere in the authority when there
      is no container), and the storage account is the host's first label. */
  predicate WellFormed(loc: Location) {
    && '/' !in loc.host
    && (match loc.container
        case Some(c) => '/' !in c && '@' !in c
        case None => '@' !in loc.host)
    && '.' !in loc.storageAccount
    && (loc.storageAccount == loc.host || loc.storageAccount + "." <= loc.host)
  }

  /** The first label of a host is the text before its first '.'. */
  lemma FirstLabelOf(host: string, account: string)
    requires '.' !in account
    requires account == host || account + "." <= host
    ensures FirstLabel(host) == account
  {
    if account == host {
      SplitFirstAbsent(host, '.');
    } else {
      var suffix := host[|account| + 1..];
      assert host == account + "." + suffix by {
        assert host == host[..|account| + 1] + suffix;
      }
      NoOccurrenceBefore(host, ".", |account|);
      SplitFirstAt(host, ".", account, suffix);
    }
  }

  /** An accepted scheme followed by "://" is recognised as that scheme, and
      the parse continues with the rest of the input. */
  lemma ParseScheme(scheme: Scheme, rest: string)
    ensures Parse(scheme.Name() + "://" + rest) == Success(Decompose(scheme, rest))
  {
    var raw := scheme.Name() + "://" + rest;
    var name := scheme.Name();
    assert raw[..|name|] == name;
    NoOccurrenceBefore(raw, "://", |name|);
    SplitFirstAt(raw, "://", name, rest);
  }

  /** How the text after "://" is cut: the authority ends at the first '/';
      the container is present exactly when the authority has an '@', and is
      then the '@'-free text before the first '@' with the host after it;
      otherwise the host is the whole authority.  Without a '/' the path is
      empty. */
  lemma DecomposeAuthority(scheme: Scheme, authority: string, path: Option<string>)
    requires '/' !in authority
    ensures var loc := Decompose(scheme,
                                 if path.Some? then authority + "/" + path.value else authority);
      && loc.scheme == scheme
      && loc.path == path.GetOr("")
      && (loc.container.Some? <==> '@' in authority)
      && (loc.container.Some? ==>
            '@' !in loc.container.value && authority == loc.container.value + "@" + loc.host)
      && (loc.container.None? ==> loc.host == authority)
      && loc.storageAccount == FirstLabel(loc.host)
  {
    var rest := if path.Some? then authority + "/" + path.value else authority;
    if path.Some? {
      assert rest[..|authority|] == authority;
      NoOccurrenceBefore(rest, "/", |authority|);
      SplitFirstAt(rest, "/", authority, path.value);
    } else {
      SplitFirstAbsent(rest, '/');
    }
    SplitFirstPrefixFree(authority, '@');
    var (container, host) := SplitFirst(authority, "@");
    if host.None? {
      AbsentCharNotIn(authority, '@');
    }
  }

  /** A '/' that ends the authority with nothing after it changes nothing. */
  lemma DecomposeTrailingSlash(scheme: Scheme, authority: string)
    requires '/' !in authority
    ensures Decompose(scheme, authority + "/") == Decompose(scheme, authority)
    ensures Decompose(scheme, authority).path == ""
  {
    var withSlash := authority + "/";
    SplitFirstAbsent(authority, '/');
    assert withSlash == authority + "/" + "";
    assert withSlash[..|authority|] == authority;
    NoOccurrenceBefore(withSlash, "/", |authority|);
    SplitFirstAt(withSlash, "/", authority, "");
  }

  /** Exactly the inputs that start with an accepted scheme followed by
      "://" are accepted; every other input is rejected with the message
      that echoes it. */
  lemma ParseAcceptsExactly(raw: string)
    ensures Parse(raw).Success? <==> exists sc: Scheme :: sc.Name() + "://" <= raw
    ensures Parse(raw).Failure? ==> Parse(raw).error == "Invalid ADLS URI: " + raw
  {
    var (name, rest) := SplitFirst(raw, "://");
    if Parse(raw).Success? {
      var sc := SchemeNamed(name).value;
      assert sc.Name() + "://" <= raw;
    }
    if sc: Scheme :| sc.Name() + "://" <= raw {
      var tail := raw[|sc.Name()| + 3..];
      assert raw == sc.Name() + "://" + tail;
      ParseScheme(sc, tail);
    }
  }

  /** The text after "://" in the canonical spelling of a well-formed
      location decomposes back into that location. */
  lemma DecomposeRendered(loc: Location)
    requires WellFormed(loc)
    ensures Decompose(loc.scheme, Authority(loc) + "/" + loc.path) == loc
  {
    var authority := Authority(loc);
    var rest := authority + "/" + loc.path;
    assert rest[..|authority|] == authority;
    NoOccurrenceBefore(rest, "/", |authority|);
    SplitFirstAt(rest, "/", authority, loc.path);
    match loc.container {
      case Some(c) =>
        assert authority[..|c|] == c;
        NoOccurrenceBefore(authority, "@", |c|);
        SplitFirstAt(authority, "@", c, loc.host);
      case None =>
        SplitFirstAbsent(authority, '@');
    }
    FirstLabelOf(loc.host, loc.storageAccount);
  }

  /** Parsing the canonical spelling of a well-formed location gives that
      location back. */
  lemma RoundTrip(loc: Location)
    requires WellFormed(loc)
    ensures Parse(Render(loc)) == Success(loc)
  {
    var rest := Authority(loc) + "/" + loc.path;
    assert Render(loc) == loc.scheme.Name() + "://" + rest;
    ParseScheme(loc.scheme, rest);
    DecomposeRendered(loc);
  }

  /** Whatever follows "://", its decomposition is well formed, and the
      authority, '/' and path of that decomposition spell it again (without
      the '/' when the text had none and the path is empty). */
  lemma DecomposeSound(scheme: Scheme, rest: string)
    ensures WellFormed(Decompose(scheme, rest))
    ensures var loc := Decompose(scheme, rest);
      Authority(loc) + "/" + loc.path == rest || (loc.path == "" && Authority(loc) == rest)
  {
    var (authority, path) := SplitFirst(rest, "/");
    SplitFirstPrefixFree(rest, '/');
    assert rest == if path.Some? then authority + "/" + path.value else authority;
    DecomposeAuthority(scheme, authority, path);
    assert Authority(Decompose(scheme, rest)) == authority;
  }

  /** Every accepted input is the canonical spelling of a well-formed
      location, or that spelling without the '/' before an empty path. */
  lemma ParseSound(raw: string)
    requires Parse(raw).Success?
    ensures WellFormed(Parse(raw).value)
    ensures var loc := Parse(raw).value;
      Render(loc) == raw || (loc.path == "" && Render(loc) == raw + "/")
  {
    var split := SplitFirst(raw, "://");
    var scheme := SchemeNamed(split.0).value;
    var rest := split.1.value;
    var loc := Decompose(scheme, rest);
    assert Parse(raw) == Success(loc);
    DecomposeSound(scheme, rest);
    var prefix := scheme.Name() + "://";
    assert raw == prefix + rest;
    var tail := Authority(loc) + "/" + loc.path;
    if tail != rest {
      assert tail == rest + "/";
      assert raw + "/" == prefix + (rest + "/");
    }
  }

  /** Re-parsing the canonical spelling of a parsed location gives the same
      location: parsing is stable under rendering. */
  lemma ReparseStable(raw: string)
    requires Parse(raw).Success?
    ensures Parse(Render(Parse(raw).value)) == Parse(raw)
  {
    ParseSound(raw);
    RoundTrip(Parse(raw).value);
  }
}
