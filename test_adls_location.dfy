/** The behaviour pinned down by the location parser's test suite, each test
    generalised to every input of the shape it exercises, with the suite's
    own instances of the two rejection messages derived from the general
    statements. */
module TestADLSLocation {
  import opened Wrappers
  import opened Strings
  import opened ADLSLocation

  /** With a container, any scheme and any cloud suffix: the storage account
      is the label before the first '.', the container is present and the
      path comes back verbatim (percent-escapes and '?' included). */
  lemma LocationParsing(scheme: Scheme, container: string, account: string, suffix: string, path: string)
    requires '/' !in container && '@' !in container
    requires '/' !in account && '.' !in account && '/' !in suffix
    ensures Parse(scheme.Name() + "://" + container + "@" + account + "." + suffix + "/" + path)
         == Success(Location(scheme, Some(container), account + "." + suffix, account, path))
  {
    var loc := Location(scheme, Some(container), account + "." + suffix, account, path);
    assert WellFormed(loc);
    assert Render(loc)
        == scheme.Name() + "://" + container + "@" + account + "." + suffix + "/" + path;
    RoundTrip(loc);
  }

  /** An input without "://" is rejected, echoing the input. */
  lemma MissingScheme(raw: string)
    requires !Contains(raw, "://")
    ensures Parse(raw) == Failure("Invalid ADLS URI: " + raw)
  {
  }

  /** The suite's instance of a bare path. */
  lemma MissingSchemeInstance()
    ensures Parse("/path/to/file") == Failure("Invalid ADLS URI: /path/to/file")
  {
    SuiteStrings();
    NoOccurrenceBefore("/path/to/file", "://", 13);
    MissingScheme("/path/to/file");
  }

  /** The suite's literal strings, spelled as the concatenations the general
      lemmas speak of. */
  lemma SuiteStrings()
    ensures "/path/to/file"[..13] == "/path/to/file"
    ensures "Invalid ADLS URI: " + "/path/to/file" == "Invalid ADLS URI: /path/to/file"
    ensures "s3" + "://" + "bucket/path/to/file" == "s3://bucket/path/to/file"
    ensures "Invalid ADLS URI: " + "s3://bucket/path/to/file" == "Invalid ADLS URI: s3://bucket/path/to/file"
  {
    assert "s3" + "://" == "s3://";
  }

  /** A well-formed scheme outside abfs, abfss, wasb and wasbs is rejected
      with the same message, echoing the whole input. */
  lemma InvalidScheme(name: string, rest: string)
    requires ':' !in name
    requires forall sc: Scheme :: sc.Name() != name
    ensures Parse(name + "://" + rest) == Failure("Invalid ADLS URI: " + (name + "://" + rest))
  {
    var raw := name + "://" + rest;
    assert raw[..|name|] == name;
    NoOccurrenceBefore(raw, "://", |name|);
    SplitFirstAt(raw, "://", name, rest);
  }

  /** The suite's instance of a foreign cloud's scheme. */
  lemma InvalidSchemeInstance()
    ensures Parse("s3://bucket/path/to/file") == Failure("Invalid ADLS URI: s3://bucket/path/to/file")
  {
    SuiteStrings();
    InvalidScheme("s3", "bucket/path/to/file");
  }

  /** Without an '@' the container is absent, and the storage account and
      path are extracted as with one. */
  lemma NoContainer(scheme: Scheme, account: string, suffix: string, path: string)
    requires '@' !in account && '/' !in account && '.' !in account
    requires '@' !in suffix && '/' !in suffix
    ensures Parse(scheme.Name() + "://" + account + "." + suffix + "/" + path)
         == Success(Location(scheme, None, account + "." + suffix, account, path))
  {
    var loc := Location(scheme, None, account + "." + suffix, account, path);
    assert WellFormed(loc);
    assert Render(loc) == scheme.Name() + "://" + account + "." + suffix + "/" + path;
    RoundTrip(loc);
  }

  /** When nothing follows the authority the path is the empty string, and
      the location is the one a trailing '/' would give. */
  lemma NoPath(scheme: Scheme, authority: string)
    requires '/' !in authority
    ensures Parse(scheme.Name() + "://" + authority).Success?
    ensures Parse(scheme.Name() + "://" + authority).value.path == ""
    ensures Parse(scheme.Name() + "://" + authority) == Parse(scheme.Name() + "://" + authority + "/")
  {
    var raw := scheme.Name() + "://" + authority;
    var withSlash := scheme.Name() + "://" + (authority + "/");
    assert raw + "/" == withSlash;
    DecomposeTrailingSlash(scheme, authority);
    ParseScheme(scheme, authority);
    ParseScheme(scheme, authority + "/");
    assert Parse(withSlash) == Parse(raw);
  }

  /** The shape of the suite's input without a path,
      `scheme://container@host`: the container and host come back as given,
      the storage account is the host's first label and the path is empty. */
  lemma NoPathWithContainer(scheme: Scheme, container: string, host: string)
    requires '/' !in container && '@' !in container && '/' !in host
    ensures Parse(scheme.Name() + "://" + (container + "@" + host))
         == Success(Location(scheme, Some(container), host, FirstLabel(host), ""))
  {
    var authority := container + "@" + host;
    ParseScheme(scheme, authority);
    SplitFirstAbsent(authority, '/');
    assert authority[..|container|] == container;
    NoOccurrenceBefore(authority, "@", |container|);
    SplitFirstAt(authority, "@", container, host);
  }

  /** Whatever follows the authority's '/' is the path, verbatim: a literal
      '?', an encoded "%3F" and percent-escapes in general survive. */
  lemma QuestionMarkInFileName(scheme: Scheme, authority: string, path: string)
    requires '/' !in authority
    ensures Parse(scheme.Name() + "://" + authority + "/" + path).Success?
    ensures Parse(scheme.Name() + "://" + authority + "/" + path).value.path == path
  {
    assert scheme.Name() + "://" + authority + "/" + path
        == scheme.Name() + "://" + (authority + "/" + path);
    ParseScheme(scheme, authority + "/" + path);
    DecomposeAuthority(scheme, authority, Some(path));
  }

  /** The host is the authority after the '@', or the whole authority without
      one, verbatim for any scheme and any cloud suffix. */
  lemma Host(scheme: Scheme, container: Option<string>, host: string, path: string)
    requires '/' !in host
    requires container.Some? ==> '/' !in container.value && '@' !in container.value
    requires container.None? ==> '@' !in host
    ensures var authority := if container.Some? then container.value + "@" + host else host;
      var r := Parse(scheme.Name() + "://" + (authority + "/" + path));
      r.Success? && r.value.host == host && r.value.container == container
  {
    var loc := Location(scheme, container, host, FirstLabel(host), path);
    assert WellFormed(loc);
    RoundTrip(loc);
  }
}
