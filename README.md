# ADLS location parsing

A Dafny model of `ADLSLocation`, the value Apache Iceberg's Azure module
builds from a storage location string of the form

    <scheme>://[<container>@]<host>[/<path>]

The constructor either succeeds and exposes `storageAccount()`,
`container()` (optional), `host()` and `path()`, or throws a
`ValidationException` whose message is `Invalid ADLS URI: ` followed by the
input. Only the parser's test suite is part of this model; the model is
written against what those tests assert, generalised to every input of the
shape each test exercises.

Files:

- `wrappers.dfy`: module `Wrappers`, with `Option` (the optional container)
  and `Result` (a location, or the validation message in place of the
  exception).
- `strings.dfy`: module `Strings`. It finds the first occurrence of a
  separator and splits a string there. The parser splits its input four
  times, each time at the first occurrence: `://`, then `/`, then `@`, then `.`.
- `adls_location.dfy`: module `ADLSLocation`, the parser itself. `Scheme`
  lists the accepted dialects. `Location` is the parsed value. `Parse` is the
  constructor. `Render` is the canonical spelling
  `scheme://[container@]host/path`. `WellFormed` is the shape of every parse
  result. The lemmas tie these together.
- `test_adls_location.dfy`: module `TestADLSLocation`. Each test of the
  suite becomes a universally quantified lemma. The two rejection tests also
  keep their literal instances, because the exact message strings matter.

Parsing rules as modelled:

- The scheme is the text before the first `://`. It must be exactly `abfs`,
  `abfss`, `wasb` or `wasbs`; matching is case-sensitive. Any other input,
  including one with no `://`, is rejected with `Invalid ADLS URI: <input>`.
- The authority runs up to the first `/` after `://`. Everything after that
  `/` is the path, kept verbatim. Percent-escapes are not decoded, and a `?`
  is part of the path, not a query delimiter. With no `/`, the path is `""`.
- If the authority contains an `@`, the container is the text before the
  first `@` and the host is the text after it. Otherwise the container is
  absent and the host is the whole authority.
- The storage account is the host's text before its first `.`. This holds
  for every cloud suffix.

## Model

| member | source | states |
|---|---|---|
| `ADLSLocation.SchemeNamed` | azure/src/test/java/org/apache/iceberg/azure/adlsv2/TestADLSLocation.java:31-51 | a name maps to a scheme exactly when it is that scheme's spelling (`abfs`, `abfss`, `wasb`, `wasbs`), otherwise to none |
| `ADLSLocation.FirstLabel` | azure/src/test/java/org/apache/iceberg/azure/adlsv2/TestADLSLocation.java:37 | the storage account contains no `.` and is the whole host or the host's prefix up to its first `.` |
| `ADLSLocation.Parse` | azure/src/test/java/org/apache/iceberg/azure/adlsv2/TestADLSLocation.java:63-74 | every rejection carries the message `Invalid ADLS URI: ` followed by the whole input |
| `ADLSLocation.FirstLabelOf` | azure/src/test/java/org/apache/iceberg/azure/adlsv2/TestADLSLocation.java:105-118 | for a host spelled `account.suffix` with a dot-free `account`, or a dot-free host, the storage account is `account`, whatever the suffix |
| `ADLSLocation.ParseScheme` | azure/src/test/java/org/apache/iceberg/azure/adlsv2/TestADLSLocation.java:31-51 | any accepted scheme followed by `://` is recognised as that scheme, and the parse then depends only on the text after `://` |
| `ADLSLocation.DecomposeAuthority` | azure/src/test/java/org/apache/iceberg/azure/adlsv2/TestADLSLocation.java:77-95 | the authority ends at the first `/`. The container is present iff the authority has an `@`; it is then `@`-free, and the authority is container + `@` + host. Without an `@` the host is the whole authority. The path is the text after the `/`, or `""` when there is none |
| `ADLSLocation.DecomposeTrailingSlash` | azure/src/test/java/org/apache/iceberg/azure/adlsv2/TestADLSLocation.java:87-94 | an authority with nothing after it gives the empty path and the same location as the authority followed by `/` |
| `ADLSLocation.ParseAcceptsExactly` | azure/src/test/java/org/apache/iceberg/azure/adlsv2/TestADLSLocation.java:63-74 | an input is accepted iff it starts with one of the four schemes followed by `://`; every other input is rejected with the echoing message |
| `ADLSLocation.DecomposeRendered` | azure/src/test/java/org/apache/iceberg/azure/adlsv2/TestADLSLocation.java:31-118 | the text after `://` in the canonical spelling of a well-formed location decomposes back into that location |
| `ADLSLocation.RoundTrip` | azure/src/test/java/org/apache/iceberg/azure/adlsv2/TestADLSLocation.java:31-118 | parsing `scheme://[container@]host/path` of any well-formed location returns exactly that location |
| `ADLSLocation.DecomposeSound` | azure/src/test/java/org/apache/iceberg/azure/adlsv2/TestADLSLocation.java:31-118 | whatever follows `://` decomposes into a well-formed location. Its authority, `/` and path spell that text again, minus the `/` when the text had none and the path is empty |
| `ADLSLocation.ParseSound` | azure/src/test/java/org/apache/iceberg/azure/adlsv2/TestADLSLocation.java:31-118 | every accepted input yields a well-formed location. The input is that location's canonical spelling, or, when the path is empty, that spelling without its final `/` |
| `ADLSLocation.ReparseStable` | azure/src/test/java/org/apache/iceberg/azure/adlsv2/TestADLSLocation.java:31-118 | re-parsing the canonical spelling of a parsed location gives the same location |
| `TestADLSLocation.LocationParsing` | azure/src/test/java/org/apache/iceberg/azure/adlsv2/TestADLSLocation.java:31-60 | for every scheme, container, account, suffix and path, `scheme://container@account.suffix/path` parses to account `account`, container present and equal to `container`, host `account.suffix`, and the path verbatim (percent-escapes included) |
| `TestADLSLocation.MissingScheme` | azure/src/test/java/org/apache/iceberg/azure/adlsv2/TestADLSLocation.java:63-67 | every input without `://` is rejected with `Invalid ADLS URI: ` followed by the input |
| `TestADLSLocation.MissingSchemeInstance` | azure/src/test/java/org/apache/iceberg/azure/adlsv2/TestADLSLocation.java:63-67 | `/path/to/file` is rejected with exactly `Invalid ADLS URI: /path/to/file` |
| `TestADLSLocation.InvalidScheme` | azure/src/test/java/org/apache/iceberg/azure/adlsv2/TestADLSLocation.java:70-74 | any colon-free scheme other than the four, followed by `://` and anything, is rejected with the message echoing the whole input |
| `TestADLSLocation.InvalidSchemeInstance` | azure/src/test/java/org/apache/iceberg/azure/adlsv2/TestADLSLocation.java:70-74 | `s3://bucket/path/to/file` is rejected with exactly `Invalid ADLS URI: s3://bucket/path/to/file` |
| `TestADLSLocation.NoContainer` | azure/src/test/java/org/apache/iceberg/azure/adlsv2/TestADLSLocation.java:77-84 | an authority without `@` gives an absent container, the whole authority as host, and the account and path as usual |
| `TestADLSLocation.NoPath` | azure/src/test/java/org/apache/iceberg/azure/adlsv2/TestADLSLocation.java:87-94 | `scheme://authority` with no `/` is accepted with path `""`, and parses the same as `scheme://authority/` |
| `TestADLSLocation.NoPathWithContainer` | azure/src/test/java/org/apache/iceberg/azure/adlsv2/TestADLSLocation.java:87-94 | `scheme://container@host` with no `/` parses to that container and host, the host's first label as account, and path `""` |
| `TestADLSLocation.QuestionMarkInFileName` | azure/src/test/java/org/apache/iceberg/azure/adlsv2/TestADLSLocation.java:97-103 | whatever follows the authority's `/` is returned as the path unchanged, including a literal `?` and an encoded `%3F` |
| `TestADLSLocation.Host` | azure/src/test/java/org/apache/iceberg/azure/adlsv2/TestADLSLocation.java:105-118 | for any scheme and host, the host is returned verbatim whether or not a container precedes it, and the container is exactly the one given |

## Left out

- The `ADLSLocation` class file is not part of this model. Whatever matching the class does is replaced by first-occurrence splits that give the tested results.
- Authority terminators other than `/`: `Parse` ends the authority only at `/`, so a `?` or `#` before the first `/` stays in the host (or container). `DecomposeAuthority`, `LocationParsing`, `NoContainer`, `QuestionMarkInFileName`, `Host` and `NoPathWithContainer` state this for such authorities too. No test exercises this case, and the class may treat it differently.
- Several `@` signs in the authority: the container is the text before the first `@`, and the host keeps any later `@`. No test exercises this case.
- An empty container (`scheme://@host/...`): it parses as a present, empty container. No test exercises this case.
- An empty authority or host: it is accepted, so the storage account can be the empty string. No property claims the account is non-empty.
- Repeated slashes: only the one `/` that ends the authority is dropped. So `abfs://host//x` has path `/x`; paths are not normalised.
- `ValidationException` is modelled as the `Failure` arm of `Result`, carrying its message. The exception type itself is not modelled.
- The test framework is not modelled: parameterised sources and AssertJ assertions become lemmas.
- Callers of the parser are not modelled: the Azure file IO, the network client and credential resolution.
