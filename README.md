# Mail-to-Discord bot: sender filter and configuration loading

This project models two parts of a Go service that polls an IMAP inbox and
forwards new mail from allowed sender domains to a Discord webhook:

- **The domain filter** (`internal/mail/filter.go`). `FilterMessages` makes one
  pass over the fetched messages. It keeps a message when it has at least one
  `From` address, the first address (lower-cased) ends in `@` plus an allowed
  domain (lower-cased), and, when `unreadOnly` is set, the message has no
  `\Seen` flag. `isAllowedDomain` scans the allow-list and returns at the first
  match. Both are `method`s with the loops of the source (`continue`, the
  inner flag loop with `break`, the early `return`). They are proved equal to
  the pure specification `Keep` / `Filtered` / `AllowedDomain`, and the
  properties are lemmas about those functions.
- **Configuration loading** (`internal/config/config.go`). The package-global
  `App` is the field `app` of the class `Config.AppState`. Its methods
  `Load`, `LoadFromYaml` and `LoadFromEnv` update it field by field as the
  source does. Each is tied by its postcondition to a pure function of the old
  state (`LoadOutcome`, `YamlOutcome`, `EnvOutcome`, `ApplyEnv`). `Validate`
  and `ParseEnvInt` are pure functions.

Module layout: `Wrappers` (Option), `Strings` (ASCII `ToLower`, `HasSuffix`),
`Mail` (filter.go), `Config` (config.go).

Inputs that stand for library calls and I/O:
- An environment variable is looked up in an `Environment` map. A missing key
  reads as `""`, as `os.Getenv` does.
- `strconv.ParseInt` and `time.ParseDuration` are function parameters
  `string -> Option<int>`. `None` is a parse error.
- `os.ReadFile("config.yaml")` is an `Option<seq<bv8>>`. `None` is a read
  error.
- `yaml.Unmarshal` is a parameter `(seq<bv8>, Config) -> Decoded`. Given the
  bytes and the current `App`, it gives the state it leaves in `App` and
  whether it succeeded. A failed decode may leave part of its work behind.
- A duration is an `int` count of nanoseconds. `Hour` is 3 600 000 000 000.
- `imap.SeenFlag` is the constant `"\\Seen"`.
- A message is the list of strings that `From[i].Address()` returns, plus
  its flags.

## Model

| member | source | states |
|---|---|---|
| `Strings.ToLower` | internal/mail/filter.go:59 | the result has the input's length, and each character is the ASCII lower-case form of the input's character at the same place |
| `Strings.HasSuffixMeansEndsWith` | internal/mail/filter.go:59 | the suffix test holds exactly when the string is some prefix followed by the suffix |
| `Strings.ToLowerConcat` | internal/mail/filter.go:59 | lower-casing `"@" + domain` is `"@"` followed by the lower-cased domain (lower-casing distributes over concatenation) |
| `Strings.ToLowerKeepsAt` | internal/mail/filter.go:59 | lower-casing neither adds nor removes an `@` |
| `Mail.NewDomainFilter` | internal/mail/filter.go:16-21 | the filter holds exactly the given allow-list and unread-only flag |
| `Mail.IsAllowedDomain` | internal/mail/filter.go:57-64 | returns true exactly when some allow-list entry `d` has `"@" + lower(d)` as a suffix of `lower(email)` (both directions) |
| `Mail.FilterMessages` | internal/mail/filter.go:24-54 | the returned list is the stable filter of the input by the keep decision: has a sender, first sender allowed, and no `\Seen` flag when unread-only |
| `Mail.SuffixAfterAt` | internal/mail/filter.go:59 | for a string whose text after its last `@` is `h`, ending in `"@" + d` (with no `@` in `d`) is the same as `d == h` |
| `Mail.DomainPartMatch` | internal/mail/filter.go:59 | for any local part, when neither the text after the last `@` nor the entry contains an `@`, the suffix test is exact case-insensitive equality of that text with the entry |
| `Mail.SingleDomainAllowList` | internal/mail/filter.go:57-64 | with a one-entry allow-list, an address whose text after the last `@` has no `@` is allowed iff that text equals the entry, ignoring case (entry without `@`) |
| `Mail.EntryWithAtMatches` | internal/mail/filter.go:59 | an address that ends in `@` followed by the entry always passes the suffix test, even when the entry itself contains an `@` (`a@b@example.com` passes for the entry `b@example.com`) |
| `Mail.MixedCaseDomainMatches` | internal/mail/filter.go:59 | any `local@Example.com` is allowed by the entry `example.com` |
| `Mail.LookAlikeDomainRejected` | internal/mail/filter.go:59 | no `local@evilexample.com` is allowed by the entry `example.com` |
| `Mail.SubdomainRejected` | internal/mail/filter.go:59 | no `local@sub.example.com` is allowed by the entry `example.com` |
| `Mail.EmptyAllowListAllowsNothing` | internal/mail/filter.go:57-64 | with an empty allow-list no address is allowed |
| `Mail.OnlyFirstSenderConsulted` | internal/mail/filter.go:32-35 | the decision for a message with a sender depends only on `From[0]`: replacing the later senders by anything gives the same decision |
| `Mail.LaterAllowedSenderIgnored` | internal/mail/filter.go:27-35 | a message from `a@evil.org` whose second sender `b@example.com` is allowed is still dropped by the allow-list `[example.com]`, whatever its flags |
| `Mail.FlagsIgnoredWhenNotUnreadOnly` | internal/mail/filter.go:38-49 | when unread-only is off, changing a message's flags never changes the decision |
| `Mail.FilteredConcat` | internal/mail/filter.go:24-54 | filtering two lists joined together gives the two filtered lists joined together |
| `Mail.FilteredMembership` | internal/mail/filter.go:24-54 | a message is in the output iff it is in the input and passes the keep decision (soundness and completeness) |
| `Mail.FilteredCount` | internal/mail/filter.go:24-54 | each kept message occurs in the output as often as in the input; each dropped one occurs zero times |
| `Mail.FilteredIsSubsequence` | internal/mail/filter.go:24-54 | the output is a subsequence of the input: nothing is added and relative order is kept |
| `Mail.FilteredUnique` | internal/mail/filter.go:24-54 | any subsequence of the input with exactly those counts equals the output, so the preceding two properties determine the filter |
| `Mail.FilteredIdempotent` | internal/mail/filter.go:24-54 | filtering the output again with the same filter returns it unchanged |
| `Mail.NoSenderDropped` | internal/mail/filter.go:27-29 | a message with an empty `From` list never appears in the output |
| `Mail.UnreadOnlyDropsSeen` | internal/mail/filter.go:38-49 | with unread-only set, no message in the output has the `\Seen` flag |
| `Mail.EmptyAllowListFiltersAll` | internal/mail/filter.go:57-63 | with an empty allow-list the output is empty |
| `Mail.FlagsIrrelevantWhenNotUnreadOnly` | internal/mail/filter.go:38-49 | with unread-only off, clearing all flags before filtering gives the output with its flags cleared: flags decide nothing |
| `Mail.EnvOnlyConfigForwardsNothing` | internal/mail/client.go:27-28 | when the configuration comes from the environment alone, the filter the mail check builds drops every message |
| `Config.Validate` | internal/config/config.go:90-104 | fails iff host, username, password or webhook URL is empty. It reports host first, then username, then password, then webhook URL. Each error is reported exactly when its field is the first empty one |
| `Config.ValidateIgnoresOtherFields` | internal/config/config.go:90-104 | port, check interval and allow-list have no influence on the verdict |
| `Config.ParseEnvInt` | internal/config/config.go:106-113 | returns the parsed value when the variable is non-empty and parses, and the default when it is empty or does not parse |
| `Config.EnvInterval` | internal/config/config.go:74-83 | the resulting interval is never zero. An empty or unparsable variable keeps a non-zero previous interval and turns a zero previous interval into exactly one hour. An empty variable is never parsed. A parsed zero becomes one hour. A parsed non-zero value is taken as is. The result is always one hour, the previous value or the value parsed from a non-empty variable |
| `Config.ApplyEnv` | internal/config/config.go:68-85 | host, username, password and webhook URL become the environment's values, and the port becomes `ParseEnvInt(MAIL_PORT, 993)`, whatever they were before. The interval follows `EnvInterval`. The allow-list is unchanged |
| `Config.PortDefaultsTo993` | internal/config/config.go:70 | after the environment step the port is 993 when MAIL_PORT is unset or does not parse |
| `Config.ApplyEnvForgetsOtherFields` | internal/config/config.go:68-88 | two states that agree on interval and allow-list give the same result from the same environment |
| `Config.ApplyEnvIdempotent` | internal/config/config.go:68-88 | applying the environment step twice gives the same state as once |
| `Config.YamlSuccessIgnoresEnv` | internal/config/config.go:45-53 | when the YAML path reads, decodes and validates, Load's result is the YAML result and does not depend on the environment |
| `Config.FallbackAppliesEnvOnYamlState` | internal/config/config.go:45-66 | when the YAML path fails, Load is the environment step applied to the state the YAML path left. That state is the old one if the file could not be read, and the decoder's output otherwise |
| `Config.YamlFieldsSurviveFallback` | internal/config/config.go:45-88 | after a fallback the allow-list is the one the YAML decode wrote. So is the interval, when MAIL_CHECK_INTERVAL is unset and the decoded interval is non-zero |
| `Config.LoadSucceedsIffValid` | internal/config/config.go:45-104 | Load reports no error iff the configuration it leaves passes validation. Its only possible error is that validation error |
| `Config.EnvFallbackIntervalNonZero` | internal/config/config.go:81-83 | after a fallback to the environment the interval is never zero |
| `Config.YamlZeroIntervalAccepted` | internal/config/config.go:55-66 | a valid YAML configuration with a zero interval loads without error and keeps the zero interval |
| `Config.EnvOnlyAllowListEmpty` | internal/config/config.go:68-88 | starting from the zero value with no readable file, Load leaves the allow-list empty |
| `Config.AppState.constructor` | internal/config/config.go:43 | the global starts as the zero `Config` |
| `Config.AppState.LoadFromEnv` | internal/config/config.go:68-88 | the new `App` is `ApplyEnv` of the old one, and the error is the validation verdict on the new state |
| `Config.AppState.LoadFromYaml` | internal/config/config.go:55-66 | a read error leaves `App` unchanged. Otherwise `App` becomes what the decoder left. The error is the read error, the decode error or the validation verdict, in that order |
| `Config.AppState.Load` | internal/config/config.go:45-53 | the new `App` and the error are those of `LoadOutcome`: the YAML path if it succeeds, otherwise the environment step on top of what it left |

## Where the code departs from the intended behaviour

The model follows the code in each of these points:
- The intended rule is "the text after `@` equals an allowed domain". The
  code tests for a suffix `"@" + domain`. The two agree, whatever the local
  part, when neither the text after the last `@` nor the entry contains an
  `@` (`Mail.DomainPartMatch`). They differ only for an entry that contains an
  `@`, tested against an address with more than one `@`: `a@b@example.com`
  passes the suffix test for the entry `b@example.com`
  (`Mail.EntryWithAtMatches`). Against an address with a single `@`, such an
  entry fails both rules.
- The polling interval is meant to be positive. `validate` does not check the
  interval. A YAML file without `check_interval` loads with interval zero
  (`Config.YamlZeroIntervalAccepted`). A negative MAIL_CHECK_INTERVAL such as
  `-5m` parses and is kept (`Config.EnvInterval`).
- No environment variable supplies the allow-list. A deployment configured
  only through the environment has an empty allow-list, so it forwards
  nothing (`Mail.EnvOnlyConfigForwardsNothing`).
- The unread policy is a flag of the filter (`unreadOnly`), not always on. The
  mail check passes `true` (internal/mail/client.go:27).

## Left out

- internal/mail/client.go is not part of this model: TLS dial, login, select, search since one hour ago, and the goroutine and channel fetch loop are network I/O. Only its use of the filter (lines 27-28) appears, in `Mail.EnvOnlyConfigForwardsNothing`.
- internal/discord/discord.go is not part of this model: JSON payload construction, the HTTP POST and status-code checks are wire format and network I/O.
- internal/scheduler/cron.go and cmd/main.go are not part of this model: the cron library, process start-up, `log.Fatal` and signal handling.
- The library calls `os.ReadFile`, `os.Getenv`, `yaml.Unmarshal`, `Duration.UnmarshalYAML`, `time.ParseDuration` and `strconv.ParseInt` are not reimplemented. They are inputs of the model, as described above.
- Strings.ToLower: models only ASCII lower-casing. Go's `strings.ToLower` also folds non-ASCII letters, and Unicode case tables are not modelled.
- Config.ParseEnvInt: does not bound the parsed value to 64 bits. `strconv.ParseInt(value, 10, 64)` rejects out-of-range input, and on a 64-bit platform `int(parsed)` loses nothing, so the parser input stands for both.
- Mail.FilterMessages: works on message values. The Go slice holds pointers, and the output shares them with the input. The filter never writes through them, so this aliasing is not modelled.
- A message with a nil `Envelope` makes the Go filter panic (internal/mail/filter.go:27). Here every message has an envelope.
- Error values are modelled by kind (`LoadError`, `ConfigError`); the message texts of the validation errors are not modelled. The wrapped Go error values from the file system and the decoder are not modelled.
