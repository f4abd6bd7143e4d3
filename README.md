# botpower, modelled in Dafny

botpower is a command-line tool that switches the outlets of an IP9258
network power switch. It builds a `cmd=setpower+p6<n>=<0|1>+...` (write) or
`cmd=getpower` (read) query and sends it to `http://<hostname><api_url>`.
It then turns the device's free-form reply into a short outlet status report.

This project models the string logic of that tool:

- `Request` (request.dfy) models `set_outlet`: the action is looked up in the
  `{"off": "0", "on": "1"}` table, one `p6<n>=<digit>` pair is emitted per
  addressed outlet, and the pairs are joined by `+` with no trailing separator.
  `SetOutlet` is the source's loop, proved equal to the specification
  function `OutletParams`.
- `Response` (response.dfy) models `parse_response`. `re.findall` becomes
  the scan `FindAllFrom` (and the loop `FindAll`). The scan is proved equal to
  a reference that takes the match at every position, since two matches can
  never overlap. Each match becomes an `outlet: <d> power: <on|off>` line
  under a title and a rule of 21 dashes. An unknown state digit raises
  KeyError. `ParseResponse` is the source's loop, proved equal to
  `ParseStatus`.
- `Driver` (driver.dfy) models the part of `main` after the configuration is
  loaded:
  - the command-line overrides of `hostname`, `username` and `password`;
  - the query string;
  - the request URL.
- `RoundTrip` (roundtrip.dfy) shows that the parser's pattern reads back
  exactly the pairs the builder emits, in order. Parsing a write fragment
  therefore reports exactly the outlets it switched.
- `Samples` (samples.dfy) holds worked instances.
- `Wrappers` (wrappers.dfy) holds the Result and Option types and the model of
  a dict subscript (`Lookup`), whose only failure is `KeyError(key)`.

Strings are Dafny `string`s. A Python exception is the `Err` branch of a
`Result`.

## Model

| member | source | states |
|---|---|---|
| Request.SetOutlet | botpower.py:12-35 | the fragment the loop accumulates is `OutletParams(outlet, action)`: the pairs of the addressed outlets joined by `+`, or KeyError(action) for an action other than on/off |
| Request.SingleOutletParams | botpower.py:31-33 | a single outlet `n` with on/off gives exactly `p6<n>=1` or `p6<n>=0`, with no `+` in it |
| Request.AllOutletsParams | botpower.py:23-29 | `all` gives the pairs of outlets 1, 2, 3 and 4, in that order, joined by `+` |
| Request.AllOutletsLayout | botpower.py:23-29 | the `all` fragment has 23 characters and exactly three `+`, and its last character is the state digit, not a `+` |
| Request.FragmentLayout | botpower.py:23-33 | for any CLI outlet token the fragment has `6n-1` characters for `n` addressed outlets, `n-1` separators, and ends in the state digit |
| Request.JoinSeparatorCount | botpower.py:28-29 | joining `n` pieces that contain no `+` puts `n-1` separators in the result |
| Request.UnknownActionFails | botpower.py:21-33 | the builder fails exactly when the action is neither on nor off (`display` included), and the failure is KeyError(action) |
| Response.FindAllFrom | botpower.py:46 | every element the scan returns is a five-character `p6<digit>=<digit>` match |
| Response.FindAll | botpower.py:46 | the scan loop returns `Matches(t)`, the matches of `re.findall` |
| Response.FindAllIsEveryMatch | botpower.py:46 | resuming after each match finds the match at every position where the pattern matches (matches never overlap) |
| Response.NoMatchesIff | botpower.py:46-47 | `re.findall` finds nothing exactly when no position of the text starts a match |
| Response.FindAllShift | botpower.py:46 | text placed before the scanned string does not change what the scan finds in that string |
| Response.MatchesAfterPair | botpower.py:46 | a match at the front of the text is found first, followed by the matches of the rest |
| Response.Repeat | botpower.py:49 | `"-" * n` has length n and every character is `-` |
| Response.StatusLinesOk | botpower.py:50-52 | the report lines succeed exactly when every state digit is 0 or 1, and then they are one line per match in order, each with its outlet digit and power name |
| Response.StatusLinesFirstFailure | botpower.py:50-52 | when the lines fail, the KeyError names the state digit of the first match whose digit is unknown |
| Response.StatusLinesFailFast | botpower.py:50-52 | once a prefix of the matches fails, the whole list fails with the same KeyError |
| Response.ParseStatusEmptyIff | botpower.py:46-54 | parse_response returns the empty string exactly when no position of the reply starts a match |
| Response.ParseStatusReport | botpower.py:38-54 | with known state digits, the result is the title, 21 dashes and one line per match in the order of the reply, or the empty string when there is no match |
| Response.ParseStatusFails | botpower.py:45-52 | parse_response raises KeyError exactly when some matched state digit is neither 0 nor 1, and the key is the first such digit |
| Response.ParseResponse | botpower.py:38-54 | the report the loop accumulates is `ParseStatus(responseTxt)`, with the error of the first unknown state digit |
| Driver.ApplyOverrides | botpower.py:176-183 | the merged configuration has the loaded keys plus the given options; a given option's value replaces its key, and every other key keeps its loaded value |
| Driver.BuildRequestUrl | botpower.py:188-195 | the URL the method assembles is `RequestUrl(cfg, outlet, action)` |
| Driver.QueryCases | botpower.py:188-193 | `display` gives `cmd=getpower` whatever the outlet; on/off give `cmd=setpower+` followed by the builder's fragment; any other action gives KeyError(action) |
| Driver.UrlVerbatim | botpower.py:195 | the URL exists exactly when the configuration has `hostname` and `api_url`; it is `http://` + host + API path + query, verbatim, and ends with the query; a missing host name is reported before a missing API path |
| RoundTrip.MatchesOfJoin | botpower.py:23-29 | pairs joined by `+` are read back by the parser's pattern one by one, none lost and none added |
| RoundTrip.EmittedPairsMatch | botpower.py:24-33 | each emitted pair matches the parser's pattern, and carries its outlet and the action's state digit |
| RoundTrip.BuilderParserRoundTrip | botpower.py:12-54 | parsing the builder's fragment finds exactly the emitted pairs and reports each addressed outlet in order with the requested power |
| RoundTrip.SetpowerPrefixIsInert | botpower.py:190 | the `cmd=setpower+` prefix holds no match, so the pattern finds in the query only what the fragment holds |
| RoundTrip.QueryCarriesPairs | botpower.py:188-191 | the query of a write holds exactly the emitted pairs as pattern matches |
| Samples.AllOnFragment | botpower.py:23-29 | `all` with on is `p61=1+p62=1+p63=1+p64=1` |
| Samples.AllOffFragment | botpower.py:23-29 | `all` with off is `p61=0+p62=0+p63=0+p64=0` |
| Samples.OutOfOrderMatches | botpower.py:46 | in `p63=1 p61=0` the pattern finds `p63=1` and then `p61=0` |
| Samples.OutOfOrderReport | botpower.py:47-52 | the report lists outlet 3 before outlet 1, as the reply does |
| Samples.UncheckedOutletDigit | botpower.py:51-52 | the outlet digit is not checked: `p69=1` reports outlet 9 as on |
| Samples.UnknownStateDigit | botpower.py:52 | `p61=7` raises KeyError("7") |
| Samples.NoStatusInReply | botpower.py:47-54 | a reply without any status pair gives the empty string |

## Left out

- Argument parsing and the usage text (`parse_args`, `print_usage`, lines
  57-160): these are argparse calls. The CLI choices they enforce appear as
  preconditions of the round-trip lemmas, as `ValidOutlets` and `on`/`off`.
  The builder itself is modelled for any outlet string, since it does not
  validate the outlet.
- The missing outlet: argparse's `None` outlet with a write action never
  reaches the builder (it exits at lines 102-104).
  `SetOutlet` takes a string.
- Reading the configuration file (lines 167-173): file I/O and YAML parsing.
  The model takes the loaded configuration as a `map<string, string>`.
- The HTTP request, its basic authentication and the status-code branch
  (lines 197-207): network I/O and printing. So the `username`/`password`
  lookups at line 197 are not modelled. Nor are the prints at lines 185-186.
- `\d` in the patterns is modelled as the ASCII digits 0-9. Python's `re`
  on `str` also matches other Unicode decimal digits. Such a digit in a reply
  would be matched by the source but not by the model. As a state digit it
  would raise KeyError in the source.
- `re.match("p6(\d)=(\d)", s)` at line 51 is not a separate operation. Each
  found string is already known to match, so the groups are its third and
  fifth characters.
- Idempotence of `set_outlet` and `parse_response` has no separate lemma.
  Both are pure functions of their arguments in the model.
