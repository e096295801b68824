# netgearcli core in Dafny

A model of the core of `netgearcli`, a set of command-line tools that drive
the PoE (Power over Ethernet) ports of Netgear switches through the
go-netgear library. The model covers:

- the file-backed token store of package `netgear` (`FileTokenManager`):
  one JSON file `token_<host>.json` per switch in a token directory;
- the `netgear.Client` wrapper: option application in `NewClient`, the
  client's state (`model`, `authenticated`), `GetModel`, `Login`,
  `LoginAuto` and the POE operations with their result shapes;
- the `poe-management` command: port-list parsing (separate arguments and
  comma-separated lists), the command dispatch in `main`, and the enable,
  disable and cycle loops;
- the `poe-status-simple` command: the password lookup in the environment
  (`NETGEAR_PASSWORD_<host>`, then `NETGEAR_SWITCHES="host:password;..."`)
  and the test that decides whether a login error is fatal.

The go-netgear library is not modelled. Every command the client runs is
recorded, in order, and the library's answer to a command is a function of
the whole sequence of commands run so far (`NetgearClient.Library`). The
properties about the commands are therefore statements about which library
commands run, in which order, with which inputs, and how each possible
answer ends the program. The file system is a `TokenStore.Disk` object, a
map from paths to file contents, that the token store's methods change in
place. The environment is a map from variable names to values.

Files:

| file | module | contents |
|---|---|---|
| `results.dfy` | `Results` | `Option` and `Result` |
| `text.dfy` | `Text` | `strings.TrimSpace`, `strings.SplitN(s, sep, 2)`, `strings.Split`, `strings.Contains` |
| `decimal.dfy` | `Decimal` | `strconv.Atoi` on a 64-bit `int` |
| `filepath.dfy` | `FilePath` | `filepath.Base`, `filepath.Join` |
| `token.dfy` | `TokenStore` | `FileTokenManager` over a `Disk` |
| `client.dfy` | `NetgearClient` | `Client`, `POEInterface`, client options |
| `poe_management.dfy` | `PoeManagement` | `parsePorts`, the per-command helpers, `main` |
| `poe_status_simple.dfy` | `PoeStatusSimple` | `getPasswordFromEnv`, the login-error test, `main` |

## Model

| member | source | states |
|---|---|---|
| TokenStore.TokenFileName | pkg/netgear/token.go:71-75 | the file name is `token_` + `filepath.Base(host)` + `.json`; the host is not otherwise rewritten |
| TokenStore.TokenFile | pkg/netgear/token.go:71-75 | `getTokenFile`: that file name inside the token directory |
| TokenStore.TokenFileInDirectory | pkg/netgear/token.go:71-75 | the file name adds a subdirectory (holds a `/`) exactly when the host's base is `/`; for every other host the file lies directly in the token directory |
| TokenStore.SeparatorInFileName | pkg/netgear/token.go:74 | the `token_` prefix and `.json` suffix add no `/` to a file name |
| TokenStore.ReadToken | pkg/netgear/token.go:34-45 | a missing file is a not-exist error, a file that does not decode into a string map is a decoding error, otherwise the "token" value or "" when the key is absent |
| TokenStore.Marshal | pkg/netgear/token.go:55-56 | `json.Marshal` of the one-entry map `{"token": token}`: the file holds a JSON object with that single field |
| TokenStore.Unmarshal | pkg/netgear/token.go:40-43 | `json.Unmarshal` into a `map[string]string` has three outcomes: an object of strings decodes to its fields, JSON `null` decodes without error to an empty (nil) map, and anything else is a decoding error |
| TokenStore.UnmarshalMarshal | pkg/netgear/token.go:40-56 | what SetToken writes decodes back to the map holding the token under "token" |
| TokenStore.TokenFileSameIff | pkg/netgear/token.go:71-75 | two hosts share a token file exactly when `filepath.Base` gives the same last element for both |
| TokenStore.TokenFileKeepsHost | pkg/netgear/token.go:72-74 | a non-empty host without `/` is kept verbatim in the file name `token_<host>.json`; dots and colons are not replaced, despite the comment at line 72 |
| TokenStore.EmptyHostFileName | pkg/netgear/token.go:73-74 | the empty host is the exception: `filepath.Base("")` is `.`, so its file is `token_..json`, not `token_.json` |
| TokenStore.TokenFileOfPathHost | pkg/netgear/token.go:73 | a host written as a path `dir/name` uses the token file of `name` |
| TokenStore.WriteThenRead | pkg/netgear/token.go:32-62 | what SetToken writes, GetToken reads back, for the same host or for any host with the same last path element |
| TokenStore.ReadOtherPath | pkg/netgear/token.go:32-62 | writing one file leaves what is read from every other path |
| TokenStore.WriteLeavesOtherHosts | pkg/netgear/token.go:32-62 | writing one host's token leaves what every host with a different token file reads |
| TokenStore.OverwriteKeepsLast | pkg/netgear/token.go:48-62 | a second SetToken replaces the first; only the last token is read back |
| TokenStore.MissingKeyReadsEmpty | pkg/netgear/token.go:40-45 | a file that decodes (a JSON `null` or an object without "token") reads as the empty token with no error |
| TokenStore.FileTokenManager.constructor | pkg/netgear/token.go:22-30 | an empty directory becomes `.netgear` joined to the home directory; the directory is never empty |
| TokenStore.FileTokenManager.GetToken | pkg/netgear/token.go:32-46 | a missing file or a file that does not decode is an error with token ""; otherwise the stored token, "" when the key is absent; the disk is not changed |
| TokenStore.FileTokenManager.SetToken | pkg/netgear/token.go:48-62 | the host's file now holds `{"token": token}`, reads back as that token, and no other file changes |
| TokenStore.FileTokenManager.RemoveToken | pkg/netgear/token.go:64-68 | an existing file is deleted with no error; a missing file is a not-exist error and nothing changes; afterwards the host's token reads as not-exist |
| NetgearClient.ApplyOptions | pkg/netgear/client.go:44-54 | the options are applied in argument order: the last WithVerbose and the last WithTokenManager decide, the zero value otherwise |
| NetgearClient.LaterVerboseWins | pkg/netgear/client.go:30-34 | a later WithVerbose overrides every earlier one and WithTokenManager does not disturb it |
| NetgearClient.LaterTokenManagerWins | pkg/netgear/client.go:37-41 | a later WithTokenManager overrides every earlier one and WithVerbose does not disturb it |
| NetgearClient.DetectionCaches | pkg/netgear/client.go:71-80 | model detection runs only while the model is "Unknown" and the host is non-empty; a failure keeps "Unknown", a success stores the detected model |
| NetgearClient.Client.constructor | pkg/netgear/client.go:44-63 | NewClient never fails; the model starts "Unknown", the client unauthenticated, with the options of ApplyOptions; `verbose` is copied from them as `GlobalOptions.Verbose` is |
| NetgearClient.Client.IsAuthenticated | pkg/netgear/client.go:65-68 | reads the `authenticated` field |
| NetgearClient.Client.RunCommand | pkg/netgear/client.go:83-241 | each library command is appended to the client's history and answered from it |
| NetgearClient.Client.GetModel | pkg/netgear/client.go:71-80 | runs at most one detection command and returns the cached or newly detected model |
| NetgearClient.Client.Login | pkg/netgear/client.go:83-98 | on a library error: a wrapped login error and no state change; on success: authenticated, then the model detected; authentication is never withdrawn |
| NetgearClient.Client.LoginAuto | pkg/netgear/client.go:101-116 | Login with an empty password; a library error is wrapped as an auto-login error and changes nothing |
| NetgearClient.Client.POE | pkg/netgear/client.go:119-121 | a new POE interface bound to this client |
| NetgearClient.POEInterface.constructor | pkg/netgear/client.go:119-121 | the interface refers to its client |
| NetgearClient.POEInterface.GetStatus | pkg/netgear/client.go:151-166 | one status command on the client's host; an empty list on success, the wrapped error otherwise |
| NetgearClient.POEInterface.GetSettings | pkg/netgear/client.go:169-194 | one show-settings command on the client's host; an empty list on success, the wrapped error otherwise |
| NetgearClient.POEInterface.EnablePort | pkg/netgear/client.go:197-210 | one set-config command for exactly this port with power "enable"; an error names the port |
| NetgearClient.POEInterface.DisablePort | pkg/netgear/client.go:213-226 | one set-config command for exactly this port with power "disable"; an error names the port |
| NetgearClient.POEInterface.CyclePower | pkg/netgear/client.go:229-241 | a single power-cycle command with all the ports; an error names them |
| Text.TrimLeftSpec | cmd/poe-management/main.go:216 | trimming the left cuts off exactly the leading white space: a suffix of the input, not starting with white space |
| Text.TrimRightSpec | cmd/poe-management/main.go:216 | trimming the right cuts off exactly the trailing white space: a prefix of the input, not ending with white space |
| Text.TrimSpace | cmd/poe-management/main.go:216 | the result has no white space at either end |
| Text.TrimSpaceSlice | cmd/poe-management/main.go:216 | the result is a slice of the input with only white space cut off at either end |
| Text.LeftOfPadded | cmd/poe-management/main.go:216 | left trimming removes white-space padding and stops at the first other character |
| Text.RightOfPadded | cmd/poe-management/main.go:216 | right trimming removes white-space padding and stops at the last other character |
| Text.TrimPadded | cmd/poe-management/main.go:216 | trimming removes any white-space padding around a trimmed string and nothing else |
| Text.SplitFirst | cmd/poe-status-simple/main.go:101-102 | no result exactly when the separator is absent; otherwise the head holds no separator and head, separator and tail rebuild the input |
| Text.SplitFirstUnique | cmd/poe-status-simple/main.go:101 | the split is at the first separator: the tail may contain more separators |
| Text.Split | cmd/poe-management/main.go:215 | there is always at least one piece, even for the empty string |
| Text.SplitPiecesLackSeparator | cmd/poe-management/main.go:215 | no piece contains the separator |
| Text.JoinSplit | cmd/poe-management/main.go:215 | joining the pieces with the separator gives back the input |
| Text.SplitJoin | cmd/poe-management/main.go:215 | splitting pieces joined by the separator gives the pieces back when none contains it |
| Text.SplitAtSeparator | cmd/poe-management/main.go:215 | splitting at a separator splits the two sides independently |
| Text.Contains | cmd/poe-status-simple/main.go:69 | `strings.Contains`: the word occurs at the start or somewhere later in the text |
| Text.ContainsIff | cmd/poe-status-simple/main.go:69 | the substring test holds exactly when the word occurs at some index |
| Text.ContainsInfix | cmd/poe-status-simple/main.go:69 | a word occurs in any text built around it |
| Decimal.Atoi | cmd/poe-management/main.go:216 | `strconv.Atoi`: an optional `+` or `-`, one or more ASCII digits, and a value in the int64 range; anything else is an error |
| Decimal.Digits | cmd/poe-management/main.go:216 | the decimal digits of a natural number are non-empty and have that value |
| Decimal.AtoiDecimalString | cmd/poe-management/main.go:216 | `strconv.Atoi` reads back every 64-bit integer from its decimal form, negative ones included |
| Decimal.DecimalStringPlain | cmd/poe-management/main.go:215-216 | a number's decimal form holds no comma and no white space (in `unicode.IsSpace`'s set) at either end, so it survives splitting and trimming |
| FilePath.StripTrailingSeparators | pkg/netgear/token.go:73 | a prefix of the path without a trailing `/`, only `/` cut off |
| FilePath.LastElement | pkg/netgear/token.go:73 | the suffix after the last `/`, holding no `/` |
| FilePath.Base | pkg/netgear/token.go:73 | never empty, and either `/` or a name without `/` |
| FilePath.BaseOfName | pkg/netgear/token.go:73 | a plain name is its own base |
| FilePath.LastElementOfName | pkg/netgear/token.go:73 | a name without `/` is its own last element |
| FilePath.LastElementAfterSeparator | pkg/netgear/token.go:73 | the last element of `dir/name` is `name` |
| FilePath.BaseOfJoined | pkg/netgear/token.go:73 | the base of `dir/name` is `name` |
| FilePath.BaseIgnoresTrailingSeparator | pkg/netgear/token.go:73 | for a non-empty path, a trailing `/` does not change the base (for "" it does: `Base("")` is `.` but `Base("/")` is `/`) |
| FilePath.TrailingSeparatorOnEmpty | pkg/netgear/token.go:73 | `filepath.Base("")` is `.` while `filepath.Base("/")` is `/`, so the empty path is the one whose base a trailing `/` changes |
| FilePath.BaseIdempotent | pkg/netgear/token.go:73 | taking the base twice changes nothing |
| FilePath.Join | pkg/netgear/token.go:27 | a non-empty path that ends with the joined name |
| PoeManagement.ParsePiece | cmd/poe-management/main.go:216 | one piece is trimmed, then read by `strconv.Atoi` |
| PoeManagement.PortsOf | cmd/poe-management/main.go:211-224 | the ports of all pieces of all arguments in order, or the first piece that does not parse |
| PoeManagement.ParseEachAppend | cmd/poe-management/main.go:211-224 | parsing two lists of pieces in turn is parsing their concatenation; the first error wins |
| PoeManagement.ConcatAppend | cmd/poe-management/main.go:213-215 | the pieces of two argument lists are the pieces of each, in order |
| PoeManagement.ConcatSnoc | cmd/poe-management/main.go:213-215 | one more argument adds its pieces at the end |
| PoeManagement.ParseEachSpec | cmd/poe-management/main.go:211-224 | parsing succeeds exactly when every piece is a number, giving one port per piece in order; otherwise the error is the first piece that is not |
| PoeManagement.ParsePorts | cmd/poe-management/main.go:211-224 | the loops compute the ports of all pieces of all arguments, or stop at the first invalid piece |
| PoeManagement.ParseEachSnoc | cmd/poe-management/main.go:216-220 | an accepted piece appends its port at the end |
| PoeManagement.ParseStep | cmd/poe-management/main.go:215-220 | each accepted piece of an argument appends its port, in order |
| PoeManagement.ParseEachStops | cmd/poe-management/main.go:216-219 | a rejected piece after accepted ones is the error, whatever follows it |
| PoeManagement.StopsInside | cmd/poe-management/main.go:215-219 | a rejected piece inside an argument, after accepted ones, is the error |
| PoeManagement.BadPieceEndsParse | cmd/poe-management/main.go:213-219 | an invalid piece after valid ones is the piece reported, untrimmed, whatever the later arguments hold |
| PoeManagement.ConcatAround | cmd/poe-management/main.go:213-215 | one argument's pieces sit between the pieces of the arguments before and after it |
| PoeManagement.ConcatIndex | cmd/poe-management/main.go:213-215 | every piece of every argument occurs among all the pieces |
| PoeManagement.PaddedPortParses | cmd/poe-management/main.go:216 | a port number with white space around it parses to that number |
| PoeManagement.BlankPieceFails | cmd/poe-management/main.go:216-218 | an empty or blank piece is an invalid port number |
| PoeManagement.EmptyPieceFails | cmd/poe-management/main.go:215-218 | a leading, trailing or doubled comma in an argument makes it invalid |
| PoeManagement.EmptyPieceIndex | cmd/poe-management/main.go:215 | a leading, trailing or doubled comma produces an empty piece |
| PoeManagement.Formatted | cmd/poe-management/main.go:211-224 | one decimal argument per port |
| PoeManagement.PiecesOfFormatted | cmd/poe-management/main.go:213-215 | decimal arguments are their own pieces |
| PoeManagement.FormattedPortParses | cmd/poe-management/main.go:216 | the decimal form of a 64-bit port parses back to it |
| PoeManagement.ParseEachFormatted | cmd/poe-management/main.go:211-224 | when every port reads back from its decimal form, the list of forms reads back as the list of ports |
| PoeManagement.FormattedPortsRead | cmd/poe-management/main.go:211-224 | the decimal forms of 64-bit ports parse back to those ports, in order |
| PoeManagement.FormattedPortsParse | cmd/poe-management/main.go:211-224 | ports written as separate arguments parse back to the same ports, in order, duplicates kept |
| PoeManagement.SingleArgPieces | cmd/poe-management/main.go:213-215 | one argument's pieces are its comma-separated parts |
| PoeManagement.FormattedHasNoComma | cmd/poe-management/main.go:215 | no port's decimal form contains a comma |
| PoeManagement.CommaListParses | cmd/poe-management/main.go:211-224 | ports written as one comma-separated argument parse back to the same ports |
| PoeManagement.FormattedAt | cmd/poe-management/main.go:211-224 | the k-th argument is the decimal form of the k-th port |
| PoeManagement.PortCallsSpec | cmd/poe-management/main.go:156-166 | one set-config command per port, in order, each for that port only |
| PoeManagement.PortCallsSnoc | cmd/poe-management/main.go:156-166 | one more port adds its command at the end |
| PoeManagement.ShowStatus | cmd/poe-management/main.go:116-129 | one status command; a library error is fatal |
| PoeManagement.ShowSettings | cmd/poe-management/main.go:131-144 | one show-settings command; a library error is fatal |
| PoeManagement.SetPorts | cmd/poe-management/main.go:146-190 | an invalid or empty port list is fatal before any command; otherwise one command per port in order, each port's failure only logged |
| PoeManagement.PowerEach | cmd/poe-management/main.go:156-166 | the loop runs exactly the commands of PortCallsSpec, whatever each command's outcome |
| PoeManagement.CyclePorts | cmd/poe-management/main.go:192-209 | an invalid or empty port list is fatal before any command; otherwise one power-cycle command for all ports, whose failure is fatal |
| PoeManagement.RunPoeManagement | cmd/poe-management/main.go:22-90 | fewer than two arguments: usage, nothing run; otherwise an automatic login whose failure is fatal, then exactly the commands of the chosen subcommand; an unknown command exits 1 after logging in |
| PoeStatusSimple.Getenv | cmd/poe-status-simple/main.go:91-99 | `os.Getenv`: a set variable's value, and "" for an unset one, so unset and empty read alike |
| PoeStatusSimple.EntryPassword | cmd/poe-status-simple/main.go:101-110 | an entry `host:password` split at its first colon gives the trimmed password when the trimmed host equals the address; an entry without a colon gives nothing |
| PoeStatusSimple.PasswordFromEnv | cmd/poe-status-simple/main.go:88-121 | a non-empty `NETGEAR_PASSWORD_<address>` verbatim, else the first matching `NETGEAR_SWITCHES` entry, else "" |
| PoeStatusSimple.FirstSomeNone | cmd/poe-status-simple/main.go:100-113 | a first-match search over entries finds nothing exactly when no entry matches |
| PoeStatusSimple.FirstSomeFirst | cmd/poe-status-simple/main.go:100-113 | a first-match search returns the answer of the first matching entry |
| PoeStatusSimple.FirstMatchNone | cmd/poe-status-simple/main.go:99-113 | no password is found exactly when no entry names the address |
| PoeStatusSimple.FirstMatchFirst | cmd/poe-status-simple/main.go:99-113 | the password found is that of the first entry naming the address |
| PoeStatusSimple.GetPasswordFromEnv | cmd/poe-status-simple/main.go:88-121 | the loop with its early returns computes PasswordFromEnv |
| PoeStatusSimple.HostVariableWins | cmd/poe-status-simple/main.go:89-96 | a non-empty per-host variable is returned verbatim, whatever `NETGEAR_SWITCHES` holds |
| PoeStatusSimple.HostVariableIsNotSwitches | cmd/poe-status-simple/main.go:90-99 | no per-host variable name can be `NETGEAR_SWITCHES` |
| PoeStatusSimple.EmptyHostVariableIsAbsent | cmd/poe-status-simple/main.go:91 | a per-host variable set to "" behaves as an unset one |
| PoeStatusSimple.EntrySplitsAtFirstColon | cmd/poe-status-simple/main.go:101-110 | an entry splits at its first colon, so a password may hold colons; host and password are trimmed and the host compared exactly |
| PoeStatusSimple.EntryWithoutColonSkipped | cmd/poe-status-simple/main.go:101-102 | an entry without a colon never matches |
| PoeStatusSimple.SwitchesLookup | cmd/poe-status-simple/main.go:98-120 | with no per-host variable, the result is the first matching entry's password, or "" |
| PoeStatusSimple.IsAuthError | cmd/poe-status-simple/main.go:69 | the login error's message contains "no session", "login" or "password" |
| PoeStatusSimple.AuthErrorIff | cmd/poe-status-simple/main.go:69 | a login error is fatal exactly when "no session", "login" or "password" occurs in its message |
| PoeStatusSimple.RunStatusSimple | cmd/poe-status-simple/main.go:21-85 | not exactly one argument: usage, nothing run; otherwise a login with the environment's password; only an authentication-looking error is fatal, ending the run after the login command alone with the library's message; otherwise the status command runs and its failure is fatal with the library's message |
| PoeStatusSimple.LoginMentionIsFatal | cmd/poe-status-simple/main.go:69-71 | a login error mentioning "login" anywhere ends the program before the status command |

## Left out

- The go-netgear library (login, token caching, model detection, the POE commands and what they print) is not modelled; each command's outcome is an arbitrary function of the commands run so far.
- The `TokenManager` interface is not modelled apart from its file implementation, the only one in the repository.
- TokenStore.FileTokenManager.SetToken: does not model a failing `os.MkdirAll` or `os.WriteFile`; the write always succeeds.
- TokenStore.WriteThenRead: holds in the model for a host made only of `/` too, whose file `token_/.json` lies in a `token_` subdirectory that `os.MkdirAll` never creates, so the source's SetToken fails for such a host (TokenFileInDirectory states when this happens).
- The client's `verbose` flag stands for `GlobalOptions.Verbose`; the library model does not see it, since library answers depend only on the commands run.
- TokenStore.FileTokenManager.RemoveToken: other `os.Remove` failures (permissions, a directory in the way) are not modelled; the only error is a missing file.
- TokenStore.FileTokenManager.GetToken: read errors other than a missing file are not modelled.
- File permissions (0700, 0600) and the directory's creation are not modelled: the disk is a flat map from (directory, name) to content.
- `filepath.Join` does not clean the path (`..`, doubled separators); Windows paths are not modelled.
- `os.UserHomeDir` is a parameter of the constructor; its error is ignored in the source too, leaving "" as the home directory.
- JSON is an abstract codec: a file holds an object of strings, `null`, or something that does not decode into a string map; byte-level encoding and escaping are not modelled.
- Console output, logging, the usage text and the `--debug` flag's printing are not modelled; `debug` only selects the client options.
- Flag parsing is not modelled: `args` are the positional arguments left after the flags.
- Error messages are structured values, not the formatted strings `fmt.Errorf` builds.
- Floating point: the float fields of `POEPortStatus` and `POEPortSetting` are reals; no operation computes with them, since GetStatus and GetSettings return empty lists.
- `context.Context` arguments are not modelled: the source never cancels them.
- `cmd/poe-status` is not part of this model.
- `strconv.Atoi` is modelled as on a 64-bit platform (an optional sign, ASCII digits, the `int64` range); the wording of its errors is not modelled.
- Strings are sequences of characters: `strings.TrimSpace` uses Unicode white space on characters, and invalid UTF-8 is not modelled.
- The usage text of `poe-management` describes `NETGEAR_SWITCHES` entries as `host=password`, while `poe-status-simple` parses `host:password`; the header comment of `poe-status-simple` (cmd/poe-status-simple/main.go:6) also shows `switch1=password123;switch2=password456`, a form its own parser skips because the entries hold no colon (EntryWithoutColonSkipped); `poe-management` leaves the variable to the library, so only the colon form is modelled.
