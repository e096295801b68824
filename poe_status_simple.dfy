/**
 * The `poe-status-simple` command: find the switch's password in the
 * environment, log in, and show the POE status. The environment is a map
 * from variable names to values; an unset variable reads as "".
 */
module PoeStatusSimple {
  import opened Results
  import Text
  import opened NetgearClient

  const PasswordVarPrefix: string := "NETGEAR_PASSWORD_"
  const SwitchesVar: string := "NETGEAR_SWITCHES"
  const EntrySeparator: char := ';'
  const HostSeparator: char := ':'

  /** `os.Getenv`. */
  function Getenv(env: map<string, string>, key: string): string {
    if key in env then env[key] else ""
  }

  /**
   * The password a `NETGEAR_SWITCHES` entry `host:password` gives `address`:
   * split at the first colon only, both sides trimmed, the host compared
   * exactly. An entry without a colon gives nothing.
   */
  function EntryPassword(entry: string, address: string): Option<string> {
    match Text.SplitFirst(entry, HostSeparator)
    case None => None
    case Some(parts) =>
      if Text.TrimSpace(parts.0) == address then Some(Text.TrimSpace(parts.1)) else None
  }

  /** The first answer `find` gives, trying the entries in order. */
  function FirstSome(find: string -> Option<string>, entries: seq<string>): Option<string> {
    if entries == [] then None
    else match find(entries[0])
      case Some(password) => Some(password)
      case None => FirstSome(find, entries[1..])
  }

  /** The password of the first entry that names `address`. */
  function FirstMatch(entries: seq<string>, address: string): Option<string> {
    FirstSome(entry => EntryPassword(entry, address), entries)
  }

  /** `getPasswordFromEnv`: "" when no password is found. */
  function PasswordFromEnv(address: string, env: map<string, string>): string {
    var direct := Getenv(env, PasswordVarPrefix + address);
    if direct != "" then direct
    else
      var switches := Getenv(env, SwitchesVar);
      if switches == "" then ""
      else match FirstMatch(Text.Split(switches, EntrySeparator), address)
        case Some(password) => password
        case None => ""
  }

  lemma {:induction false} FirstSomeNone(find: string -> Option<string>, entries: seq<string>)
    ensures FirstSome(find, entries).None? <==> forall i :: 0 <= i < |entries| ==> find(entries[i]).None?
  {
    if entries != [] {
      var tail := entries[1..];
      FirstSomeNone(find, tail);
      assert forall i :: 1 <= i < |entries| ==> entries[i] == tail[i - 1];
    }
  }

  lemma {:induction false} FirstSomeFirst(find: string -> Option<string>, entries: seq<string>, password: string)
    ensures FirstSome(find, entries) == Some(password) <==>
              exists i :: 0 <= i < |entries| && find(entries[i]) == Some(password)
                && forall j :: 0 <= j < i ==> find(entries[j]).None?
  {
    if entries != [] {
      var tail := entries[1..];
      FirstSomeFirst(find, tail, password);
      if find(entries[0]).None? {
        if FirstSome(find, entries) == Some(password) {
          var i :| 0 <= i < |tail| && find(tail[i]) == Some(password)
                     && forall j :: 0 <= j < i ==> find(tail[j]).None?;
          assert entries[i + 1] == tail[i];
          forall j | 0 <= j < i + 1 ensures find(entries[j]).None? {
            if j > 0 { assert entries[j] == tail[j - 1]; }
          }
        }
        if i :| 0 <= i < |entries| && find(entries[i]) == Some(password)
                && forall j :: 0 <= j < i ==> find(entries[j]).None? {
          assert i > 0;
          assert tail[i - 1] == entries[i];
          forall j | 0 <= j < i - 1 ensures find(tail[j]).None? {
            assert tail[j] == entries[j + 1];
          }
        }
      } else {
        if i :| 0 <= i < |entries| && find(entries[i]) == Some(password)
                && forall j :: 0 <= j < i ==> find(entries[j]).None? {
          assert i == 0;
        }
      }
    }
  }

  /** FirstMatch finds nothing exactly when no entry names the address. */
  lemma FirstMatchNone(entries: seq<string>, address: string)
    ensures FirstMatch(entries, address).None? <==>
              forall i :: 0 <= i < |entries| ==> EntryPassword(entries[i], address).None?
  {
    FirstSomeNone(entry => EntryPassword(entry, address), entries);
  }

  /** FirstMatch gives the password of the first entry that names the address. */
  lemma FirstMatchFirst(entries: seq<string>, address: string, password: string)
    ensures FirstMatch(entries, address) == Some(password) <==>
              exists i :: 0 <= i < |entries| && EntryPassword(entries[i], address) == Some(password)
                && forall j :: 0 <= j < i ==> EntryPassword(entries[j], address).None?
  {
    FirstSomeFirst(entry => EntryPassword(entry, address), entries, password);
  }

  /**
   * `getPasswordFromEnv` as a loop over the entries that returns at the
   * first one naming the address; it computes PasswordFromEnv.
   */
  method GetPasswordFromEnv(address: string, env: map<string, string>) returns (password: string)
    ensures password == PasswordFromEnv(address, env)
  {
    var direct := Getenv(env, PasswordVarPrefix + address);
    if direct != "" {
      return direct;
    }
    var switches := Getenv(env, SwitchesVar);
    if switches != "" {
      var entries := Text.Split(switches, EntrySeparator);
      for i := 0 to |entries|
        invariant FirstMatch(entries, address) == FirstMatch(entries[i..], address)
      {
        assert entries[i..][0] == entries[i] && entries[i..][1..] == entries[i + 1..];
        var parts := Text.SplitFirst(entries[i], HostSeparator);
        if parts.Some? {
          var host := Text.TrimSpace(parts.value.0);
          var pass := Text.TrimSpace(parts.value.1);
          if host == address {
            return pass;
          }
        }
      }
      assert entries[|entries|..] == [];
    }
    return "";
  }

  /** A non-empty per-host variable is returned verbatim; NETGEAR_SWITCHES is not read. */
  lemma HostVariableWins(address: string, env: map<string, string>, other: string)
    requires Getenv(env, PasswordVarPrefix + address) != ""
    ensures PasswordFromEnv(address, env) == env[PasswordVarPrefix + address]
    ensures PasswordFromEnv(address, env[SwitchesVar := other]) == PasswordFromEnv(address, env)
  {
    HostVariableIsNotSwitches(address);
  }

  /** No per-host variable name is the name of the switch list. */
  lemma HostVariableIsNotSwitches(address: string)
    ensures PasswordVarPrefix + address != SwitchesVar
  {
    assert |PasswordVarPrefix + address| > |SwitchesVar|;
  }

  /** A per-host variable set to "" is the same as an unset one. */
  lemma EmptyHostVariableIsAbsent(address: string, env: map<string, string>)
    ensures PasswordFromEnv(address, env[PasswordVarPrefix + address := ""])
         == PasswordFromEnv(address, env - {PasswordVarPrefix + address})
  {
    HostVariableIsNotSwitches(address);
    var key := PasswordVarPrefix + address;
    assert Getenv(env[key := ""], SwitchesVar) == Getenv(env - {key}, SwitchesVar);
  }

  /**
   * An entry is split at its first colon: the password may itself contain
   * colons, and both sides are trimmed before use.
   */
  lemma EntrySplitsAtFirstColon(host: string, password: string, address: string)
    requires HostSeparator !in host
    ensures EntryPassword(host + [HostSeparator] + password, address)
         == if Text.TrimSpace(host) == address then Some(Text.TrimSpace(password)) else None
  {
    Text.SplitFirstUnique(host, HostSeparator, password);
  }

  /** Entries without a colon never match. */
  lemma EntryWithoutColonSkipped(entry: string, address: string)
    requires HostSeparator !in entry
    ensures EntryPassword(entry, address).None?
  {
  }

  /**
   * With no per-host variable, the password is that of the first entry of
   * NETGEAR_SWITCHES naming the address, or "" when none does (an empty list
   * gives "" too).
   */
  lemma SwitchesLookup(address: string, env: map<string, string>, entries: seq<string>)
    requires Getenv(env, PasswordVarPrefix + address) == ""
    requires |entries| >= 1 && forall k :: 0 <= k < |entries| ==> EntrySeparator !in entries[k]
    requires Getenv(env, SwitchesVar) == Text.JoinWith(entries, EntrySeparator)
    ensures PasswordFromEnv(address, env) == match FirstMatch(entries, address)
                                             case Some(password) => password
                                             case None => ""
  {
    Text.SplitJoin(entries, EntrySeparator);
    if Getenv(env, SwitchesVar) == "" {
      assert entries == Text.Split("", EntrySeparator);
      assert EntryPassword("", address).None?;
      FirstMatchNone(entries, address);
    }
  }

  const NoSession: string := "no session"
  const Login: string := "login"
  const Password: string := "password"

  /** The test at the login step: is this login error fatal? */
  predicate IsAuthError(message: string) {
    Text.Contains(message, NoSession) || Text.Contains(message, Login) || Text.Contains(message, Password)
  }

  /** A login error is fatal exactly when one of the three words occurs in it. */
  lemma AuthErrorIff(message: string)
    ensures IsAuthError(message) <==>
              exists i :: Text.OccursAt(message, NoSession, i) || Text.OccursAt(message, Login, i)
                       || Text.OccursAt(message, Password, i)
  {
    Text.ContainsIff(message, NoSession);
    Text.ContainsIff(message, Login);
    Text.ContainsIff(message, Password);
  }

  /** How the program ends. */
  datatype Exit = Finished | UsageExit | AuthenticationFatal(message: string) | StatusFatal(message: string)

  /** The library commands run, in order, and how the program ended. */
  datatype Run = Run(calls: seq<Call>, exit: Exit)

  /**
   * `main`: exactly one positional argument, else usage. A failed login ends
   * the program only when its message looks like an authentication problem;
   * any other login error is ignored and the status is fetched anyway.
   */
  function RunStatusSimple(args: seq<string>, env: map<string, string>, lib: Library): (r: Run)
    ensures r.calls == [] <==> |args| != 1
    ensures r.exit == UsageExit <==> |args| != 1
    ensures |args| == 1 ==> r.calls[0] == LoginCommand(args[0], PasswordFromEnv(args[0], env))
    ensures |args| == 1 ==>
              var loginResult := lib([r.calls[0]]);
              (r.exit.AuthenticationFatal? <==> loginResult.Failed? && IsAuthError(loginResult.message))
    ensures |args| == 1 && !r.exit.AuthenticationFatal? ==>
              r.calls == [r.calls[0], PoeStatusCommand(args[0])] &&
              (r.exit == Finished <==> lib(r.calls).Succeeded?)
    ensures r.exit.AuthenticationFatal? ==> r.calls == [r.calls[0]] && r.exit.message == lib(r.calls).message
    ensures r.exit.StatusFatal? ==> r.exit.message == lib(r.calls).message
  {
    if |args| != 1 then Run([], UsageExit)
    else
      var address := args[0];
      var login := [LoginCommand(address, PasswordFromEnv(address, env))];
      var loginResult := lib(login);
      if loginResult.Failed? && IsAuthError(loginResult.message) then
        Run(login, AuthenticationFatal(loginResult.message))
      else
        var calls := login + [PoeStatusCommand(address)];
        match lib(calls)
        case Failed(message) => Run(calls, StatusFatal(message))
        case Succeeded(_) => Run(calls, Finished)
  }

  /** A login error that mentions "login" is fatal, wherever the word occurs. */
  lemma LoginMentionIsFatal(address: string, env: map<string, string>, lib: Library, pre: string, post: string)
    requires lib([LoginCommand(address, PasswordFromEnv(address, env))]) == Failed(pre + Login + post)
    ensures RunStatusSimple([address], env, lib) == Run([LoginCommand(address, PasswordFromEnv(address, env))],
                                                        AuthenticationFatal(pre + Login + post))
  {
    Text.ContainsInfix(pre, Login, post);
  }
}
