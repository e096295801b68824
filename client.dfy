/**
 * The `netgear.Client` wrapper around the go-netgear library: option
 * handling, the client's state (`model`, `authenticated`) and the POE
 * operations with their result shapes.
 *
 * The library itself is not modelled. Every command the client runs is
 * appended to `issued`, and its outcome is `lib(issued)`: whatever the
 * library answers, as a function of all commands run so far.
 */
module NetgearClient {
  import opened Results
  import TokenStore

  const UnknownModel: string := "Unknown"
  const EnablePower: string := "enable"
  const DisablePower: string := "disable"

  /** The go-netgear commands the client runs, with the inputs it gives them. */
  datatype Call =
    | LoginCommand(address: string, password: string)
    | DetectModel(address: string)
    | PoeStatusCommand(address: string)
    | PoeShowSettingsCommand(address: string)
    | PoeSetConfigCommand(address: string, ports: seq<int>, portPwr: string)
    | PoeCyclePowerCommand(address: string, ports: seq<int>)

  /** The outcome of one command: success (carrying the model for DetectModel) or an error message. */
  datatype LibResult = Succeeded(value: string) | Failed(message: string)

  /** The outcome of the last command of a history of commands. */
  type Library = seq<Call> -> LibResult

  /** The errors the client returns, each wrapping the library's message. */
  datatype ClientError =
    | LoginFailed(cause: string)
    | AutoLoginFailed(cause: string)
    | StatusFailed(cause: string)
    | SettingsFailed(cause: string)
    | EnableFailed(port: int, cause: string)
    | DisableFailed(port: int, cause: string)
    | CycleFailed(ports: seq<int>, cause: string)

  /** `POEPortStatus`; the float64 fields are reals here. */
  datatype POEPortStatus = POEPortStatus(
    portId: int, portName: string, status: string, powerClass: string,
    voltageV: real, currentMA: real, powerW: real, temperatureC: real, errorStatus: string)

  /** `POEPortSetting`; the float64 field is a real here. */
  datatype POEPortSetting = POEPortSetting(
    portId: int, enabled: bool, mode: string, priority: string, powerLimitW: real)

  /** The option closures `WithVerbose` and `WithTokenManager`. */
  datatype ClientOption =
    | WithVerbose(verbose: bool)
    | WithTokenManager(tm: TokenStore.FileTokenManager)

  /** `ClientOptions`; its zero value is (false, no token manager). */
  datatype ClientOptions = ClientOptions(verbose: bool, tokenManager: Option<TokenStore.FileTokenManager>)

  /** The value of the last WithVerbose in `options`, false when there is none. */
  function LastVerbose(options: seq<ClientOption>): bool {
    if options == [] then false
    else match options[|options| - 1]
      case WithVerbose(v) => v
      case WithTokenManager(_) => LastVerbose(options[..|options| - 1])
  }

  /** The token manager of the last WithTokenManager in `options`, if any. */
  function LastTokenManager(options: seq<ClientOption>): Option<TokenStore.FileTokenManager> {
    if options == [] then None
    else match options[|options| - 1]
      case WithTokenManager(tm) => Some(tm)
      case WithVerbose(_) => LastTokenManager(options[..|options| - 1])
  }

  /**
   * The loop of `NewClient` that applies the option closures in argument
   * order to a zero `ClientOptions`: the last option of each kind decides.
   */
  method ApplyOptions(options: seq<ClientOption>) returns (opts: ClientOptions)
    ensures opts == ClientOptions(LastVerbose(options), LastTokenManager(options))
  {
    opts := ClientOptions(false, None);
    for i := 0 to |options|
      invariant opts == ClientOptions(LastVerbose(options[..i]), LastTokenManager(options[..i]))
    {
      assert options[..i + 1][..i] == options[..i];
      match options[i]
      case WithVerbose(v) =>
        opts := opts.(verbose := v);
      case WithTokenManager(tm) =>
        opts := opts.(tokenManager := Some(tm));
    }
    assert options[..|options|] == options;
  }

  /** A later WithVerbose overrides every earlier one; token-manager options do not interfere. */
  lemma {:induction false} LaterVerboseWins(before: seq<ClientOption>, v: bool, after: seq<ClientOption>)
    requires forall k :: 0 <= k < |after| ==> after[k].WithTokenManager?
    ensures LastVerbose(before + [WithVerbose(v)] + after) == v
  {
    if after != [] {
      var all := before + [WithVerbose(v)] + after;
      assert all[..|all| - 1] == before + [WithVerbose(v)] + after[..|after| - 1];
      LaterVerboseWins(before, v, after[..|after| - 1]);
    }
  }

  /** A later WithTokenManager overrides every earlier one; verbose options do not interfere. */
  lemma {:induction false} LaterTokenManagerWins(before: seq<ClientOption>, tm: TokenStore.FileTokenManager, after: seq<ClientOption>)
    requires forall k :: 0 <= k < |after| ==> after[k].WithVerbose?
    ensures LastTokenManager(before + [WithTokenManager(tm)] + after) == Some(tm)
  {
    if after != [] {
      var all := before + [WithTokenManager(tm)] + after;
      assert all[..|all| - 1] == before + [WithTokenManager(tm)] + after[..|after| - 1];
      LaterTokenManagerWins(before, tm, after[..|after| - 1]);
    }
  }

  /** GetModel consults the library only while the model is unknown and the host is set. */
  predicate NeedsDetection(model: string, host: string) {
    model == UnknownModel && host != ""
  }

  /** The commands one GetModel call runs. */
  function DetectionCalls(model: string, host: string): seq<Call> {
    if NeedsDetection(model, host) then [DetectModel(host)] else []
  }

  /** The model after one GetModel call that follows the commands `history`. */
  function DetectedModel(model: string, host: string, history: seq<Call>, lib: Library): string {
    if NeedsDetection(model, host) then
      match lib(history + [DetectModel(host)])
      case Succeeded(detected) => detected
      case Failed(_) => model
    else model
  }

  /**
   * Detection is lazy and cached: a known model, or an empty host, is
   * returned as it is without consulting the library; a failed detection
   * leaves the model unknown, a successful one stores the detected model.
   */
  lemma DetectionCaches(model: string, host: string, history: seq<Call>, lib: Library)
    ensures !NeedsDetection(model, host) ==> DetectionCalls(model, host) == [] && DetectedModel(model, host, history, lib) == model
    ensures NeedsDetection(model, host) && lib(history + [DetectModel(host)]).Failed? ==>
              DetectedModel(model, host, history, lib) == UnknownModel
    ensures NeedsDetection(model, host) && lib(history + [DetectModel(host)]).Succeeded? ==>
              DetectedModel(model, host, history, lib) == lib(history + [DetectModel(host)]).value
  {
  }

  /** `Client`. */
  class Client {
    const host: string
    const options: ClientOptions
    /** Stands for `GlobalOptions.Verbose`; the library model does not see it. */
    const verbose: bool
    var model: string
    var authenticated: bool
    /** Every library command this client has run, oldest first. */
    var issued: seq<Call>

    /** `NewClient`: never fails; the model starts unknown and the client unauthenticated. */
    constructor (host: string, options: seq<ClientOption>)
      ensures this.host == host && model == UnknownModel && !authenticated && issued == []
      ensures this.options == ClientOptions(LastVerbose(options), LastTokenManager(options))
      ensures verbose == this.options.verbose
    {
      var opts := ApplyOptions(options);
      this.host := host;
      this.options := opts;
      this.verbose := opts.verbose;
      this.model := UnknownModel;
      this.authenticated := false;
      this.issued := [];
    }

    /** `IsAuthenticated`. */
    function IsAuthenticated(): bool
      reads this
    {
      authenticated
    }

    /** Runs one library command and returns the library's answer. */
    method RunCommand(call: Call, lib: Library) returns (r: LibResult)
      modifies this`issued
      ensures issued == old(issued) + [call] && r == lib(issued)
    {
      issued := issued + [call];
      r := lib(issued);
    }

    /** `GetModel`. */
    method GetModel(lib: Library) returns (m: string)
      modifies this`model, this`issued
      ensures issued == old(issued) + DetectionCalls(old(model), host)
      ensures model == DetectedModel(old(model), host, old(issued), lib)
      ensures m == model
    {
      if model == UnknownModel && host != "" {
        var r := RunCommand(DetectModel(host), lib);
        if r.Succeeded? {
          model := r.value;
        }
      }
      m := model;
    }

    /**
     * `Login`: on success the client is authenticated and the model is
     * detected; on failure the error wraps the library's and nothing else
     * changes. Authentication is never withdrawn.
     */
    method Login(password: string, lib: Library) returns (err: Option<ClientError>)
      modifies this`model, this`issued, this`authenticated
      ensures old(authenticated) ==> authenticated
      ensures var attempt := old(issued) + [LoginCommand(host, password)];
        match lib(attempt)
        case Failed(msg) =>
          err == Some(LoginFailed(msg)) && issued == attempt
          && authenticated == old(authenticated) && model == old(model)
        case Succeeded(_) =>
          err == None && authenticated
          && issued == attempt + DetectionCalls(old(model), host)
          && model == DetectedModel(old(model), host, attempt, lib)
    {
      var r := RunCommand(LoginCommand(host, password), lib);
      if r.Failed? {
        return Some(LoginFailed(r.message));
      }
      authenticated := true;
      var _ := GetModel(lib);
      err := None;
    }

    /**
     * `LoginAuto`: `Login` with an empty password, left for the library to
     * find; its error is wrapped as an auto-login failure.
     */
    method LoginAuto(lib: Library) returns (err: Option<ClientError>)
      modifies this`model, this`issued, this`authenticated
      ensures old(authenticated) ==> authenticated
      ensures var attempt := old(issued) + [LoginCommand(host, "")];
        match lib(attempt)
        case Failed(msg) =>
          err == Some(AutoLoginFailed(msg)) && issued == attempt
          && authenticated == old(authenticated) && model == old(model)
        case Succeeded(_) =>
          err == None && authenticated
          && issued == attempt + DetectionCalls(old(model), host)
          && model == DetectedModel(old(model), host, attempt, lib)
    {
      var r := RunCommand(LoginCommand(host, ""), lib);
      if r.Failed? {
        return Some(AutoLoginFailed(r.message));
      }
      authenticated := true;
      var _ := GetModel(lib);
      err := None;
    }

    /** `POE`: a fresh POE interface on this client. */
    method POE() returns (p: POEInterface)
      ensures fresh(p) && p.client == this
    {
      p := new POEInterface(this);
    }
  }

  /** `POEInterface`: the POE operations, each one library command on the client's host. */
  class POEInterface {
    const client: Client

    constructor (client: Client)
      ensures this.client == client
    {
      this.client := client;
    }

    /** `GetStatus`: an empty list on success (the library prints the data itself). */
    method GetStatus(lib: Library) returns (r: Result<seq<POEPortStatus>, ClientError>)
      modifies client`issued
      ensures client.issued == old(client.issued) + [PoeStatusCommand(client.host)]
      ensures match lib(client.issued)
        case Failed(msg) => r == Err(StatusFailed(msg))
        case Succeeded(_) => r == Ok([])
    {
      var o := client.RunCommand(PoeStatusCommand(client.host), lib);
      if o.Failed? {
        return Err(StatusFailed(o.message));
      }
      r := Ok([]);
    }

    /** `GetSettings`: an empty list on success (the library prints the data itself). */
    method GetSettings(lib: Library) returns (r: Result<seq<POEPortSetting>, ClientError>)
      modifies client`issued
      ensures client.issued == old(client.issued) + [PoeShowSettingsCommand(client.host)]
      ensures match lib(client.issued)
        case Failed(msg) => r == Err(SettingsFailed(msg))
        case Succeeded(_) => r == Ok([])
    {
      var o := client.RunCommand(PoeShowSettingsCommand(client.host), lib);
      if o.Failed? {
        return Err(SettingsFailed(o.message));
      }
      r := Ok([]);
    }

    /** `EnablePort`: one set-config command for the single port. */
    method EnablePort(port: int, lib: Library) returns (err: Option<ClientError>)
      modifies client`issued
      ensures client.issued == old(client.issued) + [PoeSetConfigCommand(client.host, [port], EnablePower)]
      ensures match lib(client.issued)
        case Failed(msg) => err == Some(EnableFailed(port, msg))
        case Succeeded(_) => err == None
    {
      var o := client.RunCommand(PoeSetConfigCommand(client.host, [port], EnablePower), lib);
      err := if o.Failed? then Some(EnableFailed(port, o.message)) else None;
    }

    /** `DisablePort`: one set-config command for the single port. */
    method DisablePort(port: int, lib: Library) returns (err: Option<ClientError>)
      modifies client`issued
      ensures client.issued == old(client.issued) + [PoeSetConfigCommand(client.host, [port], DisablePower)]
      ensures match lib(client.issued)
        case Failed(msg) => err == Some(DisableFailed(port, msg))
        case Succeeded(_) => err == None
    {
      var o := client.RunCommand(PoeSetConfigCommand(client.host, [port], DisablePower), lib);
      err := if o.Failed? then Some(DisableFailed(port, o.message)) else None;
    }

    /** `CyclePower`: a single command for all the ports. */
    method CyclePower(ports: seq<int>, lib: Library) returns (err: Option<ClientError>)
      modifies client`issued
      ensures client.issued == old(client.issued) + [PoeCyclePowerCommand(client.host, ports)]
      ensures match lib(client.issued)
        case Failed(msg) => err == Some(CycleFailed(ports, msg))
        case Succeeded(_) => err == None
    {
      var o := client.RunCommand(PoeCyclePowerCommand(client.host, ports), lib);
      err := if o.Failed? then Some(CycleFailed(ports, o.message)) else None;
    }
  }
}
