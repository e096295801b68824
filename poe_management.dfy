/**
 * The `poe-management` command: `<switch> <command> [ports...]`, where
 * ports are decimal numbers given as separate arguments and/or
 * comma-separated lists. Flag parsing and console output are not modelled;
 * `args` are the positional arguments left after the flags.
 */
module PoeManagement {
  import opened Results
  import Text
  import Decimal
  import TokenStore
  import opened NetgearClient

  const PortSeparator: char := ','
  const Commands: set<string> := {"status", "settings", "enable", "disable", "cycle"}

  // ---------------------------------------------------------------------
  // Port lists

  /** The comma-separated pieces of one argument. */
  function ArgPieces(arg: string): seq<string> {
    Text.Split(arg, PortSeparator)
  }

  /**
   * The pieces `split` gives every argument, arguments left to right. Stated
   * for any `split` so that the lemmas below do not depend on how one
   * argument is split.
   */
  function Concat(split: string -> seq<string>, args: seq<string>): seq<string> {
    if args == [] then []
    else Concat(split, args[..|args| - 1]) + split(args[|args| - 1])
  }

  /** Every comma-separated piece of every argument: arguments left to right, pieces left to right. */
  function Pieces(args: seq<string>): seq<string> {
    Concat(ArgPieces, args)
  }

  /** How one piece is read: trimmed, then parsed as a Go int. */
  function ParsePiece(piece: string): Option<int> {
    Decimal.Atoi(Text.TrimSpace(piece))
  }

  /**
   * The numbers `parse` gives the pieces, in order, or the first piece it
   * rejects. Stated for any `parse` so that the lemmas below do not depend
   * on how a single piece is read.
   */
  function ParseEach(parse: string -> Option<int>, pieces: seq<string>): Result<seq<int>, string> {
    if pieces == [] then Ok([])
    else match parse(pieces[0])
      case None => Err(pieces[0])
      case Some(n) =>
        match ParseEach(parse, pieces[1..])
        case Err(bad) => Err(bad)
        case Ok(rest) => Ok([n] + rest)
  }

  /** What `parsePorts` yields for `args`: the ports, or the piece it reports as invalid. */
  function PortsOf(args: seq<string>): Result<seq<int>, string> {
    ParseEach(ParsePiece, Pieces(args))
  }

  lemma {:induction false} ConcatAppend(split: string -> seq<string>, a: seq<string>, b: seq<string>)
    ensures Concat(split, a + b) == Concat(split, a) + Concat(split, b)
    decreases |b|
  {
    if b == [] {
      assert a + b == a;
    } else {
      assert (a + b)[..|a + b| - 1] == a + b[..|b| - 1];
      ConcatAppend(split, a, b[..|b| - 1]);
    }
  }

  /** One more argument adds its pieces at the end. */
  lemma ConcatSnoc(split: string -> seq<string>, args: seq<string>, i: int)
    requires 0 <= i < |args|
    ensures Concat(split, args[..i + 1]) == Concat(split, args[..i]) + split(args[i])
  {
    assert args[..i + 1][..i] == args[..i];
  }

  /** The pieces of argument `i` sit between those of the arguments before and after it. */
  lemma ConcatAround(split: string -> seq<string>, args: seq<string>, i: int)
    requires 0 <= i < |args|
    ensures Concat(split, args) == Concat(split, args[..i]) + split(args[i]) + Concat(split, args[i + 1..])
  {
    assert args == args[..i + 1] + args[i + 1..];
    ConcatAppend(split, args[..i + 1], args[i + 1..]);
    ConcatSnoc(split, args, i);
  }

  lemma {:induction false} ParseEachAppend(parse: string -> Option<int>, a: seq<string>, b: seq<string>)
    ensures ParseEach(parse, a + b) ==
      match ParseEach(parse, a)
      case Err(bad) => Err(bad)
      case Ok(x) =>
        match ParseEach(parse, b)
        case Err(bad) => Err(bad)
        case Ok(y) => Ok(x + y)
  {
    if a == [] {
      assert a + b == b;
      if ParseEach(parse, b).Ok? {
        assert [] + ParseEach(parse, b).value == ParseEach(parse, b).value;
      }
    } else {
      assert (a + b)[0] == a[0];
      assert (a + b)[1..] == a[1..] + b;
      ParseEachAppend(parse, a[1..], b);
      if parse(a[0]).Some? && ParseEach(parse, a[1..]).Ok? && ParseEach(parse, b).Ok? {
        var n, x, y := parse(a[0]).value, ParseEach(parse, a[1..]).value, ParseEach(parse, b).value;
        assert [n] + x + y == [n] + (x + y);
      }
    }
  }

  /**
   * The parse succeeds exactly when every piece is a number; the result then
   * holds one number per piece, in order. Otherwise the error is the first
   * piece that is not a number, and nothing is returned with it.
   */
  lemma {:induction false} ParseEachSpec(parse: string -> Option<int>, pieces: seq<string>)
    ensures ParseEach(parse, pieces).Ok? <==> forall k :: 0 <= k < |pieces| ==> parse(pieces[k]).Some?
    ensures ParseEach(parse, pieces).Ok? ==>
              |ParseEach(parse, pieces).value| == |pieces| &&
              forall k :: 0 <= k < |pieces| ==> parse(pieces[k]) == Some(ParseEach(parse, pieces).value[k])
    ensures ParseEach(parse, pieces).Err? ==>
              exists k :: 0 <= k < |pieces| && pieces[k] == ParseEach(parse, pieces).error
                && parse(pieces[k]).None?
                && forall j :: 0 <= j < k ==> parse(pieces[j]).Some?
  {
    if pieces != [] {
      ParseEachSpec(parse, pieces[1..]);
      var tail := pieces[1..];
      assert forall k :: 1 <= k < |pieces| ==> pieces[k] == tail[k - 1];
      match parse(pieces[0]) {
        case None =>
          assert ParseEach(parse, pieces).error == pieces[0];
        case Some(n) =>
          match ParseEach(parse, tail) {
            case Ok(rest) =>
              assert ParseEach(parse, pieces).value == [n] + rest;
            case Err(bad) =>
              var k :| 0 <= k < |tail| && tail[k] == bad && parse(tail[k]).None?
                         && forall j :: 0 <= j < k ==> parse(tail[j]).Some?;
              assert pieces[k + 1] == bad;
              assert forall j :: 0 <= j < k + 1 ==> parse(pieces[j]).Some? by {
                forall j | 0 <= j < k + 1 ensures parse(pieces[j]).Some? {
                  if j > 0 { assert pieces[j] == tail[j - 1]; }
                }
              }
          }
      }
    }
  }

  /**
   * `parsePorts`: the numbers of all pieces, in order, with no deduplication
   * and no range check; the first piece that is not a number ends the program
   * (`log.Fatalf`), reported here as Err with that piece, untrimmed.
   */
  method ParsePorts(args: seq<string>) returns (r: Result<seq<int>, string>)
    ensures r == PortsOf(args)
  {
    var ports: seq<int> := [];
    for i := 0 to |args|
      invariant PortsOf(args[..i]) == Ok(ports)
    {
      var pieces := Text.Split(args[i], PortSeparator);
      ghost var done := Pieces(args[..i]);
      ConcatSnoc(ArgPieces, args, i);
      assert done + pieces[..0] == done;
      for j := 0 to |pieces|
        invariant ParseEach(ParsePiece, done + pieces[..j]) == Ok(ports)
      {
        var port := ParsePiece(pieces[j]);
        if port.None? {
          BadPieceEndsParse(ParsePiece, ArgPieces, args, i, j);
          return Err(pieces[j]);
        }
        ParseStep(ParsePiece, done, pieces, j, ports);
        ports := ports + [port.value];
      }
      assert pieces[..|pieces|] == pieces;
    }
    assert args[..|args|] == args;
    r := Ok(ports);
  }

  /** One more accepted piece adds its number at the end. */
  lemma ParseEachSnoc(parse: string -> Option<int>, done: seq<string>, piece: string, ports: seq<int>)
    requires ParseEach(parse, done) == Ok(ports) && parse(piece).Some?
    ensures ParseEach(parse, done + [piece]) == Ok(ports + [parse(piece).value])
  {
    ParseEachAppend(parse, done, [piece]);
    assert [piece][1..] == [] && ParseEach(parse, []) == Ok([]);
    assert [parse(piece).value] + [] == [parse(piece).value];
    assert ParseEach(parse, [piece]) == Ok([parse(piece).value]);
  }

  /** The next accepted piece of a list adds its number at the end. */
  lemma ParseStep(parse: string -> Option<int>, done: seq<string>, pieces: seq<string>, j: int, ports: seq<int>)
    requires 0 <= j < |pieces|
    requires ParseEach(parse, done + pieces[..j]) == Ok(ports) && parse(pieces[j]).Some?
    ensures ParseEach(parse, done + pieces[..j + 1]) == Ok(ports + [parse(pieces[j]).value])
  {
    assert done + pieces[..j + 1] == done + pieces[..j] + [pieces[j]];
    ParseEachSnoc(parse, done + pieces[..j], pieces[j], ports);
  }

  /** A rejected piece after accepted ones is the error, whatever follows it. */
  lemma ParseEachStops(parse: string -> Option<int>, done: seq<string>, piece: string, rest: seq<string>)
    requires ParseEach(parse, done).Ok? && parse(piece).None?
    ensures ParseEach(parse, done + ([piece] + rest)) == Err(piece)
  {
    ParseEachAppend(parse, done, [piece] + rest);
    assert ([piece] + rest)[0] == piece;
  }

  /** A rejected piece inside a list, after accepted ones, is the error. */
  lemma StopsInside(parse: string -> Option<int>, pre: seq<string>, pieces: seq<string>, post: seq<string>, j: int)
    requires 0 <= j < |pieces|
    requires ParseEach(parse, pre + pieces[..j]).Ok? && parse(pieces[j]).None?
    ensures ParseEach(parse, pre + pieces + post) == Err(pieces[j])
  {
    assert pre + pieces + post == (pre + pieces[..j]) + ([pieces[j]] + (pieces[j + 1..] + post));
    ParseEachStops(parse, pre + pieces[..j], pieces[j], pieces[j + 1..] + post);
  }

  /** A bad piece after good ones decides the outcome, whatever follows it. */
  lemma BadPieceEndsParse(parse: string -> Option<int>, split: string -> seq<string>, args: seq<string>, i: int, j: int)
    requires 0 <= i < |args|
    requires 0 <= j < |split(args[i])|
    requires ParseEach(parse, Concat(split, args[..i]) + split(args[i])[..j]).Ok?
    requires parse(split(args[i])[j]).None?
    ensures ParseEach(parse, Concat(split, args)) == Err(split(args[i])[j])
  {
    ConcatAround(split, args, i);
    StopsInside(parse, Concat(split, args[..i]), split(args[i]), Concat(split, args[i + 1..]), j);
  }

  /** Each piece is trimmed first: a port number padded with spaces reads as that number. */
  lemma PaddedPortParses(left: string, n: int, right: string)
    requires Text.AllSpace(left) && Text.AllSpace(right) && Decimal.InIntRange(n)
    ensures ParsePiece(left + Decimal.DecimalString(n) + right) == Some(n)
  {
    Decimal.DecimalStringPlain(n);
    Text.TrimPadded(left, Decimal.DecimalString(n), right);
    Decimal.AtoiDecimalString(n);
  }

  /** An empty or blank piece anywhere makes the whole parse fail. */
  lemma {:induction false} BlankPieceFails(args: seq<string>, k: int)
    requires 0 <= k < |Pieces(args)| && Text.AllSpace(Pieces(args)[k])
    ensures PortsOf(args).Err?
  {
    var piece := Pieces(args)[k];
    Text.TrimPadded(piece, [], []);
    assert piece + [] + [] == piece;
    ParseEachSpec(ParsePiece, Pieces(args));
  }

  /**
   * Empty pieces are fatal: an empty argument, a leading or trailing comma,
   * or two commas in a row (`left` ends with a comma or is empty, `right`
   * starts with one or is empty).
   */
  lemma EmptyPieceFails(args: seq<string>, i: int, left: string, right: string)
    requires 0 <= i < |args| && args[i] == left + right
    requires left == [] || left[|left| - 1] == PortSeparator
    requires right == [] || right[0] == PortSeparator
    ensures PortsOf(args).Err?
  {
    var k := EmptyPieceIndex(left, right);
    var at := ConcatIndex(ArgPieces, args, i, k);
    assert Text.AllSpace(Pieces(args)[at]);
    BlankPieceFails(args, at);
  }

  /** Where the `k`-th piece of argument `i` sits among all the pieces. */
  lemma ConcatIndex(split: string -> seq<string>, args: seq<string>, i: int, k: int) returns (at: int)
    requires 0 <= i < |args| && 0 <= k < |split(args[i])|
    ensures 0 <= at < |Concat(split, args)| && Concat(split, args)[at] == split(args[i])[k]
  {
    ConcatAround(split, args, i);
    at := |Concat(split, args[..i])| + k;
  }

  /** Where the empty piece of `left + right` is. */
  lemma EmptyPieceIndex(left: string, right: string) returns (k: int)
    requires left == [] || left[|left| - 1] == PortSeparator
    requires right == [] || right[0] == PortSeparator
    ensures 0 <= k < |Text.Split(left + right, PortSeparator)|
    ensures Text.Split(left + right, PortSeparator)[k] == []
  {
    var sep := PortSeparator;
    if left == [] && right == [] {
      k := 0;
    } else if left == [] {
      Text.SplitAtSeparator([], sep, right[1..]);
      assert left + right == [] + [sep] + right[1..];
      k := 0;
    } else {
      var l := left[..|left| - 1];
      assert left == l + [sep];
      assert left + right == l + [sep] + right;
      Text.SplitAtSeparator(l, sep, right);
      if right == [] {
        k := |Text.Split(l, sep)|;
      } else {
        Text.SplitAtSeparator([], sep, right[1..]);
        assert right == [] + [sep] + right[1..];
        k := |Text.Split(l, sep)|;
      }
    }
  }

  /** Ports written out as separate decimal arguments. */
  function Formatted(ports: seq<int>): (args: seq<string>)
    ensures |args| == |ports|
  {
    if ports == [] then [] else Formatted(ports[..|ports| - 1]) + [Decimal.DecimalString(ports[|ports| - 1])]
  }

  /** Formatted ports are one piece each. */
  lemma {:induction false} PiecesOfFormatted(ports: seq<int>)
    ensures Pieces(Formatted(ports)) == Formatted(ports)
  {
    if ports != [] {
      var init, last := ports[..|ports| - 1], ports[|ports| - 1];
      PiecesOfFormatted(init);
      var s := Decimal.DecimalString(last);
      Decimal.DecimalStringPlain(last);
      assert Text.Split(s, PortSeparator) == [s] by {
        assert Text.SplitFirst(s, PortSeparator).None?;
      }
      assert Formatted(ports)[..|ports| - 1] == Formatted(init);
    }
  }

  /** A decimal port, alone in its piece, parses back to itself. */
  lemma FormattedPortParses(n: int)
    requires Decimal.InIntRange(n)
    ensures ParsePiece(Decimal.DecimalString(n)) == Some(n)
  {
    var s := Decimal.DecimalString(n);
    PaddedPortParses([], n, []);
    assert [] + s + [] == s;
  }

  lemma {:induction false} ParseEachFormatted(parse: string -> Option<int>, ports: seq<int>)
    requires forall k :: 0 <= k < |ports| ==> parse(Decimal.DecimalString(ports[k])) == Some(ports[k])
    ensures ParseEach(parse, Formatted(ports)) == Ok(ports)
  {
    if ports != [] {
      var init, last := ports[..|ports| - 1], ports[|ports| - 1];
      assert forall k :: 0 <= k < |init| ==> init[k] == ports[k];
      ParseEachFormatted(parse, init);
      assert ParseEach(parse, Formatted(init)) == Ok(init);
      ParseEachSnoc(parse, Formatted(init), Decimal.DecimalString(last), init);
      assert Formatted(ports) == Formatted(init) + [Decimal.DecimalString(last)];
      assert ports == init + [last];
    }
  }

  /** Every port in the int64 range reads back from its decimal form. */
  lemma FormattedPortsRead(ports: seq<int>)
    requires forall k :: 0 <= k < |ports| ==> Decimal.InIntRange(ports[k])
    ensures ParseEach(ParsePiece, Formatted(ports)) == Ok(ports)
  {
    forall k | 0 <= k < |ports| ensures ParsePiece(Decimal.DecimalString(ports[k])) == Some(ports[k]) {
      FormattedPortParses(ports[k]);
    }
    ParseEachFormatted(ParsePiece, ports);
  }

  /**
   * Port lists read back exactly: order and repeats are kept, and zero and
   * negative numbers are accepted (any Go int).
   */
  lemma FormattedPortsParse(ports: seq<int>)
    requires forall k :: 0 <= k < |ports| ==> Decimal.InIntRange(ports[k])
    ensures PortsOf(Formatted(ports)) == Ok(ports)
  {
    PiecesOfFormatted(ports);
    FormattedPortsRead(ports);
  }

  /** A single argument's pieces are its comma-separated parts. */
  lemma SingleArgPieces(arg: string)
    ensures Pieces([arg]) == Text.Split(arg, PortSeparator)
  {
    ConcatSnoc(ArgPieces, [arg], 0);
    assert [arg][..1] == [arg] && [arg][..0] == [];
  }

  /** No formatted port contains a comma. */
  lemma FormattedHasNoComma(ports: seq<int>)
    ensures forall k :: 0 <= k < |Formatted(ports)| ==> PortSeparator !in Formatted(ports)[k]
  {
    forall k | 0 <= k < |Formatted(ports)| ensures PortSeparator !in Formatted(ports)[k] {
      FormattedAt(ports, k);
      Decimal.DecimalStringPlain(ports[k]);
    }
  }

  /** A comma-separated list means the same as separate arguments. */
  lemma CommaListParses(ports: seq<int>)
    requires |ports| >= 1
    requires forall k :: 0 <= k < |ports| ==> Decimal.InIntRange(ports[k])
    ensures PortsOf([Text.JoinWith(Formatted(ports), PortSeparator)]) == Ok(ports)
  {
    var f := Formatted(ports);
    FormattedHasNoComma(ports);
    Text.SplitJoin(f, PortSeparator);
    SingleArgPieces(Text.JoinWith(f, PortSeparator));
    FormattedPortsRead(ports);
  }

  lemma {:induction false} FormattedAt(ports: seq<int>, k: int)
    requires 0 <= k < |ports|
    ensures Formatted(ports)[k] == Decimal.DecimalString(ports[k])
  {
    if k < |ports| - 1 {
      FormattedAt(ports[..|ports| - 1], k);
    }
  }

  // ---------------------------------------------------------------------
  // Commands

  /** Why the program stops with exit status 1 (`os.Exit(1)` or `log.Fatal`). */
  datatype Fatal =
    | Usage
    | AuthenticationFailed(err: ClientError)
    | CommandFailed(err: ClientError)
    | NoPortNumbers
    | InvalidPortNumber(piece: string)
    | UnknownCommand(command: string)

  datatype ExitStatus = Completed | Exited(reason: Fatal)

  /** The set-config commands of a per-port loop, in port order. */
  function PortCalls(host: string, ports: seq<int>, portPwr: string): seq<Call> {
    if ports == [] then []
    else PortCalls(host, ports[..|ports| - 1], portPwr) + [PoeSetConfigCommand(host, [ports[|ports| - 1]], portPwr)]
  }

  /** One command per port, in order, each for that port alone. */
  lemma {:induction false} PortCallsSpec(host: string, ports: seq<int>, portPwr: string)
    ensures |PortCalls(host, ports, portPwr)| == |ports|
    ensures forall k :: 0 <= k < |ports| ==> PortCalls(host, ports, portPwr)[k] == PoeSetConfigCommand(host, [ports[k]], portPwr)
  {
    if ports != [] {
      var init := ports[..|ports| - 1];
      PortCallsSpec(host, init, portPwr);
      assert forall k :: 0 <= k < |init| ==> init[k] == ports[k];
    }
  }

  /** One more port adds its command at the end. */
  lemma PortCallsSnoc(host: string, ports: seq<int>, i: int, portPwr: string)
    requires 0 <= i < |ports|
    ensures PortCalls(host, ports[..i + 1], portPwr)
         == PortCalls(host, ports[..i], portPwr) + [PoeSetConfigCommand(host, [ports[i]], portPwr)]
  {
    assert ports[..i + 1][..i] == ports[..i];
  }

  /** `showStatus`. */
  method ShowStatus(client: Client, lib: Library) returns (status: ExitStatus)
    modifies client`issued
    ensures client.issued == old(client.issued) + [PoeStatusCommand(client.host)]
    ensures match lib(client.issued)
      case Failed(msg) => status == Exited(CommandFailed(StatusFailed(msg)))
      case Succeeded(_) => status == Completed
  {
    var poe := client.POE();
    var r := poe.GetStatus(lib);
    status := if r.Err? then Exited(CommandFailed(r.error)) else Completed;
  }

  /** `showSettings`. */
  method ShowSettings(client: Client, lib: Library) returns (status: ExitStatus)
    modifies client`issued
    ensures client.issued == old(client.issued) + [PoeShowSettingsCommand(client.host)]
    ensures match lib(client.issued)
      case Failed(msg) => status == Exited(CommandFailed(SettingsFailed(msg)))
      case Succeeded(_) => status == Completed
  {
    var poe := client.POE();
    var r := poe.GetSettings(lib);
    status := if r.Err? then Exited(CommandFailed(r.error)) else Completed;
  }

  /**
   * `enablePorts` (`enable` true) and `disablePorts` (`enable` false): one
   * command per port, in order, whatever the outcome of the previous ones
   * (a failing port is only logged). An invalid or empty port list is fatal
   * before any command.
   */
  method SetPorts(client: Client, portArgs: seq<string>, enable: bool, lib: Library) returns (status: ExitStatus)
    modifies client`issued
    ensures match PortsOf(portArgs)
      case Err(piece) => status == Exited(InvalidPortNumber(piece)) && client.issued == old(client.issued)
      case Ok(ports) =>
        if ports == [] then status == Exited(NoPortNumbers) && client.issued == old(client.issued)
        else status == Completed &&
             client.issued == old(client.issued) + PortCalls(client.host, ports, if enable then EnablePower else DisablePower)
  {
    var parsed := ParsePorts(portArgs);
    if parsed.Err? {
      return Exited(InvalidPortNumber(parsed.error));
    }
    var ports := parsed.value;
    if |ports| == 0 {
      return Exited(NoPortNumbers);
    }
    PowerEach(client, ports, enable, lib);
    status := Completed;
  }

  /**
   * The loop of `enablePorts` and `disablePorts`: one command per port, in
   * order; a failing port is only logged and the loop goes on.
   */
  method PowerEach(client: Client, ports: seq<int>, enable: bool, lib: Library)
    modifies client`issued
    ensures client.issued == old(client.issued) + PortCalls(client.host, ports, if enable then EnablePower else DisablePower)
  {
    var portPwr := if enable then EnablePower else DisablePower;
    for i := 0 to |ports|
      invariant client.issued == old(client.issued) + PortCalls(client.host, ports[..i], portPwr)
    {
      var poe := client.POE();
      var err;
      if enable {
        err := poe.EnablePort(ports[i], lib);
      } else {
        err := poe.DisablePort(ports[i], lib);
      }
      PortCallsSnoc(client.host, ports, i, portPwr);
    }
    assert ports[..|ports|] == ports;
  }

  /** `cyclePorts`: a single command with all ports; its failure is fatal. */
  method CyclePorts(client: Client, portArgs: seq<string>, lib: Library) returns (status: ExitStatus)
    modifies client`issued
    ensures match PortsOf(portArgs)
      case Err(piece) => status == Exited(InvalidPortNumber(piece)) && client.issued == old(client.issued)
      case Ok(ports) =>
        if ports == [] then status == Exited(NoPortNumbers) && client.issued == old(client.issued)
        else client.issued == old(client.issued) + [PoeCyclePowerCommand(client.host, ports)] &&
             match lib(client.issued)
             case Failed(msg) => status == Exited(CommandFailed(CycleFailed(ports, msg)))
             case Succeeded(_) => status == Completed
  {
    var parsed := ParsePorts(portArgs);
    if parsed.Err? {
      return Exited(InvalidPortNumber(parsed.error));
    }
    var ports := parsed.value;
    if |ports| == 0 {
      return Exited(NoPortNumbers);
    }
    var poe := client.POE();
    var err := poe.CyclePower(ports, lib);
    status := if err.Some? then Exited(CommandFailed(err.value)) else Completed;
  }

  /** The commands run up to and including a successful automatic login. */
  function SessionCalls(host: string): seq<Call> {
    [LoginCommand(host, "")] + DetectionCalls(UnknownModel, host)
  }

  /**
   * `main`: with fewer than two arguments, usage and exit 1 with no command
   * run; otherwise a fresh client logs in automatically (a failure is fatal)
   * and only then is the command dispatched, so an unknown command exits 1
   * after the login. `calls` are the library commands run, in order.
   */
  method RunPoeManagement(args: seq<string>, debug: bool, homeDir: string, disk: TokenStore.Disk, lib: Library)
    returns (calls: seq<Call>, status: ExitStatus)
    ensures |args| < 2 ==> calls == [] && status == Exited(Usage)
    ensures |args| >= 2 && lib([LoginCommand(args[0], "")]).Failed? ==>
              calls == [LoginCommand(args[0], "")] &&
              status == Exited(AuthenticationFailed(AutoLoginFailed(lib([LoginCommand(args[0], "")]).message)))
    ensures |args| >= 2 && lib([LoginCommand(args[0], "")]).Succeeded? ==>
              var host, command, session := args[0], args[1], SessionCalls(args[0]);
              && |calls| >= |session| && calls[..|session|] == session
              && (command !in Commands ==> calls == session && status == Exited(UnknownCommand(command)))
              && (command == "status" ==>
                    calls == session + [PoeStatusCommand(host)] &&
                    status == (match lib(calls)
                               case Failed(msg) => Exited(CommandFailed(StatusFailed(msg)))
                               case Succeeded(_) => Completed))
              && (command == "settings" ==>
                    calls == session + [PoeShowSettingsCommand(host)] &&
                    status == (match lib(calls)
                               case Failed(msg) => Exited(CommandFailed(SettingsFailed(msg)))
                               case Succeeded(_) => Completed))
              && (command == "enable" || command == "disable" ==>
                    match PortsOf(args[2..])
                    case Err(piece) => calls == session && status == Exited(InvalidPortNumber(piece))
                    case Ok(ports) =>
                      if ports == [] then calls == session && status == Exited(NoPortNumbers)
                      else calls == session + PortCalls(host, ports, if command == "enable" then EnablePower else DisablePower)
                           && status == Completed)
              && (command == "cycle" ==>
                    match PortsOf(args[2..])
                    case Err(piece) => calls == session && status == Exited(InvalidPortNumber(piece))
                    case Ok(ports) =>
                      if ports == [] then calls == session && status == Exited(NoPortNumbers)
                      else calls == session + [PoeCyclePowerCommand(host, ports)] &&
                           status == (match lib(calls)
                                      case Failed(msg) => Exited(CommandFailed(CycleFailed(ports, msg)))
                                      case Succeeded(_) => Completed))
  {
    if |args| < 2 {
      return [], Exited(Usage);
    }
    var host, command := args[0], args[1];
    var tokenManager := new TokenStore.FileTokenManager("", homeDir, disk);
    var options := [WithTokenManager(tokenManager)] + if debug then [WithVerbose(true)] else [];
    var client := new Client(host, options);
    assert [] + [LoginCommand(host, "")] == [LoginCommand(host, "")];
    if !client.IsAuthenticated() {
      var err := client.LoginAuto(lib);
      if err.Some? {
        return client.issued, Exited(AuthenticationFailed(err.value));
      }
    }
    assert client.issued == SessionCalls(host);
    if command == "status" {
      status := ShowStatus(client, lib);
    } else if command == "settings" {
      status := ShowSettings(client, lib);
    } else if command == "enable" {
      status := SetPorts(client, args[2..], true, lib);
    } else if command == "disable" {
      status := SetPorts(client, args[2..], false, lib);
    } else if command == "cycle" {
      status := CyclePorts(client, args[2..], lib);
    } else {
      status := Exited(UnknownCommand(command));
    }
    calls := client.issued;
  }
}
