/**
 * main of ubimkvol: the checks on argv, option parsing into `myargs`, the
 * sanity check, resolving the max-available size against the device,
 * building and issuing the mkvol request, and choosing how the created
 * volume is reported. Every libubi call is answered by a `Library` value.
 */
module Mkvol {
  import opened Wrappers
  import opened Conversions
  import opened Libubi
  import opened Params
  import opened Sanity

  /** main's checks on argv before the options: a node name, something after it, and a node name that fits. */
  function CheckArgv(argv: seq<string>): (r: Result<string, Error>)
    ensures r.Success? <==> |argv| >= 3 && |argv[1]| <= MAX_NODE_LEN
    ensures r.Success? ==> r.value == argv[1]
    ensures |argv| < 2 ==> r == Failure(NoDeviceNode)
    ensures |argv| == 2 ==> r == Failure(TooFewArguments)
    ensures |argv| >= 3 && |argv[1]| > MAX_NODE_LEN ==> r == Failure(NodeTooLong)
  {
    if |argv| < 2 then Failure(NoDeviceNode)
    else if |argv| < 3 then Failure(TooFewArguments)
    else if |argv[1]| > MAX_NODE_LEN then Failure(NodeTooLong)
    else Success(argv[1])
  }

  /** The request main fills from the record, field by field. */
  function BuildRequest(c: Config): MkvolRequest
    requires c.name.Some?
  {
    MkvolRequest(c.volId, c.alignment, c.bytes, c.volType, c.name.value)
  }

  const KIB := 1024
  const MIB := 1024 * 1024
  const GIB := 1024 * 1024 * 1024

  datatype SizeUnit = KiB | MiB | GiB

  function UnitBytes(u: SizeUnit): nat {
    match u
    case KiB => KIB
    case MiB => MIB
    case GiB => GIB
  }

  /**
   * The unit the size of the created volume is printed in: the largest of
   * MiB and GiB that the size strictly exceeds, and KiB when it exceeds neither.
   */
  function ReportUnit(rsvdBytes: int): (u: SizeUnit)
    ensures u != KiB ==> rsvdBytes > UnitBytes(u)
    ensures forall v :: UnitBytes(v) > UnitBytes(u) ==> rsvdBytes <= UnitBytes(v)
  {
    if rsvdBytes > GIB then GiB
    else if rsvdBytes > MIB then MiB
    else KiB
  }

  /** The comparisons are strict: exactly one GiB is shown in MiB and exactly one MiB in KiB. */
  lemma UnitBoundaries()
    ensures ReportUnit(GIB) == MiB && ReportUnit(GIB + 1) == GiB
    ensures ReportUnit(MIB) == KiB && ReportUnit(MIB + 1) == MiB
  {
  }

  /**
   * The number of LEBs printed: C's integer division, which truncates toward
   * zero. For a size and block length as the kernel reports them it is the
   * number of whole blocks.
   */
  function Lebs(rsvdBytes: int, ebSize: int): (n: int)
    requires ebSize != 0
    ensures Abs(n) == Abs(rsvdBytes) / Abs(ebSize)
    ensures n != 0 ==> (n > 0 <==> (rsvdBytes > 0) == (ebSize > 0))
    ensures rsvdBytes >= 0 && ebSize > 0 ==> 0 <= n && n * ebSize <= rsvdBytes < n * ebSize + ebSize
    ensures (rsvdBytes >= 0) == (ebSize > 0) ==> n >= 0
  {
    var a := Abs(rsvdBytes);
    var b := Abs(ebSize);
    WholeBlocks(a, b);
    if (rsvdBytes >= 0) == (ebSize > 0) then a / b else -(a / b)
  }

  function Abs(x: int): (m: nat)
    ensures m == x || m == -x
  {
    if x < 0 then -x else x
  }

  lemma WholeBlocks(a: nat, b: nat)
    requires b > 0
    ensures 0 <= a / b && (a / b) * b <= a < (a / b) * b + b
  {
    var q, r := a / b, a % b;
    assert a == q * b + r;
  }

  /** What is printed about the created volume. */
  datatype Report = Report(
    volId: int, lebs: int, bytes: int, unit: SizeUnit, ebSize: int, volType: VolType, name: string)

  /**
   * The report shows what ubi_get_vol_info1 returned, except the volume type,
   * which is taken from the request.
   */
  function MakeReport(vi: VolInfo, volType: VolType): (r: Report)
    requires vi.ebSize != 0
    ensures r.volId == vi.volId && r.bytes == vi.rsvdBytes && r.ebSize == vi.ebSize && r.name == vi.name
    ensures r.volType == volType
    ensures r.lebs == Lebs(vi.rsvdBytes, vi.ebSize) && r.unit == ReportUnit(vi.rsvdBytes)
  {
    Report(vi.volId, Lebs(vi.rsvdBytes, vi.ebSize), vi.rsvdBytes, ReportUnit(vi.rsvdBytes), vi.ebSize, volType, vi.name)
  }

  /** How a run of the tool ends. */
  datatype RunOutcome =
    | Created(request: MkvolRequest, report: Report)
    | HelpShown
    | VersionShown
    | UnknownOption
    | Aborted(error: Error)

  /** The process status: 0 after a creation, help or the version, -1 otherwise. */
  function ExitCode(o: RunOutcome): (code: int)
    ensures code == 0 <==> o.Created? || o.HelpShown? || o.VersionShown?
    ensures code != 0 ==> code == -1
  {
    match o
    case Created(_, _) => 0
    case HelpShown => 0
    case VersionShown => 0
    case UnknownOption => -1
    case Aborted(_) => -1
  }

  /** How a stopped option loop ends the run. */
  function Stopped(s: Status): RunOutcome
    requires !s.Ok?
  {
    match s
    case Help => HelpShown
    case Version => VersionShown
    case Unknown => UnknownOption
    case Failed(e) => Aborted(e)
  }

  /** The record once the options are parsed from the defaults with argv[1] copied into `node`. */
  function ParsedArgs(node: string, tokens: seq<Token>): Parsed {
    ParseOpts(Defaults().(node := node), tokens)
  }

  /** The record ready to be turned into a request, and the device it is for. */
  datatype Ready = Ready(args: Config, dev: DevInfo)

  /**
   * main up to the mkvol call: argv checks, options, libubi_open, the sanity
   * check, ubi_get_dev_info for the node, and the max-available override of
   * the size. A record gets through exactly when argv is accepted, the
   * options are, libubi_open succeeds, the sanity check passes and the node
   * names a device. It is then the parsed record, with only the size replaced
   * by the device's available bytes when max-available is on, so it has a
   * name of acceptable length.
   */
  function Prepare(argv: seq<string>, tokens: seq<Token>, lib: Library): (r: Result<Ready, RunOutcome>)
    ensures r.Success? <==> (
      && CheckArgv(argv).Success?
      && ParsedArgs(argv[1], tokens).status.Ok?
      && lib.opens
      && ParamSanityCheck(ParsedArgs(argv[1], tokens).args, lib.info).None?
      && lib.devInfo(ParsedArgs(argv[1], tokens).args.node).Some?)
    ensures r.Success? ==> var p := ParsedArgs(argv[1], tokens).args;
      r.value.args == (if p.maxavs then p.(bytes := r.value.dev.availBytes) else p)
    ensures CheckArgv(argv).Failure? ==> r == Failure(Aborted(CheckArgv(argv).error))
    ensures CheckArgv(argv).Success? && !ParsedArgs(argv[1], tokens).status.Ok? ==>
      r == Failure(Stopped(ParsedArgs(argv[1], tokens).status))
    ensures CheckArgv(argv).Success? && ParsedArgs(argv[1], tokens).status.Ok? && !lib.opens ==>
      r == Failure(Aborted(OpenFailed))
    ensures CheckArgv(argv).Success? && ParsedArgs(argv[1], tokens).status.Ok? && lib.opens ==>
      var check := ParamSanityCheck(ParsedArgs(argv[1], tokens).args, lib.info);
      check.Some? ==> r == Failure(Aborted(check.value))
    ensures CheckArgv(argv).Success? && ParsedArgs(argv[1], tokens).status.Ok? && lib.opens ==>
      var p := ParsedArgs(argv[1], tokens).args;
      ParamSanityCheck(p, lib.info).None? && lib.devInfo(p.node).None? ==> r == Failure(Aborted(DevInfoFailed))
    ensures r.Success? ==> var c := r.value.args;
      && c.name.Some? && |c.name.value| <= UBI_MAX_VOLUME_NAME
      && lib.devInfo(c.node) == Some(r.value.dev)
      && (c.maxavs ==> c.bytes == r.value.dev.availBytes)
    ensures r.Failure? ==> !r.error.Created?
  {
    match CheckArgv(argv)
    case Failure(e) => Failure(Aborted(e))
    case Success(node) =>
      var p := ParsedArgs(node, tokens);
      if !p.status.Ok? then Failure(Stopped(p.status))
      else if !lib.opens then Failure(Aborted(OpenFailed))
      else
        var check := ParamSanityCheck(p.args, lib.info);
        if check.Some? then Failure(Aborted(check.value))
        else
          assert !Violates(p.args, lib.info, NameNotSpecified) && !Violates(p.args, lib.info, NameTooLong);
          match lib.devInfo(p.args.node)
          case None => Failure(Aborted(DevInfoFailed))
          case Some(dev) =>
            Success(Ready(if p.args.maxavs then p.args.(bytes := dev.availBytes) else p.args, dev))
  }

  /**
   * A whole run of main. It creates a volume exactly when the record gets
   * through, ubi_mkvol accepts the request and ubi_get_vol_info1 answers for
   * the id it wrote back; a run stopped before that ends as that step says. A
   * created volume's request carries the id ubi_mkvol wrote back, and the
   * report is made from what ubi_get_vol_info1 says about that id on the
   * device.
   */
  function Invocation(argv: seq<string>, tokens: seq<Token>, lib: Library): (o: RunOutcome)
    requires NonZeroEraseBlocks(lib)
    ensures o.Created? <==> (
      && Prepare(argv, tokens, lib).Success?
      && var ready := Prepare(argv, tokens, lib).value;
      && lib.mkvol(ready.args.node, BuildRequest(ready.args)).Some?
      && lib.volInfo(ready.dev.devNum, lib.mkvol(ready.args.node, BuildRequest(ready.args)).value).Some?)
    ensures Prepare(argv, tokens, lib).Failure? ==> o == Prepare(argv, tokens, lib).error
    ensures Prepare(argv, tokens, lib).Success? ==>
      var ready := Prepare(argv, tokens, lib).value;
      var created := lib.mkvol(ready.args.node, BuildRequest(ready.args));
      && (created.None? ==> o == Aborted(MkvolFailed))
      && (created.Some? && lib.volInfo(ready.dev.devNum, created.value).None? ==> o == Aborted(VolInfoFailed))
    ensures o.Created? ==>
      && Prepare(argv, tokens, lib).Success?
      && var ready := Prepare(argv, tokens, lib).value;
      && o.request == BuildRequest(ready.args).(volId := o.request.volId)
      && lib.mkvol(ready.args.node, BuildRequest(ready.args)) == Some(o.request.volId)
      && lib.volInfo(ready.dev.devNum, o.request.volId).Some?
      && o.report == MakeReport(lib.volInfo(ready.dev.devNum, o.request.volId).value, ready.args.volType)
  {
    match Prepare(argv, tokens, lib)
    case Failure(o) => o
    case Success(ready) =>
      var req := BuildRequest(ready.args);
      match lib.mkvol(ready.args.node, req)
      case None => Aborted(MkvolFailed)
      case Some(id) =>
        match lib.volInfo(ready.dev.devNum, id)
        case None => Aborted(VolInfoFailed)
        case Some(vi) => Created(req.(volId := id), MakeReport(vi, req.volType))
  }

  /** Whether libubi_open was reached and gave a handle, which must then be closed. */
  predicate HandleOpened(argv: seq<string>, tokens: seq<Token>, lib: Library) {
    CheckArgv(argv).Success? && ParsedArgs(CheckArgv(argv).value, tokens).status.Ok? && lib.opens
  }

  /**
   * main, over the record `myargs` and the request updated in place. It ends
   * as `Invocation` says, and it closes the library handle on exactly the
   * paths where it opened one.
   */
  method Run(argv: seq<string>, tokens: seq<Token>, lib: Library) returns (outcome: RunOutcome, closed: bool)
    requires NonZeroEraseBlocks(lib)
    ensures outcome == Invocation(argv, tokens, lib)
    ensures closed <==> HandleOpened(argv, tokens, lib)
  {
    if |argv| < 2 {
      return Aborted(NoDeviceNode), false;
    }
    if |argv| < 3 {
      return Aborted(TooFewArguments), false;
    }
    if |argv[1]| > MAX_NODE_LEN {
      return Aborted(NodeTooLong), false;
    }
    var myargs := new Args();
    myargs.node := argv[1];
    var s := myargs.ParseOpt(tokens);
    if !s.Ok? {
      return Stopped(s), false;
    }
    if !lib.opens {
      return Aborted(OpenFailed), false;
    }
    var err := ParamSanityCheck(myargs.Value(), lib.info);
    if err.Some? {
      return Aborted(err.value), true;
    }
    assert !Violates(myargs.Value(), lib.info, NameNotSpecified);
    var devInfo := lib.devInfo(myargs.node);
    if devInfo.None? {
      return Aborted(DevInfoFailed), true;
    }
    var dev := devInfo.value;
    if myargs.maxavs {
      myargs.bytes := dev.availBytes;
    }
    var req := MkvolRequest(myargs.volId, myargs.alignment, myargs.bytes, myargs.volType, myargs.name.value);
    var created := lib.mkvol(myargs.node, req);
    if created.None? {
      return Aborted(MkvolFailed), true;
    }
    req := req.(volId := created.value);
    myargs.volId := req.volId;
    var volInfo := lib.volInfo(dev.devNum, myargs.volId);
    if volInfo.None? {
      return Aborted(VolInfoFailed), true;
    }
    outcome := Created(req, MakeReport(volInfo.value, req.volType));
    closed := true;
  }

  /**
   * Every request that reaches ubi_mkvol is consistent: positive alignment,
   * an automatic or non-negative volume id, a non-negative size that is
   * positive unless max-available was asked for, a name UBI accepts, and the
   * node is argv[1] unless `-d` named a device.
   */
  lemma RequestConsistent(argv: seq<string>, tokens: seq<Token>, lib: Library)
    requires Prepare(argv, tokens, lib).Success?
    ensures var ready := Prepare(argv, tokens, lib).value;
      var req := BuildRequest(ready.args);
      && req.alignment > 0
      && (req.volId == VOL_NUM_AUTO || req.volId >= 0)
      && req.bytes >= 0
      && (req.bytes > 0 || ready.args.maxavs)
      && |req.name| <= UBI_MAX_VOLUME_NAME
      && ready.args.node == (if ready.args.devn < 0 then argv[1] else DevNode(ready.args.devn))
  {
    var node := CheckArgv(argv).value;
    DefaultsWellFormed(node);
    ParseKeepsWellFormed(Defaults().(node := node), node, tokens);
  }

  /**
   * With `-m` among the options the request asks for the bytes the device
   * reports available, whatever `-s` said and wherever it stood.
   */
  lemma MaxavsOverridesSize(argv: seq<string>, tokens: seq<Token>, lib: Library, i: nat)
    requires i < |tokens| && tokens[i].key == 'm'
    requires Prepare(argv, tokens, lib).Success?
    ensures var ready := Prepare(argv, tokens, lib).value;
      && BuildRequest(ready.args).bytes == ready.dev.availBytes
      && lib.devInfo(ready.args.node) == Some(ready.dev)
  {
    MaxavsOptionWins(Defaults().(node := CheckArgv(argv).value), tokens, i);
  }

  /**
   * Without `-s` and `-m`, a run that opens the library ends with the missing
   * size, whatever the other options were.
   */
  lemma NoSizeNoMaxavs(argv: seq<string>, tokens: seq<Token>, lib: Library)
    requires NonZeroEraseBlocks(lib) && HandleOpened(argv, tokens, lib)
    requires 's' !in KeysOf(tokens) && 'm' !in KeysOf(tokens)
    ensures Invocation(argv, tokens, lib) == Aborted(SizeNotSpecified)
  {
    OptionsKeepOtherFields(Defaults().(node := CheckArgv(argv).value), tokens);
  }

  /**
   * Without `-N`, a run that opens the library ends at the size or the name
   * check, before ubi_get_info is asked: its answer does not matter.
   */
  lemma NameOmitted(argv: seq<string>, tokens: seq<Token>, lib: Library, info: Option<UbiInfo>)
    requires NonZeroEraseBlocks(lib) && HandleOpened(argv, tokens, lib)
    requires 'N' !in KeysOf(tokens)
    ensures Invocation(argv, tokens, lib) in {Aborted(SizeNotSpecified), Aborted(NameNotSpecified)}
    ensures NonZeroEraseBlocks(lib.(info := info))
    ensures Invocation(argv, tokens, lib) == Invocation(argv, tokens, lib.(info := info))
  {
    OptionsKeepOtherFields(Defaults().(node := CheckArgv(argv).value), tokens);
  }

  /**
   * The process exits with 0 exactly when a volume was created or argv was
   * accepted and the options asked for help or the version; every error
   * ends with -1.
   */
  lemma ExitStatus(argv: seq<string>, tokens: seq<Token>, lib: Library)
    requires NonZeroEraseBlocks(lib)
    ensures var o := Invocation(argv, tokens, lib);
      && (ExitCode(o) == 0 <==>
        || o.Created?
        || (CheckArgv(argv).Success? && ParsedArgs(argv[1], tokens).status in {Help, Version}))
      && (ExitCode(o) != 0 ==> ExitCode(o) == -1)
  {
  }

  /**
   * libubi_open comes before param_sanity_check: when it fails, that failure
   * is reported even for a record without a size or a name.
   */
  lemma OpenBeforeSanity(argv: seq<string>, tokens: seq<Token>, lib: Library)
    requires NonZeroEraseBlocks(lib) && !lib.opens
    requires CheckArgv(argv).Success? && ParsedArgs(argv[1], tokens).status.Ok?
    ensures Invocation(argv, tokens, lib) == Aborted(OpenFailed)
    ensures !HandleOpened(argv, tokens, lib)
  {
  }

  /**
   * A run rejected on argv or stopped by an option ends before libubi_open:
   * no library answer changes it and no handle is opened.
   */
  lemma StopsBeforeLibrary(argv: seq<string>, tokens: seq<Token>, lib1: Library, lib2: Library)
    requires NonZeroEraseBlocks(lib1) && NonZeroEraseBlocks(lib2)
    requires CheckArgv(argv).Failure? || !ParsedArgs(CheckArgv(argv).value, tokens).status.Ok?
    ensures Invocation(argv, tokens, lib1) == Invocation(argv, tokens, lib2)
    ensures !HandleOpened(argv, tokens, lib1)
  {
  }

  /**
   * `ubimkvol /dev/ubi0 -N data -s 10MiB -t dynamic` asks for a dynamic
   * volume of 10 MiB named "data", with alignment 1 and the id left to UBI.
   */
  lemma TenMiBVolume(lib: Library)
    requires lib.opens && lib.info.Some? && lib.devInfo("/dev/ubi0").Some?
    ensures var argv := ["ubimkvol", "/dev/ubi0", "-N", "data", "-s", "10MiB", "-t", "dynamic"];
      var tokens := [Token('N', "data"), Token('s', "10MiB"), Token('t', "dynamic")];
      && Prepare(argv, tokens, lib).Success?
      && BuildRequest(Prepare(argv, tokens, lib).value.args)
         == MkvolRequest(VOL_NUM_AUTO, 1, 10485760, Dynamic, "data")
  {
    var argv := ["ubimkvol", "/dev/ubi0", "-N", "data", "-s", "10MiB", "-t", "dynamic"];
    var tokens := [Token('N', "data"), Token('s', "10MiB"), Token('t', "dynamic")];
    var c := Defaults().(node := "/dev/ubi0", name := Some("data"), nlen := 4, bytes := 10485760);
    TenMiBOptions();
    assert CheckArgv(argv) == Success("/dev/ubi0");
    assert ParamSanityCheck(c, lib.info) == None;
  }

  /** `-s 10MiB` sets the size to 10485760 bytes. */
  lemma TenMiBSize(c: Config)
    ensures ApplyToken(c, Token('s', "10MiB")) == Parsed(c.(bytes := 10485760), Ok)
  {
    assert Decimal(10) == "10";
    assert "10MiB" == Decimal(10) + "MiB";
    SizeOption(c, 10, "MiB");
  }

  /** The options of the 10 MiB example, parsed. */
  lemma TenMiBOptions()
    ensures ParsedArgs("/dev/ubi0", [Token('N', "data"), Token('s', "10MiB"), Token('t', "dynamic")])
      == Parsed(Defaults().(node := "/dev/ubi0", name := Some("data"), nlen := 4, bytes := 10485760), Ok)
  {
    var tokens := [Token('N', "data"), Token('s', "10MiB"), Token('t', "dynamic")];
    var c0 := Defaults().(node := "/dev/ubi0");
    var c1 := c0.(name := Some("data"), nlen := 4);
    var c := c1.(bytes := 10485760);
    ParseOptsAppend(c0, tokens[..1], tokens[1..]);
    ParseOptsAppend(c1, tokens[1..2], tokens[2..]);
    ParseOptsAppend(c, tokens[2..], []);
    assert ParseOpts(c0, tokens[..1]) == Parsed(c1, Ok) by {
      assert tokens[..1][1..] == [];
    }
    assert ParseOpts(c1, tokens[1..2]) == Parsed(c, Ok) by {
      TenMiBSize(c1);
      assert tokens[1..2][1..] == [];
    }
    assert ParseOpts(c, tokens[2..]) == Parsed(c, Ok) by {
      assert tokens[2..][1..] == [];
    }
    assert tokens[..1] + tokens[1..] == tokens;
    assert tokens[1..2] + tokens[2..] == tokens[1..];
    assert tokens[2..] + [] == tokens[2..];
  }

  /**
   * `ubimkvol /dev/ubi0 -N x -m` on a device with 5000000 bytes available
   * asks for exactly that many bytes.
   */
  lemma MaxavsVolume(lib: Library)
    requires lib.opens && lib.info.Some? && lib.devInfo("/dev/ubi0") == Some(DevInfo(0, 5000000))
    ensures var argv := ["ubimkvol", "/dev/ubi0", "-N", "x", "-m"];
      var tokens := [Token('N', "x"), Token('m', "")];
      && Prepare(argv, tokens, lib).Success?
      && BuildRequest(Prepare(argv, tokens, lib).value.args).bytes == 5000000
  {
    var tokens := [Token('N', "x"), Token('m', "")];
    assert tokens[1..][1..] == [];
  }

  /** `ubimkvol /dev/ubi0 -s -1` is a bad size, whatever the library would answer. */
  lemma NegativeSizeRun(lib: Library)
    requires NonZeroEraseBlocks(lib)
    ensures Invocation(["ubimkvol", "/dev/ubi0", "-s", "-1"], [Token('s', "-1")], lib) == Aborted(BadVolumeSize)
  {
    assert "-1" == "-" + Decimal(1);
    NegativeSizeRejected(Defaults().(node := "/dev/ubi0"), 1);
  }

  /** `ubimkvol /dev/ubi0 -t archive` is a bad volume type, whatever the library would answer. */
  lemma UnknownTypeRun(lib: Library)
    requires NonZeroEraseBlocks(lib)
    ensures Invocation(["ubimkvol", "/dev/ubi0", "-t", "archive"], [Token('t', "archive")], lib) == Aborted(BadVolumeType)
  {
  }
}
