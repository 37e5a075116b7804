/**
 * The command-line record of ubimkvol (`struct args`) and the option loop
 * that fills it (`parse_opt`). Each option the tokeniser delivers is applied
 * to the record in turn; an option may stop the loop with help, the version,
 * an unknown-option exit or an error.
 */
module Params {
  import opened Wrappers
  import opened Conversions
  import opened Libubi

  /** Longest device node name the `node` buffer holds, without its terminator. */
  const MAX_NODE_LEN := 255

  /** Why the tool gives up; the comment on each group says where it is raised. */
  datatype Error =
    // main, before the options are parsed
    | NoDeviceNode | TooFewArguments | NodeTooLong
    // parse_opt
    | BadVolumeType | BadVolumeSize | BadSizeSpecifier | BadAlignment
    | BadDeviceNumber | BadVolumeId | MissingParameter
    // param_sanity_check
    | SizeNotSpecified | NameNotSpecified | InfoQueryFailed | NoSuchDevice | NameTooLong
    // main, once the options are accepted
    | OpenFailed | DevInfoFailed | MkvolFailed | VolInfoFailed

  /** The value of a `struct args` record; `name` is None while the pointer is NULL. */
  datatype Config = Config(
    devn: int,
    volId: int,
    volType: VolType,
    bytes: int,
    alignment: int,
    name: Option<string>,
    nlen: int,
    node: string,
    maxavs: bool)

  /** The static initialiser of `myargs`; `node` is zero-filled, so empty. */
  function Defaults(): Config {
    Config(-1, VOL_NUM_AUTO, Dynamic, 0, 1, None, 0, "", false)
  }

  /**
   * One result of getopt_long: the key character and `optarg`. The argument
   * is only looked at by keys that take one. Strings are the characters
   * before the C terminator.
   */
  datatype Token = Token(key: char, arg: string)

  /** How an option (or the whole loop) ends: go on, or stop the tool. */
  datatype Status = Ok | Help | Version | Unknown | Failed(error: Error)

  /** The record after an option, and the status it leaves. */
  datatype Parsed = Parsed(args: Config, status: Status)

  /** The keys that update the record and let the loop continue. */
  const SETTING_KEYS := "tsadnNm"

  /** `-t`: only "dynamic" and "static" are volume types. */
  function ApplyType(c: Config, arg: string): (p: Parsed)
    ensures p.status.Ok? <==> arg == "dynamic" || arg == "static"
    ensures p.status.Ok? ==> p.args == c.(volType := if arg == "static" then Static else Dynamic)
    ensures !p.status.Ok? ==> p == Parsed(c, Failed(BadVolumeType))
  {
    if arg == "dynamic" then Parsed(c.(volType := Dynamic), Ok)
    else if arg == "static" then Parsed(c.(volType := Static), Ok)
    else Parsed(c, Failed(BadVolumeType))
  }

  /** The factor a size suffix stands for; no suffix means bytes. */
  function SuffixFactor(rest: string): int {
    if rest == [] then 1 else Multiplier(rest)
  }

  /**
   * `-s`: a number, then an optional unit suffix. The field is written with
   * the number before it is checked, so a rejected size still leaves it there.
   */
  function ApplySize(c: Config, arg: string): (p: Parsed)
    ensures p.args == c.(bytes := p.args.bytes)
    ensures p.status in {Ok, Failed(BadVolumeSize), Failed(BadSizeSpecifier)}
    ensures var n := ParseNumber(arg);
      p.status == Failed(BadVolumeSize) <==> n.consumed == 0 || n.value < 0
    ensures var n := ParseNumber(arg);
      p.status == Failed(BadSizeSpecifier) <==>
        n.consumed > 0 && n.value >= 0 && SuffixFactor(arg[n.consumed..]) == -1
    ensures var n := ParseNumber(arg);
      p.status.Ok? ==> p.args.bytes == n.value * SuffixFactor(arg[n.consumed..]) && p.args.bytes >= 0
  {
    var n := ParseNumber(arg);
    var c' := c.(bytes := n.value);
    if n.consumed == 0 || n.value < 0 then Parsed(c', Failed(BadVolumeSize))
    else if n.consumed < |arg| then
      var mult := Multiplier(arg[n.consumed..]);
      if mult == -1 then Parsed(c', Failed(BadSizeSpecifier))
      else Parsed(c'.(bytes := n.value * mult), Ok)
    else
      assert arg[n.consumed..] == [];
      Parsed(c', Ok)
  }

  /** `-a`: the alignment must be a whole numeral with a positive value. */
  function ApplyAlignment(c: Config, arg: string): (p: Parsed)
    ensures p.args == c.(alignment := ParseNumber(arg).value)
    ensures p.status.Ok? <==> IsNumeral(arg) && ParseNumber(arg).value > 0
    ensures !p.status.Ok? ==> p.status == Failed(BadAlignment)
  {
    var n := ParseNumber(arg);
    var c' := c.(alignment := n.value);
    if n.consumed < |arg| || n.consumed == 0 || n.value <= 0 then Parsed(c', Failed(BadAlignment))
    else Parsed(c', Ok)
  }

  /** The node name sprintf("/dev/ubi%d") writes for a device number. */
  function DevNode(devn: int): string
    requires devn >= 0
  {
    "/dev/ubi" + Decimal(devn)
  }

  /**
   * `-d`: the device number must be a whole numeral with a non-negative
   * value; an accepted number also replaces `node` by its `/dev/ubi<N>` name.
   */
  function ApplyDevn(c: Config, arg: string): (p: Parsed)
    ensures p.status.Ok? <==> IsNumeral(arg) && ParseNumber(arg).value >= 0
    ensures !p.status.Ok? ==> p == Parsed(c.(devn := ParseNumber(arg).value), Failed(BadDeviceNumber))
    ensures p.status.Ok? ==>
      p.args == c.(devn := ParseNumber(arg).value, node := DevNode(ParseNumber(arg).value))
  {
    var n := ParseNumber(arg);
    var c' := c.(devn := n.value);
    if n.consumed < |arg| || n.consumed == 0 || n.value < 0 then Parsed(c', Failed(BadDeviceNumber))
    else Parsed(c'.(node := DevNode(n.value)), Ok)
  }

  /** `-n`: the volume id must be a whole numeral with a non-negative value. */
  function ApplyVolId(c: Config, arg: string): (p: Parsed)
    ensures p.args == c.(volId := ParseNumber(arg).value)
    ensures p.status.Ok? <==> IsNumeral(arg) && ParseNumber(arg).value >= 0
    ensures !p.status.Ok? ==> p.status == Failed(BadVolumeId)
  {
    var n := ParseNumber(arg);
    var c' := c.(volId := n.value);
    if n.consumed < |arg| || n.consumed == 0 || n.value < 0 then Parsed(c', Failed(BadVolumeId))
    else Parsed(c', Ok)
  }

  /** `-N`: any string is taken as the name, the empty one too, with its length. */
  function ApplyName(c: Config, arg: string): (p: Parsed)
    ensures p.status == Ok
    ensures p.args.name == Some(arg) && p.args.nlen == |arg|
    ensures p.args.(name := c.name, nlen := c.nlen) == c
  {
    Parsed(c.(name := Some(arg), nlen := |arg|), Ok)
  }

  /** One pass of the `switch` in parse_opt. */
  function ApplyToken(c: Config, t: Token): (p: Parsed)
    ensures p.status == Help <==> t.key == 'h'
    ensures p.status == Version <==> t.key == 'V'
    ensures p.status == Unknown <==> t.key !in SETTING_KEYS + "hV:"
    ensures p.status == Failed(MissingParameter) <==> t.key == ':'
    ensures p.status.Ok? ==> t.key in SETTING_KEYS
    ensures t.key == 'm' ==> p == Parsed(c.(maxavs := true), Ok)
  {
    match t.key
    case 't' => ApplyType(c, t.arg)
    case 's' => ApplySize(c, t.arg)
    case 'a' => ApplyAlignment(c, t.arg)
    case 'd' => ApplyDevn(c, t.arg)
    case 'n' => ApplyVolId(c, t.arg)
    case 'N' => ApplyName(c, t.arg)
    case 'h' => Parsed(c, Help)
    case ':' => Parsed(c, Failed(MissingParameter))
    case 'V' => Parsed(c, Version)
    case 'm' => Parsed(c.(maxavs := true), Ok)
    case _ => Parsed(c, Unknown)
  }

  /**
   * parse_opt: apply the options in order until one stops the loop. The loop
   * only finishes with Ok when every option was one that sets a field.
   */
  function ParseOpts(c: Config, tokens: seq<Token>): (p: Parsed)
    ensures p.status.Ok? ==> forall i :: 0 <= i < |tokens| ==> tokens[i].key in SETTING_KEYS
    ensures tokens == [] ==> p == Parsed(c, Ok)
    decreases |tokens|
  {
    if tokens == [] then Parsed(c, Ok)
    else
      var q := ApplyToken(c, tokens[0]);
      if q.status.Ok? then ParseOpts(q.args, tokens[1..]) else q
  }

  /** Parsing a concatenation is parsing the first part, then the rest if it went through. */
  lemma {:induction false} ParseOptsAppend(c: Config, first: seq<Token>, rest: seq<Token>)
    ensures var p := ParseOpts(c, first);
      ParseOpts(c, first + rest) == if p.status.Ok? then ParseOpts(p.args, rest) else p
    decreases |first|
  {
    if first == [] {
      assert first + rest == rest;
    } else {
      assert (first + rest)[0] == first[0];
      assert (first + rest)[1..] == first[1..] + rest;
      var q := ApplyToken(c, first[0]);
      if q.status.Ok? {
        ParseOptsAppend(q.args, first[1..], rest);
      }
    }
  }

  /**
   * The first option that stops the loop decides the outcome: whatever
   * follows it, help, the version, an unknown option or an error wins.
   */
  lemma FirstStopDecides(c: Config, before: seq<Token>, t: Token, after: seq<Token>)
    requires ParseOpts(c, before).status.Ok?
    requires !ApplyToken(ParseOpts(c, before).args, t).status.Ok?
    ensures ParseOpts(c, before + [t] + after) == ApplyToken(ParseOpts(c, before).args, t)
  {
    ParseOptsAppend(c, before, [t] + after);
    assert before + [t] + after == before + ([t] + after);
    assert ([t] + after)[0] == t;
  }

  /**
   * What holds of the record between options, given the node name main
   * copied in: alignment positive, volume id automatic or non-negative, size
   * non-negative, the name length kept with the name, and `node` the copied
   * name unless `-d` named a device, in which case it is that device's node.
   */
  predicate WellFormed(c: Config, positional: string) {
    && c.alignment > 0
    && (c.volId == VOL_NUM_AUTO || c.volId >= 0)
    && c.bytes >= 0
    && c.devn >= -1
    && (if c.name.Some? then c.nlen == |c.name.value| else c.nlen == 0)
    && c.node == (if c.devn < 0 then positional else DevNode(c.devn))
  }

  /** The defaults, with the positional node copied in, are well formed. */
  lemma DefaultsWellFormed(positional: string)
    ensures WellFormed(Defaults().(node := positional), positional)
    ensures Defaults().(node := positional).node == positional
  {
  }

  /** An option that lets the loop continue keeps the record well formed. */
  lemma ApplyKeepsWellFormed(c: Config, positional: string, t: Token)
    requires WellFormed(c, positional)
    requires ApplyToken(c, t).status.Ok?
    ensures WellFormed(ApplyToken(c, t).args, positional)
  {
    if t.key == 's' {
      var n := ParseNumber(t.arg);
      var f := SuffixFactor(t.arg[n.consumed..]);
      assert n.value >= 0 && f >= 1;
      assert n.value * f >= 0;
    }
  }

  /** A loop that finishes with Ok leaves a well-formed record well formed. */
  lemma {:induction false} ParseKeepsWellFormed(c: Config, positional: string, tokens: seq<Token>)
    requires WellFormed(c, positional)
    requires ParseOpts(c, tokens).status.Ok?
    ensures WellFormed(ParseOpts(c, tokens).args, positional)
    decreases |tokens|
  {
    if tokens != [] {
      ApplyKeepsWellFormed(c, positional, tokens[0]);
      ParseKeepsWellFormed(ApplyToken(c, tokens[0]).args, positional, tokens[1..]);
    }
  }

  /** The keys of a list of options. */
  function KeysOf(tokens: seq<Token>): set<char> {
    set t | t in tokens :: t.key
  }

  /**
   * `d` agrees with `c` on every field no key in `keys` writes: `-t` the type,
   * `-s` the size, `-a` the alignment, `-d` the device number and the node,
   * `-n` the volume id, `-N` the name and its length, `-m` max-available.
   */
  predicate SameExcept(c: Config, d: Config, keys: set<char>) {
    && ('t' !in keys ==> d.volType == c.volType)
    && ('s' !in keys ==> d.bytes == c.bytes)
    && ('a' !in keys ==> d.alignment == c.alignment)
    && ('d' !in keys ==> d.devn == c.devn && d.node == c.node)
    && ('n' !in keys ==> d.volId == c.volId)
    && ('N' !in keys ==> d.name == c.name && d.nlen == c.nlen)
    && ('m' !in keys ==> d.maxavs == c.maxavs)
  }

  /** One option writes only its own fields. */
  lemma ApplyKeepsOtherFields(c: Config, t: Token)
    ensures SameExcept(c, ApplyToken(c, t).args, {t.key})
  {
  }

  /** Agreement outside a key set is kept when the set grows and composes along a chain. */
  lemma SameExceptChain(c: Config, d: Config, e: Config, k1: set<char>, k2: set<char>)
    requires SameExcept(c, d, k1) && SameExcept(d, e, k2)
    ensures SameExcept(c, e, k1 + k2)
  {
  }

  /** Options only write their own fields, whether they are accepted or not. */
  lemma {:induction false} OptionsKeepOtherFields(c: Config, tokens: seq<Token>)
    ensures SameExcept(c, ParseOpts(c, tokens).args, KeysOf(tokens))
    decreases |tokens|
  {
    if tokens != [] {
      var t := tokens[0];
      var q := ApplyToken(c, t);
      ApplyKeepsOtherFields(c, t);
      assert KeysOf(tokens) == {t.key} + KeysOf(tokens[1..]) by {
        assert tokens == [t] + tokens[1..];
      }
      if q.status.Ok? {
        OptionsKeepOtherFields(q.args, tokens[1..]);
        SameExceptChain(c, q.args, ParseOpts(q.args, tokens[1..]).args, {t.key}, KeysOf(tokens[1..]));
      } else {
        SameExceptChain(c, q.args, q.args, {t.key}, KeysOf(tokens[1..]));
      }
    }
  }

  /** `-s` with a number and no suffix or a known unit sets the size to the number times the unit. */
  lemma SizeOption(c: Config, n: nat, suffix: string)
    requires suffix == [] || Multiplier(suffix) != -1
    ensures ApplySize(c, Decimal(n) + suffix) == Parsed(c.(bytes := n * SuffixFactor(suffix)), Ok)
  {
    assert suffix != [] ==> !IsDigit(suffix[0]);
    ParseDecimal(n, suffix);
    assert (Decimal(n) + suffix)[|Decimal(n)|..] == suffix;
  }

  /** `-s` with a negative number is a bad size. */
  lemma NegativeSizeRejected(c: Config, n: nat)
    requires n > 0
    ensures ApplySize(c, "-" + Decimal(n)).status == Failed(BadVolumeSize)
  {
    var d := Decimal(n);
    var s := "-" + d;
    assert s[1..] == d + [];
    DigitRunOfDigits(d, []);
    assert s[1..][..|d|] == s[1..1 + |d|] == d;
    DecimalValue(n);
  }

  /** `-s` with a number followed by anything but a known unit is a bad size specifier. */
  lemma UnknownSuffixRejected(c: Config, n: nat, suffix: string)
    requires suffix != [] && !IsDigit(suffix[0]) && Multiplier(suffix) == -1
    ensures ApplySize(c, Decimal(n) + suffix).status == Failed(BadSizeSpecifier)
  {
    ParseDecimal(n, suffix);
    assert (Decimal(n) + suffix)[|Decimal(n)|..] == suffix;
  }

  /**
   * `-a`, `-n` and `-d` store a numeral's value unchanged: any non-negative
   * one for the volume id and the device number (which also names the node),
   * a positive one for the alignment; 0 is not an alignment.
   */
  lemma NumeralOptions(c: Config, n: nat)
    ensures ApplyVolId(c, Decimal(n)) == Parsed(c.(volId := n), Ok)
    ensures ApplyDevn(c, Decimal(n)) == Parsed(c.(devn := n, node := DevNode(n)), Ok)
    ensures n > 0 ==> ApplyAlignment(c, Decimal(n)) == Parsed(c.(alignment := n), Ok)
    ensures n == 0 ==> ApplyAlignment(c, Decimal(n)).status == Failed(BadAlignment)
  {
    DecimalIsNumeral(n);
  }

  /** Once `-m` is seen, no later option switches it off. */
  lemma {:induction false} MaxavsPersists(c: Config, tokens: seq<Token>)
    requires c.maxavs
    ensures ParseOpts(c, tokens).args.maxavs
    decreases |tokens|
  {
    if tokens != [] {
      var q := ApplyToken(c, tokens[0]);
      assert q.args.maxavs;
      if q.status.Ok? {
        MaxavsPersists(q.args, tokens[1..]);
      }
    }
  }

  /** A loop that finishes with Ok after an `-m` option leaves max-available on. */
  lemma MaxavsOptionWins(c: Config, tokens: seq<Token>, i: nat)
    requires i < |tokens| && tokens[i].key == 'm'
    requires ParseOpts(c, tokens).status.Ok?
    ensures ParseOpts(c, tokens).args.maxavs
  {
    var before, after := tokens[..i], tokens[i + 1..];
    assert tokens == before + ([tokens[i]] + after);
    ParseOptsAppend(c, before, [tokens[i]] + after);
    var p := ParseOpts(c, before);
    if p.status.Ok? {
      var q := ApplyToken(p.args, tokens[i]);
      assert ([tokens[i]] + after)[1..] == after;
      MaxavsPersists(q.args, after);
    }
  }

  /** The `/dev/ubi<N>` name of every device number an `int` holds fits the node buffer. */
  lemma DevNodeFits(devn: int)
    requires 0 <= devn < 0x8000_0000
    ensures |DevNode(devn)| <= MAX_NODE_LEN
  {
    assert Pow10(10) == 10_000_000_000 by {
      assert Pow10(1) == 10;
      assert Pow10(2) == 100;
      assert Pow10(3) == 1000;
      assert Pow10(4) == 10_000;
      assert Pow10(5) == 100_000;
      assert Pow10(6) == 1_000_000;
      assert Pow10(7) == 10_000_000;
      assert Pow10(8) == 100_000_000;
      assert Pow10(9) == 1_000_000_000;
    }
    DecimalLength(devn, 10);
  }

  /** The device number named by `-d` can be read back from the node name it writes. */
  lemma DevNodeNamesDevice(devn: int)
    requires devn >= 0
    ensures DevNode(devn)[..8] == "/dev/ubi"
    ensures IsNumeral(DevNode(devn)[8..]) && ParseNumber(DevNode(devn)[8..]).value == devn
  {
    assert DevNode(devn)[8..] == Decimal(devn);
    DecimalIsNumeral(devn);
  }

  /**
   * `struct args` as parse_opt and main update it in place, one field at a
   * time; `Value` is the record it holds.
   */
  class Args {
    var devn: int
    var volId: int
    var volType: VolType
    var bytes: int
    var alignment: int
    var name: Option<string>
    var nlen: int
    var node: string
    var maxavs: bool

    function Value(): Config
      reads this
    {
      Config(devn, volId, volType, bytes, alignment, name, nlen, node, maxavs)
    }

    /** The static initialiser of `myargs`. */
    constructor ()
      ensures volType == Dynamic && devn == -1 && bytes == 0 && alignment == 1
      ensures volId == VOL_NUM_AUTO && name == None && nlen == 0 && !maxavs && node == ""
      ensures Value() == Defaults()
    {
      devn := -1;
      volId := VOL_NUM_AUTO;
      volType := Dynamic;
      bytes := 0;
      alignment := 1;
      name := None;
      nlen := 0;
      node := "";
      maxavs := false;
    }

    /** One pass of the `switch` in parse_opt, updating the record in place. */
    method Apply(t: Token) returns (s: Status)
      modifies this
      ensures Parsed(Value(), s) == ApplyToken(old(Value()), t)
    {
      s := Ok;
      match t.key {
        case 't' =>
          if t.arg == "dynamic" {
            volType := Dynamic;
          } else if t.arg == "static" {
            volType := Static;
          } else {
            s := Failed(BadVolumeType);
          }
        case 's' =>
          var n := ParseNumber(t.arg);
          bytes := n.value;
          if n.consumed == 0 || bytes < 0 {
            s := Failed(BadVolumeSize);
          } else if n.consumed < |t.arg| {
            var mult := Multiplier(t.arg[n.consumed..]);
            if mult == -1 {
              s := Failed(BadSizeSpecifier);
            } else {
              bytes := bytes * mult;
            }
          }
        case 'a' =>
          var n := ParseNumber(t.arg);
          alignment := n.value;
          if n.consumed < |t.arg| || n.consumed == 0 || alignment <= 0 {
            s := Failed(BadAlignment);
          }
        case 'd' =>
          var n := ParseNumber(t.arg);
          devn := n.value;
          if n.consumed < |t.arg| || n.consumed == 0 || devn < 0 {
            s := Failed(BadDeviceNumber);
          } else {
            node := DevNode(devn);
          }
        case 'n' =>
          var n := ParseNumber(t.arg);
          volId := n.value;
          if n.consumed < |t.arg| || n.consumed == 0 || volId < 0 {
            s := Failed(BadVolumeId);
          }
        case 'N' =>
          name := Some(t.arg);
          nlen := |t.arg|;
        case 'h' =>
          s := Help;
        case ':' =>
          s := Failed(MissingParameter);
        case 'V' =>
          s := Version;
        case 'm' =>
          maxavs := true;
        case _ =>
          s := Unknown;
      }
    }

    /** parse_opt: the option loop over the record in place. */
    method ParseOpt(tokens: seq<Token>) returns (s: Status)
      modifies this
      ensures Parsed(Value(), s) == ParseOpts(old(Value()), tokens)
    {
      var i := 0;
      s := Ok;
      while i < |tokens|
        invariant 0 <= i <= |tokens|
        invariant s == Ok
        invariant ParseOpts(Value(), tokens[i..]) == ParseOpts(old(Value()), tokens)
      {
        assert tokens[i..][0] == tokens[i] && tokens[i..][1..] == tokens[i + 1..];
        s := Apply(tokens[i]);
        if !s.Ok? {
          return;
        }
        i := i + 1;
      }
      assert tokens[i..] == [];
    }
  }
}
