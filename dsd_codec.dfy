/**
 * The Deep Sky Dad focuser's serial protocol: bracketed command mnemonics
 * with printf-formatted arguments, "(n)" and "(OK)" replies, the argument
 * guards of the setters, the step-mode and coils-mode switch mappings, the
 * target clamp of relative moves, the network port name and the number of
 * devices the driver exposes.
 */
module DsdCodec {
  import opened Bus
  import opened Decimal

  type uint32 = x: int | 0 <= x < 0x1_0000_0000

  /** The response buffer size of one exchange. */
  const CommandLength := 100

  /** The outcome of one exchange on the port: an I/O failure, or the response text read back. */
  datatype Reply = Failed | Answered(text: string)

  /** A device parameter with a get and (except Moving) a set command. */
  datatype Param =
    | Position | StepMode | MaxMove | MaxPosition | SettleBuffer
    | CoilsTimeout | CoilsMode | MoveCurrent | HoldCurrent | Speed | Moving

  function GetMnemonic(p: Param): string
  {
    match p
    case Position => "GPOS"
    case StepMode => "GSTP"
    case MaxMove => "GMXM"
    case MaxPosition => "GMXP"
    case SettleBuffer => "GBUF"
    case CoilsTimeout => "GIDC"
    case CoilsMode => "GCLM"
    case MoveCurrent => "GCMV%"
    case HoldCurrent => "GCHD%"
    case Speed => "GSPD"
    case Moving => "GMOV"
  }

  /** The query text sent by a getter. */
  function GetCommand(p: Param): (cmd: string)
    ensures |cmd| >= 6 && cmd[0] == '[' && cmd[|cmd| - 1] == ']'
    ensures cmd[1] == 'G'
  {
    "[" + GetMnemonic(p) + "]"
  }

  predicate Settable(p: Param) { p != Moving }

  function SetMnemonic(p: Param): (m: string)
    requires Settable(p)
    ensures |m| == 4 && m[0] == 'S'
  {
    match p
    case Position => "SPOS"
    case StepMode => "SSTP"
    case MaxMove => "SMXM"
    case MaxPosition => "SMXP"
    case SettleBuffer => "SBUF"
    case CoilsTimeout => "SIDC"
    case CoilsMode => "SCLM"
    case MoveCurrent => "SCMV"
    case HoldCurrent => "SCHD"
    case Speed => "SSPD"
  }

  /** The minimum field width of the argument: "%06d" for positions and timings, "%d" otherwise. */
  function Width(p: Param): nat
  {
    if p == Position || p == SettleBuffer || p == CoilsTimeout then 6 else 0
  }

  /** The text after the argument: the current settings carry a literal percent sign. */
  function Suffix(p: Param): string
  {
    if p == MoveCurrent || p == HoldCurrent then "%]" else "]"
  }

  /** The largest argument a guarded setter accepts. */
  function Limit(p: Param): Option<nat>
  {
    match p
    case CoilsMode => Some(2)
    case MoveCurrent => Some(100)
    case HoldCurrent => Some(100)
    case Speed => Some(3)
    case _ => None
  }

  /** The setter's guard refuses v: nothing is sent and the setter reports failure. */
  predicate Refused(p: Param, v: uint32)
  {
    Limit(p).Some? && v > Limit(p).value
  }

  /** The command a setter writes for argument v, or None when its guard refuses v and nothing is sent. */
  function SetCommand(p: Param, v: uint32): (r: Option<string>)
    requires Settable(p)
    ensures r.None? <==> Refused(p, v)
    ensures (p == CoilsMode && v > 2) || ((p == MoveCurrent || p == HoldCurrent) && v > 100) || (p == Speed && v > 3)
            <==> r.None?
    ensures r.Some? ==> |r.value| >= 6 && r.value[0] == '[' && r.value[|r.value| - 1] == ']'
  {
    RefusedCases(p, v);
    if Refused(p, v) then None
    else
      var head, arg := "[" + SetMnemonic(p), FormatInt(AsInt32(v), Width(p));
      Framed(head, arg, Suffix(p));
      Some(head + arg + Suffix(p))
  }

  /** The guards spelled out: coils mode above 2, a current above 100, a speed above 3. */
  lemma RefusedCases(p: Param, v: uint32)
    ensures Refused(p, v) <==>
              (p == CoilsMode && v > 2) || ((p == MoveCurrent || p == HoldCurrent) && v > 100) || (p == Speed && v > 3)
  {
  }

  /** A command made of a five-character head, an argument and a closing tail is bracketed. */
  lemma Framed(head: string, f: string, tail: string)
    requires |head| == 5 && head[0] == '[' && |f| >= 1 && |tail| >= 1 && tail[|tail| - 1] == ']'
    ensures var t := head + f + tail; |t| >= 7 && t[0] == '[' && t[|t| - 1] == ']'
  {
  }

  /**
   * How the device reads the argument of a set command back: after the
   * opening bracket and the four-letter mnemonic, a "%d" conversion.
   */
  function CommandArgument(cmd: string): Option<int>
  {
    if |cmd| < 5 || cmd[0] != '[' then None else ScanInt(cmd[5..])
  }

  /** Every command a setter sends carries its argument: the device reads back v, as 32 bits. */
  lemma SetCommandRoundTrip(p: Param, v: uint32)
    requires Settable(p) && SetCommand(p, v).Some?
    ensures CommandArgument(SetCommand(p, v).value).Some?
    ensures CommandArgument(SetCommand(p, v).value).value % 0x1_0000_0000 == v
    ensures v < 0x8000_0000 ==> CommandArgument(SetCommand(p, v).value) == Some(v)
  {
    var x := AsInt32(v);
    ScanFormatted(x, Width(p), Suffix(p));
    ArgumentOf("[" + SetMnemonic(p), FormatInt(x, Width(p)), Suffix(p), x);
  }

  /** The device reads the argument of a command back from after its five-character head. */
  lemma ArgumentOf(head: string, f: string, tail: string, x: int)
    requires |head| == 5 && head[0] == '[' && ScanInt(f + tail) == Some(x)
    ensures CommandArgument(head + f + tail) == Some(x)
  {
    var cmd := head + f + tail;
    assert cmd[5..] == f + tail;
  }

  /**
   * Positions and timings below one million are sent as exactly six
   * digits, zero-padded: "[STRG000123]".
   */
  lemma PaddedField(p: Param, v: uint32)
    requires Width(p) == 6 && v < 1000000
    ensures SetCommand(p, v).Some?
    ensures var cmd := SetCommand(p, v).value;
            |cmd| == 12 && AllDigits(cmd[5..11]) && Value(cmd[5..11]) == v && cmd[11] == ']'
  {
    var d := Digits(v);
    DigitsBelow(v, 6);
    var cmd := SetCommand(p, v).value;
    assert cmd == "[" + SetMnemonic(p) + ZeroPad(d, 6) + "]";
    assert cmd[5..11] == ZeroPad(d, 6);
    ValueOfDigits(v);
  }

  lemma {:induction false} DigitsBelow(n: nat, k: nat)
    requires n < Pow10(k)
    ensures |Digits(n)| <= (if k == 0 then 1 else k)
  {
    if n >= 10 {
      assert k >= 2 && n / 10 < Pow10(k - 1);
      DigitsBelow(n / 10, k - 1);
    }
  }

  function Pow10(k: nat): (r: nat)
    ensures r >= 1
  {
    if k == 0 then 1 else 10 * Pow10(k - 1)
  }

  /** The goto command: "[STRG%06d]". */
  function GotoCommand(pos: uint32): (cmd: string)
    ensures |cmd| >= 8 && cmd[..5] == "[STRG" && cmd[|cmd| - 1] == ']'
  {
    "[STRG" + FormatInt(AsInt32(pos), 6) + "]"
  }

  /** The goto command carries its target: the device reads back pos, as 32 bits. */
  lemma GotoRoundTrip(pos: uint32)
    ensures CommandArgument(GotoCommand(pos)).Some?
    ensures CommandArgument(GotoCommand(pos)).value % 0x1_0000_0000 == pos
  {
    var x := AsInt32(pos);
    ScanFormatted(x, 6, "]");
    ArgumentOf("[STRG", FormatInt(x, 6), "]", x);
  }

  /** The reverse command: "[SREV%01d]" of 1 or 0. */
  function ReverseCommand(enabled: bool): (cmd: string)
    ensures cmd == (if enabled then "[SREV1]" else "[SREV0]")
  {
    var f := FormatInt(if enabled then 1 else 0, 1);
    assert f == [DigitChar(if enabled then 1 else 0)];
    "[SREV" + f + "]"
  }

  const StopCommand := "[STOP]"
  const MoveCommand := "[SMOV]"
  /** The firmware query; its "(Board=..., Version=...)" reply names the board. */
  const InfoCommand := "[GFRM]"
  /** The temperature query, which only boards of version 2 and above are sent. */
  const TemperatureCommand := "[GTMC]"

  /** A command as the driver issues it, before it is written out as text. */
  datatype Command =
    | Query(p: Param)
    | Assign(p: Param, v: uint32)
    | GotoTarget(pos: uint32)
    | StartMove
    | StopMotion
    | SetReverse(enabled: bool)
    | GetInfo
    | GetTemperature

  /** A command that can go out: a setter's argument must pass its guard. */
  predicate Sendable(c: Command)
  {
    c.Assign? ==> Settable(c.p) && !Refused(c.p, c.v)
  }

  /** The text written to the port for a command. */
  function Encode(c: Command): (text: string)
    requires Sendable(c)
    ensures |text| >= 6 && text[0] == '[' && text[|text| - 1] == ']'
  {
    match c
    case Query(p) => GetCommand(p)
    case Assign(p, v) => SetCommand(p, v).value
    case GotoTarget(pos) => GotoCommand(pos)
    case StartMove => MoveCommand
    case StopMotion => StopCommand
    case SetReverse(enabled) => ReverseCommand(enabled)
    case GetInfo => InfoCommand
    case GetTemperature => TemperatureCommand
  }
  /** The reply of the goto command when the device refuses the target. */
  const MoveFailed := "!101)"

  /** A setter's verdict: the command went out and the device answered exactly "(OK)". */
  function SetSucceeded(sent: bool, reply: Reply): (ok: bool)
    ensures ok <==> sent && reply == Answered("(OK)")
  {
    sent && reply.Answered? && reply.text == "(OK)"
  }

  /** A getter's value: the reply must read "(" then a "%d" conversion; it lands in 32 unsigned bits. */
  function GetValue(reply: Reply): (r: Option<uint32>)
    ensures r.Some? ==> reply.Answered? && |reply.text| >= 1 && reply.text[0] == '('
  {
    if reply.Failed? || |reply.text| == 0 || reply.text[0] != '(' then None
    else
      match ScanInt(reply.text[1..])
      case None => None
      case Some(x) => Some(x % 0x1_0000_0000)
  }

  /** A getter succeeds exactly when the reply is "(" followed by a number, which it yields modulo 2^32. */
  lemma GetValueParses(reply: Reply)
    ensures GetValue(reply).Some? <==>
              reply.Answered? && |reply.text| >= 1 && reply.text[0] == '(' && ScanInt(reply.text[1..]).Some?
    ensures GetValue(reply).Some? ==> GetValue(reply).value == ScanInt(reply.text[1..]).value % 0x1_0000_0000
  {
  }

  /** A reply "(n)" yields n. */
  lemma GetValueRoundTrip(n: uint32)
    ensures GetValue(Answered("(" + Digits(n) + ")")) == Some(n)
  {
    ScanDigits(n, ")");
    ParenthesisedValue(Digits(n), n);
  }

  lemma ParenthesisedValue(d: string, n: uint32)
    requires ScanInt(d + ")") == Some(n)
    ensures GetValue(Answered("(" + d + ")")) == Some(n)
  {
    var t := "(" + d + ")";
    assert t[1..] == d + ")";
  }

  /** The "(OK)" acknowledgement carries no number: a getter fails on it. */
  lemma GetValueRejectsOk()
    ensures GetValue(Answered("(OK)")).None?
  {
    assert "(OK)"[1..] == "OK)";
    assert SkipSpaces("OK)", 0) == 0;
  }

  /** The goto outcome: the target was accepted (not "!101)") and the move command went out. */
  function GotoSucceeded(targetReply: Reply, moveSent: bool): (ok: bool)
    ensures ok ==> targetReply.Answered? && targetReply.text != MoveFailed && moveSent
    ensures targetReply.Answered? && targetReply.text != MoveFailed && moveSent ==> ok
  {
    match targetReply
    case Failed => false
    case Answered(t) => t != MoveFailed && moveSent
  }

  // ---------------------------------------------------------------- switch mappings

  /** Step-mode switch items FULL, HALF, FOURTH, EIGTH in property order. */
  const StepItems: seq<string> := ["FULL", "HALF", "FOURTH", "EIGTH"]

  /** Coils-mode switch items in property order. */
  const CoilsItems: seq<string> := ["OFF_WHEN_IDLE", "ALWAYS_ON", "TIMEOUT_OFF"]

  /** The micro-step divisor an item of the step-mode switch stands for. */
  function StepModeOfItem(i: nat): (m: nat)
    requires i < |StepItems|
    ensures m == Pow2(i)
  {
    [1, 2, 4, 8][i]
  }

  function Pow2(i: nat): (r: nat)
    ensures r >= 1
  {
    if i == 0 then 1 else 2 * Pow2(i - 1)
  }

  /** The step-mode item for a value the device reports; None for a value outside 1, 2, 4, 8. */
  function StepItemOfMode(m: int): (r: Option<nat>)
    ensures r.Some? ==> r.value < |StepItems| && StepModeOfItem(r.value) == m
    ensures r.None? <==> m != 1 && m != 2 && m != 4 && m != 8
  {
    if m == 1 then Some(0) else if m == 2 then Some(1)
    else if m == 4 then Some(2) else if m == 8 then Some(3) else None
  }

  /** switch -> mode -> switch selects the same item. */
  lemma StepModeRoundTrip(i: nat)
    requires i < |StepItems|
    ensures StepItemOfMode(StepModeOfItem(i)) == Some(i)
  {
  }

  /** The coils mode an item of the coils-mode switch stands for: its position. */
  function CoilsModeOfItem(i: nat): (m: nat)
    requires i < |CoilsItems|
    ensures m <= 2
  {
    [0, 1, 2][i]
  }

  function CoilsItemOfMode(m: int): (r: Option<nat>)
    ensures r.Some? ==> r.value < |CoilsItems| && CoilsModeOfItem(r.value) == m
    ensures r.None? <==> m < 0 || m > 2
  {
    if 0 <= m <= 2 then Some(m) else None
  }

  lemma CoilsModeRoundTrip(i: nat)
    requires i < |CoilsItems|
    ensures CoilsItemOfMode(CoilsModeOfItem(i)) == Some(i)
  {
  }

  /** The first selected item of a switch, which the handler's if-else chain picks. */
  function FirstSelected(sw: seq<bool>): (r: Option<nat>)
    ensures r.Some? ==> r.value < |sw| && sw[r.value] && forall j :: 0 <= j < r.value ==> !sw[j]
    ensures r.None? <==> forall j :: 0 <= j < |sw| ==> !sw[j]
  {
    if sw == [] then None
    else if sw[0] then Some(0)
    else match FirstSelected(sw[1..])
      case None => None
      case Some(k) => Some(k + 1)
  }

  /**
   * The refresh of a mode switch from the device: a failed query or an
   * unrecognised value leaves the switch as it was; a known value selects
   * its item alone.
   */
  function RefreshSwitch(sw: seq<bool>, value: Option<uint32>, itemOf: int -> Option<nat>): (r: seq<bool>)
    ensures |r| == |sw|
    ensures value.None? ==> r == sw
    ensures value.Some? && itemOf(value.value).None? ==> r == sw
    ensures value.Some? && itemOf(value.value).Some? && itemOf(value.value).value < |sw| ==>
              r == SelectOnly(|sw|, itemOf(value.value).value)
  {
    match value
    case None => sw
    case Some(v) =>
      match itemOf(v)
      case None => sw
      case Some(i) => if i < |sw| then SelectOnly(|sw|, i) else sw
  }

  // ---------------------------------------------------------------- motion targets

  /** Keeps a requested target inside the position limits. */
  function Clamp(target: int, min: int, max: int): (r: int)
    ensures min <= max ==> min <= r <= max
    ensures min <= target <= max ==> r == target
    ensures target > max ==> r == max
    ensures target < min && min <= max ==> r == min
  {
    if max < target then max else if min > target then min else target
  }

  /** The target of a relative move of the given number of steps. */
  function RelativeTarget(current: int, steps: int, inward: bool, min: int, max: int): (r: int)
    ensures min <= max ==> min <= r <= max
    ensures inward && min <= current - steps <= max ==> r == current - steps
    ensures !inward && min <= current + steps <= max ==> r == current + steps
  {
    Clamp(if inward then current - steps else current + steps, min, max)
  }

  // ---------------------------------------------------------------- connection and driver set-up

  /** Where the port name connects: a serial device, or a TCP host and port. */
  datatype PortTarget = Serial(path: string) | Tcp(host: string, port: int)

  const NetworkPrefix := "dsd://"
  const DefaultTcpPort := 8080

  /** The index of the first colon, as strchr finds it. */
  function FirstColon(s: string): (r: Option<nat>)
    ensures r.Some? ==> r.value < |s| && s[r.value] == ':' && forall j :: 0 <= j < r.value ==> s[j] != ':'
    ensures r.None? <==> forall j :: 0 <= j < |s| ==> s[j] != ':'
  {
    if s == [] then None
    else if s[0] == ':' then Some(0)
    else match FirstColon(s[1..])
      case None => None
      case Some(k) => Some(k + 1)
  }

  /**
   * The port name as the connect handler intends to read it: "dsd://host"
   * or "dsd://host:port" opens a TCP connection (port 8080 by default),
   * anything else is a serial device path.
   */
  function ConnectTarget(name: string): (t: PortTarget)
    ensures !(|name| >= 6 && name[..6] == NetworkPrefix) ==> t == Serial(name)
  {
    if |name| >= 6 && name[..6] == NetworkPrefix then
      var rest := name[6..];
      match FirstColon(rest)
      case None => Tcp(rest, DefaultTcpPort)
      case Some(c) => Tcp(rest[..c], Atoi(rest[c + 1..]))
    else Serial(name)
  }

  /** "dsd://host" connects to host on port 8080. */
  lemma ConnectDefaultPort(host: string)
    requires forall j :: 0 <= j < |host| ==> host[j] != ':'
    ensures ConnectTarget(NetworkPrefix + host) == Tcp(host, DefaultTcpPort)
  {
    var name := NetworkPrefix + host;
    assert name[..6] == NetworkPrefix && name[6..] == host;
  }

  /** "dsd://host:port" connects to host on port. */
  lemma ConnectHostPort(host: string, port: nat)
    requires forall j :: 0 <= j < |host| ==> host[j] != ':'
    ensures ConnectTarget(NetworkPrefix + host + ":" + Digits(port)) == Tcp(host, port)
  {
    var name := NetworkPrefix + host + ":" + Digits(port);
    var rest := host + ":" + Digits(port);
    assert name[..6] == NetworkPrefix && name[6..] == rest;
    assert rest[|host|] == ':';
    assert FirstColon(rest) == Some(|host|);
    assert rest[..|host|] == host;
    assert rest[|host| + 1..] == Digits(port) + [];
    ScanDigits(port, []);
  }

  /** The terminating NUL of a C string. */
  const Nul: char := 0 as char

  /** strncmp(a, b, n) == 0 for NUL-free texts: the first n characters, terminator included, agree. */
  function StrnEqual(a: string, b: string, n: nat): bool
  {
    if n == 0 then true
    else
      var ca := if a == [] then Nul else a[0];
      var cb := if b == [] then Nul else b[0];
      ca == cb && (ca == Nul || StrnEqual(a[1..], b[1..], n - 1))
  }

  /**
   * The port name as the connect handler reads it: the prefix test looks
   * at 8 characters of the 6-character prefix, so only the bare prefix
   * passes, and the host is then read from beyond the text's end
   * (what the buffer holds there is the parameter beyond).
   */
  function ConnectTargetAsWritten(name: string, beyond: string): (t: PortTarget)
    ensures t.Serial? ==> t.path == name
    ensures t.Tcp? ==> StrnEqual(name, NetworkPrefix, 8) && t.host <= beyond
    ensures !StrnEqual(name, NetworkPrefix, 8) ==> t == Serial(name)
  {
    if StrnEqual(name, NetworkPrefix, 8) then
      match FirstColon(beyond)
      case None => Tcp(beyond, DefaultTcpPort)
      case Some(c) => Tcp(beyond[..c], Atoi(beyond[c + 1..]))
    else Serial(name)
  }

  /** The prefix test as written accepts the bare prefix and nothing longer. */
  lemma {:induction false} PrefixTestAsWritten(name: string)
    requires forall j :: 0 <= j < |name| ==> name[j] != Nul
    ensures StrnEqual(name, NetworkPrefix, 8) <==> name == NetworkPrefix
  {
    if StrnEqual(name, NetworkPrefix, 8) {
      var k := 0;
      while k < 6
        invariant 0 <= k <= 6 && k <= |name|
        invariant name[..k] == NetworkPrefix[..k]
        invariant StrnEqual(name[k..], NetworkPrefix[k..], 8 - k)
      {
        assert NetworkPrefix[k] != Nul;
        assert name[k..][1..] == name[k + 1..];
        k := k + 1;
      }
      assert name[..6] == NetworkPrefix;
      assert name == name[..6];
    } else {
      if name == NetworkPrefix {
        StrnEqualSelf(NetworkPrefix, 8);
      }
    }
  }

  lemma {:induction false} StrnEqualSelf(a: string, n: nat)
    ensures StrnEqual(a, a, n)
  {
    if n > 0 && a != [] {
      StrnEqualSelf(a[1..], n - 1);
    }
  }

  /** A network name with a host is opened as a serial device path by the code as written. */
  lemma NetworkNameGoesToSerial()
    ensures ConnectTargetAsWritten("dsd://host:9999", "") == Serial("dsd://host:9999")
    ensures ConnectTarget("dsd://host:9999") == Tcp("host", 9999)
  {
    var name := "dsd://host:9999";
    assert |name| == 15;
    assert forall j :: 0 <= j < |name| ==> name[j] != Nul;
    AsWrittenSerial(name, "");
    HostPort9999();
  }

  /** The code as written opens every other NUL-free name as a serial path. */
  lemma AsWrittenSerial(name: string, beyond: string)
    requires forall j :: 0 <= j < |name| ==> name[j] != Nul
    requires name != NetworkPrefix
    ensures ConnectTargetAsWritten(name, beyond) == Serial(name)
  {
    PrefixTestAsWritten(name);
  }

  lemma HostPort9999()
    ensures ConnectTarget("dsd://host:9999") == Tcp("host", 9999)
  {
    ConnectHostPort("host", 9999);
    Digits9999();
  }

  lemma Digits9999()
    ensures NetworkPrefix + "host" + ":" + Digits(9999) == "dsd://host:9999"
  {
    assert Digits(9) == "9";
    assert Digits(99) == "99";
    assert Digits(999) == "999";
    assert Digits(9999) == "9999";
  }

  /** The largest number of focusers the driver exposes. */
  const MaxDevices := 8

  /** The number of focusers: 1, or the environment setting clamped into [1, 8]. */
  function DeviceCount(env: Option<string>): (n: int)
    ensures 1 <= n <= MaxDevices
    ensures env.None? ==> n == 1
    ensures env.Some? && Atoi(env.value) < 1 ==> n == 1
    ensures env.Some? && 1 <= Atoi(env.value) <= MaxDevices ==> n == Atoi(env.value)
    ensures env.Some? && Atoi(env.value) > MaxDevices ==> n == MaxDevices
  {
    match env
    case None => 1
    case Some(s) =>
      var k := Atoi(s);
      if k < 1 then 1 else if k > MaxDevices then MaxDevices else k
  }
}
