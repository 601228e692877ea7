/** The transceiver seen as a command sink.  Both scripts drive an RN2483 LoRa module
    over a serial line: every directive is a line of text written with `write_line`,
    optionally followed by a settle delay (`send_cmd`).  A handler's observable
    effect is therefore a trace of writes and sleeps, which this module describes,
    together with the bytes that reach the wire and what a line-oriented reader on
    the other end recovers from them. */
module Radio {
  import opened Text

  /** The directives the scripts issue. */
  datatype Command =
    | SysReset                 // sys reset
    | MacPause                 // mac pause
    | SetFreq(hz: nat)         // radio set freq <hz>
    | SetSf(sf: nat)           // radio set sf sf<sf>
    | SetBw(khz: nat)          // radio set bw <khz>
    | SetPwr(dbm: nat)         // radio set pwr <dbm>
    | Receive                  // radio rx 0  (continuous receive)
    | Transmit(fillerLen: nat) // radio tx FF...F  (fillerLen hex digits 'F')

  const FreqPrefix := "radio set freq "
  const SfPrefix := "radio set sf sf"
  const BwPrefix := "radio set bw "
  const PwrPrefix := "radio set pwr "
  const TxPrefix := "radio tx "

  /** Printable ASCII: no line terminator can hide inside a command. */
  predicate Printable(t: string) {
    forall i :: 0 <= i < |t| ==> ' ' <= t[i] <= '~'
  }

  /** The text of a directive, as the scripts format it. */
  function Render(c: Command): (t: string)
    ensures Printable(t)
  {
    match c
    case SysReset => "sys reset"
    case MacPause => "mac pause"
    case SetFreq(hz) => FreqPrefix + NatToString(hz)
    case SetSf(sf) => SfPrefix + NatToString(sf)
    case SetBw(khz) => BwPrefix + NatToString(khz)
    case SetPwr(dbm) => PwrPrefix + NatToString(dbm)
    case Receive => "radio rx 0"
    case Transmit(n) => TxPrefix + Repeat('F', n)
  }

  function ParseNumbered(t: string, prefix: string, make: nat -> Command): Option<Command>
    requires StartsWith(t, prefix)
  {
    match ParseNat(t[|prefix|..])
    case Some(n) => Some(make(n))
    case None => None
  }

  predicate AllF(s: string) {
    forall i :: 0 <= i < |s| ==> s[i] == 'F'
  }

  /** How the module reads one line of the command language; `None` for text it
      would reject.  An independent reading of the grammar that `Render` writes. */
  function ParseCommand(t: string): Option<Command> {
    if t == "sys reset" then Some(SysReset)
    else if t == "mac pause" then Some(MacPause)
    else if t == "radio rx 0" then Some(Receive)
    else if StartsWith(t, FreqPrefix) then ParseNumbered(t, FreqPrefix, (n: nat) => SetFreq(n))
    else if StartsWith(t, SfPrefix) then ParseNumbered(t, SfPrefix, (n: nat) => SetSf(n))
    else if StartsWith(t, BwPrefix) then ParseNumbered(t, BwPrefix, (n: nat) => SetBw(n))
    else if StartsWith(t, PwrPrefix) then ParseNumbered(t, PwrPrefix, (n: nat) => SetPwr(n))
    else if StartsWith(t, TxPrefix) && AllF(t[|TxPrefix|..]) then Some(Transmit(|t| - |TxPrefix|))
    else None
  }

  /** A numbered directive is read back as itself. */
  lemma ParseNumberedRender(prefix: string, n: nat, make: nat -> Command)
    ensures StartsWith(prefix + NatToString(n), prefix)
    ensures ParseNumbered(prefix + NatToString(n), prefix, make) == Some(make(n))
  {
    var t := prefix + NatToString(n);
    assert t[..|prefix|] == prefix;
    assert t[|prefix|..] == NatToString(n);
    ParseNatToString(n);
  }

  /** Every directive is read back as itself. */
  lemma ParseRender(c: Command)
    ensures ParseCommand(Render(c)) == Some(c)
  {
    match c
    case SysReset =>
    case MacPause =>
    case Receive =>
    case SetFreq(hz) => ParseRenderFreq(hz);
    case SetSf(sf) => ParseRenderSf(sf);
    case SetBw(khz) => ParseRenderBw(khz);
    case SetPwr(dbm) => ParseRenderPwr(dbm);
    case Transmit(n) => ParseRenderTx(n);
  }

  lemma ParseRenderFreq(hz: nat)
    ensures ParseCommand(Render(SetFreq(hz))) == Some(SetFreq(hz))
  {
    var t := Render(SetFreq(hz));
    ParseNumberedRender(FreqPrefix, hz, (n: nat) => SetFreq(n));
    assert |t| > 10 && t[10] == 'f';
  }

  lemma ParseRenderSf(sf: nat)
    ensures ParseCommand(Render(SetSf(sf))) == Some(SetSf(sf))
  {
    var t := Render(SetSf(sf));
    ParseNumberedRender(SfPrefix, sf, (n: nat) => SetSf(n));
    assert |t| > 10 && t[10] == 's';
  }

  lemma ParseRenderBw(khz: nat)
    ensures ParseCommand(Render(SetBw(khz))) == Some(SetBw(khz))
  {
    var t := Render(SetBw(khz));
    ParseNumberedRender(BwPrefix, khz, (n: nat) => SetBw(n));
    assert |t| > 10 && t[10] == 'b';
  }

  lemma ParseRenderPwr(dbm: nat)
    ensures ParseCommand(Render(SetPwr(dbm))) == Some(SetPwr(dbm))
  {
    var t := Render(SetPwr(dbm));
    ParseNumberedRender(PwrPrefix, dbm, (n: nat) => SetPwr(n));
    assert |t| > 10 && t[10] == 'p';
  }

  lemma ParseRenderTx(n: nat)
    ensures ParseCommand(Render(Transmit(n))) == Some(Transmit(n))
  {
    var t := Render(Transmit(n));
    assert t[..|TxPrefix|] == TxPrefix && t[|TxPrefix|..] == Repeat('F', n);
    assert |t| > 6 && t[6] == 't';
  }

  /** Two directives with the same text are the same directive. */
  lemma RenderInjective(a: Command, b: Command)
    requires Render(a) == Render(b)
    ensures a == b
  {
    ParseRender(a);
    ParseRender(b);
  }

  /** One observable effect of a handler: a line written to the transport, or a
      blocking pause of the calling thread. */
  datatype Action = Write(cmd: Command) | Sleep(ms: nat)

  /** `time.sleep(ms)` guarded by `if ms > 0`, as `send_cmd` and the RX2 wait do. */
  function Pause(ms: int): (r: seq<Action>)
    ensures ms > 0 ==> r == [Sleep(ms)]
    ensures ms <= 0 ==> r == []
  {
    if ms > 0 then [Sleep(ms)] else []
  }

  /** `write_line(text)`. */
  function WriteLine(c: Command): seq<Action> {
    [Write(c)]
  }

  /** `send_cmd(cmd, delay)`: the write, then the settle delay when it is positive. */
  function SendCmd(c: Command, delayMs: int): seq<Action> {
    WriteLine(c) + Pause(delayMs)
  }

  /** The default settle delay of `send_cmd` (0.05 s) and the short one (0.01 s). */
  const DefaultSettleMs := 50
  const ShortSettleMs := 10

  /** A series of `send_cmd` calls with the same settle delay. */
  function SendAll(cmds: seq<Command>, delayMs: int): seq<Action>
    decreases |cmds|
  {
    if cmds == [] then [] else SendCmd(cmds[0], delayMs) + SendAll(cmds[1..], delayMs)
  }

  /** The directives of a trace, in order, without the pauses. */
  function Commands(acts: seq<Action>): (cmds: seq<Command>)
    ensures |cmds| <= |acts|
  {
    if acts == [] then []
    else (if acts[0].Write? then [acts[0].cmd] else []) + Commands(acts[1..])
  }

  lemma {:induction false} CommandsAppend(a: seq<Action>, b: seq<Action>)
    ensures Commands(a + b) == Commands(a) + Commands(b)
    decreases |a|
  {
    if a != [] {
      assert (a + b)[1..] == a[1..] + b;
      CommandsAppend(a[1..], b);
    } else {
      assert a + b == b;
    }
  }

  /** Total time a trace spends sleeping. */
  function SleepTotal(acts: seq<Action>): nat {
    if acts == [] then 0
    else (if acts[0].Sleep? then acts[0].ms else 0) + SleepTotal(acts[1..])
  }

  lemma TraceFacts(c: Command, ms: int)
    ensures Commands(Pause(ms)) == [] && SleepTotal(Pause(ms)) == (if ms > 0 then ms else 0)
    ensures Commands(WriteLine(c)) == [c] && SleepTotal(WriteLine(c)) == 0
    ensures Commands(SendCmd(c, ms)) == [c]
    ensures SleepTotal(SendCmd(c, ms)) == (if ms > 0 then ms else 0)
  {
    if ms > 0 {
      assert SendCmd(c, ms) == [Write(c), Sleep(ms)];
    } else {
      assert SendCmd(c, ms) == [Write(c)];
    }
  }

  /** On the wire, a write and a `send_cmd` both put exactly the directive's text
      followed by `\r\n`; the pause adds nothing. */
  lemma WireFacts(c: Command, ms: int)
    ensures Stream(WriteLine(c)) == Render(c) + "\r\n"
    ensures Stream(SendCmd(c, ms)) == Render(c) + "\r\n"
  {
    assert Stream(WriteLine(c)) == Frame(Render(c)) + Stream([]);
    if ms > 0 {
      assert SendCmd(c, ms) == [Write(c), Sleep(ms)];
      assert Stream([Sleep(ms)]) == [] + Stream([]);
      assert Stream(SendCmd(c, ms)) == Frame(Render(c)) + Stream([Sleep(ms)]);
    } else {
      assert SendCmd(c, ms) == [Write(c)];
    }
  }

  /** `send_cmd` over a list writes exactly that list. */
  lemma {:induction false} SendAllCommands(cmds: seq<Command>, delayMs: int)
    ensures Commands(SendAll(cmds, delayMs)) == cmds
    decreases |cmds|
  {
    if cmds != [] {
      SendAllCommands(cmds[1..], delayMs);
      TraceFacts(cmds[0], delayMs);
      CommandsAppend(SendCmd(cmds[0], delayMs), SendAll(cmds[1..], delayMs));
      assert cmds == [cmds[0]] + cmds[1..];
    }
  }

  /** ... and sleeps one settle delay per directive. */
  lemma {:induction false} SendAllSleep(cmds: seq<Command>, delayMs: nat)
    ensures SleepTotal(SendAll(cmds, delayMs)) == |cmds| * delayMs
    decreases |cmds|
  {
    if cmds != [] {
      SendAllSleep(cmds[1..], delayMs);
      TraceFacts(cmds[0], delayMs);
      SleepTotalAppend(SendCmd(cmds[0], delayMs), SendAll(cmds[1..], delayMs));
      var n := |cmds[1..]|;
      assert |cmds| * delayMs == (n + 1) * delayMs == n * delayMs + delayMs;
    }
  }

  /** With a positive delay, each directive is followed directly by its pause:
      write, sleep, write, sleep, ... */
  lemma {:induction false} SendAllPaced(cmds: seq<Command>, delayMs: nat)
    requires delayMs > 0
    ensures |SendAll(cmds, delayMs)| == 2 * |cmds|
    ensures forall i :: 0 <= i < |cmds| ==>
      SendAll(cmds, delayMs)[2 * i] == Write(cmds[i]) && SendAll(cmds, delayMs)[2 * i + 1] == Sleep(delayMs)
    decreases |cmds|
  {
    if cmds != [] {
      var head := [Write(cmds[0]), Sleep(delayMs)];
      var rest := SendAll(cmds[1..], delayMs);
      assert SendCmd(cmds[0], delayMs) == head;
      assert SendAll(cmds, delayMs) == head + rest;
      SendAllPaced(cmds[1..], delayMs);
      forall i | 1 <= i < |cmds|
        ensures (head + rest)[2 * i] == Write(cmds[i]) && (head + rest)[2 * i + 1] == Sleep(delayMs)
      {
        assert (head + rest)[2 * i] == rest[2 * (i - 1)];
        assert (head + rest)[2 * i + 1] == rest[2 * (i - 1) + 1];
        assert cmds[1..][i - 1] == cmds[i];
      }
    }
  }

  /** Time slept before the first write of `c` (the whole trace's sleep if there is none). */
  function SleepUntil(acts: seq<Action>, c: Command): (t: nat)
    ensures t <= SleepTotal(acts)
  {
    if acts == [] || acts[0] == Write(c) then 0
    else (if acts[0].Sleep? then acts[0].ms else 0) + SleepUntil(acts[1..], c)
  }

  lemma {:induction false} SleepTotalAppend(a: seq<Action>, b: seq<Action>)
    ensures SleepTotal(a + b) == SleepTotal(a) + SleepTotal(b)
    decreases |a|
  {
    if a != [] {
      assert (a + b)[1..] == a[1..] + b;
      SleepTotalAppend(a[1..], b);
    } else {
      assert a + b == b;
    }
  }

  /** Writes of other directives do not move the moment `c` is written. */
  lemma {:induction false} SleepUntilAppend(a: seq<Action>, b: seq<Action>, c: Command)
    requires c !in Commands(a)
    ensures SleepUntil(a + b, c) == SleepTotal(a) + SleepUntil(b, c)
    decreases |a|
  {
    if a != [] {
      assert (a + b)[0] == a[0];
      assert a[0] != Write(c);
      assert (a + b)[1..] == a[1..] + b;
      SleepUntilAppend(a[1..], b, c);
    } else {
      assert a + b == b;
    }
  }

  /** The line terminator `write_line` appends. */
  function Frame(text: string): string {
    text + "\r\n"
  }

  /** The characters a trace puts on the wire, before byte encoding. */
  function Stream(acts: seq<Action>): string {
    if acts == [] then []
    else (if acts[0].Write? then Frame(Render(acts[0].cmd)) else []) + Stream(acts[1..])
  }

  /** Position of the first line feed, or the length when there is none. */
  function FirstNewline(s: string): (k: nat)
    ensures k <= |s|
    ensures k < |s| ==> s[k] == '\n'
    ensures forall i :: 0 <= i < k ==> s[i] != '\n'
  {
    if s == [] || s[0] == '\n' then 0 else 1 + FirstNewline(s[1..])
  }

  /** What a line-oriented reader recovers from a stream: text split at each line
      feed, with a carriage return before it dropped. */
  function Lines(s: string): seq<string>
    decreases |s|
  {
    if s == [] then []
    else
      var k := FirstNewline(s);
      var line := s[..k];
      var text := if line != [] && line[|line| - 1] == '\r' then line[..|line| - 1] else line;
      if k < |s| then [text] + Lines(s[k + 1..]) else [text]
  }

  /** One framed line comes back as one line. */
  lemma LinesFrame(t: string, rest: string)
    requires Printable(t)
    ensures Lines(Frame(t) + rest) == [t] + Lines(rest)
  {
    var s := Frame(t) + rest;
    var k := FirstNewline(s);
    assert s[|t| + 1] == '\n';
    assert forall i :: 0 <= i < |t| ==> s[i] == t[i];
    assert s[|t|] == '\r';
    assert k == |t| + 1;
    assert s[..k] == t + "\r";
    assert (t + "\r")[..|t|] == t;
    assert s[k + 1..] == rest;
  }

  /** The names of the directives of a trace. */
  function Texts(cmds: seq<Command>): (ts: seq<string>)
    ensures |ts| == |cmds|
    ensures forall i :: 0 <= i < |cmds| ==> ts[i] == Render(cmds[i])
  {
    if cmds == [] then [] else [Render(cmds[0])] + Texts(cmds[1..])
  }

  // The directive texts the scripts spell out literally, one small lemma each.

  /** The texts of two directive lists, one after the other. */
  lemma TextsAppend(a: seq<Command>, b: seq<Command>)
    ensures Texts(a + b) == Texts(a) + Texts(b)
  {
    var l, r := Texts(a + b), Texts(a) + Texts(b);
    forall i | 0 <= i < |l|
      ensures l[i] == r[i]
    {
      if i < |a| {
        assert (a + b)[i] == a[i];
      } else {
        assert (a + b)[i] == b[i - |a|];
      }
    }
  }

  lemma FixedTexts()
    ensures Render(SysReset) == "sys reset"
    ensures Render(MacPause) == "mac pause"
    ensures Render(Receive) == "radio rx 0"
  {
  }

  lemma MonitorFreqText()
    ensures Render(SetFreq(868100000)) == "radio set freq 868100000"
  {
    MonitorFreqDigits();
    assert Render(SetFreq(868100000)) == FreqPrefix + "868100000";
  }

  lemma MonitorFreqDigits()
    ensures NatToString(868100000) == "868100000"
  {
    assert NatToString(8) == "8";
    assert NatToString(86) == "86";
    assert NatToString(868) == "868";
    assert NatToString(8681) == "8681";
    assert NatToString(86810) == "86810";
    assert NatToString(868100) == "868100";
    assert NatToString(8681000) == "8681000";
    assert NatToString(86810000) == "86810000";
    assert NatToString(868100000) == "868100000";
  }

  lemma Sf7Text()
    ensures Render(SetSf(7)) == "radio set sf sf7"
  {
    assert NatToString(7) == "7";
  }

  lemma Sf10Text()
    ensures Render(SetSf(10)) == "radio set sf sf10"
  {
    assert NatToString(10) == "10";
  }

  lemma BwText()
    ensures Render(SetBw(125)) == "radio set bw 125"
  {
    assert NatToString(12) == "12";
    assert NatToString(125) == "125";
  }

  lemma PwrText()
    ensures Render(SetPwr(14)) == "radio set pwr 14"
  {
    assert NatToString(14) == "14";
  }

  /** Framing is faithful: the reader gets back exactly the directives, in order. */
  lemma {:induction false} StreamLines(acts: seq<Action>)
    ensures Lines(Stream(acts)) == Texts(Commands(acts))
    decreases |acts|
  {
    if acts != [] {
      StreamLines(acts[1..]);
      var rest := Commands(acts[1..]);
      if acts[0].Write? {
        var c := acts[0].cmd;
        assert Stream(acts) == Frame(Render(c)) + Stream(acts[1..]);
        assert Commands(acts) == [c] + rest;
        LinesFrame(Render(c), Stream(acts[1..]));
        assert ([c] + rest)[1..] == rest;
      } else {
        assert Stream(acts) == Stream(acts[1..]);
        assert Commands(acts) == rest;
      }
    }
  }

  /** Reads a whole stream back into directives; `None` if any line is rejected. */
  function Decode(s: string): Option<seq<Command>> {
    ParseAll(Lines(s))
  }

  function ParseAll(lines: seq<string>): Option<seq<Command>> {
    if lines == [] then Some([])
    else match (ParseCommand(lines[0]), ParseAll(lines[1..]))
      case (Some(c), Some(cs)) => Some([c] + cs)
      case _ => None
  }

  lemma {:induction false} ParseAllTexts(cmds: seq<Command>)
    ensures ParseAll(Texts(cmds)) == Some(cmds)
    decreases |cmds|
  {
    if cmds != [] {
      var ts := Texts(cmds);
      ParseRender(cmds[0]);
      assert ParseCommand(ts[0]) == Some(cmds[0]);
      assert ts[1..] == Texts(cmds[1..]);
      ParseAllTexts(cmds[1..]);
      ParseAllCons(ts);
      assert cmds == [cmds[0]] + cmds[1..];
    }
  }

  lemma ParseAllCons(ts: seq<string>)
    requires ts != [] && ParseCommand(ts[0]).Some? && ParseAll(ts[1..]).Some?
    ensures ParseAll(ts) == Some([ParseCommand(ts[0]).value] + ParseAll(ts[1..]).value)
  {
  }

  /** The wire carries the trace's directives and nothing else. */
  lemma DecodeStream(acts: seq<Action>)
    ensures Decode(Stream(acts)) == Some(Commands(acts))
  {
    StreamLines(acts);
    ParseAllTexts(Commands(acts));
  }

  /** What the directives of a trace last set: `None` until set (and after a reset),
      and whether the last directive was `radio rx 0`. */
  datatype Tuning = Tuning(freq: Option<nat>, sf: Option<nat>, bw: Option<nat>,
                           pwr: Option<nat>, receiving: bool)

  const Unknown := Tuning(None, None, None, None, false)

  function Tune(t: Tuning, c: Command): Tuning {
    match c
    case SysReset => Unknown
    case MacPause => t.(receiving := false)
    case SetFreq(hz) => t.(freq := Some(hz), receiving := false)
    case SetSf(sf) => t.(sf := Some(sf), receiving := false)
    case SetBw(khz) => t.(bw := Some(khz), receiving := false)
    case SetPwr(dbm) => t.(pwr := Some(dbm), receiving := false)
    case Receive => t.(receiving := true)
    case Transmit(_) => t.(receiving := false)
  }

  function TuneAll(t: Tuning, cmds: seq<Command>): Tuning
    decreases |cmds|
  {
    if cmds == [] then t else TuneAll(Tune(t, cmds[0]), cmds[1..])
  }

  lemma TuneAllCons(t: Tuning, c: Command, rest: seq<Command>)
    ensures TuneAll(t, [c] + rest) == TuneAll(Tune(t, c), rest)
  {
    assert ([c] + rest)[1..] == rest;
  }

  lemma {:induction false} TuneAllAppend(t: Tuning, a: seq<Command>, b: seq<Command>)
    ensures TuneAll(t, a + b) == TuneAll(TuneAll(t, a), b)
    decreases |a|
  {
    if a != [] {
      assert (a + b)[0] == a[0];
      assert (a + b)[1..] == a[1..] + b;
      TuneAllAppend(Tune(t, a[0]), a[1..], b);
    } else {
      assert a + b == b;
    }
  }

  // The monitoring setup both scripts send: pause the LoRaWAN MAC, tune to the
  // monitoring channel, receive.

  const MonitorFreq := 868100000
  const MonitorBw := 125
  const MonitorPwr := 14

  function MonitorSetup(sf: nat): seq<Command> {
    [MacPause, SetFreq(MonitorFreq), SetSf(sf), SetBw(MonitorBw), SetPwr(MonitorPwr), Receive]
  }

  /** The radio was last told to receive on the monitoring channel at `sf`, with the
      setup's bandwidth and power. */
  predicate TunedTo(t: Tuning, sf: nat) {
    && t.freq == Some(MonitorFreq)
    && t.sf == Some(sf)
    && t.bw == Some(MonitorBw)
    && t.pwr == Some(MonitorPwr)
    && t.receiving
  }

  /** Whatever the radio was told before, the setup leaves it last told to receive on
      the monitoring channel at `sf`. */
  lemma MonitorSetupTunes(t: Tuning, sf: nat)
    ensures TunedTo(TuneAll(t, MonitorSetup(sf)), sf)
  {
    var cs := MonitorSetup(sf);
    TuneAllCons(t, cs[0], cs[1..]);
    var t1 := Tune(t, cs[0]);
    TuneAllCons(t1, cs[1], cs[2..]);
    var t2 := Tune(t1, cs[1]);
    TuneAllCons(t2, cs[2], cs[3..]);
    var t3 := Tune(t2, cs[2]);
    TuneAllCons(t3, cs[3], cs[4..]);
    var t4 := Tune(t3, cs[3]);
    TuneAllCons(t4, cs[4], cs[5..]);
    var t5 := Tune(t4, cs[4]);
    TuneAllCons(t5, cs[5], []);
    assert cs == [cs[0]] + cs[1..];
    assert cs[1..] == [cs[1]] + cs[2..];
    assert cs[2..] == [cs[2]] + cs[3..];
    assert cs[3..] == [cs[3]] + cs[4..];
    assert cs[4..] == [cs[4]] + cs[5..];
    assert cs[5..] == [cs[5]] + [];
  }
}
