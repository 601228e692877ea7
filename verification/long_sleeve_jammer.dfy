/** The single-profile jammer (`LongSleeveJammer`).  It keeps no state besides the
    transport.  Every reception line makes it write one long SF10 filler burst, which
    covers both receive windows, and then repeat the radio setup so that it listens
    again on the monitoring channel at SF7. */
module LongSleeveJammer {
  import opened Text
  import opened Radio

  const MonitorSf := 7
  const TriggerPrefix := "radio_rx"
  const JamSf := 10
  const JamFiller := 200
  /** Pause after `sys reset` (1 s) and after the burst (2.5 s). */
  const ResetSettleMs := 1000
  const JamCooldownMs := 2500

  /** `setup_radio`: each directive is followed by its own 50 ms settle. */
  function SetupRadio(): (acts: seq<Action>)
    ensures Commands(acts)
         == [MacPause, SetFreq(868100000), SetSf(7), SetBw(125), SetPwr(14), Receive]
    ensures SleepTotal(acts) == 6 * DefaultSettleMs
    ensures |acts| == 12
    ensures forall i :: 0 <= i < 6 ==>
      acts[2 * i] == Write(MonitorSetup(MonitorSf)[i]) && acts[2 * i + 1] == Sleep(DefaultSettleMs)
  {
    SendAllCommands(MonitorSetup(MonitorSf), DefaultSettleMs);
    SendAllSleep(MonitorSetup(MonitorSf), DefaultSettleMs);
    SendAllPaced(MonitorSetup(MonitorSf), DefaultSettleMs);
    SendAll(MonitorSetup(MonitorSf), DefaultSettleMs)
  }

  /** `connection_made`: reset, wait, set up. */
  function ConnectionMade(): (acts: seq<Action>)
    ensures Commands(acts) == [SysReset] + Commands(SetupRadio())
  {
    var reset := WriteLine(SysReset) + Pause(ResetSettleMs);
    TraceFacts(SysReset, ResetSettleMs);
    CommandsAppend(WriteLine(SysReset), Pause(ResetSettleMs));
    CommandsAppend(reset, SetupRadio());
    reset + SetupRadio()
  }

  /** A reception report, after stripping. */
  predicate IsTrigger(line: string) {
    StartsWith(Strip(line), TriggerPrefix)
  }

  /** The raw line carries `radio_rx` right after its leading white space. */
  lemma TriggerAfterSpaces(line: string)
    ensures IsTrigger(line) <==> OccursAt(line, TriggerPrefix, LeadingSpaces(line))
  {
    var lo := LeadingSpaces(line);
    var r := Strip(line);
    var n := |TriggerPrefix|;
    StripWindowed(line);
    assert r == line[lo..lo + |r|];
    if IsTrigger(line) {
      assert line[lo..lo + n] == r[..n];
    }
    if OccursAt(line, TriggerPrefix, lo) {
      assert |r| >= n by {
        assert line[lo + n - 1] == TriggerPrefix[n - 1] == 'x';
        assert !IsSpace(line[lo + n - 1]);
      }
      assert r[..n] == line[lo..lo + n];
    }
  }

  /** The burst part of a trigger: SF10 with a short settle, one filler, then the
      cool-down. */
  function Jam(): (acts: seq<Action>)
    ensures Commands(acts) == [SetSf(JamSf), Transmit(JamFiller)]
    ensures SleepTotal(acts) == ShortSettleMs + JamCooldownMs
  {
    var a := SendCmd(SetSf(JamSf), ShortSettleMs);
    var b := WriteLine(Transmit(JamFiller));
    TraceFacts(SetSf(JamSf), ShortSettleMs);
    TraceFacts(Transmit(JamFiller), JamCooldownMs);
    CommandsAppend(a, b);
    CommandsAppend(a + b, Pause(JamCooldownMs));
    SleepTotalAppend(a, b);
    SleepTotalAppend(a + b, Pause(JamCooldownMs));
    a + b + Pause(JamCooldownMs)
  }

  /** `handle_line`. */
  function HandleLine(line: string): (acts: seq<Action>)
    ensures acts != [] <==> IsTrigger(line)
    ensures IsTrigger(line) ==>
      Commands(acts) == [SetSf(10), Transmit(200)] + Commands(SetupRadio())
  {
    if IsTrigger(line) then
      CommandsAppend(Jam(), SetupRadio());
      Jam() + SetupRadio()
    else
      []
  }

  /** The setup directives, as the module receives them. */
  lemma SetupText()
    ensures var ts := Texts(Commands(SetupRadio()));
      && |ts| == 6
      && ts[0] == "mac pause"
      && ts[1] == "radio set freq 868100000"
      && ts[2] == "radio set sf sf7"
      && ts[3] == "radio set bw 125"
      && ts[4] == "radio set pwr 14"
      && ts[5] == "radio rx 0"
  {
    var cmds := [MacPause, SetFreq(868100000), SetSf(7), SetBw(125), SetPwr(14), Receive];
    assert Commands(SetupRadio()) == cmds;
    FixedTexts();
    MonitorFreqText();
    Sf7Text();
    BwText();
    PwrText();
  }

  /** A trigger's directives, as the module receives them: SF10, then a
      transmission of 200 hex digits 'F' (100 bytes of 0xFF), then the setup lines. */
  lemma TriggerText(line: string)
    requires IsTrigger(line)
    ensures var ts := Texts(Commands(HandleLine(line)));
      && |ts| == 8
      && ts[0] == "radio set sf sf10"
      && ts[1] == "radio tx " + Repeat('F', 200)
      && ts[2..] == Texts(Commands(SetupRadio()))
      && ts[7] == "radio rx 0"
  {
    var cmds := Commands(HandleLine(line));
    var setup := Commands(SetupRadio());
    var jam := [SetSf(10), Transmit(200)];
    var ts := Texts(cmds);
    assert cmds == jam + setup;
    TextsAppend(jam, setup);
    assert ts[2..] == Texts(setup);
    assert ts[0] == "radio set sf sf10" by {
      Sf10Text();
    }
    assert ts[7] == "radio rx 0" by {
      assert cmds[7] == setup[5] == Receive;
      FixedTexts();
    }
  }

  /** The radio was last told to receive on the monitoring channel at SF7. */
  predicate Listening(t: Tuning) {
    TunedTo(t, MonitorSf)
  }

  /** Whatever the radio was told before, bring-up leaves it last told to receive on
      the monitoring channel at SF7. */
  lemma BringUpListens(t: Tuning)
    ensures Listening(TuneAll(t, Commands(ConnectionMade())))
  {
    var cmds := Commands(ConnectionMade());
    assert cmds == [SysReset] + MonitorSetup(MonitorSf);
    TuneAllAppend(t, [SysReset], MonitorSetup(MonitorSf));
    MonitorSetupTunes(TuneAll(t, [SysReset]), MonitorSf);
  }

  /** After any trigger the last directive is `radio rx 0`, and the last frequency
      and SF set are 868100000 and 7: the radio was last told to receive there. */
  lemma TriggerReturnsToListening(t: Tuning, line: string)
    requires IsTrigger(line)
    ensures var cmds := Commands(HandleLine(line));
      && cmds[|cmds| - 1] == Receive
      && Listening(TuneAll(t, cmds))
  {
    var cmds := Commands(HandleLine(line));
    assert cmds == [SetSf(JamSf), Transmit(JamFiller)] + MonitorSetup(MonitorSf);
    TuneAllAppend(t, [SetSf(JamSf), Transmit(JamFiller)], MonitorSetup(MonitorSf));
    MonitorSetupTunes(TuneAll(t, [SetSf(JamSf), Transmit(JamFiller)]), MonitorSf);
  }

  /** Lines handled one after another by `react`, each on its own. */
  function RunEach(react: string -> seq<Action>, lines: seq<string>): seq<Action>
    decreases |lines|
  {
    if lines == [] then [] else react(lines[0]) + RunEach(react, lines[1..])
  }

  /** A run of the jammer over the lines it reads. */
  function Run(lines: seq<string>): seq<Action> {
    RunEach(HandleLine, lines)
  }

  lemma {:induction false} RunEachAppend(react: string -> seq<Action>, a: seq<string>, b: seq<string>)
    ensures RunEach(react, a + b) == RunEach(react, a) + RunEach(react, b)
    decreases |a|
  {
    if a == [] {
      assert a + b == b;
    } else {
      assert (a + b)[0] == a[0];
      assert (a + b)[1..] == a[1..] + b;
      RunEachAppend(react, a[1..], b);
    }
  }

  /** No state is carried between lines: the trace of a run is the traces of its
      parts, so a line gets the same reaction whatever came before it. */
  lemma Stateless(a: seq<string>, b: seq<string>)
    ensures Run(a + b) == Run(a) + Run(b)
  {
    RunEachAppend(HandleLine, a, b);
  }

  /** The reaction to the last line of a run is its reaction on its own. */
  lemma LastLine(earlier: seq<string>, line: string)
    ensures Run(earlier + [line]) == Run(earlier) + HandleLine(line)
  {
    Stateless(earlier, [line]);
    assert [line][0] == line && [line][1..] == [];
    assert Run([line]) == HandleLine(line) + RunEach(HandleLine, []);
    assert HandleLine(line) + [] == HandleLine(line);
  }
}
