/** The adaptive join-interference controller (`LoRaResilienceTester`).  It listens
    on the monitoring channel, and each received uplink line triggers a burst
    schedule aimed at the two LoRaWAN receive windows.  The schedule is chosen by the
    current spreading factor (SF).  Every third detection the SF steps up, and it
    stops at SF12.  A call of the line handler is the pure function `HandleLine`:
    from the controller state, the line and the clock reading taken before
    the RX2 wait, it gives the next state and the trace of writes and sleeps. */
module ResilienceTester {
  import opened Text
  import opened Radio

  const Rx2Freq := 869525000
  const Rx2Sf := 12
  const InitialSf := 7
  const MaxSf := 12
  /** Detections per SF step. */
  const JoinsPerStep := 3
  /** Stripped lines shorter than this are never detections. */
  const MinDetectionLength := 20
  /** Pause after `sys reset` (1.5 s) and before the recovery retune (0.1 s). */
  const ResetSettleMs := 1500
  const RecoverySettleMs := 100

  /** `current_sf` and `join_counter`. */
  datatype State = State(currentSf: nat, joinCounter: nat)

  /** The states the controller can reach. */
  predicate Valid(s: State) {
    InitialSf <= s.currentSf <= MaxSf && s.joinCounter < JoinsPerStep
  }

  /** A handler's result: the next state and what it did to the radio. */
  datatype Reaction = Reaction(next: State, actions: seq<Action>)

  /** `full_setup`: pause the LoRaWAN MAC and listen on the monitoring channel at
      the current SF. */
  function FullSetup(s: State): (acts: seq<Action>)
    ensures Commands(acts) == MonitorSetup(s.currentSf)
    ensures |acts| == 12
    ensures forall i :: 0 <= i < 6 ==>
      acts[2 * i] == Write(MonitorSetup(s.currentSf)[i]) && acts[2 * i + 1] == Sleep(DefaultSettleMs)
  {
    SendAllCommands(MonitorSetup(s.currentSf), DefaultSettleMs);
    SendAllPaced(MonitorSetup(s.currentSf), DefaultSettleMs);
    SendAll(MonitorSetup(s.currentSf), DefaultSettleMs)
  }

  /** `connection_made`: start at SF7 with no detections, reset the module, then run
      the full setup. */
  function ConnectionMade(): (r: Reaction)
    ensures r.next == State(7, 0) && Valid(r.next)
    ensures Commands(r.actions)
         == [SysReset, MacPause, SetFreq(868100000), SetSf(7), SetBw(125), SetPwr(14), Receive]
  {
    var s := State(InitialSf, 0);
    var reset := WriteLine(SysReset) + Pause(ResetSettleMs);
    assert Commands(reset) == [SysReset] by {
      TraceFacts(SysReset, ResetSettleMs);
      CommandsAppend(WriteLine(SysReset), Pause(ResetSettleMs));
    }
    CommandsAppend(reset, FullSetup(s));
    assert [SysReset] + MonitorSetup(InitialSf)
        == [SysReset, MacPause, SetFreq(868100000), SetSf(7), SetBw(125), SetPwr(14), Receive];
    Reaction(s, reset + FullSetup(s))
  }

  /** The bring-up directives, as the module receives them. */
  lemma BringUpText()
    ensures var ts := Texts(Commands(ConnectionMade().actions));
      && |ts| == 7
      && ts[0] == "sys reset"
      && ts[1] == "mac pause"
      && ts[2] == "radio set freq 868100000"
      && ts[3] == "radio set sf sf7"
      && ts[4] == "radio set bw 125"
      && ts[5] == "radio set pwr 14"
      && ts[6] == "radio rx 0"
  {
    var cmds := [SysReset, MacPause, SetFreq(868100000), SetSf(7), SetBw(125), SetPwr(14), Receive];
    var ts := Texts(cmds);
    assert Commands(ConnectionMade().actions) == cmds;
    assert ts[0] == "sys reset" && ts[1] == "mac pause" && ts[6] == "radio rx 0" by {
      FixedTexts();
    }
    assert ts[2] == "radio set freq 868100000" by {
      MonitorFreqText();
    }
    assert ts[3] == "radio set sf sf7" by {
      Sf7Text();
    }
    assert ts[4] == "radio set bw 125" && ts[5] == "radio set pwr 14" by {
      BwText();
      PwrText();
    }
  }

  // ---------------------------------------------------------------- classification

  datatype LineKind =
    | Ignored   // banner, empty, `ok`, `radio_tx_ok`, or another short line
    | Rearm     // a short `radio_err` / `busy` report: receive again
    | Detected  // anything else: a received uplink

  /** Banner, empty line and plain acknowledgements. */
  predicate Acknowledgement(d: string) {
    StartsWith(d, "RN2483") || d == [] || d == "ok" || d == "radio_tx_ok"
  }

  predicate ErrorReport(d: string) {
    Contains(d, "radio_err") || Contains(d, "busy")
  }

  /** The class of a line, decided on the stripped line `d`. */
  function Classify(line: string): LineKind {
    var d := Strip(line);
    if Acknowledgement(d) then Ignored
    else if |d| < MinDetectionLength then (if ErrorReport(d) then Rearm else Ignored)
    else Detected
  }

  /** A line is a detection exactly when, stripped, it is no acknowledgement and has
      at least 20 characters; it re-arms receive exactly when it is a short error
      report; every other line is ignored. */
  lemma ClassifyCases(line: string)
    ensures var d := Strip(line);
      && (Classify(line) == Detected <==> !Acknowledgement(d) && |d| >= MinDetectionLength)
      && (Classify(line) == Rearm <==>
            !Acknowledgement(d) && |d| < MinDetectionLength && ErrorReport(d))
      && (Classify(line) == Ignored <==>
            Acknowledgement(d) || (|d| < MinDetectionLength && !ErrorReport(d)))
  {
  }

  /** A stripped line shorter than the threshold is never a detection, and it
      re-arms receive exactly when it reports an error. */
  lemma ShortLineClass(line: string)
    requires |Strip(line)| < MinDetectionLength
    ensures Classify(line) != Detected
    ensures Classify(line) == Rearm <==> !Acknowledgement(Strip(line)) && ErrorReport(Strip(line))
  {
  }

  /** A long `radio_err` report is taken for an uplink. */
  lemma LongErrorIsDetection(line: string)
    requires |Strip(line)| >= MinDetectionLength
    requires Contains(Strip(line), "radio_err") && !StartsWith(Strip(line), "RN2483")
    ensures Classify(line) == Detected
  {
  }

  // ---------------------------------------------------------------- DevEUI

  /** The marker the handler removes from a reception before reading the DevEUI. */
  const RxMarker := "radio_rx  "

  /** `data.replace("radio_rx  ", "").strip()`. */
  function Payload(d: string): string {
    Strip(RemoveAll(d, RxMarker))
  }

  /** Without a marker the payload is the stripped text itself; with one it is
      shorter by at least the marker's ten characters. */
  lemma PayloadFacts(d: string)
    ensures |Payload(d)| <= |d|
    ensures !Contains(d, RxMarker) ==> Payload(d) == Strip(d)
    ensures Contains(d, RxMarker) ==> |Payload(d)| <= |d| - |RxMarker|
  {
  }

  /** Where character `i` of a byte-pair-reversed string of length `n` comes from. */
  function PairSource(n: nat, i: nat): (j: int)
    ensures n % 2 == 0 && i < n ==> 0 <= j < n && j % 2 == i % 2
  {
    n - 2 - (i - i % 2) + i % 2
  }

  /** Split into two-character chunks (the last one shorter for odd lengths),
      reverse the chunk order, join. */
  function ReversePairs(raw: string): (r: string)
    ensures |r| == |raw|
    ensures |raw| % 2 == 0 ==>
      forall i :: 0 <= i < |raw| ==> 0 <= PairSource(|raw|, i) < |raw| && r[i] == raw[PairSource(|raw|, i)]
    decreases |raw|
  {
    if |raw| <= 2 then raw
    else
      var rest := ReversePairs(raw[2..]);
      ReversePairsStep(raw, rest);
      rest + raw[..2]
  }

  /** The last chunk moves to the front: sources shift by two for the chunks that
      stay in the recursive part and land in the first chunk for the moved one. */
  lemma ReversePairsStep(raw: string, rest: string)
    requires |raw| > 2 && |rest| == |raw| - 2
    requires |raw| % 2 == 0 ==>
      forall i :: 0 <= i < |rest| ==> 0 <= PairSource(|rest|, i) < |rest| && rest[i] == raw[2..][PairSource(|rest|, i)]
    ensures |raw| % 2 == 0 ==>
      forall i :: 0 <= i < |raw| ==> 0 <= PairSource(|raw|, i) < |raw| && (rest + raw[..2])[i] == raw[PairSource(|raw|, i)]
  {
    var n := |raw|;
    if n % 2 == 0 {
      forall i | 0 <= i < n
        ensures 0 <= PairSource(n, i) < n && (rest + raw[..2])[i] == raw[PairSource(n, i)]
      {
        if i < n - 2 {
          assert PairSource(n, i) == PairSource(n - 2, i) + 2;
          assert (rest + raw[..2])[i] == rest[i];
        } else {
          assert i % 2 == i - (n - 2);
          assert PairSource(n, i) == i - (n - 2);
          assert (rest + raw[..2])[i] == raw[..2][i - (n - 2)];
        }
      }
    }
  }

  /** Reversing the byte order twice restores an even-length hex string. */
  lemma ReversePairsInvolution(raw: string)
    requires |raw| % 2 == 0
    ensures ReversePairs(ReversePairs(raw)) == raw
  {
    var once := ReversePairs(raw);
    var twice := ReversePairs(once);
    forall i | 0 <= i < |raw|
      ensures twice[i] == raw[i]
    {
      PairSourceInvolution(|raw|, i);
    }
  }

  lemma PairSourceInvolution(n: nat, i: nat)
    requires n % 2 == 0 && i < n
    ensures 0 <= PairSource(n, i) < n
    ensures PairSource(n, PairSource(n, i)) == i
  {
    var m, q, r := n / 2, i / 2, i % 2;
    assert n == 2 * m && i == 2 * q + r;
    var j := PairSource(n, i);
    assert j == 2 * (m - 1 - q) + r;
    assert j % 2 == r && j / 2 == m - 1 - q;
  }

  /** Offsets of the DevEUI field in a join-request payload. */
  const EuiStart := 18
  const EuiEnd := 34

  /** The DevEUI the handler logs for a detection line: the little-endian field of
      the payload read out big-endian and upper-cased, or `UNKNOWN` when the payload
      is too short. */
  function DevEui(line: string): (eui: string)
    ensures |Payload(Strip(line))| < EuiEnd ==> eui == "UNKNOWN"
    ensures |Payload(Strip(line))| >= EuiEnd ==>
      && |eui| == 16
      && forall i :: 0 <= i < 16 ==>
           eui[i] == UpperChar(Payload(Strip(line))[EuiStart + PairSource(16, i)])
  {
    var payload := Payload(Strip(line));
    if |payload| >= EuiEnd then
      var rev := ReversePairs(payload[EuiStart..EuiEnd]);
      assert forall i :: 0 <= i < 16 ==> rev[i] == payload[EuiStart + PairSource(16, i)];
      Upper(rev)
    else
      "UNKNOWN"
  }

  predicate IsHex(s: string) {
    forall i :: 0 <= i < |s| ==> '0' <= s[i] <= '9' || 'a' <= s[i] <= 'f' || 'A' <= s[i] <= 'F'
  }

  /** For a reception line `radio_rx  <hex>` the payload is the hex text itself. */
  lemma ReceptionPayload(hex: string)
    requires IsHex(hex)
    ensures Payload(RxMarker + hex) == hex
  {
    forall i | 0 <= i && i + |RxMarker| <= |hex|
      ensures !OccursAt(hex, RxMarker, i)
    {
      assert hex[i..i + |RxMarker|][0] == hex[i];
    }
    RemoveLeading(RxMarker, hex);
    StripFixed(hex);
  }

  predicate IsUpperHex(s: string) {
    forall i :: 0 <= i < |s| ==> '0' <= s[i] <= '9' || 'A' <= s[i] <= 'F'
  }

  lemma HexConcat(a: string, b: string)
    requires IsHex(a) && IsHex(b)
    ensures IsHex(a + b)
  {
    forall i | 0 <= i < |a + b|
      ensures '0' <= (a + b)[i] <= '9' || 'a' <= (a + b)[i] <= 'f' || 'A' <= (a + b)[i] <= 'F'
    {
      if i < |a| {
        assert (a + b)[i] == a[i];
      } else {
        assert (a + b)[i] == b[i - |a|];
      }
    }
  }

  lemma ReversePairsUpperHex(s: string)
    requires |s| % 2 == 0 && IsUpperHex(s)
    ensures IsUpperHex(ReversePairs(s)) && IsHex(ReversePairs(s))
  {
    var r := ReversePairs(s);
    forall i | 0 <= i < |s|
      ensures '0' <= r[i] <= '9' || 'A' <= r[i] <= 'F'
    {
      assert r[i] == s[PairSource(|s|, i)];
    }
  }

  lemma UpperOfUpperHex(s: string)
    requires IsUpperHex(s)
    ensures Upper(s) == s
  {
    var u := Upper(s);
    forall i | 0 <= i < |s|
      ensures u[i] == s[i]
    {
      assert u[i] == UpperChar(s[i]);
    }
  }

  /** A join request carries the DevEUI little-endian after the one-byte MHDR and
      the eight-byte JoinEUI.  For any such reception the handler reports the
      DevEUI as the device defines it: big-endian, upper-case hex. */
  lemma DevEuiRoundTrip(mhdr: string, joinEui: string, devEui: string, rest: string)
    requires |mhdr| == 2 && |joinEui| == 16 && |devEui| == 16
    requires IsHex(mhdr) && IsHex(joinEui) && IsUpperHex(devEui) && IsHex(rest)
    ensures DevEui(RxMarker + (mhdr + joinEui + ReversePairs(devEui) + rest)) == devEui
  {
    var le := ReversePairs(devEui);
    var hex := mhdr + joinEui + le + rest;
    var line := RxMarker + hex;
    assert IsHex(hex) by {
      ReversePairsUpperHex(devEui);
      HexConcat(mhdr, joinEui);
      HexConcat(mhdr + joinEui, le);
      HexConcat(mhdr + joinEui + le, rest);
    }
    assert Payload(Strip(line)) == hex by {
      ReceptionPayload(hex);
      MarkedLineStripped(hex);
    }
    assert hex[EuiStart..EuiEnd] == le by {
      assert hex == (mhdr + joinEui) + le + rest;
      assert |mhdr + joinEui| == EuiStart;
    }
    assert Upper(ReversePairs(le)) == devEui by {
      ReversePairsInvolution(devEui);
      UpperOfUpperHex(devEui);
    }
    assert DevEui(line) == Upper(ReversePairs(le));
  }

  /** A reception line with a non-empty hex payload has nothing to strip. */
  lemma MarkedLineStripped(hex: string)
    requires hex != [] && IsHex(hex)
    ensures Strip(RxMarker + hex) == RxMarker + hex
  {
    var line := RxMarker + hex;
    assert line[0] == 'r' && line[|line| - 1] == hex[|hex| - 1];
    StripFixed(line);
  }

  // ---------------------------------------------------------------- burst profiles

  /** A burst schedule.  `Windowed` targets RX1 and then, after retuning to the RX2
      channel, RX2 at a fixed budget after detection.  `Saturation` is the schedule
      for every SF other than 7, 8 and 9: one long burst at SF12 on the current
      channel. */
  datatype Profile =
    | Windowed(rx1DelayMs: nat, rx1Fillers: seq<nat>, rx1GapMs: nat, rx1TailMs: nat,
               budgetMs: nat, rx2Filler: nat)
    | Saturation(leadInMs: nat, filler: nat, cooldownMs: nat)

  /** The schedule for the SF in force before the transition; never fails. */
  function ProfileFor(sf: nat): (p: Profile)
    ensures p.Windowed? <==> 7 <= sf <= 9
    ensures p.Windowed? ==> p.rx1DelayMs < p.budgetMs && p.rx1Fillers != []
    ensures p.Saturation? ==> p == Saturation(4500, 200, 2300)
  {
    if sf == 7 then Windowed(4300, [400, 400], 350, 100, 5920, 20)
    else if sf == 8 then Windowed(4600, [500], 0, 0, 5950, 50)
    else if sf == 9 then Windowed(4200, [510, 510], 0, 0, 5900, 250)
    else Saturation(4500, 200, 2300)
  }

  /** Filler transmissions back to back, with a pause between consecutive ones. */
  function Bursts(fillers: seq<nat>, gapMs: nat): seq<Action>
    decreases |fillers|
  {
    if fillers == [] then []
    else if |fillers| == 1 then WriteLine(Transmit(fillers[0]))
    else WriteLine(Transmit(fillers[0])) + Pause(gapMs) + Bursts(fillers[1..], gapMs)
  }

  function Transmits(fillers: seq<nat>): (cmds: seq<Command>)
    ensures |cmds| == |fillers|
    ensures forall i :: 0 <= i < |fillers| ==> cmds[i] == Transmit(fillers[i])
  {
    if fillers == [] then [] else [Transmit(fillers[0])] + Transmits(fillers[1..])
  }

  /** The bursts are the fillers' transmissions, in order, with one gap between
      each consecutive pair. */
  lemma {:induction false} BurstsFacts(fillers: seq<nat>, gapMs: nat)
    ensures Commands(Bursts(fillers, gapMs)) == Transmits(fillers)
    ensures SleepTotal(Bursts(fillers, gapMs)) == if fillers == [] then 0 else (|fillers| - 1) * gapMs
    decreases |fillers|
  {
    if |fillers| == 1 {
      TraceFacts(Transmit(fillers[0]), 0);
    } else if |fillers| > 1 {
      var head := WriteLine(Transmit(fillers[0])) + Pause(gapMs);
      BurstsFacts(fillers[1..], gapMs);
      TraceFacts(Transmit(fillers[0]), gapMs);
      CommandsAppend(WriteLine(Transmit(fillers[0])), Pause(gapMs));
      SleepTotalAppend(WriteLine(Transmit(fillers[0])), Pause(gapMs));
      CommandsAppend(head, Bursts(fillers[1..], gapMs));
      SleepTotalAppend(head, Bursts(fillers[1..], gapMs));
      var n := |fillers[1..]|;
      assert (n + 1 - 1) * gapMs == (n - 1) * gapMs + gapMs;
    }
  }

  /** The directives that retune to the RX2 channel. */
  function Rx2Retune(): seq<Command> {
    [SetFreq(Rx2Freq), SetSf(Rx2Sf)]
  }

  /** Everything a windowed schedule does before the RX2 wait. */
  function Rx1Phase(p: Profile): seq<Action>
    requires p.Windowed?
  {
    Pause(p.rx1DelayMs) + Bursts(p.rx1Fillers, p.rx1GapMs) + Pause(p.rx1TailMs)
    + SendAll(Rx2Retune(), ShortSettleMs)
  }

  lemma Rx1PhaseFacts(p: Profile)
    requires p.Windowed?
    ensures Commands(Rx1Phase(p)) == Transmits(p.rx1Fillers) + Rx2Retune()
    ensures SleepTotal(Rx1Phase(p))
         == p.rx1DelayMs + SleepTotal(Bursts(p.rx1Fillers, p.rx1GapMs)) + p.rx1TailMs
            + 2 * ShortSettleMs
  {
    var a := Pause(p.rx1DelayMs);
    var b := Bursts(p.rx1Fillers, p.rx1GapMs);
    var c := Pause(p.rx1TailMs);
    var d := SendAll(Rx2Retune(), ShortSettleMs);
    TraceFacts(Receive, p.rx1DelayMs);
    TraceFacts(Receive, p.rx1TailMs);
    BurstsFacts(p.rx1Fillers, p.rx1GapMs);
    SendAllCommands(Rx2Retune(), ShortSettleMs);
    SendAllSleep(Rx2Retune(), ShortSettleMs);
    CommandsAppend(a, b);
    CommandsAppend(a + b, c);
    CommandsAppend(a + b + c, d);
    SleepTotalAppend(a, b);
    SleepTotalAppend(a + b, c);
    SleepTotalAppend(a + b + c, d);
  }

  /** `wait_for_rx2`, used only when positive: the time left until the RX2 budget
      measured from detection, given the clock reading. */
  function Rx2Wait(budgetMs: int, elapsedMs: int): (w: nat)
    ensures elapsedMs < budgetMs ==> elapsedMs + w == budgetMs
    ensures elapsedMs >= budgetMs ==> w == 0
  {
    if budgetMs - elapsedMs > 0 then budgetMs - elapsedMs else 0
  }

  /** The interference part of a detection; `elapsedMs` is the clock reading
      (milliseconds since detection) taken just before the RX2 wait. */
  function Interference(p: Profile, elapsedMs: int): seq<Action> {
    match p
    case Windowed(_, _, _, _, budget, rx2Filler) =>
      Rx1Phase(p) + Pause(Rx2Wait(budget, elapsedMs)) + WriteLine(Transmit(rx2Filler))
    case Saturation(leadIn, filler, cooldown) =>
      SendCmd(SetSf(Rx2Sf), ShortSettleMs) + Pause(leadIn) + WriteLine(Transmit(filler))
      + Pause(cooldown)
  }

  /** Count the detection; every `JoinsPerStep`-th one steps the SF, capped at 12. */
  function Advance(s: State): (n: State)
    ensures Valid(s) ==> Valid(n)
    ensures s.joinCounter + 1 < JoinsPerStep ==> n == s.(joinCounter := s.joinCounter + 1)
    ensures s.joinCounter + 1 >= JoinsPerStep ==>
      n.joinCounter == 0 && (if s.currentSf < MaxSf then n.currentSf == s.currentSf + 1
                             else n.currentSf == MaxSf)
  {
    var counter := s.joinCounter + 1;
    if counter >= JoinsPerStep then
      var sf := s.currentSf + 1;
      State(if sf > MaxSf then MaxSf else sf, 0)
    else
      State(s.currentSf, counter)
  }

  /** Back to the monitoring channel at the (possibly new) SF, then receive. */
  function Recovery(next: State): (acts: seq<Action>)
    ensures Commands(acts) == [SetFreq(MonitorFreq), SetSf(next.currentSf), Receive]
    ensures SleepTotal(acts) == RecoverySettleMs + 2 * ShortSettleMs
    ensures acts != [] && acts[|acts| - 1] == Write(Receive)
  {
    var a := Pause(RecoverySettleMs);
    var b := SendAll([SetFreq(MonitorFreq), SetSf(next.currentSf)], ShortSettleMs);
    var c := WriteLine(Receive);
    TraceFacts(Receive, RecoverySettleMs);
    SendAllCommands([SetFreq(MonitorFreq), SetSf(next.currentSf)], ShortSettleMs);
    SendAllSleep([SetFreq(MonitorFreq), SetSf(next.currentSf)], ShortSettleMs);
    CommandsAppend(a, b);
    CommandsAppend(a + b, c);
    SleepTotalAppend(a, b);
    SleepTotalAppend(a + b, c);
    a + b + c
  }

  /** `handle_line`. */
  function HandleLine(s: State, line: string, elapsedMs: int): (r: Reaction)
    ensures Classify(line) != Detected ==> r.next == s
    ensures Classify(line) == Ignored ==> r.actions == []
    ensures Classify(line) == Rearm ==> Commands(r.actions) == [Receive]
    ensures Classify(line) == Detected ==> r.next == Advance(s)
    ensures Valid(s) ==> Valid(r.next)
  {
    match Classify(line)
    case Ignored => Reaction(s, [])
    case Rearm => Reaction(s, SendCmd(Receive, ShortSettleMs))
    case Detected =>
      var next := Advance(s);
      Reaction(next, Interference(ProfileFor(s.currentSf), elapsedMs) + Recovery(next))
  }

  /** What the handler does depends on the line only through its class: the DevEUI
      and the rest of the payload change neither the state nor the trace. */
  lemma OnlyClassMatters(s: State, a: string, b: string, elapsedMs: int)
    requires Classify(a) == Classify(b)
    ensures HandleLine(s, a, elapsedMs) == HandleLine(s, b, elapsedMs)
  {
  }

  /** Lines that are not detections leave the state alone; of them only an error
      report writes anything, and then exactly `radio rx 0`. */
  lemma QuietLines(s: State, line: string, elapsedMs: int)
    requires Acknowledgement(Strip(line)) || |Strip(line)| < MinDetectionLength
    ensures HandleLine(s, line, elapsedMs).next == s
    ensures Texts(Commands(HandleLine(s, line, elapsedMs).actions))
         == (if !Acknowledgement(Strip(line)) && ErrorReport(Strip(line)) then ["radio rx 0"] else [])
  {
    TraceFacts(Receive, ShortSettleMs);
  }

  // ---------------------------------------------------------------- burst shape

  /** The directives of each schedule, written out. */
  function BurstTable(sf: nat): seq<Command> {
    if sf == 7 then [Transmit(400), Transmit(400), SetFreq(869525000), SetSf(12), Transmit(20)]
    else if sf == 8 then [Transmit(500), SetFreq(869525000), SetSf(12), Transmit(50)]
    else if sf == 9 then [Transmit(510), Transmit(510), SetFreq(869525000), SetSf(12), Transmit(250)]
    else [SetSf(12), Transmit(200)]
  }

  /** A windowed schedule writes its RX1 fillers, retunes, then writes the RX2 filler. */
  lemma WindowedCommands(p: Profile, elapsedMs: int)
    requires p.Windowed?
    ensures Commands(Interference(p, elapsedMs))
         == Transmits(p.rx1Fillers) + Rx2Retune() + [Transmit(p.rx2Filler)]
  {
    var pre := Rx1Phase(p);
    var w := Pause(Rx2Wait(p.budgetMs, elapsedMs));
    var g := WriteLine(Transmit(p.rx2Filler));
    Rx1PhaseFacts(p);
    TraceFacts(Transmit(p.rx2Filler), Rx2Wait(p.budgetMs, elapsedMs));
    CommandsAppend(pre, w);
    CommandsAppend(pre + w, g);
  }

  lemma SaturationCommands(p: Profile, elapsedMs: int)
    requires p.Saturation?
    ensures Commands(Interference(p, elapsedMs)) == [SetSf(Rx2Sf), Transmit(p.filler)]
  {
    var a := SendCmd(SetSf(Rx2Sf), ShortSettleMs);
    var b := Pause(p.leadInMs);
    var c := WriteLine(Transmit(p.filler));
    var d := Pause(p.cooldownMs);
    TraceFacts(SetSf(Rx2Sf), ShortSettleMs);
    TraceFacts(Transmit(p.filler), p.leadInMs);
    TraceFacts(Transmit(p.filler), p.cooldownMs);
    CommandsAppend(a, b);
    CommandsAppend(a + b, c);
    CommandsAppend(a + b + c, d);
  }

  lemma InterferenceCommands(sf: nat, elapsedMs: int)
    ensures Commands(Interference(ProfileFor(sf), elapsedMs)) == BurstTable(sf)
  {
    var p := ProfileFor(sf);
    if p.Windowed? {
      WindowedCommands(p, elapsedMs);
      var f := p.rx1Fillers;
      assert Transmits(f) == if |f| == 1 then [Transmit(f[0])] else [Transmit(f[0]), Transmit(f[1])];
    } else {
      SaturationCommands(p, elapsedMs);
    }
  }

  /** A detection writes the schedule of the SF in force before the transition,
      then retunes to the monitoring channel at the SF after it and receives. */
  lemma BurstShape(s: State, line: string, elapsedMs: int)
    requires Classify(line) == Detected
    ensures Commands(HandleLine(s, line, elapsedMs).actions)
         == BurstTable(s.currentSf) + [SetFreq(868100000), SetSf(Advance(s).currentSf), Receive]
  {
    var next := Advance(s);
    InterferenceCommands(s.currentSf, elapsedMs);
    CommandsAppend(Interference(ProfileFor(s.currentSf), elapsedMs), Recovery(next));
  }

  /** Every detection trace ends by returning to the monitoring channel at the
      post-transition SF and receiving. */
  lemma RecoveryTail(s: State, line: string, elapsedMs: int)
    requires Classify(line) == Detected
    ensures var cmds := Commands(HandleLine(s, line, elapsedMs).actions);
      && |cmds| >= 3
      && cmds[|cmds| - 3..]
         == [SetFreq(MonitorFreq), SetSf(HandleLine(s, line, elapsedMs).next.currentSf), Receive]
  {
    BurstShape(s, line, elapsedMs);
  }

  // ---------------------------------------------------------------- RX2 timing

  /** In a windowed schedule the RX2 burst is written after the RX1 phase's sleeps
      plus the clamped wait: never earlier than the budget on a clock that has
      counted only those sleeps, and with no wait at all once the budget is spent. */
  lemma Rx2BurstTiming(s: State, line: string, elapsedMs: int)
    requires Classify(line) == Detected
    requires 7 <= s.currentSf <= 9
    ensures var p := ProfileFor(s.currentSf);
      SleepUntil(HandleLine(s, line, elapsedMs).actions, Transmit(p.rx2Filler))
      == SleepTotal(Rx1Phase(p)) + Rx2Wait(p.budgetMs, elapsedMs)
  {
    var p := ProfileFor(s.currentSf);
    WindowedTiming(p, elapsedMs, Recovery(Advance(s)));
  }

  lemma WindowedTiming(p: Profile, elapsedMs: int, post: seq<Action>)
    requires p.Windowed? && p.rx2Filler !in p.rx1Fillers
    ensures SleepUntil(Interference(p, elapsedMs) + post, Transmit(p.rx2Filler))
         == SleepTotal(Rx1Phase(p)) + Rx2Wait(p.budgetMs, elapsedMs)
  {
    var pre := Rx1Phase(p);
    var w := Pause(Rx2Wait(p.budgetMs, elapsedMs));
    var g := WriteLine(Transmit(p.rx2Filler));
    var c := Transmit(p.rx2Filler);
    assert c !in Commands(pre + w) by {
      Rx1PhaseFacts(p);
      TraceFacts(c, Rx2Wait(p.budgetMs, elapsedMs));
      CommandsAppend(pre, w);
      assert c !in Transmits(p.rx1Fillers);
    }
    assert Interference(p, elapsedMs) + post == (pre + w) + (g + post);
    SleepUntilAppend(pre + w, g + post, c);
    assert SleepUntil(g + post, c) == 0 by {
      assert (g + post)[0] == Write(c);
    }
    assert SleepTotal(pre + w) == SleepTotal(pre) + Rx2Wait(p.budgetMs, elapsedMs) by {
      TraceFacts(c, Rx2Wait(p.budgetMs, elapsedMs));
      SleepTotalAppend(pre, w);
    }
  }

  /** Sleep of the RX1 phase for SF7, SF8 and SF9: always short of the RX2 budget. */
  lemma Rx1PhaseWithinBudget(sf: nat)
    requires 7 <= sf <= 9
    ensures SleepTotal(Rx1Phase(ProfileFor(sf))) < ProfileFor(sf).budgetMs
  {
    var p := ProfileFor(sf);
    Rx1PhaseFacts(p);
    BurstsFacts(p.rx1Fillers, p.rx1GapMs);
  }

  /** On an ideal clock (elapsed time equals the time slept so far) the RX2 burst is
      written exactly at the budget: 5920, 5950 or 5900 ms after detection. */
  lemma Rx2OnIdealClock(s: State, line: string)
    requires Classify(line) == Detected
    requires 7 <= s.currentSf <= 9
    ensures var p := ProfileFor(s.currentSf);
      var acts := HandleLine(s, line, SleepTotal(Rx1Phase(p))).actions;
      SleepUntil(acts, Transmit(p.rx2Filler))
      == (if s.currentSf == 7 then 5920 else if s.currentSf == 8 then 5950 else 5900)
  {
    var p := ProfileFor(s.currentSf);
    Rx1PhaseWithinBudget(s.currentSf);
    Rx2BurstTiming(s, line, SleepTotal(Rx1Phase(p)));
  }

  /** A clock reading at or past the budget means no wait before the RX2 burst. */
  lemma LateDeadlineNoWait(s: State, line: string, elapsedMs: int)
    requires Classify(line) == Detected
    requires 7 <= s.currentSf <= 9
    requires elapsedMs >= ProfileFor(s.currentSf).budgetMs
    ensures var p := ProfileFor(s.currentSf);
      SleepUntil(HandleLine(s, line, elapsedMs).actions, Transmit(p.rx2Filler))
      == SleepTotal(Rx1Phase(p))
  {
    Rx2BurstTiming(s, line, elapsedMs);
  }

  // ---------------------------------------------------------------- radio tracking

  /** The radio was last told to receive on the monitoring channel at the
      controller's SF. */
  predicate Monitoring(t: Tuning, s: State) {
    TunedTo(t, s.currentSf)
  }

  /** Directives that leave bandwidth and power alone. */
  predicate KeepsPower(cmds: seq<Command>) {
    forall i :: 0 <= i < |cmds| ==> !cmds[i].SysReset? && !cmds[i].SetBw? && !cmds[i].SetPwr?
  }

  lemma {:induction false} TuneAllKeepsPower(t: Tuning, cmds: seq<Command>)
    requires KeepsPower(cmds)
    ensures TuneAll(t, cmds).bw == t.bw && TuneAll(t, cmds).pwr == t.pwr
    decreases |cmds|
  {
    if cmds != [] {
      TuneAllKeepsPower(Tune(t, cmds[0]), cmds[1..]);
    }
  }

  /** Whatever the radio was told before, bring-up leaves it last told to receive on
      the monitoring channel at SF7. */
  lemma BringUpMonitors(t: Tuning)
    ensures Monitoring(TuneAll(t, Commands(ConnectionMade().actions)), ConnectionMade().next)
  {
    var cmds := Commands(ConnectionMade().actions);
    var t0 := Tune(t, SysReset);
    TuneAllCons(t, SysReset, cmds[1..]);
    assert cmds == [SysReset] + cmds[1..];
    assert cmds[1..] == MonitorSetup(InitialSf);
    MonitorSetupTunes(t0, InitialSf);
  }

  /** After each handler call the radio was last told to receive on the monitoring
      channel at the controller's (new) SF. */
  lemma HandleLineMonitors(t: Tuning, s: State, line: string, elapsedMs: int)
    requires Monitoring(t, s)
    ensures var r := HandleLine(s, line, elapsedMs);
      Monitoring(TuneAll(t, Commands(r.actions)), r.next)
  {
    var r := HandleLine(s, line, elapsedMs);
    match Classify(line)
    case Ignored =>
    case Rearm =>
      TuneAllCons(t, Receive, []);
    case Detected =>
      BurstShape(s, line, elapsedMs);
      DetectionMonitors(t, s, r.next.currentSf);
  }

  lemma DetectionMonitors(t: Tuning, s: State, sf: nat)
    requires Monitoring(t, s)
    ensures Monitoring(TuneAll(t, BurstTable(s.currentSf) + [SetFreq(868100000), SetSf(sf), Receive]),
                       State(sf, 0))
  {
    var head := BurstTable(s.currentSf);
    var tail := [SetFreq(868100000), SetSf(sf), Receive];
    TuneAllAppend(t, head, tail);
    TuneAllKeepsPower(t, head);
    var t1 := TuneAll(t, head);
    TuneAllCons(t1, tail[0], tail[1..]);
    TuneAllCons(Tune(t1, tail[0]), tail[1], tail[2..]);
    TuneAllCons(Tune(Tune(t1, tail[0]), tail[1]), tail[2], []);
    assert tail == [tail[0]] + ([tail[1]] + ([tail[2]] + []));
  }

  // ---------------------------------------------------------------- runs

  /** One line from the transceiver and the clock reading its handler would take. */
  datatype Input = Input(line: string, elapsedMs: int)

  /** Lines handled one after another, each to completion before the next. */
  function Run(s: State, ins: seq<Input>): Reaction
    decreases |ins|
  {
    if ins == [] then Reaction(s, [])
    else
      var first := HandleLine(s, ins[0].line, ins[0].elapsedMs);
      var rest := Run(first.next, ins[1..]);
      Reaction(rest.next, first.actions + rest.actions)
  }

  function Detections(ins: seq<Input>): nat
    decreases |ins|
  {
    if ins == [] then 0
    else (if Classify(ins[0].line) == Detected then 1 else 0) + Detections(ins[1..])
  }

  /** The state after `n` more detections, in closed form. */
  function AfterDetections(s: State, n: nat): State {
    var sf := s.currentSf + (s.joinCounter + n) / JoinsPerStep;
    State(if sf > MaxSf then MaxSf else sf, (s.joinCounter + n) % JoinsPerStep)
  }

  lemma AdvanceThenDetections(s: State, n: nat)
    requires Valid(s)
    ensures AfterDetections(Advance(s), n) == AfterDetections(s, n + 1)
  {
    if s.joinCounter == 2 {
      assert (3 + n) / 3 == 1 + n / 3;
      assert (3 + n) % 3 == n % 3;
    }
  }

  /** Only detections move the state, and `n` of them step the SF `n / 3` times
      (capped at 12) and leave the counter at `n mod 3`. */
  lemma {:induction false} RunCountsDetections(s: State, ins: seq<Input>)
    requires Valid(s)
    ensures Run(s, ins).next == AfterDetections(s, Detections(ins))
    decreases |ins|
  {
    if ins != [] {
      var first := HandleLine(s, ins[0].line, ins[0].elapsedMs);
      var n := Detections(ins[1..]);
      assert Run(s, ins).next == Run(first.next, ins[1..]).next;
      RunCountsDetections(first.next, ins[1..]);
      if Classify(ins[0].line) == Detected {
        assert first.next == Advance(s) && Detections(ins) == n + 1;
        AdvanceThenDetections(s, n);
      } else {
        assert first.next == s && Detections(ins) == n;
      }
    }
  }

  /** From bring-up on, 7 <= current_sf <= 12 and 0 <= join_counter <= 2. */
  lemma SessionBounds(ins: seq<Input>)
    ensures var s := Run(ConnectionMade().next, ins).next;
      7 <= s.currentSf <= 12 && s.joinCounter <= 2
  {
    RunCountsDetections(ConnectionMade().next, ins);
  }

  /** Three detections in a row from a fresh counter step the SF once, capped at 12. */
  lemma ThreeDetections(sf: nat, a: Input, b: Input, c: Input)
    requires 7 <= sf <= 12
    requires Classify(a.line) == Detected && Classify(b.line) == Detected
    requires Classify(c.line) == Detected
    ensures var s1 := HandleLine(State(sf, 0), a.line, a.elapsedMs).next;
      var s2 := HandleLine(s1, b.line, b.elapsedMs).next;
      HandleLine(s2, c.line, c.elapsedMs).next == State(if sf < 12 then sf + 1 else 12, 0)
  {
  }

  /** Across a whole run, the radio is left last told to receive on the monitoring
      channel at the controller's current SF. */
  lemma {:induction false} RunMonitors(t: Tuning, s: State, ins: seq<Input>)
    requires Monitoring(t, s)
    ensures var r := Run(s, ins); Monitoring(TuneAll(t, Commands(r.actions)), r.next)
    decreases |ins|
  {
    if ins != [] {
      var first := HandleLine(s, ins[0].line, ins[0].elapsedMs);
      var t1 := TuneAll(t, Commands(first.actions));
      HandleLineMonitors(t, s, ins[0].line, ins[0].elapsedMs);
      RunMonitors(t1, first.next, ins[1..]);
      var rest := Run(first.next, ins[1..]);
      CommandsAppend(first.actions, rest.actions);
      TuneAllAppend(t, Commands(first.actions), Commands(rest.actions));
    }
  }
}
