# LoStik jammer controllers in Dafny

This project models the line-driven control logic of two LoStik (RN2483) scripts.

- `LoStik-python/lorawan_join_interference.py` holds `LoRaResilienceTester`, an adaptive join-interference controller. It listens on 868.1 MHz. Each received uplink line triggers a burst schedule aimed at the device's RX1 and RX2 receive windows, chosen by the current spreading factor (SF). Every third detection the SF steps up, and it stops at SF12.
- `LoStik-python/confirmed_uplink_interference.py` holds `LongSleeveJammer`, a stateless handler. Every reception triggers one long SF10 burst and a fresh radio setup.

The radio is a command sink. One call of a line handler is a pure function. It takes the controller state, the inbound line and a clock reading, and gives the next state plus a trace of `Write(cmd)` and `Sleep(ms)` actions. `write_line` becomes `Write`, `send_cmd` becomes `Write` followed by its settle delay when that delay is positive, and `time.sleep` becomes `Sleep`.

Files:

- `text.dfy`, module `Text`: the Python string operations the handlers use. These are `strip()` with Python's exact white-space set, `startswith`, `in`, `replace(pat, "")`, `upper()`, `"F" * n`, and the decimal rendering of an `int`.
- `radio.dfy`, module `Radio`: the directive language and its rendering, and the monitoring setup both scripts send. It also holds a parser for that language, the action traces, the wire stream with its `\r\n` framing, a line reader, and a `Tuning` record of what a trace last set (frequency, SF, bandwidth, power, receiving).
- `resilience_tester.dfy`, module `ResilienceTester`: the controller state `(currentSf, joinCounter)`, line classification, DevEUI extraction, the per-SF profiles held as data, the counter/SF transition, recovery, and runs over many lines.
- `long_sleeve_jammer.dfy`, module `LongSleeveJammer`: the single-profile jammer.

Time is counted in integer milliseconds. Each fixed sleep of the source is exact in milliseconds (4.3 s is 4300 ms). The clock reading `time.time() - start_time`, taken before the RX2 wait, is an input `elapsedMs` of `HandleLine`. It is an arbitrary `int`, because a wall clock can also step backwards.

Three points of the timing and profile logic are easy to misread:

- The RX1 burst follows a fixed sleep of 4.3 / 4.6 / 4.2 s from the moment the handler runs. Only the RX2 wait reads the clock.
- The saturation profile covers every SF other than 7, 8 and 9. Values below 7 are unreachable (`ResilienceTester.SessionBounds`).
- The clock is `time.time()`, which can step backwards, so `elapsedMs` is any `int`.

## Model

| member | source | states |
|---|---|---|
| Text.LeadingSpaces | LoStik-python/lorawan_join_interference.py:43 | `lstrip()` drops exactly the white-space characters at the start: all the counted characters are white space, and the next one, if any, is not |
| Text.TrailingSpaces | LoStik-python/lorawan_join_interference.py:43 | `rstrip()` drops exactly the white-space characters at the end: all the counted characters are white space, and the one before them, if any, is not |
| Text.StripWindowed | LoStik-python/lorawan_join_interference.py:43 | `strip()` gives the window of the line that neither starts nor ends with white space, with only white space around it |
| Text.StripIdempotent | LoStik-python/confirmed_uplink_interference.py:32 | stripping an already stripped line changes nothing |
| Text.Contains | LoStik-python/lorawan_join_interference.py:48 | `p in s` holds exactly when `p` occurs at some position of `s` |
| Text.RemoveAll | LoStik-python/lorawan_join_interference.py:57 | `replace(pat, "")` never lengthens the text, leaves a text without the pattern unchanged, and shortens a text containing a non-empty pattern by at least the pattern's length |
| Text.RemoveFirst | LoStik-python/lorawan_join_interference.py:57 | `replace(pat, "")` keeps everything before the first occurrence, drops that occurrence and continues with the rest: `a + pat + b` with no occurrence starting inside `a` becomes `a` followed by the result for `b` |
| Text.RemoveLeading | LoStik-python/lorawan_join_interference.py:57 | removing the reception marker from `marker + rest`, where the marker does not recur in `rest`, gives exactly `rest` |
| Text.Upper | LoStik-python/lorawan_join_interference.py:62 | `upper()` keeps the length and upper-cases each ASCII letter in place |
| Text.Repeat | LoStik-python/lorawan_join_interference.py:70 | `"F" * n` is n copies of the character |
| Text.NatToString | LoStik-python/lorawan_join_interference.py:36 | the f-string rendering of an SF is a non-empty run of decimal digits without a leading zero |
| Text.ParseNatToString | LoStik-python/lorawan_join_interference.py:124 | reading back the rendered decimal number gives the number |
| Radio.Render | LoStik-python/lorawan_join_interference.py:34-39 | every directive text is printable ASCII, so no line terminator can occur inside it |
| Radio.ParseRender | LoStik-python/lorawan_join_interference.py:34-39 | a line-by-line reader of the directive grammar reads every rendered directive back as that directive |
| Radio.RenderInjective | LoStik-python/lorawan_join_interference.py:123-125 | different directives never produce the same text |
| Radio.WireFacts | LoStik-python/lorawan_join_interference.py:127-132 | `write_line` and `send_cmd` put exactly the directive's text and `\r\n` on the wire; the settle delay adds nothing to it |
| Radio.TraceFacts | LoStik-python/lorawan_join_interference.py:127-132 | `write_line` writes one directive and does not sleep; `send_cmd` writes one directive and sleeps its delay when positive |
| Radio.SendAllCommands | LoStik-python/lorawan_join_interference.py:32-39 | a series of `send_cmd` calls writes exactly the listed directives, in order |
| Radio.SendAllSleep | LoStik-python/lorawan_join_interference.py:127-129 | a series of n `send_cmd` calls with one delay d sleeps n times d |
| Radio.SendAllPaced | LoStik-python/lorawan_join_interference.py:127-129 | with a positive delay d, a series of `send_cmd` calls alternates strictly: directive i is action 2i and a d ms sleep is action 2i + 1 |
| Radio.MonitorSetupTunes | LoStik-python/lorawan_join_interference.py:32-39 | whatever the radio was told before, the setup sequence shared by `full_setup` and `setup_radio` leaves it last told 868100000 Hz, the given SF, 125 kHz and power 14, with `radio rx 0` as the last directive |
| Radio.LinesFrame | LoStik-python/lorawan_join_interference.py:131-132 | a directive written with `\r\n` comes back from a line reader as exactly that directive, followed by whatever came after |
| Radio.StreamLines | LoStik-python/confirmed_uplink_interference.py:55-56 | a line reader recovers from the wire exactly the texts of the trace's directives, in order |
| Radio.DecodeStream | LoStik-python/confirmed_uplink_interference.py:51-56 | reading the wire back gives exactly the trace's directives, and nothing is rejected |
| ResilienceTester.FullSetup | LoStik-python/lorawan_join_interference.py:32-39 | `full_setup` writes `mac pause`, freq 868100000, the current SF, bw 125, pwr 14 and `radio rx 0`, each directly followed by its own 50 ms sleep |
| ResilienceTester.ConnectionMade | LoStik-python/lorawan_join_interference.py:22-30 | bring-up starts at `(current_sf, join_counter) = (7, 0)` and writes `sys reset`, `mac pause`, freq 868100000, sf 7, bw 125, pwr 14, `radio rx 0` in that order |
| ResilienceTester.BringUpText | LoStik-python/lorawan_join_interference.py:27-39 | the bring-up lines are literally `sys reset`, `mac pause`, `radio set freq 868100000`, `radio set sf sf7`, `radio set bw 125`, `radio set pwr 14`, `radio rx 0` |
| ResilienceTester.BringUpMonitors | LoStik-python/lorawan_join_interference.py:22-39 | whatever the radio was told before, bring-up leaves it last told to receive on the monitoring channel at SF7 |
| ResilienceTester.ClassifyCases | LoStik-python/lorawan_join_interference.py:43-50 | on the stripped line: a detection exactly when it is no acknowledgement and has at least 20 characters; a re-arm exactly when it is no acknowledgement, shorter than 20 and contains `radio_err` or `busy`; ignored otherwise |
| ResilienceTester.ShortLineClass | LoStik-python/lorawan_join_interference.py:47-50 | a stripped line shorter than 20 characters is never a detection; it re-arms receive exactly when it is not an acknowledgement and contains `radio_err` or `busy` |
| ResilienceTester.LongErrorIsDetection | LoStik-python/lorawan_join_interference.py:44-54 | a stripped line of 20 or more characters containing `radio_err` (and not a banner) is treated as a detection |
| ResilienceTester.QuietLines | LoStik-python/lorawan_join_interference.py:42-50 | banner, empty, `ok`, `radio_tx_ok` and every other line shorter than 20 characters leave the state unchanged; only the short error reports write anything, and then exactly `radio rx 0` |
| ResilienceTester.ReversePairs | LoStik-python/lorawan_join_interference.py:60-62 | for even length, character i of the result is character i of the mirrored byte pair of the input |
| ResilienceTester.ReversePairsInvolution | LoStik-python/lorawan_join_interference.py:61-62 | reversing the byte-pair order twice gives back the original string |
| ResilienceTester.PayloadFacts | LoStik-python/lorawan_join_interference.py:57 | the payload is never longer than the data; without the reception marker it is the stripped data; with one it is at least ten characters shorter |
| ResilienceTester.ReceptionPayload | LoStik-python/lorawan_join_interference.py:57 | for a reception `radio_rx  <hex>` the payload is the hex text |
| ResilienceTester.DevEui | LoStik-python/lorawan_join_interference.py:43-62 | for the payload of the stripped line: 34 or more characters give 16 characters, the pairs of payload[18:34] in reverse order and upper-cased; a shorter payload gives `UNKNOWN` |
| ResilienceTester.DevEuiRoundTrip | LoStik-python/lorawan_join_interference.py:57-62 | a join request carrying any DevEUI little-endian after the MHDR and JoinEUI is reported as that DevEUI, big-endian and upper-case |
| ResilienceTester.OnlyClassMatters | LoStik-python/lorawan_join_interference.py:57-64 | two lines of the same class give the same state and the same trace, so the DevEUI and the rest of the payload affect neither |
| ResilienceTester.Rx2Wait | LoStik-python/lorawan_join_interference.py:77-78 | the RX2 wait is never negative; before the budget it brings the elapsed time exactly to the budget, and once the budget is spent it is zero |
| ResilienceTester.Advance | LoStik-python/lorawan_join_interference.py:116-119 | a detection counts up; the third one resets the counter and steps the SF by one, but never past 12; valid states stay valid |
| ResilienceTester.HandleLine | LoStik-python/lorawan_join_interference.py:42-125 | lines other than detections keep the state; ignored lines write nothing; error reports write only `radio rx 0`; a detection applies the counter/SF transition; valid states stay valid |
| ResilienceTester.ProfileFor | LoStik-python/lorawan_join_interference.py:67-112 | SF7, SF8 and SF9, and only they, get a windowed schedule, each with at least one RX1 filler and an RX1 delay short of its RX2 budget; every other SF gets saturation with a 4.5 s lead-in, a 200-digit filler and a 2.3 s cool-down |
| ResilienceTester.BurstsFacts | LoStik-python/lorawan_join_interference.py:70-72 | the RX1 bursts write one `radio tx` per filler, in order, with one gap between consecutive fillers |
| ResilienceTester.Rx1PhaseFacts | LoStik-python/lorawan_join_interference.py:67-76 | the RX1 phase writes the fillers and then retunes to 869525000 Hz / SF12, and sleeps the delay, the gaps, the tail and two short settles |
| ResilienceTester.WindowedCommands | LoStik-python/lorawan_join_interference.py:82-92 | a windowed schedule writes its RX1 fillers, the RX2 retune and the RX2 filler, whatever the clock reads |
| ResilienceTester.SaturationCommands | LoStik-python/lorawan_join_interference.py:107-112 | the saturation schedule writes only `radio set sf sf12` and one 200-digit filler, with no frequency change |
| ResilienceTester.InterferenceCommands | LoStik-python/lorawan_join_interference.py:67-112 | the directives of each SF's schedule match the table: SF7 400,400 then retune then 20; SF8 500 then retune then 50; SF9 510,510 then retune then 250; otherwise SF12 then 200 |
| ResilienceTester.Recovery | LoStik-python/lorawan_join_interference.py:115-125 | recovery writes freq 868100000, the post-transition SF and `radio rx 0`, sleeps 100 + 2 x 10 ms in all, and ends with the `radio rx 0` write, with no sleep after it |
| ResilienceTester.BurstShape | LoStik-python/lorawan_join_interference.py:66-125 | a detection writes the schedule of the SF before the transition, then the recovery at the SF after it |
| ResilienceTester.RecoveryTail | LoStik-python/lorawan_join_interference.py:122-125 | every detection trace ends with `radio set freq 868100000`, `radio set sf sf<new SF>`, `radio rx 0` |
| ResilienceTester.Rx2BurstTiming | LoStik-python/lorawan_join_interference.py:74-80 | in the SF7/8/9 schedules the RX2 burst is written after the RX1 phase's sleeps plus the clamped RX2 wait |
| ResilienceTester.Rx1PhaseWithinBudget | LoStik-python/lorawan_join_interference.py:94-103 | for SF7, SF8 and SF9 the sleeps before the RX2 wait fall short of the 5920 / 5950 / 5900 ms budget |
| ResilienceTester.Rx2OnIdealClock | LoStik-python/lorawan_join_interference.py:77-80 | on a clock that counts only the sleeps, the RX2 burst is written exactly 5920 / 5950 / 5900 ms after detection for SF7 / 8 / 9 |
| ResilienceTester.LateDeadlineNoWait | LoStik-python/lorawan_join_interference.py:102-103 | once the clock reads the budget or later, no wait precedes the RX2 burst |
| ResilienceTester.DetectionMonitors | LoStik-python/lorawan_join_interference.py:114-125 | from a radio last told to receive on 868100000 Hz at the controller's SF, any SF's burst table followed by the recovery at a new SF leaves it last told to receive on 868100000 Hz at the new SF, with bandwidth 125 and power 14 intact |
| ResilienceTester.HandleLineMonitors | LoStik-python/lorawan_join_interference.py:42-125 | if the radio was last told to receive on the monitoring channel at the controller's SF, then after any line it was last told to receive there at the new SF |
| ResilienceTester.AdvanceThenDetections | LoStik-python/lorawan_join_interference.py:116-119 | one transition followed by n detections equals n + 1 detections in closed form |
| ResilienceTester.RunCountsDetections | LoStik-python/lorawan_join_interference.py:116-119 | over any run only detections move the state: after n detections the SF has stepped (counter + n) div 3 times, capped at 12, and the counter is (counter + n) mod 3 |
| ResilienceTester.SessionBounds | LoStik-python/lorawan_join_interference.py:24-25 | from bring-up on, after any sequence of lines, 7 <= current_sf <= 12 and 0 <= join_counter <= 2 |
| ResilienceTester.ThreeDetections | LoStik-python/lorawan_join_interference.py:116-119 | three detections from (sf, 0) give (sf + 1, 0) below 12 and (12, 0) at 12 |
| ResilienceTester.RunMonitors | LoStik-python/lorawan_join_interference.py:122-125 | after any run the radio was last told to receive on the monitoring channel at the controller's current SF |
| LongSleeveJammer.SetupRadio | LoStik-python/confirmed_uplink_interference.py:23-29 | `setup_radio` writes exactly `mac pause`, freq 868100000, sf 7, bw 125, pwr 14, `radio rx 0`, each directly followed by its own 50 ms sleep, 300 ms in all |
| LongSleeveJammer.ConnectionMade | LoStik-python/confirmed_uplink_interference.py:16-21 | bring-up writes `sys reset` and then the setup sequence |
| LongSleeveJammer.TriggerAfterSpaces | LoStik-python/confirmed_uplink_interference.py:32-34 | a line is a trigger exactly when `radio_rx` follows directly after its leading white space |
| LongSleeveJammer.Jam | LoStik-python/confirmed_uplink_interference.py:42-46 | the burst writes `radio set sf sf10` and one 200-digit filler, and sleeps 10 ms plus the 2.5 s cool-down |
| LongSleeveJammer.HandleLine | LoStik-python/confirmed_uplink_interference.py:31-49 | a line writes anything exactly when, stripped, it starts with `radio_rx`; a trigger writes SF10, a 200-digit filler, then the setup sequence |
| LongSleeveJammer.SetupText | LoStik-python/confirmed_uplink_interference.py:23-29 | the setup lines are literally `mac pause`, `radio set freq 868100000`, `radio set sf sf7`, `radio set bw 125`, `radio set pwr 14`, `radio rx 0` |
| LongSleeveJammer.TriggerText | LoStik-python/confirmed_uplink_interference.py:42-49 | a trigger writes eight lines: `radio set sf sf10`, `radio tx` followed by 200 `F`s, then exactly the lines of `setup_radio`, ending with `radio rx 0` |
| LongSleeveJammer.BringUpListens | LoStik-python/confirmed_uplink_interference.py:16-29 | whatever the radio was told before, bring-up leaves it last told to receive on the monitoring channel at SF7 |
| LongSleeveJammer.TriggerReturnsToListening | LoStik-python/confirmed_uplink_interference.py:42-49 | after any trigger the last directive is `radio rx 0` and the radio was last told 868100000 Hz, SF7, 125 kHz and power 14 |
| LongSleeveJammer.RunEachAppend | LoStik-python/confirmed_uplink_interference.py:31-49 | a handler that keeps no state between lines produces, for lines `a + b`, the trace for `a` followed by the trace for `b` |
| LongSleeveJammer.Stateless | LoStik-python/confirmed_uplink_interference.py:15-49 | the trace of a run is the concatenation of the traces of its parts |
| LongSleeveJammer.LastLine | LoStik-python/confirmed_uplink_interference.py:31-49 | the reaction to a line is the same whatever lines came before it |

## Left out

- Serial-port opening, the `ReaderThread`/`LineReader` threading and the `KeyboardInterrupt` idle loops (`lorawan_join_interference.py:134-143`, `confirmed_uplink_interference.py:58-64`) are I/O and concurrency plumbing. `ResilienceTester.Run` and `LongSleeveJammer.Run` handle lines strictly one after another, each to completion.
- `argparse`, `print` and the `get_ms` timestamps are presentation only. The DevEUI is computed (`ResilienceTester.DevEui`), but it is only logged.
- Real time is out of scope. `time.sleep` is a `Sleep(ms)` action, and the reading of `time.time()` is the `elapsedMs` input. Nothing ties that input to the sleeps actually taken, except the ideal-clock case of `ResilienceTester.Rx2OnIdealClock`.
- The byte encoding done by `transport.write(....encode())` is left out: `Radio.Stream` stops at characters. Every directive is printable ASCII (`Radio.Render`), so encoding maps one character to one byte.
- Physical-layer behaviour is out of scope: whether a burst lands in RX1 or RX2, and the module's own replies to directives. `Radio.Tuning` records only what the trace last set.
- Keystream construction and decryption (`GNU Radio/decode.py`) are not part of this model.
- Text.Upper: only ASCII letters are upper-cased. Python's `upper()` also maps other letters and can change the length of a string (for example `ß` becomes `SS`). The only text upper-cased here is a DevEUI slice.
- ResilienceTester.State: `current_sf` and `join_counter` are `nat`, not Python `int`. Negative values are unreachable from `connection_made`.
- Radio.Command: `SetPwr` carries a `nat`. The RN2483 accepts negative powers, but the scripts only ever send 14.
- Radio.ParseCommand reads only the directive forms these scripts write. It is not the module's full command grammar.
