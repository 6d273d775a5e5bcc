# Provisioning and access control of the MTG scanner firmware

The ESP32 firmware of the card scanner boots into a setup mode. It broadcasts
its own access point, protected by a random 8-symbol password. It serves a
form where the operator submits home-network credentials, authorised by a
random 12-symbol device token. After a successful join it leaves setup mode.
In both modes the stepper motor can be run over HTTP with the device token. The setup window lasts ten minutes, measured with the wrap-around
32-bit `millis()` clock. Once three submissions have been accepted, further
submissions are throttled.

The model has five modules:

- `Clock`: unsigned 32-bit time (`Millis`, `Sub` = `unsigned long`
  subtraction), the constants `SETUP_TIMEOUT`, `RETRY_WINDOW` and
  `MAX_CONNECT_ATTEMPTS`, and the countdown arithmetic of the setup page.
- `Secrets`: the 36-symbol alphabet. `generateRandomPassword` is a method
  with its counted loop, specified by `Spell`. `generateDeviceToken` is a
  second method. The random source is a sequence of `Draw`s, each an index
  in `[0, 36)`.
- `Access`: `isValidToken`, and the stepper handler's mode-dependent
  policy.
- `Provisioning`: a `Device` record, with one field per global of the
  firmware plus a stepper-run counter and a restart flag. Each handler
  (`handleConnect`, `connectToWiFi`, `checkSetupTimeout`, `handleRoot`,
  `handleRunStepper`, `handleReset`) is a pure function from `Device` to the
  new `Device` and its HTTP status. Lemmas state what each handler promises.
  `Inv` is the invariant of every reachable state.
- `Traces`: runs of requests over the registered routes. A restart ends a
  run. Lemmas cover the whole run: secrets fixed, attempt count monotone,
  spacing of accepted submissions, nothing changes without the token, and
  one stepper run per authorised request.
- `Firmware`: class `Scanner`, whose fields are the globals of
  `scanner.cpp`. Its methods update those fields in place as the C++
  handlers do. Each method's `ensures` equates the new state and the reply
  with the pure handler of `Provisioning`, and keeps `Valid()`.
  `PollJoin` is the 30-poll wait loop of `connectToWiFi`.

Inputs that the firmware reads from hardware become parameters:

- the time `now` of a request;
- the values `random()` returns (`draws`);
- every status reading the radio gives during a join, in order (`polls`,
  where a missing reading means "not connected"): the wait loop's tests
  and the fresh read after the loop;
- both readings of `millis()` in `handleRoot` (`now` for the deadline
  check, `later` for the countdown);
- the request arguments `token`, `ssid` and `password`.

In these respects the code does not do what a rolling-window limiter, or
its own comments, suggest, and the model follows the code:

- The attempt counter is never reset, and there is no rolling window. Once
  three submissions have been accepted, every later one must come at least
  10 s after the previous accepted one (`RunSpaced`, `BootSpacing`).
- Only accepted submissions are counted. A 401 or 400 reply counts nothing
  (`RejectedNotCounted`). The 429 page says "Wait 10 seconds"
  (scanner.cpp:214), but waiting only helps against the last accepted
  submission, and the ceiling of three stays reached for the whole boot.
- The setup deadline is checked only when the root page is served. A
  submission with the token is still accepted after the deadline if no root
  request came in between (`LateSubmissionAccepted`).
- The deadline comparison is strict (`> 600000`) and uses modulo-2^32
  arithmetic, so expiry is not monotone over real time: the window
  re-opens after 2^32 ms (about 49.7 days) without a root request, and a
  root request 2^32 + 1000 ms after boot serves the setup page with 9:59
  left (`ExpiryReopens`).
- After a failed join `apMode` keeps its value; there is no intermediate
  connecting state. The comment "Return to AP mode after failure"
  (scanner.cpp:163) is followed by a re-broadcast of the access point, but
  `apMode` is never set back, and the setup window keeps its original start.
- `handleConnect` does not look at `apMode`, so submissions are accepted
  in the operational mode too.
- `handleReset` checks no token, and no route is registered for it.

## Model

| member | source | states |
|---|---|---|
| `Clock.RemainingSeconds` | esp32_code/scanner/scanner.cpp:189 | the remaining-time formula in `unsigned long`; specified by `RemainingWithinWindow`, `RemainingMonotone`, `RemainingWrapsPastDeadline` |
| `Access.IsValidToken` | esp32_code/scanner/scanner.cpp:76-78 | `isValidToken`; specified by `IsValidTokenIff` |
| `Access.StepperAuthorized` | esp32_code/scanner/scanner.cpp:295-301 | the mode-dependent check of `handleRunStepper`; specified by `StepperAuthorizedIsValidToken`, `StepperPolicyDiffersOnEmptyToken` |
| `Provisioning.Boot` | esp32_code/scanner/scanner.cpp:335-339 | the globals after `setup()`; specified by `BootInv` and the `Scanner` constructor |
| `Provisioning.SetupExpired` | esp32_code/scanner/scanner.cpp:84 | the condition of `checkSetupTimeout`; specified by `CheckSetupTimeoutSpec`, `RootRestartsIffExpired` |
| `Provisioning.CheckSetupTimeout` | esp32_code/scanner/scanner.cpp:83-91 | `checkSetupTimeout` on the state; specified by `CheckSetupTimeoutSpec` |
| `Provisioning.LoopExit` | esp32_code/scanner/scanner.cpp:133-138 | the value of `attempts` when the wait loop stops: at most 30, no connected test before it, a connected test at it unless it is 30 |
| `Provisioning.JoinSucceeds` | esp32_code/scanner/scanner.cpp:133-140 | the join outcome: the status read after the loop; specified by `PollJoin`, `JoinReadsStatusAgain` |
| `Provisioning.JoinReadsStatusAgain` | esp32_code/scanner/scanner.cpp:134-140 | readings `[true, false]` fail and 31 unconnected readings followed by a connected one succeed: the read after the loop decides |
| `Provisioning.ConnectToWiFi` | esp32_code/scanner/scanner.cpp:121-171 | the state effects of `connectToWiFi`; specified by `ConnectToWiFiSpec` |
| `Provisioning.RateLimited` | esp32_code/scanner/scanner.cpp:213 | the rate-limit condition; specified by `RateLimitFirst`, `AcceptedSpacing` |
| `Provisioning.HandleConnect` | esp32_code/scanner/scanner.cpp:211-239 | `handleConnect`; specified by `RateLimitFirst`, `RejectedNotCounted`, `AcceptedSubmission`, `AcceptedSpacing` |
| `Provisioning.HandleRoot` | esp32_code/scanner/scanner.cpp:174-209 | `handleRoot`'s state effect and page; specified by `SetupPageCountdown`, `SameReadingCountdown`, `RootRestartsIffExpired` |
| `Provisioning.HandleRunStepper` | esp32_code/scanner/scanner.cpp:285-316 | `handleRunStepper`; specified by `RunStepperSpec`, `RepeatedStepper` |
| `Provisioning.HandleReset` | esp32_code/scanner/scanner.cpp:276-282 | `handleReset`: the whole new state is setup mode on, disconnected, restart requested, reply 200, everything else unchanged; `Scanner.HandleReset` performs it in place and keeps `Valid()` |
| `Clock.Sub` | esp32_code/scanner/scanner.cpp:84 | the unsigned difference `a - b` is the `Millis` value that, added to `b` modulo 2^32, gives `a`; it is `a - b` without wrap and `2^32 + a - b` with wrap |
| `Clock.SubUnique` | esp32_code/scanner/scanner.cpp:84 | no other 32-bit value added to `b` gives `a`, so `Sub` is the wrap-around difference |
| `Clock.SubElapsed` | esp32_code/scanner/scanner.cpp:84 | a reading taken `e` real ms after `start` differs from it by `e` modulo 2^32 |
| `Clock.RemainingWithinWindow` | esp32_code/scanner/scanner.cpp:189 | while at most ten minutes have passed, the remaining-seconds formula gives the whole seconds left of the window, at most 600 |
| `Clock.RemainingMonotone` | esp32_code/scanner/scanner.cpp:189 | inside the window the countdown never increases as the elapsed time grows |
| `Clock.RemainingWrapsPastDeadline` | esp32_code/scanner/scanner.cpp:189 | past the deadline the subtraction wraps and the formula yields `(2^32 + 600000 - elapsed) / 1000`, at least 600 s |
| `Clock.Countdown` | esp32_code/scanner/scanner.cpp:190 | the displayed minutes and seconds satisfy `seconds < 60` and `minutes * 60 + seconds` is the remaining time |
| `Secrets.Spell` | esp32_code/scanner/scanner.cpp:63-70 | the secret built from draws has one symbol per draw, the `k`-th being `ALPHABET[draws[k]]`, so every symbol is in the 36-symbol alphabet |
| `Secrets.GenerateRandomPassword` | esp32_code/scanner/scanner.cpp:63-70 | the loop returns exactly `max(length, 0)` symbols, each the alphabet symbol of the corresponding draw |
| `Secrets.GenerateDeviceToken` | esp32_code/scanner/scanner.cpp:72-74 | the device token has exactly 12 alphabet symbols, spelled by the first 12 draws |
| `Secrets.SpellAppend` | esp32_code/scanner/scanner.cpp:336-338 | the symbols drawn for the password and then for the token together spell the concatenation of the two |
| `Access.IsValidTokenIff` | esp32_code/scanner/scanner.cpp:76-78 | a token is valid iff the device token is non-empty and equal to it; the empty token is always rejected |
| `Access.StepperAuthorizedIsValidToken` | esp32_code/scanner/scanner.cpp:295-301 | with a non-empty device token, the stepper policy of both modes coincides with `isValidToken` |
| `Access.StepperPolicyDiffersOnEmptyToken` | esp32_code/scanner/scanner.cpp:297-300 | for all inputs, the stepper policy and `isValidToken` disagree exactly when the empty token is presented outside setup mode to an empty device token |
| `Provisioning.BootInv` | esp32_code/scanner/scanner.cpp:35-53 | the boot state with an 8-symbol password and 12-symbol token satisfies the invariant of `setup()`'s globals |
| `Provisioning.CheckSetupTimeoutSpec` | esp32_code/scanner/scanner.cpp:83-91 | a restart is requested iff in setup mode more than 600000 ms have passed (mod 2^32); never outside setup mode, not at exactly 600000 ms; nothing else changes |
| `Provisioning.ExpiryReopens` | esp32_code/scanner/scanner.cpp:83-91 | `e` real ms after the window opened, the deadline holds iff in setup mode and `e` mod 2^32 > 600000; so it holds at 600001 ms, no longer at 2^32 + 1000 ms, where a root request serves the setup page with 9:59 left |
| `Provisioning.ConnectToWiFiSpec` | esp32_code/scanner/scanner.cpp:121-171 | empty SSID: no change; join succeeds: connected, setup mode off, setup complete; join fails: not connected, `apMode` unchanged |
| `Provisioning.RateLimitFirst` | esp32_code/scanner/scanner.cpp:212-216 | with three or more accepted and under 10 s since the last, the reply is 429 and no field changes, whatever the token or SSID |
| `Provisioning.RejectedNotCounted` | esp32_code/scanner/scanner.cpp:218-231 | a bad token gives 401 and changes nothing; an empty SSID gives 400, stores the submitted credentials and leaves count and stamp alone |
| `Provisioning.AcceptedSubmission` | esp32_code/scanner/scanner.cpp:211-239 | the reply is 200 iff rate limit, token and non-empty SSID all pass; then the count rises by one, the stamp becomes `now` and the join runs with the submitted credentials; the count never decreases |
| `Provisioning.AcceptedSpacing` | esp32_code/scanner/scanner.cpp:213-234 | once three have been accepted, an accepted submission comes at least 10000 ms (mod 2^32) after the previous accepted one |
| `Provisioning.SetupPageCountdown` | esp32_code/scanner/scanner.cpp:174-190 | when the countdown's reading of `millis()` is inside the window, the page shows at most 10:00, within one second of the time left |
| `Provisioning.SameReadingCountdown` | esp32_code/scanner/scanner.cpp:174-190 | when both readings of `millis()` agree, the deadline check keeps every countdown shown at most 10:00 |
| `Provisioning.CountdownStraddlesDeadline` | esp32_code/scanner/scanner.cpp:84-189 | with readings 600000 then 600001 ms after boot there is no restart and the page shows 71582:47 |
| `Provisioning.RootRestartsIffExpired` | esp32_code/scanner/scanner.cpp:174-176 | a root request restarts the device iff it is in setup mode with the window run out at the first reading of `millis()` |
| `Provisioning.RunStepperSpec` | esp32_code/scanner/scanner.cpp:285-316 | the stepper runs once and the reply is 200 iff the token is valid; any other request gets 401 and changes nothing |
| `Traces.StepInv` | esp32_code/scanner/scanner.cpp:211-316 | every handled request keeps the invariant: 12-symbol token, 8-symbol password, connected only outside setup mode, outside setup mode only after a completed setup, completed setup only after an accepted submission |
| `Traces.StepKeepsSecrets` | esp32_code/scanner/scanner.cpp:211-316 | no request changes the device token, the setup password, the window start or `wifiConfigured` |
| `Traces.StepCounts` | esp32_code/scanner/scanner.cpp:233-234 | a request increments the attempt count, and stamps it with its time, exactly when it is an accepted submission |
| `Traces.StepWithoutToken` | esp32_code/scanner/scanner.cpp:218-223 | a request whose token is not the device token changes at most the restart flag |
| `Traces.RunInv` | esp32_code/scanner/scanner.cpp:211-316 | the invariant holds after any run of requests |
| `Traces.RunKeepsSecrets` | esp32_code/scanner/scanner.cpp:337-339 | token, setup password and window start keep their boot values for the whole boot cycle |
| `Traces.RunCountsAccepted` | esp32_code/scanner/scanner.cpp:233-234 | the attempt count after a run is the starting count plus the number of accepted submissions, and the last of them stamps it; it never decreases |
| `Traces.RunSpaced` | esp32_code/scanner/scanner.cpp:211-234 | in any run, each submission accepted while three or more were already accepted is at least 10 s after the previous accepted one |
| `Traces.BootSpacing` | esp32_code/scanner/scanner.cpp:213-234 | from boot, the fourth and every later accepted submission is at least 10 s after the one before it |
| `Traces.RunWithoutToken` | esp32_code/scanner/scanner.cpp:218-306 | requests all lacking the device token store no credentials, count nothing, change no mode and run no stepper |
| `Traces.RepeatedStepper` | esp32_code/scanner/scanner.cpp:303-315 | `n` stepper requests with the device token run the stepper exactly `n` times and change nothing else |
| `Traces.JoinScenario` | esp32_code/scanner/scanner.cpp:211-239 | boot, then a submission with the token and SSID "Home" whose join succeeds: 200, setup mode off, connected |
| `Traces.FourthSubmissionLimited` | esp32_code/scanner/scanner.cpp:211-238 | three accepted submissions, then a fourth within 10 s of the third gets 429 whatever it carries and changes nothing |
| `Traces.LateSubmissionAccepted` | esp32_code/scanner/scanner.cpp:211-239 | a submission with the token an hour after boot is still accepted although the window has expired |
| `Firmware.PollJoin` | esp32_code/scanner/scanner.cpp:133-140 | the wait loop stops at the first connected test or after 30 polls (`attempts == LoopExit(polls, 0)`), and the join succeeds iff the fresh status read after the loop, reading `attempts + 1`, is connected; at most 32 readings |
| `Firmware.Scanner.constructor` | esp32_code/scanner/scanner.cpp:335-339 | `setup()`: password from the first 8 draws, token from the next 12, so the 20 draws spell password followed by token; window opened at `now`, setup mode, invariant established |
| `Firmware.Scanner.CheckSetupTimeout` | esp32_code/scanner/scanner.cpp:83-91 | updates the fields as `Provisioning.CheckSetupTimeout`; returns whether it restarted |
| `Firmware.Scanner.ConnectToWiFi` | esp32_code/scanner/scanner.cpp:121-171 | updates the fields as `Provisioning.ConnectToWiFi`, with the outcome of the fresh status read after the polling loop |
| `Firmware.Scanner.HandleConnect` | esp32_code/scanner/scanner.cpp:211-239 | new fields and reply are those of `Provisioning.HandleConnect`; invariant kept |
| `Firmware.Scanner.HandleRoot` | esp32_code/scanner/scanner.cpp:174-209 | new fields and page are those of `Provisioning.HandleRoot`; invariant kept |
| `Firmware.Scanner.HandleRunStepper` | esp32_code/scanner/scanner.cpp:285-316 | new fields and reply are those of `Provisioning.HandleRunStepper`; invariant kept |
| `Firmware.Scanner.HandleReset` | esp32_code/scanner/scanner.cpp:276-282 | setup mode on, disconnected, restart requested, reply 200 |

## Left out

- OLED output (`oledPrint` and every display call): pure I/O.
- Stepper motion (`runStepper`'s step loop, AccelStepper): foreign hardware.
  Only a counter of runs is kept.
- WiFi, DNS and web-server libraries: the join outcome, the request
  arguments and the time are parameters. Reply bodies, `server.method()`
  (it only changes the reply text) and the `softAP` re-broadcast after a
  failed join are not modelled.
- HTML building in `handleRoot` and `handleScan`. `handleScan` needs
  `WiFi.scanNetworks`.
- Captive-portal routing: the host-header redirect of `handleCaptivePortal`
  and `handleNotFound`. A root event stands for a request from the portal
  host.
- `loop()`: DNS processing, button polling and debouncing. Button-triggered
  stepper runs are hardware I/O, so `stepperRuns` counts HTTP runs only.
- The entropy source (`randomSeed(analogRead(0) + millis())`, `random()`):
  replaced by the sequence of drawn indices. Uniformity is not modelled.
- Serial logging. `ESP.restart()` is modelled as a terminal `restarted` flag.
- `delay()` calls and the duration of the join: the clock does not advance
  during a join. The second `millis()` read in `handleConnect`
  (scanner.cpp:234, the stamp) is taken to return the same `now` as the
  rate-limit read at scanner.cpp:213.
- `AP_TIMEOUT`: declared, never used.
- `connectAttempts` is an unbounded `nat`. The C++ `int` would overflow only
  after more than 2^31 accepted submissions.
