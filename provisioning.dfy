/** The provisioning state of the scanner and, as pure functions, what each
    request handler does to it. `Device` has one field per global of the
    firmware, plus two observation fields: how often the stepper ran and
    whether a restart was requested (a restart never returns). */
module Provisioning {
  import opened Clock
  import opened Secrets
  import opened Access

  datatype Device = Device(
    wifiSSID: string,
    wifiPassword: string,
    wifiConfigured: bool,
    wifiConnected: bool,
    apMode: bool,
    apPassword: string,
    deviceToken: string,
    apStartTime: Millis,
    setupComplete: bool,
    lastConnectAttempt: Millis,
    connectAttempts: nat,
    stepperRuns: nat,
    restarted: bool)

  /** HTTP status of a handler's reply. */
  datatype Status = Ok | BadRequest | Unauthorized | TooManyRequests
  {
    function Code(): int
    {
      match this
      case Ok => 200
      case BadRequest => 400
      case Unauthorized => 401
      case TooManyRequests => 429
    }
  }

  /** What `handleRoot` serves: the setup page with its countdown, the
      connected-status page, or nothing because the device is restarting. */
  datatype RootPage = SetupPage(minutes: nat, seconds: nat) | StatusPage | Rebooting

  /** The state right after `setup()`: secrets issued, setup mode, window started at `now`. */
  function Boot(apPassword: string, deviceToken: string, now: Millis): Device
  {
    Device("", "", false, false, true, apPassword, deviceToken, now, false, 0, 0, 0, false)
  }

  /** What holds in every state the handlers can reach from boot. */
  predicate Inv(d: Device)
  {
    && |d.deviceToken| == TOKEN_LENGTH && IsSecret(d.deviceToken)
    && |d.apPassword| == AP_PASSWORD_LENGTH && IsSecret(d.apPassword)
    && !d.wifiConfigured
    && (d.wifiConnected ==> !d.apMode)
    && (!d.apMode ==> d.setupComplete)
    && (d.setupComplete ==> d.connectAttempts >= 1)
    && (!d.restarted ==> d.setupComplete ==> !d.apMode)
  }

  lemma BootInv(apPassword: string, deviceToken: string, now: Millis)
    requires |apPassword| == AP_PASSWORD_LENGTH && IsSecret(apPassword)
    requires |deviceToken| == TOKEN_LENGTH && IsSecret(deviceToken)
    ensures Inv(Boot(apPassword, deviceToken, now))
  {
  }

  // ---- Setup deadline -------------------------------------------------------

  /** `checkSetupTimeout`'s condition: in setup mode, strictly more than ten
      minutes (in unsigned 32-bit time) since the window opened. */
  predicate SetupExpired(d: Device, now: Millis)
  {
    d.apMode && Sub(now, d.apStartTime) > SETUP_TIMEOUT
  }

  function CheckSetupTimeout(d: Device, now: Millis): (d': Device)
  {
    if SetupExpired(d, now) then d.(restarted := true) else d
  }

  lemma CheckSetupTimeoutSpec(d: Device, now: Millis)
    ensures CheckSetupTimeout(d, now).restarted <==> d.restarted || (d.apMode && Sub(now, d.apStartTime) > SETUP_TIMEOUT)
    ensures CheckSetupTimeout(d, now).(restarted := d.restarted) == d
    ensures !d.apMode ==> CheckSetupTimeout(d, now) == d
    ensures Sub(now, d.apStartTime) == SETUP_TIMEOUT ==> CheckSetupTimeout(d, now) == d
  {
  }

  /** Over real elapsed time the deadline is not monotone: it holds `elapsed`
      ms after the window opened iff `elapsed` modulo 2^32 exceeds ten
      minutes, so without a root request for 2^32 ms (about 49.7 days) the
      window opens again, and a root request then serves the setup page. */
  lemma ExpiryReopens(d: Device, elapsed: nat)
    ensures SetupExpired(d, (d.apStartTime + elapsed) % TWO_32)
      <==> d.apMode && elapsed % TWO_32 > SETUP_TIMEOUT
    ensures d.apMode ==> SetupExpired(d, (d.apStartTime + SETUP_TIMEOUT + 1) % TWO_32)
    ensures !SetupExpired(d, (d.apStartTime + TWO_32 + 1000) % TWO_32)
    ensures var now := (d.apStartTime + TWO_32 + 1000) % TWO_32;
      d.apMode ==> HandleRoot(d, now, now).1 == SetupPage(9, 59)
  {
    SubElapsed(d.apStartTime, elapsed);
    SubElapsed(d.apStartTime, SETUP_TIMEOUT + 1);
    SubElapsed(d.apStartTime, TWO_32 + 1000);
  }

  // ---- Joining the network --------------------------------------------------

  /** Number of status polls `connectToWiFi` makes before it gives up. */
  const MAX_JOIN_POLLS: nat := 30

  /** The `k`-th reading of `WiFi.status() == WL_CONNECTED`, counting every
      read the join makes; a reading past the end of `polls` counts as not
      connected. */
  predicate PolledConnected(polls: seq<bool>, k: nat)
  {
    k < |polls| && polls[k]
  }

  /** The value of `attempts` when the wait loop stops, searching from
      reading `k`: the first connected reading, or 30 if none of the readings
      up to 29 is connected (reading 30 is then still taken by the loop test). */
  function LoopExit(polls: seq<bool>, k: nat): (r: nat)
    requires k <= MAX_JOIN_POLLS
    ensures k <= r <= MAX_JOIN_POLLS
    ensures forall j :: k <= j < r ==> !PolledConnected(polls, j)
    ensures r < MAX_JOIN_POLLS ==> PolledConnected(polls, r)
    decreases MAX_JOIN_POLLS - k
  {
    if k == MAX_JOIN_POLLS || PolledConnected(polls, k) then k else LoopExit(polls, k + 1)
  }

  /** The join succeeds when the fresh status read after the loop, the one
      following the loop's last test, reports connected. */
  predicate JoinSucceeds(polls: seq<bool>)
  {
    PolledConnected(polls, LoopExit(polls, 0) + 1)
  }

  /** The outcome is decided by the read after the loop, not by the reading
      that ended it: a connection that drops fails, a late one succeeds. */
  lemma JoinReadsStatusAgain()
    ensures !JoinSucceeds([true, false])
    ensures JoinSucceeds(seq(MAX_JOIN_POLLS + 1, _ => false) + [true])
  {
    var late := seq(MAX_JOIN_POLLS + 1, _ => false) + [true];
    assert LoopExit(late, 0) == MAX_JOIN_POLLS;
  }

  /** `connectToWiFi` without the radio: the outcome of the join is `joined`. */
  function ConnectToWiFi(d: Device, joined: bool): (d': Device)
  {
    if d.wifiSSID == "" then d
    else if joined then d.(wifiConnected := true, apMode := false, setupComplete := true)
    else d.(wifiConnected := false)
  }

  lemma ConnectToWiFiSpec(d: Device, joined: bool)
    ensures d.wifiSSID == "" ==> ConnectToWiFi(d, joined) == d
    ensures d.wifiSSID != "" && joined ==>
      ConnectToWiFi(d, joined) == d.(wifiConnected := true, apMode := false, setupComplete := true)
    ensures d.wifiSSID != "" && !joined ==>
      ConnectToWiFi(d, joined) == d.(wifiConnected := false)
    ensures ConnectToWiFi(d, joined).apMode == (d.apMode && !(d.wifiSSID != "" && joined))
  {
  }

  // ---- Credential submission ------------------------------------------------

  /** The rate limit of `handleConnect`: less than 10 s since the last accepted
      submission (unsigned 32-bit time) and at least three accepted so far. */
  predicate RateLimited(d: Device, now: Millis)
  {
    Sub(now, d.lastConnectAttempt) < RETRY_WINDOW && d.connectAttempts >= MAX_CONNECT_ATTEMPTS
  }

  /** `handleConnect`: rate limit, then token, then non-empty SSID; only a
      submission that passes all three is counted, answered 200 and joined. */
  function HandleConnect(d: Device, token: string, ssid: string, password: string,
                         now: Millis, joined: bool): (Device, Status)
  {
    if RateLimited(d, now) then (d, TooManyRequests)
    else if !IsValidToken(token, d.deviceToken) then (d, Unauthorized)
    else
      var stored := d.(wifiSSID := ssid, wifiPassword := password);
      if ssid == "" then (stored, BadRequest)
      else
        var counted := stored.(connectAttempts := d.connectAttempts + 1, lastConnectAttempt := now);
        (ConnectToWiFi(counted, joined), Ok)
  }

  /** The rate limit comes first: a limited submission is answered 429 and
      changes nothing, whatever token, SSID or password it carries. */
  lemma RateLimitFirst(d: Device, token: string, ssid: string, password: string,
                       now: Millis, joined: bool)
    requires d.connectAttempts >= MAX_CONNECT_ATTEMPTS && Sub(now, d.lastConnectAttempt) < RETRY_WINDOW
    ensures HandleConnect(d, token, ssid, password, now, joined) == (d, TooManyRequests)
  {
  }

  /** A bad token is answered 401 and changes nothing; an empty SSID is
      answered 400, overwrites the stored credentials and counts nothing. */
  lemma RejectedNotCounted(d: Device, token: string, ssid: string, password: string,
                           now: Millis, joined: bool)
    requires !RateLimited(d, now)
    ensures !IsValidToken(token, d.deviceToken) ==>
      HandleConnect(d, token, ssid, password, now, joined) == (d, Unauthorized)
    ensures IsValidToken(token, d.deviceToken) && ssid == "" ==>
      HandleConnect(d, token, ssid, password, now, joined) ==
        (d.(wifiSSID := "", wifiPassword := password), BadRequest)
  {
  }

  /** The answer is 200 exactly when all three checks pass, and then the
      attempt is counted once, stamped with `now`, and the join is made with
      the submitted credentials. Otherwise the count and stamp stay. */
  lemma AcceptedSubmission(d: Device, token: string, ssid: string, password: string,
                           now: Millis, joined: bool)
    ensures var (d', status) := HandleConnect(d, token, ssid, password, now, joined);
      && (status == Ok <==> !RateLimited(d, now) && IsValidToken(token, d.deviceToken) && ssid != "")
      && (status == Ok ==>
            d' == ConnectToWiFi(d.(wifiSSID := ssid, wifiPassword := password,
                                   connectAttempts := d.connectAttempts + 1,
                                   lastConnectAttempt := now), joined))
      && (status != Ok ==> d'.connectAttempts == d.connectAttempts && d'.lastConnectAttempt == d.lastConnectAttempt)
      && d'.connectAttempts >= d.connectAttempts
  {
  }

  /** Once three submissions have been accepted, a further one is accepted
      only at least 10 s (in unsigned 32-bit time) after the previous one. */
  lemma AcceptedSpacing(d: Device, token: string, ssid: string, password: string,
                        now: Millis, joined: bool)
    requires d.connectAttempts >= MAX_CONNECT_ATTEMPTS
    requires HandleConnect(d, token, ssid, password, now, joined).1 == Ok
    ensures Sub(now, d.lastConnectAttempt) >= RETRY_WINDOW
  {
  }

  // ---- Root page --------------------------------------------------------------

  /** `handleRoot`: first the setup deadline, checked with the reading `now`
      of `millis()`; if the device does not restart, the setup page in setup
      mode, whose `m:s` countdown is computed from a second reading `later`,
      else the status page. */
  function HandleRoot(d: Device, now: Millis, later: Millis): (Device, RootPage)
  {
    var d' := CheckSetupTimeout(d, now);
    if SetupExpired(d, now) then (d', Rebooting)
    else if d.apMode then
      var ms := Countdown(RemainingSeconds(later, d.apStartTime));
      (d', SetupPage(ms.0, ms.1))
    else (d', StatusPage)
  }

  /** When the countdown's reading is still inside the window, the page shows
      at most 10:00, minutes * 60 + seconds whole seconds, within one second
      of what is left of the window. */
  lemma SetupPageCountdown(d: Device, now: Millis, later: Millis)
    requires Sub(later, d.apStartTime) <= SETUP_TIMEOUT
    requires HandleRoot(d, now, later).1.SetupPage?
    ensures var p := HandleRoot(d, now, later).1;
      && p.seconds < 60
      && p.minutes * 60 + p.seconds <= SETUP_TIMEOUT / 1000
      && (p.minutes * 60 + p.seconds) * 1000 <= SETUP_TIMEOUT - Sub(later, d.apStartTime)
      && SETUP_TIMEOUT - Sub(later, d.apStartTime) < (p.minutes * 60 + p.seconds) * 1000 + 1000
  {
    RemainingWithinWindow(later, d.apStartTime);
  }

  /** If both readings agree, the deadline check guards the countdown: any
      setup page shown has the bounds of `SetupPageCountdown`. */
  lemma SameReadingCountdown(d: Device, now: Millis)
    requires HandleRoot(d, now, now).1.SetupPage?
    ensures Sub(now, d.apStartTime) <= SETUP_TIMEOUT
    ensures var p := HandleRoot(d, now, now).1; p.minutes * 60 + p.seconds <= SETUP_TIMEOUT / 1000
  {
    SetupPageCountdown(d, now, now);
  }

  /** The two readings can straddle the deadline: at exactly ten minutes
      there is no restart, and one millisecond later the wrapped formula
      shows 71582:47. */
  lemma CountdownStraddlesDeadline(apPassword: string, deviceToken: string)
    ensures HandleRoot(Boot(apPassword, deviceToken, 0), 600000, 600001).1 == SetupPage(71582, 47)
  {
    assert RemainingSeconds(600001, 0) == 4294967;
  }

  /** A root request during setup restarts the device exactly when the window
      has run out at the first reading; at exactly ten minutes it does not. */
  lemma RootRestartsIffExpired(d: Device, now: Millis, later: Millis)
    requires !d.restarted
    ensures HandleRoot(d, now, later).1 == Rebooting <==> d.apMode && Sub(now, d.apStartTime) > SETUP_TIMEOUT
    ensures HandleRoot(d, now, later).0.restarted <==> HandleRoot(d, now, later).1 == Rebooting
  {
  }

  // ---- Stepper and reset ------------------------------------------------------

  /** `handleRunStepper`: an authorized request runs the stepper once and is
      answered 200; any other is answered 401 and changes nothing. */
  function HandleRunStepper(d: Device, token: string): (Device, Status)
  {
    if StepperAuthorized(d.apMode, token, d.deviceToken) then (d.(stepperRuns := d.stepperRuns + 1), Ok)
    else (d, Unauthorized)
  }

  lemma RunStepperSpec(d: Device, token: string)
    requires Inv(d)
    ensures var (d', status) := HandleRunStepper(d, token);
      && (status == Ok <==> IsValidToken(token, d.deviceToken))
      && (status == Ok ==> d' == d.(stepperRuns := d.stepperRuns + 1))
      && (status != Ok ==> status == Unauthorized && d' == d)
  {
  }

  /** `handleReset`: back to setup mode, disconnected, then an unconditional
      restart. No route leads to it. */
  function HandleReset(d: Device): (Device, Status)
  {
    (d.(apMode := true, wifiConnected := false, restarted := true), Ok)
  }
}
