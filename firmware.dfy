/** The firmware's globals as the fields of one object, and its handlers as
    methods that update them in place. Each method is specified by the pure
    handler of the same name in `Provisioning`, over the `Device` record its
    fields make up. */
module Firmware {
  import opened Clock
  import opened Secrets
  import opened Access
  import opened Provisioning

  /** The polling loop of `connectToWiFi`: test the status until connected
      or 30 polls made, then read the status once more. `polls` lists every
      reading in order; the loop reads 0..attempts, the last read is
      `attempts + 1`, so at most 32 readings are taken. */
  method PollJoin(polls: seq<bool>) returns (attempts: nat, joined: bool)
    ensures attempts <= MAX_JOIN_POLLS
    ensures forall k :: 0 <= k < attempts ==> !PolledConnected(polls, k)
    ensures attempts < MAX_JOIN_POLLS ==> PolledConnected(polls, attempts)
    ensures attempts == LoopExit(polls, 0)
    ensures joined == PolledConnected(polls, attempts + 1)
    ensures joined == JoinSucceeds(polls)
  {
    attempts := 0;
    while !PolledConnected(polls, attempts) && attempts < MAX_JOIN_POLLS
      invariant attempts <= MAX_JOIN_POLLS
      invariant LoopExit(polls, attempts) == LoopExit(polls, 0)
    {
      attempts := attempts + 1;
    }
    joined := PolledConnected(polls, attempts + 1);
  }

  class Scanner {
    var wifiSSID: string
    var wifiPassword: string
    var wifiConfigured: bool
    var wifiConnected: bool
    var apMode: bool
    var apPassword: string
    var deviceToken: string
    var apStartTime: Millis
    var setupComplete: bool
    var lastConnectAttempt: Millis
    var connectAttempts: nat
    /** How often the stepper motor has been run over HTTP. */
    ghost var stepperRuns: nat
    /** Whether `ESP.restart()` has been called; it never returns. */
    ghost var restarted: bool

    ghost function Snapshot(): Device
      reads this
    {
      Device(wifiSSID, wifiPassword, wifiConfigured, wifiConnected, apMode, apPassword,
             deviceToken, apStartTime, setupComplete, lastConnectAttempt, connectAttempts,
             stepperRuns, restarted)
    }

    ghost predicate Valid()
      reads this
    {
      Inv(Snapshot())
    }

    /** `setup()`: the first 8 draws give the setup-network password, the
        next 12 the device token, and the setup window opens at `now`. */
    constructor (draws: seq<Draw>, now: Millis)
      requires AP_PASSWORD_LENGTH + TOKEN_LENGTH <= |draws|
      ensures Valid() && !restarted
      ensures Snapshot() == Boot(Spell(draws[..AP_PASSWORD_LENGTH]),
                                 Spell(draws[AP_PASSWORD_LENGTH..AP_PASSWORD_LENGTH + TOKEN_LENGTH]), now)
      ensures Spell(draws[..AP_PASSWORD_LENGTH + TOKEN_LENGTH]) == apPassword + deviceToken
    {
      var password := GenerateRandomPassword(AP_PASSWORD_LENGTH, draws);
      var token := GenerateDeviceToken(draws[AP_PASSWORD_LENGTH..]);
      assert draws[AP_PASSWORD_LENGTH..][..TOKEN_LENGTH] == draws[AP_PASSWORD_LENGTH..AP_PASSWORD_LENGTH + TOKEN_LENGTH];
      assert draws[..AP_PASSWORD_LENGTH + TOKEN_LENGTH] ==
        draws[..AP_PASSWORD_LENGTH] + draws[AP_PASSWORD_LENGTH..AP_PASSWORD_LENGTH + TOKEN_LENGTH];
      SpellAppend(draws[..AP_PASSWORD_LENGTH], draws[AP_PASSWORD_LENGTH..AP_PASSWORD_LENGTH + TOKEN_LENGTH]);
      wifiSSID, wifiPassword := "", "";
      wifiConfigured, wifiConnected, apMode := false, false, true;
      apPassword, deviceToken := password, token;
      apStartTime := now;
      setupComplete := false;
      lastConnectAttempt, connectAttempts := 0, 0;
      stepperRuns, restarted := 0, false;
    }

    /** `checkSetupTimeout`: restarts when the setup window has run out. */
    method CheckSetupTimeout(now: Millis) returns (restart: bool)
      requires Valid() && !restarted
      modifies this
      ensures Valid()
      ensures restart == SetupExpired(old(Snapshot()), now)
      ensures Snapshot() == Provisioning.CheckSetupTimeout(old(Snapshot()), now)
    {
      restart := apMode && Sub(now, apStartTime) > SETUP_TIMEOUT;
      if restart {
        restarted := true;
      }
    }

    /** `connectToWiFi`: join with the stored credentials; `polls` are the
        successive status readings of the radio. */
    method ConnectToWiFi(polls: seq<bool>)
      modifies this
      ensures Snapshot() == Provisioning.ConnectToWiFi(old(Snapshot()), JoinSucceeds(polls))
    {
      if |wifiSSID| == 0 {
        return;
      }
      var attempts, joined := PollJoin(polls);
      if joined {
        wifiConnected := true;
        apMode := false;
        setupComplete := true;
      } else {
        wifiConnected := false;
      }
    }

    /** `handleConnect` (POST `/connect`). */
    method HandleConnect(token: string, ssid: string, password: string, now: Millis, polls: seq<bool>)
      returns (status: Status)
      requires Valid() && !restarted
      modifies this
      ensures Valid()
      ensures (Snapshot(), status) ==
        Provisioning.HandleConnect(old(Snapshot()), token, ssid, password, now, JoinSucceeds(polls))
    {
      if Sub(now, lastConnectAttempt) < RETRY_WINDOW && connectAttempts >= MAX_CONNECT_ATTEMPTS {
        return TooManyRequests;
      }
      if !IsValidToken(token, deviceToken) {
        return Unauthorized;
      }
      wifiSSID := ssid;
      wifiPassword := password;
      if |wifiSSID| == 0 {
        return BadRequest;
      }
      connectAttempts := connectAttempts + 1;
      lastConnectAttempt := now;
      status := Ok;
      ConnectToWiFi(polls);
    }

    /** `handleRoot` (GET `/` from the portal host): deadline first, then the
        page; `now` and `later` are its two readings of `millis()`. */
    method HandleRoot(now: Millis, later: Millis) returns (page: RootPage)
      requires Valid() && !restarted
      modifies this
      ensures Valid()
      ensures (Snapshot(), page) == Provisioning.HandleRoot(old(Snapshot()), now, later)
    {
      var restart := CheckSetupTimeout(now);
      if restart {
        return Rebooting;
      }
      if apMode {
        var remainingTime := Sub(SETUP_TIMEOUT, Sub(later, apStartTime)) / 1000;
        page := SetupPage(remainingTime / 60, remainingTime % 60);
      } else {
        page := StatusPage;
      }
    }

    /** `handleRunStepper` (`/stepper`, `/runStepper`). */
    method HandleRunStepper(token: string) returns (status: Status)
      requires Valid() && !restarted
      modifies this
      ensures Valid()
      ensures (Snapshot(), status) == Provisioning.HandleRunStepper(old(Snapshot()), token)
    {
      var authorized := false;
      if apMode && IsValidToken(token, deviceToken) {
        authorized := true;
      } else if !apMode && token == deviceToken {
        authorized := true;
      }
      if !authorized {
        return Unauthorized;
      }
      stepperRuns := stepperRuns + 1;
      status := Ok;
    }

    /** `handleReset`: never registered as a route. */
    method HandleReset() returns (status: Status)
      requires Valid() && !restarted
      modifies this
      ensures Valid()
      ensures (Snapshot(), status) == Provisioning.HandleReset(old(Snapshot()))
    {
      apMode := true;
      wifiConnected := false;
      status := Ok;
      restarted := true;
    }
  }
}
