/** Sequences of requests over the routes the firmware registers: POST
    `/connect`, `/stepper` (and its alias `/runStepper`) and `/` from the
    portal host. A restart ends the sequence: nothing runs after it. */
module Traces {
  import opened Clock
  import opened Provisioning

  datatype Event =
    | Connect(token: string, ssid: string, password: string, now: Millis, joined: bool)
    | RunStepper(token: string)
    | Root(now: Millis, later: Millis)

  function Step(d: Device, e: Event): Device
  {
    match e
    case Connect(token, ssid, password, now, joined) => HandleConnect(d, token, ssid, password, now, joined).0
    case RunStepper(token) => HandleRunStepper(d, token).0
    case Root(now, later) => HandleRoot(d, now, later).0
  }

  function Run(d: Device, evs: seq<Event>): Device
    decreases |evs|
  {
    if evs == [] || d.restarted then d else Run(Step(d, evs[0]), evs[1..])
  }

  /** `e` is a credential submission that `d` answers with 200. */
  predicate Accepted(d: Device, e: Event)
  {
    e.Connect? && HandleConnect(d, e.token, e.ssid, e.password, e.now, e.joined).1 == Ok
  }

  /** The times of the accepted submissions of a run, in order. */
  function AcceptedTimes(d: Device, evs: seq<Event>): seq<Millis>
    decreases |evs|
  {
    if evs == [] || d.restarted then []
    else (if Accepted(d, evs[0]) then [evs[0].now] else []) + AcceptedTimes(Step(d, evs[0]), evs[1..])
  }

  // ---- One step -------------------------------------------------------------

  lemma StepInv(d: Device, e: Event)
    requires Inv(d)
    ensures Inv(Step(d, e))
  {
  }

  /** No request changes the secrets, the start of the setup window or
      `wifiConfigured`. */
  lemma StepKeepsSecrets(d: Device, e: Event)
    ensures Step(d, e).deviceToken == d.deviceToken
    ensures Step(d, e).apPassword == d.apPassword
    ensures Step(d, e).apStartTime == d.apStartTime
    ensures Step(d, e).wifiConfigured == d.wifiConfigured
  {
    match e
    case Connect(token, ssid, password, now, joined) =>
      AcceptedSubmission(d, token, ssid, password, now, joined);
    case RunStepper(token) =>
    case Root(now, later) =>
  }

  /** Each request adds one to the attempt count exactly when it is an
      accepted submission, which also stamps the count with its time. */
  lemma StepCounts(d: Device, e: Event)
    ensures Step(d, e).connectAttempts == d.connectAttempts + (if Accepted(d, e) then 1 else 0)
    ensures Step(d, e).lastConnectAttempt == if Accepted(d, e) then e.now else d.lastConnectAttempt
  {
  }

  /** A request carrying a token other than the device token. */
  predicate LacksToken(e: Event, deviceToken: string)
  {
    match e
    case Connect(token, _, _, _, _) => token != deviceToken
    case RunStepper(token) => token != deviceToken
    case Root(_, _) => true
  }

  lemma StepWithoutToken(d: Device, e: Event)
    requires LacksToken(e, d.deviceToken)
    ensures Step(d, e) == d.(restarted := Step(d, e).restarted)
  {
  }

  // ---- Whole runs -------------------------------------------------------------

  lemma {:induction false} RunInv(d: Device, evs: seq<Event>)
    requires Inv(d)
    ensures Inv(Run(d, evs))
    decreases |evs|
  {
    if evs != [] && !d.restarted {
      StepInv(d, evs[0]);
      RunInv(Step(d, evs[0]), evs[1..]);
    }
  }

  /** The device token, the setup password and the window start are fixed
      for the whole boot cycle: no rotation, no extension of the window. */
  lemma {:induction false} RunKeepsSecrets(d: Device, evs: seq<Event>)
    ensures Run(d, evs).deviceToken == d.deviceToken
    ensures Run(d, evs).apPassword == d.apPassword
    ensures Run(d, evs).apStartTime == d.apStartTime
    decreases |evs|
  {
    if evs != [] && !d.restarted {
      StepKeepsSecrets(d, evs[0]);
      RunKeepsSecrets(Step(d, evs[0]), evs[1..]);
    }
  }

  /** The attempt count never decreases and never resets: it grows by the
      number of accepted submissions, and the last of them stamps it. */
  lemma {:induction false} RunCountsAccepted(d: Device, evs: seq<Event>)
    ensures var ts := AcceptedTimes(d, evs);
      && Run(d, evs).connectAttempts == d.connectAttempts + |ts|
      && Run(d, evs).lastConnectAttempt == if ts == [] then d.lastConnectAttempt else ts[|ts| - 1]
    ensures Run(d, evs).connectAttempts >= d.connectAttempts
    decreases |evs|
  {
    if evs != [] && !d.restarted {
      var d' := Step(d, evs[0]);
      StepCounts(d, evs[0]);
      RunCountsAccepted(d', evs[1..]);
    }
  }

  /** The accepted submission before the `i`-th one of `ts`; for the first,
      the stamp the run started with. */
  function PreviousAccepted(d: Device, ts: seq<Millis>, i: nat): Millis
    requires i < |ts|
  {
    if i == 0 then d.lastConnectAttempt else ts[i - 1]
  }

  /** The rate-limiter's promise as the code keeps it: every accepted
      submission made when three or more had already been accepted comes at
      least 10 s after the previous accepted one. */
  predicate Spaced(d: Device, ts: seq<Millis>)
  {
    forall i :: 0 <= i < |ts| && d.connectAttempts + i >= MAX_CONNECT_ATTEMPTS ==>
      Sub(ts[i], PreviousAccepted(d, ts, i)) >= RETRY_WINDOW
  }

  lemma SpacedCons(d: Device, d': Device, now: Millis, rest: seq<Millis>)
    requires d'.connectAttempts == d.connectAttempts + 1 && d'.lastConnectAttempt == now
    requires d.connectAttempts >= MAX_CONNECT_ATTEMPTS ==> Sub(now, d.lastConnectAttempt) >= RETRY_WINDOW
    requires Spaced(d', rest)
    ensures Spaced(d, [now] + rest)
  {
  }

  lemma {:induction false} RunSpaced(d: Device, evs: seq<Event>)
    ensures Spaced(d, AcceptedTimes(d, evs))
    decreases |evs|
  {
    if evs != [] && !d.restarted {
      var e := evs[0];
      var d' := Step(d, e);
      StepCounts(d, e);
      RunSpaced(d', evs[1..]);
      var rest := AcceptedTimes(d', evs[1..]);
      if Accepted(d, e) {
        if d.connectAttempts >= MAX_CONNECT_ATTEMPTS {
          AcceptedSpacing(d, e.token, e.ssid, e.password, e.now, e.joined);
        }
        SpacedCons(d, d', e.now, rest);
        assert AcceptedTimes(d, evs) == [e.now] + rest;
      } else {
        assert AcceptedTimes(d, evs) == rest;
      }
    }
  }

  /** From boot: the fourth and every later accepted submission comes at
      least 10 s after the one before it; the counter is never reset. */
  lemma BootSpacing(apPassword: string, deviceToken: string, start: Millis, evs: seq<Event>)
    ensures var ts := AcceptedTimes(Boot(apPassword, deviceToken, start), evs);
      forall i :: MAX_CONNECT_ATTEMPTS <= i < |ts| ==> Sub(ts[i], ts[i - 1]) >= RETRY_WINDOW
  {
    var d := Boot(apPassword, deviceToken, start);
    RunSpaced(d, evs);
    var ts := AcceptedTimes(d, evs);
    forall i | MAX_CONNECT_ATTEMPTS <= i < |ts| ensures Sub(ts[i], ts[i - 1]) >= RETRY_WINDOW {
      assert PreviousAccepted(d, ts, i) == ts[i - 1];
    }
  }

  /** Requests that do not carry the device token change nothing except,
      through the setup deadline, the restart flag: no credentials stored,
      no attempt counted, no mode change, no stepper run. */
  lemma {:induction false} RunWithoutToken(d: Device, evs: seq<Event>)
    requires forall i :: 0 <= i < |evs| ==> LacksToken(evs[i], d.deviceToken)
    ensures Run(d, evs) == d.(restarted := Run(d, evs).restarted)
    decreases |evs|
  {
    if evs != [] && !d.restarted {
      StepWithoutToken(d, evs[0]);
      var d' := Step(d, evs[0]);
      assert forall i :: 0 <= i < |evs[1..]| ==> LacksToken(evs[1..][i], d'.deviceToken) by {
        forall i | 0 <= i < |evs[1..]| ensures LacksToken(evs[1..][i], d'.deviceToken) {
          assert evs[1..][i] == evs[i + 1];
        }
      }
      RunWithoutToken(d', evs[1..]);
    }
  }

  /** Each stepper request with the device token runs the stepper once: a run
      of `n` of them runs it exactly `n` times and changes nothing else. */
  lemma {:induction false} RepeatedStepper(d: Device, evs: seq<Event>)
    requires Inv(d) && !d.restarted
    requires forall i :: 0 <= i < |evs| ==> evs[i] == RunStepper(d.deviceToken)
    ensures Run(d, evs) == d.(stepperRuns := d.stepperRuns + |evs|)
    decreases |evs|
  {
    if evs != [] {
      RunStepperSpec(d, d.deviceToken);
      var d' := Step(d, evs[0]);
      assert d' == d.(stepperRuns := d.stepperRuns + 1);
      assert forall i :: 0 <= i < |evs[1..]| ==> evs[1..][i] == RunStepper(d'.deviceToken) by {
        forall i | 0 <= i < |evs[1..]| ensures evs[1..][i] == RunStepper(d'.deviceToken) {
          assert evs[1..][i] == evs[i + 1];
        }
      }
      RepeatedStepper(d', evs[1..]);
    }
  }

  // ---- Scenarios ----------------------------------------------------------------

  /** Boot, then a submission with the device token and SSID "Home" whose
      join succeeds: answered 200, the device leaves setup mode. */
  lemma JoinScenario(apPassword: string, start: Millis, now: Millis)
    ensures var d := Boot(apPassword, "AB12CD34EF56", start);
      var (d', status) := HandleConnect(d, "AB12CD34EF56", "Home", "secret", now, true);
      && status == Ok && status.Code() == 200 && !d'.apMode && d'.wifiConnected && d'.setupComplete
      && d'.wifiSSID == "Home" && d'.wifiPassword == "secret" && d'.connectAttempts == 1
  {
  }

  /** Three accepted submissions, then a fourth less than 10 s after the third
      is answered 429 whatever it carries, and changes nothing. */
  lemma FourthSubmissionLimited(d0: Device, t1: Millis, t2: Millis, t3: Millis, t4: Millis,
                                ssid: string, j1: bool, j2: bool, j3: bool,
                                token4: string, ssid4: string, password4: string, j4: bool)
    requires Inv(d0) && d0.connectAttempts == 0
    requires ssid != ""
    requires Sub(t4, t3) < RETRY_WINDOW
    ensures
      var tok := d0.deviceToken;
      var (d1, s1) := HandleConnect(d0, tok, ssid, "", t1, j1);
      var (d2, s2) := HandleConnect(d1, tok, ssid, "", t2, j2);
      var (d3, s3) := HandleConnect(d2, tok, ssid, "", t3, j3);
      && s1 == Ok && s2 == Ok && s3 == Ok
      && HandleConnect(d3, token4, ssid4, password4, t4, j4) == (d3, TooManyRequests)
      && TooManyRequests.Code() == 429
  {
  }

  /** The deadline is enforced only by the root page: a submission with the
      device token is still accepted an hour after boot if no root request
      came in between. */
  lemma LateSubmissionAccepted(apPassword: string, token: string)
    requires token != ""
    ensures var d := Boot(apPassword, token, 0);
      && SetupExpired(d, 3600000)
      && HandleConnect(d, token, "Home", "", 3600000, false).1 == Ok
  {
  }
}
