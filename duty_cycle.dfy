/** One wake of the node: join the WiFi with a bounded number of polls (or
    reset the chip), measure and maybe send once, then disconnect and deep
    sleep. Hardware and network calls appear only as the observations the
    controller reads and the actions it emits. */
module DutyCycle {
  import opened CTypes
  import opened CText
  import opened Charge
  import opened ChipId
  import opened Payload

  /** `MAX_WIFI_CONNECTION_TRIES`. */
  const MaxWifiConnectionTries: nat := 20
  /** `DEEP_SLEEP_SECONDS`: 15 minutes. */
  const DeepSleepSeconds: Int32 := 60 * 15
  /** `MICROSECONDS_PER_SECOND`. */
  const MicrosecondsPerSecond: Uint32 := 1000000

  datatype Option<T> = None | Some(value: T)

  /** What `WiFi.status()` reports; only "connected or not" matters here. */
  datatype WifiStatus = Connected | NotConnected

  /** What the BME280 reports after one forced measurement; pressure in pascal. */
  datatype SensorReading = SensorReading(temperature: real, humidity: real, pressurePa: real)

  /** The externally visible effects of a wake, in order. */
  datatype Action = Post(payload: Json) | Disconnect | DeepSleep(microseconds: nat) | Reset

  /** The argument of `ESP.deepSleep`: DEEP_SLEEP_SECONDS * MICROSECONDS_PER_SECOND.
      The usual arithmetic conversions turn the int32_t operand into uint32_t
      (ISO/IEC 9899:2011, section 6.3.1.8) and the product is taken modulo 2^32. */
  function DeepSleepMicroseconds(): (us: Uint32)
    ensures us == 900_000_000
  {
    ToUint32(ToUint32(DeepSleepSeconds) * MicrosecondsPerSecond)
  }

  /** The product does not wrap: the exact value fits in uint32_t, and even in
      int32_t. */
  lemma DeepSleepDoesNotWrap()
    ensures DeepSleepSeconds as int * MicrosecondsPerSecond as int == DeepSleepMicroseconds()
    ensures DeepSleepMicroseconds() < 0x8000_0000
  {
  }

  /** measureAndShowValues: the payload that is posted, or None when nothing is
      sent. `sensorFound` is the result of `bme.begin`, `adc` what `analogRead`
      returned, `chip` what `ESP.getChipId` returned. */
  function MeasureAndShowValues(sensorFound: bool, reading: SensorReading, adc: nat,
                                chip: Uint32, versionText: string): (post: Option<Json>)
    requires forall i :: 0 <= i < |versionText| ==> versionText[i] != Nul
    ensures post.Some? <==> sensorFound && adc > MinRawVoltage
    ensures post.Some? ==>
      post.value == BuildPayload(ChipIdString(chip), reading.temperature, reading.humidity,
                                 reading.pressurePa / 100.0, adc as real, versionText)
    ensures post.Some? ==> SendablePayload(post.value)
  {
    if !sensorFound then None
    else
      var measuredTemp := reading.temperature;
      var measuredHumi := reading.humidity;
      var measuredPres := reading.pressurePa / 100.0;
      var rawVoltage := MeasureRawBatteryVoltage(adc);
      if MinRawVoltage as real >= rawVoltage then None
      else
        var tmp := ChipIdString(chip);
        ChargePositiveAboveMinimum(rawVoltage);
        Some(BuildPayload(tmp, measuredTemp, measuredHumi, measuredPres, rawVoltage, versionText))
  }

  /** What every posted payload satisfies: the seven keys, a raw voltage above
      the cut-off, a positive charge derived from it, and an eight-digit
      upper-case hexadecimal sensor id. */
  ghost predicate SendablePayload(json: Json)
  {
    && json.Keys == PayloadKeys
    && ChargeMatchesVoltage(json)
    && json["raw_voltage"].value > MinRawVoltage as real
    && json["charge"].value > 0.0
    && json["sensor"].Text?
    && |json["sensor"].text| == FieldWidth && IsUpperHex(json["sensor"].text)
  }

  /** The actions of a wake that got a connection: the post, if any, first;
      the teardown and the 15-minute sleep always last. */
  function AfterConnect(post: Option<Json>): (trace: seq<Action>)
    ensures |trace| >= 2
    ensures trace[|trace| - 2] == Disconnect && trace[|trace| - 1] == DeepSleep(900_000_000)
    ensures |trace| == if post.Some? then 3 else 2
    ensures post.Some? ==> trace[0] == Post(post.value)
  {
    (if post.Some? then [Post(post.value)] else []) + [Disconnect, DeepSleep(DeepSleepMicroseconds())]
  }

  function PostCount(trace: seq<Action>): nat
  {
    if trace == [] then 0 else (if trace[0].Post? then 1 else 0) + PostCount(trace[1..])
  }

  /** A connected wake posts exactly once when there is a payload and never
      otherwise; a reset posts nothing. */
  lemma PostCountOfTraces(post: Option<Json>)
    ensures PostCount(AfterConnect(post)) == if post.Some? then 1 else 0
    ensures PostCount([Reset]) == 0
  {
    var tail := [Disconnect, DeepSleep(DeepSleepMicroseconds())];
    assert tail[1..][1..] == [];
    assert PostCount(tail[1..]) == 0;
    assert PostCount(tail) == 0;
    if post.Some? {
      assert AfterConnect(post)[1..] == tail;
    } else {
      assert AfterConnect(post) == tail;
    }
    assert [Reset][1..] == [];
  }

  /** setup: `poll(k)` is what the k-th call of `WiFi.status()` reports. Returns
      the actions performed and the final value of `connectionTries`. */
  method Setup(poll: nat -> WifiStatus, sensorFound: bool, reading: SensorReading, adc: nat,
               chip: Uint32, versionText: string)
    returns (trace: seq<Action>, connectionTries: nat)
    requires forall i :: 0 <= i < |versionText| ==> versionText[i] != Nul
    // connectionTries counts the polls that reported no connection, and the
    // loop ends at the first that did, or with a reset after 21 that did not.
    ensures connectionTries <= MaxWifiConnectionTries + 1
    ensures forall k :: 0 <= k < connectionTries ==> poll(k) != Connected
    ensures connectionTries <= MaxWifiConnectionTries ==> poll(connectionTries) == Connected
    // A reset happens exactly when the first 21 polls all failed; it is the
    // only action then, so nothing is sent.
    ensures trace == [Reset] <==> forall k :: 0 <= k <= MaxWifiConnectionTries ==> poll(k) != Connected
    ensures trace == [Reset] <==> connectionTries == MaxWifiConnectionTries + 1
    // Otherwise: at most one post, then disconnect, then 15 minutes of deep sleep.
    ensures trace != [Reset] ==>
      trace == AfterConnect(MeasureAndShowValues(sensorFound, reading, adc, chip, versionText))
    ensures PostCount(trace) == if trace != [Reset] && sensorFound && adc > MinRawVoltage then 1 else 0
  {
    connectionTries := 0;
    // WiFi.hostname and WiFi.begin start the association; not modelled.
    while poll(connectionTries) != Connected
      invariant connectionTries <= MaxWifiConnectionTries
      invariant forall k :: 0 <= k < connectionTries ==> poll(k) != Connected
      decreases MaxWifiConnectionTries - connectionTries
    {
      connectionTries := connectionTries + 1;
      // delay(WAIT_FOR_WIFI_IN_MILLISECONDS) is not modelled.
      if connectionTries > MaxWifiConnectionTries {
        trace := [Reset];
        PostCountOfTraces(None);
        return;
      }
    }

    var post := MeasureAndShowValues(sensorFound, reading, adc, chip, versionText);
    trace := [];
    if post.Some? {
      trace := trace + [Post(post.value)];
    }
    trace := trace + [Disconnect];
    trace := trace + [DeepSleep(DeepSleepMicroseconds())];
    PostCountOfTraces(post);
  }
}
