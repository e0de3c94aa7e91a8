/** The JSON object `sendMeasurements` posts: seven keys, filled one by one,
    with the charge derived from the raw voltage stored beside it. The object
    is modelled as a map from key to value, not as serialised text. */
module Payload {
  import opened CText
  import opened Charge

  datatype JsonValue = Number(value: real) | Text(text: string)

  type Json = map<string, JsonValue>

  /** The keys of every posted object. */
  const PayloadKeys: set<string> :=
    {"temperature", "humidity", "pressure", "raw_voltage", "charge", "sensor", "firmware_version"}

  /** `VERSION_STRING_LENGTH`: the size of the array the version is formatted into. */
  const VersionStringLength: nat := 13

  lemma PayloadKeyCount()
    ensures |PayloadKeys| == 7
  {
  }

  /** The `firmware_version` value: `versionText` (what the version format
      produces) written with `snprintf` into the 13-character zeroed array and
      read back, so exactly the first 12 characters survive when it is longer. */
  function FirmwareVersion(versionText: string): (v: string)
    requires forall i :: 0 <= i < |versionText| ==> versionText[i] != Nul
    ensures v == versionText[..Min(|versionText|, VersionStringLength - 1)]
    ensures |versionText| < VersionStringLength ==> v == versionText
  {
    SnprintfReadBack(ZeroedBuffer(VersionStringLength), versionText);
    ReadCString(Snprintf(ZeroedBuffer(VersionStringLength), versionText).buffer)
  }

  /** The stored charge is the estimate of the raw voltage stored with it. */
  predicate ChargeMatchesVoltage(json: Json)
  {
    && "raw_voltage" in json && json["raw_voltage"].Number?
    && "charge" in json
    && json["charge"] == Number(CalculateBatteryChargeInPercent(json["raw_voltage"].value))
  }

  /** The payload of one measurement; the entries are listed in the order the
      firmware assigns them. */
  function BuildPayload(chipId: string, temp: real, humidity: real, pressure: real,
                        rawVoltage: real, versionText: string): (json: Json)
    requires forall i :: 0 <= i < |versionText| ==> versionText[i] != Nul
    ensures json.Keys == PayloadKeys
    ensures json["temperature"] == Number(temp)
    ensures json["humidity"] == Number(humidity)
    ensures json["pressure"] == Number(pressure)
    ensures json["raw_voltage"] == Number(rawVoltage)
    ensures json["sensor"] == Text(chipId)
    ensures json["firmware_version"] == Text(FirmwareVersion(versionText))
    ensures ChargeMatchesVoltage(json)
    ensures 0.0 <= json["charge"].value <= 100.0
  {
    var charge := CalculateBatteryChargeInPercent(rawVoltage);
    map[
      "temperature" := Number(temp),
      "humidity" := Number(humidity),
      "pressure" := Number(pressure),
      "raw_voltage" := Number(rawVoltage),
      "charge" := Number(charge),
      "sensor" := Text(chipId),
      "firmware_version" := Text(FirmwareVersion(versionText))
    ]
  }

  /** No key is missing and none is added: the object has exactly seven entries. */
  lemma PayloadHasSevenEntries(chipId: string, temp: real, humidity: real, pressure: real,
                               rawVoltage: real, versionText: string)
    requires forall i :: 0 <= i < |versionText| ==> versionText[i] != Nul
    ensures |BuildPayload(chipId, temp, humidity, pressure, rawVoltage, versionText)| == 7
  {
    PayloadKeyCount();
    var json := BuildPayload(chipId, temp, humidity, pressure, rawVoltage, versionText);
    assert |json| == |json.Keys|;
  }

  /** The end-to-end example: the readings come back out of the payload
      unchanged and the charge agrees with the estimator on the same reading. */
  lemma PayloadScenario()
    ensures var json := BuildPayload("DEADBEEF", 22.5, 45.0, 1013.25, 700.0, "1.2.3");
      && json["temperature"] == Number(22.5)
      && json["humidity"] == Number(45.0)
      && json["pressure"] == Number(1013.25)
      && json["charge"] == Number((700.0 - 605.0) / 209.0 * 100.0)
      && json["firmware_version"] == Text("1.2.3")
  {
    ChargeBetweenCalibrationPoints(700.0);
  }
}
