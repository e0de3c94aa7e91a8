# Weather station duty cycle — a verified model

This project models the decision logic of the weather station firmware: an
ESP8266 node that wakes up, joins WiFi, reads a BME280 sensor and its battery
voltage, posts one JSON measurement to a fixed endpoint, disconnects and deep
sleeps for 15 minutes. The hardware and network are abstracted into inputs
(what `WiFi.status()`, `bme.begin`, the sensor, `analogRead` and
`ESP.getChipId` report) and outputs (a trace of `Post`, `Disconnect`,
`DeepSleep` and `Reset` actions).

Modules, one per component of `src/main.cpp`:

- `Charge` (charge.dfy): the battery charge estimator, over reals.
- `CTypes` (c_types.dfy): `uint32_t` and the conversion to it.
- `CText` (c_text.dfy): `snprintf` into a fixed-size array (section 7.21.6.5
  of ISO/IEC 9899:2011) and reading the array back as a NUL-terminated string.
- `ChipId` (chip_id.dfy): the `%08X` encoder of the chip id (section 7.21.6.1
  of ISO/IEC 9899:2011), with a decoder and proofs that the two are inverse
  bijections between 32-bit ids and eight upper-case hexadecimal digits.
- `Payload` (payload.dfy): the seven-key JSON object, as a map.
- `DutyCycle` (duty_cycle.dfy): the send gate of `measureAndShowValues` and
  the `setup` method with its WiFi polling loop.

The WiFi status stream is a total function `poll: nat -> WifiStatus`. The
value `poll(k)` is what the k-th call of `WiFi.status()` reports. `Setup`
consumes at most 21 polls. Floats are modelled as reals.

## Model

| member | source | states |
|---|---|---|
| Charge.MeasureRawBatteryVoltage | src/main.cpp:42-44 | the raw voltage is the ADC count, converted exactly to a real |
| Charge.CalculateBatteryChargeInPercent | src/main.cpp:46-59 | the charge is always within 0..100 percent |
| Charge.ChargeAtOrBelowMinimum | src/main.cpp:47-58 | a raw reading at or below 605 gives 0 percent |
| Charge.ChargeAtOrAboveMaximum | src/main.cpp:47-58 | a raw reading at or above 814 gives 100 percent |
| Charge.ChargeBetweenCalibrationPoints | src/main.cpp:34-48 | strictly between 605 and 814 the charge is (raw − 605) / 209 · 100, strictly between 0 and 100 |
| Charge.ChargePositiveAboveMinimum | src/main.cpp:46-59 | every reading above 605 gives a positive charge |
| Charge.ChargeMonotonic | src/main.cpp:46-59 | the charge never decreases as the raw reading grows |
| Charge.ChargeStrictlyIncreasingInRange | src/main.cpp:46-59 | between 605 and 814 the charge strictly increases with the reading |
| Charge.ChargeAtMidpoint | src/main.cpp:34-48 | half-way between the calibration points the charge is 50 percent |
| CTypes.ToUint32 | src/main.cpp:196 | conversion to uint32_t keeps values already in range and otherwise agrees with the value modulo 2^32 |
| CText.ZeroedBuffer | src/main.cpp:151 | `std::array<char, N> tmp{}` is N NUL characters |
| CText.Snprintf | src/main.cpp:152 | snprintf keeps the array size, stores at most size − 1 characters of the text and a NUL after them, leaves the rest alone, and returns the untruncated length |
| CText.ReadCString | src/main.cpp:155 | `tmp.data()` read as a string is the longest NUL-free prefix of the array, ended by a NUL when shorter than the array |
| CText.SnprintfReadBack | src/main.cpp:150-152 | what snprintf stored reads back as the text cut to size − 1 characters, and the return value is below the size exactly when nothing was cut |
| ChipId.DigitValue | src/main.cpp:152 | an upper-case hexadecimal digit has a value below 16 |
| ChipId.HexDigit | src/main.cpp:152 | the `X` digit of a value below 16 is upper-case hexadecimal and decodes back to that value |
| ChipId.HexDigitOfValue | src/main.cpp:152 | encoding a digit's value gives the digit back |
| ChipId.HexDigits | src/main.cpp:152 | `%X` with the default precision yields at least one digit, all upper-case hexadecimal |
| ChipId.HexDigitsMinimal | src/main.cpp:152 | `%X` uses the fewest digits: a nonzero value has no leading zero |
| ChipId.ZeroPad | src/main.cpp:152 | the `0` flag pads on the left with zeros to the field width and keeps the digits as the suffix |
| ChipId.HexDigitsFit | src/main.cpp:152 | a value below 16^n needs at most n digits |
| ChipId.FormatX08 | src/main.cpp:152 | `%08X` of a uint32_t is exactly eight upper-case hexadecimal digits |
| ChipId.ParseHex | src/main.cpp:152 | n hexadecimal digits decode to a value below 16^n |
| ChipId.ParseHexDigits | src/main.cpp:152 | decoding the minimal digits of a value gives the value |
| ChipId.ParseHexLeadingZeros | src/main.cpp:152 | leading zeros do not change the decoded value |
| ChipId.DecodeEncode | src/main.cpp:152 | decoding the eight digits gives back the original 32-bit id |
| ChipId.ParseHexInjective | src/main.cpp:152 | two digit strings of equal length with the same value are equal |
| ChipId.Pow16Eight | src/main.cpp:152 | 16^8 is 2^32, the number of uint32_t values |
| ChipId.EncodeDecode | src/main.cpp:152 | every eight-digit upper-case hexadecimal string is the encoding of the id it decodes to |
| ChipId.FormatX08Injective | src/main.cpp:152 | different chip ids give different sensor strings |
| ChipId.ChipIdString | src/main.cpp:150-152 | the 9-character array holds the whole `%08X` text: snprintf's return value is below 9 and the string read back is exactly the eight digits |
| ChipId.ChipIdDeadBeef | src/main.cpp:150-152 | chip id 0xDEADBEEF is sent as "DEADBEEF" |
| Payload.PayloadKeyCount | src/main.cpp:82-88 | the seven key names are distinct |
| Payload.FirmwareVersion | src/main.cpp:67-73 | the version written into the 13-character array is exactly the first 12 characters of the formatted text, or the whole text when it is shorter |
| Payload.BuildPayload | src/main.cpp:76-88 | the object has exactly the keys temperature, humidity, pressure, raw_voltage, charge, sensor and firmware_version; each stored reading is the input; charge is the estimate of the stored raw_voltage and lies in 0..100 |
| Payload.PayloadHasSevenEntries | src/main.cpp:82-88 | the object has exactly seven entries |
| Payload.PayloadScenario | src/main.cpp:76-88 | readings 22.5, 45.0, 1013.25 and raw 700 come out of the payload unchanged, with charge (700 − 605) / 209 · 100 |
| DutyCycle.DeepSleepMicroseconds | src/main.cpp:196 | the deep-sleep argument is 900,000,000 µs |
| DutyCycle.DeepSleepDoesNotWrap | src/main.cpp:37-39 | 900 · 1,000,000 is computed exactly in uint32_t arithmetic, and would fit in int32_t too |
| DutyCycle.MeasureAndShowValues | src/main.cpp:114-156 | a payload is sent exactly when the sensor was found and the raw voltage is above 605; it carries the readings, pressure in hPa, the raw voltage and the eight-digit chip id; every sent payload has raw_voltage above 605 and a positive charge derived from it |
| DutyCycle.AfterConnect | src/main.cpp:185-196 | after connecting, the actions are an optional post first and always a disconnect followed by a 900,000,000 µs deep sleep last |
| DutyCycle.PostCountOfTraces | src/main.cpp:155 | a connected wake posts exactly once when there is a payload and never otherwise; a reset posts nothing |
| DutyCycle.Setup | src/main.cpp:158-197 | the loop stops at the first connected poll with connectionTries at most 20, or resets exactly when the first 21 polls all fail, with a reset as the only action; otherwise the trace is the gate's optional post, a disconnect and the 15-minute deep sleep, so at most one post happens and only with a sensor and a voltage above 605 |

## Left out

- WiFi association (`WiFi.hostname`, `WiFi.begin`, `WiFi.disconnect`), the HTTP client, `setInsecure`, `http.POST` and the check for status 204 (src/main.cpp:62-64, 98-111, 170-171): these are foreign network calls. The POST appears as a `Post` action, the disconnect as `Disconnect`. The 204 check only logs, so nothing follows from it.
- BME280 driver setup and reads (src/main.cpp:115-137): this is vendor code. The readings are opaque inputs, and `bme.begin` is a boolean input.
- `JSON.stringify` (src/main.cpp:91): a library serialiser of floats. The payload is a map from key to value.
- IEEE-754 single-precision rounding in the charge division and in the pressure conversion (src/main.cpp:48, 137): both are modelled over reals.
- The version numbers and build flavour (src/main.cpp:67-73): `version.h` is not part of this model, and the debug/release choice is a preprocessor switch. `FirmwareVersion` takes the formatted version text as an input and models only the 13-character array it is written into.
- Serial debug output, `pinMode`, `delay` and the hardware meaning of `ESP.reset` and `ESP.deepSleep` are not modelled. Reset and deep sleep appear only as terminal actions.
- `WifiStatus` has two values. The firmware only compares against `WL_CONNECTED`, so the other states are not told apart.
- The ADC reading is an unbounded natural number. The hardware's 10-bit range is not modelled, and the firmware does not rely on it.
- `loop()` (src/main.cpp:199-202) is empty and never reached.
- Calibration is 605..814 (src/main.cpp:34-35).
- The code has no NTP time sync and no retry of the POST.
- MeasureRawBatteryVoltage: `static_cast<float>` of the reading is exact only below 2^24. The 10-bit ADC guarantees that, but the model's unbounded `nat` does not, so the model converts every reading exactly.
