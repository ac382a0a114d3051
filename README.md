# EMU-2 serial sensor: decoder and reading store

This project models the core of the Rainforest EMU-2 sensor integration for
Home Assistant. That core is the reading thread `EMU2Sensor.serial_read`. It
polls the serial port and reads each fragment as an XML message. It decodes
three message kinds:

- **InstantaneousDemand** becomes the sensor state: the demand in kW.
- **PriceCluster** sets the Price and Price Tier attributes.
- **CurrentSummationDelivered** sets the Delivered, Received and Net kWh attributes.

After each demand message the thread also applies a user-supplied custom price. When one is set, it writes a `set_current_price` command back to the meter.

The model also covers:

- the entity's constructor;
- the attribute view it hands to the host;
- the stop request that ends the thread.

The modules are:

- `Hex`: Python's `int(text, 16)` as used on every inbound field, and `hex(n)` as used on the outbound price.
- `Arith`:
  - the 32-bit sign extension of the raw demand;
  - powers of ten;
  - Python's `round` on exact values: half to even, to an integer or to `d` decimals.
- `Decoder`: the decoder as pure functions. It has:
  - the reading (`_state` and the `_data` dictionary);
  - one function per branch of the loop body;
  - `Step` for one fragment;
  - `Run` for the polling loop over a finite sequence of events.
- `DecoderProps`: what the decoder promises, proved about those functions.
- `Sensor`: the class `Emu2Sensor`, whose fields the thread updates in place. Each method's postcondition says its new state and outcome are exactly what the matching `Decoder` function gives.

How the model reads the code:

- **Exceptions.** An exception raised while a fragment is decoded is not caught in the loop body, so it ends the thread.
  - The model gives it as an outcome `Raised(fault)`.
  - The writes made before the failing line are kept, in code order.
  - After a raise, `Run` stops without closing the port.
  - The faults are: a missing child (`AttributeError`), a child without text (`TypeError` from `int(None, 16)`), a field that is not base 16 (`ValueError`), and a zero summation divisor (`ZeroDivisionError`).
- **Zero divisor.** The demand path checks the divisor; the summation path does not. A summation message with a zero divisor therefore ends the reading thread. It is not dropped like a bad fragment.
- **Empty fragment.** The guard `msgStr != []` compares a string with a list, so it always holds. An empty fragment therefore raises `IndexError` at `msgStr[0]`.
- **Custom price vs. PriceCluster.** A PriceCluster message overwrites Price even when a custom price is set. The custom price wins again only at the next demand message.
- **Custom price read by `float`.** A custom price that `float` rejects raises `ValueError` after it has been copied into Price.

## Model

| member | source | states |
|---|---|---|
| Decoder.AttrNameInjective | custom_components/rainforest/sensor.py:25-32 | the eight attribute names are pairwise distinct, so the dictionary keys can be taken as an enumeration |
| Decoder.InitialData | custom_components/rainforest/sensor.py:67-79 | at construction every attribute is present and `None`, except Custom Price, which holds the host's custom rate when the entity exists |
| Sensor.Emu2Sensor.constructor | custom_components/rainforest/sensor.py:62-79 | the new sensor has no state, the initial dictionary built key by key, and the loop enabled |
| Decoder.Attributes | custom_components/rainforest/sensor.py:86-96 | the attribute view is keyed by exactly the eight attribute names |
| Decoder.AttributesByName | custom_components/rainforest/sensor.py:86-96 | each name maps to that attribute's entry read as `dict.get` does, so a missing entry reads as `None` |
| DecoderProps.AttributesOfWellFormed | custom_components/rainforest/sensor.py:86-96 | on a dictionary holding every attribute, the view shows each stored value under its name |
| DecoderProps.InitialAttributes | custom_components/rainforest/sensor.py:70-96 | right after construction, the view shows `None` everywhere except the seeded Custom Price |
| Sensor.Emu2Sensor.ExtraStateAttributes | custom_components/rainforest/sensor.py:86-96 | the view has the eight names as keys, and on a valid sensor shows the stored dictionary entry by entry |
| Sensor.Emu2Sensor.StopSerialRead | custom_components/rainforest/sensor.py:209-210 | clears the enabled flag and leaves the state and the dictionary as they were |
| Hex.DigitsValue | custom_components/rainforest/sensor.py:147 | a base-16 digit string denotes a number below 16 to the power of its length |
| Hex.HexDigits | custom_components/rainforest/sensor.py:169 | the digits `hex()` prints are lower case, read back as the number, and have no leading zero: 0 prints as the single digit `0` |
| Hex.PyHex | custom_components/rainforest/sensor.py:169 | `hex(n)` is `0x` followed by the digits of `n` for `n >= 0`, and `-0x` followed by the digits of `-n` otherwise |
| Hex.ParsePrefixed | custom_components/rainforest/sensor.py:147 | `int(text, 16)` reads `0x` then digits as their value, and `-0x` then digits as its negation |
| Hex.ParseHexPlainDigits | custom_components/rainforest/sensor.py:147 | `int(text, 16)` reads bare digits, with no sign or prefix, as their value |
| Hex.TrimLeftBlank | custom_components/rainforest/sensor.py:147 | stripping text made only of white space leaves nothing |
| Hex.ParseHexBlank | custom_components/rainforest/sensor.py:147 | `int(text, 16)` raises ValueError on empty or blank text |
| Decoder.ChildText | custom_components/rainforest/sensor.py:156 | `find(tag).text` raises AttributeError exactly when there is no such child, and otherwise gives the child's text or `None` |
| Decoder.HexField | custom_components/rainforest/sensor.py:147 | `int(find(tag).text, 16)` succeeds exactly when the child exists, has text and that text parses, giving the parsed value; a missing child raises AttributeError, a child without text TypeError, and unparseable text ValueError |
| DecoderProps.HexFieldOfPyHex | custom_components/rainforest/sensor.py:147 | a child whose text is what `hex(n)` prints reads as `n` |
| Hex.ParseHexOfPyHex | custom_components/rainforest/sensor.py:169 | for every integer, `int(hex(n), 16) == n` |
| Arith.Bit31 | custom_components/rainforest/sensor.py:148 | `raw & 0x80000000` is 0 or 2^31, and removing it from the low 32 bits of `raw` leaves a value below 2^31 |
| Arith.Low31 | custom_components/rainforest/sensor.py:148 | `raw & 0x7fffffff` lies below 2^31 and agrees with `raw` modulo 2^31 |
| Arith.SignExtend32 | custom_components/rainforest/sensor.py:148 | the masked sign extension gives a value in [-2^31, 2^31) congruent to the raw demand modulo 2^32 |
| Arith.SignedWordUnique | custom_components/rainforest/sensor.py:148 | that value is unique: two in-range values congruent modulo 2^32 are equal |
| Arith.SignExtendLow | custom_components/rainforest/sensor.py:148 | a raw demand below 2^31 keeps its value |
| Arith.SignExtendHigh | custom_components/rainforest/sensor.py:148 | a 32-bit raw demand with bit 31 set reads as raw - 2^32 |
| Arith.SignExtendPeriodic | custom_components/rainforest/sensor.py:148 | bits above bit 31 of the raw demand do not matter |
| Arith.SignExtendExamples | custom_components/rainforest/sensor.py:148 | 0xFFFFFFFF reads as -1, 5 as 5 and 0x80000000 as -2^31 |
| Arith.Pow10R | custom_components/rainforest/sensor.py:179 | `pow(10, d)` is positive; it equals 10^d for non-negative `d` and is the reciprocal of 10^-d for negative `d` |
| Arith.RoundHalfEven | custom_components/rainforest/sensor.py:169 | `round(x)` is within one half of `x`, and a tie goes to the even neighbour |
| Arith.RoundHalfEvenUnique | custom_components/rainforest/sensor.py:169 | those two properties determine `round(x)` |
| Arith.RoundHalfEvenExamples | custom_components/rainforest/sensor.py:169 | integers round to themselves; 2.5 rounds to 2, 3.5 to 4 and -0.5 to 0 |
| Arith.RoundTo | custom_components/rainforest/sensor.py:154 | `round(x, d)` is within half a unit of the `d`-th decimal of `x` |
| Arith.RoundToWholeUnits | custom_components/rainforest/sensor.py:200 | `round(x, d)` scaled by 10^d is the half-even integer nearest `x` scaled by 10^d |
| Arith.RoundToExact | custom_components/rainforest/sensor.py:154 | a value with at most `d` decimals is unchanged by `round(x, d)` |
| Decoder.ApplyOverride | custom_components/rainforest/sensor.py:163-173 | the custom-price step keeps every attribute present and Custom Price unset, a number or a text |
| Decoder.DemandStep | custom_components/rainforest/sensor.py:146-154 | the demand branch keeps the dictionary well formed |
| Decoder.DemandRecord | custom_components/rainforest/sensor.py:156-173 | the MAC-ID and custom-price part of the demand branch keeps the dictionary well formed |
| Decoder.PriceStep | custom_components/rainforest/sensor.py:176-181 | the PriceCluster branch keeps the dictionary well formed |
| Decoder.SummationStep | custom_components/rainforest/sensor.py:186-188 | the summation branch keeps the dictionary well formed |
| Decoder.SummationRecord | custom_components/rainforest/sensor.py:189-201 | the summation writes keep the dictionary well formed |
| Decoder.Step | custom_components/rainforest/sensor.py:140-201 | one fragment through the loop body keeps the dictionary well formed |
| Decoder.Run | custom_components/rainforest/sensor.py:135-207 | the polling loop keeps the dictionary well formed whatever the events |
| DecoderProps.DroppedFragmentChangesNothing | custom_components/rainforest/sensor.py:140-146 | a fragment that is not markup, does not parse, has no Demand text or has an unknown tag changes nothing and writes nothing |
| DecoderProps.EmptyFragmentRaises | custom_components/rainforest/sensor.py:140 | an empty fragment raises before anything changes |
| DecoderProps.StepFrame | custom_components/rainforest/sensor.py:140-201 | only a demand message can change the state, and each message kind writes only its own attributes |
| DecoderProps.DemandStepFrame | custom_components/rainforest/sensor.py:146-173 | the demand branch writes only the MAC IDs, Custom Price and Price |
| DecoderProps.DemandRecordFrame | custom_components/rainforest/sensor.py:156-173 | after the state is set, the rest of the demand branch keeps it and writes only the MAC IDs, Custom Price and Price |
| DecoderProps.PriceStepFrame | custom_components/rainforest/sensor.py:176-181 | a PriceCluster message keeps the state and writes only Price and Price Tier |
| DecoderProps.SummationStepFrame | custom_components/rainforest/sensor.py:184-201 | a summation message keeps the state and writes only the three kWh attributes |
| DecoderProps.DemandState | custom_components/rainforest/sensor.py:147-154 | with all four fields parsed, a non-zero divisor sets the state to the rounded, scaled, sign-extended demand and a zero divisor keeps it; the rest of the message proceeds either way |
| Decoder.DemandKw | custom_components/rainforest/sensor.py:148-154 | the demand in kW lies within half a unit of the DigitsRight-th decimal of signed demand × multiplier / divisor (the exact quotient); that it is the half-even choice is `Arith.RoundToWholeUnits` on that quotient |
| DecoderProps.DemandKwExample | custom_components/rainforest/sensor.py:147-154 | raw 0xFFFFFFFF with multiplier 1, divisor 1000 and 3 decimals reads -0.001 kW |
| DecoderProps.DemandRecordEffect | custom_components/rainforest/sensor.py:156-173 | MAC IDs are stored and a present override replaces Custom Price. A numeric Custom Price is copied to Price and one command carrying it is written. A non-numeric one is copied and then raises. An unset one changes nothing. No other attribute changes. |
| DecoderProps.DemandRecordMissingMac | custom_components/rainforest/sensor.py:156-157 | a missing MAC-ID child raises; the Device MAC ID is stored first when only the Meter one is missing |
| Decoder.PriceCommand | custom_components/rainforest/sensor.py:171 | the command text is the fixed head, then `hex` of the price, then the fixed tail |
| DecoderProps.CommandPriceRoundTrip | custom_components/rainforest/sensor.py:169-171 | the command is the fixed template around a price field that `int(_, 16)` reads back as the rounded custom price |
| DecoderProps.StepCommandIsPriceCommand | custom_components/rainforest/sensor.py:167-173 | the only command a fragment can write is a set_current_price command |
| DecoderProps.PriceClusterEffect | custom_components/rainforest/sensor.py:176-181 | Price becomes raw price / 10^TrailingDigits and Price Tier the tier, whatever Custom Price holds; nothing else changes and nothing is written |
| DecoderProps.PriceClusterOverwritesCustomPrice | custom_components/rainforest/sensor.py:176-179 | after a PriceCluster message with another value, Price differs from the Custom Price that is set |
| DecoderProps.SummationDispatch | custom_components/rainforest/sensor.py:186-188 | a summation message whose first three fields parse, with a non-zero divisor, goes on to the three writes |
| DecoderProps.SummationRecordWrites | custom_components/rainforest/sensor.py:189-201 | a complete summation message writes the three counters, Net being the rounded scaled difference of the raw counters, and sends nothing |
| DecoderProps.SummationRecordEffect | custom_components/rainforest/sensor.py:189-201 | Delivered and Received are the unrounded scaled counters. Net is their difference rounded to DigitsRight decimals. Nothing else changes. |
| Decoder.Scaled | custom_components/rainforest/sensor.py:186-188 | true division: the scaled counter times the divisor is the counter times the multiplier |
| DecoderProps.ScaledDifference | custom_components/rainforest/sensor.py:196-199 | scaling the counter difference equals the difference of the scaled counters |
| DecoderProps.SummationZeroDivisor | custom_components/rainforest/sensor.py:186-188 | a zero summation divisor raises before any attribute is written |
| Decoder.RunCons | custom_components/rainforest/sensor.py:135-207 | one pass of the loop: an idle poll changes nothing, a stop request ends polling, and a message either ends the thread on its fault or writes its command before the rest of the run |
| DecoderProps.RunAppend | custom_components/rainforest/sensor.py:135-207 | running two event sequences in turn is running their concatenation, the second only while still polling |
| DecoderProps.RunAppendReceived | custom_components/rainforest/sensor.py:135-207 | the same when the first event is a fragment |
| DecoderProps.StopIsFinal | custom_components/rainforest/sensor.py:135-207 | once the stop request is seen the loop ends and later events are ignored |
| DecoderProps.CrashIsFinal | custom_components/rainforest/sensor.py:135-207 | once a fragment raises, later events have no effect |
| DecoderProps.RunCommandCount | custom_components/rainforest/sensor.py:135-173 | the loop writes at most one command per event |
| DecoderProps.RunWritesPriceCommands | custom_components/rainforest/sensor.py:171-173 | every command the loop writes is a set_current_price command |
| Sensor.Emu2Sensor.HandleDemand | custom_components/rainforest/sensor.py:146-154 | the demand branch leaves the state, dictionary and outcome that `DemandStep` gives, and does not touch the flag |
| Sensor.Emu2Sensor.StoreDemandRecord | custom_components/rainforest/sensor.py:156-173 | the MAC-ID and custom-price writes leave what `DemandRecord` gives |
| Sensor.Emu2Sensor.HandlePrice | custom_components/rainforest/sensor.py:176-181 | the PriceCluster branch leaves what `PriceStep` gives |
| Sensor.Emu2Sensor.HandleSummation | custom_components/rainforest/sensor.py:186-188 | the summation branch leaves what `SummationStep` gives |
| Sensor.Emu2Sensor.StoreSummation | custom_components/rainforest/sensor.py:189-201 | the summation writes leave what `SummationRecord` gives |
| Sensor.Emu2Sensor.HandleFragment | custom_components/rainforest/sensor.py:140-201 | one pass of the loop body leaves what `Step` gives |
| Sensor.Emu2Sensor.SerialRead | custom_components/rainforest/sensor.py:135-207 | the loop leaves the reading, writes the commands and ends the way `Run` gives; the flag is clear exactly when the port was closed |

## Left out

- Opening the serial port, the retry every five seconds, and the half-second sleep when nothing is waiting. These are clocks and device I/O. A poll with nothing waiting is the `Idle` event.
- Reading and UTF-8 decoding of the bytes. Each event carries the decoded text. In the source, bytes that are not valid UTF-8 raise `UnicodeDecodeError` at `.decode()` and end the thread like any decoding fault; the model has no such event.
- XML parsing. Each event carries what `ElementTree.fromstring` made of the text (a root tag and the text of the first child of each tag), or nothing when it raised.
- Byte encoding and the result of `reader.write`. The model records the command text written.
- Thread start (`async_added_to_hass`), logging and `async_schedule_update_ha_state`. They change no state of the model.
- The other entity properties (name, icon, unit, `should_poll`), and `async_setup_platform`. The latter registers the stop listener with the result of calling `stop_serial_read()` rather than the method itself.
- Concurrency between the host and the thread. A stop request is an event between two checks of the flag.
- The host's custom-rate entity is taken per demand message as a `HostState`: the number `float` reads from its state text, or a text it rejects.
  - The dictionary holds that number where the source holds the state text itself.
  - `float` spellings such as `inf` and `nan`, where `round` raises on its own, are not modelled.
- Floating point. Divisions and `round` are on exact reals; rounding is half to even, which is what Python's `round` does on exactly representable values. Binary rounding error is not modelled.
- `int(text, 16)` is modelled with the six ASCII white-space characters stripped, an optional sign, an optional `0x` and ASCII hexadecimal digits. Python also accepts, and the model rejects: Unicode white space (including `\x1c`-`\x1f`), Unicode decimal digits, and underscores between digits or straight after `0x`.
- Decoder.DemandKw: its contract states only closeness to the exact quotient. The half-even choice holds by `Arith.RoundToWholeUnits` applied to that quotient, but stating the instance on an integer-over-integer quotient goes beyond what the verifier settles within its resource limit.
