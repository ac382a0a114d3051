/**
 * What the decoder promises, proved about the functions of module Decoder:
 * which attributes each message touches, the divisor guard of the demand
 * path, the sticky custom price and the command it produces, the rounding
 * asymmetry of the summation message, the fragments that change nothing,
 * and how the polling loop ends.
 */
module DecoderProps {
  import opened Wrappers
  import opened Hex
  import opened Arith
  import opened Decoder

  /** The attributes a message with this root tag may write. */
  function TouchedKeys(tag: string): set<Attr> {
    if tag == "InstantaneousDemand" then {DeviceMacId, MeterMacId, CustomPrice, Price}
    else if tag == "PriceCluster" then {Price, PriceTier}
    else if tag == "CurrentSummationDelivered" then {DeliveredKwh, ReceivedKwh, NetKwh}
    else {}
  }

  function TagOf(f: Fragment): string {
    if f.tree.Some? then f.tree.value.tag else ""
  }

  /** A fragment the decoder reaches with a parsed element. */
  predicate Parsed(f: Fragment) {
    f.text != [] && f.text[0] == '<' && f.tree.Some?
  }

  /** A demand message whose Demand child has text. */
  predicate IsDemand(f: Fragment) {
    Parsed(f) && f.tree.value.tag == "InstantaneousDemand" && ChildText(f.tree.value, "Demand").Ok?
    && ChildText(f.tree.value, "Demand").value.Some?
  }

  /** Fragments the loop drops: not markup, not parseable, a demand message without Demand text, or an unknown tag. */
  predicate Dropped(f: Fragment) {
    f.text != [] &&
    (f.text[0] != '<' || f.tree.None? ||
     (f.tree.value.tag == "InstantaneousDemand" && ChildText(f.tree.value, "Demand") == Ok(None)) ||
     f.tree.value.tag !in {"InstantaneousDemand", "PriceCluster", "CurrentSummationDelivered"})
  }

  /** A dropped fragment changes neither the state nor any attribute, and writes nothing. */
  lemma DroppedFragmentChangesNothing(r: Reading, f: Fragment, override: Option<HostState>)
    requires WellFormed(r.data) && Dropped(f)
    ensures Step(r, f, override) == Transition(r, Handled(None))
  {
  }

  /** The one fragment text that raises instead: the empty one, whose first character does not exist. */
  lemma EmptyFragmentRaises(r: Reading, f: Fragment, override: Option<HostState>)
    requires WellFormed(r.data) && f.text == []
    ensures Step(r, f, override) == Transition(r, Raised(EmptyText))
  {
  }

  /** Only a demand message changes the state, and a message writes no attribute outside its tag's set. */
  lemma StepFrame(r: Reading, f: Fragment, override: Option<HostState>)
    requires WellFormed(r.data)
    ensures var t := Step(r, f, override);
      (t.after.state != r.state ==> TagOf(f) == "InstantaneousDemand") &&
      forall k :: k in r.data && k !in TouchedKeys(TagOf(f)) ==> t.after.data[k] == r.data[k]
  {
    if Parsed(f) {
      var e := f.tree.value;
      if e.tag == "InstantaneousDemand" {
        if ChildText(e, "Demand").Ok? && ChildText(e, "Demand").value.Some? {
          DemandStepFrame(r, e, override);
        }
      } else if e.tag == "PriceCluster" {
        PriceStepFrame(r, e);
      } else if e.tag == "CurrentSummationDelivered" {
        SummationStepFrame(r, e);
      }
    }
  }

  /** The demand path writes only the MAC IDs, Custom Price and Price. */
  lemma DemandStepFrame(r: Reading, e: Element, override: Option<HostState>)
    requires WellFormed(r.data)
    ensures var t := DemandStep(r, e, override);
      forall k :: k in r.data && k !in TouchedKeys("InstantaneousDemand") ==> t.after.data[k] == r.data[k]
  {
    match HexField(e, "Demand")
    case Err(_) =>
    case Ok(raw) =>
      match HexField(e, "Multiplier")
      case Err(_) =>
      case Ok(multiplier) =>
        match HexField(e, "Divisor")
        case Err(_) =>
        case Ok(divisor) =>
          match HexField(e, "DigitsRight")
          case Err(_) =>
          case Ok(digitsRight) =>
            var state := if divisor != 0 then Some(DemandKw(raw, multiplier, divisor, digitsRight)) else r.state;
            DemandRecordFrame(Reading(state, r.data), e, override);
  }

  /** After the state is set, the demand path keeps it and writes only the MAC IDs, Custom Price and Price. */
  lemma DemandRecordFrame(r: Reading, e: Element, override: Option<HostState>)
    requires WellFormed(r.data)
    ensures var t := DemandRecord(r, e, override);
      t.after.state == r.state &&
      forall k :: k in r.data && k !in TouchedKeys("InstantaneousDemand") ==> t.after.data[k] == r.data[k]
  {
  }

  /** A PriceCluster message keeps the state and writes only Price and Price Tier. */
  lemma PriceStepFrame(r: Reading, e: Element)
    requires WellFormed(r.data)
    ensures var t := PriceStep(r, e);
      t.after.state == r.state &&
      forall k :: k in r.data && k !in TouchedKeys("PriceCluster") ==> t.after.data[k] == r.data[k]
  {
  }

  /** A summation message keeps the state and writes only the three kWh attributes. */
  lemma SummationStepFrame(r: Reading, e: Element)
    requires WellFormed(r.data)
    ensures var t := SummationStep(r, e);
      t.after.state == r.state &&
      forall k :: k in r.data && k !in TouchedKeys("CurrentSummationDelivered") ==> t.after.data[k] == r.data[k]
  {
  }

  /**
   * The state after a demand message whose four numeric fields parse: the
   * rounded, scaled, sign-extended demand when the divisor is non-zero, the
   * previous state when it is zero. Either way the rest of the message (MAC
   * IDs, custom price) is processed against that state.
   */
  lemma DemandState(r: Reading, f: Fragment, override: Option<HostState>, raw: int, multiplier: int, divisor: int, digitsRight: int)
    requires WellFormed(r.data) && IsDemand(f)
    requires HexField(f.tree.value, "Demand") == Ok(raw)
    requires HexField(f.tree.value, "Multiplier") == Ok(multiplier)
    requires HexField(f.tree.value, "Divisor") == Ok(divisor)
    requires HexField(f.tree.value, "DigitsRight") == Ok(digitsRight)
    ensures var state := if divisor != 0 then Some(DemandKw(raw, multiplier, divisor, digitsRight)) else r.state;
      Step(r, f, override) == DemandRecord(Reading(state, r.data), f.tree.value, override)
    ensures divisor == 0 ==> Step(r, f, override).after.state == r.state
    ensures divisor != 0 ==> Step(r, f, override).after.state == Some(DemandKw(raw, multiplier, divisor, digitsRight))
  {
  }

  /**
   * A demand message that gets past both MAC IDs: they are stored, a present
   * override replaces Custom Price and an absent one keeps it; if Custom
   * Price is then set, Price takes it, and exactly one command carrying it
   * is written when it is a number, while a text `float` rejects raises;
   * otherwise Price is untouched and nothing is written. The state and the
   * other attributes are unchanged.
   */
  lemma DemandRecordEffect(r: Reading, e: Element, override: Option<HostState>)
    requires WellFormed(r.data)
    requires "DeviceMacId" in e.children && "MeterMacId" in e.children
    ensures var t := DemandRecord(r, e, override);
      var custom := if override.Some? then HostValue(override.value) else r.data[CustomPrice];
      t.after.state == r.state &&
      t.after.data[DeviceMacId] == TextValue(e.children["DeviceMacId"]) &&
      t.after.data[MeterMacId] == TextValue(e.children["MeterMacId"]) &&
      t.after.data[CustomPrice] == custom &&
      (custom.Num? ==> t.after.data[Price] == custom &&
                       t.outcome == Handled(Some(PriceCommand(RoundHalfEven(custom.r))))) &&
      (custom.Text? ==> t.after.data[Price] == custom && t.outcome == Raised(NotNumber)) &&
      (custom.Null? ==> t.after.data[Price] == r.data[Price] && t.outcome == Handled(None)) &&
      forall k :: k in r.data && k !in TouchedKeys("InstantaneousDemand") ==> t.after.data[k] == r.data[k]
  {
  }

  /** A missing MAC ID child raises after the state is set; the Device MAC ID is stored when only the Meter one is missing. */
  lemma DemandRecordMissingMac(r: Reading, e: Element, override: Option<HostState>)
    requires WellFormed(r.data)
    requires "DeviceMacId" !in e.children || "MeterMacId" !in e.children
    ensures var t := DemandRecord(r, e, override);
      t.after.state == r.state && t.outcome.Raised? &&
      ("DeviceMacId" !in e.children ==> t.after.data == r.data && t.outcome.fault == MissingChild("DeviceMacId")) &&
      ("DeviceMacId" in e.children ==>
         t.after.data == r.data[DeviceMacId := TextValue(e.children["DeviceMacId"])] &&
         t.outcome.fault == MissingChild("MeterMacId"))
  {
  }

  /**
   * The command's price field, read back with the parser used for inbound
   * fields, is the custom price rounded to an integer; the text around it is
   * the fixed template.
   */
  lemma CommandPriceRoundTrip(customPrice: real)
    ensures var c := PriceCommand(RoundHalfEven(customPrice));
      |c| > |CommandHead| + |CommandTail| &&
      c[..|CommandHead|] == CommandHead &&
      c[|c| - |CommandTail|..] == CommandTail &&
      ParseHex(c[|CommandHead|..|c| - |CommandTail|]) == Some(RoundHalfEven(customPrice))
  {
    var n := RoundHalfEven(customPrice);
    var h := PyHex(n);
    var c := PriceCommand(n);
    assert c == CommandHead + h + CommandTail;
    assert c[|CommandHead|..|c| - |CommandTail|] == h;
    ParseHexOfPyHex(n);
  }

  /**
   * A PriceCluster message whose three fields parse sets Price to the raw
   * price over 10^TrailingDigits and Price Tier to the tier, whatever Custom
   * Price holds; nothing else changes and nothing is written.
   */
  lemma PriceClusterEffect(r: Reading, f: Fragment, override: Option<HostState>, priceRaw: int, trailingDigits: int, tier: int)
    requires WellFormed(r.data) && Parsed(f) && f.tree.value.tag == "PriceCluster"
    requires HexField(f.tree.value, "Price") == Ok(priceRaw)
    requires HexField(f.tree.value, "TrailingDigits") == Ok(trailingDigits)
    requires HexField(f.tree.value, "Tier") == Ok(tier)
    ensures var t := Step(r, f, override);
      t.outcome == Handled(None) && t.after.state == r.state &&
      t.after.data[Price] == Num(priceRaw as real / Pow10R(trailingDigits)) &&
      t.after.data[PriceTier] == Int(tier) &&
      forall k :: k in r.data && k != Price && k != PriceTier ==> t.after.data[k] == r.data[k]
  {
    assert Step(r, f, override) == PriceStep(r, f.tree.value);
  }

  /**
   * A custom price does not shield Price from the device: after a PriceCluster
   * message reporting another value, Price and Custom Price differ (until
   * the next demand message copies Custom Price over Price again).
   */
  lemma PriceClusterOverwritesCustomPrice(r: Reading, f: Fragment, override: Option<HostState>, priceRaw: int, trailingDigits: int, tier: int, custom: real)
    requires WellFormed(r.data) && Parsed(f) && f.tree.value.tag == "PriceCluster"
    requires HexField(f.tree.value, "Price") == Ok(priceRaw)
    requires HexField(f.tree.value, "TrailingDigits") == Ok(trailingDigits)
    requires HexField(f.tree.value, "Tier") == Ok(tier)
    requires r.data[CustomPrice] == Num(custom) && priceRaw as real / Pow10R(trailingDigits) != custom
    ensures var t := Step(r, f, override);
      t.after.data[CustomPrice] == Num(custom) && t.after.data[Price] != t.after.data[CustomPrice]
  {
    PriceClusterEffect(r, f, override, priceRaw, trailingDigits, tier);
  }

  /** A summation message whose first three fields parse, with a non-zero divisor, goes on to write the three attributes. */
  lemma SummationDispatch(r: Reading, f: Fragment, override: Option<HostState>, delivered: int, multiplier: int, divisor: int)
    requires WellFormed(r.data) && Parsed(f) && f.tree.value.tag == "CurrentSummationDelivered"
    requires HexField(f.tree.value, "SummationDelivered") == Ok(delivered)
    requires HexField(f.tree.value, "Multiplier") == Ok(multiplier)
    requires HexField(f.tree.value, "Divisor") == Ok(divisor)
    requires divisor != 0
    ensures Step(r, f, override) == SummationRecord(r, f.tree.value, delivered, multiplier, divisor)
  {
  }

  /**
   * The three summation attributes once the divisor is known to be non-zero
   * and both later fields parse: Delivered and Received are the scaled
   * counters, unrounded; Net is their difference rounded to DigitsRight
   * decimals. The state and the other attributes are unchanged.
   */
  lemma SummationRecordEffect(r: Reading, e: Element, delivered: int, received: int, multiplier: int, divisor: int, digitsRight: int)
    requires WellFormed(r.data) && divisor != 0
    requires HexField(e, "SummationReceived") == Ok(received)
    requires HexField(e, "DigitsRight") == Ok(digitsRight)
    ensures var t := SummationRecord(r, e, delivered, multiplier, divisor);
      t.outcome == Handled(None) && t.after.state == r.state &&
      t.after.data[DeliveredKwh] == Num(Scaled(delivered, multiplier, divisor)) &&
      t.after.data[ReceivedKwh] == Num(Scaled(received, multiplier, divisor)) &&
      t.after.data[NetKwh] == Num(RoundTo(t.after.data[DeliveredKwh].r - t.after.data[ReceivedKwh].r, digitsRight)) &&
      forall k :: k in r.data && k !in TouchedKeys("CurrentSummationDelivered") ==> t.after.data[k] == r.data[k]
  {
    SummationRecordWrites(r, e, delivered, received, multiplier, divisor, digitsRight);
    ScaledDifference(delivered, received, multiplier, divisor);
  }

  /** The values SummationRecord writes, with Net computed from the counter difference as the source does. */
  lemma SummationRecordWrites(r: Reading, e: Element, delivered: int, received: int, multiplier: int, divisor: int, digitsRight: int)
    requires WellFormed(r.data) && divisor != 0
    requires HexField(e, "SummationReceived") == Ok(received)
    requires HexField(e, "DigitsRight") == Ok(digitsRight)
    ensures var t := SummationRecord(r, e, delivered, multiplier, divisor);
      t.after == Reading(r.state, r.data[DeliveredKwh := Num(Scaled(delivered, multiplier, divisor))]
                                       [ReceivedKwh := Num(Scaled(received, multiplier, divisor))]
                                       [NetKwh := Num(RoundTo(Scaled(delivered - received, multiplier, divisor), digitsRight))]) &&
      t.outcome == Handled(None)
  {
  }

  lemma ScaledDifference(a: int, b: int, multiplier: int, divisor: int)
    requires divisor != 0
    ensures Scaled(a - b, multiplier, divisor) == Scaled(a, multiplier, divisor) - Scaled(b, multiplier, divisor)
  {
    var q := divisor as real;
    assert (a - b) * multiplier == a * multiplier - b * multiplier;
    assert ((a * multiplier) as real - (b * multiplier) as real) / q
        == (a * multiplier) as real / q - (b * multiplier) as real / q;
  }

  /** A summation message with a zero divisor raises before any attribute is written. */
  lemma SummationZeroDivisor(r: Reading, f: Fragment, override: Option<HostState>, delivered: int, multiplier: int)
    requires WellFormed(r.data) && Parsed(f) && f.tree.value.tag == "CurrentSummationDelivered"
    requires HexField(f.tree.value, "SummationDelivered") == Ok(delivered)
    requires HexField(f.tree.value, "Multiplier") == Ok(multiplier)
    requires HexField(f.tree.value, "Divisor") == Ok(0)
    ensures Step(r, f, override) == Transition(r, Raised(DivisionByZero))
  {
  }

  /** The attributes at construction: all `None` but Custom Price, which holds the seed. */
  lemma InitialAttributes(seed: Option<HostState>)
    ensures forall a: Attr :: Attributes(InitialData(seed))[AttrName(a)] == (if a == CustomPrice then OptionValue(seed) else Null)
  {
    AttributesByName(InitialData(seed));
  }

  /** On a well-formed dictionary the attributes are the dictionary itself. */
  lemma AttributesOfWellFormed(data: map<Attr, Value>)
    requires WellFormed(data)
    ensures forall a: Attr :: Attributes(data)[AttrName(a)] == data[a]
  {
    AttributesByName(data);
  }

  /** Running two event sequences one after the other: the second only runs if the loop is still polling after the first. */
  lemma {:induction false} RunAppend(r: Reading, enabled: bool, a: seq<Event>, b: seq<Event>)
    requires WellFormed(r.data)
    ensures var ra := Run(r, enabled, a);
      Run(r, enabled, a + b) == if ra.end == Polling then Prepend(ra.commands, Run(ra.reading, true, b)) else ra
    decreases |a|, 1
  {
    if !enabled {
    } else if a == [] {
      assert a + b == b;
      var rb := Run(r, true, b);
      assert [] + rb.commands == rb.commands;
    } else {
      assert (a + b)[0] == a[0] && (a + b)[1..] == a[1..] + b;
      match a[0]
      case Idle =>
        RunAppend(r, true, a[1..], b);
      case StopRequested =>
        RunAppend(r, false, a[1..], b);
      case Received(f, override) =>
        RunAppendReceived(r, a, b);
    }
  }

  /** RunAppend when the first event is a fragment. */
  lemma {:induction false} RunAppendReceived(r: Reading, a: seq<Event>, b: seq<Event>)
    requires WellFormed(r.data) && a != [] && a[0].Received?
    ensures var ra := Run(r, true, a);
      Run(r, true, a + b) == if ra.end == Polling then Prepend(ra.commands, Run(ra.reading, true, b)) else ra
    decreases |a|, 0
  {
    assert (a + b)[0] == a[0] && (a + b)[1..] == a[1..] + b;
    var t := Step(r, a[0].fragment, a[0].override);
    if t.outcome.Handled? {
      RunAppend(t.after, true, a[1..], b);
      var ra := Run(t.after, true, a[1..]);
      if ra.end == Polling {
        var rb := Run(ra.reading, true, b);
        assert CommandsOf(t.outcome) + (ra.commands + rb.commands) == (CommandsOf(t.outcome) + ra.commands) + rb.commands;
      }
    }
  }

  /** Once the stop request is seen the port is closed, and later events are never looked at. */
  lemma StopIsFinal(r: Reading, enabled: bool, a: seq<Event>, b: seq<Event>)
    requires WellFormed(r.data)
    ensures Run(r, enabled, a + [StopRequested] + b) == Run(r, enabled, a + [StopRequested])
    ensures Run(r, enabled, a + [StopRequested]).end != Polling
  {
    RunAppend(r, enabled, a, [StopRequested] + b);
    RunAppend(r, enabled, a, [StopRequested]);
    assert a + [StopRequested] + b == a + ([StopRequested] + b);
  }

  /** An exception ends the thread for good: later events have no effect, and the port is not closed. */
  lemma CrashIsFinal(r: Reading, enabled: bool, a: seq<Event>, b: seq<Event>)
    requires WellFormed(r.data) && Run(r, enabled, a).end.Crashed?
    ensures Run(r, enabled, a + b) == Run(r, enabled, a)
  {
    RunAppend(r, enabled, a, b);
  }

  /** A child whose text is what `hex(n)` prints reads back as `n`. */
  lemma HexFieldOfPyHex(e: Element, tag: string, n: int)
    requires tag in e.children && e.children[tag] == Some(PyHex(n))
    ensures HexField(e, tag) == Ok(n)
  {
    ParseHexOfPyHex(n);
  }

  /** Text of the set_current_price command for some integer price. */
  ghost predicate IsPriceCommand(c: string) {
    exists n: int :: c == PriceCommand(n)
  }

  /** At most one command is written per event. */
  lemma {:induction false} RunCommandCount(r: Reading, enabled: bool, events: seq<Event>)
    requires WellFormed(r.data)
    ensures |Run(r, enabled, events).commands| <= |events|
    decreases |events|
  {
    if enabled && events != [] {
      match events[0]
      case Idle =>
        RunCommandCount(r, true, events[1..]);
      case StopRequested =>
      case Received(f, override) =>
        var t := Step(r, f, override);
        if t.outcome.Handled? {
          RunCommandCount(t.after, true, events[1..]);
        }
    }
  }

  /** Every command the loop writes is a set_current_price command. */
  lemma {:induction false} RunWritesPriceCommands(r: Reading, enabled: bool, events: seq<Event>)
    requires WellFormed(r.data)
    ensures forall c :: c in Run(r, enabled, events).commands ==> IsPriceCommand(c)
    decreases |events|
  {
    if enabled && events != [] {
      match events[0]
      case Idle =>
        RunWritesPriceCommands(r, true, events[1..]);
      case StopRequested =>
      case Received(f, override) =>
        var t := Step(r, f, override);
        if t.outcome.Handled? {
          RunWritesPriceCommands(t.after, true, events[1..]);
          StepCommandIsPriceCommand(r, f, override);
          var head := CommandsOf(t.outcome);
          var rest := Run(t.after, true, events[1..]).commands;
          assert Run(r, enabled, events).commands == head + rest;
          assert forall c :: c in head ==> IsPriceCommand(c);
        }
    }
  }

  lemma StepCommandIsPriceCommand(r: Reading, f: Fragment, override: Option<HostState>)
    requires WellFormed(r.data)
    ensures var o := Step(r, f, override).outcome;
      o.Handled? && o.command.Some? ==> IsPriceCommand(o.command.value)
  {
    var t := Step(r, f, override);
    if t.outcome.Handled? && t.outcome.command.Some? {
      var e := f.tree.value;
      assert IsDemand(f);
      var raw, m, div, dr := HexField(e, "Demand").value, HexField(e, "Multiplier").value,
                             HexField(e, "Divisor").value, HexField(e, "DigitsRight").value;
      var state := if div != 0 then Some(DemandKw(raw, m, div, dr)) else r.state;
      var r1 := Reading(state, r.data);
      DemandRecordEffect(r1, e, override);
      var custom := if override.Some? then HostValue(override.value) else r.data[CustomPrice];
      assert t.outcome.command.value == PriceCommand(RoundHalfEven(custom.r));
    }
  }

  /** A raw demand of 0xFFFFFFFF (that is, -1) with multiplier 1, divisor 1000 and three decimals reads -0.001 kW. */
  lemma DemandKwExample()
    ensures DemandKw(0xFFFF_FFFF, 1, 1000, 3) == -0.001
  {
    SignExtendExamples();
    RoundToExact(-0.001, 3);
  }
}
