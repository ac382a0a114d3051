/**
 * The EMU-2 sensor entity: the demand state and attribute dictionary that
 * the reading thread updates in place, one fragment at a time, and the flag
 * the host clears to stop that thread. Each method is proved to leave the
 * object in the state the Decoder functions describe.
 */
module Sensor {
  import opened Wrappers
  import opened Arith
  import opened Decoder

  class Emu2Sensor {
    /** `_state`: the demand in kW, `None` until the first demand message with a non-zero divisor. */
    var state: Option<real>
    /** `_data`: the attribute dictionary. */
    var data: map<Attr, Value>
    /** `_serial_thread_isEnabled`: the reading loop runs while this holds. */
    var serialThreadIsEnabled: bool

    ghost predicate Valid()
      reads this
    {
      WellFormed(data)
    }

    function Current(): Reading
      reads this
    {
      Reading(state, data)
    }

    /** `__init__`: every attribute unset, Custom Price seeded from the override source, the loop enabled. */
    constructor (customPriceSeed: Option<HostState>)
      ensures Valid() && Current() == Initial(customPriceSeed)
      ensures serialThreadIsEnabled
    {
      serialThreadIsEnabled := true;
      state := None;
      var d: map<Attr, Value> := map[];
      d := d[DeviceMacId := Null];
      d := d[MeterMacId := Null];
      d := d[PriceTier := Null];
      d := d[Price := Null];
      d := d[NetKwh := Null];
      d := d[DeliveredKwh := Null];
      d := d[ReceivedKwh := Null];
      if customPriceSeed.Some? {
        d := d[CustomPrice := HostValue(customPriceSeed.value)];
      } else {
        d := d[CustomPrice := Null];
      }
      EveryAttr(d);
      data := d;
    }

    /** `extra_state_attributes`: the eight attributes as the host sees them. */
    function ExtraStateAttributes(): (attrs: map<string, Value>)
      reads this
      ensures attrs.Keys == AttributeNames
      ensures Valid() ==> forall a: Attr :: attrs[AttrName(a)] == data[a]
    {
      AttributesByName(data);
      Attributes(data)
    }

    /** `stop_serial_read`: clears the flag; the loop notices at its next check. */
    method StopSerialRead()
      modifies this
      ensures !serialThreadIsEnabled
      ensures state == old(state) && data == old(data)
    {
      serialThreadIsEnabled := false;
    }

    /** The InstantaneousDemand branch, entered once the Demand child is known to have text. */
    method HandleDemand(e: Element, override: Option<HostState>) returns (outcome: Outcome)
      requires Valid()
      modifies this
      ensures Valid()
      ensures Transition(Current(), outcome) == DemandStep(old(Current()), e, override)
      ensures serialThreadIsEnabled == old(serialThreadIsEnabled)
    {
      var demand := HexField(e, "Demand");
      if demand.Err? { return Raised(demand.fault); }
      var multiplier := HexField(e, "Multiplier");
      if multiplier.Err? { return Raised(multiplier.fault); }
      var divisor := HexField(e, "Divisor");
      if divisor.Err? { return Raised(divisor.fault); }
      var digitsRight := HexField(e, "DigitsRight");
      if digitsRight.Err? { return Raised(digitsRight.fault); }
      var signed := SignExtend32(demand.value);
      if divisor.value != 0 {
        state := Some(RoundTo((signed * multiplier.value) as real / divisor.value as real, digitsRight.value));
      }
      outcome := StoreDemandRecord(e, override);
    }

    /** Lines storing the MAC IDs and applying the custom price, after the demand state is set. */
    method StoreDemandRecord(e: Element, override: Option<HostState>) returns (outcome: Outcome)
      requires Valid()
      modifies this
      ensures Valid()
      ensures Transition(Current(), outcome) == DemandRecord(old(Current()), e, override)
      ensures serialThreadIsEnabled == old(serialThreadIsEnabled)
    {
      var device := ChildText(e, "DeviceMacId");
      if device.Err? { return Raised(device.fault); }
      data := data[DeviceMacId := TextValue(device.value)];
      var meter := ChildText(e, "MeterMacId");
      if meter.Err? { return Raised(meter.fault); }
      data := data[MeterMacId := TextValue(meter.value)];

      if override.Some? {
        data := data[CustomPrice := HostValue(override.value)];
      }
      if data[CustomPrice] == Null {
        return Handled(None);
      }
      data := data[Price := data[CustomPrice]];
      if data[CustomPrice].Text? {
        return Raised(NotNumber);
      }
      var customPrice := data[CustomPrice].r;
      return Handled(Some(PriceCommand(RoundHalfEven(customPrice))));
    }

    /** The PriceCluster branch. */
    method HandlePrice(e: Element) returns (outcome: Outcome)
      requires Valid()
      modifies this
      ensures Valid()
      ensures Transition(Current(), outcome) == PriceStep(old(Current()), e)
      ensures serialThreadIsEnabled == old(serialThreadIsEnabled)
    {
      var priceRaw := HexField(e, "Price");
      if priceRaw.Err? { return Raised(priceRaw.fault); }
      var trailingDigits := HexField(e, "TrailingDigits");
      if trailingDigits.Err? { return Raised(trailingDigits.fault); }
      data := data[Price := Num(priceRaw.value as real / Pow10R(trailingDigits.value))];
      var tier := HexField(e, "Tier");
      if tier.Err? { return Raised(tier.fault); }
      data := data[PriceTier := Int(tier.value)];
      return Handled(None);
    }

    /**
     * The CurrentSummationDelivered branch. The source parses the same
     * children again for each of the three values; parsing is deterministic,
     * so the values parsed once are reused.
     */
    method HandleSummation(e: Element) returns (outcome: Outcome)
      requires Valid()
      modifies this
      ensures Valid()
      ensures Transition(Current(), outcome) == SummationStep(old(Current()), e)
      ensures serialThreadIsEnabled == old(serialThreadIsEnabled)
    {
      var delivered := HexField(e, "SummationDelivered");
      if delivered.Err? { return Raised(delivered.fault); }
      var multiplier := HexField(e, "Multiplier");
      if multiplier.Err? { return Raised(multiplier.fault); }
      var divisor := HexField(e, "Divisor");
      if divisor.Err? { return Raised(divisor.fault); }
      if divisor.value == 0 { return Raised(DivisionByZero); }
      outcome := StoreSummation(e, delivered.value, multiplier.value, divisor.value);
    }

    /** Lines writing Delivered, Received and Net in turn, once the divisor is known to be non-zero. */
    method StoreSummation(e: Element, delivered: int, multiplier: int, divisor: int) returns (outcome: Outcome)
      requires Valid() && divisor != 0
      modifies this
      ensures Valid()
      ensures Transition(Current(), outcome) == SummationRecord(old(Current()), e, delivered, multiplier, divisor)
      ensures serialThreadIsEnabled == old(serialThreadIsEnabled)
    {
      data := data[DeliveredKwh := Num((delivered * multiplier) as real / divisor as real)];

      var received := HexField(e, "SummationReceived");
      if received.Err? { return Raised(received.fault); }
      data := data[ReceivedKwh := Num((received.value * multiplier) as real / divisor as real)];

      var digitsRight := HexField(e, "DigitsRight");
      if digitsRight.Err? { return Raised(digitsRight.fault); }
      var energy := ((delivered - received.value) * multiplier) as real / divisor as real;
      data := data[NetKwh := Num(RoundTo(energy, digitsRight.value))];
      return Handled(None);
    }

    /** One pass through the body of the reading loop with a fragment read from the port. */
    method HandleFragment(f: Fragment, override: Option<HostState>) returns (outcome: Outcome)
      requires Valid()
      modifies this
      ensures Valid()
      ensures Transition(Current(), outcome) == Step(old(Current()), f, override)
      ensures serialThreadIsEnabled == old(serialThreadIsEnabled)
    {
      if f.text == [] { return Raised(EmptyText); }
      if f.text[0] != '<' { return Handled(None); }
      if f.tree.None? { return Handled(None); }
      var e := f.tree.value;
      if e.tag == "InstantaneousDemand" {
        var demandText := ChildText(e, "Demand");
        if demandText.Err? { return Raised(demandText.fault); }
        if demandText.value.None? { return Handled(None); }
        outcome := HandleDemand(e, override);
      } else if e.tag == "PriceCluster" {
        outcome := HandlePrice(e);
      } else if e.tag == "CurrentSummationDelivered" {
        outcome := HandleSummation(e);
      } else {
        outcome := Handled(None);
      }
    }

    /**
     * The reading loop of `serial_read` once the port is open: while the flag
     * holds, take the next event; stop on an exception; after the flag is
     * cleared, close the port. Returns the commands written to the port.
     */
    method SerialRead(events: seq<Event>) returns (commands: seq<string>, end: LoopEnd)
      requires Valid()
      modifies this
      ensures Valid()
      ensures RunResult(Current(), commands, end) == Run(old(Current()), old(serialThreadIsEnabled), events)
      ensures serialThreadIsEnabled == !end.Closed?
    {
      commands := [];
      var i := 0;
      while serialThreadIsEnabled && i < |events|
        invariant 0 <= i <= |events|
        invariant Valid()
        decreases |events| - i
        invariant Run(old(Current()), old(serialThreadIsEnabled), events)
               == Prepend(commands, Run(Current(), serialThreadIsEnabled, events[i..]))
      {
        assert events[i..] == [events[i]] + events[i + 1..];
        RunCons(Current(), events[i], events[i + 1..]);
        match events[i] {
          case Idle =>
          case StopRequested =>
            StopSerialRead();
          case Received(f, override) =>
            var outcome := HandleFragment(f, override);
            if outcome.Raised? {
              return commands, Crashed(outcome.fault);
            }
            commands := commands + CommandsOf(outcome);
        }
        i := i + 1;
      }
      end := if serialThreadIsEnabled then Polling else Closed;
    }
  }
}
