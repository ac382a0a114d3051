/**
 * The message decoder and reading store of the EMU-2 sensor, as values: one
 * step takes the current reading (the demand state and the attribute
 * dictionary) and one fragment read from the serial port, and gives the new
 * reading and what the step did (a command to write back, or the exception
 * that ends the reading thread). `Run` is the polling loop over a finite
 * sequence of events. The class in sensor.dfy performs the same steps in
 * place and is proved against these functions.
 */
module Decoder {
  import opened Wrappers
  import opened Hex
  import opened Arith

  /** The keys of the attribute dictionary. */
  datatype Attr = DeviceMacId | MeterMacId | PriceTier | Price | NetKwh | DeliveredKwh | ReceivedKwh | CustomPrice

  /** The name under which the host shows each attribute. */
  function AttrName(a: Attr): string {
    match a
    case DeviceMacId => "Device MAC ID"
    case MeterMacId => "Meter MAC ID"
    case PriceTier => "Price Tier"
    case Price => "Price"
    case NetKwh => "Net kWh"
    case DeliveredKwh => "Delivered kWh"
    case ReceivedKwh => "Received kWh"
    case CustomPrice => "Custom Price"
  }

  /** No two attributes share a name. */
  lemma AttrNameInjective(a: Attr, b: Attr)
    requires AttrName(a) == AttrName(b)
    ensures a == b
  {
  }

  /** The eight names `AttrName` gives, as a set (AttributesByName relates the two). */
  const AttributeNames: set<string> :=
    {"Device MAC ID", "Meter MAC ID", "Price Tier", "Price", "Net kWh", "Delivered kWh", "Received kWh", "Custom Price"}

  /** A value stored in the attribute dictionary: `None`, a text, an integer or a number. */
  datatype Value = Null | Text(text: string) | Int(i: int) | Num(r: real)

  /** A parsed fragment: the root tag and, per child tag, the text of the first such child (`None` for an empty element). */
  datatype Element = Element(tag: string, children: map<string, Option<string>>)

  /**
   * What one poll cycle read: the decoded text, and what the XML parser made
   * of it (`None` when it raised a parse error).
   */
  datatype Fragment = Fragment(text: string, tree: Option<Element>)

  /** The exceptions that escape the decoding code and end the reading thread. */
  datatype Fault =
    | EmptyText                 // IndexError: `msgStr[0]` of an empty string
    | MissingChild(tag: string) // AttributeError: `.text` of the `None` that `find` returns
    | NoText(tag: string)       // TypeError: `int(None, 16)`
    | NotHex(tag: string)       // ValueError: `int(text, 16)` of text that is not base 16
    | DivisionByZero            // ZeroDivisionError in the summation arithmetic
    | NotNumber                 // ValueError: `float` of a custom rate that is not a number

  /** What one step did: it finished, having written at most one command, or it raised. */
  datatype Outcome = Handled(command: Option<string>) | Raised(fault: Fault)

  /**
   * The state of the host's custom-rate entity, a text, as `float` reads it:
   * the number it denotes, or a text that `float` rejects.
   */
  datatype HostState = Numeric(r: real) | NonNumeric(text: string)

  /** The state text as stored in the dictionary. */
  function HostValue(h: HostState): Value {
    match h
    case Numeric(r) => Num(r)
    case NonNumeric(t) => Text(t)
  }

  /** The sensor's reading: `_state` (the demand in kW) and the `_data` dictionary. */
  datatype Reading = Reading(state: Option<real>, data: map<Attr, Value>)

  datatype Transition = Transition(after: Reading, outcome: Outcome)

  datatype Result<T> = Ok(value: T) | Err(fault: Fault)

  /** The dictionary holds every attribute, and Custom Price is unset or a state of the custom-rate entity. */
  predicate WellFormed(data: map<Attr, Value>) {
    (forall a: Attr :: a in data) && (data[CustomPrice].Null? || data[CustomPrice].Num? || data[CustomPrice].Text?)
  }

  function OptionValue(seed: Option<HostState>): Value {
    if seed.Some? then HostValue(seed.value) else Null
  }

  /** A dictionary holding an entry for each of the eight attributes holds every attribute. */
  lemma EveryAttr(data: map<Attr, Value>)
    requires DeviceMacId in data && MeterMacId in data && PriceTier in data && Price in data
    requires NetKwh in data && DeliveredKwh in data && ReceivedKwh in data && CustomPrice in data
    ensures forall a: Attr :: a in data
  {
    forall a: Attr
      ensures a in data
    {
      match a
      case DeviceMacId =>
      case MeterMacId =>
      case PriceTier =>
      case Price =>
      case NetKwh =>
      case DeliveredKwh =>
      case ReceivedKwh =>
      case CustomPrice =>
    }
  }

  /** The dictionary at construction: every attribute unset except Custom Price, seeded from the override source. */
  function InitialData(seed: Option<HostState>): (data: map<Attr, Value>)
    ensures WellFormed(data)
    ensures forall a: Attr :: a != CustomPrice ==> data[a] == Null
    ensures data[CustomPrice] == OptionValue(seed)
  {
    var data := map[DeviceMacId := Null, MeterMacId := Null, PriceTier := Null, Price := Null,
                    NetKwh := Null, DeliveredKwh := Null, ReceivedKwh := Null,
                    CustomPrice := OptionValue(seed)];
    EveryAttr(data);
    data
  }

  function Initial(seed: Option<HostState>): Reading {
    Reading(None, InitialData(seed))
  }

  /** `dict.get`: the entry for an attribute, or `None` when there is none. */
  function Get(data: map<Attr, Value>, a: Attr): Value {
    if a in data then data[a] else Null
  }

  /** `extra_state_attributes`: a new dictionary from the eight attribute names to their entries. */
  function Attributes(data: map<Attr, Value>): (attrs: map<string, Value>)
    ensures attrs.Keys == AttributeNames
  {
    map[AttrName(DeviceMacId) := Get(data, DeviceMacId),
        AttrName(MeterMacId) := Get(data, MeterMacId),
        AttrName(PriceTier) := Get(data, PriceTier),
        AttrName(Price) := Get(data, Price),
        AttrName(NetKwh) := Get(data, NetKwh),
        AttrName(DeliveredKwh) := Get(data, DeliveredKwh),
        AttrName(ReceivedKwh) := Get(data, ReceivedKwh),
        AttrName(CustomPrice) := Get(data, CustomPrice)]
  }

  /** Each attribute appears under its own name with its dictionary entry. */
  lemma AttributesByName(data: map<Attr, Value>)
    ensures forall a: Attr :: AttrName(a) in Attributes(data) && Attributes(data)[AttrName(a)] == Get(data, a)
  {
    forall a: Attr
      ensures AttrName(a) in Attributes(data) && Attributes(data)[AttrName(a)] == Get(data, a)
    {
      match a
      case DeviceMacId =>
      case MeterMacId =>
      case PriceTier =>
      case Price =>
      case NetKwh =>
      case DeliveredKwh =>
      case ReceivedKwh =>
      case CustomPrice =>
    }
  }

  /** `xmlTree.find(tag).text`: the child's text, or AttributeError when there is no such child. */
  function ChildText(e: Element, tag: string): (r: Result<Option<string>>)
    ensures r.Err? <==> tag !in e.children
    ensures r.Err? ==> r.fault == MissingChild(tag)
    ensures r.Ok? ==> r.value == e.children[tag]
  {
    if tag in e.children then Ok(e.children[tag]) else Err(MissingChild(tag))
  }

  /** `int(xmlTree.find(tag).text, 16)`, with the exception each way it can fail. */
  function HexField(e: Element, tag: string): (r: Result<int>)
    ensures r.Ok? <==> tag in e.children && e.children[tag].Some? && ParseHex(e.children[tag].value).Some?
    ensures r.Ok? ==> ParseHex(e.children[tag].value) == Some(r.value)
    ensures tag !in e.children ==> r == Err(MissingChild(tag))
    ensures tag in e.children && e.children[tag].None? ==> r == Err(NoText(tag))
    ensures tag in e.children && e.children[tag].Some? && ParseHex(e.children[tag].value).None? ==> r == Err(NotHex(tag))
  {
    match ChildText(e, tag)
    case Err(f) => Err(f)
    case Ok(None) => Err(NoText(tag))
    case Ok(Some(t)) =>
      match ParseHex(t)
      case None => Err(NotHex(tag))
      case Some(v) => Ok(v)
  }

  function TextValue(t: Option<string>): Value {
    if t.Some? then Text(t.value) else Null
  }

  /** `(a * multiplier) / divisor` with Python's true division. */
  function Scaled(a: int, multiplier: int, divisor: int): (q: real)
    requires divisor != 0
    ensures q * divisor as real == (a * multiplier) as real
  {
    (a * multiplier) as real / divisor as real
  }

  /**
   * The demand in kW: the sign-extended raw value, scaled with true
   * division, rounded half to even at the `digitsRight`-th decimal.
   */
  function DemandKw(raw: int, multiplier: int, divisor: int, digitsRight: int): (kw: real)
    requires divisor != 0
    ensures var exact := (SignExtend32(raw) * multiplier) as real / divisor as real;
      -0.5 <= (kw - exact) * Pow10R(digitsRight) <= 0.5
  {
    RoundTo((SignExtend32(raw) * multiplier) as real / divisor as real, digitsRight)
  }

  /** The text of the set_current_price command for an integer price. */
  const CommandHead: string := "<Command><Name>set_current_price</Name><Price>"
  const CommandTail: string := "</Price><TrailingDigits>0x05</TrailingDigits></Command>"

  function PriceCommand(price: int): (c: string)
    ensures |c| == |CommandHead| + |PyHex(price)| + |CommandTail|
    ensures c[..|CommandHead|] == CommandHead
    ensures c[|CommandHead|..|c| - |CommandTail|] == PyHex(price)
    ensures c[|c| - |CommandTail|..] == CommandTail
  {
    CommandHead + PyHex(price) + CommandTail
  }

  /**
   * The custom-price step after a demand message: a present override
   * replaces Custom Price; then, if Custom Price is set, Price takes its
   * value, and the command carrying it, rounded to an integer, is written;
   * a Custom Price that `float` rejects raises once Price holds it.
   */
  function ApplyOverride(data: map<Attr, Value>, override: Option<HostState>): (res: (map<Attr, Value>, Outcome))
    requires WellFormed(data)
    ensures WellFormed(res.0)
  {
    var data1 := if override.Some? then data[CustomPrice := HostValue(override.value)] else data;
    match data1[CustomPrice]
    case Num(p) => (data1[Price := Num(p)], Handled(Some(PriceCommand(RoundHalfEven(p)))))
    case Text(t) => (data1[Price := Text(t)], Raised(NotNumber))
    case _ => (data1, Handled(None))
  }

  /** An InstantaneousDemand message whose Demand child has text. */
  function DemandStep(r: Reading, e: Element, override: Option<HostState>): (t: Transition)
    requires WellFormed(r.data)
    ensures WellFormed(t.after.data)
  {
    match HexField(e, "Demand")
    case Err(f) => Transition(r, Raised(f))
    case Ok(raw) =>
      match HexField(e, "Multiplier")
      case Err(f) => Transition(r, Raised(f))
      case Ok(multiplier) =>
        match HexField(e, "Divisor")
        case Err(f) => Transition(r, Raised(f))
        case Ok(divisor) =>
          match HexField(e, "DigitsRight")
          case Err(f) => Transition(r, Raised(f))
          case Ok(digitsRight) =>
            var state := if divisor != 0 then Some(DemandKw(raw, multiplier, divisor, digitsRight)) else r.state;
            DemandRecord(Reading(state, r.data), e, override)
  }

  /** The rest of a demand message once the state is set: the two MAC IDs, then the custom-price step. */
  function DemandRecord(r: Reading, e: Element, override: Option<HostState>): (t: Transition)
    requires WellFormed(r.data)
    ensures WellFormed(t.after.data)
  {
    match ChildText(e, "DeviceMacId")
    case Err(f) => Transition(r, Raised(f))
    case Ok(device) =>
      var data1 := r.data[DeviceMacId := TextValue(device)];
      match ChildText(e, "MeterMacId")
      case Err(f) => Transition(Reading(r.state, data1), Raised(f))
      case Ok(meter) =>
        var data2 := data1[MeterMacId := TextValue(meter)];
        var (data3, outcome) := ApplyOverride(data2, override);
        Transition(Reading(r.state, data3), outcome)
  }

  /** A PriceCluster message. */
  function PriceStep(r: Reading, e: Element): (t: Transition)
    requires WellFormed(r.data)
    ensures WellFormed(t.after.data)
  {
    match HexField(e, "Price")
    case Err(f) => Transition(r, Raised(f))
    case Ok(priceRaw) =>
      match HexField(e, "TrailingDigits")
      case Err(f) => Transition(r, Raised(f))
      case Ok(trailingDigits) =>
        var data1 := r.data[Price := Num(priceRaw as real / Pow10R(trailingDigits))];
        match HexField(e, "Tier")
        case Err(f) => Transition(Reading(r.state, data1), Raised(f))
        case Ok(tier) => Transition(Reading(r.state, data1[PriceTier := Int(tier)]), Handled(None))
  }

  /** A CurrentSummationDelivered message; the divisor is not checked, so zero raises. */
  function SummationStep(r: Reading, e: Element): (t: Transition)
    requires WellFormed(r.data)
    ensures WellFormed(t.after.data)
  {
    match HexField(e, "SummationDelivered")
    case Err(f) => Transition(r, Raised(f))
    case Ok(delivered) =>
      match HexField(e, "Multiplier")
      case Err(f) => Transition(r, Raised(f))
      case Ok(multiplier) =>
        match HexField(e, "Divisor")
        case Err(f) => Transition(r, Raised(f))
        case Ok(divisor) =>
          if divisor == 0 then Transition(r, Raised(DivisionByZero))
          else SummationRecord(r, e, delivered, multiplier, divisor)
  }

  /** The three summation attributes, written in turn once the divisor is known to be non-zero. */
  function SummationRecord(r: Reading, e: Element, delivered: int, multiplier: int, divisor: int): (t: Transition)
    requires WellFormed(r.data) && divisor != 0
    ensures WellFormed(t.after.data)
  {
    var data1 := r.data[DeliveredKwh := Num(Scaled(delivered, multiplier, divisor))];
    match HexField(e, "SummationReceived")
    case Err(f) => Transition(Reading(r.state, data1), Raised(f))
    case Ok(received) =>
      var data2 := data1[ReceivedKwh := Num(Scaled(received, multiplier, divisor))];
      match HexField(e, "DigitsRight")
      case Err(f) => Transition(Reading(r.state, data2), Raised(f))
      case Ok(digitsRight) =>
        var net := RoundTo(Scaled(delivered - received, multiplier, divisor), digitsRight);
        Transition(Reading(r.state, data2[NetKwh := Num(net)]), Handled(None))
  }

  /**
   * One fragment through the body of the polling loop. Fragments that do
   * not start with `<`, that do not parse, that carry no Demand text or
   * that have another root tag are dropped without any change.
   */
  function Step(r: Reading, f: Fragment, override: Option<HostState>): (t: Transition)
    requires WellFormed(r.data)
    ensures WellFormed(t.after.data)
  {
    if f.text == [] then Transition(r, Raised(EmptyText))
    else if f.text[0] != '<' then Transition(r, Handled(None))
    else match f.tree
      case None => Transition(r, Handled(None))
      case Some(e) =>
        if e.tag == "InstantaneousDemand" then
          match ChildText(e, "Demand")
          case Err(fault) => Transition(r, Raised(fault))
          case Ok(None) => Transition(r, Handled(None))
          case Ok(Some(_)) => DemandStep(r, e, override)
        else if e.tag == "PriceCluster" then PriceStep(r, e)
        else if e.tag == "CurrentSummationDelivered" then SummationStep(r, e)
        else Transition(r, Handled(None))
  }

  /**
   * What the polling loop sees between two checks of its enabled flag: a
   * fragment (with the override value the host would report at that
   * moment), no data (the loop sleeps), or the host's stop request.
   */
  datatype Event = Received(fragment: Fragment, override: Option<HostState>) | Idle | StopRequested

  /** How the loop ended: still polling when the events ran out, closed after a stop, or killed by an exception. */
  datatype LoopEnd = Polling | Closed | Crashed(fault: Fault)

  datatype RunResult = RunResult(reading: Reading, commands: seq<string>, end: LoopEnd)

  function CommandsOf(o: Outcome): seq<string> {
    if o.Handled? && o.command.Some? then [o.command.value] else []
  }

  /** `serial_read` after the port is open: the `while` loop over the events, then `reader.close()` once the flag is clear. */
  function Run(r: Reading, enabled: bool, events: seq<Event>): (res: RunResult)
    requires WellFormed(r.data)
    ensures WellFormed(res.reading.data)
    decreases |events|
  {
    if !enabled then RunResult(r, [], Closed)
    else if events == [] then RunResult(r, [], Polling)
    else match events[0]
      case Idle => Run(r, true, events[1..])
      case StopRequested => Run(r, false, events[1..])
      case Received(f, override) =>
        var t := Step(r, f, override);
        if t.outcome.Raised? then RunResult(t.after, [], Crashed(t.outcome.fault))
        else
          var rest := Run(t.after, true, events[1..]);
          RunResult(rest.reading, CommandsOf(t.outcome) + rest.commands, rest.end)
  }

  /** The loop while enabled, one event at a time: the first event, then the rest from where it left the reading. */
  lemma RunCons(r: Reading, e: Event, rest: seq<Event>)
    requires WellFormed(r.data)
    ensures Run(r, true, [e] + rest) ==
      match e
      case Idle => Run(r, true, rest)
      case StopRequested => Run(r, false, rest)
      case Received(f, override) =>
        var t := Step(r, f, override);
        if t.outcome.Raised? then RunResult(t.after, [], Crashed(t.outcome.fault))
        else Prepend(CommandsOf(t.outcome), Run(t.after, true, rest))
  {
    assert ([e] + rest)[0] == e && ([e] + rest)[1..] == rest;
  }

  /** A run's result with `commands` written before the ones it wrote. */
  function Prepend(commands: seq<string>, res: RunResult): RunResult {
    RunResult(res.reading, commands + res.commands, res.end)
  }
}
