/** pkg/dogstatsd/parse_events.go: length-prefixed events with optional fields. */
module ParseEvents {
  import opened Wrappers
  import opened Bytes
  import opened Parse

  datatype Priority = Normal | Low
  datatype AlertType = Success | Info | Warning | Error

  datatype Event = Event(
    title: string,
    text: string,
    timestamp: int,
    hostname: string,
    aggregationKey: string,
    priority: Priority,
    sourceType: string,
    alertType: AlertType,
    tags: seq<string>)

  datatype Header = Header(titleLength: nat, textLength: nat)

  /** A parse ends with an event, with an error, or with an index outside the message. */
  datatype Outcome = Parsed(event: Event) | Rejected | OutOfRange

  /** The two lengths between "_e{" and "}", which are not looked at themselves. */
  function ParseHeader(raw: string): (r: Option<Header>)
    ensures r.Some? ==> 1 <= r.value.titleLength <= MAX_INT64 && r.value.textLength <= MAX_INT64
  {
    if |raw| < 7 then None else ParseLengths(raw[3..|raw| - 1])
  }

  function ParseLengths(lengths: string): (r: Option<Header>)
    ensures r.Some? ==> 1 <= r.value.titleLength <= MAX_INT64 && r.value.textLength <= MAX_INT64
  {
    var sep := Index(lengths, ',');
    if sep == -1 then None
    else
      match ParseInt64(lengths[..sep])
      case None => None
      case Some(title) =>
        if title <= 0 then None
        else
          match ParseInt64(lengths[sep + 1..])
          case None => None
          case Some(text) => if text < 0 then None else Some(Header(title, text))
  }

  /** Every backslash-n pair becomes a newline. */
  function CleanEventText(text: string): string {
    if |text| < 2 then text
    else if text[0] == '\\' && text[1] == 'n' then "\n" + CleanEventText(text[2..])
    else [text[0]] + CleanEventText(text[1..])
  }

  function ParsePriority(raw: string): Option<Priority> {
    if raw == "normal" then Some(Normal)
    else if raw == "low" then Some(Low)
    else None
  }

  function ParseAlertType(raw: string): Option<AlertType> {
    if raw == "success" then Some(Success)
    else if raw == "info" then Some(Info)
    else if raw == "warning" then Some(Warning)
    else if raw == "error" then Some(Error)
    else None
  }

  /** The event after one optional field: None is the error; a field of no known kind changes nothing. */
  function ApplyOptionalField(e: Event, field: string): Option<Event> {
    if "d:" <= field then
      match ParseInt64(field[2..])
      case None => None
      case Some(timestamp) => Some(e.(timestamp := timestamp))
    else if "h:" <= field then Some(e.(hostname := field[2..]))
    else if "k:" <= field then Some(e.(aggregationKey := field[2..]))
    else if "p:" <= field then
      match ParsePriority(field[2..])
      case None => None
      case Some(priority) => Some(e.(priority := priority))
    else if "s:" <= field then Some(e.(sourceType := field[2..]))
    else if "t:" <= field then
      match ParseAlertType(field[2..])
      case None => None
      case Some(alertType) => Some(e.(alertType := alertType))
    else if "#" <= field then Some(e.(tags := TagsOf(field[1..])))
    else Some(e)
  }

  /** All the optional fields in turn; one with an error is skipped. */
  function ApplyAll(e: Event, fields: seq<string>): Event
    decreases |fields|
  {
    if fields == [] then e
    else
      var applied := ApplyOptionalField(e, fields[0]);
      ApplyAll(if applied.Some? then applied.value else e, fields[1..])
  }

  function EventWith(title: string, text: string): Event {
    Event(CleanEventText(title), CleanEventText(text), 0, "", "", Normal, "", Info, [])
  }

  /** What stands after the text, whatever separates the two. */
  function OptionalFields(rest: string): seq<string> {
    if rest == "" then [] else Split(rest[1..], '|')
  }

  /** The event a header and the bytes after the colon stand for, in unbounded arithmetic. */
  function EventOfLengths(h: Header, raw: string): Outcome {
    var title, end := h.titleLength, h.titleLength + 1 + h.textLength;
    if end > MAX_INT64 then OutOfRange
    else if |raw| < end then Rejected
    else Parsed(ApplyAll(EventWith(raw[..title], raw[title + 1..end]), OptionalFields(raw[end..])))
  }

  function EventOf(message: string): Outcome {
    var sep := Index(message, ':');
    if sep == -1 then Rejected
    else
      match ParseHeader(message[..sep])
      case None => Rejected
      case Some(h) => EventOfLengths(h, message[sep + 1..])
  }

  /** The parse as it is computed, in 64-bit arithmetic and with checked slices. */
  method ParseEvent(message: string) returns (r: Outcome)
    requires |message| <= MAX_INT64
    ensures r == EventOf(message)
  {
    var sep := Index(message, ':');
    if sep == -1 {
      return Rejected;
    }
    var header := ParseHeader(message[..sep]);
    if header.None? {
      return Rejected;
    }
    r := ParseBody(header.value, message[sep + 1..]);
  }

  method ParseBody(header: Header, raw: string) returns (r: Outcome)
    requires 1 <= header.titleLength <= MAX_INT64 && header.textLength <= MAX_INT64
    requires |raw| <= MAX_INT64
    ensures r == EventOfLengths(header, raw)
  {
    var title, text := header.titleLength, header.textLength;
    var need := Wrap64(Wrap64(text + title) + 1);
    var low := Wrap64(title + 1);
    var high := Wrap64(low + text);
    LengthsWrap(title, text);
    if |raw| < need {
      return Rejected;
    }
    if !(title <= |raw| && 0 <= low <= high <= |raw|) {
      return OutOfRange;
    }
    r := ParseSlices(raw, title, low, high);
  }

  /** The slices of the title and of the text are in range. */
  method ParseSlices(raw: string, title: nat, low: nat, high: nat) returns (r: Outcome)
    requires title <= low <= high <= |raw|
    ensures r == Parsed(ApplyAll(EventWith(raw[..title], raw[low..high]), OptionalFields(raw[high..])))
  {
    var event := EventWith(raw[..title], raw[low..high]);
    if |raw| == high {
      return Parsed(event);
    }
    assert OptionalFields(raw[high..]) == Split(raw[high + 1..], '|') by {
      assert raw[high..][1..] == raw[high + 1..];
    }
    r := ParseOptionalFields(event, raw[high + 1..]);
  }

  /** The sums are exact together or wrap around together. */
  lemma LengthsWrap(title: nat, text: nat)
    requires title <= MAX_INT64 && text <= MAX_INT64
    ensures var need, low := Wrap64(Wrap64(text + title) + 1), Wrap64(title + 1);
            if title + 1 + text <= MAX_INT64
            then need == Wrap64(low + text) == title + 1 + text && low == title + 1
            else need < 0 && Wrap64(low + text) < 0
  {
  }

  method ParseOptionalFields(e: Event, message: string) returns (r: Outcome)
    ensures r == Parsed(ApplyAll(e, Split(message, '|')))
  {
    var event, rest := e, Some(message);
    while rest.Some?
      invariant ApplyAll(event, Fields(rest)) == ApplyAll(e, Split(message, '|'))
      decreases if rest.None? then 0 else |rest.value| + 1
    {
      var (field, after) := NextField(rest.value);
      assert Fields(rest)[1..] == Fields(after);
      rest := after;
      var applied := ApplyOptionalField(event, field);
      if applied.Some? {
        event := applied.value;
      }
    }
    r := Parsed(event);
  }
}
