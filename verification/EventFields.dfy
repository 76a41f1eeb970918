/**
 The optional fields of an event in any mixture: those with an error and those of no known kind change nothing, and of each
 kind the last one holds; and what a header that was not printed stands for. Main results: NoiseIgnored, LastFieldHolds,
 LengthsRead.
 */
module EventFields {
  import opened Wrappers
  import opened Bytes
  import opened ParseEvents
  import opened EventFormat

  /** How each kind of field begins, and the words of priorities and alert types. */
  lemma FieldsOnWire(n: int, raw: string, tags: seq<string>)
    ensures PrintField(TimestampField(n)) == "d:" + FormatInt(n) && PrintField(HostnameField(raw)) == "h:" + raw
    ensures PrintField(AggregationKeyField(raw)) == "k:" + raw && PrintField(SourceTypeField(raw)) == "s:" + raw
    ensures PrintField(PriorityField(Normal)) == "p:normal" && PrintField(PriorityField(Low)) == "p:low"
    ensures PrintField(AlertTypeField(Success)) == "t:success" && PrintField(AlertTypeField(Info)) == "t:info"
    ensures PrintField(AlertTypeField(Warning)) == "t:warning" && PrintField(AlertTypeField(Error)) == "t:error"
    ensures PrintField(TagsField(tags)) == "#" + Join(tags, ',')
  {}

  // ----- fields that change nothing -----

  /** A timestamp, priority or alert type with a value that is none. */
  predicate Refused(field: string) {
    || ("d:" <= field && ParseInt64(field[2..]).None?)
    || ("p:" <= field && field[2..] !in ["normal", "low"])
    || ("t:" <= field && field[2..] !in ["success", "info", "warning", "error"])
  }

  predicate Unknown(field: string) {
    && !("d:" <= field) && !("h:" <= field) && !("k:" <= field) && !("p:" <= field)
    && !("s:" <= field) && !("t:" <= field) && !("#" <= field)
  }

  /** A written field, a timestamp in any decimal form, or text that is refused or unknown. */
  datatype Item = Written(field: Field) | Stamp(raw: string, timestamp: int) | Noise(text: string)

  predicate Sendable(i: Item) {
    match i
    case Written(f) => Printable(f)
    case Stamp(raw, timestamp) => ParseInt64(raw) == Some(timestamp) && '|' !in raw
    case Noise(text) => (Refused(text) || Unknown(text)) && '|' !in text
  }

  function PrintItem(i: Item): string {
    match i
    case Written(f) => PrintField(f)
    case Stamp(raw, _) => "d:" + raw
    case Noise(text) => text
  }

  function PrintItems(items: seq<Item>): (printed: seq<string>)
    ensures |printed| == |items|
  {
    if items == [] then [] else [PrintItem(items[0])] + PrintItems(items[1..])
  }

  /** The fields among the items, in order. */
  function Meant(items: seq<Item>): seq<Field> {
    if items == [] then []
    else
      (match items[0]
       case Written(f) => [f]
       case Stamp(_, timestamp) => [TimestampField(timestamp)]
       case Noise(_) => []) + Meant(items[1..])
  }

  /** A message with any two characters where a bar is usual: after the title and after the text. */
  function MessageOf(title: string, text: string, items: seq<Item>, afterTitle: char, afterText: char): string {
    PrintHeader(Header(|Escape(title)|, |Escape(text)|)) + ":" +
    (Escape(title) + [afterTitle] + Escape(text) + if items == [] then "" else [afterText] + Join(PrintItems(items), '|'))
  }

  function Updated(start: Event, fields: seq<Field>): Event
    decreases |fields|
  {
    if fields == [] then start else Updated(Update(start, fields[0]), fields[1..])
  }

  lemma ItemApplied(e: Event, i: Item)
    requires Sendable(i)
    ensures '|' !in PrintItem(i)
    ensures match i
            case Written(f) => ApplyOptionalField(e, PrintItem(i)) == Some(Update(e, f))
            case Stamp(_, timestamp) => ApplyOptionalField(e, PrintItem(i)) == Some(Update(e, TimestampField(timestamp)))
            case Noise(_) => ApplyOptionalField(e, PrintItem(i)) in [Option.None, Some(e)]
  {
    match i
    case Written(f) =>
      FieldReadsBack(e, f);
      PrintedFieldHasNoBar(f);
    case Stamp(raw, _) => AfterKey("d:", raw);
    case Noise(text) => KindOf(text);
  }

  lemma {:induction false} ItemsApplied(start: Event, items: seq<Item>)
    requires forall k :: 0 <= k < |items| ==> Sendable(items[k])
    ensures ApplyAll(start, PrintItems(items)) == Updated(start, Meant(items))
    ensures forall k :: 0 <= k < |items| ==> '|' !in PrintItems(items)[k]
    decreases |items|
  {
    if items != [] {
      var printed, meant, more := PrintItems(items), Meant(items), Meant(items[1..]);
      ItemApplied(start, items[0]);
      assert printed[0] == PrintItem(items[0]) && printed[1..] == PrintItems(items[1..]);
      match items[0]
      case Written(f) =>
        assert meant[0] == f && meant[1..] == more;
        ItemsApplied(Update(start, f), items[1..]);
      case Stamp(_, timestamp) =>
        assert meant[0] == TimestampField(timestamp) && meant[1..] == more;
        ItemsApplied(Update(start, TimestampField(timestamp)), items[1..]);
      case Noise(_) =>
        assert meant == more;
        ItemsApplied(start, items[1..]);
    }
  }

  lemma BodyWith(title: string, text: string, afterTitle: char, rest: string)
    requires |title| + 1 + |text| <= MAX_INT64
    ensures EventOfLengths(Header(|title|, |text|), title + [afterTitle] + text + rest) ==
            Parsed(ApplyAll(EventWith(title, text), OptionalFields(rest)))
  {
    var raw, end := title + [afterTitle] + text + rest, |title| + 1 + |text|;
    assert raw[..|title|] == title && raw[|title| + 1..end] == text && raw[end..] == rest;
  }

  lemma ItemsRead(start: Event, items: seq<Item>, afterText: char)
    requires forall k :: 0 <= k < |items| ==> Sendable(items[k])
    ensures ApplyAll(start, OptionalFields(if items == [] then "" else [afterText] + Join(PrintItems(items), '|'))) ==
            Updated(start, Meant(items))
  {
    ItemsApplied(start, items);
    if items != [] {
      SplitJoin(PrintItems(items), '|');
      assert ([afterText] + Join(PrintItems(items), '|'))[1..] == Join(PrintItems(items), '|');
    }
  }

  lemma MessageRead(title: string, text: string, items: seq<Item>, afterTitle: char, afterText: char)
    requires forall k :: 0 <= k < |items| ==> Sendable(items[k])
    requires |Escape(title)| + 1 + |Escape(text)| <= MAX_INT64
    ensures EventOf(MessageOf(title, text, items, afterTitle, afterText)) ==
            if title == "" then Rejected else Parsed(Updated(EventWith(Escape(title), Escape(text)), Meant(items)))
  {
    var t, x := Escape(title), Escape(text);
    LengthsDecide(Header(|t|, |x|), t + [afterTitle] + x + if items == [] then "" else [afterText] + Join(PrintItems(items), '|'));
    BodyWith(t, x, afterTitle, if items == [] then "" else [afterText] + Join(PrintItems(items), '|'));
    ItemsRead(EventWith(t, x), items, afterText);
  }

  /** The message with nothing but the fields that are meant. */
  function Plain(fields: seq<Field>): seq<Item> {
    seq(|fields|, i requires 0 <= i < |fields| => Written(fields[i]))
  }

  lemma {:induction false} PlainMeans(fields: seq<Field>)
    ensures Meant(Plain(fields)) == fields && PrintItems(Plain(fields)) == PrintFields(fields)
  {
    if fields != [] {
      PlainMeans(fields[1..]);
      assert Plain(fields)[1..] == Plain(fields[1..]);
    }
  }

  lemma {:induction false} MeantPrintable(items: seq<Item>)
    requires forall k :: 0 <= k < |items| ==> Sendable(items[k])
    ensures forall k :: 0 <= k < |Meant(items)| ==> Printable(Meant(items)[k]) || Meant(items)[k].TimestampField?
    ensures forall k :: 0 <= k < |Meant(items)| && Meant(items)[k].TimestampField? ==> MIN_INT64 <= Meant(items)[k].timestamp <= MAX_INT64
  {
    if items != [] {
      MeantPrintable(items[1..]);
    }
  }

  /**
   Fields with an error and unknown ones may stand anywhere among the others, and any character may follow the title and
   the text: the message reads as the plain one without them.
   */
  lemma NoiseIgnored(title: string, text: string, items: seq<Item>, afterTitle: char, afterText: char)
    requires forall k :: 0 <= k < |items| ==> Sendable(items[k])
    requires |Escape(title)| + 1 + |Escape(text)| <= MAX_INT64
    ensures EventOf(MessageOf(title, text, items, afterTitle, afterText)) == EventOf(PrintEvent(title, text, Meant(items)))
  {
    var fields := Meant(items);
    MeantPrintable(items);
    PlainMeans(fields);
    MessageRead(title, text, items, afterTitle, afterText);
    MessageRead(title, text, Plain(fields), '|', '|');
    assert MessageOf(title, text, Plain(fields), '|', '|') == PrintEvent(title, text, fields);
  }

  /** So an event is read back from a message with such fields among its own. */
  lemma EventReadsBackAmong(e: Event, items: seq<Item>)
    requires e.title != "" && Describe(Meant(items), e) && forall k :: 0 <= k < |items| ==> Sendable(items[k])
    requires |Escape(e.title)| + 1 + |Escape(e.text)| <= MAX_INT64
    ensures EventOf(MessageOf(e.title, e.text, items, '|', '|')) ==
            Parsed(e.(title := CleanEventText(e.title), text := CleanEventText(e.text)))
  {
    NoiseIgnored(e.title, e.text, items, '|', '|');
    EventReadsBack(e, Meant(items));
  }

  // ----- the last field of a kind -----

  function Kind(f: Field): nat {
    match f
    case TimestampField(_) => 0
    case HostnameField(_) => 1
    case AggregationKeyField(_) => 2
    case PriorityField(_) => 3
    case SourceTypeField(_) => 4
    case AlertTypeField(_) => 5
    case TagsField(_) => 6
  }

  predicate NoneOf(fields: seq<Field>, kind: nat) {
    forall i :: 0 <= i < |fields| ==> Kind(fields[i]) != kind
  }

  predicate Last(fields: seq<Field>, i: nat) {
    i < |fields| && NoneOf(fields[i + 1..], Kind(fields[i]))
  }

  /** The event has the attribute of this field. */
  predicate Has(e: Event, f: Field) {
    match f
    case TimestampField(timestamp) => e.timestamp == timestamp
    case HostnameField(hostname) => e.hostname == hostname
    case AggregationKeyField(key) => e.aggregationKey == key
    case PriorityField(priority) => e.priority == priority
    case SourceTypeField(sourceType) => e.sourceType == sourceType
    case AlertTypeField(alertType) => e.alertType == alertType
    case TagsField(tags) => e.tags == tags
  }

  predicate IsDefault(f: Field) {
    match f
    case TimestampField(timestamp) => timestamp == 0
    case HostnameField(hostname) => hostname == ""
    case AggregationKeyField(key) => key == ""
    case PriorityField(priority) => priority == Normal
    case SourceTypeField(sourceType) => sourceType == ""
    case AlertTypeField(alertType) => alertType == Info
    case TagsField(tags) => tags == []
  }

  lemma {:induction false} UpdatedKeeps(start: Event, fields: seq<Field>, f: Field)
    requires NoneOf(fields, Kind(f)) && Has(start, f)
    ensures Has(Updated(start, fields), f)
    decreases |fields|
  {
    if fields != [] {
      assert Kind(fields[0]) != Kind(f);
      UpdatedKeeps(Update(start, fields[0]), fields[1..], f);
    }
  }

  lemma {:induction false} UpdatedHas(start: Event, fields: seq<Field>, i: nat)
    requires Last(fields, i)
    ensures Has(Updated(start, fields), fields[i])
    decreases |fields|
  {
    if i == 0 {
      UpdatedKeeps(Update(start, fields[0]), fields[1..], fields[0]);
    } else {
      assert fields[1..][i..] == fields[i + 1..];
      UpdatedHas(Update(start, fields[0]), fields[1..], i - 1);
    }
  }

  lemma {:induction false} UpdatedText(start: Event, fields: seq<Field>)
    ensures Updated(start, fields).title == start.title && Updated(start, fields).text == start.text
    decreases |fields|
  {
    if fields != [] {
      UpdatedText(Update(start, fields[0]), fields[1..]);
    }
  }

  /** Of each kind of field the last one in the message holds; without any, the attribute has its default. */
  lemma LastFieldHolds(title: string, text: string, items: seq<Item>)
    requires title != "" && forall k :: 0 <= k < |items| ==> Sendable(items[k])
    requires |Escape(title)| + 1 + |Escape(text)| <= MAX_INT64
    ensures var fields, out := Meant(items), EventOf(MessageOf(title, text, items, '|', '|'));
            && out.Parsed? && out.event.title == CleanEventText(title) && out.event.text == CleanEventText(text)
            && (forall i :: 0 <= i < |fields| && Last(fields, i) ==> Has(out.event, fields[i]))
            && (forall d :: IsDefault(d) && NoneOf(fields, Kind(d)) ==> Has(out.event, d))
  {
    var fields, start := Meant(items), EventWith(Escape(title), Escape(text));
    MessageRead(title, text, items, '|', '|');
    UpdatedText(start, fields);
    CleanEscape(title);
    CleanEscape(text);
    forall i | 0 <= i < |fields| && Last(fields, i)
      ensures Has(Updated(start, fields), fields[i])
    {
      UpdatedHas(start, fields, i);
    }
    forall d | IsDefault(d) && NoneOf(fields, Kind(d))
      ensures Has(Updated(start, fields), d)
    {
      UpdatedKeeps(start, fields, d);
    }
  }

  // ----- headers that were not printed -----

  lemma HeaderSplit(header: string, raw: string)
    requires ':' !in header
    ensures EventOf(header + ":" + raw) ==
            match ParseHeader(header)
            case None => Rejected
            case Some(h) => EventOfLengths(h, raw)
  {
    var message := header + ":" + raw;
    IndexAt(header, raw, ':');
    assert message[..|header|] == header && message[|header| + 1..] == raw;
  }

  lemma LengthsSplit(titleLength: string, textLength: string)
    requires ',' !in titleLength
    ensures var title, text := ParseInt64(titleLength), ParseInt64(textLength);
            ParseLengths(titleLength + "," + textLength) ==
            if title.None? || text.None? || title.value <= 0 || text.value < 0 then Option.None else Some(Header(title.value, text.value))
  {
    var lengths := titleLength + "," + textLength;
    IndexAt(titleLength, textLength, ',');
    assert lengths[..|titleLength|] == titleLength && lengths[|titleLength| + 1..] == textLength;
  }

  lemma HeaderLengths(open: string, titleLength: string, textLength: string, close: char)
    requires |open| == 3 && ',' !in titleLength
    ensures ParseHeader(open + titleLength + "," + textLength + [close]) == ParseLengths(titleLength + "," + textLength)
  {
    var lengths := titleLength + "," + textLength;
    var header := open + titleLength + "," + textLength + [close];
    assert header == open + lengths + [close] && header[3..|header| - 1] == lengths;
    if |header| < 7 {
      LengthsSplit(titleLength, textLength);
      assert titleLength == "" || textLength == "";
    }
  }

  /** The first three bytes and the last one of a header are not looked at; the lengths may have any decimal form. */
  lemma LengthsRead(open: string, titleLength: string, textLength: string, close: char, raw: string)
    requires |open| == 3 && ',' !in titleLength && ':' !in open + titleLength + "," + textLength + [close]
    ensures var title, text := ParseInt64(titleLength), ParseInt64(textLength);
            EventOf(open + titleLength + "," + textLength + [close] + ":" + raw) ==
            if title.None? || text.None? || title.value <= 0 || text.value < 0 then Rejected
            else EventOf(PrintHeader(Header(title.value, text.value)) + ":" + raw)
  {
    HeaderSplit(open + titleLength + "," + textLength + [close], raw);
    HeaderLengths(open, titleLength, textLength, close);
    LengthsSplit(titleLength, textLength);
    var title, text := ParseInt64(titleLength), ParseInt64(textLength);
    if title.Some? && text.Some? && title.value > 0 && text.value >= 0 {
      LengthsDecide(Header(title.value, text.value), raw);
    }
  }

  /** With lengths that fit, a message is rejected exactly when it is too short for them. */
  lemma TooShortIff(h: Header, raw: string)
    requires 1 <= h.titleLength && h.titleLength + 1 + h.textLength <= MAX_INT64
    ensures EventOf(PrintHeader(h) + ":" + raw).Rejected? <==> |raw| < h.titleLength + 1 + h.textLength
  {
    LengthsDecide(h, raw);
  }

  /** Without a colon, or without a comma between the fourth byte and the last before the colon, a message is rejected. */
  lemma NoLengths(message: string)
    requires ':' in message ==> var sep := Index(message, ':'); sep < 5 || ',' !in message[3..sep - 1]
    ensures EventOf(message) == Rejected
  {
    if ':' in message {
      var sep := Index(message, ':');
      if sep >= 7 {
        assert message[..sep][3..sep - 1] == message[3..sep - 1];
      }
    }
  }
}
