/** The event protocol written out, and what survives being read back by pkg/dogstatsd/parse_events.go. */
module EventFormat {
  import opened Wrappers
  import opened Bytes
  import opened ParseEvents
  import MetricFormat

  // ----- newlines -----

  /** A client writes a newline as a backslash-n pair, because a newline ends the message. */
  function Escape(text: string): string {
    if text == "" then ""
    else (if text[0] == '\n' then "\\n" else [text[0]]) + Escape(text[1..])
  }

  predicate IsPair(text: string, i: nat) {
    i + 1 < |text| && text[i] == '\\' && text[i + 1] == 'n'
  }

  predicate NoPair(text: string) {
    forall i: nat :: i < |text| ==> !IsPair(text, i)
  }

  lemma {:induction false} EscapeHasNoNewline(text: string, c: char)
    ensures '\n' !in Escape(text)
    ensures c != '\\' && c != 'n' && c !in text ==> c !in Escape(text)
  {
    if text != "" {
      EscapeHasNoNewline(text[1..], c);
      assert text == [text[0]] + text[1..];
    }
  }

  /** Cleaning undoes escaping, except that it also takes the pairs the text had itself. */
  lemma {:induction false} CleanEscape(text: string)
    ensures CleanEventText(Escape(text)) == CleanEventText(text)
    decreases |text|
  {
    if text != "" {
      var first, more := text[0], text[1..];
      CleanEscape(more);
      if first == '\n' {
        assert Escape(text)[2..] == Escape(more);
        assert CleanEventText(text) == "\n" + CleanEventText(more);
      } else {
        assert Escape(text)[1..] == Escape(more);
        if IsPair(text, 0) {
          CleanEscape(text[2..]);
          assert Escape(more) == "n" + Escape(text[2..]) && more[1..] == text[2..];
          assert Escape(text)[2..] == Escape(text[2..]);
        } else if |text| >= 2 {
          assert Escape(more)[0] == if more[0] == '\n' then '\\' else more[0];
        }
      }
    }
  }

  lemma {:induction false} CleanKeepsIff(text: string)
    ensures |CleanEventText(text)| <= |text|
    ensures |CleanEventText(text)| == |text| <==> NoPair(text)
    ensures NoPair(text) ==> CleanEventText(text) == text
    decreases |text|
  {
    if |text| >= 2 {
      if IsPair(text, 0) {
        CleanKeepsIff(text[2..]);
      } else {
        var more := text[1..];
        CleanKeepsIff(more);
        assert forall i: nat :: IsPair(text, i + 1) <==> IsPair(more, i);
        assert NoPair(text) <==> NoPair(more) by {
          assert forall i: nat :: i > 0 ==> IsPair(text, i) == IsPair(more, i - 1);
        }
      }
    }
  }

  /** A text comes back from the wire exactly when it holds no backslash-n pair. */
  lemma TextReadsBackIff(text: string)
    ensures CleanEventText(Escape(text)) == text <==> NoPair(text)
  {
    CleanEscape(text);
    CleanKeepsIff(text);
  }

  // ----- the header -----

  function PrintHeader(h: Header): string {
    "_e{" + PrintLengths(h) + "}"
  }

  function PrintLengths(h: Header): string {
    FormatInt(h.titleLength) + "," + FormatInt(h.textLength)
  }

  lemma LengthsReadBack(h: Header)
    requires h.titleLength <= MAX_INT64 && h.textLength <= MAX_INT64
    ensures ParseLengths(PrintLengths(h)) == if h.titleLength == 0 then None else Some(h)
    ensures |PrintLengths(h)| >= 3 && ':' !in PrintLengths(h)
  {
    var title, text := FormatInt(h.titleLength), FormatInt(h.textLength);
    var lengths := title + "," + text;
    FormatIntFree(h.titleLength, ',');
    FormatIntFree(h.titleLength, ':');
    FormatIntFree(h.textLength, ':');
    IndexAt(title, text, ',');
    assert lengths[..|title|] == title && lengths[|title| + 1..] == text;
    ParseFormat(h.titleLength);
    ParseFormat(h.textLength);
  }

  lemma HeaderReadBack(h: Header)
    requires h.titleLength <= MAX_INT64 && h.textLength <= MAX_INT64
    ensures ParseHeader(PrintHeader(h)) == if h.titleLength == 0 then None else Some(h)
    ensures ':' !in PrintHeader(h)
  {
    LengthsReadBack(h);
    Inside(PrintLengths(h));
  }

  lemma Inside(lengths: string)
    ensures var raw := "_e{" + lengths + "}";
            raw[3..|raw| - 1] == lengths && |raw| == |lengths| + 4 && (':' in raw <==> ':' in lengths)
  {
  }

  /** With a written header, the two lengths alone decide where title, text and fields lie. */
  lemma LengthsDecide(h: Header, raw: string)
    requires h.titleLength <= MAX_INT64 && h.textLength <= MAX_INT64
    ensures EventOf(PrintHeader(h) + ":" + raw) == if h.titleLength == 0 then Rejected else EventOfLengths(h, raw)
  {
    var header := PrintHeader(h);
    var message := header + ":" + raw;
    HeaderReadBack(h);
    IndexAt(header, raw, ':');
    assert message[..|header|] == header && message[|header| + 1..] == raw;
  }

  /** The parser leaves the message exactly when the written lengths do not fit in 64 bits together. */
  lemma OutOfRangeIff(h: Header, raw: string)
    requires h.titleLength <= MAX_INT64 && h.textLength <= MAX_INT64
    ensures EventOf(PrintHeader(h) + ":" + raw).OutOfRange? <==>
            h.titleLength > 0 && h.titleLength + h.textLength >= MAX_INT64
  {
    LengthsDecide(h, raw);
  }

  /** A concrete case: a title length of 2^63 - 1 leaves no room for the separator. */
  lemma HugeTitleOutOfRange()
    ensures EventOf(PrintHeader(Header(MAX_INT64, 0)) + ":" + "").OutOfRange?
  {
    OutOfRangeIff(Header(MAX_INT64, 0), "");
  }

  // ----- the optional fields -----

  datatype Field =
    | TimestampField(timestamp: int)
    | HostnameField(hostname: string)
    | AggregationKeyField(key: string)
    | PriorityField(priority: Priority)
    | SourceTypeField(sourceType: string)
    | AlertTypeField(alertType: AlertType)
    | TagsField(tags: seq<string>)

  function PriorityName(p: Priority): string {
    match p
    case Normal => "normal"
    case Low => "low"
  }

  function AlertTypeName(t: AlertType): string {
    match t
    case Success => "success"
    case Info => "info"
    case Warning => "warning"
    case Error => "error"
  }

  function PrintField(f: Field): string {
    match f
    case TimestampField(timestamp) => "d:" + FormatInt(timestamp)
    case HostnameField(hostname) => "h:" + hostname
    case AggregationKeyField(key) => "k:" + key
    case PriorityField(priority) => "p:" + PriorityName(priority)
    case SourceTypeField(sourceType) => "s:" + sourceType
    case AlertTypeField(alertType) => "t:" + AlertTypeName(alertType)
    case TagsField(tags) => "#" + Join(tags, ',')
  }

  /** A field whose text cannot be taken for another field. */
  predicate Printable(f: Field) {
    match f
    case TimestampField(timestamp) => MIN_INT64 <= timestamp <= MAX_INT64
    case HostnameField(hostname) => '|' !in hostname
    case AggregationKeyField(key) => '|' !in key
    case PriorityField(_) => true
    case SourceTypeField(sourceType) => '|' !in sourceType
    case AlertTypeField(_) => true
    case TagsField(tags) => MetricFormat.TagsPrintable(tags)
  }

  function Update(e: Event, f: Field): Event {
    match f
    case TimestampField(timestamp) => e.(timestamp := timestamp)
    case HostnameField(hostname) => e.(hostname := hostname)
    case AggregationKeyField(key) => e.(aggregationKey := key)
    case PriorityField(priority) => e.(priority := priority)
    case SourceTypeField(sourceType) => e.(sourceType := sourceType)
    case AlertTypeField(alertType) => e.(alertType := alertType)
    case TagsField(tags) => e.(tags := tags)
  }

  /** The first character tells the kinds of field apart. */
  lemma KindOf(field: string)
    ensures "#" <= field <==> field != "" && field[0] == '#'
    ensures var keyed := |field| >= 2 && field[1] == ':';
            && ("d:" <= field <==> keyed && field[0] == 'd')
            && ("h:" <= field <==> keyed && field[0] == 'h')
            && ("k:" <= field <==> keyed && field[0] == 'k')
            && ("p:" <= field <==> keyed && field[0] == 'p')
            && ("s:" <= field <==> keyed && field[0] == 's')
            && ("t:" <= field <==> keyed && field[0] == 't')
  {
    StartsWith('d', field);
    StartsWith('h', field);
    StartsWith('k', field);
    StartsWith('p', field);
    StartsWith('s', field);
    StartsWith('t', field);
  }

  lemma StartsWith(key: char, field: string)
    ensures [key, ':'] <= field <==> |field| >= 2 && field[1] == ':' && field[0] == key
  {
  }

  lemma FieldReadsBack(e: Event, f: Field)
    requires Printable(f)
    ensures ApplyOptionalField(e, PrintField(f)) == Some(Update(e, f))
  {
    var printed := PrintField(f);
    KindOf(printed);
    match f {
      case TagsField(tags) =>
        MetricFormat.TagsReadBack(tags);
        assert printed[1..] == Join(tags, ',');
      case TimestampField(timestamp) =>
        ParseFormat(timestamp);
        AfterKey("d:", FormatInt(timestamp));
      case HostnameField(hostname) => AfterKey("h:", hostname);
      case AggregationKeyField(key) => AfterKey("k:", key);
      case SourceTypeField(sourceType) => AfterKey("s:", sourceType);
      case PriorityField(priority) => AfterKey("p:", PriorityName(priority));
      case AlertTypeField(alertType) => AfterKey("t:", AlertTypeName(alertType));
    }
  }

  lemma AfterKey(key: string, value: string)
    requires |key| == 2
    ensures (key + value)[2..] == value
  {
  }

  lemma PrintedFieldHasNoBar(f: Field)
    requires Printable(f)
    ensures '|' !in PrintField(f)
  {
    match f {
      case TimestampField(timestamp) => FormatIntFree(timestamp, '|');
      case TagsField(tags) => MetricFormat.TagsReadBack(tags);
      case _ =>
    }
  }

  function PrintFields(fields: seq<Field>): (printed: seq<string>)
    ensures |printed| == |fields|
  {
    if fields == [] then [] else [PrintField(fields[0])] + PrintFields(fields[1..])
  }

  /** Applying a field to `e` leaves `e` as it is. */
  predicate Says(f: Field, e: Event) {
    Update(e, f) == e
  }

  /** `start` differs from `e` only in attributes that one of the fields sets. */
  predicate SetTheRest(start: Event, fields: seq<Field>, e: Event) {
    && start.title == e.title && start.text == e.text
    && (start.timestamp == e.timestamp || TimestampField(e.timestamp) in fields)
    && (start.hostname == e.hostname || HostnameField(e.hostname) in fields)
    && (start.aggregationKey == e.aggregationKey || AggregationKeyField(e.aggregationKey) in fields)
    && (start.priority == e.priority || PriorityField(e.priority) in fields)
    && (start.sourceType == e.sourceType || SourceTypeField(e.sourceType) in fields)
    && (start.alertType == e.alertType || AlertTypeField(e.alertType) in fields)
    && (start.tags == e.tags || TagsField(e.tags) in fields)
  }

  lemma UpdateSets(start: Event, f: Field, more: seq<Field>, e: Event)
    requires Says(f, e) && SetTheRest(start, [f] + more, e)
    ensures SetTheRest(Update(start, f), more, e)
  {
    FirstOrMore(f, more);
    SetTheRestOf(start, f, [f] + more, more, e);
  }

  lemma FirstOrMore(f: Field, more: seq<Field>)
    ensures forall other :: other in [f] + more <==> other == f || other in more
  {}

  lemma SetTheRestOf(start: Event, f: Field, all: seq<Field>, more: seq<Field>, e: Event)
    requires Says(f, e) && SetTheRest(start, all, e) && forall other :: other in all <==> other == f || other in more
    ensures SetTheRest(Update(start, f), more, e)
  {}

  lemma {:induction false} FieldsReadBack(start: Event, fields: seq<Field>, e: Event)
    requires forall k :: 0 <= k < |fields| ==> Printable(fields[k]) && Says(fields[k], e)
    requires SetTheRest(start, fields, e)
    ensures ApplyAll(start, PrintFields(fields)) == e
    ensures forall k :: 0 <= k < |fields| ==> '|' !in PrintFields(fields)[k]
    decreases |fields|
  {
    if fields != [] {
      var f, more := fields[0], fields[1..];
      assert fields == [f] + more;
      FieldReadsBack(start, f);
      PrintedFieldHasNoBar(f);
      UpdateSets(start, f, more, e);
      FieldsReadBack(Update(start, f), more, e);
      assert PrintFields(fields)[1..] == PrintFields(more);
    }
  }

  // ----- whole events -----

  /** A title, a text and optional fields as one message. */
  function PrintEvent(title: string, text: string, fields: seq<Field>): string {
    PrintHeader(Header(|Escape(title)|, |Escape(text)|)) + ":" +
    (Escape(title) + "|" + Escape(text) + PrintTail(fields))
  }

  function PrintTail(fields: seq<Field>): string {
    if fields == [] then "" else "|" + Join(PrintFields(fields), '|')
  }

  /** The fields, in any order and possibly repeated, say what the event says beyond title and text. */
  predicate Describe(fields: seq<Field>, e: Event) {
    && (forall k :: 0 <= k < |fields| ==> Printable(fields[k]) && Says(fields[k], e))
    && SetTheRest(Event(e.title, e.text, 0, "", "", Normal, "", Info, []), fields, e)
  }

  lemma BodyReadsBack(title: string, text: string, rest: string)
    requires |title| + 1 + |text| <= MAX_INT64
    ensures EventOfLengths(Header(|title|, |text|), title + "|" + text + rest) ==
            Parsed(ApplyAll(EventWith(title, text), OptionalFields(rest)))
  {
    var raw := title + "|" + text + rest;
    var end := |title| + 1 + |text|;
    assert raw[..|title|] == title && raw[|title| + 1..end] == text && raw[end..] == rest;
  }

  lemma FieldListReadsBack(start: Event, fields: seq<Field>, e: Event)
    requires forall k :: 0 <= k < |fields| ==> Printable(fields[k]) && Says(fields[k], e)
    requires SetTheRest(start, fields, e)
    ensures ApplyAll(start, OptionalFields(PrintTail(fields))) == e
  {
    FieldsReadBack(start, fields, e);
    if fields != [] {
      SplitJoin(PrintFields(fields), '|');
      assert PrintTail(fields)[1..] == Join(PrintFields(fields), '|');
    }
  }

  /** The optional fields do not concern the title and the text. */
  lemma SaysRetitled(fields: seq<Field>, e: Event, other: Event)
    requires Describe(fields, e)
    requires other == e.(title := other.title, text := other.text)
    ensures forall k :: 0 <= k < |fields| ==> Printable(fields[k]) && Says(fields[k], other)
    ensures SetTheRest(Event(other.title, other.text, 0, "", "", Normal, "", Info, []), fields, other)
  {
  }

  /** What comes back is the event with its own backslash-n pairs turned into newlines. */
  lemma EventReadsBack(e: Event, fields: seq<Field>)
    requires e.title != "" && Describe(fields, e)
    requires |Escape(e.title)| + 1 + |Escape(e.text)| <= MAX_INT64
    ensures EventOf(PrintEvent(e.title, e.text, fields)) ==
            Parsed(e.(title := CleanEventText(e.title), text := CleanEventText(e.text)))
  {
    var title, text := Escape(e.title), Escape(e.text);
    LengthsDecide(Header(|title|, |text|), title + "|" + text + PrintTail(fields));
    BodyReadsBack(title, text, PrintTail(fields));
    CleanEscape(e.title);
    CleanEscape(e.text);
    var cleaned := e.(title := CleanEventText(e.title), text := CleanEventText(e.text));
    SaysRetitled(fields, e, cleaned);
    FieldListReadsBack(EventWith(title, text), fields, cleaned);
  }

  /** An event survives the wire exactly when neither its title nor its text holds a backslash-n pair. */
  lemma EventRoundTripIff(e: Event, fields: seq<Field>)
    requires e.title != "" && Describe(fields, e)
    requires |Escape(e.title)| + 1 + |Escape(e.text)| <= MAX_INT64
    ensures EventOf(PrintEvent(e.title, e.text, fields)) == Parsed(e) <==> NoPair(e.title) && NoPair(e.text)
  {
    EventReadsBack(e, fields);
    CleanKeepsIff(e.title);
    CleanKeepsIff(e.text);
  }

  /** A concrete case: the title backslash-n comes back as a newline. */
  lemma PairBecomesNewline()
    ensures EventOf(PrintEvent("\\n", "", [])) == Parsed(Event("\n", "", 0, "", "", Normal, "", Info, []))
  {
    var e := Event("\\n", "", 0, "", "", Normal, "", Info, []);
    PairCleaned();
    EventReadsBack(e, []);
  }

  lemma PairCleaned()
    ensures |Escape("\\n")| == 2 && Escape("") == "" && CleanEventText("\\n") == "\n" && CleanEventText("") == ""
  {
    var pair := "\\n";
    assert pair[1..] == "n" && pair[2..] == "" && "n"[1..] == "";
    assert Escape("n") == "n";
  }

  /** An empty title is written but never accepted. */
  lemma EmptyTitleRejected(text: string, fields: seq<Field>)
    requires |Escape(text)| <= MAX_INT64
    ensures EventOf(PrintEvent("", text, fields)) == Rejected
  {
    LengthsDecide(Header(0, |Escape(text)|), Escape("") + "|" + Escape(text) + PrintTail(fields));
  }

  /** A field is refused exactly when it is a timestamp, priority or alert type that no printed one equals. */
  lemma FieldRefusedIff(e: Event, field: string)
    ensures ApplyOptionalField(e, field).None? <==>
            || ("d:" <= field && ParseInt64(field[2..]).None?)
            || ("p:" <= field && field[2..] != "normal" && field[2..] != "low")
            || ("t:" <= field && forall t :: field[2..] != AlertTypeName(t))
  {
    KindOf(field);
    forall t | "t:" <= field && ParseAlertType(field[2..]).None? ensures field[2..] != AlertTypeName(t) {
      match t case Success => case Info => case Warning => case Error =>
    }
    assert forall t :: ParseAlertType(AlertTypeName(t)) == Some(t);
  }
}
