/** The metric protocol written out: what pkg/dogstatsd/parse.go reads back, and what it can read at all. */
module MetricFormat {
  import opened Wrappers
  import opened Metrics
  import opened Bytes
  import opened ParseMetrics
  import opened Parse

  /** A way to write floats that strconv.ParseFloat reads back. */
  type FloatFormat = Float -> string

  datatype Field = RateField(rate: Float) | TagsField(tags: seq<string>)

  function PrintField(f: Field, format: FloatFormat): string {
    match f
    case RateField(rate) => "@" + format(rate)
    case TagsField(tags) => "#" + Join(tags, ',')
  }

  function PrintFields(fields: seq<Field>, format: FloatFormat): seq<string> {
    seq(|fields|, i requires 0 <= i < |fields| => PrintField(fields[i], format))
  }

  function PrintValues(values: seq<Float>, format: FloatFormat): seq<string> {
    seq(|values|, i requires 0 <= i < |values| => format(values[i]))
  }

  /** A list of one value needs a trailing colon to be told from a single value. */
  function PrintRawValue(s: Sample, format: FloatFormat): string {
    if s.sampleType == Set then s.setValue
    else if s.values == [] then format(s.value)
    else if |s.values| == 1 then format(s.values[0]) + ":"
    else Join(PrintValues(s.values, format), ':')
  }

  function PrintMetric(s: Sample, fields: seq<Field>, format: FloatFormat): string {
    Join([s.name + ":" + PrintRawValue(s, format), Symbol(s.sampleType)] + PrintFields(fields, format), '|')
  }

  predicate TagsPrintable(tags: seq<string>) {
    tags != [""] && forall t :: t in tags ==> ',' !in t && '|' !in t
  }

  /** The samples the protocol has a message for. */
  predicate Printable(s: Sample) {
    && s.name != "" && ':' !in s.name && '|' !in s.name
    && TagsPrintable(s.tags)
    && if s.sampleType == Set
       then s.value == ZERO && s.values == [] && s.setValue != "" && '|' !in s.setValue
       else s.setValue == "" && (s.values == [] || s.value == ZERO)
  }

  predicate FormatReads(v: Float, format: FloatFormat, parse: FloatParser) {
    parse(format(v)) == Some(v) && format(v) != "" && ':' !in format(v) && '|' !in format(v)
  }

  predicate ValuesRead(s: Sample, format: FloatFormat, parse: FloatParser) {
    && FormatReads(s.sampleRate, format, parse)
    && FormatReads(s.value, format, parse)
    && forall v :: v in s.values ==> FormatReads(v, format, parse)
  }

  /** The optional fields, in any order and possibly repeated, say what the sample says. */
  predicate Describe(fields: seq<Field>, s: Sample) {
    && (forall f :: f in fields ==> f == RateField(s.sampleRate) || f == TagsField(s.tags))
    && (s.sampleRate == Finite(1.0) || RateField(s.sampleRate) in fields)
    && (s.tags == [] || TagsField(s.tags) in fields)
  }

  // ----- a printed sample is read back -----

  lemma TagsReadBack(tags: seq<string>)
    requires TagsPrintable(tags)
    ensures TagsOf(Join(tags, ',')) == tags && '|' !in Join(tags, ',')
  {
    JoinEmpty(tags, ',');
    JoinFree(tags, ',', '|');
    if tags != [] {
      SplitJoin(tags, ',');
    }
  }

  lemma PrintedFieldIs(fields: seq<Field>, s: Sample, format: FloatFormat, printed: string)
    requires Describe(fields, s) && printed in PrintFields(fields, format)
    ensures printed == PrintField(RateField(s.sampleRate), format) || printed == PrintField(TagsField(s.tags), format)
  {
    var k :| 0 <= k < |fields| && PrintFields(fields, format)[k] == printed;
    assert fields[k] in fields;
  }

  lemma FieldIsPrinted(fields: seq<Field>, f: Field, format: FloatFormat)
    requires f in fields
    ensures PrintField(f, format) in PrintFields(fields, format)
  {
    var k :| 0 <= k < |fields| && fields[k] == f;
    assert PrintFields(fields, format)[k] == PrintField(f, format);
  }

  lemma FieldsReadBack(fields: seq<Field>, s: Sample, format: FloatFormat, parse: FloatParser)
    requires Describe(fields, s) && TagsPrintable(s.tags) && FormatReads(s.sampleRate, format, parse)
    ensures var printed := PrintFields(fields, format);
            && RatesParse(printed, parse)
            && RateOf(printed, parse) == s.sampleRate
            && TagListOf(printed) == s.tags
            && forall p :: p in printed ==> '|' !in p
  {
    var printed := PrintFields(fields, format);
    TagsReadBack(s.tags);
    var rate, tags := "@" + format(s.sampleRate), "#" + Join(s.tags, ',');
    assert rate[1..] == format(s.sampleRate) && tags[1..] == Join(s.tags, ',') && rate[0] == '@' && tags[0] == '#';
    forall p | p in printed ensures p == rate || p == tags {
      PrintedFieldIs(fields, s, format, p);
    }
    assert RatesParse(printed, parse);
    LastWithIn(printed, "@");
    if s.sampleRate != Finite(1.0) {
      FieldIsPrinted(fields, RateField(s.sampleRate), format);
      assert "@" <= rate;
    }
    if LastWith(printed, "@").Some? {
      assert ("@" + LastWith(printed, "@").value)[1..] == LastWith(printed, "@").value;
    }
    LastWithIn(printed, "#");
    if s.tags != [] {
      FieldIsPrinted(fields, TagsField(s.tags), format);
      assert "#" <= tags;
    }
    if LastWith(printed, "#").Some? {
      assert ("#" + LastWith(printed, "#").value)[1..] == LastWith(printed, "#").value;
    }
  }

  lemma {:induction false} NonEmptyAll(pieces: seq<string>)
    requires forall k :: 0 <= k < |pieces| ==> pieces[k] != ""
    ensures NonEmpty(pieces) == pieces
  {
    if pieces != [] {
      assert pieces == [pieces[0]] + pieces[1..];
      NonEmptyAll(pieces[1..]);
    }
  }

  lemma OnePiece(p: string)
    requires p != "" && ':' !in p
    ensures Pieces(p + ":") == [p]
  {
    assert p + ":" == p + ":" + "";
    SplitAt(p, "", ':');
    SplitFirst("", ':');
    NonEmptyFirst(p, [""]);
    NonEmptyFirst("", []);
  }

  lemma PrintedValuesParse(values: seq<Float>, format: FloatFormat, parse: FloatParser)
    requires forall v :: v in values ==> FormatReads(v, format, parse)
    ensures var printed := PrintValues(values, format);
            && AllParse(printed, parse) && Values(printed, parse) == values
            && (forall k :: 0 <= k < |printed| ==> printed[k] != "")
            && forall p :: p in printed ==> ':' !in p && '|' !in p
  {
    var printed := PrintValues(values, format);
    assert forall k :: 0 <= k < |values| ==> values[k] in values;
    forall p | p in printed ensures ':' !in p && '|' !in p && parse(p).Some? {
      var k :| 0 <= k < |values| && printed[k] == p;
    }
  }

  lemma FloatsReadBack(values: seq<Float>, format: FloatFormat, parse: FloatParser)
    requires values != [] && forall v :: v in values ==> FormatReads(v, format, parse)
    ensures var raw := if |values| == 1 then format(values[0]) + ":" else Join(PrintValues(values, format), ':');
            Pieces(raw) == PrintValues(values, format) && raw != "" && ':' in raw && '|' !in raw
  {
    PrintedValuesParse(values, format, parse);
    var printed := PrintValues(values, format);
    if |values| == 1 {
      assert printed[0] in printed;
      OnePiece(printed[0]);
      assert printed == [printed[0]];
      assert (printed[0] + ":")[|printed[0]|] == ':';
    } else {
      NonEmptyAll(printed);
      SplitJoin(printed, ':');
      JoinFree(printed, ':', '|');
      JoinHasSeparator(printed, ':');
    }
  }

  lemma JoinHasSeparator(parts: seq<string>, c: char)
    requires |parts| >= 2
    ensures c in Join(parts, c)
  {
    assert Join(parts, c)[|parts[0]|] == c;
  }

  lemma ValueReadsBack(s: Sample, format: FloatFormat, parse: FloatParser)
    requires Printable(s) && ValuesRead(s, format, parse)
    ensures var raw := PrintRawValue(s, format);
            && raw != "" && '|' !in raw
            && ValueOf(raw, s.sampleType, parse) == Some(ParsedValue(s.value, s.values, s.setValue))
  {
    if s.sampleType != Set && s.values != [] {
      FloatsReadBack(s.values, format, parse);
      PrintedValuesParse(s.values, format, parse);
    }
  }

  lemma FieldsOfJoined(first: string, second: string, optional: seq<string>, parse: FloatParser)
    requires '|' !in first && '|' !in second && forall p :: p in optional ==> '|' !in p
    requires |optional| <= 2
    ensures MetricOf(Join([first, second] + optional, '|'), parse) == MetricOfFields(first, second, optional, parse)
  {
    var parts := [first, second] + optional;
    SplitJoin(parts, '|');
    assert parts[2..] == optional;
  }

  /** Whatever the order of the optional fields, a printed sample parses to itself. */
  lemma MetricRoundTrip(s: Sample, fields: seq<Field>, format: FloatFormat, parse: FloatParser)
    requires Printable(s) && ValuesRead(s, format, parse)
    requires Describe(fields, s) && |fields| <= 2
    ensures MetricOf(PrintMetric(s, fields, format), parse) == Some(s)
  {
    ValueReadsBack(s, format, parse);
    FieldsReadBack(fields, s, format, parse);
    var raw := PrintRawValue(s, format);
    var first, second, printed := s.name + ":" + raw, Symbol(s.sampleType), PrintFields(fields, format);
    NameAndRawValueIff(s.name, raw);
    FieldsOfJoined(first, second, printed, parse);
    assert WithOptional(s.name, s.sampleType, ParsedValue(s.value, s.values, s.setValue), printed, parse) == Some(s);
  }

  // ----- and nothing else is ever read -----

  lemma {:induction false} SplitFree(s: string, c: char, d: char)
    ensures forall p :: p in Split(s, c) ==> c !in p && (d !in s ==> d !in p)
    decreases |s|
  {
    SplitFirst(s, c);
    var i := Index(s, c);
    if i != -1 {
      IndexIsFirst(s, c);
      SplitFree(s[i + 1..], c, d);
    }
  }

  lemma TagsOfPrintable(raw: string)
    requires '|' !in raw
    ensures TagsPrintable(TagsOf(raw))
  {
    if raw != "" {
      SplitFree(raw, ',', '|');
      SplitFirst(raw, ',');
      if ',' in raw {
        assert |TagsOf(raw)| >= 2;
      }
    }
  }

  lemma TagListPrintable(optional: seq<string>)
    requires forall f :: f in optional ==> '|' !in f
    ensures TagsPrintable(TagListOf(optional))
  {
    LastWithIn(optional, "#");
    match LastWith(optional, "#") {
      case None =>
      case Some(raw) =>
        assert '|' !in "#" + raw;
        TagsOfPrintable(raw);
    }
  }

  lemma ParsedIsPrintable(message: string, parse: FloatParser)
    requires MetricOf(message, parse).Some?
    ensures Printable(MetricOf(message, parse).value)
  {
    var fields := Split(message, '|');
    SplitFree(message, '|', '|');
    var first, optional := fields[0], fields[2..];
    assert first in fields && forall f :: f in optional ==> f in fields;
    TagListPrintable(optional);
    var nv := ParseNameAndRawValue(first).value;
    assert '|' !in nv.name + ":" + nv.rawValue;
  }

  lemma EitherOrder(s: Sample, format: FloatFormat, parse: FloatParser)
    requires Printable(s) && ValuesRead(s, format, parse)
    ensures var rate, tags := RateField(s.sampleRate), TagsField(s.tags);
            && MetricOf(PrintMetric(s, [rate, tags], format), parse) == Some(s)
            && MetricOf(PrintMetric(s, [tags, rate], format), parse) == Some(s)
  {
    var rate, tags := RateField(s.sampleRate), TagsField(s.tags);
    var rateFirst, tagsFirst := [rate, tags], [tags, rate];
    assert rateFirst[0] == tagsFirst[1] == rate && rateFirst[1] == tagsFirst[0] == tags;
    MetricRoundTrip(s, rateFirst, format, parse);
    MetricRoundTrip(s, tagsFirst, format, parse);
  }

  /** Every sample the parser accepts survives being printed, with its fields in either order, and parsed again. */
  lemma ReprintIsStable(message: string, format: FloatFormat, parse: FloatParser)
    requires MetricOf(message, parse).Some?
    requires ValuesRead(MetricOf(message, parse).value, format, parse)
    ensures var s := MetricOf(message, parse).value;
            var rate, tags := RateField(s.sampleRate), TagsField(s.tags);
            && MetricOf(PrintMetric(s, [rate, tags], format), parse) == Some(s)
            && MetricOf(PrintMetric(s, [tags, rate], format), parse) == Some(s)
  {
    ParsedIsPrintable(message, parse);
    EitherOrder(MetricOf(message, parse).value, format, parse);
  }

  /** A sample has a message exactly when it is printable. */
  lemma ReadableIff(s: Sample, format: FloatFormat, parse: FloatParser)
    requires ValuesRead(s, format, parse)
    ensures Printable(s) <==> exists message :: MetricOf(message, parse) == Some(s)
  {
    if Printable(s) {
      EitherOrder(s, format, parse);
    }
    forall message | MetricOf(message, parse) == Some(s) ensures Printable(s) {
      ParsedIsPrintable(message, parse);
    }
  }

  // ----- value lists -----

  /** A list is refused exactly when it holds no value or a value that does not parse. */
  lemma FloatsRefusedIff(rawFloats: string, parse: FloatParser)
    ensures FloatsOf(rawFloats, parse).None? <==>
            (forall p :: p in Split(rawFloats, ':') ==> p == "") ||
            exists p :: p in Split(rawFloats, ':') && p != "" && parse(p).None?
  {
    var pieces := Split(rawFloats, ':');
    NonEmptyKeeps(pieces);
    if NonEmpty(pieces) != [] {
      assert NonEmpty(pieces)[0] in NonEmpty(pieces);
    }
  }

  lemma {:induction false} NonEmptyKeeps(pieces: seq<string>)
    ensures forall p :: p in NonEmpty(pieces) <==> p in pieces && p != ""
  {
    if pieces != [] {
      NonEmptyKeeps(pieces[1..]);
      assert pieces == [pieces[0]] + pieces[1..];
    }
  }
}
