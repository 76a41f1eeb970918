/** pkg/dogstatsd/parse.go: fields, tags, value lists and metric messages. */
module Parse {
  import opened Wrappers
  import opened Metrics
  import opened Bytes
  import opened ParseMetrics

  datatype MessageType = MetricMessage | ServiceCheckMessage | EventMessage

  function FindMessageType(message: string): MessageType {
    if "_e{" <= message then EventMessage
    else if "_sc" <= message then ServiceCheckMessage
    else MetricMessage
  }

  /** The field before the first '|' and, when there is a '|', what follows it. */
  function NextField(message: string): (r: (string, Option<string>))
    ensures Split(message, '|') == [r.0] + Fields(r.1)
    ensures r.1.Some? ==> |r.1.value| < |message|
  {
    var sep := Index(message, '|');
    if sep == -1 then (message, None) else (message[..sep], Some(message[sep + 1..]))
  }

  /** All the fields of what is left of a message. */
  function Fields(rest: Option<string>): seq<string> {
    match rest
    case None => []
    case Some(s) => Split(s, '|')
  }

  function TagsOf(rawTags: string): seq<string> {
    if rawTags == "" then [] else Split(rawTags, ',')
  }

  method ParseTags(rawTags: string) returns (tags: seq<string>)
    ensures tags == TagsOf(rawTags)
  {
    if rawTags == "" {
      return [];
    }
    var count := CountOf(rawTags, ',');
    var list := new string[count + 1];
    var rest, i := rawTags, 0;
    ghost var parts := Split(rawTags, ',');
    CountSplit(rawTags, ',');
    while i < count
      invariant 0 <= i <= count
      invariant Split(rest, ',') == parts[i..]
      invariant forall k :: 0 <= k < i ==> list[k] == parts[k]
    {
      var pos := Index(rest, ',');
      NextTag(rest, parts, i);
      if pos < 0 {
        break;
      }
      list[i] := rest[..pos];
      rest := rest[pos + 1..];
      i := i + 1;
    }
    NextTag(rest, parts, i);
    list[i] := rest;
    tags := list[..];
  }

  lemma NextTag(rest: string, parts: seq<string>, i: nat)
    requires i < |parts| && Split(rest, ',') == parts[i..]
    ensures var pos := Index(rest, ',');
            if i + 1 == |parts| then parts[i] == rest
            else 0 <= pos && parts[i] == rest[..pos] && Split(rest[pos + 1..], ',') == parts[i + 1..]
  {
    SplitFirst(rest, ',');
    assert parts[i..][1..] == parts[i + 1..];
  }

  // ----- lists of values -----

  /** strconv.ParseFloat, which stays uninterpreted. */
  type FloatParser = string -> Option<Float>

  function NonEmpty(pieces: seq<string>): seq<string> {
    if pieces == [] then []
    else (if pieces[0] == "" then [] else [pieces[0]]) + NonEmpty(pieces[1..])
  }

  function Pieces(rawFloats: string): seq<string> {
    NonEmpty(Split(rawFloats, ':'))
  }

  predicate AllParse(pieces: seq<string>, parse: FloatParser) {
    forall p :: p in pieces ==> parse(p).Some?
  }

  function Values(pieces: seq<string>, parse: FloatParser): seq<Float>
    requires AllParse(pieces, parse)
  {
    seq(|pieces|, i requires 0 <= i < |pieces| => parse(pieces[i]).value)
  }

  /** Each non-empty piece between colons is a value; there must be one and all must parse. */
  function FloatsOf(rawFloats: string, parse: FloatParser): Option<seq<Float>> {
    var pieces := Pieces(rawFloats);
    if pieces != [] && AllParse(pieces, parse) then Some(Values(pieces, parse)) else None
  }

  method ParseFloat64List(rawFloats: string, parse: FloatParser) returns (r: Option<seq<Float>>)
    ensures r == FloatsOf(rawFloats, parse)
  {
    var rest, idx, values := rawFloats, 0, [];
    ghost var done: seq<string> := [];
    while idx != -1 && rest != ""
      invariant AllParse(done, parse) && values == Values(done, parse)
      invariant Pieces(rawFloats) == if idx == -1 then done else done + Pieces(rest)
      decreases if idx == -1 then 0 else 1, |rest|
    {
      NextPiece(done, rest);
      idx := Index(rest, ':');
      if idx == 0 {
        rest := rest[1..];
        continue;
      }
      var piece := if idx == -1 then rest else rest[..idx];
      var value := parse(piece);
      AnotherValue(done, piece, parse);
      if idx != -1 {
        rest := rest[idx + 1..];
      }
      if value.None? {
        return None;
      }
      values := values + [value.value];
      done := done + [piece];
    }
    NoPieces(done);
    if values == [] {
      return None;
    }
    return Some(values);
  }

  lemma NextPiece(done: seq<string>, rest: string)
    requires rest != ""
    ensures var idx := Index(rest, ':');
            done + Pieces(rest) ==
            if idx == -1 then done + [rest]
            else if idx == 0 then done + Pieces(rest[1..])
            else done + [rest[..idx]] + Pieces(rest[idx + 1..])
  {
    var idx := Index(rest, ':');
    SplitFirst(rest, ':');
    if idx == -1 {
      NonEmptyFirst(rest, []);
    } else {
      NonEmptyFirst(rest[..idx], Split(rest[idx + 1..], ':'));
      if idx > 0 {
        Associative(done, [rest[..idx]], Pieces(rest[idx + 1..]));
      }
    }
  }

  lemma NoPieces(done: seq<string>)
    ensures done + Pieces("") == done
  {
    NonEmptyFirst("", []);
  }

  lemma NonEmptyFirst(p: string, more: seq<string>)
    ensures NonEmpty([p] + more) == if p == "" then NonEmpty(more) else [p] + NonEmpty(more)
    ensures [p] + [] == [p]
  {
    assert ([p] + more)[1..] == more;
  }

  lemma AnotherValue(done: seq<string>, piece: string, parse: FloatParser)
    requires AllParse(done, parse)
    ensures parse(piece).Some? ==> AllParse(done + [piece], parse)
    ensures parse(piece).Some? ==> Values(done + [piece], parse) == Values(done, parse) + [parse(piece).value]
    ensures parse(piece).None? ==> forall more :: !AllParse(done + [piece] + more, parse)
  {
    forall more | parse(piece).None? ensures !AllParse(done + [piece] + more, parse) {
      assert piece in done + [piece] + more;
    }
  }

  // ----- metric messages -----

  /** What follows the prefix in the last field that has it. */
  function LastWith(fields: seq<string>, prefix: string): Option<string> {
    if fields == [] then None
    else
      match LastWith(fields[1..], prefix)
      case Some(raw) => Some(raw)
      case None => if prefix <= fields[0] then Some(fields[0][|prefix|..]) else None
  }

  predicate RatesParse(fields: seq<string>, parse: FloatParser) {
    forall f :: f in fields && "@" <= f ==> parse(f[1..]).Some?
  }

  lemma {:induction false} LastWithIn(fields: seq<string>, prefix: string)
    ensures LastWith(fields, prefix).Some? ==> prefix + LastWith(fields, prefix).value in fields
    ensures LastWith(fields, prefix).None? ==> forall f :: f in fields ==> !(prefix <= f)
  {
    if fields != [] {
      LastWithIn(fields[1..], prefix);
      assert fields == [fields[0]] + fields[1..];
      assert prefix <= fields[0] ==> fields[0] == prefix + fields[0][|prefix|..];
    }
  }

  function RateOf(fields: seq<string>, parse: FloatParser): Float
    requires RatesParse(fields, parse)
  {
    LastWithIn(fields, "@");
    match LastWith(fields, "@")
    case None => Finite(1.0)
    case Some(raw) => assert ("@" + raw)[1..] == raw; parse(raw).value
  }

  function TagListOf(fields: seq<string>): seq<string> {
    match LastWith(fields, "#")
    case None => []
    case Some(raw) => TagsOf(raw)
  }

  datatype Optional = Optional(sampleRate: Float, tags: seq<string>)

  /** The optional fields applied one after the other. */
  function Folded(fields: seq<string>, o: Optional, parse: FloatParser): Option<Optional> {
    if fields == [] then Some(o)
    else
      var f := fields[0];
      if "#" <= f then Folded(fields[1..], o.(tags := TagsOf(f[1..])), parse)
      else if "@" <= f then
        match parse(f[1..])
        case None => None
        case Some(rate) => Folded(fields[1..], o.(sampleRate := rate), parse)
      else Folded(fields[1..], o, parse)
  }

  lemma {:induction false} FoldedKeepsLast(fields: seq<string>, o: Optional, parse: FloatParser)
    ensures Folded(fields, o, parse).Some? <==> RatesParse(fields, parse)
    ensures RatesParse(fields, parse) ==>
              Folded(fields, o, parse).value ==
              Optional(
                if LastWith(fields, "@").Some? then RateOf(fields, parse) else o.sampleRate,
                if LastWith(fields, "#").Some? then TagListOf(fields) else o.tags)
  {
    if fields != [] {
      var f := fields[0];
      assert fields == [f] + fields[1..];
      assert RatesParse(fields, parse) <==>
             ("@" <= f ==> parse(f[1..]).Some?) && RatesParse(fields[1..], parse);
      if "#" <= f {
        assert f[0] == '#' && LastWith(fields, "@") == LastWith(fields[1..], "@");
        FoldedKeepsLast(fields[1..], o.(tags := TagsOf(f[1..])), parse);
      } else if "@" <= f {
        assert f[0] == '@' && LastWith(fields, "#") == LastWith(fields[1..], "#");
        if parse(f[1..]).Some? {
          FoldedKeepsLast(fields[1..], o.(sampleRate := parse(f[1..]).value), parse);
        }
      } else {
        FoldedKeepsLast(fields[1..], o, parse);
      }
    }
  }

  const ZERO := Finite(0.0)

  /** What the value part of a message fills in: a value, a list of them, or a set's raw value. */
  datatype ParsedValue = ParsedValue(value: Float, values: seq<Float>, setValue: string)

  /** A set takes its raw value, a list its values, anything else its one value. */
  function ValueOf(rawValue: string, t: SampleType, parse: FloatParser): Option<ParsedValue> {
    if t == Set then Some(ParsedValue(ZERO, [], rawValue))
    else if ':' in rawValue then
      match FloatsOf(rawValue, parse)
      case None => None
      case Some(values) => Some(ParsedValue(ZERO, values, ""))
    else
      match parse(rawValue)
      case None => None
      case Some(value) => Some(ParsedValue(value, [], ""))
  }

  method ParseValue(rawValue: string, t: SampleType, parse: FloatParser) returns (r: Option<ParsedValue>)
    ensures r == ValueOf(rawValue, t, parse)
  {
    if t == Set {
      return Some(ParsedValue(ZERO, [], rawValue));
    }
    if Index(rawValue, ':') == -1 {
      var value := parse(rawValue);
      return if value.Some? then Some(ParsedValue(value.value, [], "")) else None;
    }
    var values := ParseFloat64List(rawValue, parse);
    return if values.Some? then Some(ParsedValue(ZERO, values.value, "")) else None;
  }

  /** A metric message read field by field; the last rate and the last tags hold, whatever their order. */
  function MetricOf(message: string, parse: FloatParser): Option<Sample> {
    var fields := Split(message, '|');
    if 2 <= |fields| <= 4 then MetricOfFields(fields[0], fields[1], fields[2..], parse) else None
  }

  function MetricOfFields(nameAndValue: string, rawType: string, optional: seq<string>, parse: FloatParser): Option<Sample> {
    match ParseNameAndRawValue(nameAndValue)
    case None => None
    case Some(nv) =>
      match ParseMetricType(rawType)
      case None => None
      case Some(t) => match ValueOf(nv.rawValue, t, parse)
        case None => None
        case Some(v) => WithOptional(nv.name, t, v, optional, parse)
  }

  function WithOptional(
    name: string, t: SampleType, v: ParsedValue, optional: seq<string>, parse: FloatParser): Option<Sample>
  {
    if RatesParse(optional, parse)
    then Some(Sample(name, v.value, v.values, v.setValue, t, RateOf(optional, parse), TagListOf(optional)))
    else None
  }

  method ParseMetricSample(message: string, parse: FloatParser) returns (r: Option<Sample>)
    ensures r == MetricOf(message, parse)
  {
    CountSplit(message, '|');
    if !HasMetricSampleFormat(message) {
      return None;
    }
    var (rawNameAndValue, afterName) := NextField(message);
    var (rawType, rest) := NextField(afterName.value);
    ghost var optional := Fields(rest);
    assert MetricOf(message, parse) == MetricOfFields(rawNameAndValue, rawType, optional, parse) by {
      TwoFields(message);
    }
    var nameAndValue := ParseNameAndRawValue(rawNameAndValue);
    if nameAndValue.None? {
      return None;
    }
    var sampleType := ParseMetricType(rawType);
    if sampleType.None? {
      return None;
    }
    var value := ParseValue(nameAndValue.value.rawValue, sampleType.value, parse);
    if value.None? {
      return None;
    }
    r := ParseOptionalFields(nameAndValue.value.name, sampleType.value, value.value, rest, parse);
  }

  lemma TwoFields(message: string)
    requires HasMetricSampleFormat(message)
    ensures var (first, afterFirst) := NextField(message);
            afterFirst.Some? &&
            var (second, rest) := NextField(afterFirst.value);
            var fields := Split(message, '|');
            2 <= |fields| <= 4 && fields[0] == first && fields[1] == second && fields[2..] == Fields(rest)
  {
    CountSplit(message, '|');
    var (first, afterFirst) := NextField(message);
    var fields := Split(message, '|');
    assert fields == [first] + Fields(afterFirst);
    var (second, rest) := NextField(afterFirst.value);
    TailOfTwo(first, second, Fields(rest));
  }

  lemma TailOfTwo(first: string, second: string, more: seq<string>)
    ensures var fields := [first] + ([second] + more);
            fields[0] == first && fields[1] == second && fields[2..] == more
  {
  }

  method ParseOptionalFields(name: string, t: SampleType, v: ParsedValue, message: Option<string>, parse: FloatParser)
    returns (r: Option<Sample>)
    ensures r == WithOptional(name, t, v, Fields(message), parse)
  {
    var rest, sampleRate, tags := message, Finite(1.0), [];
    FoldedKeepsLast(Fields(message), Optional(sampleRate, tags), parse);
    while rest.Some?
      invariant Folded(Fields(rest), Optional(sampleRate, tags), parse) ==
                Folded(Fields(message), Optional(Finite(1.0), []), parse)
      decreases if rest.None? then 0 else |rest.value| + 1
    {
      var (field, after) := NextField(rest.value);
      assert Fields(rest)[1..] == Fields(after);
      rest := after;
      if "#" <= field {
        tags := ParseTags(field[1..]);
      } else if "@" <= field {
        var rate := parse(field[1..]);
        if rate.None? {
          return None;
        }
        sampleRate := rate.value;
      }
    }
    return Some(Sample(name, v.value, v.values, v.setValue, t, sampleRate, tags));
  }
}
