/**
 A metric message read off the wire by positions: which messages pkg/dogstatsd/parse.go accepts, and where each attribute
 of the sample stands in the message. Main results: AcceptedIff, ReadsAttributes.
 */
module MetricReading {
  import opened Wrappers
  import opened Metrics
  import opened Bytes
  import opened ParseMetrics
  import opened Parse
  import MF = MetricFormat

  // ----- picking some entries of a list -----

  /** The positions of exactly the entries to keep, in order, and what stands there. */
  ghost predicate Picks(at: seq<nat>, ys: seq<string>, xs: seq<string>, keep: string -> bool) {
    && |at| == |ys| && (forall i, j :: 0 <= i < j < |at| ==> at[i] < at[j])
    && (forall j :: 0 <= j < |at| ==> at[j] < |xs| && ys[j] == xs[at[j]] && keep(ys[j]))
    && (forall i: nat :: i < |xs| && keep(xs[i]) ==> i in at)
  }

  /** `ys` are the entries of `xs` to keep, each as often and in the same order. */
  ghost predicate KeepsOnly(ys: seq<string>, xs: seq<string>, keep: string -> bool) {
    exists at :: Picks(at, ys, xs, keep)
  }

  lemma PicksOne(at: seq<nat>, ys: seq<string>, xs: seq<string>, x: string, keep: string -> bool)
    requires Picks(at, ys, xs, keep) && keep(x)
    ensures Picks(at + [|xs|], ys + [x], xs + [x], keep)
  {
    forall i: nat | i < |xs| && keep((xs + [x])[i])
      ensures i in at
    {
      assert (xs + [x])[i] == xs[i];
    }
  }

  lemma PicksMore(at: seq<nat>, ys: seq<string>, xs: seq<string>, x: string, keep: string -> bool)
    requires Picks(at, ys, xs, keep)
    ensures if keep(x) then Picks(at + [|xs|], ys + [x], xs + [x], keep) else Picks(at, ys, xs + [x], keep)
  {
    if keep(x) {
      PicksOne(at, ys, xs, x, keep);
    }
  }

  // ----- what a message says -----

  const IS_PIECE: string -> bool := piece => piece != ""

  lemma {:induction false} NonEmptyPicks(pieces: seq<string>) returns (at: seq<nat>)
    ensures Picks(at, NonEmpty(pieces), pieces, IS_PIECE)
  {
    if pieces == [] {
      at := [];
    } else {
      var front, last := pieces[..|pieces| - 1], pieces[|pieces| - 1];
      assert pieces == front + [last];
      var before := NonEmptyPicks(front);
      NonEmptyLast(front, last);
      PicksMore(before, NonEmpty(front), front, last, IS_PIECE);
      at := if IS_PIECE(last) then before + [|front|] else before;
    }
  }

  lemma {:induction false} NonEmptyLast(front: seq<string>, last: string)
    ensures NonEmpty(front + [last]) == if last != "" then NonEmpty(front) + [last] else NonEmpty(front)
  {
    if front == [] {
      assert [last][1..] == [];
    } else {
      assert (front + [last])[0] == front[0] && (front + [last])[1..] == front[1..] + [last];
      NonEmptyLast(front[1..], last);
    }
  }

  /** The last field with this first character, if there is one. */
  ghost predicate LastAt(fields: seq<string>, first: string, i: int) {
    && 0 <= i < |fields| && first <= fields[i]
    && forall j :: i < j < |fields| ==> !(first <= fields[j])
  }

  lemma {:induction false} LastWithAt(fields: seq<string>, prefix: string)
    ensures LastWith(fields, prefix).None? ==> forall i :: 0 <= i < |fields| ==> !(prefix <= fields[i])
    ensures LastWith(fields, prefix).Some? ==>
              exists i :: LastAt(fields, prefix, i) && LastWith(fields, prefix).value == fields[i][|prefix|..]
  {
    if fields != [] {
      LastWithAt(fields[1..], prefix);
      if LastWith(fields[1..], prefix).Some? {
        var i :| LastAt(fields[1..], prefix, i) && LastWith(fields[1..], prefix).value == fields[1..][i][|prefix|..];
        assert fields[i + 1] == fields[1..][i] && LastAt(fields, prefix, i + 1);
      } else {
        assert prefix <= fields[0] ==> LastAt(fields, prefix, 0);
      }
    }
  }

  lemma LastAtIs(fields: seq<string>, prefix: string, i: int)
    requires LastAt(fields, prefix, i)
    ensures LastWith(fields, prefix) == Some(fields[i][|prefix|..])
  {
    LastWithAt(fields, prefix);
  }

  predicate IsType(symbol: string) {
    symbol == "g" || symbol == "c" || symbol == "h" || symbol == "d" || symbol == "s" || symbol == "ms"
  }

  /** The value part: any text for a set; else one value, or a list with a colon that holds some piece, and all must parse. */
  predicate GoodValue(raw: string, symbol: string, parse: FloatParser) {
    || symbol == "s"
    || (':' !in raw && parse(raw).Some?)
    || (':' in raw && (exists p :: p in Split(raw, ':') && p != "") && forall p :: p in Split(raw, ':') && p != "" ==> parse(p).Some?)
  }

  predicate GoodFields(name: string, raw: string, fields: seq<string>, parse: FloatParser) {
    && 2 <= |fields| <= 4 && fields[0] == name + ":" + raw && ':' !in name && name != "" && raw != ""
    && IsType(fields[1]) && GoodValue(raw, fields[1], parse)
    && forall i :: 2 <= i < |fields| && "@" <= fields[i] ==> parse(fields[i][1..]).Some?
  }

  lemma NameAndValueAre(first: string)
    ensures ParseNameAndRawValue(first).Some? <==> exists name, raw :: first == name + ":" + raw && ':' !in name && name != "" && raw != ""
    ensures forall name, raw :: first == name + ":" + raw && ':' !in name && name != "" && raw != "" ==>
              ParseNameAndRawValue(first) == Some(NameAndValue(name, raw))
  {
    forall name, raw | first == name + ":" + raw && ':' !in name && name != "" && raw != ""
      ensures ParseNameAndRawValue(first) == Some(NameAndValue(name, raw))
    {
      NameAndRawValueIff(name, raw);
    }
    if ParseNameAndRawValue(first).Some? {
      var nv := ParseNameAndRawValue(first).value;
      assert first == nv.name + ":" + nv.rawValue;
    }
  }

  lemma TypesAre(raw: string)
    ensures raw == "g" <==> ParseMetricType(raw) == Some(Gauge)
    ensures raw == "c" <==> ParseMetricType(raw) == Some(Count)
    ensures raw == "h" <==> ParseMetricType(raw) == Some(Histogram)
    ensures raw == "d" <==> ParseMetricType(raw) == Some(Distribution)
    ensures raw == "s" <==> ParseMetricType(raw) == Some(Set)
    ensures raw == "ms" <==> ParseMetricType(raw) == Some(Timing)
  {}

  lemma ValueAccepted(raw: string, symbol: string, parse: FloatParser)
    requires ParseMetricType(symbol).Some?
    ensures ValueOf(raw, ParseMetricType(symbol).value, parse).Some? <==> GoodValue(raw, symbol, parse)
  {
    TypesAre(symbol);
    MF.NonEmptyKeeps(Split(raw, ':'));
    assert Pieces(raw) != [] ==> Pieces(raw)[0] in Pieces(raw);
  }

  /** A message is accepted exactly when it has two to four fields: a name with a value, a type, and fields whose rates parse. */
  lemma AcceptedIff(message: string, parse: FloatParser)
    ensures MetricOf(message, parse).Some? <==> exists name, raw :: GoodFields(name, raw, Split(message, '|'), parse)
  {
    var fields := Split(message, '|');
    if 2 <= |fields| <= 4 {
      NameAndValueAre(fields[0]);
      TypesAre(fields[1]);
      RatesAre(fields, parse);
      if ParseMetricType(fields[1]).Some? && ParseNameAndRawValue(fields[0]).Some? {
        var nv := ParseNameAndRawValue(fields[0]).value;
        ValueAccepted(nv.rawValue, fields[1], parse);
        assert ParseNameAndRawValue(fields[0]) == Some(NameAndValue(nv.name, nv.rawValue));
        GoodIff(message, nv, parse);
        assert forall name, raw :: GoodFields(name, raw, fields, parse) ==> nv == NameAndValue(name, raw);
      }
    }
  }

  lemma GoodIff(message: string, nv: NameAndValue, parse: FloatParser)
    requires var fields := Split(message, '|');
             && 2 <= |fields| <= 4 && ParseNameAndRawValue(fields[0]) == Some(nv) && ParseMetricType(fields[1]).Some?
             && IsType(fields[1]) && (RatesParse(fields[2..], parse) <==> forall i :: 2 <= i < |fields| && "@" <= fields[i] ==> parse(fields[i][1..]).Some?)
             && (ValueOf(nv.rawValue, ParseMetricType(fields[1]).value, parse).Some? <==> GoodValue(nv.rawValue, fields[1], parse))
    ensures MetricOf(message, parse).Some? <==> GoodFields(nv.name, nv.rawValue, Split(message, '|'), parse)
  {}

  lemma RatesAre(fields: seq<string>, parse: FloatParser)
    requires |fields| >= 2
    ensures RatesParse(fields[2..], parse) <==> forall i :: 2 <= i < |fields| && "@" <= fields[i] ==> parse(fields[i][1..]).Some?
  {
    if RatesParse(fields[2..], parse) {
      forall i | 2 <= i < |fields| && "@" <= fields[i]
        ensures parse(fields[i][1..]).Some?
      {
        assert fields[i] == fields[2..][i - 2];
      }
    } else {
      var f :| f in fields[2..] && "@" <= f && parse(f[1..]).None?;
      var i :| 0 <= i < |fields| - 2 && fields[2..][i] == f;
      assert fields[i + 2] == f;
    }
  }

  /** The values of a list are its non-empty pieces, parsed, in order. */
  ghost predicate ListsValues(values: seq<Float>, raw: string, parse: FloatParser) {
    exists pieces :: KeepsOnly(pieces, Split(raw, ':'), IS_PIECE) && |pieces| == |values| &&
                     forall j :: 0 <= j < |pieces| ==> parse(pieces[j]) == Some(values[j])
  }

  ghost predicate SaysValue(s: Sample, raw: string, symbol: string, parse: FloatParser) {
    if symbol == "s" then s.setValue == raw && s.values == [] && s.value == Finite(0.0)
    else if ':' in raw then s.setValue == "" && s.values != [] && s.value == Finite(0.0) && ListsValues(s.values, raw, parse)
    else s.setValue == "" && s.values == [] && parse(raw) == Some(s.value)
  }

  /** The last rate holds and the last tags hold; without one the rate is 1 and there are no tags. */
  ghost predicate SaysOptional(s: Sample, optional: seq<string>, parse: FloatParser) {
    && (forall i :: LastAt(optional, "@", i) ==> parse(optional[i][1..]) == Some(s.sampleRate))
    && ((forall i :: !LastAt(optional, "@", i)) ==> s.sampleRate == Finite(1.0))
    && (forall i :: LastAt(optional, "#", i) ==> s.tags == if optional[i] == "#" then [] else Split(optional[i][1..], ','))
    && ((forall i :: !LastAt(optional, "#", i)) ==> s.tags == [])
  }

  lemma OptionalIs(s: Sample, optional: seq<string>, parse: FloatParser)
    requires RatesParse(optional, parse) && s.sampleRate == RateOf(optional, parse) && s.tags == TagListOf(optional)
    ensures SaysOptional(s, optional, parse)
  {
    LastWithAt(optional, "@");
    LastWithAt(optional, "#");
    forall i | LastAt(optional, "@", i)
      ensures parse(optional[i][1..]) == Some(s.sampleRate)
    {
      LastAtIs(optional, "@", i);
    }
    forall i | LastAt(optional, "#", i)
      ensures s.tags == if optional[i] == "#" then [] else Split(optional[i][1..], ',')
    {
      LastAtIs(optional, "#", i);
    }
  }

  lemma ValueIs(s: Sample, raw: string, symbol: string, parse: FloatParser)
    requires ParseMetricType(symbol) == Some(s.sampleType)
    requires ValueOf(raw, s.sampleType, parse) == Some(ParsedValue(s.value, s.values, s.setValue))
    ensures SaysValue(s, raw, symbol, parse)
  {
    TypesAre(symbol);
    if symbol != "s" && ':' in raw {
      var at := NonEmptyPicks(Split(raw, ':'));
      var pieces := Pieces(raw);
      assert forall j :: 0 <= j < |pieces| ==> pieces[j] in pieces;
    }
  }

  /** An accepted message says its name, its value or values, its rate and its tags where it has them. */
  lemma ReadsAttributes(message: string, parse: FloatParser)
    requires MetricOf(message, parse).Some?
    ensures var s, fields := MetricOf(message, parse).value, Split(message, '|');
            && |fields| >= 2 && ParseMetricType(fields[1]) == Some(s.sampleType)
            && (exists raw :: GoodFields(s.name, raw, fields, parse) && SaysValue(s, raw, fields[1], parse))
            && SaysOptional(s, fields[2..], parse)
  {
    var s, fields := MetricOf(message, parse).value, Split(message, '|');
    AcceptedIff(message, parse);
    var name, raw :| GoodFields(name, raw, fields, parse);
    NameAndValueAre(fields[0]);
    ValueIs(s, raw, fields[1], parse);
    OptionalIs(s, fields[2..], parse);
    assert GoodFields(s.name, raw, fields, parse);
  }
}
