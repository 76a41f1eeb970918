/** The byte-string helpers of the wire parser: searching, splitting, joining and decimal integers. */
module Bytes {
  import opened Wrappers

  const MAX_INT64 := 0x7FFF_FFFF_FFFF_FFFF
  const MIN_INT64 := -0x8000_0000_0000_0000

  /** The value a 64-bit sum really has. */
  function Wrap64(x: int): (r: int)
    ensures MIN_INT64 <= r <= MAX_INT64
    ensures MIN_INT64 <= x <= MAX_INT64 ==> r == x
    ensures MAX_INT64 < x <= 2 * MAX_INT64 + 1 ==> r < 0
  {
    (x - MIN_INT64) % 0x1_0000_0000_0000_0000 + MIN_INT64
  }

  // ----- searching and splitting -----

  /** `bytes.Index` for one byte: its first position, or -1. */
  function Index(s: string, c: char): (i: int)
    ensures -1 <= i < |s|
    ensures i == -1 <==> c !in s
  {
    IndexFrom(s, c, 0)
  }

  function IndexFrom(s: string, c: char, from: nat): (i: int)
    requires from <= |s|
    ensures i == -1 || (from <= i < |s| && s[i] == c)
    ensures forall k :: from <= k < (if i == -1 then |s| else i) ==> s[k] != c
    decreases |s| - from
  {
    if from == |s| then -1 else if s[from] == c then from else IndexFrom(s, c, from + 1)
  }

  lemma IndexIsFirst(s: string, c: char)
    requires c in s
    ensures var i := Index(s, c); s[i] == c && c !in s[..i]
  {
  }

  function CountOf(s: string, c: char): nat {
    if s == "" then 0 else (if s[0] == c then 1 else 0) + CountOf(s[1..], c)
  }

  function Split(s: string, c: char): (parts: seq<string>)
    ensures parts != []
    decreases |s|
  {
    var i := Index(s, c);
    if i == -1 then [s] else [s[..i]] + Split(s[i + 1..], c)
  }

  lemma SplitFirst(s: string, c: char)
    ensures c !in s ==> Split(s, c) == [s]
    ensures c in s ==> var i := Index(s, c); Split(s, c) == [s[..i]] + Split(s[i + 1..], c)
  {
  }

  lemma Associative<T>(a: seq<T>, b: seq<T>, c: seq<T>)
    ensures a + (b + c) == a + b + c
  {
  }

  lemma CutAt<T>(a: seq<T>, i: nat)
    requires i < |a|
    ensures a == a[..i] + [a[i]] + a[i + 1..]
  {
  }

  lemma Regroup<T>(a: seq<T>, x: T, b: seq<T>, y: T, c: seq<T>)
    ensures a + [x] + b + [y] + c == a + [x] + (b + [y] + c)
  {
  }

  function Join(parts: seq<string>, c: char): string {
    if parts == [] then "" else if |parts| == 1 then parts[0] else parts[0] + [c] + Join(parts[1..], c)
  }

  lemma IndexAt(a: string, b: string, c: char)
    requires c !in a
    ensures Index(a + [c] + b, c) == |a|
  {
    var s := a + [c] + b;
    assert s[|a|] == c && forall k :: 0 <= k < |a| ==> s[k] == a[k];
  }

  lemma SplitAt(a: string, b: string, c: char)
    requires c !in a
    ensures Split(a + [c] + b, c) == [a] + Split(b, c)
  {
    IndexAt(a, b, c);
    var s := a + [c] + b;
    assert s[..|a|] == a && s[|a| + 1..] == b;
  }

  lemma SplitStep(a: string, b: string, c: char)
    requires c in a
    ensures var i := Index(a, c);
            Split(a + [c] + b, c) == [a[..i]] + Split(a[i + 1..] + [c] + b, c)
  {
    var i := Index(a, c);
    IndexIsFirst(a, c);
    CutAt(a, i);
    Regroup(a[..i], c, a[i + 1..], c, b);
    SplitAt(a[..i], a[i + 1..] + [c] + b, c);
  }

  lemma {:induction false} SplitConcat(a: string, b: string, c: char)
    ensures Split(a + [c] + b, c) == Split(a, c) + Split(b, c)
    decreases |a|
  {
    SplitFirst(a, c);
    if c in a {
      var i := Index(a, c);
      SplitStep(a, b, c);
      SplitConcat(a[i + 1..], b, c);
      Associative([a[..i]], Split(a[i + 1..], c), Split(b, c));
    } else {
      SplitAt(a, b, c);
    }
  }

  lemma {:induction false} SplitJoin(parts: seq<string>, c: char)
    requires parts != [] && forall p :: p in parts ==> c !in p
    ensures Split(Join(parts, c), c) == parts
  {
    assert parts[0] in parts;
    if |parts| == 1 {
      assert parts == [parts[0]];
    } else {
      SplitAt(parts[0], Join(parts[1..], c), c);
      SplitJoin(parts[1..], c);
    }
  }

  lemma {:induction false} CountSplit(s: string, c: char)
    ensures CountOf(s, c) == |Split(s, c)| - 1
    decreases |s|
  {
    var i := Index(s, c);
    if i == -1 {
      CountNone(s, c);
    } else {
      IndexIsFirst(s, c);
      CountSplit(s[i + 1..], c);
      assert s == s[..i] + ([c] + s[i + 1..]);
      CountConcat(s[..i], [c] + s[i + 1..], c);
      CountNone(s[..i], c);
      assert ([c] + s[i + 1..])[1..] == s[i + 1..];
    }
  }

  lemma {:induction false} CountNone(s: string, c: char)
    requires c !in s
    ensures CountOf(s, c) == 0
  {
    if s != "" {
      CountNone(s[1..], c);
    }
  }

  lemma {:induction false} CountConcat(a: string, b: string, c: char)
    ensures CountOf(a + b, c) == CountOf(a, c) + CountOf(b, c)
  {
    if a == "" {
      assert a + b == b;
    } else {
      assert (a + b)[1..] == a[1..] + b;
      CountConcat(a[1..], b, c);
    }
  }

  lemma {:induction false} JoinFree(parts: seq<string>, c: char, d: char)
    requires c != d && forall p :: p in parts ==> d !in p
    ensures d !in Join(parts, c)
  {
    if |parts| == 1 {
      assert parts[0] in parts;
    } else if |parts| > 1 {
      assert parts[0] in parts;
      JoinFree(parts[1..], c, d);
    }
  }

  lemma {:induction false} JoinHasIff(parts: seq<string>, c: char, d: char)
    requires c != d
    ensures d in Join(parts, c) <==> exists p :: p in parts && d in p
  {
    if |parts| == 1 {
      assert parts == [parts[0]];
    } else if |parts| > 1 {
      assert parts == [parts[0]] + parts[1..];
      JoinHasIff(parts[1..], c, d);
    }
  }

  lemma JoinEmpty(parts: seq<string>, c: char)
    ensures Join(parts, c) == "" <==> parts == [] || parts == [""]
  {
    if |parts| == 1 {
      assert parts == [parts[0]];
    }
  }

  // ----- decimal integers -----

  predicate IsDigit(c: char) {
    '0' <= c <= '9'
  }

  function DigitValue(c: char): nat
    requires IsDigit(c)
  {
    c as int - '0' as int
  }

  function DigitChar(n: nat): (c: char)
    requires n < 10
    ensures IsDigit(c) && DigitValue(c) == n
  {
    '0' + n as char
  }

  /** The value of a non-empty string of digits. */
  function NatOf(s: string): Option<nat> {
    if s == "" then None
    else
      var last := s[|s| - 1];
      if !IsDigit(last) then None
      else if |s| == 1 then Some(DigitValue(last))
      else
        match NatOf(s[..|s| - 1])
        case None => None
        case Some(n) => Some(10 * n + DigitValue(last))
  }

  /** strconv.ParseInt in base 10 for 64 bits: an optional sign, digits, and a range check. */
  function ParseInt64(s: string): Option<int> {
    if s == "" then None
    else
      var digits := if s[0] == '+' || s[0] == '-' then s[1..] else s;
      match NatOf(digits)
      case None => None
      case Some(n) =>
        var m: int := n;
        var v := if s[0] == '-' then -m else m;
        if MIN_INT64 <= v <= MAX_INT64 then Some(v) else None
  }

  function Pow10(n: nat): nat {
    if n == 0 then 1 else 10 * Pow10(n - 1)
  }

  /** What the digits are worth by their places, the first counting the most. */
  function PlaceValue(digits: string): int
    requires forall i :: 0 <= i < |digits| ==> IsDigit(digits[i])
  {
    if digits == "" then 0 else (digits[0] as int - '0' as int) * Pow10(|digits| - 1) + PlaceValue(digits[1..])
  }

  lemma Shifted(a: int, p: int, b: int, c: int)
    ensures a * (10 * p) + (10 * b + c) == 10 * (a * p + b) + c
  {}

  lemma {:induction false} PlaceValueLast(digits: string)
    requires digits != "" && forall i :: 0 <= i < |digits| ==> IsDigit(digits[i])
    ensures var n := |digits| - 1; PlaceValue(digits) == 10 * PlaceValue(digits[..n]) + (digits[n] as int - '0' as int)
  {
    var n := |digits| - 1;
    if n > 0 {
      var front := digits[..n];
      PlaceValueLast(digits[1..]);
      assert digits[1..][..n - 1] == front[1..] && digits[1..][n - 1] == digits[n] && front[0] == digits[0];
      Shifted(digits[0] as int - '0' as int, Pow10(n - 1), PlaceValue(front[1..]), digits[n] as int - '0' as int);
    }
  }

  lemma {:induction false} NatOfIff(s: string)
    ensures NatOf(s).Some? <==> s != "" && forall i :: 0 <= i < |s| ==> IsDigit(s[i])
    ensures NatOf(s).Some? ==> NatOf(s).value == PlaceValue(s)
  {
    if s != "" {
      var n := |s| - 1;
      if |s| > 1 {
        NatOfIff(s[..n]);
        assert forall i :: 0 <= i < n ==> s[..n][i] == s[i];
      }
      if forall i :: 0 <= i < |s| ==> IsDigit(s[i]) {
        PlaceValueLast(s);
        assert s[..n] == "" ==> PlaceValue(s[..n]) == 0;
      }
    }
  }

  /** Digits, with one sign before them or none, are read at their place value; whatever is not in 64 bits is refused. */
  lemma ParseInt64Iff(sign: string, digits: string)
    requires sign in ["", "+", "-"] && (sign == "" && digits != "" ==> digits[0] != '+' && digits[0] != '-')
    ensures ParseInt64(sign + digits).Some? <==>
              && digits != "" && (forall i :: 0 <= i < |digits| ==> IsDigit(digits[i]))
              && PlaceValue(digits) <= if sign == "-" then 0x8000_0000_0000_0000 else 0x7FFF_FFFF_FFFF_FFFF
    ensures ParseInt64(sign + digits).Some? ==>
              ParseInt64(sign + digits).value == if sign == "-" then -PlaceValue(digits) else PlaceValue(digits)
  {
    NatOfIff(digits);
    if sign == "" {
      assert sign + digits == digits;
    } else {
      assert (sign + digits)[0] == sign[0] && (sign + digits)[1..] == digits;
    }
  }

  function FormatNat(n: nat): (s: string)
    ensures s != ""
    ensures forall c :: c in s ==> IsDigit(c)
  {
    if n < 10 then [DigitChar(n)] else FormatNat(n / 10) + [DigitChar(n % 10)]
  }

  function FormatInt(n: int): string {
    if n < 0 then "-" + FormatNat(-n) else FormatNat(n)
  }

  lemma {:induction false} NatOfFormat(n: nat)
    ensures NatOf(FormatNat(n)) == Some(n)
  {
    var s := FormatNat(n);
    if n >= 10 {
      assert s[..|s| - 1] == FormatNat(n / 10);
      NatOfFormat(n / 10);
    }
  }

  lemma ParseFormatNat(n: nat)
    requires n <= MAX_INT64
    ensures ParseInt64(FormatNat(n)) == Some(n)
  {
    NatOfFormat(n);
    assert FormatNat(n)[0] in FormatNat(n);
  }

  lemma ParseNegative(digits: string)
    ensures ParseInt64("-" + digits) ==
            match NatOf(digits)
            case None => None
            case Some(n) => if n <= -MIN_INT64 then Some(-(n as int)) else None
  {
    var s := "-" + digits;
    assert s[0] == '-' && s[1..] == digits;
  }

  lemma ParseFormat(n: int)
    requires MIN_INT64 <= n <= MAX_INT64
    ensures ParseInt64(FormatInt(n)) == Some(n)
  {
    if n < 0 {
      NatOfFormat(-n);
      ParseNegative(FormatNat(-n));
    } else {
      ParseFormatNat(n);
    }
  }

  lemma FormatIntFree(n: int, c: char)
    requires !IsDigit(c) && c != '-'
    ensures c !in FormatInt(n)
  {
  }
}
