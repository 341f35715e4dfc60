/**
 * The Content-Range field (section 14.4 of RFC 9110): how rangesplit.go prints
 * it on a reply and reads it from an upstream response.
 */
module ContentRange {
  import opened Prelude

  datatype Parsed = Parsed(start: int, end: int, total: int)

  // ----- printing ---------------------------------------------------------

  function Digit(d: int): char
    requires 0 <= d < 10
  {
    ['0', '1', '2', '3', '4', '5', '6', '7', '8', '9'][d]
  }

  function Digits(n: nat): (s: string)
    ensures |s| > 0 && AllDigits(s)
  {
    if n < 10 then [Digit(n)] else Digits(n / 10) + [Digit(n % 10)]
  }

  function Decimal(n: int): string {
    if n < 0 then "-" + Digits(-n) else Digits(n)
  }

  function Print(start: int, end: int, total: int): string {
    "bytes " + Decimal(start) + "-" + Decimal(end) + "/" + Decimal(total)
  }

  // ----- reading ----------------------------------------------------------

  predicate IsDigit(c: char) {
    '0' <= c <= '9'
  }

  predicate AllDigits(s: string) {
    forall i :: 0 <= i < |s| ==> IsDigit(s[i])
  }

  function Magnitude(s: string): nat
    requires AllDigits(s)
  {
    if s == [] then 0
    else 10 * Magnitude(s[..|s| - 1]) + (s[|s| - 1] as int - '0' as int)
  }

  /** Signed decimal of 64 bits: an optional sign, then at least one digit, in range. */
  function ParseInt(s: string): (r: Option<int>)
    ensures r.Some? ==> IsInt64(r.value)
  {
    var signed := s != [] && (s[0] == '+' || s[0] == '-');
    var body := if signed then s[1..] else s;
    if body == [] || !AllDigits(body) then None
    else
      var m: int := Magnitude(body);
      var n := if signed && s[0] == '-' then -m else m;
      if IsInt64(n) then Some(n) else None
  }

  predicate IsSpace(c: char) {
    || c == '\t' || c == '\n' || c == '\U{0B}' || c == '\U{0C}' || c == '\r' || c == ' '
    || c == '\U{85}' || c == '\U{A0}' || c == '\U{1680}' || '\U{2000}' <= c <= '\U{200A}'
    || c == '\U{2028}' || c == '\U{2029}' || c == '\U{202F}' || c == '\U{205F}' || c == '\U{3000}'
  }

  function TrimLeft(s: string): string {
    if s != [] && IsSpace(s[0]) then TrimLeft(s[1..]) else s
  }

  function TrimRight(s: string): string {
    if s != [] && IsSpace(s[|s| - 1]) then TrimRight(s[..|s| - 1]) else s
  }

  function TrimPrefix(s: string, prefix: string): string {
    if prefix <= s then s[|prefix|..] else s
  }

  /** Position of the first c in s, or -1. */
  function IndexOf(s: string, c: char): (r: int)
    ensures -1 <= r < |s|
    ensures r >= 0 ==> s[r] == c && c !in s[..r]
    ensures r == -1 ==> c !in s
  {
    if s == [] then -1
    else if s[0] == c then 0
    else
      var r := IndexOf(s[1..], c);
      assert r >= 0 ==> s[..r + 1] == [s[0]] + s[1..][..r];
      if r == -1 then -1 else r + 1
  }

  /** None is the source's ok == false; a total of "*" reads as -1. */
  function Parse(header: string): (r: Option<Parsed>)
    ensures r.Some? ==> 0 <= r.value.start <= r.value.end < TWO_63 && IsInt64(r.value.total)
  {
    var cr := TrimRight(TrimLeft(TrimPrefix(header, "bytes ")));
    var slash := IndexOf(cr, '/');
    if slash < 0 then None else ParseParts(cr[..slash], cr[slash + 1..])
  }

  function ParseParts(rangePart: string, totalPart: string): (r: Option<Parsed>)
    ensures r.Some? ==> 0 <= r.value.start <= r.value.end < TWO_63 && IsInt64(r.value.total)
  {
    var dash := IndexOf(rangePart, '-');
    if dash < 0 then None
    else
      var s := ParseInt(rangePart[..dash]);
      if s.None? then None
      else
        // No '-' precedes the first dash, so the start cannot be negative.
        assert rangePart[..dash][0] != '-';
        var e := ParseInt(rangePart[dash + 1..]);
        if e.None? || e.value < s.value then None
        else if totalPart == "*" then Some(Parsed(s.value, e.value, -1))
        else
          var t := ParseInt(totalPart);
          if t.None? then None else Some(Parsed(s.value, e.value, t.value))
  }

  // ----- the two agree ----------------------------------------------------

  lemma {:induction false} MagnitudeOfDigits(n: nat)
    ensures Magnitude(Digits(n)) == n
  {
    if n >= 10 {
      MagnitudeOfDigits(n / 10);
      assert Digits(n)[..|Digits(n)| - 1] == Digits(n / 10);
    }
  }

  function Signed(d: string, negative: bool): int
    requires AllDigits(d)
  {
    var m: int := Magnitude(d);
    if negative then -m else m
  }

  lemma ParseIntOfDigits(d: string, negative: bool)
    requires d != [] && AllDigits(d) && IsInt64(Signed(d, negative))
    ensures ParseInt(if negative then "-" + d else d) == Some(Signed(d, negative))
  {
    if negative {
      assert ("-" + d)[1..] == d;
    } else {
      assert IsDigit(d[0]);
    }
  }

  lemma ParseIntOfDecimal(n: int)
    requires IsInt64(n)
    ensures ParseInt(Decimal(n)) == Some(n)
  {
    var m := if n < 0 then -n else n;
    MagnitudeOfDigits(m);
    ParseIntOfDigits(Digits(m), n < 0);
  }

  /** A printed number has a digit at its end, no '/', and a '-' only in front. */
  lemma DecimalShape(n: int)
    ensures var s := Decimal(n); |s| > 0 && IsDigit(s[|s| - 1]) && '/' !in s
    ensures n < 0 ==> Decimal(n)[0] == '-'
    ensures n >= 0 ==> '-' !in Decimal(n) && IsDigit(Decimal(n)[0])
  {
    var d := Digits(if n < 0 then -n else n);
    assert forall c :: c in d ==> IsDigit(c);
  }

  lemma TrimKeeps(s: string)
    requires s != [] && !IsSpace(s[0]) && !IsSpace(s[|s| - 1])
    ensures TrimRight(TrimLeft(s)) == s
  {
  }

  lemma SplitAtSeparator(x: string, c: char, y: string)
    requires c !in x
    ensures var s := x + [c] + y;
            IndexOf(s, c) == |x| && s[..|x|] == x && s[|x| + 1..] == y
  {
    var s := x + [c] + y;
    assert s[|x|] == c;
    assert forall i :: 0 <= i < |x| ==> s[i] == x[i];
  }

  lemma NoSpaceAround(a: string, b: string, c: string)
    requires a != [] && (IsDigit(a[0]) || a[0] == '-') && c != [] && IsDigit(c[|c| - 1])
    ensures var s := a + "-" + b + "/" + c; s != [] && !IsSpace(s[0]) && !IsSpace(s[|s| - 1])
  {
    var s := a + "-" + b + "/" + c;
    assert s[0] == a[0] && s[|s| - 1] == c[|c| - 1];
  }

  lemma PrefixDropped(body: string)
    ensures TrimPrefix("bytes " + body, "bytes ") == body
  {
    assert ("bytes " + body)[6..] == body;
  }

  lemma BodyIsTrimmed(start: int, end: int, total: int)
    ensures var body := Decimal(start) + "-" + Decimal(end) + "/" + Decimal(total);
            TrimRight(TrimLeft(TrimPrefix(Print(start, end, total), "bytes "))) == body
  {
    DecimalShape(start);
    DecimalShape(total);
    var body := Decimal(start) + "-" + Decimal(end) + "/" + Decimal(total);
    assert Print(start, end, total) == "bytes " + body;
    PrefixDropped(body);
    NoSpaceAround(Decimal(start), Decimal(end), Decimal(total));
    TrimKeeps(body);
  }

  /** The first slash of a printed range splits it back into its two parts. */
  lemma PrintedParts(start: int, end: int, total: int)
    ensures Parse(Print(start, end, total)) == ParseParts(Decimal(start) + "-" + Decimal(end), Decimal(total))
  {
    BodyIsTrimmed(start, end, total);
    DecimalShape(start);
    DecimalShape(end);
    SplitAtSeparator(Decimal(start) + "-" + Decimal(end), '/', Decimal(total));
  }

  /** A range of something whose size is not known. */
  function PrintUnknown(start: int, end: int): string {
    "bytes " + Decimal(start) + "-" + Decimal(end) + "/*"
  }

  /** A total of "*" reads as -1, for the same ranges as a number does. */
  lemma UnknownTotalReads(start: int, end: int)
    requires IsInt64(start) && IsInt64(end)
    ensures Parse(PrintUnknown(start, end)) == if 0 <= start <= end then Some(Parsed(start, end, -1)) else None
  {
    DecimalShape(start);
    DecimalShape(end);
    ParseIntOfDecimal(start);
    ParseIntOfDecimal(end);
    UnknownIsTrimmed(Decimal(start), Decimal(end));
    SplitAtSeparator(Decimal(start) + "-" + Decimal(end), '/', "*");
    UnknownPartsOf(Decimal(start), Decimal(end));
  }

  lemma UnknownIsTrimmed(a: string, b: string)
    requires a != [] && (IsDigit(a[0]) || a[0] == '-')
    ensures var body := a + "-" + b + "/" + "*";
            TrimRight(TrimLeft(TrimPrefix("bytes " + a + "-" + b + "/*", "bytes "))) == body
  {
    var body := a + "-" + b + "/" + "*";
    assert "bytes " + a + "-" + b + "/*" == "bytes " + body;
    PrefixDropped(body);
    assert body[0] == a[0] && body[|body| - 1] == '*';
    TrimKeeps(body);
  }

  lemma UnknownPartsOf(a: string, b: string)
    requires a != [] && ('-' !in a || a[0] == '-') && ParseInt(b).Some?
    requires '-' !in a ==> ParseInt(a).Some? && ParseInt(a).value >= 0
    ensures ParseParts(a + "-" + b, "*") ==
            if '-' in a || ParseInt(b).value < ParseInt(a).value then None
            else Some(Parsed(ParseInt(a).value, ParseInt(b).value, -1))
  {
    var s := a + "-" + b;
    if '-' in a {
      assert s[0] == '-';
      assert ParseInt(s[..0]) == None;
    } else {
      SplitAtSeparator(a, '-', b);
    }
  }

  lemma PartsOf(a: string, b: string, c: string)
    requires a != [] && ('-' !in a || a[0] == '-') && c != [] && IsDigit(c[|c| - 1])
    requires ParseInt(b).Some? && ParseInt(c).Some?
    requires '-' !in a ==> ParseInt(a).Some? && ParseInt(a).value >= 0
    ensures ParseParts(a + "-" + b, c) ==
            if '-' in a || ParseInt(b).value < ParseInt(a).value then None
            else Some(Parsed(ParseInt(a).value, ParseInt(b).value, ParseInt(c).value))
  {
    var s := a + "-" + b;
    if '-' in a {
      assert s[0] == '-';
      assert ParseInt(s[..0]) == None;
    } else {
      SplitAtSeparator(a, '-', b);
    }
  }

  /**
   * Over all 64-bit triples the reader returns what was printed exactly when
   * the triple is a well-formed range; every other printed triple is refused.
   */
  lemma RoundTrip(start: int, end: int, total: int)
    requires IsInt64(start) && IsInt64(end) && IsInt64(total)
    ensures Parse(Print(start, end, total)) ==
            if 0 <= start <= end then Some(Parsed(start, end, total)) else None
  {
    PrintedParts(start, end, total);
    DecimalShape(start);
    DecimalShape(total);
    ParseIntOfDecimal(start);
    ParseIntOfDecimal(end);
    ParseIntOfDecimal(total);
    PartsOf(Decimal(start), Decimal(end), Decimal(total));
  }

  // ----- exactly what is read -----------------------------------------------

  /** s is the digits d with an optional sign, and n their value. */
  ghost predicate Denotes(s: string, d: string, n: int) {
    && d != [] && AllDigits(d)
    && (((s == d || s == "+" + d) && n == Magnitude(d)) || (s == "-" + d && n == Signed(d, true)))
  }

  /** Digits after an optional sign are read, and nothing else, if the value fits. */
  lemma ParseIntIff(s: string, n: int)
    ensures ParseInt(s) == Some(n) <==> IsInt64(n) && exists d :: Denotes(s, d, n)
  {
    if ParseInt(s) == Some(n) {
      var signed := s != [] && (s[0] == '+' || s[0] == '-');
      var d := if signed then s[1..] else s;
      assert signed ==> s == [s[0]] + d;
      assert Denotes(s, d, n);
    }
    if d :| IsInt64(n) && Denotes(s, d, n) {
      assert IsDigit(d[0]);
      if s != d {
        assert s[1..] == d;
      }
    }
  }

  /** Zeros in front do not count. */
  lemma {:induction false} ZerosInFront(d: string)
    requires AllDigits(d)
    ensures AllDigits("0" + d) && Magnitude("0" + d) == Magnitude(d)
  {
    if d == [] {
      assert "0" + d == "0";
    } else {
      assert ("0" + d)[..|d|] == "0" + d[..|d| - 1];
      ZerosInFront(d[..|d| - 1]);
    }
  }

  predicate AllSpace(s: string) {
    forall i :: 0 <= i < |s| ==> IsSpace(s[i])
  }

  lemma ParsedShape(s: string)
    requires ParseInt(s).Some?
    ensures s != [] && !IsSpace(s[0]) && !IsSpace(s[|s| - 1]) && '/' !in s
  {
    var body := if s[0] == '+' || s[0] == '-' then s[1..] else s;
    assert forall c :: c in body ==> IsDigit(c);
    assert s[|s| - 1] == body[|body| - 1];
    assert forall c :: c in s ==> c == s[0] || c in body;
  }

  lemma {:induction false} LeftTrimmed(l: string, x: string)
    requires AllSpace(l) && x != [] && !IsSpace(x[0])
    ensures TrimLeft(l + x) == x
  {
    if l == [] {
      assert l + x == x;
    } else {
      assert (l + x)[1..] == l[1..] + x;
      LeftTrimmed(l[1..], x);
    }
  }

  lemma {:induction false} RightTrimmed(x: string, r: string)
    requires AllSpace(r) && x != [] && !IsSpace(x[|x| - 1])
    ensures TrimRight(x + r) == x
  {
    if r == [] {
      assert x + r == x;
    } else {
      var n := |r| - 1;
      assert (x + r)[..|x| + n] == x + r[..n];
      RightTrimmed(x, r[..n]);
    }
  }

  lemma {:induction false} LeftSplits(s: string) returns (l: string)
    ensures AllSpace(l) && s == l + TrimLeft(s)
  {
    if s != [] && IsSpace(s[0]) {
      l := LeftSplits(s[1..]);
      l := [s[0]] + l;
    } else {
      l := [];
    }
  }

  lemma {:induction false} RightSplits(s: string) returns (r: string)
    ensures AllSpace(r) && s == TrimRight(s) + r
  {
    if s != [] && IsSpace(s[|s| - 1]) {
      r := RightSplits(s[..|s| - 1]);
      r := r + [s[|s| - 1]];
    } else {
      r := [];
    }
  }

  /** body is a range from a to b of c, and p holds the three numbers. */
  ghost predicate IsRange(body: string, a: string, b: string, c: string, p: Parsed) {
    && body == a + "-" + b + "/" + c && '-' !in a
    && ParseInt(a) == Some(p.start) && ParseInt(b) == Some(p.end) && p.start <= p.end
    && if c == "*" then p.total == -1 else ParseInt(c) == Some(p.total)
  }

  /** The header h is this text in space l and r, with or without the unit in front. */
  ghost predicate Wraps(h: string, l: string, body: string, r: string) {
    && AllSpace(l) && AllSpace(r)
    && (h == "bytes " + (l + (body + r)) || (h == l + (body + r) && !("bytes " <= h)))
  }

  lemma Unwrap(h: string, l: string, body: string, r: string)
    requires Wraps(h, l, body, r) && body != [] && !IsSpace(body[0]) && !IsSpace(body[|body| - 1])
    ensures TrimRight(TrimLeft(TrimPrefix(h, "bytes "))) == body
  {
    var t := l + (body + r);
    if h == "bytes " + t {
      PrefixDropped(t);
    }
    assert (body + r)[0] == body[0];
    LeftTrimmed(l, body + r);
    RightTrimmed(body, r);
  }

  lemma Wrap(h: string) returns (l: string, r: string)
    ensures Wraps(h, l, TrimRight(TrimLeft(TrimPrefix(h, "bytes "))), r)
  {
    var t := TrimPrefix(h, "bytes ");
    assert if "bytes " <= h then h == "bytes " + t else h == t;
    l := LeftSplits(t);
    r := RightSplits(TrimLeft(t));
  }

  lemma PartsRead(a: string, b: string, c: string, p: Parsed)
    requires IsRange(a + "-" + b + "/" + c, a, b, c, p)
    ensures ParseParts(a + "-" + b, c) == Some(p)
  {
    SplitAtSeparator(a, '-', b);
  }

  lemma RangeParses(h: string, l: string, body: string, r: string, a: string, b: string, c: string, p: Parsed)
    requires Wraps(h, l, body, r) && IsRange(body, a, b, c, p)
    ensures Parse(h) == Some(p)
  {
    ParsedShape(a);
    ParsedShape(b);
    if c != "*" {
      ParsedShape(c);
    }
    assert body[0] == a[0] && body[|body| - 1] == c[|c| - 1];
    Unwrap(h, l, body, r);
    SplitAtSeparator(a + "-" + b, '/', c);
    PartsRead(a, b, c, p);
  }

  lemma CutAt(s: string, k: nat)
    requires k < |s|
    ensures s == s[..k] + [s[k]] + s[k + 1..]
  {
  }

  /** What a readable range has before and after its dash. */
  lemma DashParts(s: string, c: string, p: Parsed) returns (k: nat)
    requires ParseParts(s, c) == Some(p)
    ensures k < |s| && s[k] == '-' && '-' !in s[..k]
    ensures ParseInt(s[..k]) == Some(p.start) && ParseInt(s[k + 1..]) == Some(p.end) && p.start <= p.end
    ensures if c == "*" then p.total == -1 else ParseInt(c) == Some(p.total)
  {
    k := IndexOf(s, '-');
  }

  lemma PartsSplit(s: string, c: string, p: Parsed) returns (a: string, b: string)
    requires ParseParts(s, c) == Some(p)
    ensures s == a + "-" + b && IsRange(s + "/" + c, a, b, c, p)
  {
    var k := DashParts(s, c, p);
    a, b := s[..k], s[k + 1..];
    CutAt(s, k);
  }

  lemma ParsesRange(h: string, p: Parsed) returns (l: string, body: string, r: string, a: string, b: string, c: string)
    requires Parse(h) == Some(p)
    ensures Wraps(h, l, body, r) && IsRange(body, a, b, c, p)
  {
    l, r := Wrap(h);
    body := TrimRight(TrimLeft(TrimPrefix(h, "bytes ")));
    var slash := IndexOf(body, '/');
    c := body[slash + 1..];
    a, b := PartsSplit(body[..slash], c, p);
    CutAt(body, slash);
  }

  /** Exactly the headers of this shape are read, as these numbers. */
  lemma ParseIff(h: string, p: Parsed)
    ensures Parse(h) == Some(p) <==>
              exists l, body, r, a, b, c :: Wraps(h, l, body, r) && IsRange(body, a, b, c, p)
  {
    if Parse(h) == Some(p) {
      var l, body, r, a, b, c := ParsesRange(h, p);
    }
    if l, body, r, a, b, c :| Wraps(h, l, body, r) && IsRange(body, a, b, c, p) {
      RangeParses(h, l, body, r, a, b, c, p);
    }
  }
}
