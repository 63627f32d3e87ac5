/** The Go string operations the program relies on: joining, splitting, trimming,
    and decimal printing and parsing, with the facts that make them invertible. */
module Text {
  import opened Core

  function Count(s: string, c: char): nat {
    if s == "" then 0 else (if s[0] == c then 1 else 0) + Count(s[1..], c)
  }

  /** `strings.Join` with a one-character separator. */
  function Join(parts: seq<string>, c: char): string {
    if |parts| == 0 then ""
    else if |parts| == 1 then parts[0]
    else parts[0] + [c] + Join(parts[1..], c)
  }

  /** `strings.Split` at a one-character separator. */
  function Split(s: string, c: char): (r: seq<string>)
    ensures |r| == Count(s, c) + 1
    ensures forall i | 0 <= i < |r| :: c !in r[i]
  {
    if s == "" then [""]
    else
      var r := Split(s[1..], c);
      if s[0] == c then [""] + r else [[s[0]] + r[0]] + r[1..]
  }

  /** What splitting each item and keeping the pieces in order gives. */
  function Pieces(items: seq<string>, c: char): seq<string> {
    if items == [] then [] else Split(items[0], c) + Pieces(items[1..], c)
  }

  lemma {:induction false} JoinOfSplit(s: string, c: char)
    ensures Join(Split(s, c), c) == s
  {
    if s != "" {
      JoinOfSplit(s[1..], c);
      var r := Split(s[1..], c);
      if s[0] == c {
        assert ([""] + r)[1..] == r;
      } else {
        assert Split(s, c)[1..] == r[1..];
        assert s == [s[0]] + s[1..];
      }
    }
  }

  lemma {:induction false} SplitOfConcat(a: string, b: string, c: char)
    ensures Split(a + [c] + b, c) == Split(a, c) + Split(b, c)
  {
    var s := a + [c] + b;
    if a == "" {
      assert s[1..] == b;
    } else {
      assert s[1..] == a[1..] + [c] + b;
      SplitOfConcat(a[1..], b, c);
    }
  }

  /** Splitting a joined list gives back the pieces of its items, even when the
      items contain the separator themselves. */
  lemma {:induction false} SplitOfJoin(items: seq<string>, c: char)
    requires items != []
    ensures Split(Join(items, c), c) == Pieces(items, c)
  {
    if |items| == 1 {
      assert Pieces(items, c) == Split(items[0], c) + [];
    } else {
      SplitOfJoin(items[1..], c);
      SplitOfConcat(items[0], Join(items[1..], c), c);
    }
  }

  lemma {:induction false} SplitFree(s: string, c: char)
    requires c !in s
    ensures Split(s, c) == [s]
  {
    if s != "" {
      SplitFree(s[1..], c);
      assert s == [s[0]] + s[1..];
    }
  }

  lemma {:induction false} PiecesFree(items: seq<string>, c: char)
    requires forall i | 0 <= i < |items| :: c !in items[i]
    ensures Pieces(items, c) == items
  {
    if items != [] {
      SplitFree(items[0], c);
      PiecesFree(items[1..], c);
    }
  }

  lemma {:induction false} CountFree(s: string, c: char)
    requires c !in s
    ensures Count(s, c) == 0
  {
    if s != "" { CountFree(s[1..], c); }
  }

  lemma {:induction false} CountConcat(a: string, b: string, c: char)
    ensures Count(a + b, c) == Count(a, c) + Count(b, c)
  {
    if a == "" {
      assert a + b == b;
    } else {
      assert (a + b)[1..] == a[1..] + b;
      CountConcat(a[1..], b, c);
    }
  }

  /** Joining loses nothing between lists whose items pairwise hold equally many
      separators; separator-free items are the usual case. */
  lemma {:induction false} JoinInjective(a: seq<string>, b: seq<string>, c: char)
    requires |a| == |b|
    requires forall i | 0 <= i < |a| :: Count(a[i], c) == Count(b[i], c)
    requires Join(a, c) == Join(b, c)
    ensures a == b
  {
    if a != [] {
      SplitOfJoin(a, c);
      SplitOfJoin(b, c);
      PiecesInjective(a, b, c);
    }
  }

  lemma {:induction false} PiecesInjective(a: seq<string>, b: seq<string>, c: char)
    requires |a| == |b|
    requires forall i | 0 <= i < |a| :: Count(a[i], c) == Count(b[i], c)
    requires Pieces(a, c) == Pieces(b, c)
    ensures a == b
  {
    if a != [] {
      var n := |Split(a[0], c)|;
      assert Split(a[0], c) == Pieces(a, c)[..n] == Split(b[0], c);
      assert Pieces(a[1..], c) == Pieces(a, c)[n..] == Pieces(b[1..], c);
      JoinOfSplit(a[0], c);
      JoinOfSplit(b[0], c);
      PiecesInjective(a[1..], b[1..], c);
      assert a == [a[0]] + a[1..] && b == [b[0]] + b[1..];
    }
  }

  // Decimal numbers

  predicate IsDigit(c: char) { '0' <= c <= '9' }

  function Digit(d: nat): char
    requires d < 10
  {
    '0' + d as char
  }

  /** The `%d` of a non-negative number. */
  function Decimal(n: nat): (s: string)
    ensures s != "" && forall c <- s :: IsDigit(c)
  {
    if n < 10 then [Digit(n)] else Decimal(n / 10) + [Digit(n % 10)]
  }

  /** The loop of `strconv.ParseUint(s, 10, 16)`: stop at the first character that
      is no digit or makes the number exceed 16 bits. */
  function ParseDigits(s: string, acc: uint16): Option<uint16> {
    if s == "" then Some(acc)
    else if !IsDigit(s[0]) then None
    else
      var n := 10 * acc + (s[0] as int - '0' as int);
      if n > 0xFFFF then None else ParseDigits(s[1..], n)
  }

  function ParseUint16(s: string): Option<uint16> {
    if s == "" then None else ParseDigits(s, 0)
  }

  lemma {:induction false} ParseDigitsConcat(a: string, b: string, acc: uint16)
    requires ParseDigits(a, acc).Some?
    ensures ParseDigits(a + b, acc) == ParseDigits(b, ParseDigits(a, acc).value)
  {
    if a == "" {
      assert a + b == b;
    } else {
      assert (a + b)[1..] == a[1..] + b;
      ParseDigitsConcat(a[1..], b, 10 * acc + (a[0] as int - '0' as int));
    }
  }

  lemma {:induction false} ParseDecimal(n: uint16)
    ensures ParseUint16(Decimal(n)) == Some(n)
  {
    if n < 10 {
      assert Decimal(n)[1..] == "";
      assert ParseDigits(Decimal(n)[1..], n) == Some(n);
    } else {
      ParseDecimal(n / 10);
      var last := [Digit(n % 10)];
      ParseDigitsConcat(Decimal(n / 10), last, 0);
      assert last[1..] == "";
    }
  }

  lemma {:induction false} DecimalInjective(m: uint16, n: uint16)
    requires Decimal(m) == Decimal(n)
    ensures m == n
  {
    ParseDecimal(m);
    ParseDecimal(n);
  }

  predicate AllDigits(s: string) { forall i | 0 <= i < |s| :: IsDigit(s[i]) }

  /** The number a text of digits stands for, the last digit counting once. */
  function Value(s: string): nat
    requires AllDigits(s)
  {
    if s == "" then 0 else 10 * Value(s[..|s| - 1]) + (s[|s| - 1] as int - '0' as int)
  }

  function ValueFrom(s: string, acc: nat): nat
    requires AllDigits(s)
  {
    if s == "" then acc else ValueFrom(s[1..], 10 * acc + (s[0] as int - '0' as int))
  }

  lemma {:induction false} ValueFromGrows(s: string, acc: nat)
    requires AllDigits(s)
    ensures ValueFrom(s, acc) >= acc
  {
    if s != "" { ValueFromGrows(s[1..], 10 * acc + (s[0] as int - '0' as int)); }
  }

  lemma {:induction false} ValueFromLast(s: string, x: char, acc: nat)
    requires IsDigit(x) && AllDigits(s)
    ensures ValueFrom(s + [x], acc) == 10 * ValueFrom(s, acc) + (x as int - '0' as int)
  {
    var t := s + [x];
    if s == "" {
      assert t[1..] == "";
    } else {
      assert t[1..] == s[1..] + [x];
      ValueFromLast(s[1..], x, 10 * acc + (s[0] as int - '0' as int));
    }
  }

  lemma {:induction false} ValueIsValueFrom(s: string)
    requires AllDigits(s)
    ensures Value(s) == ValueFrom(s, 0)
  {
    if s != "" {
      var init := s[..|s| - 1];
      ValueIsValueFrom(init);
      ValueFromLast(init, s[|s| - 1], 0);
      assert s == init + [s[|s| - 1]];
    }
  }

  lemma {:induction false} ParseDigitsSays(s: string, acc: uint16)
    ensures ParseDigits(s, acc) ==
            if AllDigits(s) && ValueFrom(s, acc) <= 0xFFFF then Some(ValueFrom(s, acc)) else None
  {
    if s != "" && IsDigit(s[0]) {
      var n := 10 * acc + (s[0] as int - '0' as int);
      assert s == [s[0]] + s[1..];
      if AllDigits(s) { ValueFromGrows(s[1..], n); }
      if n <= 0xFFFF { ParseDigitsSays(s[1..], n); }
    }
  }

  /** A text parses exactly if it is made of digits, at least one, and stands for a
      number of 16 bits, which is the result. */
  lemma ParseUint16Says(s: string)
    ensures ParseUint16(s) ==
            if s != "" && AllDigits(s) && Value(s) <= 0xFFFF then Some(Value(s)) else None
  {
    ParseDigitsSays(s, 0);
    if AllDigits(s) { ValueIsValueFrom(s); }
  }

  lemma {:induction false} DecimalValue(n: nat)
    ensures AllDigits(Decimal(n)) && Value(Decimal(n)) == n
  {
    var s := Decimal(n);
    forall i | 0 <= i < |s| ensures IsDigit(s[i]) { assert s[i] in s; }
    if n < 10 {
      assert s[..0] == "";
    } else {
      DecimalValue(n / 10);
      assert s[..|s| - 1] == Decimal(n / 10);
    }
  }

  // Trimming

  /** `unicode.IsSpace`. */
  predicate IsSpace(c: char) {
    c in {'\t', '\n', '\U{0B}', '\U{0C}', '\r', ' ', '\U{85}', '\U{A0}', '\U{1680}',
          '\U{2028}', '\U{2029}', '\U{202F}', '\U{205F}', '\U{3000}'}
    || '\U{2000}' <= c <= '\U{200A}'
  }

  predicate IsQuote(c: char) { c == '"' || c == '\'' }

  function TrimLeft(s: string, p: char -> bool): string {
    if s != "" && p(s[0]) then TrimLeft(s[1..], p) else s
  }

  function TrimRight(s: string, p: char -> bool): string {
    if s != "" && p(s[|s| - 1]) then TrimRight(s[..|s| - 1], p) else s
  }

  function Trim(s: string, p: char -> bool): string {
    TrimRight(TrimLeft(s, p), p)
  }

  function TrimSpace(s: string): string { Trim(s, IsSpace) }

  lemma TrimNothing(s: string, p: char -> bool)
    requires s == "" || (!p(s[0]) && !p(s[|s| - 1]))
    ensures Trim(s, p) == s
  {}

  /** One more trimmable character at the right end makes no difference. */
  lemma {:induction false} TrimExtended(s: string, x: char, p: char -> bool)
    requires p(x)
    ensures Trim(s + [x], p) == Trim(s, p)
  {
    if s == "" {
      assert s + [x] == [x];
      assert TrimLeft([x], p) == TrimLeft("", p);
    } else if p(s[0]) {
      assert (s + [x])[1..] == s[1..] + [x];
      TrimExtended(s[1..], x, p);
    } else {
      assert (s + [x])[..|s|] == s;
    }
  }
}
