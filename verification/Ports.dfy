/** Port expressions of rules: parsing, matching and decoding from YAML
    (internal/ruleengine/portexpr.go). */
module Ports {
  import opened Core
  import opened Text

  datatype PortExpr = PortExpr(ports: seq<uint16>, ranges: seq<(uint16, uint16)>, negate: bool, wildcard: bool)
  datatype ParseError = BadRangeStart | BadRangeEnd | BadPort

  const ZERO := PortExpr([], [], false, false)

  // Parsing

  /** What one comma-separated part contributes. */
  datatype Part = Blank | Port(port: uint16) | Range(low: uint16, high: uint16) | Bad(error: ParseError)

  /** Both sides of the first c, as `strings.SplitN(s, c, 2)` gives them. */
  function Cut(s: string, c: char): (r: (string, string))
    requires c in s
    ensures r.0 + [c] + r.1 == s && c !in r.0
  {
    if s[0] == c then ("", s[1..])
    else var (a, b) := Cut(s[1..], c); ([s[0]] + a, b)
  }

  function Classify(trimmed: string): Part {
    var part := Trim(trimmed, IsQuote);
    if part == "" then Blank
    else if '-' in part then
      var (a, b) := Cut(part, '-');
      var low, high := ParseUint16(TrimSpace(a)), ParseUint16(TrimSpace(b));
      if low == None then Bad(BadRangeStart)
      else if high == None then Bad(BadRangeEnd)
      else Range(low.value, high.value)
    else
      match ParseUint16(part)
      case None => Bad(BadPort)
      case Some(p) => Port(p)
  }

  function ParseParts(texts: seq<string>): seq<Part> {
    seq(|texts|, i requires 0 <= i < |texts| => Classify(TrimSpace(texts[i])))
  }

  datatype PortList = PortList(ports: seq<uint16>, ranges: seq<(uint16, uint16)>)
  type Collected = Result<PortList, ParseError>

  function Include(r: Collected, part: Part): Collected {
    match (r, part)
    case (Err(_), _) => r
    case (Ok(l), Blank) => r
    case (Ok(l), Port(p)) => Ok(l.(ports := l.ports + [p]))
    case (Ok(l), Range(a, b)) => Ok(l.(ranges := l.ranges + [(a, b)]))
    case (Ok(_), Bad(e)) => Err(e)
  }

  /** The ports and ranges of the parts in order, or the first error. */
  function Collect(parts: seq<Part>): Collected {
    if parts == [] then Ok(PortList([], []))
    else Include(Collect(parts[..|parts| - 1]), parts[|parts| - 1])
  }

  /** The items of a comma-separated text. */
  function ParseBody(body: string): Collected {
    Collect(ParseParts(Split(body, ',')))
  }

  function StripBrackets(raw: string): string {
    if "[" <= raw && raw[|raw| - 1] == ']' then raw[1..|raw| - 1] else raw
  }

  function Parse(s: string): Result<PortExpr, ParseError> {
    var raw := TrimSpace(s);
    if raw == "*" || raw == "" then Ok(ZERO.(wildcard := true))
    else
      var negate := raw[0] == '!';
      var body := StripBrackets(if negate then raw[1..] else raw);
      match ParseBody(body)
      case Ok(l) => Ok(PortExpr(l.ports, l.ranges, negate, false))
      case Err(e) => Err(e)
  }

  lemma {:induction false} CollectSticks(parts: seq<Part>, n: nat)
    requires n <= |parts| && Collect(parts[..n]).Err?
    ensures Collect(parts) == Collect(parts[..n])
  {
    if n == |parts| {
      assert parts[..n] == parts;
    } else {
      assert parts[..|parts| - 1][..n] == parts[..n];
      CollectSticks(parts[..|parts| - 1], n);
    }
  }

  method ParsePart(text: string) returns (r: Part)
    ensures r == Classify(TrimSpace(text))
  {
    var part := Trim(TrimSpace(text), IsQuote);
    if part == "" {
      return Blank;
    }
    if '-' in part {
      var rangeParts := Cut(part, '-');
      var rangeStart := ParseUint16(TrimSpace(rangeParts.0));
      if rangeStart == None {
        return Bad(BadRangeStart);
      }
      var rangeEnd := ParseUint16(TrimSpace(rangeParts.1));
      if rangeEnd == None {
        return Bad(BadRangeEnd);
      }
      return Range(rangeStart.value, rangeEnd.value);
    } else {
      var port := ParseUint16(part);
      if port == None {
        return Bad(BadPort);
      }
      return Port(port.value);
    }
  }

  method ParsePortList(raw: string) returns (r: Collected)
    ensures r == ParseBody(raw)
  {
    var list := PortList([], []);
    var parts := Split(raw, ',');
    ghost var all := ParseParts(parts);
    for i := 0 to |parts|
      invariant Collect(all[..i]) == Ok(list)
    {
      assert all[..i + 1][..i] == all[..i];
      if Collect(all[..i + 1]).Err? { CollectSticks(all, i + 1); }
      var part := ParsePart(parts[i]);
      match part {
        case Blank =>
        case Port(p) => list := list.(ports := list.ports + [p]);
        case Range(low, high) => list := list.(ranges := list.ranges + [(low, high)]);
        case Bad(e) => return Err(e);
      }
    }
    assert all[..|parts|] == all;
    return Ok(list);
  }

  method ParsePortExpr(s: string) returns (r: Result<PortExpr, ParseError>)
    ensures r == Parse(s)
  {
    hide ParseBody, Trim;
    var raw := TrimSpace(s);
    if raw == "*" || raw == "" {
      return Ok(PortExpr([], [], false, true));
    }
    var negate := false;
    if "!" <= raw {
      negate := true;
      raw := raw[1..];
    }
    if "[" <= raw && raw[|raw| - 1] == ']' {
      raw := raw[1..|raw| - 1];
    }
    var list := ParsePortList(raw);
    match list {
      case Err(e) => return Err(e);
      case Ok(l) => return Ok(PortExpr(l.ports, l.ranges, negate, false));
    }
  }

  // Matching

  predicate Listed(e: PortExpr, port: uint16) {
    port in e.ports || exists r <- e.ranges :: r.0 <= port <= r.1
  }

  /** Ranges include both ends. */
  lemma ListedByIndex(e: PortExpr, port: uint16)
    ensures Listed(e, port) <==>
            || (exists i | 0 <= i < |e.ports| :: e.ports[i] == port)
            || (exists i | 0 <= i < |e.ranges| :: e.ranges[i].0 <= port <= e.ranges[i].1)
  {}

  method Match(e: PortExpr, port: uint16) returns (matched: bool)
    ensures matched <==> Listed(e, port) != e.negate
  {
    matched := false;
    for i := 0 to |e.ports|
      invariant !matched && port !in e.ports[..i]
    {
      if e.ports[i] == port {
        matched := true;
        break;
      }
    }
    if !matched {
      for i := 0 to |e.ranges|
        invariant !matched && forall r <- e.ranges[..i] :: !(r.0 <= port <= r.1)
      {
        if port >= e.ranges[i].0 && port <= e.ranges[i].1 {
          matched := true;
          break;
        }
      }
    }
    if e.negate {
      matched := !matched;
    }
  }

  predicate IsZero(e: PortExpr) {
    !e.wildcard && !e.negate && |e.ports| == 0 && |e.ranges| == 0
  }

  /** What the field comments promise: a wildcard matches all ports. */
  predicate Documented(e: PortExpr, port: uint16) {
    e.wildcard || Listed(e, port) != e.negate
  }

  /** For every text that parses, matching does what the comments promise unless the
      text is a wildcard, which matches no port at all. */
  lemma MatchIsDocumentedIff(s: string, port: uint16)
    requires Parse(s).Ok?
    ensures var e := Parse(s).value;
      ((Listed(e, port) != e.negate) == Documented(e, port)) <==> !(TrimSpace(s) == "*" || TrimSpace(s) == "")
  {}

  // Round trip

  function PrintRange(r: (uint16, uint16)): string {
    Decimal(r.0) + "-" + Decimal(r.1)
  }

  function Printed(ports: seq<uint16>, ranges: seq<(uint16, uint16)>): seq<string> {
    seq(|ports|, i requires 0 <= i < |ports| => Decimal(ports[i]))
    + seq(|ranges|, i requires 0 <= i < |ranges| => PrintRange(ranges[i]))
  }

  function Print(e: PortExpr, brackets: bool): string {
    var body := Join(Printed(e.ports, e.ranges), ',');
    (if e.negate then "!" else "") + if brackets then "[" + body + "]" else body
  }

  predicate DigitEnds(s: string) {
    s != "" && IsDigit(s[0]) && IsDigit(s[|s| - 1])
  }

  lemma TrimDigitEnds(s: string)
    requires DigitEnds(s)
    ensures TrimSpace(s) == s && Trim(s, IsQuote) == s
  {
    TrimNothing(s, IsSpace);
    TrimNothing(s, IsQuote);
  }

  lemma {:induction false} CutAt(a: string, c: char, b: string)
    requires c !in a
    ensures c in a + [c] + b && Cut(a + [c] + b, c) == (a, b)
  {
    var s := a + [c] + b;
    assert s[|a|] == c;
    if a == "" {
      assert s[1..] == b;
    } else {
      assert s[1..] == a[1..] + [c] + b;
      CutAt(a[1..], c, b);
      assert a == [a[0]] + a[1..];
    }
  }

  lemma PortPart(p: uint16)
    ensures Classify(TrimSpace(Decimal(p))) == Port(p)
  {
    TrimDigitEnds(Decimal(p));
    ParseDecimal(p);
  }

  lemma RangePart(r: (uint16, uint16))
    ensures Classify(TrimSpace(PrintRange(r))) == Range(r.0, r.1)
  {
    var a, b := Decimal(r.0), Decimal(r.1);
    assert DigitEnds(PrintRange(r));
    TrimDigitEnds(PrintRange(r));
    CutAt(a, '-', b);
    TrimDigitEnds(a);
    TrimDigitEnds(b);
    ParseDecimal(r.0);
    ParseDecimal(r.1);
  }

  function AsParts(ports: seq<uint16>, ranges: seq<(uint16, uint16)>): seq<Part> {
    seq(|ports|, i requires 0 <= i < |ports| => Port(ports[i]))
    + seq(|ranges|, i requires 0 <= i < |ranges| => Range(ranges[i].0, ranges[i].1))
  }

  lemma PrintedParts(ports: seq<uint16>, ranges: seq<(uint16, uint16)>)
    ensures ParseParts(Printed(ports, ranges)) == AsParts(ports, ranges)
  {
    hide Classify, Trim, Decimal, PrintRange;
    var texts := Printed(ports, ranges);
    forall i | 0 <= i < |texts| ensures Classify(TrimSpace(texts[i])) == AsParts(ports, ranges)[i] {
      if i < |ports| { PortPart(ports[i]); } else { RangePart(ranges[i - |ports|]); }
    }
  }

  lemma {:induction false} CollectPorts(ports: seq<uint16>)
    ensures Collect(AsParts(ports, [])) == Ok(PortList(ports, []))
  {
    if ports != [] {
      var n := |ports| - 1;
      CollectPorts(ports[..n]);
      assert AsParts(ports, [])[..n] == AsParts(ports[..n], []);
      assert ports == ports[..n] + [ports[n]];
    }
  }

  lemma {:induction false} CollectParts(ports: seq<uint16>, ranges: seq<(uint16, uint16)>)
    ensures Collect(AsParts(ports, ranges)) == Ok(PortList(ports, ranges))
    decreases |ranges|
  {
    if ranges == [] {
      CollectPorts(ports);
    } else {
      var n, all := |ranges| - 1, AsParts(ports, ranges);
      CollectParts(ports, ranges[..n]);
      assert all[..|all| - 1] == AsParts(ports, ranges[..n]);
      assert ranges == ranges[..n] + [ranges[n]];
    }
  }

  lemma {:induction false} JoinEnds(parts: seq<string>, c: char)
    requires parts != [] && forall i | 0 <= i < |parts| :: DigitEnds(parts[i])
    ensures DigitEnds(Join(parts, c))
  {
    if |parts| > 1 { JoinEnds(parts[1..], c); }
  }

  lemma EmptyBody()
    ensures ParseBody("") == Ok(PortList([], []))
  {
    var parts := ParseParts([""]);
    assert parts[0] == Blank && parts[..0] == [];
  }

  lemma BodyPrinted(e: PortExpr)
    ensures ParseBody(Join(Printed(e.ports, e.ranges), ',')) == Ok(PortList(e.ports, e.ranges))
  {
    var texts := Printed(e.ports, e.ranges);
    if texts == [] {
      EmptyBody();
    } else {
      SplitOfJoin(texts, ',');
      PiecesFree(texts, ',');
      PrintedParts(e.ports, e.ranges);
      CollectParts(e.ports, e.ranges);
    }
  }

  lemma BodyEnds(e: PortExpr)
    ensures var body := Join(Printed(e.ports, e.ranges), ',');
      if |e.ports| + |e.ranges| == 0 then body == "" else DigitEnds(body)
  {
    var texts := Printed(e.ports, e.ranges);
    if texts != [] {
      forall i | 0 <= i < |texts| ensures DigitEnds(texts[i]) {}
      JoinEnds(texts, ',');
    }
  }

  lemma PrintedTrimmed(e: PortExpr, brackets: bool)
    ensures var s := Print(e, brackets);
      && TrimSpace(s) == s && s != "*"
      && (s == "" <==> !brackets && IsZero(e.(wildcard := false)))
  {
    hide Printed, Join, Trim;
    var s, body := Print(e, brackets), Join(Printed(e.ports, e.ranges), ',');
    BodyEnds(e);
    if s != "" {
      assert s[0] == if e.negate then '!' else if brackets then '[' else body[0];
      assert s[|s| - 1] == if brackets then ']' else if body == "" then '!' else body[|body| - 1];
    }
    TrimNothing(s, IsSpace);
  }

  lemma PrintedBody(e: PortExpr, brackets: bool)
    ensures var s, body := Print(e, brackets), Join(Printed(e.ports, e.ranges), ',');
      s != "" ==> (s[0] == '!' <==> e.negate) && StripBrackets(if e.negate then s[1..] else s) == body
  {
    var s, body := Print(e, brackets), Join(Printed(e.ports, e.ranges), ',');
    BodyEnds(e);
    var inner := if brackets then "[" + body + "]" else body;
    assert StripBrackets(inner) == body;
    if e.negate { assert s[1..] == inner; } else { assert s == inner; }
  }

  /** Printing and parsing give back every expression but the wildcard, in either
      notation, save the empty one, whose bare text would be the empty string. */
  lemma PrintParse(e: PortExpr, brackets: bool)
    requires !e.wildcard
    ensures Parse(Print(e, brackets)) == Ok(e) <==> brackets || !IsZero(e)
  {
    PrintedTrimmed(e, brackets);
    PrintedBody(e, brackets);
    BodyPrinted(e);
  }

  // Decoding from YAML

  datatype YamlNode = Scalar(value: string) | Sequence(content: seq<string>) | Other(kind: int)
  datatype DecodeError = Invalid(error: ParseError) | UnexpectedKind(kind: int)

  /** Items are appended one after the other; an error keeps what came before it. */
  function DecodeItems(p: PortExpr, items: seq<string>): (PortExpr, Option<DecodeError>) {
    if items == [] then (p, None)
    else
      var before := DecodeItems(p, items[..|items| - 1]);
      if before.1.Some? then before
      else
        match Parse(items[|items| - 1])
        case Err(e) => (before.0, Some(Invalid(e)))
        case Ok(x) =>
          (before.0.(ports := before.0.ports + x.ports, ranges := before.0.ranges + x.ranges), None)
  }

  function Decode(p: PortExpr, node: YamlNode): (PortExpr, Option<DecodeError>) {
    match node
    case Scalar(value) =>
      (match Parse(value)
       case Ok(x) => (x, None)
       case Err(e) => (p, Some(Invalid(e))))
    case Sequence(content) => DecodeItems(p, content)
    case Other(kind) => (p, Some(UnexpectedKind(kind)))
  }

  lemma {:induction false} DecodeSticks(p: PortExpr, items: seq<string>, n: nat)
    requires n <= |items| && DecodeItems(p, items[..n]).1.Some?
    ensures DecodeItems(p, items) == DecodeItems(p, items[..n])
  {
    if n == |items| {
      assert items[..n] == items;
    } else {
      assert items[..|items| - 1][..n] == items[..n];
      DecodeSticks(p, items[..|items| - 1], n);
    }
  }

  /** A port expression inside a rule, as the YAML decoder fills it in. */
  class PortField {
    var expr: PortExpr

    constructor ()
      ensures expr == ZERO
    {
      expr := ZERO;
    }

    method UnmarshalYAML(node: YamlNode) returns (err: Option<DecodeError>)
      modifies this
      ensures (expr, err) == Decode(old(expr), node)
    {
      hide Parse;
      match node {
        case Scalar(value) =>
          var parsed := ParsePortExpr(value);
          if parsed.Err? {
            return Some(Invalid(parsed.error));
          }
          expr := parsed.value;
          return None;
        case Sequence(content) =>
          for i := 0 to |content|
            invariant DecodeItems(old(expr), content[..i]) == (expr, None)
          {
            assert content[..i + 1][..i] == content[..i];
            var parsed := ParsePortExpr(content[i]);
            if parsed.Err? {
              DecodeSticks(old(expr), content, i + 1);
              return Some(Invalid(parsed.error));
            }
            expr := expr.(ports := expr.ports + parsed.value.ports);
            expr := expr.(ranges := expr.ranges + parsed.value.ranges);
          }
          assert content[..|content|] == content;
          return None;
        case Other(kind) =>
          return Some(UnexpectedKind(kind));
      }
    }
  }

  /** A list keeps no negation and no wildcard: both flags of its items are lost. */
  lemma {:induction false} ListsNeverNegate(p: PortExpr, items: seq<string>)
    ensures var r := DecodeItems(p, items).0; r.negate == p.negate && r.wildcard == p.wildcard
  {
    if items != [] { ListsNeverNegate(p, items[..|items| - 1]); }
  }

  // A list is its items joined by commas

  predicate PlainItem(s: string) {
    '!' !in s && '*' !in s && '[' !in s && ']' !in s
  }

  function Merge(a: Collected, b: Collected): Collected {
    if a.Err? then a
    else if b.Err? then b
    else Ok(PortList(a.value.ports + b.value.ports, a.value.ranges + b.value.ranges))
  }

  lemma IncludeMerge(a: Collected, b: Collected, part: Part)
    ensures Include(Merge(a, b), part) == Merge(a, Include(b, part))
  {
    if a.Ok? && b.Ok? {
      var x, y := a.value, b.value;
      match part
      case Port(p) => assert x.ports + y.ports + [p] == x.ports + (y.ports + [p]);
      case Range(l, h) => assert x.ranges + y.ranges + [(l, h)] == x.ranges + (y.ranges + [(l, h)]);
      case _ =>
    }
  }

  lemma {:induction false} CollectConcat(a: seq<Part>, b: seq<Part>)
    ensures Collect(a + b) == Merge(Collect(a), Collect(b))
  {
    if b == [] {
      assert a + b == a;
      assert Collect(a).Ok? ==> Collect(a).value == PortList(Collect(a).value.ports + [], Collect(a).value.ranges + []);
    } else {
      var n := |b| - 1;
      CollectConcat(a, b[..n]);
      assert (a + b)[..|a + b| - 1] == a + b[..n];
      IncludeMerge(Collect(a), Collect(b[..n]), b[n]);
    }
  }

  /** Equal once each part is trimmed, as parsing does first. */
  predicate TrimEqual(a: seq<string>, b: seq<string>) {
    |a| == |b| && forall i | 0 <= i < |a| :: TrimSpace(a[i]) == TrimSpace(b[i])
  }

  lemma {:induction false} SplitTrimLeft(s: string)
    ensures TrimEqual(Split(TrimLeft(s, IsSpace), ','), Split(s, ','))
  {
    assert !IsSpace(',');
    hide TrimRight, IsSpace;
    if s != "" && IsSpace(s[0]) {
      SplitTrimLeft(s[1..]);
      var r := Split(s[1..], ',');
      var first := [s[0]] + r[0];
      assert first[1..] == r[0];
      assert TrimSpace(first) == TrimSpace(r[0]);
      assert Split(s, ',') == [first] + r[1..];
    }
  }

  lemma {:induction false} SplitExtended(s: string, x: char)
    requires x != ','
    ensures var r := Split(s, ','); var n := |r| - 1;
      Split(s + [x], ',') == r[..n] + [r[n] + [x]]
  {
    if s == "" {
      assert s + [x] == [x] && [x][1..] == "" && [x] + "" == [x];
      assert Split([x], ',') == [[x]];
      assert Split("", ',') == [""] && "" + [x] == [x];
    } else {
      assert (s + [x])[1..] == s[1..] + [x];
      SplitExtended(s[1..], x);
      var q := Split(s[1..], ',');
      var r, n := Split(s, ','), |Split(s, ',')| - 1;
      hide Split;
      if s[0] == ',' {
        assert r[..n] == [""] + q[..n - 1] && r[n] == q[n - 1];
      } else if n == 0 {
        assert [s[0]] + (q[0] + [x]) == r[0] + [x];
      } else {
        assert r[..n] == [[s[0]] + q[0]] + q[1..n] && r[n] == q[n];
      }
    }
  }

  lemma ExtendedTrimEqual(r: seq<string>, x: char)
    requires r != [] && IsSpace(x)
    ensures TrimEqual(r[..|r| - 1] + [r[|r| - 1] + [x]], r)
  {
    TrimExtended(r[|r| - 1], x, IsSpace);
  }

  lemma {:induction false} SplitTrimRight(s: string)
    ensures TrimEqual(Split(TrimRight(s, IsSpace), ','), Split(s, ','))
  {
    if s != "" && IsSpace(s[|s| - 1]) {
      var init, x := s[..|s| - 1], s[|s| - 1];
      SplitTrimRight(init);
      assert s == init + [x];
      SplitExtended(init, x);
      ExtendedTrimEqual(Split(init, ','), x);
    }
  }

  lemma BodyTrimmed(s: string)
    ensures ParseBody(TrimSpace(s)) == ParseBody(s)
  {
    var t := TrimLeft(s, IsSpace);
    SplitTrimLeft(s);
    assert ParseParts(Split(t, ',')) == ParseParts(Split(s, ','));
    SplitTrimRight(t);
    assert ParseParts(Split(TrimSpace(s), ',')) == ParseParts(Split(t, ','));
  }

  lemma {:induction false} TrimLeftKeeps(s: string, c: char)
    requires c in TrimLeft(s, IsSpace)
    ensures c in s
  {
    if s != "" && IsSpace(s[0]) { TrimLeftKeeps(s[1..], c); }
  }

  lemma {:induction false} TrimRightKeeps(s: string, c: char)
    requires c in TrimRight(s, IsSpace)
    ensures c in s
  {
    if s != "" && IsSpace(s[|s| - 1]) { TrimRightKeeps(s[..|s| - 1], c); }
  }

  lemma TrimSpaceKeeps(s: string, c: char)
    ensures c in TrimSpace(s) ==> c in s
  {
    if c in TrimSpace(s) {
      TrimRightKeeps(TrimLeft(s, IsSpace), c);
      TrimLeftKeeps(s, c);
    }
  }

  /** The item parses to this list, or fails with this error. */
  predicate ParsesTo(item: string, c: Collected) {
    match c
    case Ok(l) => Parse(item).Ok? && Parse(item).value.ports == l.ports && Parse(item).value.ranges == l.ranges
    case Err(e) => Parse(item) == Err(e)
  }

  /** The items decode to this list, or fail with this error. */
  predicate DecodesTo(items: seq<string>, c: Collected) {
    match c
    case Ok(l) => DecodeItems(ZERO, items) == (PortExpr(l.ports, l.ranges, false, false), None)
    case Err(e) => DecodeItems(ZERO, items).1 == Some(Invalid(e))
  }

  /** On its own, a plain item parses to exactly its comma-separated parts. */
  lemma PlainItemParse(s: string)
    requires PlainItem(s)
    ensures ParsesTo(s, ParseBody(s))
  {
    BodyTrimmed(s);
    TrimSpaceKeeps(s, '!');
    TrimSpaceKeeps(s, '*');
    TrimSpaceKeeps(s, '[');
    var raw := TrimSpace(s);
    if raw == "" {
      EmptyBody();
    } else {
      assert raw[0] in raw;
      assert raw != "*" && raw[0] != '!' && raw[0] != '[';
    }
  }

  lemma DecodeAppend(init: seq<string>, last: string, before: Collected, c: Collected)
    requires DecodesTo(init, before) && ParsesTo(last, c)
    ensures DecodesTo(init + [last], Merge(before, c))
  {
    assert (init + [last])[..|init|] == init;
  }

  lemma ParsePartsConcat(a: seq<string>, b: seq<string>)
    ensures ParseParts(a + b) == ParseParts(a) + ParseParts(b)
  {}

  /** The lists of all items, one after the other, or the first error. */
  function Combined(items: seq<string>): Collected {
    if items == [] then Ok(PortList([], []))
    else Merge(Combined(items[..|items| - 1]), ParseBody(items[|items| - 1]))
  }

  lemma {:induction false} PiecesAppend(items: seq<string>, last: string)
    ensures Pieces(items + [last], ',') == Pieces(items, ',') + Split(last, ',')
  {
    if items == [] {
      assert [last][1..] == [];
    } else {
      assert (items + [last])[1..] == items[1..] + [last];
      PiecesAppend(items[1..], last);
    }
  }

  lemma {:induction false} CollectPieces(items: seq<string>)
    ensures Collect(ParseParts(Pieces(items, ','))) == Combined(items)
  {
    hide Split, Classify;
    if items != [] {
      var init, last := items[..|items| - 1], items[|items| - 1];
      CollectPieces(init);
      assert items == init + [last];
      PiecesAppend(init, last);
      ParsePartsConcat(Pieces(init, ','), Split(last, ','));
      CollectConcat(ParseParts(Pieces(init, ',')), ParseParts(Split(last, ',')));
    }
  }

  lemma {:induction false} DecodeCombined(items: seq<string>)
    requires forall i | 0 <= i < |items| :: PlainItem(items[i])
    ensures DecodesTo(items, Combined(items))
  {
    if items != [] {
      var init, last := items[..|items| - 1], items[|items| - 1];
      DecodeCombined(init);
      PlainItemParse(last);
      assert items == init + [last];
      DecodeAppend(init, last, Combined(init), ParseBody(last));
    }
  }

  lemma BracketedParse(body: string)
    ensures Parse("[" + body + "]") == match ParseBody(body)
                                       case Ok(l) => Ok(PortExpr(l.ports, l.ranges, false, false))
                                       case Err(e) => Err(e)
  {
    var text := "[" + body + "]";
    TrimNothing(text, IsSpace);
    assert StripBrackets(text) == body;
  }

  /** Decoding a list item by item is the same as parsing its items joined by commas
      inside brackets: both fail with the same error, or give the same expression. */
  lemma ListHomomorphism(items: seq<string>)
    requires forall i | 0 <= i < |items| :: PlainItem(items[i])
    ensures match Parse("[" + Join(items, ',') + "]")
            case Ok(e) => DecodeItems(ZERO, items) == (e, None)
            case Err(e) => DecodeItems(ZERO, items).1 == Some(Invalid(e))
  {
    BracketedParse(Join(items, ','));
    DecodeCombined(items);
    CollectPieces(items);
    if items == [] {
      EmptyBody();
    } else {
      SplitOfJoin(items, ',');
    }
  }

  lemma ListedConcat(p: PortExpr, x: PortExpr, port: uint16)
    ensures Listed(p.(ports := p.ports + x.ports, ranges := p.ranges + x.ranges), port)
            <==> Listed(p, port) || Listed(x, port)
  {
    var q := p.(ports := p.ports + x.ports, ranges := p.ranges + x.ranges);
    if r :| r in p.ranges && r.0 <= port <= r.1 { assert r in q.ranges; }
    if r :| r in x.ranges && r.0 <= port <= r.1 { assert r in q.ranges; }
  }

  /** What a text lists; nothing if it does not parse. */
  predicate ItemLists(item: string, port: uint16) {
    var r := Parse(item);
    r.Ok? && Listed(r.value, port)
  }

  predicate SomeLists(items: seq<string>, port: uint16) { exists item <- items :: ItemLists(item, port) }

  lemma SomeListsAppend(items: seq<string>, last: string, port: uint16)
    ensures SomeLists(items + [last], port) <==> SomeLists(items, port) || ItemLists(last, port)
  {
    hide ItemLists;
    if item :| item in items && ItemLists(item, port) { assert item in items + [last]; }
    assert last in items + [last];
  }

  /** A decoded list accepts exactly the union of what its items list. */
  lemma {:induction false} ListAcceptsUnion(items: seq<string>, port: uint16)
    requires forall i | 0 <= i < |items| :: Parse(items[i]).Ok?
    ensures DecodeItems(ZERO, items).1 == None
    ensures Listed(DecodeItems(ZERO, items).0, port) <==> SomeLists(items, port)
  {
    assert !Listed(ZERO, port) && !SomeLists([], port);
    hide Parse, Listed, SomeLists;
    if items != [] {
      var init, last := items[..|items| - 1], items[|items| - 1];
      ListAcceptsUnion(init, port);
      ListedConcat(DecodeItems(ZERO, init).0, Parse(last).value, port);
      assert items == init + [last];
      SomeListsAppend(init, last, port);
    }
  }

  /** What a text accepts on its own; nothing if it does not parse. */
  predicate ItemAccepts(item: string, port: uint16) {
    var r := Parse(item);
    r.Ok? && Listed(r.value, port) != r.value.negate
  }

  predicate ItemNegates(item: string) {
    var r := Parse(item);
    r.Ok? && r.value.negate
  }

  predicate SomeAccepts(items: seq<string>, port: uint16) { exists item <- items :: ItemAccepts(item, port) }

  /** The decoded list accepts exactly the ports that some item accepts on its own. */
  ghost predicate AcceptsAsItems(items: seq<string>) {
    var e := DecodeItems(ZERO, items).0;
    forall port: uint16 :: (Listed(e, port) != e.negate) <==> SomeAccepts(items, port)
  }

  /** The exact limit of lists: a list of items that all parse accepts what its items
      accept if and only if no item is negated, or every port is listed by some item
      and accepted by some item, so that the list and its items both accept all. */
  lemma ListFaithfulIff(items: seq<string>)
    requires forall i | 0 <= i < |items| :: Parse(items[i]).Ok?
    ensures AcceptsAsItems(items) <==>
            || (forall item <- items :: !ItemNegates(item))
            || (forall port: uint16 :: SomeLists(items, port) && SomeAccepts(items, port))
  {
    hide Parse, DecodeItems, Listed;
    ListsNeverNegate(ZERO, items);
    forall port: uint16
      ensures Listed(DecodeItems(ZERO, items).0, port) <==> SomeLists(items, port)
    {
      ListAcceptsUnion(items, port);
    }
    if item :| item in items && ItemNegates(item) {
      NegatedCovers(items, item);
    } else {
      forall item, port: uint16 | item in items ensures ItemAccepts(item, port) <==> ItemLists(item, port) {
        assert !ItemNegates(item);
      }
    }
  }

  /** A negated item lists or accepts every port. */
  lemma NegatedCovers(items: seq<string>, item: string)
    requires item in items && ItemNegates(item)
    ensures forall port: uint16 :: SomeLists(items, port) || SomeAccepts(items, port)
  {
    forall port: uint16 ensures SomeLists(items, port) || SomeAccepts(items, port) {
      assert ItemLists(item, port) || ItemAccepts(item, port);
    }
  }

  /** The list ["!5432"] accepts the one port its item excludes. */
  lemma NegatedItemInList()
    ensures var items, e := ["!5432"], DecodeItems(ZERO, ["!5432"]).0;
      && Listed(e, 5432) != e.negate
      && !ItemAccepts("!5432", 5432)
      && !AcceptsAsItems(items)
  {
    hide Parse, DecodeItems;
    var e := PortExpr([5432], [], true, false);
    assert Decimal(5432) == "5432" by {
      assert Decimal(5) == "5" && Decimal(54) == "54" && Decimal(543) == "543";
    }
    assert Printed([5432], []) == ["5432"];
    assert Print(e, false) == "!5432";
    PrintParse(e, false);
    ListAcceptsUnion(["!5432"], 5432);
    ListsNeverNegate(ZERO, ["!5432"]);
    assert ItemLists("!5432", 5432) && "!5432" in ["!5432"];
  }
}
