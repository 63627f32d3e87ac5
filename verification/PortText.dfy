/** What the text of a port expression accepts, with blanks and quotes where people put
    them: `"22, 80"`, `! 5432`, `[ '22', "80 - 90" ]`. */
module PortText {
  import opened Core
  import opened Text
  import opened Ports

  predicate Blanks(s: string) {
    forall c <- s :: c in {' ', '\t', '\n', '\r'}
  }

  predicate Quotes(s: string) {
    forall c <- s :: c in {'"', '\''}
  }

  /** One item: a port, or a range with blanks around its dash; quotes around it, and
      blanks around these. */
  datatype Item = Item(low: uint16, high: Option<uint16>, dash: (string, string),
                       quotes: (string, string), blanks: (string, string))

  predicate WellPadded(x: Item) {
    && Blanks(x.dash.0) && Blanks(x.dash.1) && Quotes(x.quotes.0) && Quotes(x.quotes.1)
    && Blanks(x.blanks.0) && Blanks(x.blanks.1)
  }

  function ItemCore(x: Item): string {
    match x.high
    case None => Decimal(x.low)
    case Some(high) => Decimal(x.low) + x.dash.0 + "-" + x.dash.1 + Decimal(high)
  }

  function ItemText(x: Item): string {
    x.blanks.0 + (x.quotes.0 + ItemCore(x) + x.quotes.1) + x.blanks.1
  }

  /** The ports an item stands for, both ends of a range included. */
  predicate Covers(x: Item, port: uint16) {
    match x.high
    case None => port == x.low
    case Some(high) => x.low <= port <= high
  }

  function ItemTexts(items: seq<Item>): seq<string> {
    seq(|items|, i requires 0 <= i < |items| => ItemText(items[i]))
  }

  /** The items joined by commas, in brackets or not. */
  function ListText(items: seq<Item>, brackets: bool): string {
    var body := Join(ItemTexts(items), ',');
    if brackets then "[" + body + "]" else body
  }

  // Trimming

  lemma {:induction false} TrimLeftPadding(l: string, s: string, p: char -> bool)
    requires (forall c <- l :: p(c)) && (s != "" ==> !p(s[0]))
    ensures TrimLeft(l + s, p) == s
  {
    if l == "" {
      assert l + s == s;
    } else {
      assert (l + s)[1..] == l[1..] + s;
      TrimLeftPadding(l[1..], s, p);
    }
  }

  lemma {:induction false} TrimRightPadding(s: string, r: string, p: char -> bool)
    requires (forall c <- r :: p(c)) && (s != "" ==> !p(s[|s| - 1]))
    ensures TrimRight(s + r, p) == s
  {
    if r == "" {
      assert s + r == s;
    } else {
      assert (s + r)[..|s + r| - 1] == s + r[..|r| - 1];
      TrimRightPadding(s, r[..|r| - 1], p);
    }
  }

  lemma TrimPadding(l: string, s: string, r: string, p: char -> bool)
    requires (forall c <- l :: p(c)) && (forall c <- r :: p(c))
    requires s != "" && !p(s[0]) && !p(s[|s| - 1])
    ensures Trim(l + s + r, p) == s
  {
    assert l + s + r == l + (s + r);
    TrimLeftPadding(l, s + r, p);
    TrimRightPadding(s, r, p);
  }

  // Single items

  function ItemPart(x: Item): Part {
    match x.high
    case None => Port(x.low)
    case Some(high) => Range(x.low, high)
  }

  lemma CoreEnds(x: Item)
    ensures DigitEnds(ItemCore(x))
  {}

  lemma CoreClassified(x: Item, text: string)
    requires WellPadded(x) && Trim(text, IsQuote) == ItemCore(x)
    ensures Classify(text) == ItemPart(x)
  {
    hide Trim, Decimal, ParseUint16, Cut;
    ParseDecimal(x.low);
    if x.high.Some? {
      var a, b := Decimal(x.low) + x.dash.0, x.dash.1 + Decimal(x.high.value);
      ParseDecimal(x.high.value);
      DashSplits(x);
      assert ItemCore(x) == a + ['-'] + b;
      CutAt(a, '-', b);
    }
  }

  lemma DashSplits(x: Item)
    requires WellPadded(x) && x.high.Some?
    ensures '-' !in Decimal(x.low) + x.dash.0
    ensures TrimSpace(Decimal(x.low) + x.dash.0) == Decimal(x.low)
    ensures TrimSpace(x.dash.1 + Decimal(x.high.value)) == Decimal(x.high.value)
  {
    var low, high := Decimal(x.low), Decimal(x.high.value);
    assert DigitEnds(low) && DigitEnds(high);
    TrimPadding("", low, x.dash.0, IsSpace);
    TrimPadding(x.dash.1, high, "", IsSpace);
    assert "" + low + x.dash.0 == low + x.dash.0 && x.dash.1 + high + "" == x.dash.1 + high;
  }

  lemma ItemClassified(x: Item)
    requires WellPadded(x)
    ensures Classify(TrimSpace(ItemText(x))) == ItemPart(x)
  {
    hide Classify, Trim, ItemCore;
    var quoted := x.quotes.0 + ItemCore(x) + x.quotes.1;
    CoreEnds(x);
    QuotedEnds(x.quotes.0, ItemCore(x), x.quotes.1);
    TrimPadding(x.blanks.0, quoted, x.blanks.1, IsSpace);
    TrimPadding(x.quotes.0, ItemCore(x), x.quotes.1, IsQuote);
    CoreClassified(x, quoted);
  }

  lemma QuotedEnds(l: string, core: string, r: string)
    requires Quotes(l) && Quotes(r) && DigitEnds(core)
    ensures var s := l + core + r; s != "" && !IsSpace(s[0]) && !IsSpace(s[|s| - 1])
  {
    var s := l + core + r;
    if l != "" { assert s[0] == l[0] && l[0] in l; } else { assert s[0] == core[0]; }
    if r != "" { assert s[|s| - 1] == r[|r| - 1] && r[|r| - 1] in r; } else { assert s[|s| - 1] == core[|core| - 1]; }
  }

  /** Which error a part is: a bad start of a range decides before a bad end. */
  lemma PartErrors(text: string, a: string, b: string)
    requires '-' !in a
    ensures Trim(text, IsQuote) == a + "-" + b ==>
      && (Classify(text) == Bad(BadRangeStart) <==> ParseUint16(TrimSpace(a)).None?)
      && (Classify(text) == Bad(BadRangeEnd) <==> ParseUint16(TrimSpace(a)).Some? && ParseUint16(TrimSpace(b)).None?)
      && Classify(text) != Bad(BadPort)
    ensures Trim(text, IsQuote) == a ==>
      && (Classify(text) == Bad(BadPort) <==> a != "" && ParseUint16(a).None?)
      && (Classify(text) == Blank <==> a == "")
  {
    hide Trim, ParseUint16, Cut;
    CutAt(a, '-', b);
    assert a + "-" + b == a + ['-'] + b;
  }

  // What a list of parts collects

  predicate PartCovers(part: Part, port: uint16) {
    match part
    case Port(p) => port == p
    case Range(low, high) => low <= port <= high
    case _ => false
  }

  /** The first bad part decides, and it alone; without one, the list lists exactly
      what its parts cover. */
  lemma {:induction false} CollectSays(parts: seq<Part>, port: uint16)
    ensures match Collect(parts)
            case Err(e) => exists i | 0 <= i < |parts| :: parts[i] == Bad(e) && forall j | 0 <= j < i :: !parts[j].Bad?
            case Ok(l) =>
              && (forall i | 0 <= i < |parts| :: !parts[i].Bad?)
              && (Listed(PortExpr(l.ports, l.ranges, false, false), port)
                  <==> exists i | 0 <= i < |parts| :: PartCovers(parts[i], port))
  {
    if parts != [] {
      var init, last := parts[..|parts| - 1], parts[|parts| - 1];
      CollectSays(init, port);
      assert forall i | 0 <= i < |init| :: init[i] == parts[i];
      if Collect(init).Ok? && !last.Bad? {
        var l := Collect(init).value;
        var one := match last
                   case Port(p) => PortExpr([p], [], false, false)
                   case Range(a, b) => PortExpr([], [(a, b)], false, false)
                   case _ => ZERO;
        ListedConcat(PortExpr(l.ports, l.ranges, false, false), one, port);
        OnePart(last, one, port);
      }
    }
  }

  lemma OnePart(part: Part, e: PortExpr, port: uint16)
    requires match part
             case Port(p) => e == PortExpr([p], [], false, false)
             case Range(a, b) => e == PortExpr([], [(a, b)], false, false)
             case _ => e == ZERO
    ensures Listed(e, port) <==> PartCovers(part, port)
  {}

  // Whole texts

  function ItemParts(items: seq<Item>): seq<Part> {
    seq(|items|, i requires 0 <= i < |items| => ItemPart(items[i]))
  }

  predicate PlainChar(c: char) {
    IsDigit(c) || c in {' ', '\t', '\n', '\r', '"', '\'', '-'}
  }

  lemma ItemChars(x: Item)
    requires WellPadded(x)
    ensures forall c <- ItemText(x) :: PlainChar(c)
  {
    forall c | c in ItemText(x) ensures PlainChar(c) {
      assert c in x.blanks.0 || c in x.quotes.0 || c in ItemCore(x) || c in x.quotes.1 || c in x.blanks.1;
    }
  }

  lemma {:induction false} JoinChars(parts: seq<string>)
    requires forall i | 0 <= i < |parts| :: forall c <- parts[i] :: PlainChar(c)
    ensures forall c <- Join(parts, ',') :: PlainChar(c) || c == ','
  {
    if |parts| > 1 { JoinChars(parts[1..]); }
  }

  predicate AllPadded(items: seq<Item>) {
    forall i | 0 <= i < |items| :: WellPadded(items[i])
  }

  lemma BodyChars(items: seq<Item>)
    requires AllPadded(items)
    ensures forall c <- Join(ItemTexts(items), ',') :: PlainChar(c) || c == ','
    ensures forall i | 0 <= i < |items| :: ',' !in ItemTexts(items)[i]
  {
    hide Join, ItemText;
    forall i | 0 <= i < |items| ensures forall c <- ItemTexts(items)[i] :: PlainChar(c) { ItemChars(items[i]); }
    JoinChars(ItemTexts(items));
  }

  /** The body of a list collects its items, padded as they are. */
  lemma BodyCollects(items: seq<Item>)
    requires AllPadded(items)
    ensures ParseBody(Join(ItemTexts(items), ',')) == Collect(ItemParts(items))
  {
    hide Join, ItemText, Classify, ItemPart, Collect;
    var texts := ItemTexts(items);
    if items == [] {
      EmptyList();
    } else {
      BodyChars(items);
      SplitOfJoin(texts, ',');
      PiecesFree(texts, ',');
      forall i | 0 <= i < |items| ensures Classify(TrimSpace(texts[i])) == ItemPart(items[i]) {
        ItemClassified(items[i]);
      }
      assert ParseParts(texts) == ItemParts(items);
    }
  }

  lemma EmptyList()
    ensures ParseBody(Join(ItemTexts([]), ',')) == Collect(ItemParts([]))
  {
    EmptyBody();
  }

  /** Brackets, with blanks outside them. */
  lemma BracketText(l: string, negate: bool, body: string, r: string)
    requires Blanks(l) && Blanks(r)
    ensures Parse(l + ((if negate then "!" else "") + "[" + body + "]") + r) ==
            match ParseBody(body)
            case Ok(list) => Ok(PortExpr(list.ports, list.ranges, negate, false))
            case Err(e) => Err(e)
  {
    hide ParseBody, Trim;
    var list := "[" + body + "]";
    var core := (if negate then "!" else "") + "[" + body + "]";
    assert core == if negate then "!" + list else list;
    TrimPadding(l, core, r, IsSpace);
    assert StripBrackets(list) == body;
    if negate { assert core[1..] == list; }
  }

  lemma {:induction false} TrimRightBehind(c: char, s: string, p: char -> bool)
    requires !p(c)
    ensures TrimRight([c] + s, p) == [c] + TrimRight(s, p)
  {
    if s == "" {
      assert [c] + s == [c];
    } else {
      assert ([c] + s)[..|s|] == [c] + s[..|s| - 1];
      if p(s[|s| - 1]) { TrimRightBehind(c, s[..|s| - 1], p); }
    }
  }

  /** No brackets, negated, with blanks before the negation. */
  lemma NegatedText(l: string, body: string)
    requires Blanks(l) && '[' !in body
    ensures Parse(l + "!" + body) ==
            match ParseBody(body)
            case Ok(list) => Ok(PortExpr(list.ports, list.ranges, true, false))
            case Err(e) => Err(e)
  {
    hide ParseBody, TrimLeft, TrimRight;
    var raw := "!" + TrimRight(body, IsSpace);
    assert l + "!" + body == l + ("!" + body);
    TrimLeftPadding(l, "!" + body, IsSpace);
    TrimRightBehind('!', body, IsSpace);
    assert raw[1..] == TrimRight(body, IsSpace);
    NoBrackets(body);
    TrimmedBody(body);
  }

  lemma NoBrackets(body: string)
    requires '[' !in body
    ensures StripBrackets(TrimRight(body, IsSpace)) == TrimRight(body, IsSpace)
  {
    var t := TrimRight(body, IsSpace);
    if t != "" && t[0] == '[' {
      assert '[' in t;
      TrimRightKeeps(body, '[');
    }
  }

  lemma TrimmedBody(body: string)
    ensures ParseBody(TrimRight(body, IsSpace)) == ParseBody(body)
  {
    hide Classify, Collect;
    SplitTrimRight(body);
    assert ParseParts(Split(TrimRight(body, IsSpace), ',')) == ParseParts(Split(body, ','));
  }

  lemma {:induction false} TrimLeftSpares(s: string, c: char)
    requires c in s && !IsSpace(c)
    ensures c in TrimLeft(s, IsSpace)
  {
    if IsSpace(s[0]) {
      assert s == [s[0]] + s[1..];
      TrimLeftSpares(s[1..], c);
    }
  }

  lemma {:induction false} TrimRightSpares(s: string, c: char)
    requires c in s && !IsSpace(c)
    ensures c in TrimRight(s, IsSpace)
  {
    var n := |s| - 1;
    if IsSpace(s[n]) {
      assert s == s[..n] + [s[n]];
      TrimRightSpares(s[..n], c);
    }
  }

  /** No brackets and no negation. */
  lemma PlainText(body: string, d: char)
    requires PlainItem(body) && d in body && !IsSpace(d)
    ensures Parse(body) ==
            match ParseBody(body)
            case Ok(list) => Ok(PortExpr(list.ports, list.ranges, false, false))
            case Err(e) => Err(e)
  {
    hide ParseBody, TrimLeft, TrimRight;
    var raw := TrimSpace(body);
    TrimLeftSpares(body, d);
    TrimRightSpares(TrimLeft(body, IsSpace), d);
    PlainItemParse(body);
    TrimSpaceKeeps(body, '!');
    TrimSpaceKeeps(body, '*');
    assert d in raw && raw[0] in raw;
  }

  /** Brackets may stand among blanks; without them blanks belong to the items, but for
      those before a negation. The empty list needs brackets. */
  predicate WellFormed(l: string, negate: bool, items: seq<Item>, brackets: bool, r: string) {
    && AllPadded(items) && Blanks(l) && Blanks(r)
    && (!brackets ==> items != [] && r == "" && (!negate ==> l == ""))
  }

  function WholeText(l: string, negate: bool, items: seq<Item>, brackets: bool, r: string): string {
    l + ((if negate then "!" else "") + ListText(items, brackets)) + r
  }

  lemma WholeTextParses(l: string, negate: bool, items: seq<Item>, brackets: bool, r: string)
    requires WellFormed(l, negate, items, brackets, r)
    ensures Parse(WholeText(l, negate, items, brackets, r)) ==
            match Collect(ItemParts(items))
            case Ok(list) => Ok(PortExpr(list.ports, list.ranges, negate, false))
            case Err(e) => Err(e)
  {
    hide Parse, ParseBody, Join, Collect, ItemParts, ItemTexts;
    var body, text := Join(ItemTexts(items), ','), WholeText(l, negate, items, brackets, r);
    BodyCollects(items);
    BodyChars(items);
    if brackets {
      BracketText(l, negate, body, r);
      assert (if negate then "!" else "") + "[" + body + "]" == (if negate then "!" else "") + ("[" + body + "]");
    } else if negate {
      NegatedText(l, body);
      assert text == l + "!" + body;
    } else {
      var d := DigitInside(items);
      PlainText(body, d);
      assert text == body;
    }
  }

  lemma DigitInside(items: seq<Item>) returns (d: char)
    requires items != []
    ensures IsDigit(d) && d in Join(ItemTexts(items), ',')
  {
    var core := ItemCore(items[0]);
    CoreEnds(items[0]);
    d := core[0];
    assert d in core;
    assert d in ItemText(items[0]);
    assert ItemTexts(items)[0] == ItemText(items[0]);
  }

  /** What a scalar says: blanks and quotes aside, it decodes to an expression that
      accepts exactly the ports its items cover, the other way round if negated. */
  lemma ScalarSays(p: PortExpr, l: string, negate: bool, items: seq<Item>, brackets: bool, r: string, port: uint16)
    requires WellFormed(l, negate, items, brackets, r)
    ensures var (e, err) := Decode(p, Scalar(WholeText(l, negate, items, brackets, r)));
      && err == None && e.negate == negate && !e.wildcard
      && ((Listed(e, port) != e.negate) <==> (exists i | 0 <= i < |items| :: Covers(items[i], port)) != negate)
  {
    hide Parse, Collect, Listed, WholeText;
    WholeTextParses(l, negate, items, brackets, r);
    CollectSays(ItemParts(items), port);
    forall i | 0 <= i < |items| ensures PartCovers(ItemParts(items)[i], port) <==> Covers(items[i], port) {}
    var list := Collect(ItemParts(items)).value;
    SameListed(list, negate, port);
    if i :| 0 <= i < |items| && Covers(items[i], port) { assert PartCovers(ItemParts(items)[i], port); }
  }

  lemma SameListed(list: PortList, negate: bool, port: uint16)
    ensures Listed(PortExpr(list.ports, list.ranges, negate, false), port)
            <==> Listed(PortExpr(list.ports, list.ranges, false, false), port)
  {}
}
