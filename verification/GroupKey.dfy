/** The string keys under which rules keep their per-group state
    (`buildGroupKey`, internal/ruleengine/engine.go). */
module GroupKey {
  import opened Core
  import opened Text

  const SRC := "src_container"
  const DST := "dst_container"

  function DstName(e: Event): string {
    match e.dstContainer
    case None => ""
    case Some(c) => c.name
  }

  /** What one group_by entry adds to the key; unknown entries add nothing. */
  function FieldText(field: string, e: Attributed): Option<string> {
    if field == SRC then Some(e.srcContainer.value.name)
    else if field == DST then Some(DstName(e))
    else if field == "src_addr" then Some(e.srcAddr)
    else if field == "dst_addr" then Some(e.dstAddr)
    else if field == "src_port" then Some(Decimal(e.srcPort))
    else if field == "dst_port" then Some(Decimal(e.dstPort))
    else None
  }

  function Parts(groupBy: seq<string>, e: Attributed): seq<string> {
    if groupBy == [] then []
    else
      var n := |groupBy| - 1;
      match FieldText(groupBy[n], e)
      case None => Parts(groupBy[..n], e)
      case Some(text) => Parts(groupBy[..n], e) + [text]
  }

  function Key(ruleName: string, groupBy: seq<string>, e: Attributed): string {
    Join([ruleName] + Parts(groupBy, e), ':')
  }

  method BuildGroupKey(ruleName: string, groupBy: seq<string>, event: Attributed) returns (key: string)
    ensures key == Key(ruleName, groupBy, event)
  {
    var keys := [ruleName];
    for i := 0 to |groupBy|
      invariant keys == [ruleName] + Parts(groupBy[..i], event)
    {
      assert groupBy[..i + 1][..i] == groupBy[..i];
      var field := groupBy[i];
      if field == SRC {
        keys := keys + [event.srcContainer.value.name];
      } else if field == DST {
        if event.dstContainer == None {
          keys := keys + [""];
        } else {
          keys := keys + [event.dstContainer.value.name];
        }
      } else if field == "src_addr" {
        keys := keys + [event.srcAddr];
      } else if field == "dst_addr" {
        keys := keys + [event.dstAddr];
      } else if field == "src_port" {
        keys := keys + [Decimal(event.srcPort)];
      } else if field == "dst_port" {
        keys := keys + [Decimal(event.dstPort)];
      }
    }
    assert groupBy[..|groupBy|] == groupBy;
    key := Join(keys, ':');
  }

  /** The text of a key: the rule's name, then for each recognised entry of group_by, in
      order, a colon and what the event says there; other entries add nothing. */
  lemma KeySays(name: string, groupBy: seq<string>, field: string, e: Attributed)
    ensures Key(name, [], e) == name
    ensures var before, key := Key(name, groupBy, e), Key(name, groupBy + [field], e);
      && (field == "src_container" ==> key == before + ":" + e.srcContainer.value.name)
      && (field == "dst_container" ==>
            key == before + ":" + if e.dstContainer.Some? then e.dstContainer.value.name else "")
      && (field == "src_addr" ==> key == before + ":" + e.srcAddr)
      && (field == "dst_addr" ==> key == before + ":" + e.dstAddr)
      && (field == "src_port" ==> key == before + ":" + Decimal(e.srcPort))
      && (field == "dst_port" ==> key == before + ":" + Decimal(e.dstPort))
      && (field !in ["src_container", "dst_container", "src_addr", "dst_addr", "src_port", "dst_port"] ==>
            key == before)
  {
    hide Decimal, Join;
    NameAsKey(name, e);
    assert (groupBy + [field])[..|groupBy|] == groupBy;
    var parts, text := [name] + Parts(groupBy, e), FieldText(field, e);
    if text.Some? {
      JoinAppend(parts, text.value);
      assert [name] + Parts(groupBy + [field], e) == parts + [text.value];
    }
  }

  // Which rule a key belongs to

  /** A key that starts with the rule's name, followed by the end or a colon. */
  predicate Owns(ruleName: string, key: string) {
    key == ruleName || ruleName + ":" <= key
  }

  lemma KeyIsOwned(ruleName: string, groupBy: seq<string>, e: Attributed)
    ensures Owns(ruleName, Key(ruleName, groupBy, e))
  {
    var parts := [ruleName] + Parts(groupBy, e);
    if |parts| > 1 {
      assert Join(parts, ':') == ruleName + ":" + Join(parts[1..], ':');
    }
  }

  /** Neither name is the other, nor the other cut off at one of its colons. */
  predicate Apart(a: string, b: string) {
    !Owns(a, b) && !Owns(b, a)
  }

  lemma ColonFreeNamesApart(a: string, b: string)
    ensures a != b && ':' !in a && ':' !in b ==> Apart(a, b)
  {
    if a + ":" <= b { assert b[|a|] == ':'; }
    if b + ":" <= a { assert a[|b|] == ':'; }
  }

  /** Rules whose names are apart never share a key. */
  lemma OwnerIsUnique(a: string, b: string, key: string)
    ensures Owns(a, key) && Owns(b, key) ==> !Apart(a, b)
  {
    if Owns(a, key) && Owns(b, key) {
      assert a <= key && b <= key;
      if |a| == |b| {
        assert a == key[..|a|] == b;
      } else if |a| < |b| {
        assert a + ":" == key[..|a| + 1] <= b;
      } else {
        assert b + ":" == key[..|b| + 1] <= a;
      }
    }
  }

  // When two events of one rule share a key

  predicate SameField(field: string, a: Attributed, b: Attributed) {
    if field == SRC then a.srcContainer.value.name == b.srcContainer.value.name
    else if field == DST then DstName(a) == DstName(b)
    else if field == "src_addr" then a.srcAddr == b.srcAddr
    else if field == "dst_addr" then a.dstAddr == b.dstAddr
    else if field == "src_port" then a.srcPort == b.srcPort
    else if field == "dst_port" then a.dstPort == b.dstPort
    else true
  }

  /** The events agree on every recognised field of group_by. */
  predicate SameGroup(groupBy: seq<string>, a: Attributed, b: Attributed) {
    forall field <- groupBy :: SameField(field, a, b)
  }

  predicate PlainAddresses(e: Event) { ':' !in e.srcAddr && ':' !in e.dstAddr }

  predicate PlainContainers(e: Attributed) {
    ':' !in e.srcContainer.value.name && ':' !in DstName(e)
  }

  function Occurrences(groupBy: seq<string>, field: string): nat {
    if groupBy == [] then 0
    else Occurrences(groupBy[..|groupBy| - 1], field) + if groupBy[|groupBy| - 1] == field then 1 else 0
  }

  function TotalColons(parts: seq<string>): nat {
    if parts == [] then 0 else TotalColons(parts[..|parts| - 1]) + Count(parts[|parts| - 1], ':')
  }

  lemma {:induction false} JoinAppend(parts: seq<string>, last: string)
    requires parts != []
    ensures Join(parts + [last], ':') == Join(parts, ':') + ":" + last
  {
    var all := parts + [last];
    if |parts| == 1 {
      assert all[1..] == [last];
    } else {
      assert all[1..] == parts[1..] + [last];
      JoinAppend(parts[1..], last);
    }
  }

  lemma {:induction false} ColonsOfJoin(parts: seq<string>)
    requires parts != []
    ensures Count(Join(parts, ':'), ':') == |parts| - 1 + TotalColons(parts)
  {
    var init, last := parts[..|parts| - 1], parts[|parts| - 1];
    if init == [] {
      assert TotalColons(init) == 0;
    } else {
      ColonsOfJoin(init);
      assert parts == init + [last];
      JoinAppend(init, last);
      CountConcat(Join(init, ':') + ":", last, ':');
      CountConcat(Join(init, ':'), ":", ':');
    }
  }

  lemma FieldColons(field: string, e: Attributed)
    requires PlainAddresses(e) && FieldText(field, e).Some?
    ensures Count(FieldText(field, e).value, ':') ==
            if field == SRC then Count(e.srcContainer.value.name, ':')
            else if field == DST then Count(DstName(e), ':') else 0
  {
    CountFree(Decimal(e.srcPort), ':');
    CountFree(Decimal(e.dstPort), ':');
    CountFree(e.srcAddr, ':');
    CountFree(e.dstAddr, ':');
  }

  lemma {:induction false} ColonsOfParts(groupBy: seq<string>, e: Attributed)
    requires PlainAddresses(e)
    ensures TotalColons(Parts(groupBy, e)) ==
            Occurrences(groupBy, SRC) * Count(e.srcContainer.value.name, ':')
            + Occurrences(groupBy, DST) * Count(DstName(e), ':')
  {
    if groupBy != [] {
      var n := |groupBy| - 1;
      ColonsOfParts(groupBy[..n], e);
      var field := groupBy[n];
      OneMore(Occurrences(groupBy[..n], SRC), Count(e.srcContainer.value.name, ':'));
      OneMore(Occurrences(groupBy[..n], DST), Count(DstName(e), ':'));
      if FieldText(field, e).Some? {
        FieldColons(field, e);
        var parts := Parts(groupBy, e);
        assert parts[..|parts| - 1] == Parts(groupBy[..n], e);
      }
    }
  }

  lemma {:induction false} OccurrencesPositive(groupBy: seq<string>, field: string)
    ensures Occurrences(groupBy, field) > 0 <==> field in groupBy
  {
    if groupBy != [] {
      var n := |groupBy| - 1;
      OccurrencesPositive(groupBy[..n], field);
      assert groupBy == groupBy[..n] + [groupBy[n]];
    }
  }

  /** A field adds to both keys or to neither, and the same just if the events agree. */
  lemma FieldTextsAgree(field: string, a: Attributed, b: Attributed)
    ensures FieldText(field, a).Some? <==> FieldText(field, b).Some?
    ensures FieldText(field, a) == FieldText(field, b) <==> SameField(field, a, b)
  {
    hide Decimal;
    if Decimal(a.srcPort) == Decimal(b.srcPort) { DecimalInjective(a.srcPort, b.srcPort); }
    if Decimal(a.dstPort) == Decimal(b.dstPort) { DecimalInjective(a.dstPort, b.dstPort); }
  }

  /** Equal part lists mean agreement on every field, and the other way round. */
  lemma {:induction false} PartsAgree(groupBy: seq<string>, a: Attributed, b: Attributed)
    ensures |Parts(groupBy, a)| == |Parts(groupBy, b)|
    ensures Parts(groupBy, a) == Parts(groupBy, b) <==> SameGroup(groupBy, a, b)
  {
    hide FieldText, SameField;
    if groupBy != [] {
      var n := |groupBy| - 1;
      var init, field := groupBy[..n], groupBy[n];
      PartsAgree(init, a, b);
      FieldTextsAgree(field, a, b);
      assert groupBy == init + [field];
      assert SameGroup(groupBy, a, b) <==> SameGroup(init, a, b) && SameField(field, a, b);
      var p, q := Parts(groupBy, a), Parts(groupBy, b);
      if FieldText(field, a).Some? && p == q {
        assert p[..|p| - 1] == Parts(init, a) && q[..|q| - 1] == Parts(init, b);
        assert p[|p| - 1] == FieldText(field, a).value && q[|q| - 1] == FieldText(field, b).value;
      }
    }
  }

  lemma {:induction false} PartsColonsPairwise(groupBy: seq<string>, a: Attributed, b: Attributed)
    requires PlainAddresses(a) && PlainAddresses(b)
    requires SRC in groupBy ==> Count(a.srcContainer.value.name, ':') == Count(b.srcContainer.value.name, ':')
    requires DST in groupBy ==> Count(DstName(a), ':') == Count(DstName(b), ':')
    ensures |Parts(groupBy, a)| == |Parts(groupBy, b)|
    ensures forall i | 0 <= i < |Parts(groupBy, a)| ::
      Count(Parts(groupBy, a)[i], ':') == Count(Parts(groupBy, b)[i], ':')
  {
    if groupBy != [] {
      var n := |groupBy| - 1;
      assert groupBy == groupBy[..n] + [groupBy[n]];
      PartsColonsPairwise(groupBy[..n], a, b);
      if FieldText(groupBy[n], a).Some? {
        FieldColons(groupBy[n], a);
        FieldColons(groupBy[n], b);
      }
    }
  }

  lemma ProductsOrdered(k: nat, x: nat, y: nat)
    requires k > 0
    ensures k * x == k * y <==> x == y
  {
    if x < y { assert k * (y - x) > 0; }
    if y < x { assert k * (x - y) > 0; }
  }

  lemma OneMore(k: nat, x: nat)
    ensures (k + 1) * x == k * x + x
  {}

  /** The colon counts of the container names can be read back from a shared key
      unless both names vary freely. */
  lemma SharedKeyColons(ruleName: string, groupBy: seq<string>, a: Attributed, b: Attributed)
    requires PlainAddresses(a) && PlainAddresses(b)
    requires SRC in groupBy && DST in groupBy ==> PlainContainers(a) && PlainContainers(b)
    requires Key(ruleName, groupBy, a) == Key(ruleName, groupBy, b)
    ensures SRC in groupBy ==> Count(a.srcContainer.value.name, ':') == Count(b.srcContainer.value.name, ':')
    ensures DST in groupBy ==> Count(DstName(a), ':') == Count(DstName(b), ':')
  {
    hide Key, Parts, Occurrences;
    var x, y := Count(a.srcContainer.value.name, ':'), Count(b.srcContainer.value.name, ':');
    var u, v := Count(DstName(a), ':'), Count(DstName(b), ':');
    var s, d := Occurrences(groupBy, SRC), Occurrences(groupBy, DST);
    OccurrencesPositive(groupBy, SRC);
    OccurrencesPositive(groupBy, DST);
    if SRC in groupBy && DST in groupBy {
      CountFree(a.srcContainer.value.name, ':');
      CountFree(b.srcContainer.value.name, ':');
      CountFree(DstName(a), ':');
      CountFree(DstName(b), ':');
    } else {
      KeyColons(ruleName, groupBy, a);
      KeyColons(ruleName, groupBy, b);
      PartsAgree(groupBy, a, b);
      if SRC in groupBy {
        assert d * u == 0 && d * v == 0;
        ProductsOrdered(s, x, y);
      }
      if DST in groupBy {
        assert s * x == 0 && s * y == 0;
        ProductsOrdered(d, u, v);
      }
    }
  }

  lemma KeyColons(ruleName: string, groupBy: seq<string>, e: Attributed)
    requires PlainAddresses(e)
    ensures Count(Key(ruleName, groupBy, e), ':') == |Parts(groupBy, e)| + Count(ruleName, ':')
            + Occurrences(groupBy, SRC) * Count(e.srcContainer.value.name, ':')
            + Occurrences(groupBy, DST) * Count(DstName(e), ':')
  {
    var parts := Parts(groupBy, e);
    ColonsOfJoin([ruleName] + parts);
    ColonsOfParts(groupBy, e);
    TotalColonsCons(ruleName, parts);
  }

  lemma {:induction false} TotalColonsCons(first: string, parts: seq<string>)
    ensures TotalColons([first] + parts) == Count(first, ':') + TotalColons(parts)
  {
    var all := [first] + parts;
    if parts == [] {
      assert all[..0] == [];
    } else {
      var n := |parts| - 1;
      assert all[..n + 1] == [first] + parts[..n];
      TotalColonsCons(first, parts[..n]);
    }
  }

  /** Two events share a key exactly when they agree on every recognised field, if
      the rule groups by at most one container, whose name may then hold colons, or
      the container names are free of colons. */
  lemma KeyIffSameGroup(ruleName: string, groupBy: seq<string>, a: Attributed, b: Attributed)
    requires PlainAddresses(a) && PlainAddresses(b)
    requires SRC in groupBy && DST in groupBy ==> PlainContainers(a) && PlainContainers(b)
    ensures Key(ruleName, groupBy, a) == Key(ruleName, groupBy, b) <==> SameGroup(groupBy, a, b)
  {
    PartsAgree(groupBy, a, b);
    if Key(ruleName, groupBy, a) == Key(ruleName, groupBy, b) {
      SharedKeyColons(ruleName, groupBy, a, b);
      PartsColonsPairwise(groupBy, a, b);
      var p, q := [ruleName] + Parts(groupBy, a), [ruleName] + Parts(groupBy, b);
      JoinInjective(p, q, ':');
      assert Parts(groupBy, a) == p[1..] == q[1..];
    }
  }

  // Grouping by both containers is not faithful

  /** n zeros with colons between them. */
  function Zeros(n: nat): string
    requires n > 0
  {
    if n == 1 then "0" else Zeros(n - 1) + ":0"
  }

  lemma {:induction false} ZerosConcat(m: nat, n: nat)
    requires m > 0 && n > 0
    ensures Zeros(m) + ":" + Zeros(n) == Zeros(m + n)
  {
    if n > 1 {
      ZerosConcat(m, n - 1);
      assert Zeros(m) + ":" + Zeros(n) == Zeros(m) + ":" + Zeros(n - 1) + ":0";
    }
  }

  lemma ZerosDistinct(m: nat, n: nat)
    requires 0 < m < n
    ensures |Zeros(m)| < |Zeros(n)|
  {}

  /** An event all of whose grouping fields are made of zeros and colons. */
  function ZeroEvent(src: nat, dst: nat): Attributed
    requires src > 0 && dst > 0
  {
    BLANK_EVENT.(
      srcContainer := Some(ContainerInfo("", Zeros(src), "")),
      dstContainer := Some(ContainerInfo("", Zeros(dst), "")),
      srcAddr := "0", dstAddr := "0")
  }

  function ZeroLength(field: string, src: nat, dst: nat): nat {
    if field == SRC then src else if field == DST then dst
    else if field in ["src_addr", "dst_addr", "src_port", "dst_port"] then 1 else 0
  }

  function ZeroTotal(groupBy: seq<string>, src: nat, dst: nat): nat {
    if groupBy == [] then 0
    else
      var n := |groupBy| - 1;
      ZeroTotal(groupBy[..n], src, dst) + ZeroLength(groupBy[n], src, dst)
  }

  lemma {:induction false} ZeroTotalGrowth(groupBy: seq<string>, src: nat, dst: nat)
    ensures ZeroTotal(groupBy, src, dst) == ZeroTotal(groupBy, 0, 0)
            + Occurrences(groupBy, SRC) * src + Occurrences(groupBy, DST) * dst
  {
    if groupBy != [] {
      var init := groupBy[..|groupBy| - 1];
      ZeroTotalGrowth(init, src, dst);
      OneMore(Occurrences(init, SRC), src);
      OneMore(Occurrences(init, DST), dst);
    }
  }

  lemma ZeroField(field: string, src: nat, dst: nat)
    requires src > 0 && dst > 0
    ensures FieldText(field, ZeroEvent(src, dst)) ==
            if ZeroLength(field, src, dst) == 0 then None else Some(Zeros(ZeroLength(field, src, dst)))
  {
    assert Decimal(0) == "0" == Zeros(1);
  }

  lemma NameAsKey(name: string, e: Attributed)
    ensures Key(name, [], e) == name
  {}

  function ZeroText(n: nat): string {
    if n == 0 then "" else ":" + Zeros(n)
  }

  lemma ZeroTextStep(parts: seq<string>, before: nat, more: nat)
    requires parts != [] && more > 0 && Join(parts, ':') == ZeroText(before)
    ensures Join(parts + [Zeros(more)], ':') == ZeroText(before + more)
  {
    JoinAppend(parts, Zeros(more));
    if before == 0 {
      assert "" + ":" + Zeros(more) == ZeroText(more);
    } else {
      var x, y := Zeros(before), Zeros(more);
      ZerosConcat(before, more);
      assert ":" + x + ":" + y == ":" + (x + ":" + y);
    }
  }

  lemma {:induction false} ZeroKey(groupBy: seq<string>, src: nat, dst: nat)
    requires src > 0 && dst > 0
    ensures Key("", groupBy, ZeroEvent(src, dst)) == ZeroText(ZeroTotal(groupBy, src, dst))
  {
    hide Zeros, ZeroLength, Join;
    var e := ZeroEvent(src, dst);
    if groupBy == [] {
      NameAsKey("", e);
    } else {
      var n := |groupBy| - 1;
      ZeroKey(groupBy[..n], src, dst);
      ZeroField(groupBy[n], src, dst);
      var before, more := ZeroTotal(groupBy[..n], src, dst), ZeroLength(groupBy[n], src, dst);
      if more > 0 {
        var parts := [""] + Parts(groupBy[..n], e);
        assert [""] + Parts(groupBy, e) == parts + [Zeros(more)];
        ZeroTextStep(parts, before, more);
      }
    }
  }

  lemma Balance(s: nat, d: nat)
    ensures s * (1 + d) + d * 1 == s * 1 + d * (1 + s)
  {}

  /** A rule's name only stands in front of the rest of its keys. */
  lemma NameInFront(name: string, groupBy: seq<string>, e: Attributed)
    requires Parts(groupBy, e) != []
    ensures Key(name, groupBy, e) == name + Key("", groupBy, e)
  {
    var parts := Parts(groupBy, e);
    assert ([name] + parts)[1..] == parts && ([""] + parts)[1..] == parts;
    assert "" + ":" + Join(parts, ':') == ":" + Join(parts, ':');
    assert name + ":" + Join(parts, ':') == name + (":" + Join(parts, ':'));
  }

  lemma {:induction false} RecognisedHasParts(groupBy: seq<string>, e: Attributed)
    requires SRC in groupBy
    ensures Parts(groupBy, e) != []
  {
    var n := |groupBy| - 1;
    if groupBy[n] != SRC {
      assert groupBy == groupBy[..n] + [groupBy[n]];
      RecognisedHasParts(groupBy[..n], e);
    }
  }

  /** Two different groups with one key, for every rule that groups by both containers,
      whatever its name. */
  lemma BothContainersCollide(name: string, groupBy: seq<string>) returns (a: Attributed, b: Attributed)
    requires SRC in groupBy && DST in groupBy
    ensures PlainAddresses(a) && PlainAddresses(b)
    ensures Key(name, groupBy, a) == Key(name, groupBy, b) && !SameGroup(groupBy, a, b)
  {
    hide Key, ZeroTotal, Parts;
    var s, d := Occurrences(groupBy, SRC), Occurrences(groupBy, DST);
    OccurrencesPositive(groupBy, DST);
    ZeroTotalGrowth(groupBy, 1 + d, 1);
    ZeroTotalGrowth(groupBy, 1, 1 + s);
    Balance(s, d);
    a, b := ZeroEvent(1 + d, 1), ZeroEvent(1, 1 + s);
    ZeroKey(groupBy, 1 + d, 1);
    ZeroKey(groupBy, 1, 1 + s);
    RecognisedHasParts(groupBy, a);
    RecognisedHasParts(groupBy, b);
    NameInFront(name, groupBy, a);
    NameInFront(name, groupBy, b);
    ZerosDistinct(1, 1 + d);
    assert !SameField(SRC, a, b);
  }

  /** The exact limit, rule by rule: a rule's keys separate exactly the groups of all
      events with plain addresses if and only if it does not group by both containers. */
  lemma KeysFaithfulIff(name: string, groupBy: seq<string>)
    ensures (forall a: Attributed, b: Attributed | PlainAddresses(a) && PlainAddresses(b) ::
               Key(name, groupBy, a) == Key(name, groupBy, b) <==> SameGroup(groupBy, a, b))
            <==> !(SRC in groupBy && DST in groupBy)
  {
    hide Key, SameGroup;
    if SRC in groupBy && DST in groupBy {
      var a, b := BothContainersCollide(name, groupBy);
      assert !(Key(name, groupBy, a) == Key(name, groupBy, b) <==> SameGroup(groupBy, a, b));
    } else {
      forall a: Attributed, b: Attributed | PlainAddresses(a) && PlainAddresses(b)
        ensures Key(name, groupBy, a) == Key(name, groupBy, b) <==> SameGroup(groupBy, a, b)
      {
        KeyIffSameGroup(name, groupBy, a, b);
      }
    }
  }
}
