/** Detection rules and how they match a single event (internal/ruleengine/rule.go,
    internal/ruleengine/sequence.go). */
module Rules {
  import opened Core
  import Ports

  datatype MatchBlock = MatchBlock(
    eventType: string,
    srcProcess: string,
    dstProcess: string,
    srcContainer: string,
    dstContainer: string,
    srcPort: Ports.PortExpr,
    dstPort: Ports.PortExpr,
    filePath: string,
    fileOp: string,
    execPath: string,
    parentProcess: string,
    not: Option<MatchBlock>)

  /** A block without constraints. */
  const BLANK_BLOCK := MatchBlock("", "", "", "", "", Ports.ZERO, Ports.ZERO, "", "", "", "", None)

  datatype DetectConfig = DetectConfig(mode: string, count: int, window: string, groupBy: seq<string>)

  datatype SequenceConfig = SequenceConfig(window: string, groupBy: seq<string>, steps: seq<MatchBlock>)

  datatype Rule = Rule(
    name: string,
    description: string,
    severity: string,
    mitre: string,
    single: Option<MatchBlock>,
    any: seq<MatchBlock>,
    all: seq<MatchBlock>,
    detect: DetectConfig,
    sequence: Option<SequenceConfig>)

  /** `path.Match`: whether a value matches a pattern, or None for a malformed pattern. */
  type Glob = (string, string) -> Option<bool>

  predicate MatchPattern(glob: Glob, pattern: string, value: string) {
    glob(pattern, value) == Some(true)
  }

  /** An empty pattern constrains nothing. */
  predicate Fits(glob: Glob, pattern: string, value: string) {
    pattern == "" || MatchPattern(glob, pattern, value)
  }

  predicate FitsContainer(glob: Glob, pattern: string, container: Option<ContainerInfo>) {
    container.Some? ==> Fits(glob, pattern, container.value.name)
  }

  predicate FitsPort(e: Ports.PortExpr, port: uint16) {
    Ports.IsZero(e) || port == 0 || Ports.Listed(e, port) != e.negate
  }

  /** Every constraint the block itself states, leaving its `not` aside. */
  predicate OwnConstraints(glob: Glob, m: MatchBlock, e: Event) {
    && (m.eventType == "" || m.eventType == e.eventType)
    && Fits(glob, m.srcProcess, e.srcProcessName)
    && Fits(glob, m.dstProcess, e.dstProcessName)
    && FitsContainer(glob, m.srcContainer, e.srcContainer)
    && FitsContainer(glob, m.dstContainer, e.dstContainer)
    && FitsPort(m.srcPort, e.srcPort)
    && FitsPort(m.dstPort, e.dstPort)
    && Fits(glob, m.execPath, e.execPath)
    && Fits(glob, m.parentProcess, e.parentProcessName)
    && Fits(glob, m.filePath, e.filePath)
    && Fits(glob, m.fileOp, e.fileOp)
  }

  predicate BlockMatches(glob: Glob, m: MatchBlock, e: Event) {
    match m.not
    case Some(inner) => !BlockMatches(glob, inner, e)
    case None => OwnConstraints(glob, m, e)
  }

  /** One accumulating step: a set pattern narrows the result, an empty one does not. */
  method Constrain(glob: Glob, res: bool, pattern: string, value: string) returns (r: bool)
    ensures r <==> res && Fits(glob, pattern, value)
  {
    r := res;
    if pattern != "" {
      r := r && MatchPattern(glob, pattern, value);
    }
  }

  method ConstrainPort(res: bool, expr: Ports.PortExpr, port: uint16) returns (r: bool)
    ensures r <==> res && FitsPort(expr, port)
  {
    r := res;
    if !Ports.IsZero(expr) && port != 0 {
      var hit := Ports.Match(expr, port);
      r := r && hit;
    }
  }

  method BlockMatchEvent(glob: Glob, m: MatchBlock, event: Event) returns (matched: bool)
    ensures matched == BlockMatches(glob, m, event)
    decreases m
  {
    if m.not.Some? {
      var inner := BlockMatchEvent(glob, m.not.value, event);
      return !inner;
    }
    if m.eventType != "" && m.eventType != event.eventType {
      return false;
    }
    var res := Constrain(glob, true, m.srcProcess, event.srcProcessName);
    res := Constrain(glob, res, m.dstProcess, event.dstProcessName);
    if event.srcContainer.Some? {
      res := Constrain(glob, res, m.srcContainer, event.srcContainer.value.name);
    }
    if event.dstContainer.Some? {
      res := Constrain(glob, res, m.dstContainer, event.dstContainer.value.name);
    }
    res := ConstrainPort(res, m.srcPort, event.srcPort);
    res := ConstrainPort(res, m.dstPort, event.dstPort);
    res := Constrain(glob, res, m.execPath, event.execPath);
    res := Constrain(glob, res, m.parentProcess, event.parentProcessName);
    res := Constrain(glob, res, m.filePath, event.filePath);
    res := Constrain(glob, res, m.fileOp, event.fileOp);
    return res;
  }

  /** A single block decides alone; then a non-empty `any` list, then a non-empty `all`
      list; a rule with none of them matches nothing. */
  predicate RuleMatches(glob: Glob, r: Rule, e: Event) {
    match r.single
    case Some(m) => BlockMatches(glob, m, e)
    case None =>
      if r.any != [] then exists m <- r.any :: BlockMatches(glob, m, e)
      else r.all != [] && forall m <- r.all :: BlockMatches(glob, m, e)
  }

  method RuleMatchEvent(glob: Glob, r: Rule, event: Event) returns (matched: bool)
    ensures matched == RuleMatches(glob, r, event)
  {
    if r.single.Some? {
      matched := BlockMatchEvent(glob, r.single.value, event);
      return;
    }
    if |r.any| > 0 {
      for i := 0 to |r.any|
        invariant forall m <- r.any[..i] :: !BlockMatches(glob, m, event)
      {
        var hit := BlockMatchEvent(glob, r.any[i], event);
        if hit {
          return true;
        }
      }
      return false;
    }
    if |r.all| > 0 {
      for i := 0 to |r.all|
        invariant forall m <- r.all[..i] :: BlockMatches(glob, m, event)
      {
        var hit := BlockMatchEvent(glob, r.all[i], event);
        if !hit {
          return false;
        }
      }
      return true;
    }
    return false;
  }

  // The boolean meaning of blocks and lists

  function NotDepth(m: MatchBlock): nat {
    match m.not
    case None => 0
    case Some(inner) => 1 + NotDepth(inner)
  }

  function Innermost(m: MatchBlock): MatchBlock {
    match m.not
    case None => m
    case Some(inner) => Innermost(inner)
  }

  /** A chain of k negations is the innermost block negated k times; whatever else the
      negating blocks state is ignored. */
  lemma {:induction false} NotChain(glob: Glob, m: MatchBlock, e: Event)
    ensures BlockMatches(glob, m, e) <==> (OwnConstraints(glob, Innermost(m), e) <==> NotDepth(m) % 2 == 0)
  {
    if m.not.Some? { NotChain(glob, m.not.value, e); }
  }

  /** The blocks pairwise negate each other; only their `not` fields are looked at. */
  predicate Negations(ms: seq<MatchBlock>, ns: seq<MatchBlock>) {
    |ms| == |ns| && forall i | 0 <= i < |ms| :: ns[i].not == Some(ms[i])
  }

  /** An `any` list matches exactly when the `all` list of its negations does not. */
  lemma AnyIsNotAllNot(glob: Glob, anyRule: Rule, allRule: Rule, e: Event)
    requires anyRule.single == None && anyRule.any != []
    requires allRule.single == None && allRule.any == []
    requires Negations(anyRule.any, allRule.all)
    ensures RuleMatches(glob, anyRule, e) <==> !RuleMatches(glob, allRule, e)
  {
    var ms, ns := anyRule.any, allRule.all;
    forall i | 0 <= i < |ms| ensures BlockMatches(glob, ns[i], e) == !BlockMatches(glob, ms[i], e) {}
    if m :| m in ms && BlockMatches(glob, m, e) {
      var i :| 0 <= i < |ms| && ms[i] == m;
      assert ns[i] in ns;
    } else {
      forall n | n in ns ensures BlockMatches(glob, n, e) {
        var i :| 0 <= i < |ns| && ns[i] == n;
        assert ms[i] in ms;
      }
    }
  }

  /** Only which blocks a list holds matters, not their order or repetition. */
  lemma BlocksAsSets(glob: Glob, r: Rule, s: Rule, e: Event)
    requires r.single == s.single
    requires forall m :: m in r.any <==> m in s.any
    requires forall m :: m in r.all <==> m in s.all
    ensures RuleMatches(glob, r, e) == RuleMatches(glob, s, e)
  {
    if r.any != [] { assert r.any[0] in s.any; }
    if s.any != [] { assert s.any[0] in r.any; }
    if r.all != [] { assert r.all[0] in s.all; }
    if s.all != [] { assert s.all[0] in r.all; }
  }
}
