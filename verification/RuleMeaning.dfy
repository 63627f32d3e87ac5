/** What the entries of a rule say about an event, each told on its own: which field a
    constraint looks at, when it is skipped, and how blocks make up a rule. */
module RuleMeaning {
  import opened Core
  import opened Rules
  import Ports

  // Single constraints

  /** The pattern is empty or the glob says that it matches the value. */
  predicate Accepts(glob: Glob, pattern: string, value: string) {
    pattern == "" || glob(pattern, value) == Some(true)
  }

  /** The port is listed or in a range, the other way round if negated; an event without
      a port and an expression without content are not compared. */
  predicate PortAccepts(x: Ports.PortExpr, port: uint16) {
    || port == 0
    || (x.ports == [] && x.ranges == [] && !x.negate && !x.wildcard)
    || ((exists i | 0 <= i < |x.ports| :: x.ports[i] == port)
        || (exists i | 0 <= i < |x.ranges| :: x.ranges[i].0 <= port <= x.ranges[i].1)) != x.negate
  }

  lemma TypeConstraint(glob: Glob, t: string, e: Event)
    ensures BlockMatches(glob, BLANK_BLOCK.(eventType := t), e) <==> t == "" || t == e.eventType
  {}

  /** Each pattern is compared with the field of its name. */
  lemma PatternConstraints(glob: Glob, p: string, e: Event)
    ensures BlockMatches(glob, BLANK_BLOCK.(srcProcess := p), e) <==> Accepts(glob, p, e.srcProcessName)
    ensures BlockMatches(glob, BLANK_BLOCK.(dstProcess := p), e) <==> Accepts(glob, p, e.dstProcessName)
    ensures BlockMatches(glob, BLANK_BLOCK.(filePath := p), e) <==> Accepts(glob, p, e.filePath)
    ensures BlockMatches(glob, BLANK_BLOCK.(fileOp := p), e) <==> Accepts(glob, p, e.fileOp)
    ensures BlockMatches(glob, BLANK_BLOCK.(execPath := p), e) <==> Accepts(glob, p, e.execPath)
    ensures BlockMatches(glob, BLANK_BLOCK.(parentProcess := p), e) <==> Accepts(glob, p, e.parentProcessName)
  {}

  /** Container patterns are compared with names, and skipped without a container. */
  lemma ContainerConstraints(glob: Glob, p: string, e: Event)
    ensures BlockMatches(glob, BLANK_BLOCK.(srcContainer := p), e)
            <==> (e.srcContainer.Some? ==> Accepts(glob, p, e.srcContainer.value.name))
    ensures BlockMatches(glob, BLANK_BLOCK.(dstContainer := p), e)
            <==> (e.dstContainer.Some? ==> Accepts(glob, p, e.dstContainer.value.name))
  {}

  lemma PortConstraints(glob: Glob, x: Ports.PortExpr, e: Event)
    ensures BlockMatches(glob, BLANK_BLOCK.(srcPort := x), e) <==> PortAccepts(x, e.srcPort)
    ensures BlockMatches(glob, BLANK_BLOCK.(dstPort := x), e) <==> PortAccepts(x, e.dstPort)
  {
    Ports.ListedByIndex(x, e.srcPort);
    Ports.ListedByIndex(x, e.dstPort);
  }

  // Whole blocks

  /** A block without `not` matches exactly if each constraint it states holds. */
  lemma BlockSays(glob: Glob, m: MatchBlock, e: Event)
    requires m.not == None
    ensures BlockMatches(glob, m, e) <==>
      && (m.eventType == "" || m.eventType == e.eventType)
      && Accepts(glob, m.srcProcess, e.srcProcessName)
      && Accepts(glob, m.dstProcess, e.dstProcessName)
      && (e.srcContainer.Some? ==> Accepts(glob, m.srcContainer, e.srcContainer.value.name))
      && (e.dstContainer.Some? ==> Accepts(glob, m.dstContainer, e.dstContainer.value.name))
      && PortAccepts(m.srcPort, e.srcPort)
      && PortAccepts(m.dstPort, e.dstPort)
      && Accepts(glob, m.filePath, e.filePath)
      && Accepts(glob, m.fileOp, e.fileOp)
      && Accepts(glob, m.execPath, e.execPath)
      && Accepts(glob, m.parentProcess, e.parentProcessName)
  {
    Ports.ListedByIndex(m.srcPort, e.srcPort);
    Ports.ListedByIndex(m.dstPort, e.dstPort);
  }

  /** In other words, it matches exactly if the blocks that state one of its
      constraints each all do. */
  lemma BlockIsItsConstraints(glob: Glob, m: MatchBlock, e: Event)
    requires m.not == None
    ensures BlockMatches(glob, m, e) <==>
      && BlockMatches(glob, BLANK_BLOCK.(eventType := m.eventType), e)
      && BlockMatches(glob, BLANK_BLOCK.(srcProcess := m.srcProcess), e)
      && BlockMatches(glob, BLANK_BLOCK.(dstProcess := m.dstProcess), e)
      && BlockMatches(glob, BLANK_BLOCK.(srcContainer := m.srcContainer), e)
      && BlockMatches(glob, BLANK_BLOCK.(dstContainer := m.dstContainer), e)
      && BlockMatches(glob, BLANK_BLOCK.(srcPort := m.srcPort), e)
      && BlockMatches(glob, BLANK_BLOCK.(dstPort := m.dstPort), e)
      && BlockMatches(glob, BLANK_BLOCK.(filePath := m.filePath), e)
      && BlockMatches(glob, BLANK_BLOCK.(fileOp := m.fileOp), e)
      && BlockMatches(glob, BLANK_BLOCK.(execPath := m.execPath), e)
      && BlockMatches(glob, BLANK_BLOCK.(parentProcess := m.parentProcess), e)
  {
    hide BlockMatches, Accepts, PortAccepts;
    BlockSays(glob, m, e);
    TypeConstraint(glob, m.eventType, e);
    PatternConstraints(glob, m.srcProcess, e);
    PatternConstraints(glob, m.dstProcess, e);
    PatternConstraints(glob, m.filePath, e);
    PatternConstraints(glob, m.fileOp, e);
    PatternConstraints(glob, m.execPath, e);
    PatternConstraints(glob, m.parentProcess, e);
    ContainerConstraints(glob, m.srcContainer, e);
    ContainerConstraints(glob, m.dstContainer, e);
    PortConstraints(glob, m.srcPort, e);
    PortConstraints(glob, m.dstPort, e);
  }

  /** A block with `not` says the opposite of the block inside, and nothing else. */
  lemma NotConstraint(glob: Glob, m: MatchBlock, e: Event)
    ensures BlockMatches(glob, m.(not := Some(m)), e) <==> !BlockMatches(glob, m, e)
    ensures m.not.Some? ==> (BlockMatches(glob, m, e) <==> !BlockMatches(glob, m.not.value, e))
  {}

  // Whole rules

  /** What a rule says, told by the position of its blocks. */
  lemma RuleSays(glob: Glob, r: Rule, e: Event)
    ensures r.single.Some? ==> (RuleMatches(glob, r, e) <==> BlockMatches(glob, r.single.value, e))
    ensures r.single.None? && |r.any| > 0 ==>
      (RuleMatches(glob, r, e) <==> exists i | 0 <= i < |r.any| :: BlockMatches(glob, r.any[i], e))
    ensures r.single.None? && |r.any| == 0 && |r.all| > 0 ==>
      (RuleMatches(glob, r, e) <==> forall i | 0 <= i < |r.all| :: BlockMatches(glob, r.all[i], e))
    ensures r.single.None? && |r.any| == 0 && |r.all| == 0 ==> !RuleMatches(glob, r, e)
  {
    hide BlockMatches;
  }
}
