/** For well-formed trees the lookup by retained spans resolves every use as the walk did. */
module ScopesAgree {
  import opened Wrappers
  import opened Rename
  import opened Scopes

  // --------------------------------------------------------------------- positions ---

  function Max(a: int, b: int): int {
    if a < b then b else a
  }

  /** The furthest position a stretch of the walk has reached, starting from p. */
  function Reached(p: int, node: Node): int {
    match node
    case Use(_, at) => at
    case Bind(_, _, from) => from
    case Frame(span, _) => span.end
  }

  function ReachedAll(p: int, nodes: seq<Node>): int
    decreases nodes
  {
    if nodes == [] then p else ReachedAll(Reached(p, nodes[0]), nodes[1..])
  }

  /** Uses come strictly after everything finished before them, names become visible no
      earlier than that, and a scope's span covers what is inside it. */
  predicate Fits(p: int, node: Node)
    decreases node, 1
  {
    match node
    case Use(_, at) => p < at
    case Bind(_, at, from) => at <= from && p <= from
    case Frame(span, items) =>
      var q := Max(p, span.start - 1);
      FitsAll(q, items) && ReachedAll(q, items) <= span.end && p <= span.end
  }

  predicate FitsAll(p: int, nodes: seq<Node>)
    decreases nodes, 0
  {
    nodes == [] || (Fits(p, nodes[0]) && FitsAll(Reached(p, nodes[0]), nodes[1..]))
  }

  lemma {:induction false} ReachedGrows(p: int, nodes: seq<Node>)
    requires FitsAll(p, nodes)
    ensures p <= ReachedAll(p, nodes)
    decreases |nodes|
  {
    if nodes != [] {
      ReachedGrows(Reached(p, nodes[0]), nodes[1..]);
    }
  }

  // -------------------------------------------------------------------------- growth ---

  /** Later scopes keep what earlier ones say: spans and depths stay, binders are only added,
      and whatever is added becomes visible no earlier than p. */
  ghost predicate Grown(a: seq<Scope>, b: seq<Scope>, p: int) {
    && |a| <= |b|
    && (forall i | 0 <= i < |a| :: b[i].span == a[i].span && b[i].depth == a[i].depth && Extends(a[i].binders, b[i].binders, p))
    && (forall i | |a| <= i < |b| :: Extends([], b[i].binders, p))
  }

  ghost predicate Extends(a: seq<Binder>, b: seq<Binder>, p: int) {
    a <= b && forall k | |a| <= k < |b| :: p <= b[k].from
  }

  lemma {:induction false} ExtendsTrans(a: seq<Binder>, b: seq<Binder>, c: seq<Binder>, p: int, q: int)
    requires Extends(a, b, p) && Extends(b, c, q) && p <= q
    ensures Extends(a, c, p)
  {
    forall k | |a| <= k < |c| ensures p <= c[k].from {
      if k < |b| { assert c[k] == b[k]; }
    }
  }

  lemma {:induction false} GrownTrans(a: seq<Scope>, b: seq<Scope>, c: seq<Scope>, p: int, q: int)
    requires Grown(a, b, p) && Grown(b, c, q) && p <= q
    ensures Grown(a, c, p)
  {
    hide Extends;
    forall i | 0 <= i < |c| ensures Extends(if i < |a| then a[i].binders else [], c[i].binders, p) {
      if i < |b| {
        ExtendsTrans(if i < |a| then a[i].binders else [], b[i].binders, c[i].binders, p, q);
      } else {
        ExtendsLater([], c[i].binders, p, q);
      }
    }
  }

  lemma {:induction false} ExtendsLater(a: seq<Binder>, b: seq<Binder>, p: int, q: int)
    requires Extends(a, b, q) && p <= q
    ensures Extends(a, b, p)
  {
  }

  lemma {:induction false} GrownSame(a: seq<Scope>, p: int)
    ensures Grown(a, a, p)
  {
  }

  // ------------------------------------------------------------------------ relation ---

  /** The open retained scopes are the stack; their spans hold the present position, and every
      other scope ended before it. */
  ghost predicate Matches(frames: seq<Scope>, open: seq<nat>, stack: Stack, p: int, end: int) {
    && |open| == |stack|
    && (forall k | 0 <= k < |open| :: OpenAt(frames, open, stack, k, p, end))
    && (forall i | 0 <= i < |frames| && i !in open :: frames[i].span.end <= p)
  }

  ghost predicate OpenAt(frames: seq<Scope>, open: seq<nat>, stack: Stack, k: nat, p: int, end: int)
    requires k < |open| == |stack|
  {
    && open[k] < |frames| && frames[open[k]].depth == k && frames[open[k]].binders == stack[k]
    && frames[open[k]].span.start <= p + 1 && end <= frames[open[k]].span.end
    && (forall b | b in stack[k] :: b.at <= b.from <= p)
    && (forall j | 0 <= j < |open| && open[j] == open[k] :: j == k)
  }

  // -------------------------------------------------------------------------- lookup ---

  lemma {:induction false} LastAgrees(binders: seq<Binder>, name: string, offset: int)
    requires forall b | b in binders :: b.at <= b.from < offset
    ensures LastVisible(binders, name, offset) == LastBefore(binders, name, offset)
    decreases |binders|
  {
    if binders != [] {
      assert binders[|binders| - 1] in binders;
      LastAgrees(binders[..|binders| - 1], name, offset);
    }
  }

  /** What becomes visible later does not show. */
  lemma {:induction false} LaterHidden(a: seq<Binder>, b: seq<Binder>, name: string, offset: int)
    requires Extends(a, b, offset)
    ensures LastVisible(b, name, offset) == LastVisible(a, name, offset)
    decreases |b|
  {
    if |b| > |a| {
      var n := |b| - 1;
      assert offset <= b[n].from;
      LaterHidden(a, b[..n], name, offset);
    } else {
      assert a == b;
    }
  }

  /** Which scope of the stack answers. */
  lemma {:induction false} StackAnswers(stack: Stack, name: string, offset: int) returns (k: nat)
    ensures StackLookup(stack, name, offset).Some? ==>
              k < |stack| && LastBefore(stack[k], name, offset) == StackLookup(stack, name, offset)
              && forall j | k < j < |stack| :: LastBefore(stack[j], name, offset).None?
    ensures StackLookup(stack, name, offset).None? ==> forall j | 0 <= j < |stack| :: LastBefore(stack[j], name, offset).None?
    decreases |stack|
  {
    k := 0;
    if stack != [] {
      var n := |stack| - 1;
      if LastBefore(stack[n], name, offset).Some? {
        k := n;
      } else {
        k := StackAnswers(stack[..n], name, offset);
      }
    }
  }

  /** What each retained scope shows at a use, once the walk is over. */
  lemma {:induction false} ShownAtUse(frames: seq<Scope>, open: seq<nat>, stack: Stack, p: int, end: int, final: seq<Scope>,
                                      name: string, at: int, i: nat)
    requires Matches(frames, open, stack, p, end) && p < at <= end && Grown(frames, final, at) && i < |final|
    ensures i in open ==>
              i < |frames| && frames[i].depth < |stack| && open[frames[i].depth] == i && CoversEnd(final[i].span, at) && final[i].depth == frames[i].depth
              && LastVisible(final[i].binders, name, at) == LastBefore(stack[frames[i].depth], name, at)
    ensures i !in open ==> !Shows(final, i, name, at)
  {
    if i in open {
      var k :| 0 <= k < |open| && open[k] == i;
      assert OpenAt(frames, open, stack, k, p, end);
      LaterHidden(frames[i].binders, final[i].binders, name, at);
      LastAgrees(stack[k], name, at);
    } else if i < |frames| {
      assert frames[i].span.end <= p;
    } else {
      LaterHidden([], final[i].binders, name, at);
    }
  }

  /** The lookup after the walk gives what the stack gave at the use. */
  lemma {:induction false} UseAgrees(frames: seq<Scope>, open: seq<nat>, stack: Stack, p: int, end: int, final: seq<Scope>, name: string, at: int)
    requires Matches(frames, open, stack, p, end) && p < at <= end && Grown(frames, final, at)
    ensures Lookup(final, name, at) == StackLookup(stack, name, at)
  {
    var w := LookupWins(final, name, at);
    var k := StackAnswers(stack, name, at);
    assert |frames| <= |final|;
    hide Lookup, StackLookup, LastVisible, LastBefore, Grown;
    if StackLookup(stack, name, at).Some? {
      assert OpenAt(frames, open, stack, k, p, end);
      ShownAtUse(frames, open, stack, p, end, final, name, at, open[k]);
      assert Shows(final, open[k], name, at);
      ShownAtUse(frames, open, stack, p, end, final, name, at, w);
    } else if Lookup(final, name, at).Some? {
      ShownAtUse(frames, open, stack, p, end, final, name, at, w);
      assert false;
    }
  }

  // ------------------------------------------------------------------------ the walk ---

  /** Moving on, with everything open still holding the new position. */
  lemma {:induction false} MatchesLater(frames: seq<Scope>, open: seq<nat>, stack: Stack, p: int, q: int, end: int)
    requires Matches(frames, open, stack, p, end) && p <= q
    ensures Matches(frames, open, stack, q, end)
  {
    forall k | 0 <= k < |open| ensures OpenAt(frames, open, stack, k, q, end) {
      assert OpenAt(frames, open, stack, k, p, end);
    }
  }

  lemma {:induction false} GrownLater(a: seq<Scope>, b: seq<Scope>, p: int, q: int)
    requires Grown(a, b, q) && p <= q
    ensures Grown(a, b, p)
  {
    GrownSame(a, p);
    GrownTrans(a, a, b, p, q);
  }

  lemma {:induction false} BindMatches(frames: seq<Scope>, open: seq<nat>, stack: Stack, p: int, end: int, b: Binder)
    requires Matches(frames, open, stack, p, end) && b.at <= b.from && p <= b.from
    ensures Matches(ScopesOf(frames, open, Bind(b.name, b.at, b.from)), open, Bound(stack, b), b.from, end)
    ensures Grown(frames, ScopesOf(frames, open, Bind(b.name, b.at, b.from)), p)
  {
    var after := ScopesOf(frames, open, Bind(b.name, b.at, b.from));
    if open == [] {
      MatchesLater(frames, open, stack, p, b.from, end);
    } else {
      var n := |open| - 1;
      assert OpenAt(frames, open, stack, n, p, end);
      forall k | 0 <= k < |open| ensures OpenAt(after, open, Bound(stack, b), k, b.from, end) {
        assert OpenAt(frames, open, stack, k, p, end);
      }
    }
  }

  /** Entering a scope. */
  lemma {:induction false} EnterMatches(frames: seq<Scope>, open: seq<nat>, stack: Stack, p: int, end: int, span: Span)
    requires Matches(frames, open, stack, p, end) && span.end <= end
    ensures Matches(frames + [Scope(span, |open|, [])], open + [|frames|], stack + [[]], Max(p, span.start - 1), span.end)
    ensures Grown(frames, frames + [Scope(span, |open|, [])], p)
  {
    var inner, entered, deeper, q := frames + [Scope(span, |open|, [])], open + [|frames|], stack + [[]], Max(p, span.start - 1);
    forall k | 0 <= k < |entered| ensures OpenAt(inner, entered, deeper, k, q, span.end) {
      if k < |open| { assert OpenAt(frames, open, stack, k, p, end); }
      forall j | 0 <= j < |entered| && entered[j] == entered[k] ensures j == k {
        if j < |open| { assert OpenAt(frames, open, stack, j, p, end); }
      }
    }
    forall i | 0 <= i < |inner| && i !in entered ensures inner[i].span.end <= q {
      assert i != |frames| by { assert entered[|open|] == |frames|; }
      assert forall k | 0 <= k < |open| :: open[k] == entered[k];
    }
  }

  lemma {:induction false} StackBelow(stack: Stack, top: seq<Binder>, nodes: seq<Node>)
    ensures StackAfter(stack + [top], nodes)[..|stack|] == stack
    decreases |nodes|
  {
    if nodes != [] {
      if nodes[0].Bind? {
        var b := Binder(nodes[0].name, nodes[0].at, nodes[0].from);
        assert Bound(stack + [top], b) == stack + [top + [b]];
        StackBelow(stack, top + [b], nodes[1..]);
      } else {
        StackBelow(stack, top, nodes[1..]);
      }
    }
  }

  /** Leaving a scope: what was inside it is past. */
  lemma {:induction false} LeaveMatches(frames: seq<Scope>, open: seq<nat>, stack: Stack, p: int, end: int, span: Span, after: seq<Scope>,
                                        deeper: Stack, r: int)
    requires Matches(frames, open, stack, p, end) && span.end <= end && p <= span.end && r <= span.end
    requires Matches(after, open + [|frames|], deeper, r, span.end) && Grown(frames + [Scope(span, |open|, [])], after, p)
    requires |deeper| == |stack| + 1 && deeper[..|stack|] == stack
    ensures Matches(after, open, stack, span.end, end)
  {
    var entered := open + [|frames|];
    forall k | 0 <= k < |open| ensures OpenAt(after, open, stack, k, span.end, end) {
      assert OpenAt(frames, open, stack, k, p, end);
      assert OpenAt(after, entered, deeper, k, r, span.end);
      assert entered[k] == open[k] && deeper[k] == deeper[..|stack|][k];
      assert after[open[k]].span == (frames + [Scope(span, |open|, [])])[open[k]].span;
    }
    forall i | 0 <= i < |after| && i !in open ensures after[i].span.end <= span.end {
      if i == |frames| {
        assert after[i].span == (frames + [Scope(span, |open|, [])])[i].span;
      } else {
        assert i !in entered;
      }
    }
  }

  /** One node keeps the two pictures in step. */
  lemma {:induction false} NodeMatches(frames: seq<Scope>, open: seq<nat>, stack: Stack, p: int, end: int, node: Node)
    requires Matches(frames, open, stack, p, end) && Fits(p, node) && Reached(p, node) <= end
    ensures Matches(ScopesOf(frames, open, node), open, StackAfter(stack, [node]), Reached(p, node), end)
    ensures Grown(frames, ScopesOf(frames, open, node), p)
    decreases node, 1
  {
    hide Matches, Grown;
    AfterOne(stack, node);
    match node {
      case Use(_, at) =>
        MatchesLater(frames, open, stack, p, at, end);
        GrownSame(frames, p);
      case Bind(name, at, from) => BindMatches(frames, open, stack, p, end, Binder(name, at, from));
      case Frame(span, items) =>
        var q := Max(p, span.start - 1);
        EnterMatches(frames, open, stack, p, end, span);
        AllMatch(frames + [Scope(span, |open|, [])], open + [|frames|], stack + [[]], q, span.end, items);
        var after := ScopesOf(frames, open, node);
        GrownLater(frames + [Scope(span, |open|, [])], after, p, q);
        StackBelow(stack, [], items);
        LeaveMatches(frames, open, stack, p, end, span, after, StackAfter(stack + [[]], items), ReachedAll(q, items));
        GrownTrans(frames, frames + [Scope(span, |open|, [])], after, p, p);
    }
  }

  lemma {:induction false} AfterOne(stack: Stack, node: Node)
    ensures StackAfter(stack, [node]) == if node.Bind? then Bound(stack, Binder(node.name, node.at, node.from)) else stack
  {
    var none: seq<Node> := [];
    assert [node][1..] == none;
  }

  lemma {:induction false} StackStep(stack: Stack, nodes: seq<Node>)
    requires nodes != []
    ensures StackAfter(stack, nodes) == StackAfter(StackAfter(stack, [nodes[0]]), nodes[1..])
  {
    AfterOne(stack, nodes[0]);
  }

  lemma {:induction false} AllMatch(frames: seq<Scope>, open: seq<nat>, stack: Stack, p: int, end: int, nodes: seq<Node>)
    requires Matches(frames, open, stack, p, end) && FitsAll(p, nodes) && ReachedAll(p, nodes) <= end
    ensures Matches(ScopesAfter(frames, open, nodes), open, StackAfter(stack, nodes), ReachedAll(p, nodes), end)
    ensures Grown(frames, ScopesAfter(frames, open, nodes), p)
    decreases nodes, 0
  {
    hide Matches, Grown;
    if nodes == [] {
      GrownSame(frames, p);
    } else {
      var q := Reached(p, nodes[0]);
      ReachedGrows(q, nodes[1..]);
      FitReaches(p, nodes[0]);
      StackStep(stack, nodes);
      NodeMatches(frames, open, stack, p, end, nodes[0]);
      AllMatch(ScopesOf(frames, open, nodes[0]), open, StackAfter(stack, [nodes[0]]), q, end, nodes[1..]);
      GrownTrans(frames, ScopesOf(frames, open, nodes[0]), ScopesAfter(frames, open, nodes), p, q);
    }
  }

  lemma {:induction false} FitReaches(p: int, node: Node)
    requires Fits(p, node)
    ensures p <= Reached(p, node)
  {
  }

  ghost predicate AllAgree(uses: seq<Resolved>, final: seq<Scope>) {
    forall i | 0 <= i < |uses| :: uses[i].binder == Lookup(final, uses[i].name, uses[i].at)
  }

  lemma {:induction false} NodeAgrees(frames: seq<Scope>, open: seq<nat>, stack: Stack, p: int, end: int, node: Node, final: seq<Scope>)
    requires Matches(frames, open, stack, p, end) && Fits(p, node) && Reached(p, node) <= end
    requires Grown(ScopesOf(frames, open, node), final, Reached(p, node))
    ensures AllAgree(UsesOf(stack, node), final)
    decreases node, 1
  {
    match node {
      case Use(name, at) => UseAgrees(frames, open, stack, p, end, final, name, at);
      case Bind(_, _, _) =>
      case Frame(span, items) =>
        var q := Max(p, span.start - 1);
        EnterMatches(frames, open, stack, p, end, span);
        GrownLater(ScopesOf(frames, open, node), final, ReachedAll(q, items), span.end);
        AllNodesAgree(frames + [Scope(span, |open|, [])], open + [|frames|], stack + [[]], q, span.end, items, final);
    }
    hide Matches, Grown, Lookup, StackLookup;
  }

  lemma {:induction false} AllNodesAgree(frames: seq<Scope>, open: seq<nat>, stack: Stack, p: int, end: int, nodes: seq<Node>, final: seq<Scope>)
    requires Matches(frames, open, stack, p, end) && FitsAll(p, nodes) && ReachedAll(p, nodes) <= end
    requires Grown(ScopesAfter(frames, open, nodes), final, ReachedAll(p, nodes))
    ensures AllAgree(Uses(stack, nodes), final)
    decreases nodes, 0
  {
    hide Matches, Grown, Lookup, StackLookup;
    if nodes != [] {
      var q := Reached(p, nodes[0]);
      var after := ScopesOf(frames, open, nodes[0]);
      ReachedGrows(q, nodes[1..]);
      NodeMatches(frames, open, stack, p, end, nodes[0]);
      AllMatch(after, open, StackAfter(stack, [nodes[0]]), q, end, nodes[1..]);
      GrownTrans(after, ScopesAfter(frames, open, nodes), final, q, ReachedAll(p, nodes));
      NodeAgrees(frames, open, stack, p, end, nodes[0], final);
      AllNodesAgree(after, open, StackAfter(stack, [nodes[0]]), q, end, nodes[1..], final);
    }
  }

  /** The whole walk of a well-placed tree: every use resolves alike during and after it. */
  lemma {:induction false} WalkAgrees(p: int, nodes: seq<Node>)
    requires FitsAll(p, nodes)
    ensures AllAgree(Uses([], nodes), ScopesAfter([], [], nodes))
  {
    var end := ReachedAll(p, nodes);
    GrownSame(ScopesAfter([], [], nodes), end);
    AllNodesAgree([], [], [], p, end, nodes, ScopesAfter([], [], nodes));
  }

  // -------------------------------------------------------------------- well-formed ---

  ghost predicate Before(a: int, s: Span, end: int) {
    a < s.start && s.start <= s.end <= end
  }

  /** Siblings come in source order, strictly separated, from after `p` up to `end`. */
  ghost predicate ListOk(p: int, nodes: seq<Syntax>, end: int)
    decreases nodes, 0
  {
    nodes == [] || (Before(p, nodes[0].span, end) && Ok(nodes[0]) && ListOk(nodes[0].span.end, nodes[1..], end))
  }

  ghost predicate TokensOk(p: int, tokens: seq<Token>, end: int)
    decreases tokens
  {
    tokens == [] || (p < tokens[0].at < end && TokensOk(tokens[0].at, tokens[1..], end))
  }

  ghost predicate ChainOk(p: int, chain: seq<Entry>, end: int)
    decreases chain, 0
  {
    chain == [] ||
    (var e := chain[0];
     && Before(p, e.span, end)
     && ListOk(e.span.start - 1, e.calls, e.span.end)
     && (e.binding.Some? ==> e.span.start <= e.binding.value.at < e.span.end)
     && ChainOk(e.span.end, chain[1..], end))
  }

  function LastEnd(p: int, nodes: seq<Syntax>): int {
    if nodes == [] then p else nodes[|nodes| - 1].span.end
  }

  function LastChain(p: int, chain: seq<Entry>): int {
    if chain == [] then p else chain[|chain| - 1].span.end
  }

  function LastToken(p: int, tokens: seq<Token>): int {
    if tokens == [] then p else tokens[|tokens| - 1].at
  }

  /** Spans nest, and children come in source order with their siblings separated. */
  ghost predicate Ok(node: Syntax)
    decreases node, 1
  {
    var lo, end := node.span.start - 1, node.span.end;
    match node
    case Name(span, _) => span.start < span.end
    case Binding(span, token, value) => span.start <= token.at < span.end && Before(lo, value.span, end) && Ok(value)
    case Block(_, steps) => ListOk(lo, steps, end)
    case Match(_, values, chain, whens, arms) =>
      var a := LastEnd(lo, values);
      var b := LastChain(a, chain);
      ListOk(lo, values, end) && ChainOk(a, chain, end) && ListOk(b, whens, end) && ListOk(LastEnd(b, whens), arms, end)
    case Arm(_, patterns, body) => TokensOk(lo, patterns, end) && Before(LastToken(lo, patterns), body.span, end) && Ok(body)
    case Compound(_, parts) => ListOk(lo, parts, end)
    case Function(_, inputs, body, assertions) =>
      TokensOk(lo, inputs, end) && Before(LastToken(lo, inputs), body.span, end) && Ok(body)
      && ListOk(body.span.end, assertions, end)
  }

  // ----------------------------------------------------------------- trees that fit ---

  lemma {:induction false} FitsAppend(p: int, a: seq<Node>, b: seq<Node>)
    ensures ReachedAll(p, a + b) == ReachedAll(ReachedAll(p, a), b)
    ensures FitsAll(p, a + b) <==> FitsAll(p, a) && FitsAll(ReachedAll(p, a), b)
    decreases |a|
  {
    if a == [] {
      assert a + b == b;
    } else {
      assert (a + b)[0] == a[0] && (a + b)[1..] == a[1..] + b;
      FitsAppend(Reached(p, a[0]), a[1..], b);
    }
  }

  /** The nodes fit after p and end by `end`. */
  ghost predicate Placed(p: int, nodes: seq<Node>, end: int) {
    FitsAll(p, nodes) && ReachedAll(p, nodes) <= end
  }

  lemma {:induction false} PlacedAppend(p: int, a: seq<Node>, q: int, b: seq<Node>, end: int)
    requires Placed(p, a, q) && Placed(q, b, end)
    ensures Placed(p, a + b, end)
  {
    FitsAppend(p, a, b);
    PlacedEarlier(ReachedAll(p, a), q, b, end);
  }

  /** Starting earlier does no harm, as long as where the walk ends up does not depend on it. */
  lemma {:induction false} PlacedEarlier(p: int, q: int, nodes: seq<Node>, end: int)
    requires p <= q && Placed(q, nodes, end)
    ensures Placed(p, nodes, end)
  {
    FitsEarlier(p, q, nodes);
    if nodes == [] {
    } else {
      ReachedFrom(p, q, nodes);
    }
  }

  lemma {:induction false} ReachedFrom(p: int, q: int, nodes: seq<Node>)
    requires nodes != []
    ensures ReachedAll(p, nodes) == ReachedAll(q, nodes)
  {
  }

  lemma {:induction false} FitsEarlier(p: int, q: int, nodes: seq<Node>)
    requires p <= q && FitsAll(q, nodes)
    ensures FitsAll(p, nodes)
    decreases nodes, 0
  {
    if nodes != [] {
      FitEarlier(p, q, nodes[0]);
      assert Reached(p, nodes[0]) == Reached(q, nodes[0]);
    }
  }

  lemma {:induction false} FitEarlier(p: int, q: int, node: Node)
    requires p <= q && Fits(q, node)
    ensures Fits(p, node)
    decreases node, 1
  {
    if node.Frame? {
      var s := node.span;
      FitsEarlier(Max(p, s.start - 1), Max(q, s.start - 1), node.items);
      FrameReach(Max(p, s.start - 1), Max(q, s.start - 1), node.items);
    }
  }

  lemma {:induction false} FrameReach(p: int, q: int, items: seq<Node>)
    requires p <= q
    ensures ReachedAll(p, items) <= ReachedAll(q, items)
  {
    if items != [] { ReachedFrom(p, q, items); }
  }

  lemma {:induction false} TokensPlaced(p: int, tokens: seq<Token>, end: int)
    requires TokensOk(p, tokens, end)
    ensures Placed(p, Tokens(tokens), LastToken(p, tokens)) && p <= LastToken(p, tokens)
    ensures tokens != [] ==> LastToken(p, tokens) < end
    decreases tokens
  {
    if tokens != [] {
      var first := Bind(tokens[0].name, tokens[0].at, tokens[0].at);
      TokensPlaced(tokens[0].at, tokens[1..], end);
      OnePlaced(p, first, tokens[0].at);
      PlacedAppend(p, [first], tokens[0].at, Tokens(tokens[1..]), LastToken(p, tokens));
    }
  }

  lemma {:induction false} OnePlaced(p: int, node: Node, end: int)
    requires Fits(p, node) && Reached(p, node) <= end
    ensures Placed(p, [node], end)
  {
    var none: seq<Node> := [];
    assert [node][1..] == none;
  }

  lemma {:induction false} ListPlaced(p: int, nodes: seq<Syntax>, end: int)
    requires ListOk(p, nodes, end)
    ensures Placed(p, ShapeAll(nodes), LastEnd(p, nodes)) && p <= LastEnd(p, nodes) && (nodes != [] ==> LastEnd(p, nodes) <= end)
    decreases nodes, 0
  {
    if nodes != [] {
      TreePlaced(p, nodes[0]);
      ListPlaced(nodes[0].span.end, nodes[1..], end);
      PlacedAppend(p, Shape(nodes[0]), nodes[0].span.end, ShapeAll(nodes[1..]), LastEnd(p, nodes));
    }
  }

  lemma {:induction false} ChainPlaced(p: int, chain: seq<Entry>, end: int)
    requires ChainOk(p, chain, end)
    ensures Placed(p, ChainShape(chain), LastChain(p, chain)) && p <= LastChain(p, chain) && (chain != [] ==> LastChain(p, chain) <= end)
    decreases chain, 0
  {
    if chain != [] {
      var e := chain[0];
      ListPlaced(e.span.start - 1, e.calls, e.span.end);
      PlacedEarlier(p, e.span.start - 1, ShapeAll(e.calls), LastEnd(e.span.start - 1, e.calls));
      BindingPlaced(LastEnd(e.span.start - 1, e.calls), e);
      PlacedAppend(p, ShapeAll(e.calls), LastEnd(e.span.start - 1, e.calls), BindingShape(e), e.span.end);
      ChainPlaced(e.span.end, chain[1..], end);
      PlacedAppend(p, EntryShape(e), e.span.end, ChainShape(chain[1..]), LastChain(p, chain));
    }
  }

  function BindingShape(e: Entry): seq<Node> {
    match e.binding case None => [] case Some(t) => [Bind(t.name, t.at, e.span.end)]
  }

  lemma {:induction false} BindingPlaced(p: int, e: Entry)
    requires p <= e.span.end && (e.binding.Some? ==> e.binding.value.at <= e.span.end)
    ensures Placed(p, BindingShape(e), e.span.end)
  {
    if e.binding.Some? {
      OnePlaced(p, Bind(e.binding.value.name, e.binding.value.at, e.span.end), e.span.end);
    }
  }

  /** A scope around what is placed inside its span. */
  lemma {:induction false} FramePlaced(p: int, span: Span, q: int, items: seq<Node>)
    requires p <= q && span.start - 1 <= q && p <= span.end && Placed(q, items, span.end)
    ensures Placed(p, [Frame(span, items)], span.end)
  {
    PlacedEarlier(Max(p, span.start - 1), q, items, span.end);
    OnePlaced(p, Frame(span, items), span.end);
  }

  lemma {:induction false} PlacedWithin(p: int, nodes: seq<Node>, q: int, end: int)
    requires Placed(p, nodes, q) && q <= end
    ensures Placed(p, nodes, end)
  {
  }

  /** A well-formed tree is walked in place. */
  lemma {:induction false} TreePlaced(p: int, node: Syntax)
    requires Ok(node) && p < node.span.start <= node.span.end
    ensures Placed(p, Shape(node), node.span.end)
    decreases node, 1
  {
    var lo, end := node.span.start - 1, node.span.end;
    hide Placed, FitsAll, ReachedAll;
    match node {
      case Name(span, name) => OnePlaced(p, Use(name, span.start), end);
      case Binding(span, token, value) =>
        TreePlaced(lo, value);
        PlacedEarlier(p, lo, Shape(value), value.span.end);
        OnePlaced(value.span.end, Bind(token.name, token.at, span.end), end);
        PlacedAppend(p, Shape(value), value.span.end, [Bind(token.name, token.at, span.end)], end);
      case Block(span, steps) =>
        ListPlaced(lo, steps, end);
        PlacedWithin(lo, ShapeAll(steps), LastEnd(lo, steps), end);
        FramePlaced(p, span, lo, ShapeAll(steps));
      case Match(_, _, _, _, _) => MatchPlaced(p, node);
      case Arm(span, patterns, body) =>
        TokensPlaced(lo, patterns, end);
        TreePlaced(LastToken(lo, patterns), body);
        PlacedAppend(lo, Tokens(patterns), LastToken(lo, patterns), Shape(body), body.span.end);
        PlacedWithin(lo, Tokens(patterns) + Shape(body), body.span.end, end);
        FramePlaced(p, span, lo, Tokens(patterns) + Shape(body));
      case Compound(_, parts) =>
        ListPlaced(lo, parts, end);
        PlacedEarlier(p, lo, ShapeAll(parts), LastEnd(lo, parts));
        PlacedWithin(p, ShapeAll(parts), LastEnd(lo, parts), end);
      case Function(span, inputs, body, assertions) =>
        TokensPlaced(lo, inputs, end);
        TreePlaced(LastToken(lo, inputs), body);
        ListPlaced(body.span.end, assertions, end);
        PlacedAppend(lo, Tokens(inputs), LastToken(lo, inputs), Shape(body), body.span.end);
        PlacedAppend(lo, Tokens(inputs) + Shape(body), body.span.end, ShapeAll(assertions), LastEnd(body.span.end, assertions));
        PlacedWithin(lo, Tokens(inputs) + Shape(body) + ShapeAll(assertions), LastEnd(body.span.end, assertions), end);
        FramePlaced(p, span, lo, Tokens(inputs) + Shape(body) + ShapeAll(assertions));
    }
  }

  /** The values of a match are walked before its scope is entered, though inside its span. */
  lemma {:induction false} MatchPlaced(p: int, node: Syntax)
    requires node.Match? && Ok(node) && p < node.span.start <= node.span.end
    ensures Placed(p, Shape(node), node.span.end)
    decreases node, 0
  {
    hide Placed, FitsAll, ReachedAll;
    var lo, end := node.span.start - 1, node.span.end;
    var a := LastEnd(lo, node.values);
    var b := LastChain(a, node.chain);
    var c := LastEnd(b, node.whens);
    ListPlaced(lo, node.values, end);
    ChainPlaced(a, node.chain, end);
    ListPlaced(b, node.whens, end);
    ListPlaced(c, node.arms, end);
    var inner := ChainShape(node.chain) + ShapeAll(node.whens);
    PlacedAppend(a, ChainShape(node.chain), b, ShapeAll(node.whens), c);
    PlacedAppend(a, inner, c, ShapeAll(node.arms), LastEnd(c, node.arms));
    PlacedWithin(a, inner + ShapeAll(node.arms), LastEnd(c, node.arms), end);
    FramePlaced(a, node.span, a, inner + ShapeAll(node.arms));
    PlacedEarlier(p, lo, ShapeAll(node.values), a);
    PlacedAppend(p, ShapeAll(node.values), a, [Frame(node.span, inner + ShapeAll(node.arms))], end);
  }

  /** For every well-formed list of declarations, the two ways to resolve local names agree on
      every use. */
  lemma {:induction false} ResolversAgree(declarations: seq<Syntax>, p: int, end: int)
    requires ListOk(p, declarations, end)
    ensures AllAgree(Uses([], ShapeAll(declarations)), ScopesAfter([], [], ShapeAll(declarations)))
  {
    ListPlaced(p, declarations, end);
    WalkAgrees(p, ShapeAll(declarations));
  }

  // -------------------------------------------------------------------- composition ---

  lemma {:induction false} StackAppend(stack: Stack, a: seq<Node>, b: seq<Node>)
    ensures StackAfter(stack, a + b) == StackAfter(StackAfter(stack, a), b)
    decreases |a|
  {
    if a == [] {
      assert a + b == b;
    } else {
      assert (a + b)[0] == a[0] && (a + b)[1..] == a[1..] + b;
      StackStep(stack, a);
      StackStep(stack, a + b);
      StackAppend(StackAfter(stack, [a[0]]), a[1..], b);
    }
  }

  lemma {:induction false} UsesAppend(stack: Stack, a: seq<Node>, b: seq<Node>)
    ensures Uses(stack, a + b) == Uses(stack, a) + Uses(StackAfter(stack, a), b)
    decreases |a|
  {
    if a == [] {
      assert a + b == b;
    } else {
      assert (a + b)[0] == a[0] && (a + b)[1..] == a[1..] + b;
      StackStep(stack, a);
      UsesAppend(StackAfter(stack, [a[0]]), a[1..], b);
    }
  }

  lemma {:induction false} ScopesAppend(frames: seq<Scope>, open: seq<nat>, a: seq<Node>, b: seq<Node>)
    ensures ScopesAfter(frames, open, a + b) == ScopesAfter(ScopesAfter(frames, open, a), open, b)
    decreases |a|
  {
    if a == [] {
      assert a + b == b;
    } else {
      assert (a + b)[0] == a[0] && (a + b)[1..] == a[1..] + b;
      ScopesAppend(ScopesOf(frames, open, a[0]), open, a[1..], b);
    }
  }

  lemma {:induction false} OneNode(stack: Stack, frames: seq<Scope>, open: seq<nat>, node: Node)
    ensures Uses(stack, [node]) == UsesOf(stack, node) && ScopesAfter(frames, open, [node]) == ScopesOf(frames, open, node)
  {
    var none: seq<Node> := [];
    assert [node][1..] == none;
    assert Uses(StackAfter(stack, [node]), none) == [] && ScopesAfter(ScopesOf(frames, open, node), open, none) == ScopesOf(frames, open, node);
  }

  lemma {:induction false} ShapeLast(nodes: seq<Syntax>, i: nat)
    requires i < |nodes|
    ensures ShapeAll(nodes[..i + 1]) == ShapeAll(nodes[..i]) + Shape(nodes[i])
    decreases i
  {
    var none: seq<Syntax> := [];
    if i == 0 {
      assert nodes[..1] == [nodes[0]] && nodes[..1][1..] == none && nodes[..0] == none;
    } else {
      assert nodes[..i + 1][1..] == nodes[1..][..i] && nodes[..i][1..] == nodes[1..][..i - 1];
      ShapeLast(nodes[1..], i - 1);
    }
  }

  lemma {:induction false} ChainLast(chain: seq<Entry>, i: nat)
    requires i < |chain|
    ensures ChainShape(chain[..i + 1]) == ChainShape(chain[..i]) + EntryShape(chain[i])
    decreases i
  {
    var none: seq<Entry> := [];
    if i == 0 {
      assert chain[..1] == [chain[0]] && chain[..1][1..] == none && chain[..0] == none;
    } else {
      assert chain[..i + 1][1..] == chain[1..][..i] && chain[..i][1..] == chain[1..][..i - 1];
      ChainLast(chain[1..], i - 1);
    }
  }

  lemma {:induction false} TokensLast(tokens: seq<Token>, i: nat)
    requires i < |tokens|
    ensures Tokens(tokens[..i + 1]) == Tokens(tokens[..i]) + [Bind(tokens[i].name, tokens[i].at, tokens[i].at)]
    decreases i
  {
    var none: seq<Token> := [];
    if i == 0 {
      assert tokens[..1] == [tokens[0]] && tokens[..1][1..] == none && tokens[..0] == none;
    } else {
      assert tokens[..i + 1][1..] == tokens[1..][..i] && tokens[..i][1..] == tokens[1..][..i - 1];
      TokensLast(tokens[1..], i - 1);
    }
  }
}
