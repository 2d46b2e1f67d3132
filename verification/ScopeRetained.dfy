/** The scopes that outlive the walk: one for each construct that has a scope, holding exactly the
    names it declares. */
module ScopeRetained {
  import opened Wrappers
  import opened Rename
  import opened Scopes
  import opened ScopesAgree
  import opened ScopeMeaning

  /** The scopes of a tree, outermost first and in source order, but for the values of a match,
      which come before its own scope. */
  function Retained(node: Syntax, depth: nat): seq<Scope>
    decreases node, 1
  {
    match node
    case Name(_, _) => []
    case Binding(_, _, value) => Retained(value, depth)
    case Block(span, steps) => [Scope(span, depth, StepBinders(steps))] + RetainedAll(steps, depth + 1)
    case Match(span, values, chain, whens, arms) =>
      RetainedAll(values, depth)
      + ([Scope(span, depth, EntryBinders(chain))] + RetainedChain(chain, depth + 1) + RetainedAll(whens, depth + 1) + RetainedAll(arms, depth + 1))
    case Arm(span, patterns, body) => [Scope(span, depth, TokenBinders(patterns))] + Retained(body, depth + 1)
    case Compound(_, parts) => RetainedAll(parts, depth)
    case Function(span, inputs, body, assertions) =>
      [Scope(span, depth, TokenBinders(inputs))] + Retained(body, depth + 1) + RetainedAll(assertions, depth + 1)
  }

  function RetainedAll(nodes: seq<Syntax>, depth: nat): seq<Scope>
    decreases nodes, 0
  {
    if nodes == [] then [] else RetainedAll(nodes[..|nodes| - 1], depth) + Retained(nodes[|nodes| - 1], depth)
  }

  function RetainedChain(chain: seq<Entry>, depth: nat): seq<Scope>
    decreases chain, 0
  {
    if chain == [] then [] else RetainedChain(chain[..|chain| - 1], depth) + RetainedAll(chain[|chain| - 1].calls, depth)
  }

  /** The i-th scope gets more names. */
  function Grow(frames: seq<Scope>, i: nat, binders: seq<Binder>): (grown: seq<Scope>)
    requires i < |frames|
    ensures |grown| == |frames|
  {
    frames[i := frames[i].(binders := frames[i].binders + binders)]
  }

  lemma {:induction false} GrowTwice(frames: seq<Scope>, i: nat, a: seq<Binder>, b: seq<Binder>, more: seq<Scope>)
    requires i < |frames|
    ensures Grow(Grow(frames, i, a) + more, i, b) == Grow(frames, i, a + b) + more
  {
    assert frames[i].binders + a + b == frames[i].binders + (a + b);
  }

  lemma {:induction false} GrowNothing(frames: seq<Scope>, i: nat)
    requires i < |frames|
    ensures Grow(frames, i, []) == frames
  {
    assert frames[i].binders + [] == frames[i].binders;
  }

  lemma {:induction false} GrowFresh(frames: seq<Scope>, span: Span, depth: nat, binders: seq<Binder>)
    ensures Grow(frames + [Scope(span, depth, [])], |frames|, binders) == frames + [Scope(span, depth, binders)]
  {
    assert [] + binders == binders;
  }

  // ------------------------------------------------------------------------ the walk ---

  lemma {:induction false} FrameRetained(frames: seq<Scope>, open: seq<nat>, span: Span, items: seq<Node>)
    ensures ScopesAfter(frames, open, [Frame(span, items)]) == ScopesAfter(frames + [Scope(span, |open|, [])], open + [|frames|], items)
  {
    OneNode([], frames, open, Frame(span, items));
  }

  lemma {:induction false} BindRetained(frames: seq<Scope>, open: seq<nat>, i: nat, b: Binder)
    requires open != [] && open[|open| - 1] == i < |frames|
    ensures ScopesAfter(frames, open, [Bind(b.name, b.at, b.from)]) == Grow(frames, i, [b])
  {
    OneNode([], frames, open, Bind(b.name, b.at, b.from));
  }

  lemma {:induction false} TokensRetained(frames: seq<Scope>, open: seq<nat>, i: nat, tokens: seq<Token>)
    requires open != [] && open[|open| - 1] == i < |frames|
    ensures ScopesAfter(frames, open, Tokens(tokens)) == Grow(frames, i, TokenBinders(tokens))
    decreases |tokens|
  {
    if tokens == [] {
      GrowNothing(frames, i);
    } else {
      var n := |tokens| - 1;
      var before, b := tokens[..n], Binder(tokens[n].name, tokens[n].at, tokens[n].at);
      TokensLast(tokens, n);
      assert tokens[..n + 1] == tokens;
      ScopesAppend(frames, open, Tokens(before), [Bind(b.name, b.at, b.from)]);
      TokensRetained(frames, open, i, before);
      BindRetained(Grow(frames, i, TokenBinders(before)), open, i, b);
      GrowTwice(frames, i, TokenBinders(before), [b], []);
      assert TokenBinders(before) + [b] == TokenBinders(tokens);
      assert Grow(frames, i, TokenBinders(before)) + [] == Grow(frames, i, TokenBinders(before));
      assert Grow(frames, i, TokenBinders(tokens)) + [] == Grow(frames, i, TokenBinders(tokens));
    }
  }

  /** A node leaves the scopes it finds as they are, and adds its own. */
  lemma {:induction false} InnerRetained(frames: seq<Scope>, open: seq<nat>, node: Syntax)
    requires Inner(node)
    ensures ScopesAfter(frames, open, Shape(node)) == frames + Retained(node, |open|)
    decreases node, 2
  {
    match node {
      case Name(span, name) =>
        OneNode([], frames, open, Use(name, span.start));
        assert frames + [] == frames;
      case Compound(_, parts) => ListRetained(frames, open, parts);
      case Block(span, steps) =>
        var inside, entered := frames + [Scope(span, |open|, [])], open + [|frames|];
        FrameRetained(frames, open, span, ShapeAll(steps));
        StepsRetained(inside, entered, |frames|, steps);
        GrowFresh(frames, span, |open|, StepBinders(steps));
        assert frames + [Scope(span, |open|, StepBinders(steps))] + RetainedAll(steps, |open| + 1)
            == frames + ([Scope(span, |open|, StepBinders(steps))] + RetainedAll(steps, |open| + 1));
      case Match(_, _, _, _, _) => MatchRetained(frames, open, node);
      case Arm(_, _, _) => ArmRetained(frames, open, node);
      case Function(_, _, _, _) => FunctionRetained(frames, open, node);
    }
  }

  lemma {:induction false} ArmRetained(frames: seq<Scope>, open: seq<nat>, node: Syntax)
    requires node.Arm? && Parsed(node)
    ensures ScopesAfter(frames, open, Shape(node)) == frames + Retained(node, |open|)
    decreases node, 1
  {
    var inside, entered := frames + [Scope(node.span, |open|, [])], open + [|frames|];
    FrameRetained(frames, open, node.span, Tokens(node.patterns) + Shape(node.body));
    ScopesAppend(inside, entered, Tokens(node.patterns), Shape(node.body));
    TokensRetained(inside, entered, |frames|, node.patterns);
    GrowFresh(frames, node.span, |open|, TokenBinders(node.patterns));
    var own := [Scope(node.span, |open|, TokenBinders(node.patterns))];
    InnerRetained(frames + own, entered, node.body);
    assert frames + own + Retained(node.body, |open| + 1) == frames + (own + Retained(node.body, |open| + 1));
  }

  lemma {:induction false} FunctionRetained(frames: seq<Scope>, open: seq<nat>, node: Syntax)
    requires node.Function? && Parsed(node)
    ensures ScopesAfter(frames, open, Shape(node)) == frames + Retained(node, |open|)
    decreases node, 1
  {
    var inside, entered := frames + [Scope(node.span, |open|, [])], open + [|frames|];
    var a, b, c := Tokens(node.inputs), Shape(node.body), ShapeAll(node.assertions);
    FunctionShape(node);
    RetainedFunction(node, |open|);
    assert Inner(node.body) && AllInner(node.assertions);
    hide *;
    FrameRetained(frames, open, node.span, a + b + c);
    ScopesAppend(inside, entered, a + b, c);
    ScopesAppend(inside, entered, a, b);
    TokensRetained(inside, entered, |frames|, node.inputs);
    GrowFresh(frames, node.span, |open|, TokenBinders(node.inputs));
    var own := [Scope(node.span, |open|, TokenBinders(node.inputs))];
    var afterBody := frames + own + Retained(node.body, |open| + 1);
    InnerRetained(frames + own, entered, node.body);
    ListRetained(afterBody, entered, node.assertions);
    RegroupThree(frames, own, Retained(node.body, |open| + 1), RetainedAll(node.assertions, |open| + 1));
  }

  lemma {:induction false} RegroupThree(a: seq<Scope>, b: seq<Scope>, c: seq<Scope>, d: seq<Scope>)
    ensures a + b + c + d == a + (b + c + d)
  {
  }

  lemma {:induction false} RetainedFunction(node: Syntax, depth: nat)
    requires node.Function?
    ensures Retained(node, depth)
         == [Scope(node.span, depth, TokenBinders(node.inputs))] + Retained(node.body, depth + 1) + RetainedAll(node.assertions, depth + 1)
  {
  }

  lemma {:induction false} MatchRetained(frames: seq<Scope>, open: seq<nat>, node: Syntax)
    requires node.Match? && Parsed(node)
    ensures ScopesAfter(frames, open, Shape(node)) == frames + Retained(node, |open|)
    decreases node, 1
  {
    MatchShape(node);
    InnerParts(node);
    RetainedMatch(node, |open|);
    hide *;
    var start := frames + RetainedAll(node.values, |open|);
    var inside, entered, d := start + [Scope(node.span, |open|, [])], open + [|start|], |open| + 1;
    var a, b, c := ChainShape(node.chain), ShapeAll(node.whens), ShapeAll(node.arms);
    ListRetained(frames, open, node.values);
    ScopesAppend(frames, open, ShapeAll(node.values), [Frame(node.span, a + b + c)]);
    FrameRetained(start, open, node.span, a + b + c);
    ScopesAppend(inside, entered, a + b, c);
    ScopesAppend(inside, entered, a, b);
    ChainRetained(inside, entered, |start|, node.chain);
    GrowFresh(start, node.span, |open|, EntryBinders(node.chain));
    var own := [Scope(node.span, |open|, EntryBinders(node.chain))];
    var afterChain := start + own + RetainedChain(node.chain, d);
    ListRetained(afterChain, entered, node.whens);
    ListRetained(afterChain + RetainedAll(node.whens, d), entered, node.arms);
    Regroup(frames, RetainedAll(node.values, |open|), own, RetainedChain(node.chain, d), RetainedAll(node.whens, d), RetainedAll(node.arms, d));
  }

  lemma {:induction false} Regroup(a: seq<Scope>, b: seq<Scope>, c: seq<Scope>, d: seq<Scope>, e: seq<Scope>, f: seq<Scope>)
    ensures a + b + c + d + e + f == a + (b + (c + d + e + f))
  {
  }

  lemma {:induction false} RetainedMatch(node: Syntax, depth: nat)
    requires node.Match?
    ensures Retained(node, depth)
         == RetainedAll(node.values, depth)
            + ([Scope(node.span, depth, EntryBinders(node.chain))] + RetainedChain(node.chain, depth + 1)
               + RetainedAll(node.whens, depth + 1) + RetainedAll(node.arms, depth + 1))
  {
  }

  lemma {:induction false} ListRetained(frames: seq<Scope>, open: seq<nat>, nodes: seq<Syntax>)
    requires AllInner(nodes)
    ensures ScopesAfter(frames, open, ShapeAll(nodes)) == frames + RetainedAll(nodes, |open|)
    decreases nodes, 0
  {
    if nodes == [] {
      assert frames + [] == frames;
    } else {
      var n := |nodes| - 1;
      var before := nodes[..n];
      assert Inner(nodes[n]);
      assert AllInner(before) by { assert forall i | 0 <= i < n :: before[i] == nodes[i]; }
      ShapeLast(nodes, n);
      assert nodes[..n + 1] == nodes;
      ScopesAppend(frames, open, ShapeAll(before), Shape(nodes[n]));
      ListRetained(frames, open, before);
      InnerRetained(frames + RetainedAll(before, |open|), open, nodes[n]);
      assert frames + RetainedAll(before, |open|) + Retained(nodes[n], |open|) == frames + (RetainedAll(before, |open|) + Retained(nodes[n], |open|));
    }
  }

  /** The steps of a block give its scope their names. */
  lemma {:induction false} StepsRetained(frames: seq<Scope>, open: seq<nat>, i: nat, steps: seq<Syntax>)
    requires open != [] && open[|open| - 1] == i < |frames| && forall j | 0 <= j < |steps| :: Parsed(steps[j])
    ensures ScopesAfter(frames, open, ShapeAll(steps)) == Grow(frames, i, StepBinders(steps)) + RetainedAll(steps, |open|)
    decreases steps, 0
  {
    if steps == [] {
      GrowNothing(frames, i);
      assert frames + [] == frames;
    } else {
      var n := |steps| - 1;
      var before := steps[..n];
      ShapeLast(steps, n);
      assert steps[..n + 1] == steps;
      ScopesAppend(frames, open, ShapeAll(before), Shape(steps[n]));
      StepsRetained(frames, open, i, before);
      StepRetained(frames, open, i, StepBinders(before), RetainedAll(before, |open|), steps[n]);
    }
  }

  lemma {:induction false} StepRetained(frames: seq<Scope>, open: seq<nat>, i: nat, top: seq<Binder>, more: seq<Scope>, step: Syntax)
    requires open != [] && open[|open| - 1] == i < |frames| && Parsed(step)
    ensures ScopesAfter(Grow(frames, i, top) + more, open, Shape(step))
         == Grow(frames, i, top + if step.Binding? then [Binder(step.token.name, step.token.at, step.span.end)] else []) + (more + Retained(step, |open|))
    decreases step, 3
  {
    var start := Grow(frames, i, top) + more;
    if step.Binding? {
      BindingRetained(start, open, i, step);
      assert start + Retained(step.value, |open|) == Grow(frames, i, top) + (more + Retained(step.value, |open|));
      GrowTwice(frames, i, top, [Binder(step.token.name, step.token.at, step.span.end)], more + Retained(step.value, |open|));
    } else {
      InnerRetained(start, open, step);
      assert top + [] == top;
      assert start + Retained(step, |open|) == Grow(frames, i, top) + (more + Retained(step, |open|));
    }
    hide ScopesAfter, Shape, Grow;
  }

  lemma {:induction false} BindingRetained(start: seq<Scope>, open: seq<nat>, i: nat, step: Syntax)
    requires open != [] && open[|open| - 1] == i < |start| && step.Binding? && Parsed(step)
    ensures ScopesAfter(start, open, Shape(step))
         == Grow(start + Retained(step.value, |open|), i, [Binder(step.token.name, step.token.at, step.span.end)])
    decreases step, 0
  {
    var b := Binder(step.token.name, step.token.at, step.span.end);
    ScopesAppend(start, open, Shape(step.value), [Bind(b.name, b.at, b.from)]);
    InnerRetained(start, open, step.value);
    BindRetained(start + Retained(step.value, |open|), open, i, b);
  }

  /** The entries of a chain give the match's scope their names. */
  lemma {:induction false} ChainRetained(frames: seq<Scope>, open: seq<nat>, i: nat, chain: seq<Entry>)
    requires open != [] && open[|open| - 1] == i < |frames| && forall j | 0 <= j < |chain| :: AllInner(chain[j].calls)
    ensures ScopesAfter(frames, open, ChainShape(chain)) == Grow(frames, i, EntryBinders(chain)) + RetainedChain(chain, |open|)
    decreases chain, 0
  {
    if chain == [] {
      GrowNothing(frames, i);
      assert frames + [] == frames;
    } else {
      var n := |chain| - 1;
      var before, e := chain[..n], chain[n];
      ChainLast(chain, n);
      assert chain[..n + 1] == chain;
      ScopesAppend(frames, open, ChainShape(before), EntryShape(e));
      ChainRetained(frames, open, i, before);
      var start := Grow(frames, i, EntryBinders(before)) + RetainedChain(before, |open|);
      ListRetained(start, open, e.calls);
      EntryRetained(start, open, i, e);
      assert start + RetainedAll(e.calls, |open|)
          == Grow(frames, i, EntryBinders(before)) + (RetainedChain(before, |open|) + RetainedAll(e.calls, |open|));
      GrowTwice(frames, i, EntryBinders(before), EntryBinder(e), RetainedChain(before, |open|) + RetainedAll(e.calls, |open|));
    }
  }

  function EntryBinder(e: Entry): seq<Binder> {
    match e.binding case None => [] case Some(t) => [Binder(t.name, t.at, e.span.end)]
  }

  lemma {:induction false} EntryRetained(start: seq<Scope>, open: seq<nat>, i: nat, e: Entry)
    requires open != [] && open[|open| - 1] == i < |start|
    requires ScopesAfter(start, open, ShapeAll(e.calls)) == start + RetainedAll(e.calls, |open|)
    ensures ScopesAfter(start, open, EntryShape(e)) == Grow(start + RetainedAll(e.calls, |open|), i, EntryBinder(e))
  {
    var after := start + RetainedAll(e.calls, |open|);
    ScopesAppend(start, open, ShapeAll(e.calls), BindingShape(e));
    if e.binding.Some? {
      BindRetained(after, open, i, EntryBinder(e)[0]);
    } else {
      GrowNothing(after, i);
    }
  }

  /** After the walk of a file the scopes kept are exactly those of its constructs, each with the
      names it declares and no others. */
  lemma {:induction false} FileRetained(declarations: seq<Syntax>)
    requires AllInner(declarations)
    ensures ScopesAfter([], [], ShapeAll(declarations)) == RetainedAll(declarations, 0)
  {
    ListRetained([], [], declarations);
    assert [] + RetainedAll(declarations, 0) == RetainedAll(declarations, 0);
  }
}
