/** What a local name means, read off the syntax tree: the binder of the nearest construct around
    the use that declares the name before it. Both resolvers give that answer. */
module ScopeMeaning {
  import opened Wrappers
  import opened Rename
  import opened Scopes
  import opened ScopesAgree

  // -------------------------------------------------------------------------- grammar ---

  /** Binding steps stand in blocks, and nowhere else. */
  ghost predicate Parsed(node: Syntax)
    decreases node, 0
  {
    match node
    case Name(_, _) => true
    case Binding(_, _, value) => Inner(value)
    case Block(_, steps) => forall i | 0 <= i < |steps| :: Parsed(steps[i])
    case Match(_, values, chain, whens, arms) =>
      && AllInner(values) && (forall j | 0 <= j < |chain| :: AllInner(chain[j].calls)) && AllInner(whens) && AllInner(arms)
    case Arm(_, _, body) => Inner(body)
    case Compound(_, parts) => AllInner(parts)
    case Function(_, _, body, assertions) => Inner(body) && AllInner(assertions)
  }

  ghost predicate Inner(node: Syntax)
    decreases node, 1
  {
    !node.Binding? && Parsed(node)
  }

  ghost predicate AllInner(nodes: seq<Syntax>)
    decreases nodes, 0
  {
    forall i | 0 <= i < |nodes| :: Inner(nodes[i])
  }

  // ----------------------------------------------------------------------- declarations ---

  /** Patterns and inputs: each binds one name, visible from where it stands. */
  function TokenBinders(tokens: seq<Token>): (binders: seq<Binder>)
    ensures |binders| == |tokens|
    ensures forall i | 0 <= i < |tokens| :: binders[i] == Binder(tokens[i].name, tokens[i].at, tokens[i].at)
  {
    seq(|tokens|, i requires 0 <= i < |tokens| => Binder(tokens[i].name, tokens[i].at, tokens[i].at))
  }

  /** Each binding step of a block binds one name, visible once the step is over. */
  function StepBinders(steps: seq<Syntax>): seq<Binder> {
    if steps == [] then []
    else
      var last := steps[|steps| - 1];
      StepBinders(steps[..|steps| - 1]) + if last.Binding? then [Binder(last.token.name, last.token.at, last.span.end)] else []
  }

  /** Each entry of a chain that names its result binds it, visible once the entry is over. */
  function EntryBinders(chain: seq<Entry>): seq<Binder> {
    if chain == [] then []
    else
      var last := chain[|chain| - 1];
      EntryBinders(chain[..|chain| - 1])
      + match last.binding case None => [] case Some(t) => [Binder(t.name, t.at, last.span.end)]
  }

  /** The part stands directly in the node, and `before` is what the node has declared by then.
      The values of a match stand outside of what it declares. */
  ghost predicate Encloses(node: Syntax, part: Syntax, before: seq<Binder>) {
    match node
    case Name(_, _) => false
    case Binding(_, _, value) => part == value && before == []
    case Block(_, steps) => exists i :: 0 <= i < |steps| && part == steps[i] && before == StepBinders(steps[..i])
    case Match(_, values, chain, whens, arms) =>
      || (part in values && before == [])
      || (exists j :: 0 <= j < |chain| && part in chain[j].calls && before == EntryBinders(chain[..j]))
      || ((part in whens || part in arms) && before == EntryBinders(chain))
    case Arm(_, patterns, body) => part == body && before == TokenBinders(patterns)
    case Compound(_, parts) => part in parts && before == []
    case Function(_, inputs, body, assertions) => (part == body || part in assertions) && before == TokenBinders(inputs)
  }

  /** One construct on the way down to a use, and what it has declared before the way goes on. */
  datatype Link = Link(node: Syntax, before: seq<Binder>)

  /** The constructs around the leaf, from the root inwards. */
  ghost predicate Way(root: Syntax, links: seq<Link>, leaf: Syntax)
    decreases |links|
  {
    if links == [] then root == leaf
    else links[0].node == root && exists part :: Encloses(root, part, links[0].before) && Way(part, links[1..], leaf)
  }

  /** The k-th binder is the last of its name. */
  ghost predicate LastOf(binders: seq<Binder>, k: int, b: Binder) {
    0 <= k < |binders| && binders[k] == b && forall l | k < l < |binders| :: binders[l].name != b.name
  }

  ghost predicate Declares(link: Link, name: string) {
    exists b :: b in link.before && b.name == name
  }

  /** The nearest construct that declares the name gives its last binder; no answer exactly when
      none declares it. */
  ghost predicate Means(links: seq<Link>, name: string, answer: Option<Binder>) {
    match answer
    case None => forall i | 0 <= i < |links| :: !Declares(links[i], name)
    case Some(b) =>
      b.name == name
      && exists i, k :: 0 <= i < |links| && LastOf(links[i].before, k, b) && forall j | i < j < |links| :: !Declares(links[j], name)
  }

  lemma {:induction false} MeantDeclared(links: seq<Link>, name: string, b: Binder)
    requires Means(links, name, Some(b))
    ensures exists i :: 0 <= i < |links| && Declares(links[i], name)
  {
    var i, k :| 0 <= i < |links| && LastOf(links[i].before, k, b);
    assert b in links[i].before;
    assert Declares(links[i], name);
  }

  /** There is only one answer. */
  lemma {:induction false} OneMeaning(links: seq<Link>, name: string, a: Option<Binder>, b: Option<Binder>)
    requires Means(links, name, a) && Means(links, name, b)
    ensures a == b
  {
    if a.Some? { MeantDeclared(links, name, a.value); }
    if b.Some? { MeantDeclared(links, name, b.value); }
    if a.Some? && b.Some? {
      var i, k :| 0 <= i < |links| && LastOf(links[i].before, k, a.value) && forall j | i < j < |links| :: !Declares(links[j], name);
      var i', k' :| 0 <= i' < |links| && LastOf(links[i'].before, k', b.value) && forall j | i' < j < |links| :: !Declares(links[j], name);
      assert a.value in links[i].before && b.value in links[i'].before;
      assert Declares(links[i], name) && Declares(links[i'], name);
    }
  }

  // ------------------------------------------------------------------------ one list ---

  function Flat(stack: Stack): seq<Binder> {
    if stack == [] then [] else Flat(stack[..|stack| - 1]) + stack[|stack| - 1]
  }

  function LastNamed(binders: seq<Binder>, name: string): Option<Binder> {
    if binders == [] then None
    else if binders[|binders| - 1].name == name then Some(binders[|binders| - 1])
    else LastNamed(binders[..|binders| - 1], name)
  }

  lemma {:induction false} LastAppend(a: seq<Binder>, b: seq<Binder>, name: string)
    ensures LastNamed(a + b, name) == if LastNamed(b, name).Some? then LastNamed(b, name) else LastNamed(a, name)
    decreases |b|
  {
    if b == [] {
      assert a + b == a;
    } else {
      assert (a + b)[..|a + b| - 1] == a + b[..|b| - 1];
      LastAppend(a, b[..|b| - 1], name);
    }
  }

  lemma {:induction false} FlatPush(stack: Stack, top: seq<Binder>)
    ensures Flat(stack + [top]) == Flat(stack) + top
  {
    assert (stack + [top])[..|stack|] == stack;
  }

  /** Everything in scope stands before the position. */
  ghost predicate Behind(binders: seq<Binder>, at: int) {
    forall b | b in binders :: b.at < at
  }

  lemma {:induction false} LastBeforeIs(binders: seq<Binder>, name: string, at: int)
    requires Behind(binders, at)
    ensures LastBefore(binders, name, at) == LastNamed(binders, name)
    decreases |binders|
  {
    if binders != [] {
      assert binders[|binders| - 1] in binders;
      LastBeforeIs(binders[..|binders| - 1], name, at);
    }
  }

  lemma {:induction false} LookupIs(stack: Stack, name: string, at: int)
    requires Behind(Flat(stack), at)
    ensures StackLookup(stack, name, at) == LastNamed(Flat(stack), name)
    decreases |stack|
  {
    if stack != [] {
      var n := |stack| - 1;
      LastBeforeIs(stack[n], name, at);
      LookupIs(stack[..n], name, at);
      LastAppend(Flat(stack[..n]), stack[n], name);
    }
  }

  /** What all constructs on the way have declared. */
  function Seen(links: seq<Link>): seq<Binder> {
    if links == [] then [] else links[0].before + Seen(links[1..])
  }

  lemma {:induction false} LastNamedIs(binders: seq<Binder>, name: string)
    ensures LastNamed(binders, name).Some? ==> LastNamed(binders, name).value.name == name && exists k :: LastOf(binders, k, LastNamed(binders, name).value)
    ensures LastNamed(binders, name).None? ==> forall b | b in binders :: b.name != name
    decreases |binders|
  {
    if binders != [] {
      var n := |binders| - 1;
      LastNamedIs(binders[..n], name);
      if binders[n].name == name {
        assert LastOf(binders, n, binders[n]);
      } else if LastNamed(binders, name).Some? {
        var k :| LastOf(binders[..n], k, LastNamed(binders, name).value);
        assert LastOf(binders, k, LastNamed(binders, name).value);
      }
    }
  }

  /** The last binder of the name among all that was declared is the nearest one. */
  lemma {:induction false} SeenMeans(links: seq<Link>, name: string)
    ensures Means(links, name, LastNamed(Seen(links), name))
    decreases |links|
  {
    if links != [] {
      var rest := links[1..];
      SeenMeans(rest, name);
      LastAppend(links[0].before, Seen(rest), name);
      LastNamedIs(links[0].before, name);
      assert forall j | 0 < j < |links| :: links[j] == rest[j - 1];
      var answer := LastNamed(Seen(rest), name);
      if answer.Some? {
        var i, k :| 0 <= i < |rest| && LastOf(rest[i].before, k, answer.value) && forall j | i < j < |rest| :: !Declares(rest[j], name);
        assert links[i + 1] == rest[i];
      } else if LastNamed(links[0].before, name).Some? {
        var b := LastNamed(links[0].before, name).value;
        var k :| LastOf(links[0].before, k, b);
        assert forall j | 0 < j < |links| :: !Declares(links[j], name);
      }
    }
  }

  // ------------------------------------------------------------------------- the walk ---

  lemma {:induction false} TokensWalk(stack: Stack, top: seq<Binder>, tokens: seq<Token>)
    ensures Uses(stack + [top], Tokens(tokens)) == [] && StackAfter(stack + [top], Tokens(tokens)) == stack + [top + TokenBinders(tokens)]
    decreases |tokens|
  {
    if tokens == [] {
      assert top + TokenBinders(tokens) == top;
    } else {
      var b := Binder(tokens[0].name, tokens[0].at, tokens[0].at);
      var rest := Tokens(tokens[1..]);
      var nodes := [Bind(b.name, b.at, b.from)] + rest;
      assert nodes[1..] == rest && Tokens(tokens) == nodes;
      AfterOne(stack + [top], nodes[0]);
      assert Bound(stack + [top], b) == stack + [top + [b]];
      TokensWalk(stack, top + [b], tokens[1..]);
      assert top + [b] + TokenBinders(tokens[1..]) == top + TokenBinders(tokens);
    }
  }

  /** Only a binding step leaves a name behind. */
  lemma {:induction false} InnerAfter(stack: Stack, node: Syntax)
    requires Inner(node)
    ensures StackAfter(stack, Shape(node)) == stack
    decreases node, 1
  {
    match node {
      case Name(span, name) => AfterOne(stack, Use(name, span.start));
      case Compound(_, parts) => AllInnerAfter(stack, parts);
      case Match(span, values, chain, whens, arms) =>
        var frame := Frame(span, ChainShape(chain) + ShapeAll(whens) + ShapeAll(arms));
        AllInnerAfter(stack, values);
        StackAppend(stack, ShapeAll(values), [frame]);
        AfterOne(stack, frame);
      case Block(span, steps) => AfterOne(stack, Frame(span, ShapeAll(steps)));
      case Arm(span, patterns, body) => AfterOne(stack, Frame(span, Tokens(patterns) + Shape(body)));
      case Function(span, inputs, body, assertions) => AfterOne(stack, Frame(span, Tokens(inputs) + Shape(body) + ShapeAll(assertions)));
    }
  }

  lemma {:induction false} AllInnerAfter(stack: Stack, nodes: seq<Syntax>)
    requires AllInner(nodes)
    ensures StackAfter(stack, ShapeAll(nodes)) == stack
    decreases nodes, 0
  {
    if nodes != [] {
      assert Inner(nodes[0]);
      assert AllInner(nodes[1..]) by { assert forall i | 0 <= i < |nodes[1..]| :: nodes[1..][i] == nodes[i + 1]; }
      InnerAfter(stack, nodes[0]);
      AllInnerAfter(stack, nodes[1..]);
      StackAppend(stack, Shape(nodes[0]), ShapeAll(nodes[1..]));
    }
  }

  /** The uses of a list are the uses of its members. */
  lemma {:induction false} ListUses(stack: Stack, nodes: seq<Syntax>)
    requires AllInner(nodes)
    ensures forall r :: r in Uses(stack, ShapeAll(nodes)) <==> exists i :: 0 <= i < |nodes| && r in Uses(stack, Shape(nodes[i]))
    decreases |nodes|
  {
    if nodes != [] {
      var n := |nodes| - 1;
      var before := nodes[..n];
      assert AllInner(before) by { assert forall i | 0 <= i < n :: before[i] == nodes[i]; }
      ListUses(stack, before);
      AllInnerAfter(stack, before);
      ShapeLast(nodes, n);
      assert nodes[..n + 1] == nodes;
      UsesAppend(stack, ShapeAll(before), Shape(nodes[n]));
      hide Uses, Shape, ShapeAll, AllInner;
      forall r ensures r in Uses(stack, ShapeAll(nodes)) <==> exists i :: 0 <= i < |nodes| && r in Uses(stack, Shape(nodes[i])) {
        ListUse(nodes, before, stack, r);
      }
    }
  }

  lemma {:induction false} ListUse(nodes: seq<Syntax>, before: seq<Syntax>, stack: Stack, r: Resolved)
    requires nodes != [] && before == nodes[..|nodes| - 1]
    requires Uses(stack, ShapeAll(nodes)) == Uses(stack, ShapeAll(before)) + Uses(stack, Shape(nodes[|nodes| - 1]))
    requires r in Uses(stack, ShapeAll(before)) <==> exists i :: 0 <= i < |before| && r in Uses(stack, Shape(before[i]))
    ensures r in Uses(stack, ShapeAll(nodes)) <==> exists i :: 0 <= i < |nodes| && r in Uses(stack, Shape(nodes[i]))
  {
    hide Uses, Shape, ShapeAll;
    if i :| 0 <= i < |before| && r in Uses(stack, Shape(before[i])) {
      assert nodes[i] == before[i];
    }
    if i :| 0 <= i < |nodes| && r in Uses(stack, Shape(nodes[i])) {
      if i < |before| { assert nodes[i] == before[i]; }
    }
  }

  /** A block's steps, each walked with what the steps before it have bound. */
  lemma {:induction false} StepsWalk(stack: Stack, steps: seq<Syntax>)
    requires forall i | 0 <= i < |steps| :: Parsed(steps[i])
    ensures StackAfter(stack + [[]], ShapeAll(steps)) == stack + [StepBinders(steps)]
    ensures forall r :: r in Uses(stack + [[]], ShapeAll(steps))
                   <==> exists i :: 0 <= i < |steps| && r in Uses(stack + [StepBinders(steps[..i])], Shape(steps[i]))
    decreases |steps|
  {
    if steps != [] {
      var n := |steps| - 1;
      var before := steps[..n];
      StepsWalk(stack, before);
      ShapeLast(steps, n);
      assert steps[..n + 1] == steps;
      StackAppend(stack + [[]], ShapeAll(before), Shape(steps[n]));
      UsesAppend(stack + [[]], ShapeAll(before), Shape(steps[n]));
      StepAfter(stack, StepBinders(before), steps[n]);
      hide Uses, Shape, ShapeAll, Parsed, StackAfter, StepBinders;
      forall r ensures r in Uses(stack + [[]], ShapeAll(steps))
                  <==> exists i :: 0 <= i < |steps| && r in Uses(stack + [StepBinders(steps[..i])], Shape(steps[i]))
      {
        StepUse(steps, before, stack, r);
      }
    }
  }

  lemma {:induction false} StepUse(steps: seq<Syntax>, before: seq<Syntax>, stack: Stack, r: Resolved)
    requires steps != [] && before == steps[..|steps| - 1]
    requires Uses(stack + [[]], ShapeAll(steps))
          == Uses(stack + [[]], ShapeAll(before)) + Uses(stack + [StepBinders(before)], Shape(steps[|steps| - 1]))
    requires r in Uses(stack + [[]], ShapeAll(before))
        <==> exists i :: 0 <= i < |before| && r in Uses(stack + [StepBinders(before[..i])], Shape(before[i]))
    ensures r in Uses(stack + [[]], ShapeAll(steps))
       <==> exists i :: 0 <= i < |steps| && r in Uses(stack + [StepBinders(steps[..i])], Shape(steps[i]))
  {
    hide Uses, Shape, ShapeAll, StepBinders;
    if i :| 0 <= i < |before| && r in Uses(stack + [StepBinders(before[..i])], Shape(before[i])) {
      assert steps[i] == before[i] && steps[..i] == before[..i];
    }
    if i :| 0 <= i < |steps| && r in Uses(stack + [StepBinders(steps[..i])], Shape(steps[i])) {
      if i < |before| { assert steps[i] == before[i] && steps[..i] == before[..i]; }
    }
  }

  lemma {:induction false} StepAfter(stack: Stack, top: seq<Binder>, step: Syntax)
    requires Parsed(step)
    ensures StackAfter(stack + [top], Shape(step))
         == stack + [top + if step.Binding? then [Binder(step.token.name, step.token.at, step.span.end)] else []]
  {
    if step.Binding? {
      var bind := Bind(step.token.name, step.token.at, step.span.end);
      InnerAfter(stack + [top], step.value);
      StackAppend(stack + [top], Shape(step.value), [bind]);
      AfterOne(stack + [top], bind);
    } else {
      InnerAfter(stack + [top], step);
      assert top + [] == top;
    }
  }

  /** A chain's entries, each walked with what the entries before it have bound. */
  lemma {:induction false} ChainWalk(stack: Stack, chain: seq<Entry>)
    requires forall j | 0 <= j < |chain| :: AllInner(chain[j].calls)
    ensures StackAfter(stack + [[]], ChainShape(chain)) == stack + [EntryBinders(chain)]
    ensures forall r :: r in Uses(stack + [[]], ChainShape(chain))
                   <==> exists j :: 0 <= j < |chain| && r in Uses(stack + [EntryBinders(chain[..j])], ShapeAll(chain[j].calls))
    decreases |chain|
  {
    if chain != [] {
      var n := |chain| - 1;
      var before := chain[..n];
      ChainBinds(chain);
      hide Uses, StackAfter, ShapeAll, EntryShape, ChainShape, EntryBinders;
      ChainWalk(stack, before);
      ChainLast(chain, n);
      assert chain[..n + 1] == chain;
      StackAppend(stack + [[]], ChainShape(before), EntryShape(chain[n]));
      UsesAppend(stack + [[]], ChainShape(before), EntryShape(chain[n]));
      EntryWalk(stack, EntryBinders(before), chain[n]);
      hide AllInner;
      forall r ensures r in Uses(stack + [[]], ChainShape(chain))
                  <==> exists j :: 0 <= j < |chain| && r in Uses(stack + [EntryBinders(chain[..j])], ShapeAll(chain[j].calls))
      {
        ChainUse(chain, before, stack, r);
      }
    }
  }

  lemma {:induction false} ChainUse(chain: seq<Entry>, before: seq<Entry>, stack: Stack, r: Resolved)
    requires chain != [] && before == chain[..|chain| - 1]
    requires Uses(stack + [[]], ChainShape(chain))
          == Uses(stack + [[]], ChainShape(before)) + Uses(stack + [EntryBinders(before)], ShapeAll(chain[|chain| - 1].calls))
    requires r in Uses(stack + [[]], ChainShape(before))
        <==> exists j :: 0 <= j < |before| && r in Uses(stack + [EntryBinders(before[..j])], ShapeAll(before[j].calls))
    ensures r in Uses(stack + [[]], ChainShape(chain))
       <==> exists j :: 0 <= j < |chain| && r in Uses(stack + [EntryBinders(chain[..j])], ShapeAll(chain[j].calls))
  {
    hide Uses, ShapeAll, ChainShape, EntryBinders;
    if j :| 0 <= j < |before| && r in Uses(stack + [EntryBinders(before[..j])], ShapeAll(before[j].calls)) {
      assert chain[j] == before[j] && chain[..j] == before[..j];
    }
    if j :| 0 <= j < |chain| && r in Uses(stack + [EntryBinders(chain[..j])], ShapeAll(chain[j].calls)) {
      if j < |before| { assert chain[j] == before[j] && chain[..j] == before[..j]; }
    }
  }

  lemma {:induction false} ChainBinds(chain: seq<Entry>)
    requires chain != []
    ensures EntryBinders(chain)
         == EntryBinders(chain[..|chain| - 1])
            + match chain[|chain| - 1].binding case None => [] case Some(t) => [Binder(t.name, t.at, chain[|chain| - 1].span.end)]
  {
  }

  lemma {:induction false} EntryWalk(stack: Stack, top: seq<Binder>, e: Entry)
    requires AllInner(e.calls)
    ensures Uses(stack + [top], EntryShape(e)) == Uses(stack + [top], ShapeAll(e.calls))
    ensures StackAfter(stack + [top], EntryShape(e))
         == stack + [top + match e.binding case None => [] case Some(t) => [Binder(t.name, t.at, e.span.end)]]
  {
    AllInnerAfter(stack + [top], e.calls);
    StackAppend(stack + [top], ShapeAll(e.calls), BindingShape(e));
    UsesAppend(stack + [top], ShapeAll(e.calls), BindingShape(e));
    if e.binding.Some? {
      AfterOne(stack + [top], BindingShape(e)[0]);
      OneNode(stack + [top], [], [], BindingShape(e)[0]);
    } else {
      assert top + [] == top;
    }
  }

  // ------------------------------------------------------------------- construct by construct ---

  lemma {:induction false} FrameUses(stack: Stack, span: Span, items: seq<Node>)
    ensures Uses(stack, [Frame(span, items)]) == Uses(stack + [[]], items)
  {
    OneNode(stack, [], [], Frame(span, items));
  }

  lemma {:induction false} BindingUses(stack: Stack, node: Syntax)
    requires node.Binding? && Parsed(node)
    ensures Uses(stack, Shape(node)) == Uses(stack, Shape(node.value))
  {
    var bind := Bind(node.token.name, node.token.at, node.span.end);
    UsesAppend(stack, Shape(node.value), [bind]);
    OneNode(StackAfter(stack, Shape(node.value)), [], [], bind);
  }

  lemma {:induction false} ArmUses(stack: Stack, node: Syntax)
    requires node.Arm?
    ensures Uses(stack, Shape(node)) == Uses(stack + [TokenBinders(node.patterns)], Shape(node.body))
  {
    FrameUses(stack, node.span, Tokens(node.patterns) + Shape(node.body));
    UsesAppend(stack + [[]], Tokens(node.patterns), Shape(node.body));
    InputsWalk(stack, node.patterns);
  }

  lemma {:induction false} FunctionShape(node: Syntax)
    requires node.Function?
    ensures Shape(node) == [Frame(node.span, Tokens(node.inputs) + Shape(node.body) + ShapeAll(node.assertions))]
  {
  }

  lemma {:induction false} MatchShape(node: Syntax)
    requires node.Match?
    ensures Shape(node)
         == ShapeAll(node.values) + [Frame(node.span, ChainShape(node.chain) + ShapeAll(node.whens) + ShapeAll(node.arms))]
  {
  }

  lemma {:induction false} ThreeParts(stack: Stack, a: seq<Node>, b: seq<Node>, c: seq<Node>)
    ensures var second := StackAfter(stack, a); var third := StackAfter(second, b);
            Uses(stack, a + b + c) == Uses(stack, a) + Uses(second, b) + Uses(third, c)
  {
    UsesAppend(stack, a + b, c);
    UsesAppend(stack, a, b);
    StackAppend(stack, a, b);
    hide Uses, StackAfter;
  }

  lemma {:induction false} FunctionUses(stack: Stack, node: Syntax)
    requires node.Function? && Parsed(node)
    ensures var inner := stack + [TokenBinders(node.inputs)];
            Uses(stack, Shape(node)) == Uses(inner, Shape(node.body)) + Uses(inner, ShapeAll(node.assertions))
  {
    var inner := stack + [TokenBinders(node.inputs)];
    FunctionShape(node);
    assert Inner(node.body);
    hide *;
    InnerAfter(inner, node.body);
    InputsWalk(stack, node.inputs);
    var a, b, c := Tokens(node.inputs), Shape(node.body), ShapeAll(node.assertions);
    FrameUses(stack, node.span, a + b + c);
    ThreeParts(stack + [[]], a, b, c);
    assert [] + Uses(inner, b) == Uses(inner, b);
  }

  lemma {:induction false} InputsWalk(stack: Stack, tokens: seq<Token>)
    ensures Uses(stack + [[]], Tokens(tokens)) == [] && StackAfter(stack + [[]], Tokens(tokens)) == stack + [TokenBinders(tokens)]
  {
    TokensWalk(stack, [], tokens);
    assert [] + TokenBinders(tokens) == TokenBinders(tokens);
    hide Uses, StackAfter, Tokens;
  }

  lemma {:induction false} MatchUses(stack: Stack, node: Syntax)
    requires node.Match? && Parsed(node)
    ensures var inner := stack + [EntryBinders(node.chain)];
            Uses(stack, Shape(node)) == Uses(stack, ShapeAll(node.values)) + (Uses(stack + [[]], ChainShape(node.chain))
                                        + Uses(inner, ShapeAll(node.whens)) + Uses(inner, ShapeAll(node.arms)))
  {
    var inner := stack + [EntryBinders(node.chain)];
    MatchShape(node);
    AllInnerAfter(stack, node.values);
    ChainWalk(stack, node.chain);
    AllInnerAfter(inner, node.whens);
    hide *;
    var a, b, c := ChainShape(node.chain), ShapeAll(node.whens), ShapeAll(node.arms);
    UsesAppend(stack, ShapeAll(node.values), [Frame(node.span, a + b + c)]);
    FrameUses(stack, node.span, a + b + c);
    ThreeParts(stack + [[]], a, b, c);
  }

  lemma {:induction false} BlockUses(stack: Stack, node: Syntax)
    requires node.Block?
    ensures Uses(stack, Shape(node)) == Uses(stack + [[]], ShapeAll(node.steps))
  {
    FrameUses(stack, node.span, ShapeAll(node.steps));
  }

  /** The walk of a part inside the walk of a node: what the node has declared by then is in scope. */
  ghost predicate Into(stack: Stack, node: Syntax, part: Syntax, before: seq<Binder>, inner: Stack) {
    Flat(inner) == Flat(stack) + before && forall r :: r in Uses(inner, Shape(part)) ==> r in Uses(stack, Shape(node))
  }

  /** Every part is walked so. */
  lemma {:induction false} GoesInto(stack: Stack, node: Syntax, part: Syntax, before: seq<Binder>) returns (inner: Stack)
    requires Parsed(node) && Encloses(node, part, before)
    ensures Into(stack, node, part, before, inner)
  {
    hide Uses, Shape, ShapeAll, ChainShape, Flat;
    FlatPush(stack, before);
    assert Flat(stack) + [] == Flat(stack);
    match node {
      case Binding(_, _, value) =>
        BindingUses(stack, node);
        inner := stack;
      case Block(_, steps) =>
        BlockUses(stack, node);
        StepsWalk(stack, steps);
        inner := stack + [before];
      case Match(_, _, _, _, _) => inner := GoesIntoMatch(stack, node, part, before);
      case Arm(_, _, _) =>
        ArmUses(stack, node);
        inner := stack + [before];
      case Compound(_, parts) =>
        CompoundUses(stack, node);
        ListUses(stack, parts);
        inner := stack;
      case Function(_, _, _, assertions) =>
        FunctionUses(stack, node);
        ListUses(stack + [before], assertions);
        inner := stack + [before];
    }
  }

  lemma {:induction false} CompoundUses(stack: Stack, node: Syntax)
    requires node.Compound?
    ensures Uses(stack, Shape(node)) == Uses(stack, ShapeAll(node.parts))
  {
  }

  lemma {:induction false} GoesIntoMatch(stack: Stack, node: Syntax, part: Syntax, before: seq<Binder>) returns (inner: Stack)
    requires node.Match? && Parsed(node) && Encloses(node, part, before)
    ensures Into(stack, node, part, before, inner)
  {
    hide Uses, Shape, ShapeAll, ChainShape, Flat, EntryBinders;
    FlatPush(stack, before);
    assert Flat(stack) + [] == Flat(stack);
    MatchUses(stack, node);
    if part in node.values && before == [] {
      ListUses(stack, node.values);
      inner := stack;
    } else if j :| 0 <= j < |node.chain| && part in node.chain[j].calls && before == EntryBinders(node.chain[..j]) {
      ChainWalk(stack, node.chain);
      ListUses(stack + [before], node.chain[j].calls);
      inner := stack + [before];
    } else {
      ListUses(stack + [before], node.whens);
      ListUses(stack + [before], node.arms);
      inner := stack + [before];
    }
  }

  // ------------------------------------------------------------------------ positions ---

  lemma {:induction false} ListMember(p: int, nodes: seq<Syntax>, end: int, i: nat)
    requires ListOk(p, nodes, end) && i < |nodes|
    ensures p < nodes[i].span.start <= nodes[i].span.end <= end && ScopesAgree.Ok(nodes[i])
    ensures forall j | 0 <= j < i :: nodes[j].span.end < nodes[i].span.start
    decreases |nodes|
  {
    if i > 0 {
      ListMember(nodes[0].span.end, nodes[1..], end, i - 1);
      assert forall j | 0 < j < i :: nodes[j] == nodes[1..][j - 1];
    }
  }

  lemma {:induction false} TokenMember(p: int, tokens: seq<Token>, end: int)
    requires TokensOk(p, tokens, end)
    ensures p <= LastToken(p, tokens) && forall i | 0 <= i < |tokens| :: tokens[i].at <= LastToken(p, tokens)
    decreases |tokens|
  {
    if tokens != [] {
      TokenMember(tokens[0].at, tokens[1..], end);
      assert forall i | 0 < i < |tokens| :: tokens[i] == tokens[1..][i - 1];
    }
  }

  lemma {:induction false} ChainMember(p: int, chain: seq<Entry>, end: int, j: nat)
    requires ChainOk(p, chain, end) && j < |chain|
    ensures p < chain[j].span.start <= chain[j].span.end <= LastChain(p, chain) <= end && ListOk(chain[j].span.start - 1, chain[j].calls, chain[j].span.end)
    ensures chain[j].binding.Some? ==> chain[j].binding.value.at < chain[j].span.end
    ensures forall l | 0 <= l < j :: chain[l].span.end < chain[j].span.start
    decreases |chain|
  {
    if |chain| > 1 {
      ChainMember(chain[0].span.end, chain[1..], end, if j > 0 then j - 1 else 0);
      assert forall l | 0 < l < |chain| :: chain[l] == chain[1..][l - 1];
    }
  }

  lemma {:induction false} ChainGrows(p: int, chain: seq<Entry>, end: int)
    requires ChainOk(p, chain, end)
    ensures p <= LastChain(p, chain)
  {
    if chain != [] { ChainMember(p, chain, end, |chain| - 1); }
  }

  lemma {:induction false} ListGrows(p: int, nodes: seq<Syntax>, end: int)
    requires ListOk(p, nodes, end)
    ensures p <= LastEnd(p, nodes)
  {
    if nodes != [] { ListMember(p, nodes, end, |nodes| - 1); }
  }

  lemma {:induction false} StepBinderAt(steps: seq<Syntax>, b: Binder)
    requires b in StepBinders(steps)
    ensures exists i :: 0 <= i < |steps| && steps[i].Binding? && b.at == steps[i].token.at
    decreases |steps|
  {
    if steps != [] {
      var n := |steps| - 1;
      if b in StepBinders(steps[..n]) {
        StepBinderAt(steps[..n], b);
        var i :| 0 <= i < n && steps[..n][i].Binding? && b.at == steps[..n][i].token.at;
        assert steps[i] == steps[..n][i];
      }
    }
  }

  lemma {:induction false} EntryBinderAt(chain: seq<Entry>, b: Binder)
    requires b in EntryBinders(chain)
    ensures exists i :: 0 <= i < |chain| && chain[i].binding.Some? && b.at == chain[i].binding.value.at
    decreases |chain|
  {
    if chain != [] {
      var n := |chain| - 1;
      if b in EntryBinders(chain[..n]) {
        EntryBinderAt(chain[..n], b);
        var i :| 0 <= i < n && chain[..n][i].binding.Some? && b.at == chain[..n][i].binding.value.at;
        assert chain[i] == chain[..n][i];
      }
    }
  }

  lemma {:induction false} StepsBehind(p: int, steps: seq<Syntax>, end: int, i: nat)
    requires ListOk(p, steps, end) && i < |steps|
    ensures Behind(StepBinders(steps[..i]), steps[i].span.start)
  {
    ListMember(p, steps, end, i);
    forall b | b in StepBinders(steps[..i]) ensures b.at < steps[i].span.start {
      StepBinderAt(steps[..i], b);
      var j :| 0 <= j < i && steps[..i][j].Binding? && b.at == steps[..i][j].token.at;
      assert steps[j] == steps[..i][j];
      ListMember(p, steps, end, j);
    }
  }

  lemma {:induction false} EntriesBehind(p: int, chain: seq<Entry>, end: int, i: nat, at: int)
    requires ChainOk(p, chain, end) && i <= |chain| && (if i < |chain| then chain[i].span.start <= at else LastChain(p, chain) < at)
    ensures Behind(EntryBinders(chain[..i]), at)
  {
    forall b | b in EntryBinders(chain[..i]) ensures b.at < at {
      EntryBinderAt(chain[..i], b);
      var j :| 0 <= j < i && chain[..i][j].binding.Some? && b.at == chain[..i][j].binding.value.at;
      assert chain[j] == chain[..i][j];
      ChainMember(p, chain, end, j);
      if i < |chain| { ChainMember(p, chain, end, i); }
    }
  }

  /** A part lies inside its node, after everything the node has declared by then. */
  lemma {:induction false} PartPlaced(node: Syntax, part: Syntax, before: seq<Binder>)
    requires ScopesAgree.Ok(node) && Parsed(node) && Encloses(node, part, before)
    ensures ScopesAgree.Ok(part) && Parsed(part) && node.span.start <= part.span.start && Behind(before, part.span.start)
  {
    var lo, end := node.span.start - 1, node.span.end;
    match node {
      case Binding(_, _, _) =>
      case Block(_, steps) =>
        var i :| 0 <= i < |steps| && part == steps[i] && before == StepBinders(steps[..i]);
        ListMember(lo, steps, end, i);
        StepsBehind(lo, steps, end, i);
      case Match(_, _, _, _, _) => MatchPartPlaced(node, part, before);
      case Arm(_, patterns, _) => TokenMember(lo, patterns, end);
      case Compound(_, parts) =>
        var i :| 0 <= i < |parts| && parts[i] == part;
        ListMember(lo, parts, end, i);
        assert Inner(parts[i]);
      case Function(_, inputs, body, assertions) =>
        TokenMember(lo, inputs, end);
        if part != body {
          var i :| 0 <= i < |assertions| && assertions[i] == part;
          ListMember(body.span.end, assertions, end, i);
          assert Inner(assertions[i]);
        }
    }
  }

  lemma {:induction false} MatchPartPlaced(node: Syntax, part: Syntax, before: seq<Binder>)
    requires node.Match? && ScopesAgree.Ok(node) && Parsed(node) && Encloses(node, part, before)
    ensures ScopesAgree.Ok(part) && Parsed(part) && node.span.start <= part.span.start && Behind(before, part.span.start)
  {
    var lo, end := node.span.start - 1, node.span.end;
    var a := LastEnd(lo, node.values);
    var b := LastChain(a, node.chain);
    ListGrows(lo, node.values, end);
    ChainGrows(a, node.chain, end);
    ListGrows(b, node.whens, end);
    hide ListOk, ChainOk, Parsed, EntryBinders;
    InnerParts(node);
    if part in node.values && before == [] {
      var i :| 0 <= i < |node.values| && node.values[i] == part;
      ListMember(lo, node.values, end, i);
      InnerMember(node.values, i);
    } else if j :| 0 <= j < |node.chain| && part in node.chain[j].calls && before == EntryBinders(node.chain[..j]) {
      var i :| 0 <= i < |node.chain[j].calls| && node.chain[j].calls[i] == part;
      ChainMember(a, node.chain, end, j);
      ListMember(node.chain[j].span.start - 1, node.chain[j].calls, node.chain[j].span.end, i);
      EntriesBehind(a, node.chain, end, j, part.span.start);
      InnerMember(node.chain[j].calls, i);
    } else {
      assert node.chain[..|node.chain|] == node.chain;
      if i :| 0 <= i < |node.whens| && node.whens[i] == part {
        ListMember(b, node.whens, end, i);
        InnerMember(node.whens, i);
      } else {
        var i :| 0 <= i < |node.arms| && node.arms[i] == part;
        ListMember(LastEnd(b, node.whens), node.arms, end, i);
        InnerMember(node.arms, i);
      }
      EntriesBehind(a, node.chain, end, |node.chain|, part.span.start);
    }
  }

  lemma {:induction false} InnerParts(node: Syntax)
    requires node.Match? && Parsed(node)
    ensures AllInner(node.values) && AllInner(node.whens) && AllInner(node.arms) && forall j | 0 <= j < |node.chain| :: AllInner(node.chain[j].calls)
  {
  }

  lemma {:induction false} InnerMember(nodes: seq<Syntax>, i: nat)
    requires AllInner(nodes) && i < |nodes|
    ensures Parsed(nodes[i])
  {
    assert Inner(nodes[i]);
  }

  // ------------------------------------------------------------------------- theorems ---

  /** A use that a way leads to is resolved, to what the constructs on the way declare last. */
  lemma {:induction false} WayIsResolved(stack: Stack, root: Syntax, links: seq<Link>, leaf: Syntax)
    requires ScopesAgree.Ok(root) && Parsed(root) && Behind(Flat(stack), root.span.start) && Way(root, links, leaf) && leaf.Name?
    ensures Resolved(leaf.name, leaf.span.start, LastNamed(Flat(stack) + Seen(links), leaf.name)) in Uses(stack, Shape(root))
    decreases |links|
  {
    if links == [] {
      NameResolved(stack, leaf);
      assert Flat(stack) + Seen(links) == Flat(stack);
    } else {
      var part := NextPart(root, links, leaf);
      hide *;
      PartPlaced(root, part, links[0].before);
      var inner := GoesInto(stack, root, part, links[0].before);
      BehindAll(stack, root, part, links[0].before, inner);
      WayIsResolved(inner, part, links[1..], leaf);
      IntoSeen(stack, root, part, links, inner, Resolved(leaf.name, leaf.span.start, LastNamed(Flat(inner) + Seen(links[1..]), leaf.name)));
    }
  }

  lemma {:induction false} NextPart(root: Syntax, links: seq<Link>, leaf: Syntax) returns (part: Syntax)
    requires Way(root, links, leaf) && links != []
    ensures Encloses(root, part, links[0].before) && Way(part, links[1..], leaf)
  {
    hide Encloses;
    part :| Encloses(root, part, links[0].before) && Way(part, links[1..], leaf);
  }

  lemma {:induction false} NameResolved(stack: Stack, leaf: Syntax)
    requires leaf.Name? && Behind(Flat(stack), leaf.span.start)
    ensures Uses(stack, Shape(leaf)) == [Resolved(leaf.name, leaf.span.start, LastNamed(Flat(stack), leaf.name))]
  {
    OneNode(stack, [], [], Use(leaf.name, leaf.span.start));
    LookupIs(stack, leaf.name, leaf.span.start);
    hide StackLookup, LastNamed, Flat;
  }

  lemma {:induction false} BehindAll(stack: Stack, node: Syntax, part: Syntax, before: seq<Binder>, inner: Stack)
    requires Behind(Flat(stack), node.span.start) && Behind(before, part.span.start) && node.span.start <= part.span.start
    requires Into(stack, node, part, before, inner)
    ensures Behind(Flat(inner), part.span.start)
  {
    hide Flat, Uses;
  }

  lemma {:induction false} IntoSeen(stack: Stack, node: Syntax, part: Syntax, links: seq<Link>, inner: Stack, r: Resolved)
    requires links != [] && Into(stack, node, part, links[0].before, inner) && r in Uses(inner, Shape(part))
    ensures r in Uses(stack, Shape(node)) && Flat(inner) + Seen(links[1..]) == Flat(stack) + Seen(links)
  {
    hide Flat, Uses, Shape;
    assert Flat(stack) + links[0].before + Seen(links[1..]) == Flat(stack) + (links[0].before + Seen(links[1..]));
  }

  /** Every use stands at the end of a way. */
  lemma {:induction false} UseHasWay(stack: Stack, root: Syntax, r: Resolved) returns (links: seq<Link>, leaf: Syntax)
    requires Parsed(root) && r in Uses(stack, Shape(root))
    ensures Way(root, links, leaf) && leaf.Name? && leaf.name == r.name && leaf.span.start == r.at
    decreases root, 1
  {
    match root {
      case Name(span, name) =>
        OneNode(stack, [], [], Use(name, span.start));
        links, leaf := [], root;
      case Binding(_, _, value) =>
        BindingUses(stack, root);
        links, leaf := UseHasWay(stack, value, r);
        links := Prepend(root, value, [], links, leaf);
      case Block(_, steps) =>
        var i := UsedStep(stack, root, r);
        links, leaf := UseHasWay(stack + [StepBinders(steps[..i])], steps[i], r);
        links := Prepend(root, steps[i], StepBinders(steps[..i]), links, leaf);
      case Match(_, _, _, _, _) => links, leaf := MatchHasWay(stack, root, r);
      case Arm(_, patterns, body) =>
        ArmUses(stack, root);
        links, leaf := UseHasWay(stack + [TokenBinders(patterns)], body, r);
        links := Prepend(root, body, TokenBinders(patterns), links, leaf);
      case Compound(_, parts) =>
        var i := UsedMember(stack, parts, r);
        links, leaf := UseHasWay(stack, parts[i], r);
        links := Prepend(root, parts[i], [], links, leaf);
      case Function(_, inputs, body, assertions) =>
        var inner := stack + [TokenBinders(inputs)];
        FunctionUses(stack, root);
        if r in Uses(inner, Shape(body)) {
          links, leaf := UseHasWay(inner, body, r);
          links := Prepend(root, body, TokenBinders(inputs), links, leaf);
        } else {
          var i := UsedMember(inner, assertions, r);
          links, leaf := UseHasWay(inner, assertions[i], r);
          links := Prepend(root, assertions[i], TokenBinders(inputs), links, leaf);
        }
    }
  }

  lemma {:induction false} UsedCall(stack: Stack, chain: seq<Entry>, r: Resolved) returns (j: nat, i: nat)
    requires (forall j | 0 <= j < |chain| :: AllInner(chain[j].calls)) && r in Uses(stack + [[]], ChainShape(chain))
    ensures j < |chain| && i < |chain[j].calls| && Parsed(chain[j].calls[i])
    ensures r in Uses(stack + [EntryBinders(chain[..j])], Shape(chain[j].calls[i]))
  {
    ChainWalk(stack, chain);
    hide Uses, Shape, ShapeAll, ChainShape, AllInner, EntryBinders;
    j :| j < |chain| && r in Uses(stack + [EntryBinders(chain[..j])], ShapeAll(chain[j].calls));
    i := UsedMember(stack + [EntryBinders(chain[..j])], chain[j].calls, r);
  }

  lemma {:induction false} CallEnclosed(node: Syntax, j: nat, i: nat)
    requires node.Match? && j < |node.chain| && i < |node.chain[j].calls|
    ensures Encloses(node, node.chain[j].calls[i], EntryBinders(node.chain[..j]))
  {
    hide EntryBinders;
  }

  lemma {:induction false} MatchHasWay(stack: Stack, root: Syntax, r: Resolved) returns (links: seq<Link>, leaf: Syntax)
    requires root.Match? && Parsed(root) && r in Uses(stack, Shape(root))
    ensures Way(root, links, leaf) && leaf.Name? && leaf.name == r.name && leaf.span.start == r.at
    decreases root, 0
  {
    var inner := stack + [EntryBinders(root.chain)];
    MatchUses(stack, root);
    InnerParts(root);
    hide Uses, Shape, ShapeAll, ChainShape, Parsed, AllInner, EntryBinders, Way;
    if r in Uses(stack, ShapeAll(root.values)) {
      var i := UsedMember(stack, root.values, r);
      links, leaf := UseHasWay(stack, root.values[i], r);
      links := Prepend(root, root.values[i], [], links, leaf);
    } else if r in Uses(stack + [[]], ChainShape(root.chain)) {
      var j, i := UsedCall(stack, root.chain, r);
      CallEnclosed(root, j, i);
      links, leaf := UseHasWay(stack + [EntryBinders(root.chain[..j])], root.chain[j].calls[i], r);
      links := Prepend(root, root.chain[j].calls[i], EntryBinders(root.chain[..j]), links, leaf);
    } else if r in Uses(inner, ShapeAll(root.whens)) {
      var i := UsedMember(inner, root.whens, r);
      links, leaf := UseHasWay(inner, root.whens[i], r);
      links := Prepend(root, root.whens[i], EntryBinders(root.chain), links, leaf);
    } else {
      var i := UsedMember(inner, root.arms, r);
      links, leaf := UseHasWay(inner, root.arms[i], r);
      links := Prepend(root, root.arms[i], EntryBinders(root.chain), links, leaf);
    }
  }

  lemma {:induction false} Prepend(node: Syntax, part: Syntax, before: seq<Binder>, links: seq<Link>, leaf: Syntax) returns (longer: seq<Link>)
    requires Encloses(node, part, before) && Way(part, links, leaf)
    ensures longer == [Link(node, before)] + links && Way(node, longer, leaf)
  {
    hide Encloses;
    longer := [Link(node, before)] + links;
    assert longer[1..] == links && longer[0] == Link(node, before);
    assert Encloses(node, part, longer[0].before) && Way(part, longer[1..], leaf);
  }

  lemma {:induction false} UsedStep(stack: Stack, node: Syntax, r: Resolved) returns (i: nat)
    requires node.Block? && Parsed(node) && r in Uses(stack, Shape(node))
    ensures i < |node.steps| && Parsed(node.steps[i]) && r in Uses(stack + [StepBinders(node.steps[..i])], Shape(node.steps[i]))
  {
    BlockUses(stack, node);
    StepsWalk(stack, node.steps);
    hide Uses, Shape, ShapeAll, StepBinders;
    i :| i < |node.steps| && r in Uses(stack + [StepBinders(node.steps[..i])], Shape(node.steps[i]));
  }

  lemma {:induction false} UsedMember(stack: Stack, nodes: seq<Syntax>, r: Resolved) returns (i: nat)
    requires AllInner(nodes) && r in Uses(stack, ShapeAll(nodes))
    ensures i < |nodes| && Parsed(nodes[i]) && r in Uses(stack, Shape(nodes[i]))
  {
    ListUses(stack, nodes);
    hide Uses, Shape, ShapeAll;
    i :| i < |nodes| && r in Uses(stack, Shape(nodes[i]));
    InnerMember(nodes, i);
  }

  // --------------------------------------------------------------------------- one file ---

  /** Uses come one after the other, so that a position has one use at most. */
  ghost predicate Rising(uses: seq<Resolved>, p: int, q: int) {
    && (forall i | 0 <= i < |uses| :: p < uses[i].at <= q)
    && (forall i, j | 0 <= i < j < |uses| :: uses[i].at < uses[j].at)
  }

  lemma {:induction false} RisingAppend(a: seq<Resolved>, b: seq<Resolved>, p: int, q: int, r: int)
    requires Rising(a, p, q) && Rising(b, q, r) && p <= q <= r
    ensures Rising(a + b, p, r)
  {
  }

  lemma {:induction false} NodeRises(stack: Stack, node: Node, p: int)
    requires Fits(p, node)
    ensures Rising(UsesOf(stack, node), p, Reached(p, node)) && p <= Reached(p, node)
    decreases node, 1
  {
    if node.Frame? {
      var q := Max(p, node.span.start - 1);
      AllRise(stack + [[]], node.items, q);
    }
  }

  lemma {:induction false} AllRise(stack: Stack, nodes: seq<Node>, p: int)
    requires FitsAll(p, nodes)
    ensures Rising(Uses(stack, nodes), p, ReachedAll(p, nodes)) && p <= ReachedAll(p, nodes)
    decreases nodes, 0
  {
    if nodes != [] {
      var q := Reached(p, nodes[0]);
      NodeRises(stack, nodes[0], p);
      AllRise(StackAfter(stack, [nodes[0]]), nodes[1..], q);
      RisingAppend(UsesOf(stack, nodes[0]), Uses(StackAfter(stack, [nodes[0]]), nodes[1..]), p, q, ReachedAll(q, nodes[1..]));
      hide Uses, UsesOf, Rising, Fits, FitsAll;
    }
  }

  /** A file as the parser gives it. */
  ghost predicate File(declarations: seq<Syntax>, p: int, end: int) {
    ListOk(p, declarations, end) && AllInner(declarations)
  }

  /** Every name in the file is resolved, to what the constructs around it make it mean. */
  lemma {:induction false} NamesResolved(declarations: seq<Syntax>, p: int, end: int, d: nat, links: seq<Link>, leaf: Syntax) returns (r: Resolved)
    requires File(declarations, p, end) && d < |declarations| && Way(declarations[d], links, leaf) && leaf.Name?
    ensures r in Uses([], ShapeAll(declarations)) && r.name == leaf.name && r.at == leaf.span.start
    ensures Means(links, r.name, r.binder)
  {
    ListMember(p, declarations, end, d);
    InnerMember(declarations, d);
    ListUses([], declarations);
    WayIsResolved([], declarations[d], links, leaf);
    assert Flat([]) + Seen(links) == Seen(links);
    SeenMeans(links, leaf.name);
    r := Resolved(leaf.name, leaf.span.start, LastNamed(Seen(links), leaf.name));
    hide Uses, Shape, ShapeAll, Seen, LastNamed, Means;
  }

  /** And nothing else is: every use is a name in the file, no two at one position, and its binder
      is what the constructs around the name make it mean. */
  lemma {:induction false} UsesAreNames(declarations: seq<Syntax>, p: int, end: int, r: Resolved) returns (d: nat, links: seq<Link>, leaf: Syntax)
    requires File(declarations, p, end) && r in Uses([], ShapeAll(declarations))
    ensures d < |declarations| && Way(declarations[d], links, leaf) && leaf.Name? && leaf.name == r.name && leaf.span.start == r.at
    ensures Means(links, r.name, r.binder)
  {
    d := UsedMember([], declarations, r);
    links, leaf := UseHasWay([], declarations[d], r);
    var other := NamesResolved(declarations, p, end, d, links, leaf);
    OneUse(declarations, p, end, r, other);
  }

  lemma {:induction false} OneUse(declarations: seq<Syntax>, p: int, end: int, r: Resolved, other: Resolved)
    requires File(declarations, p, end) && r in Uses([], ShapeAll(declarations)) && other in Uses([], ShapeAll(declarations)) && r.at == other.at
    ensures r == other
  {
    ListPlaced(p, declarations, end);
    AllRise([], ShapeAll(declarations), p);
    var uses := Uses([], ShapeAll(declarations));
    hide Uses, ShapeAll;
    var i :| 0 <= i < |uses| && uses[i] == r;
    var j :| 0 <= j < |uses| && uses[j] == other;
  }

  ghost predicate MeansAt(declarations: seq<Syntax>, r: Resolved, d: nat, links: seq<Link>, leaf: Syntax) {
    && d < |declarations| && Way(declarations[d], links, leaf) && leaf.Name? && leaf.name == r.name && leaf.span.start == r.at
    && Means(links, r.name, r.binder)
  }

  /** The uses are exactly the names of the file, each with its meaning. */
  ghost predicate Meaningful(declarations: seq<Syntax>, uses: seq<Resolved>) {
    && (forall r | r in uses :: exists d, links, leaf :: MeansAt(declarations, r, d, links, leaf))
    && (forall d: nat, links, leaf | d < |declarations| && Way(declarations[d], links, leaf) && leaf.Name? ::
          exists r :: r in uses && MeansAt(declarations, r, d, links, leaf))
  }

  lemma {:induction false} FileMeaningful(declarations: seq<Syntax>, p: int, end: int)
    requires File(declarations, p, end)
    ensures Meaningful(declarations, Uses([], ShapeAll(declarations)))
  {
    hide Uses, ShapeAll, File, Way, Means;
    var uses := Uses([], ShapeAll(declarations));
    forall r | r in uses ensures exists d, links, leaf :: MeansAt(declarations, r, d, links, leaf) {
      var d, links, leaf := UsesAreNames(declarations, p, end, r);
      assert MeansAt(declarations, r, d, links, leaf);
    }
    forall d: nat, links, leaf | d < |declarations| && Way(declarations[d], links, leaf) && leaf.Name?
      ensures exists r :: r in uses && MeansAt(declarations, r, d, links, leaf)
    {
      var r := NamesResolved(declarations, p, end, d, links, leaf);
      assert MeansAt(declarations, r, d, links, leaf);
    }
  }

  /** What walking a tree inside what is in scope resolves. */
  ghost predicate NamesFound(scope: seq<Binder>, root: Syntax, uses: seq<Resolved>) {
    forall links, leaf | Way(root, links, leaf) && leaf.Name? ::
      Resolved(leaf.name, leaf.span.start, LastNamed(scope + Seen(links), leaf.name)) in uses
  }

  lemma {:induction false} NodeMeans(stack: Stack, root: Syntax)
    ensures Inner(root) ==> StackAfter(stack, Shape(root)) == stack
    ensures ScopesAgree.Ok(root) && Parsed(root) && Behind(Flat(stack), root.span.start) ==> NamesFound(Flat(stack), root, Uses(stack, Shape(root)))
  {
    if Inner(root) { InnerAfter(stack, root); }
    hide Uses, Shape, StackAfter, Inner, Flat, Behind, ScopesAgree.Ok, Way;
    if ScopesAgree.Ok(root) && Parsed(root) && Behind(Flat(stack), root.span.start) {
      forall links, leaf | Way(root, links, leaf) && leaf.Name?
        ensures Resolved(leaf.name, leaf.span.start, LastNamed(Flat(stack) + Seen(links), leaf.name)) in Uses(stack, Shape(root))
      {
        WayIsResolved(stack, root, links, leaf);
      }
    }
  }
}
