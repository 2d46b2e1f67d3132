/** Local names in a syntax tree, resolved in two ways: with a stack of scopes during the walk,
    and from retained spans afterwards. */
module Scopes {
  import opened Wrappers
  import opened Rename

  // ------------------------------------------------------------------------- syntax ---

  datatype Token = Token(name: string, at: int)

  /** One step of a match chain: what it calls, and the name it binds the result to. */
  datatype Entry = Entry(span: Span, calls: seq<Syntax>, binding: Option<Token>)

  /** A block holds its steps and its terminal body; an arm or a function binds names and then
      has a body. Everything without scoping of its own (calls, operators, coordinations,
      assertions) is a compound of its parts. */
  datatype Syntax =
    | Name(span: Span, name: string)
    | Binding(span: Span, token: Token, value: Syntax)
    | Block(span: Span, steps: seq<Syntax>)
    | Match(span: Span, values: seq<Syntax>, chain: seq<Entry>, whens: seq<Syntax>, arms: seq<Syntax>)
    | Arm(span: Span, patterns: seq<Token>, body: Syntax)
    | Compound(span: Span, parts: seq<Syntax>)
    | Function(span: Span, inputs: seq<Token>, body: Syntax, assertions: seq<Syntax>)

  /** What both walks do, in the order they do it: a use is resolved, a name is bound in the
      innermost scope, or a scope is entered and left around some of this. A name becomes
      visible after `from`. */
  datatype Node = Use(name: string, at: int) | Bind(name: string, at: int, from: int) | Frame(span: Span, items: seq<Node>)

  function Tokens(tokens: seq<Token>): seq<Node> {
    if tokens == [] then [] else [Bind(tokens[0].name, tokens[0].at, tokens[0].at)] + Tokens(tokens[1..])
  }

  function ShapeAll(nodes: seq<Syntax>): seq<Node>
    decreases nodes, 0
  {
    if nodes == [] then [] else Shape(nodes[0]) + ShapeAll(nodes[1..])
  }

  function EntryShape(e: Entry): seq<Node>
    decreases e, 0
  {
    ShapeAll(e.calls) + match e.binding case None => [] case Some(t) => [Bind(t.name, t.at, e.span.end)]
  }

  function ChainShape(chain: seq<Entry>): seq<Node>
    decreases chain, 0
  {
    if chain == [] then [] else EntryShape(chain[0]) + ChainShape(chain[1..])
  }

  function Shape(node: Syntax): seq<Node>
    decreases node, 1
  {
    match node
    case Name(span, name) => [Use(name, span.start)]
    case Binding(span, token, value) => Shape(value) + [Bind(token.name, token.at, span.end)]
    case Block(span, steps) => [Frame(span, ShapeAll(steps))]
    case Match(span, values, chain, whens, arms) =>
      ShapeAll(values) + [Frame(span, ChainShape(chain) + ShapeAll(whens) + ShapeAll(arms))]
    case Arm(span, patterns, body) => [Frame(span, Tokens(patterns) + Shape(body))]
    case Compound(_, parts) => ShapeAll(parts)
    case Function(span, inputs, body, assertions) => [Frame(span, Tokens(inputs) + Shape(body) + ShapeAll(assertions))]
  }

  // ------------------------------------------------------------------- during the walk ---

  datatype Binder = Binder(name: string, at: int, from: int)

  /** Open scopes, outermost first. */
  type Stack = seq<seq<Binder>>

  /** The last binder of the name in a scope that starts before the use. */
  function LastBefore(binders: seq<Binder>, name: string, offset: int): Option<Binder> {
    if binders == [] then None
    else
      var last := binders[|binders| - 1];
      if last.name == name && last.at < offset then Some(last) else LastBefore(binders[..|binders| - 1], name, offset)
  }

  /** Scopes inside out. */
  function StackLookup(scopes: Stack, name: string, offset: int): Option<Binder> {
    if scopes == [] then None
    else
      var best := LastBefore(scopes[|scopes| - 1], name, offset);
      if best.Some? then best else StackLookup(scopes[..|scopes| - 1], name, offset)
  }

  datatype Resolved = Resolved(name: string, at: int, binder: Option<Binder>)

  function Bound(scopes: Stack, b: Binder): Stack {
    if scopes == [] then scopes else scopes[|scopes| - 1 := scopes[|scopes| - 1] + [b]]
  }

  /** The stack after a stretch of the walk: scopes entered there are left again. */
  function StackAfter(scopes: Stack, nodes: seq<Node>): (after: Stack)
    ensures |after| == |scopes|
    decreases nodes
  {
    if nodes == [] then scopes
    else if nodes[0].Bind? then StackAfter(Bound(scopes, Binder(nodes[0].name, nodes[0].at, nodes[0].from)), nodes[1..])
    else StackAfter(scopes, nodes[1..])
  }

  function UsesOf(scopes: Stack, node: Node): seq<Resolved>
    decreases node, 1
  {
    match node
    case Use(name, at) => [Resolved(name, at, StackLookup(scopes, name, at))]
    case Bind(_, _, _) => []
    case Frame(_, items) => Uses(scopes + [[]], items)
  }

  /** How the walk resolves every use, in order. */
  function Uses(scopes: Stack, nodes: seq<Node>): seq<Resolved>
    decreases nodes, 0
  {
    if nodes == [] then [] else UsesOf(scopes, nodes[0]) + Uses(StackAfter(scopes, [nodes[0]]), nodes[1..])
  }

  // -------------------------------------------------------------------- after the walk ---

  /** A retained scope. */
  datatype Scope = Scope(span: Span, depth: nat, binders: seq<Binder>)

  /** Scopes entered so far, and which of them are open, outermost first. */
  function ScopesOf(frames: seq<Scope>, open: seq<nat>, node: Node): (after: seq<Scope>)
    ensures |after| >= |frames|
    decreases node, 1
  {
    match node
    case Use(_, _) => frames
    case Bind(name, at, from) =>
      if open == [] || open[|open| - 1] >= |frames| then frames else
      var i := open[|open| - 1];
      frames[i := frames[i].(binders := frames[i].binders + [Binder(name, at, from)])]
    case Frame(span, items) => ScopesAfter(frames + [Scope(span, |open|, [])], open + [|frames|], items)
  }

  function ScopesAfter(frames: seq<Scope>, open: seq<nat>, nodes: seq<Node>): (after: seq<Scope>)
    ensures |after| >= |frames|
    decreases nodes, 0
  {
    if nodes == [] then frames else ScopesAfter(ScopesOf(frames, open, nodes[0]), open, nodes[1..])
  }

  /** Both ends count as covered. */
  predicate CoversEnd(s: Span, offset: int) {
    s.start <= offset <= s.end
  }

  /** The last binder of the name in a scope that is visible before the offset. */
  function LastVisible(binders: seq<Binder>, name: string, offset: int): Option<Binder> {
    if binders == [] then None
    else
      var last := binders[|binders| - 1];
      if last.name == name && last.from < offset then Some(last) else LastVisible(binders[..|binders| - 1], name, offset)
  }

  /** Keeps a list of scopes deepest first. */
  function InsertByDepth(frames: seq<Scope>, sorted: seq<nat>, i: nat): (r: seq<nat>)
    requires i < |frames| && forall j | 0 <= j < |sorted| :: sorted[j] <= i
    ensures forall j | 0 <= j < |r| :: r[j] <= i
  {
    if sorted == [] then [i]
    else if frames[sorted[0]].depth < frames[i].depth then [i] + sorted
    else [sorted[0]] + InsertByDepth(frames, sorted[1..], i)
  }

  /** The scopes covering the offset among the first n, deepest first. */
  function Covering(frames: seq<Scope>, offset: int, n: nat): (sorted: seq<nat>)
    requires n <= |frames|
    ensures forall j | 0 <= j < |sorted| :: sorted[j] < n
  {
    if n == 0 then [] else
    var before := Covering(frames, offset, n - 1);
    if CoversEnd(frames[n - 1].span, offset) then InsertByDepth(frames, before, n - 1) else before
  }

  ghost predicate DeepestFirst(frames: seq<Scope>, sorted: seq<nat>) {
    && (forall j | 0 <= j < |sorted| :: sorted[j] < |frames|)
    && (forall j, k | 0 <= j < k < |sorted| :: frames[sorted[j]].depth >= frames[sorted[k]].depth)
  }

  lemma {:induction false} InsertKeeps(frames: seq<Scope>, sorted: seq<nat>, i: nat)
    requires i < |frames| && (forall j | 0 <= j < |sorted| :: sorted[j] <= i) && DeepestFirst(frames, sorted)
    ensures var r := InsertByDepth(frames, sorted, i); DeepestFirst(frames, r) && forall x :: x in r <==> x in sorted || x == i
    decreases |sorted|
  {
    if sorted != [] {
      assert sorted == [sorted[0]] + sorted[1..];
      if frames[sorted[0]].depth >= frames[i].depth {
        var rest := InsertByDepth(frames, sorted[1..], i);
        InsertKeeps(frames, sorted[1..], i);
        forall x | x in rest ensures frames[sorted[0]].depth >= frames[x].depth {
          if x != i {
            var j :| 0 <= j < |sorted[1..]| && sorted[1..][j] == x;
            assert sorted[j + 1] == x;
          }
        }
      }
    }
  }

  lemma {:induction false} CoveringNext(frames: seq<Scope>, offset: int, n: nat)
    requires 0 < n <= |frames|
    ensures Covering(frames, offset, n)
         == if CoversEnd(frames[n - 1].span, offset) then InsertByDepth(frames, Covering(frames, offset, n - 1), n - 1)
            else Covering(frames, offset, n - 1)
  {
    hide InsertByDepth, CoversEnd;
  }

  lemma {:induction false} CoveringNone(frames: seq<Scope>, offset: int)
    ensures Covering(frames, offset, 0) == [] && DeepestFirst(frames, [])
  {
  }

  lemma {:induction false} CoveringIs(frames: seq<Scope>, offset: int, n: nat)
    requires n <= |frames|
    ensures DeepestFirst(frames, Covering(frames, offset, n))
    ensures forall i: nat :: i in Covering(frames, offset, n) <==> i < n && CoversEnd(frames[i].span, offset)
  {
    hide *;
    if n == 0 {
      CoveringNone(frames, offset);
    } else {
      CoveringIs(frames, offset, n - 1);
      CoveringNext(frames, offset, n);
      if CoversEnd(frames[n - 1].span, offset) {
        InsertKeeps(frames, Covering(frames, offset, n - 1), n - 1);
      }
    }
  }

  function FirstVisible(frames: seq<Scope>, sorted: seq<nat>, name: string, offset: int): Option<Binder>
    requires forall j | 0 <= j < |sorted| :: sorted[j] < |frames|
  {
    if sorted == [] then None
    else
      var best := LastVisible(frames[sorted[0]].binders, name, offset);
      if best.Some? then best else FirstVisible(frames, sorted[1..], name, offset)
  }

  /** Resolves a name at an offset from the retained scopes alone. */
  function Lookup(frames: seq<Scope>, name: string, offset: int): Option<Binder> {
    FirstVisible(frames, Covering(frames, offset, |frames|), name, offset)
  }

  /** The scope shows a binder of the name at the offset. */
  predicate Shows(frames: seq<Scope>, i: nat, name: string, offset: int)
    requires i < |frames|
  {
    CoversEnd(frames[i].span, offset) && LastVisible(frames[i].binders, name, offset).Some?
  }

  /** A scope's binder wins when no scope that shows the name is deeper. */
  ghost predicate Wins(frames: seq<Scope>, i: nat, name: string, offset: int) {
    && i < |frames| && Shows(frames, i, name, offset)
    && forall j | 0 <= j < |frames| && Shows(frames, j, name, offset) :: frames[j].depth <= frames[i].depth
  }

  lemma {:induction false} FirstVisibleWins(frames: seq<Scope>, sorted: seq<nat>, name: string, offset: int) returns (w: nat)
    requires DeepestFirst(frames, sorted)
    requires FirstVisible(frames, sorted, name, offset).Some?
    ensures w in sorted && w < |frames| && LastVisible(frames[w].binders, name, offset) == FirstVisible(frames, sorted, name, offset)
    ensures forall j | 0 <= j < |sorted| && LastVisible(frames[sorted[j]].binders, name, offset).Some? :: frames[sorted[j]].depth <= frames[w].depth
    decreases |sorted|
  {
    assert sorted == [sorted[0]] + sorted[1..];
    if LastVisible(frames[sorted[0]].binders, name, offset).Some? {
      w := sorted[0];
    } else {
      assert forall j | 0 <= j < |sorted| - 1 :: sorted[1..][j] == sorted[j + 1];
      w := FirstVisibleWins(frames, sorted[1..], name, offset);
    }
  }

  lemma {:induction false} FirstVisibleNone(frames: seq<Scope>, sorted: seq<nat>, name: string, offset: int)
    requires forall j | 0 <= j < |sorted| :: sorted[j] < |frames|
    requires FirstVisible(frames, sorted, name, offset).None?
    ensures forall i | i in sorted :: LastVisible(frames[i].binders, name, offset).None?
    decreases |sorted|
  {
    if sorted != [] {
      assert sorted == [sorted[0]] + sorted[1..];
      FirstVisibleNone(frames, sorted[1..], name, offset);
    }
  }

  /** The lookup finds the deepest scope that shows the name, or there is none. */
  lemma {:induction false} LookupWins(frames: seq<Scope>, name: string, offset: int) returns (w: nat)
    ensures Lookup(frames, name, offset).Some? ==>
              Wins(frames, w, name, offset) && LastVisible(frames[w].binders, name, offset) == Lookup(frames, name, offset)
    ensures Lookup(frames, name, offset).None? ==> forall i | 0 <= i < |frames| :: !Shows(frames, i, name, offset)
  {
    var sorted := Covering(frames, offset, |frames|);
    CoveringIs(frames, offset, |frames|);
    if Lookup(frames, name, offset).Some? {
      w := FirstVisibleWins(frames, sorted, name, offset);
      forall j | 0 <= j < |frames| && Shows(frames, j, name, offset) ensures frames[j].depth <= frames[w].depth {
        var k :| 0 <= k < |sorted| && sorted[k] == j;
      }
    } else {
      w := 0;
      FirstVisibleNone(frames, sorted, name, offset);
    }
  }
}
