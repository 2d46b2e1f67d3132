/** The two walkers as they run: one resolves names on a stack while it walks, the other keeps
    every scope it enters and answers queries afterwards. */
module ScopeWalkers {
  import opened Wrappers
  import opened Rename
  import opened Scopes
  import opened ScopesAgree
  import ScopeMeaning
  import ScopeRetained

  // -------------------------------------------------------------- during the walk ---

  datatype Walk = Walk(scopes: Stack, uses: seq<Resolved>)

  ghost function Walked(w: Walk, nodes: seq<Node>): Walk {
    Walk(StackAfter(w.scopes, nodes), w.uses + Uses(w.scopes, nodes))
  }

  lemma {:induction false} WalkedAppend(w: Walk, a: seq<Node>, b: seq<Node>)
    ensures Walked(w, a + b) == Walked(Walked(w, a), b)
  {
    StackAppend(w.scopes, a, b);
    UsesAppend(w.scopes, a, b);
  }

  lemma {:induction false} WalkedNothing(w: Walk)
    ensures Walked(w, []) == w
  {
  }

  /** What is walked inside a scope, once it is left again. */
  lemma {:induction false} WalkedFrame(w: Walk, span: Span, items: seq<Node>)
    ensures var inner := Walked(Walk(w.scopes + [[]], w.uses), items);
            |inner.scopes| == |w.scopes| + 1 && Walked(w, [Frame(span, items)]) == Walk(inner.scopes[..|w.scopes|], inner.uses)
  {
    AfterOne(w.scopes, Frame(span, items));
    OneNode(w.scopes, [], [], Frame(span, items));
    StackBelow(w.scopes, [], items);
  }

  class RefWalker {
    var scopes: Stack
    var occs: seq<Resolved>

    ghost function View(): Walk
      reads this
    {
      Walk(scopes, occs)
    }

    constructor ()
      ensures View() == Walk([], [])
    {
      scopes, occs := [], [];
    }

    method Push()
      modifies this`scopes
      ensures scopes == old(scopes) + [[]]
    {
      scopes := scopes + [[]];
    }

    method Pop()
      requires |scopes| > 0
      modifies this`scopes
      ensures scopes == old(scopes)[..|old(scopes)| - 1]
    {
      scopes := scopes[..|scopes| - 1];
    }

    method BindName(name: string, at: int, from: int)
      modifies this`scopes
      ensures View() == Walked(old(View()), [Bind(name, at, from)])
    {
      AfterOne(scopes, Bind(name, at, from));
      OneNode(scopes, [], [], Bind(name, at, from));
      var n := |scopes|;
      if n > 0 {
        scopes := scopes[n - 1 := scopes[n - 1] + [Binder(name, at, from)]];
      }
    }

    /** Frames inside out, and within a frame the nearest binder before the use. */
    method FindBinder(name: string, offset: int) returns (found: Option<Binder>)
      ensures found == StackLookup(scopes, name, offset)
    {
      var i := |scopes|;
      assert scopes[..i] == scopes;
      while i > 0
        invariant 0 <= i <= |scopes| && StackLookup(scopes, name, offset) == StackLookup(scopes[..i], name, offset)
      {
        var best: Option<Binder> := None;
        var binders := scopes[i - 1];
        for k := 0 to |binders|
          invariant best == LastBefore(binders[..k], name, offset)
        {
          assert binders[..k + 1][..k] == binders[..k];
          if binders[k].name == name && binders[k].at < offset {
            best := Some(binders[k]);
          }
        }
        assert binders[..|binders|] == binders;
        assert scopes[..i][..i - 1] == scopes[..i - 1] && scopes[..i][i - 1] == binders;
        if best.Some? {
          return best;
        }
        i := i - 1;
      }
      found := None;
    }

    method UseName(name: string, at: int)
      modifies this`occs
      ensures View() == Walked(old(View()), [Use(name, at)])
    {
      AfterOne(scopes, Use(name, at));
      OneNode(scopes, [], [], Use(name, at));
      var binder := FindBinder(name, at);
      occs := occs + [Resolved(name, at, binder)];
    }

    method WalkTokens(tokens: seq<Token>)
      modifies this
      ensures View() == Walked(old(View()), Tokens(tokens))
    {
      hide Walked;
      WalkedNothing(View());
      for i := 0 to |tokens|
        invariant View() == Walked(old(View()), Tokens(tokens[..i]))
      {
        TokensLast(tokens, i);
        WalkedAppend(old(View()), Tokens(tokens[..i]), [Bind(tokens[i].name, tokens[i].at, tokens[i].at)]);
        BindName(tokens[i].name, tokens[i].at, tokens[i].at);
      }
      assert tokens[..|tokens|] == tokens;
    }

    method WalkAll(nodes: seq<Syntax>)
      modifies this
      ensures View() == Walked(old(View()), ShapeAll(nodes))
      decreases nodes, 0
    {
      hide Walked;
      WalkedNothing(View());
      for i := 0 to |nodes|
        invariant View() == Walked(old(View()), ShapeAll(nodes[..i]))
      {
        ShapeLast(nodes, i);
        WalkedAppend(old(View()), ShapeAll(nodes[..i]), Shape(nodes[i]));
        WalkNode(nodes[i]);
      }
      assert nodes[..|nodes|] == nodes;
    }

    method WalkChain(chain: seq<Entry>)
      modifies this
      ensures View() == Walked(old(View()), ChainShape(chain))
      decreases chain, 0
    {
      hide Walked;
      WalkedNothing(View());
      for i := 0 to |chain|
        invariant View() == Walked(old(View()), ChainShape(chain[..i]))
      {
        ChainLast(chain, i);
        WalkedAppend(old(View()), ChainShape(chain[..i]), EntryShape(chain[i]));
        WalkEntry(chain[i]);
      }
      assert chain[..|chain|] == chain;
    }

    method WalkEntry(e: Entry)
      modifies this
      ensures View() == Walked(old(View()), EntryShape(e))
      decreases e, 0
    {
      hide Walked;
      WalkedAppend(View(), ShapeAll(e.calls), BindingShape(e));
      WalkAll(e.calls);
      WalkedNothing(View());
      if e.binding.Some? {
        BindName(e.binding.value.name, e.binding.value.at, e.span.end);
      }
    }

    method WalkNode(node: Syntax)
      modifies this
      ensures View() == Walked(old(View()), Shape(node))
      ensures ScopeMeaning.Inner(node) ==> scopes == old(scopes)
      ensures ScopesAgree.Ok(node) && ScopeMeaning.Parsed(node) && ScopeMeaning.Behind(ScopeMeaning.Flat(old(scopes)), node.span.start) ==>
                old(occs) <= occs && ScopeMeaning.NamesFound(ScopeMeaning.Flat(old(scopes)), node, occs[|old(occs)|..])
      decreases node, 2
    {
      WalkParts(node);
      ScopeMeaning.NodeMeans(old(scopes), node);
      assert occs[|old(occs)|..] == Uses(old(scopes), Shape(node));
      hide ScopeMeaning.NamesFound, ScopeMeaning.Inner, ScopeMeaning.Parsed, ScopesAgree.Ok, Uses, StackAfter;
    }

    method WalkParts(node: Syntax)
      modifies this
      ensures View() == Walked(old(View()), Shape(node))
      decreases node, 1
    {
      match node {
        case Name(span, name) => UseName(name, span.start);
        case Binding(span, token, value) =>
          // The value walks first: an initialiser never sees the name it defines.
          WalkedAppend(View(), Shape(value), [Bind(token.name, token.at, span.end)]);
          WalkNode(value);
          BindName(token.name, token.at, span.end);
        case Block(span, steps) =>
          WalkedFrame(View(), span, ShapeAll(steps));
          Push();
          WalkAll(steps);
          Pop();
        case Match(_, _, _, _, _) => WalkMatch(node);
        case Arm(_, _, _) => WalkArm(node);
        case Compound(_, parts) => WalkAll(parts);
        case Function(_, _, _, _) => WalkFunction(node);
      }
    }

    method WalkMatch(node: Syntax)
      requires node.Match?
      modifies this
      ensures View() == Walked(old(View()), Shape(node))
      decreases node, 0
    {
      ghost var items := ChainShape(node.chain) + ShapeAll(node.whens) + ShapeAll(node.arms);
      WalkedAppend(View(), ShapeAll(node.values), [Frame(node.span, items)]);
      WalkAll(node.values);
      WalkedFrame(View(), node.span, items);
      Push();
      hide Walked;
      ghost var w := View();
      WalkedAppend(w, ChainShape(node.chain), ShapeAll(node.whens));
      WalkedAppend(w, ChainShape(node.chain) + ShapeAll(node.whens), ShapeAll(node.arms));
      WalkChain(node.chain);
      WalkAll(node.whens);
      WalkAll(node.arms);
      Pop();
    }

    method WalkArm(node: Syntax)
      requires node.Arm?
      modifies this
      ensures View() == Walked(old(View()), Shape(node))
      decreases node, 0
    {
      WalkedFrame(View(), node.span, Tokens(node.patterns) + Shape(node.body));
      Push();
      hide Walked;
      WalkedAppend(View(), Tokens(node.patterns), Shape(node.body));
      WalkTokens(node.patterns);
      WalkNode(node.body);
      Pop();
    }

    method WalkFunction(node: Syntax)
      requires node.Function?
      modifies this
      ensures View() == Walked(old(View()), Shape(node))
      decreases node, 0
    {
      ghost var head := Tokens(node.inputs) + Shape(node.body);
      WalkedFrame(View(), node.span, head + ShapeAll(node.assertions));
      Push();
      hide Walked;
      WalkedAppend(View(), Tokens(node.inputs), Shape(node.body));
      WalkedAppend(View(), head, ShapeAll(node.assertions));
      WalkTokens(node.inputs);
      WalkNode(node.body);
      WalkAll(node.assertions);
      Pop();
    }
  }

  // --------------------------------------------------------------- after the walk ---

  /** The last binder per name that is visible before the offset. */
  ghost predicate ByNameOk(named: map<string, Binder>, binders: seq<Binder>, offset: int) {
    forall name :: ByNameAt(named, binders, offset, name)
  }

  ghost predicate ByNameAt(named: map<string, Binder>, binders: seq<Binder>, offset: int, name: string) {
    LastVisible(binders, name, offset) == if name in named then Some(named[name]) else None
  }

  method ByName(binders: seq<Binder>, offset: int) returns (named: map<string, Binder>)
    ensures ByNameOk(named, binders, offset)
  {
    named := map[];
    for k := 0 to |binders|
      invariant ByNameOk(named, binders[..k], offset)
    {
      ghost var before := named;
      assert binders[..k + 1][..k] == binders[..k];
      if binders[k].from < offset {
        named := named[binders[k].name := binders[k]];
      }
      ghost var prefix := binders[..k + 1];
      forall name ensures ByNameAt(named, prefix, offset, name) {
        assert ByNameAt(before, binders[..k], offset, name);
      }
    }
    assert binders[..|binders|] == binders;
  }

  lemma {:induction false} NamedRight(binders: seq<Binder>, name: string, offset: int)
    ensures LastVisible(binders, name, offset).Some? ==> LastVisible(binders, name, offset).value.name == name
    decreases |binders|
  {
    if binders != [] {
      NamedRight(binders[..|binders| - 1], name, offset);
    }
  }

  ghost function NamesOf(items: seq<Binder>): set<string> {
    set i | 0 <= i < |items| :: items[i].name
  }

  /** One item per name that resolves, and it is what the name resolves to. */
  ghost predicate Listed(items: seq<Binder>, seen: set<string>, frames: seq<Scope>, sorted: seq<nat>, offset: int)
    requires forall j | 0 <= j < |sorted| :: sorted[j] < |frames|
  {
    && Distinct(items) && seen == NamesOf(items)
    && (forall i | 0 <= i < |items| :: FirstVisible(frames, sorted, items[i].name, offset) == Some(items[i]))
    && (forall name :: FirstVisible(frames, sorted, name, offset).Some? <==> name in seen)
  }

  lemma {:induction false} FirstVisibleLast(frames: seq<Scope>, sorted: seq<nat>, i: nat, name: string, offset: int)
    requires i < |frames| && forall j | 0 <= j < |sorted| :: sorted[j] < |frames|
    ensures FirstVisible(frames, sorted + [i], name, offset)
         == if FirstVisible(frames, sorted, name, offset).Some? then FirstVisible(frames, sorted, name, offset)
            else LastVisible(frames[i].binders, name, offset)
    decreases |sorted|
  {
    if sorted == [] {
      var none: seq<nat> := [];
      assert sorted + [i] == [i] && [i][1..] == none;
    } else {
      assert (sorted + [i])[0] == sorted[0] && (sorted + [i])[1..] == sorted[1..] + [i];
      FirstVisibleLast(frames, sorted[1..], i, name, offset);
    }
  }

  ghost predicate Distinct(items: seq<Binder>) {
    forall i, j | 0 <= i < j < |items| :: items[i].name != items[j].name
  }

  /** Items that were added to a list come from `named` and were not seen before. */
  ghost predicate Added(named: map<string, Binder>, items: seq<Binder>, seen: set<string>, items': seq<Binder>) {
    && items <= items' && Distinct(items')
    && forall i | |items| <= i < |items'| :: items'[i].name in named && items'[i].name !in seen && items'[i] == named[items'[i].name]
  }

  lemma {:induction false} AddNext(named: map<string, Binder>, items: seq<Binder>, seen: set<string>, items': seq<Binder>, name: string)
    requires Added(named, items, seen, items') && name in named && named[name].name == name
    requires name !in seen && name !in NamesOf(items')
    ensures Added(named, items, seen, items' + [named[name]])
  {
    NamesNext(items', named[name]);
  }

  /** Adds the names of one more scope that no inner scope has. */
  method AddNames(named: map<string, Binder>, items: seq<Binder>, seen: set<string>) returns (items': seq<Binder>, seen': set<string>)
    requires forall name | name in named :: named[name].name == name
    requires Distinct(items) && seen == NamesOf(items)
    ensures Added(named, items, seen, items') && seen' == seen + named.Keys == NamesOf(items')
  {
    hide NamesOf, Distinct;
    items', seen' := items, seen;
    var left := named.Keys;
    while left != {}
      invariant left <= named.Keys && seen' == seen + (named.Keys - left) == NamesOf(items')
      invariant Added(named, items, seen, items')
      decreases |left|
    {
      var name :| name in left;
      left := left - {name};
      if name !in seen' {
        AddNext(named, items, seen, items', name);
        NamesNext(items', named[name]);
        items', seen' := items' + [named[name]], seen' + {name};
      }
    }
  }

  lemma {:induction false} NamesNext(items: seq<Binder>, b: Binder)
    ensures NamesOf(items + [b]) == NamesOf(items) + {b.name}
    ensures forall i | 0 <= i < |items| :: items[i].name in NamesOf(items)
  {
    var more := items + [b];
    assert more[|items|] == b;
    forall i | 0 <= i < |items| ensures items[i].name in NamesOf(more) {
      assert more[i] == items[i];
    }
  }

  lemma {:induction false} ListedNext(items: seq<Binder>, seen: set<string>, frames: seq<Scope>, sorted: seq<nat>, i: nat, offset: int,
                                      named: map<string, Binder>, items': seq<Binder>, seen': set<string>)
    requires i < |frames| && (forall j | 0 <= j < |sorted| :: sorted[j] < |frames|) && Listed(items, seen, frames, sorted, offset)
    requires ByNameOk(named, frames[i].binders, offset)
    requires Added(named, items, seen, items') && seen' == seen + named.Keys == NamesOf(items')
    ensures Listed(items', seen', frames, sorted + [i], offset)
  {
    hide FirstVisible, LastVisible;
    forall name ensures FirstVisible(frames, sorted + [i], name, offset).Some? <==> name in seen' {
      FirstVisibleLast(frames, sorted, i, name, offset);
      assert ByNameAt(named, frames[i].binders, offset, name);
    }
    forall k | 0 <= k < |items'| ensures FirstVisible(frames, sorted + [i], items'[k].name, offset) == Some(items'[k]) {
      FirstVisibleLast(frames, sorted, i, items'[k].name, offset);
      assert ByNameAt(named, frames[i].binders, offset, items'[k].name);
      if k < |items| { assert items'[k] == items[k]; }
    }
  }

  method Nearest(binders: seq<Binder>, name: string, offset: int) returns (best: Option<Binder>)
    ensures best == LastVisible(binders, name, offset)
  {
    best := None;
    for k := 0 to |binders|
      invariant best == LastVisible(binders[..k], name, offset)
    {
      assert binders[..k + 1][..k] == binders[..k];
      if binders[k].name == name && binders[k].from < offset {
        best := Some(binders[k]);
      }
    }
    assert binders[..|binders|] == binders;
  }

  class CompWalker {
    var frames: seq<Scope>
    var open: seq<nat>

    constructor ()
      ensures frames == [] && open == []
    {
      frames, open := [], [];
    }

    /** Scopes outlive the walk: what was pushed stays in `frames`. */
    method Push(span: Span)
      modifies this
      ensures frames == old(frames) + [Scope(span, |old(open)|, [])] && open == old(open) + [|old(frames)|]
    {
      open, frames := open + [|frames|], frames + [Scope(span, |open|, [])];
    }

    method Pop()
      requires |open| > 0
      modifies this`open
      ensures open == old(open)[..|old(open)| - 1]
    {
      open := open[..|open| - 1];
    }

    method BindName(name: string, at: int, from: int)
      modifies this`frames
      ensures frames == ScopesAfter(old(frames), open, [Bind(name, at, from)])
    {
      OneNode([], frames, open, Bind(name, at, from));
      var n := |open|;
      if n > 0 && open[n - 1] < |frames| {
        var i := open[n - 1];
        frames := frames[i := frames[i].(binders := frames[i].binders + [Binder(name, at, from)])];
      }
    }

    method WalkTokens(tokens: seq<Token>)
      modifies this`frames
      ensures frames == ScopesAfter(old(frames), open, Tokens(tokens))
    {
      for i := 0 to |tokens|
        invariant frames == ScopesAfter(old(frames), open, Tokens(tokens[..i]))
      {
        TokensLast(tokens, i);
        ScopesAppend(old(frames), open, Tokens(tokens[..i]), [Bind(tokens[i].name, tokens[i].at, tokens[i].at)]);
        BindName(tokens[i].name, tokens[i].at, tokens[i].at);
      }
      assert tokens[..|tokens|] == tokens;
    }

    method WalkAll(nodes: seq<Syntax>)
      modifies this
      ensures frames == ScopesAfter(old(frames), old(open), ShapeAll(nodes)) && open == old(open)
      decreases nodes, 0
    {
      for i := 0 to |nodes|
        invariant frames == ScopesAfter(old(frames), old(open), ShapeAll(nodes[..i])) && open == old(open)
      {
        ShapeLast(nodes, i);
        ScopesAppend(old(frames), open, ShapeAll(nodes[..i]), Shape(nodes[i]));
        WalkNode(nodes[i]);
      }
      assert nodes[..|nodes|] == nodes;
    }

    method WalkChain(chain: seq<Entry>)
      modifies this
      ensures frames == ScopesAfter(old(frames), old(open), ChainShape(chain)) && open == old(open)
      decreases chain, 0
    {
      for i := 0 to |chain|
        invariant frames == ScopesAfter(old(frames), old(open), ChainShape(chain[..i])) && open == old(open)
      {
        ChainLast(chain, i);
        ScopesAppend(old(frames), open, ChainShape(chain[..i]), EntryShape(chain[i]));
        WalkEntry(chain[i]);
      }
      assert chain[..|chain|] == chain;
    }

    method WalkEntry(e: Entry)
      modifies this
      ensures frames == ScopesAfter(old(frames), old(open), EntryShape(e)) && open == old(open)
      decreases e, 0
    {
      ScopesAppend(frames, open, ShapeAll(e.calls), BindingShape(e));
      WalkAll(e.calls);
      if e.binding.Some? {
        BindName(e.binding.value.name, e.binding.value.at, e.span.end);
      }
    }

    method WalkNode(node: Syntax)
      modifies this
      ensures frames == ScopesAfter(old(frames), old(open), Shape(node)) && open == old(open)
      ensures ScopeMeaning.Inner(node) ==> frames == old(frames) + ScopeRetained.Retained(node, |open|)
      decreases node, 2
    {
      WalkParts(node);
      if ScopeMeaning.Inner(node) { ScopeRetained.InnerRetained(old(frames), old(open), node); }
    }

    method WalkParts(node: Syntax)
      modifies this
      ensures frames == ScopesAfter(old(frames), old(open), Shape(node)) && open == old(open)
      decreases node, 1
    {
      match node {
        case Name(span, name) => OneNode([], frames, open, Use(name, span.start));
        case Binding(span, token, value) =>
          ScopesAppend(frames, open, Shape(value), [Bind(token.name, token.at, span.end)]);
          WalkNode(value);
          BindName(token.name, token.at, span.end);
        case Block(span, steps) =>
          OneNode([], frames, open, Frame(span, ShapeAll(steps)));
          Push(span);
          WalkAll(steps);
          Pop();
        case Match(_, _, _, _, _) => WalkMatch(node);
        case Arm(_, _, _) => WalkArm(node);
        case Compound(_, parts) => WalkAll(parts);
        case Function(_, _, _, _) => WalkFunction(node);
      }
    }

    method WalkMatch(node: Syntax)
      requires node.Match?
      modifies this
      ensures frames == ScopesAfter(old(frames), old(open), Shape(node)) && open == old(open)
      decreases node, 0
    {
      ghost var head := ChainShape(node.chain) + ShapeAll(node.whens);
      ghost var frame := Frame(node.span, head + ShapeAll(node.arms));
      ScopesAppend(frames, open, ShapeAll(node.values), [frame]);
      WalkAll(node.values);
      OneNode([], frames, open, frame);
      Push(node.span);
      ScopesAppend(frames, open, ChainShape(node.chain), ShapeAll(node.whens));
      ScopesAppend(frames, open, head, ShapeAll(node.arms));
      WalkChain(node.chain);
      WalkAll(node.whens);
      WalkAll(node.arms);
      Pop();
    }

    method WalkArm(node: Syntax)
      requires node.Arm?
      modifies this
      ensures frames == ScopesAfter(old(frames), old(open), Shape(node)) && open == old(open)
      decreases node, 0
    {
      OneNode([], frames, open, Frame(node.span, Tokens(node.patterns) + Shape(node.body)));
      Push(node.span);
      ScopesAppend(frames, open, Tokens(node.patterns), Shape(node.body));
      WalkTokens(node.patterns);
      WalkNode(node.body);
      Pop();
    }

    method WalkFunction(node: Syntax)
      requires node.Function?
      modifies this
      ensures frames == ScopesAfter(old(frames), old(open), Shape(node)) && open == old(open)
      decreases node, 0
    {
      ghost var head := Tokens(node.inputs) + Shape(node.body);
      OneNode([], frames, open, Frame(node.span, head + ShapeAll(node.assertions)));
      Push(node.span);
      ScopesAppend(frames, open, Tokens(node.inputs), Shape(node.body));
      ScopesAppend(frames, open, head, ShapeAll(node.assertions));
      WalkTokens(node.inputs);
      WalkNode(node.body);
      WalkAll(node.assertions);
      Pop();
    }

    /** The scopes enclosing the offset, innermost first. */
    method FramesAt(offset: int) returns (sorted: seq<nat>)
      ensures sorted == Covering(frames, offset, |frames|)
    {
      sorted := [];
      for i := 0 to |frames|
        invariant sorted == Covering(frames, offset, i)
      {
        if CoversEnd(frames[i].span, offset) {
          sorted := InsertByDepth(frames, sorted, i);
        }
      }
    }

    method Find(name: string, offset: int) returns (found: Option<Binder>)
      ensures found == Lookup(frames, name, offset)
    {
      var sorted := FramesAt(offset);
      var i := 0;
      while i < |sorted|
        invariant 0 <= i <= |sorted| && Lookup(frames, name, offset) == FirstVisible(frames, sorted[i..], name, offset)
      {
        assert sorted[i..][0] == sorted[i] && sorted[i..][1..] == sorted[i + 1..];
        var best := Nearest(frames[sorted[i]].binders, name, offset);
        if best.Some? {
          return best;
        }
        i := i + 1;
      }
      found := None;
    }

    /** The local names visible at an offset: one item for each name that the lookup resolves
        there, and that item is what it resolves to. */
    method LocalsAt(offset: int) returns (items: seq<Binder>)
      ensures forall i, j | 0 <= i < j < |items| :: items[i].name != items[j].name
      ensures forall i | 0 <= i < |items| :: Lookup(frames, items[i].name, offset) == Some(items[i])
      ensures forall name | Lookup(frames, name, offset).Some? :: exists i | 0 <= i < |items| :: items[i].name == name
    {
      var sorted := FramesAt(offset);
      var seen: set<string> := {};
      items := [];
      assert sorted[..0] == [];
      hide FirstVisible;
      NothingListed(frames, offset);
      for i := 0 to |sorted|
        invariant Listed(items, seen, frames, sorted[..i], offset)
      {
        var named := ByName(frames[sorted[i]].binders, offset);
        NamesMatch(named, frames[sorted[i]].binders, offset);
        ghost var before, known := items, seen;
        items, seen := AddNames(named, items, seen);
        ListedNext(before, known, frames, sorted[..i], sorted[i], offset, named, items, seen);
        assert sorted[..i + 1] == sorted[..i] + [sorted[i]];
      }
      assert sorted[..|sorted|] == sorted;
    }
  }

  lemma {:induction false} NothingListed(frames: seq<Scope>, offset: int)
    ensures Listed([], {}, frames, [], offset)
  {
  }

  lemma {:induction false} NamesMatch(named: map<string, Binder>, binders: seq<Binder>, offset: int)
    requires ByNameOk(named, binders, offset)
    ensures forall name | name in named :: named[name].name == name
  {
    forall name | name in named ensures named[name].name == name {
      assert ByNameAt(named, binders, offset, name);
      NamedRight(binders, name, offset);
    }
  }

  /** Both walkers over the declarations of a well-formed file: every use the first resolves
      on its stack is resolved to the same binder by the second from its retained scopes; and in a
      file as the parser gives it that binder is what the name means. */
  method ResolveBothWays(declarations: seq<Syntax>, p: int, end: int) returns (uses: seq<Resolved>, queried: seq<Option<Binder>>)
    requires ListOk(p, declarations, end)
    ensures |queried| == |uses| && forall i | 0 <= i < |uses| :: queried[i] == uses[i].binder
    ensures uses == Uses([], ShapeAll(declarations))
    ensures ScopeMeaning.AllInner(declarations) ==> ScopeMeaning.Meaningful(declarations, uses)
  {
    var ref := new RefWalker();
    ref.WalkAll(declarations);
    var comp := new CompWalker();
    comp.WalkAll(declarations);
    ResolversAgree(declarations, p, end);
    if ScopeMeaning.AllInner(declarations) { ScopeMeaning.FileMeaningful(declarations, p, end); }
    hide ScopeMeaning.Meaningful, ScopeMeaning.AllInner;
    uses, queried := ref.occs, [];
    assert uses == Uses([], ShapeAll(declarations));
    for i := 0 to |uses|
      invariant comp.frames == ScopesAfter([], [], ShapeAll(declarations))
      invariant |queried| == i && forall j | 0 <= j < i :: queried[j] == uses[j].binder
    {
      assert uses[i].binder == Lookup(comp.frames, uses[i].name, uses[i].at);
      var found := comp.Find(uses[i].name, uses[i].at);
      queried := queried + [found];
    }
  }
}
