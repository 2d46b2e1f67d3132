/** What it means for a value to be of a type, kind by kind and without reference to how the
    traversal tests it. */
module PayloadTypes {
  import opened Wrappers
  import opened Payload

  // ------------------------------------------------------------------------- values ---

  /** The primitive type of a value; objects have none. */
  ghost predicate OfPrimitive(declaration: string, v: Value) {
    match v
    case BigInt(_) => declaration == "int"
    case Number(_) => declaration == "float"
    case Boolean(_) => declaration == "bool"
    case Text(_) => declaration == "str"
    case Nothing => false
    case Object(_) => false
  }

  /** The object a value stands for, when it is one that the heap holds. */
  ghost predicate IsNode(h: Host, v: Value, n: Node) {
    v.Object? && v.ref in h.heap && h.heap[v.ref] == n
  }

  /** A frozen object that is neither a function nor a proxy. */
  ghost predicate Inert(n: Node) {
    n.frozen && !n.function_ && !n.proxy
  }

  /** A dense array of data properties and nothing else. */
  ghost predicate DataArray(n: Node) {
    && Inert(n) && n.body.ArrayBody? && n.named == map[] && n.symbols == 0
    && forall i | 0 <= i < |n.body.slots| :: n.body.slots[i].Data?
  }

  /** A record of that very identity whose named properties are exactly the declared fields. */
  ghost predicate DataRecord(n: Node, identity: TypeId, fields: seq<Field>) {
    && Inert(n) && n.body == PlainBody(Some(identity))
    && (forall name :: name in n.named <==> exists f :: f in fields && f.name == name)
    && (forall name | name in n.named :: n.named[name].Data?)
  }

  ghost predicate Fails(h: Host, v: Value) {
    exists n :: IsNode(h, v, n) && n.standardFailure
  }

  /** A variant's leaf takes the records of its own identity, and standard failures if it is
      their type. */
  ghost predicate TakenBy(h: Host, leaf: TypeId, v: Value) {
    || (exists n :: IsNode(h, v, n) && n.body == PlainBody(Some(leaf)))
    || (leaf in h.table && h.table[leaf].declaration == STANDARD_FAILURE && Fails(h, v))
  }

  /** The value is of the type, its parts aside. */
  ghost predicate Passes(h: Host, p: Pair) {
    p.typ in h.table &&
    var s := h.table[p.typ];
    match s.kind
    case Primitive => OfPrimitive(s.declaration, p.value)
    case Variant => exists leaf :: leaf in s.leaves && TakenBy(h, leaf, p.value)
    case Opaque => if s.declaration == STANDARD_FAILURE then Fails(h, p.value) else h.opaque_(p.typ, p.value)
    case Callable => h.callable(p.typ, p.value)
    case ChoiceArm => h.callable(p.typ, p.value)
    case Array => exists n :: IsNode(h, p.value, n) && DataArray(n)
    case Record => exists n :: IsNode(h, p.value, n) && DataRecord(n, p.typ, s.fields)
    case Error => exists n :: IsNode(h, p.value, n) && DataRecord(n, p.typ, s.fields)
    case Other => false
  }

  /** The first leaf, in plan order, that takes the value. */
  ghost predicate Selects(h: Host, leaves: seq<TypeId>, v: Value, leaf: TypeId) {
    exists i :: 0 <= i < |leaves| && leaves[i] == leaf && TakenBy(h, leaf, v) && forall j | 0 <= j < i :: !TakenBy(h, leaves[j], v)
  }

  /** q is a part of p: an element, a field, or what a variant selects. */
  ghost predicate PartOf(h: Host, p: Pair, q: Pair) {
    p.typ in h.table &&
    var s := h.table[p.typ];
    match s.kind
    case Variant => q.value == p.value && Selects(h, s.leaves, p.value, q.typ)
    case Array => exists n, i :: IsNode(h, p.value, n) && n.body.ArrayBody? && 0 <= i < |n.body.slots|
                                 && n.body.slots[i] == Data(q.value) && q.typ == s.element
    case Record => FieldOf(h, p.value, s.fields, q)
    case Error => FieldOf(h, p.value, s.fields, q)
    case _ => false
  }

  ghost predicate FieldOf(h: Host, v: Value, fields: seq<Field>, q: Pair) {
    exists n, f :: IsNode(h, v, n) && f in fields && f.typ == q.typ && f.name in n.named && n.named[f.name] == Data(q.value)
  }

  /** Types whose values are traversed. */
  ghost predicate Traversed(h: Host, p: Pair) {
    p.typ in h.table && (h.table[p.typ].kind.Array? || h.table[p.typ].kind.Record? || h.table[p.typ].kind.Error? || h.table[p.typ].kind.Other?)
  }

  /** A way down from part to part, everything on the way passing. */
  ghost predicate WayDown(h: Host, s: seq<Pair>) {
    |s| > 0 && forall i | 0 <= i < |s| - 1 :: Passes(h, s[i]) && PartOf(h, s[i], s[i + 1])
  }

  /** Every pair down from the root passes, and no object is traversed again below itself. */
  ghost predicate WellTyped(h: Host, root: Pair) {
    && (forall s: seq<Pair> | WayDown(h, s) && s[0] == root :: Passes(h, s[|s| - 1]))
    && (forall s: seq<Pair>, i | WayDown(h, s) && s[0] == root && 0 <= i < |s| - 1 && Traversed(h, s[i]) && Traversed(h, s[|s| - 1]) ::
          s[i].value != s[|s| - 1].value)
  }

  /** Down from the root no record and no array passes as an opaque value, a callable or a
      standard failure. */
  ghost predicate OnlyAsData(h: Host, root: Pair) {
    forall s: seq<Pair>, n | WayDown(h, s) && s[0] == root && IsNode(h, s[|s| - 1].value, n) && (n.body.ArrayBody? || n.body.nominal.Some?) ::
      Passes(h, s[|s| - 1]) ==> Traversed(h, s[|s| - 1]) || (s[|s| - 1].typ in h.table && h.table[s[|s| - 1].typ].kind.Variant?)
  }

  // ------------------------------------------------------- what the traversal tests ---

  lemma {:induction false} AtNode(h: Host, v: Value)
    requires v.Object? && (v.ref in h.heap || !At(h.heap, v.ref).function_ || At(h.heap, v.ref).standardFailure || At(h.heap, v.ref).body != PlainBody(None))
    ensures IsNode(h, v, At(h.heap, v.ref))
  {
  }

  lemma {:induction false} FailsIs(h: Host, v: Value)
    ensures Fails(h, v) <==> IsStandardFailure(h, v)
  {
    if IsStandardFailure(h, v) { AtNode(h, v); }
  }

  lemma {:induction false} TakenIs(h: Host, leaf: TypeId, v: Value)
    ensures TakenBy(h, leaf, v) <==> LeafAdmits(h, leaf, v)
  {
    FailsIs(h, v);
    if RecordIdentity(h, v) == Some(leaf) {
      AtNode(h, v);
      assert IsNode(h, v, At(h.heap, v.ref)) && At(h.heap, v.ref).body == PlainBody(Some(leaf));
    }
  }

  lemma {:induction false} PresentAll(slots: seq<Slot>)
    ensures Present(slots) <= |slots|
    ensures (forall i | 0 <= i < |slots| :: slots[i].Data?) ==> Present(slots) == |slots|
    decreases |slots|
  {
    if slots != [] {
      PresentAll(slots[1..]);
      if forall i | 0 <= i < |slots| :: slots[i].Data? {
        assert slots[0].Data?;
        assert forall i | 0 <= i < |slots[1..]| :: slots[1..][i] == slots[i + 1];
      }
    }
  }

  lemma {:induction false} ArrayIs(h: Host, p: Pair)
    requires p.typ in h.table && h.table[p.typ].kind.Array?
    ensures (exists n :: IsNode(h, p.value, n) && DataArray(n)) <==> DataChildren(h, p).Some?
  {
    if p.value.Object? {
      var n := At(h.heap, p.value.ref);
      if n.body.ArrayBody? {
        PresentAll(n.body.slots);
        AtNode(h, p.value);
        assert n.named == map[] <==> |n.named| == 0;
      }
      if DataChildren(h, p).Some? { assert DataArray(n); }
    }
  }

  function NamesOf(fields: seq<Field>): set<string> {
    set f | f in fields :: f.name
  }

  lemma {:induction false} NamesDistinct(fields: seq<Field>)
    requires forall i, j | 0 <= i < j < |fields| :: fields[i].name != fields[j].name
    ensures |NamesOf(fields)| == |fields|
    decreases |fields|
  {
    if fields != [] {
      var n := |fields| - 1;
      NamesDistinct(fields[..n]);
      assert fields == fields[..n] + [fields[n]];
      assert NamesOf(fields) == NamesOf(fields[..n]) + {fields[n].name};
      assert fields[n].name !in NamesOf(fields[..n]);
    }
  }

  lemma {:induction false} SameSet(a: set<string>, b: set<string>)
    requires a <= b && |a| == |b|
    ensures a == b
  {
    assert b == a + (b - a);
  }

  /** Exactly the declared fields, or as many as declared and every declared one. */
  lemma {:induction false} FieldsAre(named: map<string, Slot>, fields: seq<Field>)
    requires forall i, j | 0 <= i < j < |fields| :: fields[i].name != fields[j].name
    ensures (forall name :: name in named <==> exists f :: f in fields && f.name == name)
       <==> |named| == |fields| && forall i | 0 <= i < |fields| :: fields[i].name in named
  {
    NamesDistinct(fields);
    assert |named| == |named.Keys|;
    if |named| == |fields| && forall i | 0 <= i < |fields| :: fields[i].name in named {
      SameSet(NamesOf(fields), named.Keys);
    }
    if forall name :: name in named <==> exists f :: f in fields && f.name == name {
      assert named.Keys == NamesOf(fields);
    }
  }

  lemma {:induction false} RecordIs(h: Host, p: Pair)
    requires Closed(h) && p.typ in h.table && (h.table[p.typ].kind.Record? || h.table[p.typ].kind.Error?)
    ensures (exists n :: IsNode(h, p.value, n) && DataRecord(n, p.typ, h.table[p.typ].fields)) <==> DataChildren(h, p).Some?
  {
    assert ShapeOk(h.table, h.table[p.typ]);
    if p.value.Object? {
      var n, fields := At(h.heap, p.value.ref), h.table[p.typ].fields;
      FieldsAre(n.named, fields);
      if n.body != PlainBody(None) { AtNode(h, p.value); }
      hide Closed, ShapeOk;
      if DataChildren(h, p).Some? {
        assert DataRecord(n, p.typ, fields);
      }
    }
  }

  /** The local test passes exactly the values of the type. */
  lemma {:induction false} PassesIs(h: Host, p: Pair)
    requires Closed(h)
    ensures Passes(h, p) <==> Expand(h, p).Some?
  {
    if p.typ in h.table {
      var s := h.table[p.typ];
      FailsIs(h, p.value);
      if s.kind.Array? { ArrayIs(h, p); }
      if s.kind.Record? || s.kind.Error? { RecordIs(h, p); }
      forall leaf ensures TakenBy(h, leaf, p.value) <==> LeafAdmits(h, leaf, p.value) {
        TakenIs(h, leaf, p.value);
      }
      hide DataChildren, Closed, TakenBy, LeafAdmits, DataArray, DataRecord, FindLeaf, Fails, IsStandardFailure;
      LeafFound(h, s.leaves, p.value);
      if s.kind.Primitive? { PrimitiveIs(s.declaration, p.value); }
      if s.kind.Other? { OtherIs(h, p); }
      hide OfPrimitive, TypeofMatches;
    }
  }

  lemma {:induction false} PrimitiveIs(declaration: string, v: Value)
    ensures OfPrimitive(declaration, v) <==> TypeofMatches(declaration, v)
  {
  }

  lemma {:induction false} OtherIs(h: Host, p: Pair)
    requires p.typ in h.table && h.table[p.typ].kind.Other?
    ensures DataChildren(h, p).None?
  {
  }

  lemma {:induction false} LeafFound(h: Host, leaves: seq<TypeId>, v: Value)
    ensures FindLeaf(h, leaves, v).Some? <==> exists leaf :: leaf in leaves && LeafAdmits(h, leaf, v)
  {
  }

  lemma {:induction false} LeafSelected(h: Host, leaves: seq<TypeId>, v: Value, leaf: TypeId)
    ensures Selects(h, leaves, v, leaf) <==> FindLeaf(h, leaves, v) == Some(leaf)
    decreases |leaves|
  {
    if leaves != [] {
      TakenIs(h, leaves[0], v);
      LeafSelected(h, leaves[1..], v, leaf);
      hide TakenBy, LeafAdmits;
      if Selects(h, leaves, v, leaf) {
        var i :| 0 <= i < |leaves| && leaves[i] == leaf && TakenBy(h, leaf, v) && forall j | 0 <= j < i :: !TakenBy(h, leaves[j], v);
        if i > 0 {
          assert leaves[1..][i - 1] == leaf && !TakenBy(h, leaves[0], v);
          assert forall j | 0 <= j < i - 1 :: leaves[1..][j] == leaves[j + 1];
        }
      }
      if Selects(h, leaves[1..], v, leaf) && !TakenBy(h, leaves[0], v) {
        var i :| 0 <= i < |leaves[1..]| && leaves[1..][i] == leaf && TakenBy(h, leaf, v) && forall j | 0 <= j < i :: !TakenBy(h, leaves[1..][j], v);
        assert leaves[i + 1] == leaf;
        forall j | 0 <= j < i + 1 ensures !TakenBy(h, leaves[j], v) {
          if j > 0 { assert leaves[1..][j - 1] == leaves[j]; }
        }
      }
    }
  }

  /** What the test hands on are exactly the parts. */
  lemma {:induction false} PartIs(h: Host, p: Pair, q: Pair)
    requires Closed(h) && Passes(h, p)
    ensures PartOf(h, p, q) <==> Edge(h, p, q)
  {
    PassesIs(h, p);
    var s := h.table[p.typ];
    if s.kind.Variant? {
      LeafSelected(h, s.leaves, p.value, q.typ);
      hide Selects, FindLeaf, Closed, Passes;
    } else if s.kind.Array? {
      hide Closed, Passes;
      ElementIs(h, p, q);
    } else if s.kind.Record? || s.kind.Error? {
      hide Closed, Passes;
      FieldIs(h, p, q);
    }
  }

  lemma {:induction false} ElementIs(h: Host, p: Pair, q: Pair)
    requires p.typ in h.table && h.table[p.typ].kind.Array? && DataChildren(h, p).Some?
    ensures PartOf(h, p, q) <==> q in DataChildren(h, p).value
  {
    var n := At(h.heap, p.value.ref);
    AtNode(h, p.value);
    var children := DataChildren(h, p).value;
    if q in children {
      var i :| 0 <= i < |children| && children[i] == q;
      assert n.body.slots[i] == Data(q.value);
    }
    if PartOf(h, p, q) {
      var m, i :| IsNode(h, p.value, m) && m.body.ArrayBody? && 0 <= i < |m.body.slots|
                  && m.body.slots[i] == Data(q.value) && q.typ == h.table[p.typ].element;
      assert m == n && children[i] == q;
    }
  }

  lemma {:induction false} FieldIs(h: Host, p: Pair, q: Pair)
    requires p.typ in h.table && (h.table[p.typ].kind.Record? || h.table[p.typ].kind.Error?) && DataChildren(h, p).Some?
    ensures PartOf(h, p, q) <==> q in DataChildren(h, p).value
  {
    var n, fields := At(h.heap, p.value.ref), h.table[p.typ].fields;
    AtNode(h, p.value);
    var children := DataChildren(h, p).value;
    if q in children {
      var i :| 0 <= i < |children| && children[i] == q;
      assert fields[i] in fields && n.named[fields[i].name] == Data(q.value);
    }
    if PartOf(h, p, q) {
      var m, f :| IsNode(h, p.value, m) && f in fields && f.typ == q.typ && f.name in m.named && m.named[f.name] == Data(q.value);
      var i :| 0 <= i < |fields| && fields[i] == f;
      assert m == n && children[i] == q;
    }
  }

  lemma {:induction false} StepIs(h: Host, p: Pair, q: Pair)
    requires Closed(h)
    ensures Passes(h, p) && PartOf(h, p, q) <==> Edge(h, p, q)
  {
    PassesIs(h, p);
    if Passes(h, p) { PartIs(h, p, q); }
    hide Passes, PartOf, Expand, Closed;
  }

  lemma {:induction false} WayIsPath(h: Host, s: seq<Pair>)
    requires Closed(h)
    ensures WayDown(h, s) <==> IsPath(h, s)
  {
    hide Passes, PartOf, Edge, Closed;
    if IsPath(h, s) {
      forall i | 0 <= i < |s| - 1 ensures Passes(h, s[i]) && PartOf(h, s[i], s[i + 1]) {
        StepIs(h, s[i], s[i + 1]);
      }
    }
    if WayDown(h, s) {
      forall i | 0 <= i < |s| - 1 ensures Edge(h, s[i], s[i + 1]) {
        StepIs(h, s[i], s[i + 1]);
      }
    }
  }

  lemma {:induction false} TraversedIs(h: Host, p: Pair)
    ensures Traversed(h, p) <==> IsData(h, p)
  {
  }

  /** Conformance is being well typed. */
  lemma {:induction false} ConformsIs(h: Host, root: Pair)
    requires Closed(h)
    ensures Conforms(h, root) <==> WellTyped(h, root)
  {
    if Conforms(h, root) { ConformsTyped(h, root); }
    if WellTyped(h, root) { TypedConforms(h, root); }
  }

  lemma {:induction false} ConformsTyped(h: Host, root: Pair)
    requires Closed(h) && Conforms(h, root)
    ensures WellTyped(h, root)
  {
    hide Passes, PartOf, Expand, Closed, IsPath, IsData, Traversed;
    forall s: seq<Pair> | WayDown(h, s) && s[0] == root ensures Passes(h, s[|s| - 1]) {
      WayReaches(h, s, 0);
      PassesIs(h, s[|s| - 1]);
    }
    forall s: seq<Pair>, i | WayDown(h, s) && s[0] == root && 0 <= i < |s| - 1 && Traversed(h, s[i]) && Traversed(h, s[|s| - 1])
      ensures s[i].value != s[|s| - 1].value
    {
      WayReaches(h, s, i);
      TraversedIs(h, s[i]);
      TraversedIs(h, s[|s| - 1]);
      assert OwnDescendant(h, s[i], s[|s| - 1]) <==> s[i].value == s[|s| - 1].value;
    }
  }

  lemma {:induction false} TypedConforms(h: Host, root: Pair)
    requires Closed(h) && WellTyped(h, root)
    ensures Conforms(h, root)
  {
    hide Passes, PartOf, Expand, Closed, IsPath, WayDown, IsData, Traversed, WellTyped;
    forall p | Reaches(h, root, p) ensures Expand(h, p).Some? {
      var s :| Joins(h, s, root, p);
      JoinIsWay(h, s, root, p);
      TypedPasses(h, root, s);
      PassesIs(h, p);
    }
    forall p, q | Reaches(h, root, p) && OwnDescendant(h, p, q) ensures false {
      var s :| Joins(h, s, root, p);
      var t :| Joins(h, t, p, q) && |t| > 1;
      JoinedWay(h, s, t, root, p, q);
      TraversedIs(h, p);
      TraversedIs(h, q);
      TypedApart(h, root, s + t[1..], |s| - 1);
    }
  }

  lemma {:induction false} TypedPasses(h: Host, root: Pair, s: seq<Pair>)
    requires WellTyped(h, root) && WayDown(h, s) && s[0] == root
    ensures Passes(h, s[|s| - 1])
  {
    hide Passes;
  }

  lemma {:induction false} TypedApart(h: Host, root: Pair, s: seq<Pair>, i: nat)
    requires WellTyped(h, root) && WayDown(h, s) && s[0] == root && i < |s| - 1 && Traversed(h, s[i]) && Traversed(h, s[|s| - 1])
    ensures s[i].value != s[|s| - 1].value
  {
    hide Passes, PartOf, Traversed;
  }

  lemma {:induction false} JoinIsWay(h: Host, s: seq<Pair>, root: Pair, p: Pair)
    requires Closed(h) && Joins(h, s, root, p)
    ensures WayDown(h, s) && s[0] == root && s[|s| - 1] == p
  {
    WayIsPath(h, s);
  }

  /** Two ways in a row. */
  lemma {:induction false} JoinedWay(h: Host, s: seq<Pair>, t: seq<Pair>, root: Pair, p: Pair, q: Pair)
    requires Closed(h) && Joins(h, s, root, p) && Joins(h, t, p, q) && |t| > 1
    ensures |s| > 0 && var w := s + t[1..]; WayDown(h, w) && w[0] == root && w[|s| - 1] == p && w[|w| - 1] == q && |s| - 1 < |w| - 1
  {
    var w := s + t[1..];
    forall i | 0 <= i < |w| - 1 ensures Edge(h, w[i], w[i + 1]) {
      if i < |s| - 1 {
        assert Edge(h, s[i], s[i + 1]);
      } else {
        assert w[i] == t[i - |s| + 1] && w[i + 1] == t[i - |s| + 2];
        assert Edge(h, t[i - |s| + 1], t[i - |s| + 2]);
      }
    }
    assert IsPath(h, w);
    WayIsPath(h, w);
  }

  /** A way reaches every pair on it, and its end lies below each of the others. */
  lemma {:induction false} WayReaches(h: Host, s: seq<Pair>, i: nat)
    requires Closed(h) && WayDown(h, s) && i < |s|
    ensures Reaches(h, s[0], s[i]) && Reaches(h, s[0], s[|s| - 1]) && (i < |s| - 1 ==> Below(h, s[i], s[|s| - 1]))
  {
    WayIsPath(h, s);
    assert Joins(h, s, s[0], s[|s| - 1]);
    SubPath(h, s, i);
    assert Joins(h, s[i..], s[i], s[|s| - 1]);
    assert Joins(h, s[..i + 1], s[0], s[i]) by {
      var head := s[..i + 1];
      forall j | 0 <= j < |head| - 1 ensures Edge(h, head[j], head[j + 1]) {
        assert Edge(h, s[j], s[j + 1]);
      }
    }
  }

  lemma {:induction false} PlainIs(h: Host, root: Pair)
    requires Closed(h)
    ensures PlainBelow(h, root) <==> OnlyAsData(h, root)
  {
    if PlainBelow(h, root) { PlainOnly(h, root); }
    if OnlyAsData(h, root) { OnlyPlain(h, root); }
  }

  lemma {:induction false} PlainOnly(h: Host, root: Pair)
    requires Closed(h) && PlainBelow(h, root)
    ensures OnlyAsData(h, root)
  {
    hide Closed, PartOf, Expand, Passes, IsPath;
    forall s: seq<Pair>, n | WayDown(h, s) && s[0] == root && IsNode(h, s[|s| - 1].value, n) && (n.body.ArrayBody? || n.body.nominal.Some?)
                             && Passes(h, s[|s| - 1])
      ensures Traversed(h, s[|s| - 1]) || (s[|s| - 1].typ in h.table && h.table[s[|s| - 1].typ].kind.Variant?)
    {
      WayReaches(h, s, |s| - 1);
      PassesIs(h, s[|s| - 1]);
      assert !PassesOpaquely(h, s[|s| - 1]);
    }
  }

  lemma {:induction false} OnlyPlain(h: Host, root: Pair)
    requires Closed(h) && OnlyAsData(h, root)
    ensures PlainBelow(h, root)
  {
    hide Closed, PartOf, Expand, Passes, IsPath;
    forall p | Reaches(h, root, p) ensures !PassesOpaquely(h, p) {
      var s :| Joins(h, s, root, p);
      JoinIsWay(h, s, root, p);
      PassesIs(h, p);
      if IsRecordOrArray(h, p.value) { AtNode(h, p.value); }
    }
  }
}
