/** Conformance of a payload to a concrete type, over a heap that may be shared and cyclic. */
module Payload {
  import opened Wrappers

  type TypeId = string
  type Ref = nat

  datatype Kind = Primitive | Variant | Opaque | Callable | ChoiceArm | Array | Record | Error | Other

  datatype Field = Field(name: string, typ: TypeId)

  /** One concrete type of the plan; a table maps each identity to its shape. */
  datatype Shape = Shape(kind: Kind, declaration: string, arguments: seq<TypeId>, fields: seq<Field>, leaves: seq<TypeId>,
                         element: TypeId, result: TypeId, inputs: seq<TypeId>, errors: seq<TypeId>)

  datatype Value = BigInt(i: int) | Number(r: real) | Boolean(b: bool) | Text(s: string) | Nothing | Object(ref: Ref)

  /** An own property slot: absent, a data descriptor, or an accessor. */
  datatype Slot = Hole | Data(value: Value) | Accessor

  /** Only the record constructor attaches a nominal identity, and never to an array. */
  datatype Body = ArrayBody(slots: seq<Slot>) | PlainBody(nominal: Option<TypeId>)

  datatype Node = Node(body: Body, named: map<string, Slot>, symbols: nat,
                       function_: bool, proxy: bool, frozen: bool, standardFailure: bool)

  /** Everything a check consults: the plan, the heap and the two injected admissions. */
  datatype Host = Host(table: map<TypeId, Shape>, heap: map<Ref, Node>,
                       opaque_: (TypeId, Value) -> bool, callable: (TypeId, Value) -> bool)

  datatype Pair = Pair(typ: TypeId, value: Value)

  const STANDARD_FAILURE := "can.prelude@1::standard_failure"

  // ---------------------------------------------------------------- local tests ---

  function At(heap: map<Ref, Node>, r: Ref): Node {
    if r in heap then heap[r] else Node(PlainBody(None), map[], 0, true, false, false, false)
  }

  predicate IsStandardFailure(h: Host, v: Value) {
    v.Object? && At(h.heap, v.ref).standardFailure
  }

  /** The nominal identity of a record; nothing else has one. */
  function RecordIdentity(h: Host, v: Value): Option<TypeId> {
    if v.Object? && At(h.heap, v.ref).body.PlainBody? then At(h.heap, v.ref).body.nominal else None
  }

  predicate TypeofMatches(declaration: string, v: Value) {
    || (declaration == "int" && v.BigInt?)
    || (declaration == "float" && v.Number?)
    || (declaration == "bool" && v.Boolean?)
    || (declaration == "str" && v.Text?)
  }

  predicate LeafAdmits(h: Host, leaf: TypeId, v: Value) {
    || RecordIdentity(h, v) == Some(leaf)
    || (leaf in h.table && h.table[leaf].declaration == STANDARD_FAILURE && IsStandardFailure(h, v))
  }

  /** The first admitting leaf, in plan order. */
  function FindLeaf(h: Host, leaves: seq<TypeId>, v: Value): (leaf: Option<TypeId>)
    ensures leaf.Some? ==> leaf.value in leaves && LeafAdmits(h, leaf.value, v)
    ensures leaf.None? ==> forall id | id in leaves :: !LeafAdmits(h, id, v)
  {
    if leaves == [] then None
    else if LeafAdmits(h, leaves[0], v) then Some(leaves[0])
    else FindLeaf(h, leaves[1..], v)
  }

  function Present(slots: seq<Slot>): nat {
    if slots == [] then 0 else (if slots[0].Hole? then 0 else 1) + Present(slots[1..])
  }

  /** Own keys of a node: an array also owns its length. */
  function KeyCount(n: Node): nat {
    |n.named| + n.symbols + (if n.body.ArrayBody? then Present(n.body.slots) + 1 else 0)
  }

  predicate IsDataKind(k: Kind) {
    k.Array? || k.Record? || k.Error? || k.Other?
  }

  /** Typed children of a data object, or nothing when its own descriptors disqualify it. */
  function DataChildren(h: Host, p: Pair): Option<seq<Pair>>
    requires p.typ in h.table
  {
    var s := h.table[p.typ];
    if !p.value.Object? then None else
    var n := At(h.heap, p.value.ref);
    if n.function_ || n.proxy || !n.frozen then None
    else if s.kind.Array? then
      if && n.body.ArrayBody?
         && KeyCount(n) == |n.body.slots| + 1
         && forall i | 0 <= i < |n.body.slots| :: n.body.slots[i].Data?
      then Some(seq(|n.body.slots|, i requires 0 <= i < |n.body.slots| => Pair(s.element, n.body.slots[i].value)))
      else None
    else if s.kind.Record? || s.kind.Error? then
      if && n.body == PlainBody(Some(p.typ))
         && |n.named| == |s.fields|
         && forall i | 0 <= i < |s.fields| :: s.fields[i].name in n.named && n.named[s.fields[i].name].Data?
      then Some(seq(|s.fields|, i requires 0 <= i < |s.fields| => Pair(s.fields[i].typ, n.named[s.fields[i].name].value)))
      else None
    else None
  }

  /** The local test of a pair: nothing when it fails, else the pairs it hands on. */
  function Expand(h: Host, p: Pair): Option<seq<Pair>> {
    if p.typ !in h.table then None else
    var s := h.table[p.typ];
    match s.kind
    case Primitive => if TypeofMatches(s.declaration, p.value) then Some([]) else None
    case Variant =>
      var leaf := FindLeaf(h, s.leaves, p.value);
      if leaf.Some? then Some([Pair(leaf.value, p.value)]) else None
    case Opaque =>
      if (if s.declaration == STANDARD_FAILURE then IsStandardFailure(h, p.value) else h.opaque_(p.typ, p.value))
      then Some([]) else None
    case Callable => if h.callable(p.typ, p.value) then Some([]) else None
    case ChoiceArm => if h.callable(p.typ, p.value) then Some([]) else None
    case Array => DataChildren(h, p)
    case Record => DataChildren(h, p)
    case Error => DataChildren(h, p)
    case Other => DataChildren(h, p)
  }

  predicate IsData(h: Host, p: Pair) {
    p.typ in h.table && IsDataKind(h.table[p.typ].kind)
  }

  predicate IsVariant(h: Host, p: Pair) {
    p.typ in h.table && h.table[p.typ].kind.Variant?
  }

  // ------------------------------------------------------------------ conformance ---

  ghost predicate Edge(h: Host, p: Pair, q: Pair) {
    Expand(h, p).Some? && q in Expand(h, p).value
  }

  ghost predicate IsPath(h: Host, s: seq<Pair>) {
    |s| > 0 && forall i | 0 <= i < |s| - 1 :: Edge(h, s[i], s[i + 1])
  }

  ghost predicate Joins(h: Host, s: seq<Pair>, p: Pair, q: Pair) {
    IsPath(h, s) && s[0] == p && s[|s| - 1] == q
  }

  ghost predicate Reaches(h: Host, p: Pair, q: Pair) {
    exists s :: Joins(h, s, p, q)
  }

  /** q lies strictly below p. */
  ghost predicate Below(h: Host, p: Pair, q: Pair) {
    exists s :: Joins(h, s, p, q) && |s| > 1
  }

  /** The data object of p is met again, as a data object, strictly below p. */
  ghost predicate OwnDescendant(h: Host, p: Pair, q: Pair) {
    IsData(h, p) && IsData(h, q) && p.value == q.value && Below(h, p, q)
  }

  /** The declarative meaning: every reachable pair passes its own test and no reachable
      data object is its own descendant. */
  ghost predicate Conforms(h: Host, root: Pair) {
    && (forall p | Reaches(h, root, p) :: Expand(h, p).Some?)
    && (forall p, q | Reaches(h, root, p) && OwnDescendant(h, p, q) :: false)
  }

  // ---------------------------------------------------------------- plan and host ---

  predicate LeafShape(table: map<TypeId, Shape>, id: TypeId) {
    id in table && (table[id].kind.Record? || table[id].kind.Error?
                    || (table[id].kind.Opaque? && table[id].declaration == STANDARD_FAILURE))
  }

  /** Every identity a shape refers to, in whatever role, is in the table. */
  predicate RefersWithin(table: map<TypeId, Shape>, s: Shape) {
    && (forall id | id in s.arguments + s.inputs + s.errors :: id in table)
    && (s.kind.Callable? || s.kind.ChoiceArm? ==> s.result in table)
  }

  predicate ShapeOk(table: map<TypeId, Shape>, s: Shape) {
    && RefersWithin(table, s)
    && (forall i | 0 <= i < |s.fields| :: s.fields[i].typ in table)
    && (forall i, j | 0 <= i < j < |s.fields| :: s.fields[i].name != s.fields[j].name)
    && (forall id | id in s.leaves :: id in table)
    && (s.kind.Array? ==> s.element in table)
    && (s.kind.Variant? ==>
          && s.leaves != []
          && (forall id | id in s.leaves :: LeafShape(table, id))
          && (forall i, j | 0 <= i < j < |s.leaves| :: s.leaves[i] != s.leaves[j]))
  }

  /** What the constructor's plan checks leave behind. */
  ghost predicate Closed(h: Host) {
    forall t | t in h.table :: ShapeOk(h.table, h.table[t])
  }

  datatype PlanError = DuplicateIdentity | BadShape

  ghost predicate HoldsExactly(table: map<TypeId, Shape>, shapes: seq<(TypeId, Shape)>) {
    && (forall i | 0 <= i < |shapes| :: shapes[i].0 in table && table[shapes[i].0] == shapes[i].1)
    && (forall t | t in table :: exists i :: 0 <= i < |shapes| && shapes[i].0 == t)
  }

  ghost predicate DistinctIdentities(shapes: seq<(TypeId, Shape)>) {
    forall i, j | 0 <= i < j < |shapes| :: shapes[i].0 != shapes[j].0
  }

  ghost predicate Malformed(shapes: seq<(TypeId, Shape)>) {
    exists table, i | 0 <= i < |shapes| :: HoldsExactly(table, shapes) && !ShapeOk(table, shapes[i].1)
  }

  /** The constructor's plan checks. A plan is admitted exactly when its identities are
      distinct and every shape is well formed over the whole table, later shapes included. */
  method BuildTable(shapes: seq<(TypeId, Shape)>) returns (r: Result<map<TypeId, Shape>, PlanError>)
    ensures r.Ok? ==> DistinctIdentities(shapes) && HoldsExactly(r.value, shapes)
    ensures r.Ok? ==> forall h: Host | h.table == r.value :: Closed(h)
    ensures r.Err? ==> !DistinctIdentities(shapes) || Malformed(shapes)
  {
    var table: map<TypeId, Shape> := map[];
    for i := 0 to |shapes|
      invariant DistinctIdentities(shapes[..i]) && HoldsExactly(table, shapes[..i])
    {
      assert shapes[..i + 1] == shapes[..i] + [shapes[i]];
      if shapes[i].0 in table {
        return Err(DuplicateIdentity);
      }
      ghost var before := table;
      table := table[shapes[i].0 := shapes[i].1];
      GrowsExactly(before, shapes[..i], shapes[i]);
    }
    assert shapes[..|shapes|] == shapes;
    for i := 0 to |shapes|
      invariant forall j | 0 <= j < i :: ShapeOk(table, shapes[j].1)
    {
      if !ShapeOk(table, shapes[i].1) {
        return Err(BadShape);
      }
    }
    r := Ok(table);
  }

  lemma {:induction false} GrowsExactly(table: map<TypeId, Shape>, shapes: seq<(TypeId, Shape)>, s: (TypeId, Shape))
    requires HoldsExactly(table, shapes) && s.0 !in table
    ensures HoldsExactly(table[s.0 := s.1], shapes + [s])
  {
    var all := shapes + [s];
    var grown := table[s.0 := s.1];
    forall t | t in grown ensures exists i :: 0 <= i < |all| && all[i].0 == t {
      if t == s.0 {
        assert all[|shapes|].0 == t;
      } else {
        var i :| 0 <= i < |shapes| && shapes[i].0 == t;
        assert all[i].0 == t;
      }
    }
  }

  predicate IsRecordOrArray(h: Host, v: Value) {
    v.Object? && (At(h.heap, v.ref).body.ArrayBody? || At(h.heap, v.ref).body.nominal.Some?)
  }

  /** No record or array passes as a standard failure, an opaque value or a callable. */
  ghost predicate AdmissionsDisjoint(h: Host) {
    forall t: TypeId, v: Value | IsRecordOrArray(h, v) ::
      !IsStandardFailure(h, v) && !h.opaque_(t, v) && !h.callable(t, v)
  }

  /** A record or array passes here, and not as data. */
  predicate PassesOpaquely(h: Host, p: Pair) {
    IsRecordOrArray(h, p.value) && Expand(h, p).Some? && !IsData(h, p) && !IsVariant(h, p)
  }

  /** Nothing the root reaches lets a record or array through other than as data. */
  ghost predicate PlainBelow(h: Host, root: Pair) {
    forall p | Reaches(h, root, p) :: !PassesOpaquely(h, p)
  }

  lemma {:induction false} DisjointIsPlain(h: Host, root: Pair)
    requires AdmissionsDisjoint(h)
    ensures PlainBelow(h, root)
  {
  }

  // ------------------------------------------------------------------------ paths ---

  lemma {:induction false} Extend(h: Host, p: Pair, q: Pair, r: Pair)
    requires Reaches(h, p, q) && Edge(h, q, r)
    ensures Reaches(h, p, r) && Below(h, p, r)
  {
    var s :| Joins(h, s, p, q);
    assert Joins(h, s + [r], p, r);
  }

  lemma {:induction false} BelowReaches(h: Host, p: Pair, q: Pair)
    requires Below(h, p, q)
    ensures Reaches(h, p, q)
  {
  }

  lemma {:induction false} ReachSelf(h: Host, p: Pair)
    ensures Reaches(h, p, p)
  {
    assert Joins(h, [p], p, p);
  }

  lemma {:induction false} BelowOfBelow(h: Host, p: Pair, q: Pair, r: Pair)
    requires Below(h, p, q) && Edge(h, q, r)
    ensures Below(h, p, r)
  {
    BelowReaches(h, p, q);
    Extend(h, p, q, r);
  }

  lemma {:induction false} SubPath(h: Host, s: seq<Pair>, k: nat)
    requires IsPath(h, s) && k < |s|
    ensures IsPath(h, s[k..])
  {
    forall i | 0 <= i < |s[k..]| - 1 ensures Edge(h, s[k..][i], s[k..][i + 1]) {
      assert Edge(h, s[i + k], s[i + k + 1]);
    }
  }

  /** A set closed under edges contains whatever its members reach. */
  lemma {:induction false} ClosedUnderPaths(h: Host, seen: set<Pair>, s: seq<Pair>)
    requires IsPath(h, s) && s[0] in seen
    requires forall p, q | p in seen && Edge(h, p, q) :: q in seen
    ensures forall i | 0 <= i < |s| :: s[i] in seen
  {
    if |s| > 1 {
      assert Edge(h, s[0], s[1]);
      SubPath(h, s, 1);
      ClosedUnderPaths(h, seen, s[1..]);
      forall i | 0 <= i < |s| ensures s[i] in seen {
        if i > 0 { assert s[i] == s[1..][i - 1]; }
      }
    }
  }

  // ------------------------------------------------------------------- data steps ---

  /** One step between data pairs, seen through a variant where there is one. */
  ghost predicate DataEdge(h: Host, p: Pair, q: Pair) {
    && IsData(h, p) && IsData(h, q)
    && (Edge(h, p, q) || exists m :: Edge(h, p, m) && IsVariant(h, m) && Edge(h, m, q))
  }

  ghost predicate DataChain(h: Host, d: seq<Pair>) {
    |d| > 0 && forall i | 0 <= i < |d| - 1 :: DataEdge(h, d[i], d[i + 1])
  }

  /** Only data pairs and variants hand anything on, and a variant hands on its leaf. */
  lemma {:induction false} EdgeKinds(h: Host, p: Pair, q: Pair)
    requires Closed(h) && Edge(h, p, q)
    ensures IsData(h, p) || IsVariant(h, p)
    ensures q.typ in h.table
    ensures IsVariant(h, p) ==> !IsVariant(h, q) && q.value == p.value
  {
    assert ShapeOk(h.table, h.table[p.typ]);
  }

  lemma {:induction false} ChainTail(h: Host, d: seq<Pair>)
    requires DataChain(h, d) && |d| > 1
    ensures DataEdge(h, d[0], d[1]) && DataChain(h, d[1..])
  {
    forall i | 0 <= i < |d[1..]| - 1 ensures DataEdge(h, d[1..][i], d[1..][i + 1]) {
      assert DataEdge(h, d[i + 1], d[i + 2]);
    }
  }

  lemma {:induction false} ChainCons(h: Host, p: Pair, d: seq<Pair>)
    requires DataChain(h, d) && DataEdge(h, p, d[0])
    ensures DataChain(h, [p] + d)
  {
    var e := [p] + d;
    forall i | 0 <= i < |e| - 1 ensures DataEdge(h, e[i], e[i + 1]) {
      if i > 0 { assert e[i] == d[i - 1] && e[i + 1] == d[i]; }
    }
  }

  /** The first data pair after the start of a path, at most two edges on. */
  lemma {:induction false} NextData(h: Host, s: seq<Pair>) returns (k: nat)
    requires Closed(h) && IsPath(h, s) && |s| > 1 && IsData(h, s[0]) && IsData(h, s[|s| - 1])
    ensures 0 < k < |s| && DataEdge(h, s[0], s[k])
  {
    assert Edge(h, s[0], s[1]);
    k := 1;
    if !IsData(h, s[1]) {
      assert Edge(h, s[1], s[2]);
      EdgeKinds(h, s[1], s[2]);
      if |s| > 3 {
        assert Edge(h, s[2], s[3]);
        EdgeKinds(h, s[2], s[3]);
      }
      k := 2;
    }
  }

  /** A path between data pairs is a chain of data steps. */
  lemma {:induction false} PathToChain(h: Host, s: seq<Pair>) returns (d: seq<Pair>)
    requires Closed(h) && IsPath(h, s) && IsData(h, s[0]) && IsData(h, s[|s| - 1])
    ensures DataChain(h, d) && d[0] == s[0] && d[|d| - 1] == s[|s| - 1]
    ensures forall p | p in d :: p in s
    ensures |s| > 1 ==> |d| > 1
    decreases |s|
  {
    if |s| == 1 {
      return [s[0]];
    }
    var k := NextData(h, s);
    SubPath(h, s, k);
    var rest := PathToChain(h, s[k..]);
    ChainCons(h, s[0], rest);
    d := [s[0]] + rest;
  }

  /** What a traversal has seen: every pair passes, hands on only seen pairs, and lets no
      record or array through other than as data. */
  ghost predicate PlainlySeen(h: Host, seen: set<Pair>) {
    && (forall x | x in seen :: Expand(h, x).Some? && !PassesOpaquely(h, x))
    && (forall x, y | x in seen && Edge(h, x, y) :: y in seen)
  }

  /** An object that is data under one type is data under every type it passes as. */
  lemma {:induction false} SameObjectIsData(h: Host, seen: set<Pair>, q: Pair, c: Pair) returns (q': Pair)
    requires Closed(h) && PlainlySeen(h, seen)
    requires IsData(h, q) && Expand(h, q).Some?
    requires c.value == q.value && c in seen
    ensures IsData(h, q') && q'.value == q.value
    ensures q' == c || (IsVariant(h, c) && Edge(h, c, q'))
  {
    assert IsRecordOrArray(h, q.value);
    if IsVariant(h, c) {
      assert ShapeOk(h.table, h.table[c.typ]);
      q' := Expand(h, c).value[0];
      assert Edge(h, c, q') && LeafShape(h.table, q'.typ);
    } else {
      q' := c;
    }
  }

  /** Whatever lies one data step below an object under one type lies one data step below
      it under any other. */
  lemma {:induction false} MimicStep(h: Host, seen: set<Pair>, p: Pair, q: Pair, p': Pair) returns (q': Pair)
    requires Closed(h) && PlainlySeen(h, seen)
    requires DataEdge(h, p, q) && IsData(h, p') && p'.value == p.value
    requires p' in seen && q in seen
    ensures DataEdge(h, p', q') && q'.value == q.value
  {
    var c := p;
    if Edge(h, p, q) {
      c := q;
    } else {
      c :| Edge(h, p, c) && IsVariant(h, c) && Edge(h, c, q);
      EdgeKinds(h, c, q);
    }
    var c' := SameChild(h, p, c, p');
    q' := SameObjectIsData(h, seen, q, c');
  }

  lemma {:induction false} SameChild(h: Host, p: Pair, c: Pair, p': Pair) returns (c': Pair)
    requires IsData(h, p) && IsData(h, p') && p'.value == p.value
    requires Edge(h, p, c) && Expand(h, p').Some?
    ensures Edge(h, p', c') && c'.value == c.value
  {
    var i :| 0 <= i < |Expand(h, p).value| && Expand(h, p).value[i] == c;
    c' := Expand(h, p').value[i];
    assert c' in Expand(h, p').value;
  }

  /** Ranks that fall along data steps leave no object below itself. */
  lemma {:induction false} NoReturn(h: Host, seen: set<Pair>, rank: map<Pair, nat>, d: seq<Pair>, p: Pair)
    requires Closed(h) && PlainlySeen(h, seen)
    requires forall x | x in seen && IsData(h, x) :: x in rank
    requires forall x, y | x in rank && DataEdge(h, x, y) :: y in rank && rank[y] < rank[x]
    requires DataChain(h, d) && |d| > 1 && d[0].value == d[|d| - 1].value
    requires forall x | x in d :: x in seen
    requires p in seen && IsData(h, p) && p.value == d[0].value
    ensures false
    decreases rank[p]
  {
    var e := MimicChain(h, seen, d, p);
    FallingRanks(h, rank, e);
    NoReturn(h, seen, rank, d, e[|e| - 1]);
  }

  lemma {:induction false} MimicChain(h: Host, seen: set<Pair>, d: seq<Pair>, p: Pair) returns (e: seq<Pair>)
    requires Closed(h) && PlainlySeen(h, seen)
    requires DataChain(h, d) && forall x | x in d :: x in seen
    requires p in seen && IsData(h, p) && p.value == d[0].value
    ensures DataChain(h, e) && |e| == |d| && e[0] == p
    ensures e[|e| - 1] in seen && IsData(h, e[|e| - 1]) && e[|e| - 1].value == d[|d| - 1].value
    decreases |d|
  {
    hide PlainlySeen, Expand, Closed, DataEdge;
    if |d| == 1 {
      return [p];
    }
    ChainTail(h, d);
    assert d[1] in seen;
    var q := MimicStep(h, seen, d[0], d[1], p);
    StepStays(h, seen, p, q);
    var rest := MimicChain(h, seen, d[1..], q);
    ChainCons(h, p, rest);
    e := [p] + rest;
  }

  lemma {:induction false} StepStays(h: Host, seen: set<Pair>, p: Pair, q: Pair)
    requires PlainlySeen(h, seen)
    requires p in seen && DataEdge(h, p, q)
    ensures q in seen
  {
    if !Edge(h, p, q) {
      var m :| Edge(h, p, m) && IsVariant(h, m) && Edge(h, m, q);
      assert m in seen;
    }
  }

  lemma {:induction false} FallingRanks(h: Host, rank: map<Pair, nat>, e: seq<Pair>)
    requires DataChain(h, e) && e[0] in rank
    requires forall x, y | x in rank && DataEdge(h, x, y) :: y in rank && rank[y] < rank[x]
    ensures e[|e| - 1] in rank && (|e| > 1 ==> rank[e[|e| - 1]] < rank[e[0]])
    decreases |e|
  {
    if |e| > 1 {
      ChainTail(h, e);
      FallingRanks(h, rank, e[1..]);
    }
  }

  /** A finished traversal's marks prove conformance. */
  lemma {:induction false} MarksProveConformance(h: Host, seen: set<Pair>, rank: map<Pair, nat>, root: Pair)
    requires Closed(h) && PlainBelow(h, root)
    requires root in seen
    requires forall x | x in seen :: Expand(h, x).Some?
    requires forall x, y | x in seen && Edge(h, x, y) :: y in seen
    requires forall x | x in seen && IsData(h, x) :: x in rank
    requires forall x, y | x in rank && DataEdge(h, x, y) :: y in rank && rank[y] < rank[x]
    ensures Conforms(h, root)
  {
    forall p | Reaches(h, root, p) ensures p in seen && Expand(h, p).Some? {
      var s :| Joins(h, s, root, p);
      ClosedUnderPaths(h, seen, s);
    }
    var reached := set x | x in seen && Reaches(h, root, x);
    forall x, y | x in reached && Edge(h, x, y) ensures y in reached {
      Extend(h, root, x, y);
    }
    forall p, q | Reaches(h, root, p) && OwnDescendant(h, p, q) ensures false {
      var s :| Joins(h, s, p, q) && |s| > 1;
      ClosedUnderPaths(h, reached, s);
      var d := PathToChain(h, s);
      NoReturn(h, reached, rank, d, p);
    }
  }

  /** Whatever is admitted, a finished traversal leaves no pair below itself: an object can
      only be met again under another type. */
  lemma {:induction false} NoPairReturns(h: Host, seen: set<Pair>, rank: map<Pair, nat>, p: Pair)
    requires Closed(h) && p in seen && IsData(h, p)
    requires forall x | x in seen && IsData(h, x) :: x in rank
    requires forall x, y | x in rank && DataEdge(h, x, y) :: y in rank && rank[y] < rank[x]
    ensures !Below(h, p, p)
  {
    if Below(h, p, p) {
      var s :| Joins(h, s, p, p) && |s| > 1;
      var d := PathToChain(h, s);
      FallingRanks(h, rank, d);
    }
  }
}
