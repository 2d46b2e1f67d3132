/** Why the admissions must keep records and arrays out: an object graph that does not
    conform and is accepted all the same. */
module PayloadLoop {
  import opened Wrappers
  import opened Payload
  import opened PayloadWalk

  function RecordNode(identity: TypeId, named: map<string, Slot>): Node {
    Node(PlainBody(Some(identity)), named, 0, false, false, true, false)
  }

  function Plain(kind: Kind, declaration: string, fields: seq<Field>, element: TypeId): Shape {
    Shape(kind, declaration, [], fields, [], element, "", [], [])
  }

  /** A record v holds an array u of opaque elements, u holds v, and u is met again as an
      array of records. The opaque admission lets v through. */
  function SharedLoop(): Host {
    Host(map["R" := Plain(Record, "can.project.r", [Field("a", "V"), Field("b", "LV")], ""),
             "V" := Plain(Record, "can.project.v", [Field("f", "LB")], ""),
             "LV" := Plain(Array, "", [], "V"),
             "LB" := Plain(Array, "", [], "B"),
             "B" := Plain(Opaque, "can.project.b", [], "")],
         map[0 := RecordNode("R", map["a" := Data(Object(1)), "b" := Data(Object(2))]),
             1 := RecordNode("V", map["f" := Data(Object(2))]),
             2 := Node(ArrayBody([Data(Object(1))]), map[], 0, false, false, true, false)],
         (t, v) => t == "B",
         (t, v) => false)
  }

  lemma {:induction false} RootChildren()
    ensures Expand(SharedLoop(), R) == Some([V, LV])
  {
    var n := SharedLoop().heap[0];
    assert "a" in n.named && "b" in n.named && |n.named| == 2;
    assert DataChildren(SharedLoop(), R).value == [V, LV];
  }

  lemma {:induction false} RecordChildren()
    ensures Expand(SharedLoop(), V) == Some([LB])
  {
    assert DataChildren(SharedLoop(), V).value == [LB];
  }

  lemma {:induction false} ArrayChildren()
    ensures Expand(SharedLoop(), LB) == Some([B])
    ensures Expand(SharedLoop(), LV) == Some([V])
  {
    assert Present([Data(Object(1))]) == 1;
    assert DataChildren(SharedLoop(), LB).value == [B];
    assert DataChildren(SharedLoop(), LV).value == [V];
  }

  const R := Pair("R", Object(0))
  const V := Pair("V", Object(1))
  const LV := Pair("LV", Object(2))
  const LB := Pair("LB", Object(2))
  const B := Pair("B", Object(1))

  function LoopTrace(): seq<Walk> {
    var a := Remember(map[], LB);
    var b := Remember(a, V);
    [Walk([Check(R)], {}, map[]),
     Walk([Exit(R), Check(LV), Check(V)], {0}, map[]),
     Walk([Exit(R), Check(LV), Exit(V), Check(LB)], {0, 1}, map[]),
     Walk([Exit(R), Check(LV), Exit(V), Exit(LB), Check(B)], {0, 1, 2}, map[]),
     Walk([Exit(R), Check(LV), Exit(V), Exit(LB)], {0, 1, 2}, map[]),
     Walk([Exit(R), Check(LV), Exit(V)], {0, 1}, a),
     Walk([Exit(R), Check(LV)], {0}, b),
     Walk([Exit(R), Exit(LV), Check(V)], {0, 2}, b),
     Walk([Exit(R), Exit(LV)], {0, 2}, b),
     Walk([Exit(R)], {0}, Remember(b, LV)),
     Walk([], {}, Remember(Remember(b, LV), R))]
  }

  lemma {:induction false} StepDown(h: Host, base: seq<Work>, p: Pair, children: seq<Pair>, active: set<Ref>, checked: map<Ref, set<TypeId>>)
    requires ExitsHoldObjects(base + [Check(p)])
    requires IsData(h, p) && Expand(h, p) == Some(children) && p.value.Object?
    requires p.value.ref !in active && !Remembered(checked, p)
    ensures Step(h, Walk(base + [Check(p)], active, checked))
         == Next(Walk(base + ([Exit(p)] + Checks(children)), active + {p.value.ref}, checked))
  {
    assert (base + [Check(p)])[..|base|] == base;
  }

  lemma {:induction false} StepUp(h: Host, base: seq<Work>, p: Pair, active: set<Ref>, checked: map<Ref, set<TypeId>>)
    requires ExitsHoldObjects(base + [Exit(p)]) && p.value.Object?
    ensures Step(h, Walk(base + [Exit(p)], active, checked)) == Next(Walk(base, active - {p.value.ref}, Remember(checked, p)))
  {
    assert (base + [Exit(p)])[|base|] == Exit(p);
    assert (base + [Exit(p)])[..|base|] == base;
  }

  lemma {:induction false} StepOver(h: Host, base: seq<Work>, p: Pair, active: set<Ref>, checked: map<Ref, set<TypeId>>)
    requires ExitsHoldObjects(base + [Check(p)])
    requires if IsData(h, p) then p.value.Object? && p.value.ref !in active && Remembered(checked, p) else Expand(h, p) == Some([])
    ensures Step(h, Walk(base + [Check(p)], active, checked)) == Next(Walk(base, active, checked))
  {
    assert (base + [Check(p)])[..|base|] == base;
    assert base + Checks([]) == base;
  }

  lemma {:induction false} Turn0()
    ensures Step(SharedLoop(), LoopTrace()[0]) == Next(LoopTrace()[1])
  {
    Kinds();
    hide Expand, Step, SharedLoop, IsData, Remember;
    RootChildren();
    var base: seq<Work> := [];
    StepDown(SharedLoop(), base, R, [V, LV], {}, map[]);
    assert base + [Check(R)] == LoopTrace()[0].work;
    assert base + ([Exit(R)] + Checks([V, LV])) == LoopTrace()[1].work;
    assert {} + {0} == LoopTrace()[1].active;
  }

  lemma {:induction false} Turn1()
    ensures Step(SharedLoop(), LoopTrace()[1]) == Next(LoopTrace()[2])
  {
    Kinds();
    hide Expand, Step, SharedLoop, IsData, Remember;
    RecordChildren();
    var base: seq<Work> := [Exit(R), Check(LV)];
    StepDown(SharedLoop(), base, V, [LB], {0}, map[]);
    assert base + [Check(V)] == LoopTrace()[1].work;
    assert base + ([Exit(V)] + Checks([LB])) == LoopTrace()[2].work;
    assert {0} + {1} == LoopTrace()[2].active;
  }

  lemma {:induction false} Turn2()
    ensures Step(SharedLoop(), LoopTrace()[2]) == Next(LoopTrace()[3])
  {
    Kinds();
    hide Expand, Step, SharedLoop, IsData, Remember;
    ArrayChildren();
    var base: seq<Work> := [Exit(R), Check(LV), Exit(V)];
    StepDown(SharedLoop(), base, LB, [B], {0, 1}, map[]);
    assert base + [Check(LB)] == LoopTrace()[2].work;
    assert base + ([Exit(LB)] + Checks([B])) == LoopTrace()[3].work;
    assert {0, 1} + {2} == LoopTrace()[3].active;
  }

  lemma {:induction false} Turn3()
    ensures Step(SharedLoop(), LoopTrace()[3]) == Next(LoopTrace()[4])
  {
    Kinds();
    hide Expand, Step, SharedLoop, IsData, Remember;
    var base: seq<Work> := [Exit(R), Check(LV), Exit(V), Exit(LB)];
    StepOver(SharedLoop(), base, B, {0, 1, 2}, map[]);
    assert base + [Check(B)] == LoopTrace()[3].work;
  }

  lemma {:induction false} Turn4()
    ensures Step(SharedLoop(), LoopTrace()[4]) == Next(LoopTrace()[5])
  {
    Kinds();
    hide Expand, Step, SharedLoop, IsData, Remember;
    var base: seq<Work> := [Exit(R), Check(LV), Exit(V)];
    StepUp(SharedLoop(), base, LB, {0, 1, 2}, map[]);
    assert base + [Exit(LB)] == LoopTrace()[4].work;
    assert {0, 1, 2} - {2} == LoopTrace()[5].active;
  }

  lemma {:induction false} Turn5()
    ensures Step(SharedLoop(), LoopTrace()[5]) == Next(LoopTrace()[6])
  {
    Kinds();
    hide Expand, Step, SharedLoop, IsData, Remember;
    var base: seq<Work> := [Exit(R), Check(LV)];
    StepUp(SharedLoop(), base, V, {0, 1}, Remember(map[], LB));
    assert base + [Exit(V)] == LoopTrace()[5].work;
    assert {0, 1} - {1} == LoopTrace()[6].active;
  }

  lemma {:induction false} Turn6()
    ensures Step(SharedLoop(), LoopTrace()[6]) == Next(LoopTrace()[7])
  {
    Kinds();
    hide Expand, Step, SharedLoop, IsData, Remember;
    Memo();
    ArrayChildren();
    var base: seq<Work> := [Exit(R)];
    StepDown(SharedLoop(), base, LV, [V], {0}, Remember(Remember(map[], LB), V));
    assert base + [Check(LV)] == LoopTrace()[6].work;
    assert base + ([Exit(LV)] + Checks([V])) == LoopTrace()[7].work;
    assert {0} + {2} == LoopTrace()[7].active;
  }

  lemma {:induction false} Turn7()
    ensures Step(SharedLoop(), LoopTrace()[7]) == Next(LoopTrace()[8])
  {
    Kinds();
    hide Expand, Step, SharedLoop, IsData, Remember;
    Memo();
    var base: seq<Work> := [Exit(R), Exit(LV)];
    StepOver(SharedLoop(), base, V, {0, 2}, Remember(Remember(map[], LB), V));
    assert base + [Check(V)] == LoopTrace()[7].work;
  }

  lemma {:induction false} Turn8()
    ensures Step(SharedLoop(), LoopTrace()[8]) == Next(LoopTrace()[9])
  {
    Kinds();
    hide Expand, Step, SharedLoop, IsData, Remember;
    var base: seq<Work> := [Exit(R)];
    StepUp(SharedLoop(), base, LV, {0, 2}, Remember(Remember(map[], LB), V));
    assert base + [Exit(LV)] == LoopTrace()[8].work;
    assert {0, 2} - {2} == LoopTrace()[9].active;
  }

  lemma {:induction false} Turn9()
    ensures Step(SharedLoop(), LoopTrace()[9]) == Next(LoopTrace()[10])
  {
    Kinds();
    hide Expand, Step, SharedLoop, IsData, Remember;
    var base: seq<Work> := [];
    StepUp(SharedLoop(), base, R, {0}, Remember(Remember(Remember(map[], LB), V), LV));
    assert base + [Exit(R)] == LoopTrace()[9].work;
    assert {0} - {0} == LoopTrace()[10].active;
  }

  lemma {:induction false} Memo()
    ensures Remembered(Remember(Remember(map[], LB), V), V) && !Remembered(Remember(Remember(map[], LB), V), LV)
  {
  }

  /** Without disjoint admissions the traversal can accept what does not conform: it accepts
      R, under which the array u is its own descendant, once as LV and once as LB. */
  lemma {:induction false} AcceptsSharedLoop()
    ensures Closed(SharedLoop())
    ensures Runs(SharedLoop(), R, LoopTrace(), true)
    ensures !Conforms(SharedLoop(), R) && Reaches(SharedLoop(), R, B) && PassesOpaquely(SharedLoop(), B)
  {
    assert PassesOpaquely(SharedLoop(), B);
    hide Runs, Conforms, Closed, SharedLoop, LoopTrace, PassesOpaquely;
    LoopSteps();
    LoopMeetsItself();
    LoopClosed();
  }

  lemma {:induction false} LoopClosed()
    ensures Closed(SharedLoop())
  {
    var t := SharedLoop().table;
    assert ShapeOk(t, t["R"]) && ShapeOk(t, t["V"]) && ShapeOk(t, t["LV"]) && ShapeOk(t, t["LB"]) && ShapeOk(t, t["B"]);
  }

  lemma {:induction false} LoopEnds()
    ensures |LoopTrace()| == 11 && LoopTrace()[0] == Start(R)
    ensures forall i | 0 <= i < 11 :: ExitsHoldObjects(LoopTrace()[i].work)
    ensures Step(SharedLoop(), LoopTrace()[10]) == Done(true)
  {
    hide SharedLoop, Remember;
  }

  lemma {:induction false} LoopSteps()
    ensures Runs(SharedLoop(), R, LoopTrace(), true)
  {
    LoopEnds();
    Turn0(); Turn1(); Turn2(); Turn3(); Turn4(); Turn5(); Turn6(); Turn7(); Turn8(); Turn9();
    hide Step, SharedLoop, LoopTrace, ExitsHoldObjects, Start;
  }

  lemma {:induction false} LoopMeetsItself()
    ensures !Conforms(SharedLoop(), R) && Reaches(SharedLoop(), R, B)
  {
    var h := SharedLoop();
    RootChildren();
    RecordChildren();
    ArrayChildren();
    hide Expand, SharedLoop;
    assert LV in Expand(h, R).value && V in Expand(h, LV).value && LB in Expand(h, V).value;
    ReachSelf(h, R);
    Extend(h, R, R, LV);
    ReachSelf(h, LV);
    Extend(h, LV, LV, V);
    Extend(h, LV, V, LB);
    Kinds();
    assert OwnDescendant(h, LV, LB);
    Extend(h, R, LV, V);
    Extend(h, R, V, LB);
    assert B in Expand(h, LB).value;
    Extend(h, R, LB, B);
  }

  lemma {:induction false} Kinds()
    ensures IsData(SharedLoop(), R) && IsData(SharedLoop(), V) && IsData(SharedLoop(), LV) && IsData(SharedLoop(), LB)
    ensures !IsData(SharedLoop(), B) && Expand(SharedLoop(), B) == Some([])
  {
  }

  // ---------------------------------------------------------------- the other order ---

  /** The same graph, with the two fields of the root the other way round. */
  function SwappedLoop(): Host {
    SharedLoop().(table := SharedLoop().table["R" := Plain(Record, "can.project.r", [Field("b", "LV"), Field("a", "V")], "")])
  }

  function SwappedTrace(): seq<Walk> {
    [Walk([Check(R)], {}, map[]),
     Walk([Exit(R), Check(V), Check(LV)], {0}, map[]),
     Walk([Exit(R), Check(V), Exit(LV), Check(V)], {0, 2}, map[]),
     Walk([Exit(R), Check(V), Exit(LV), Exit(V), Check(LB)], {0, 2, 1}, map[])]
  }

  lemma {:induction false} SwappedRoot()
    ensures Expand(SwappedLoop(), R) == Some([LV, V]) && IsData(SwappedLoop(), R)
  {
    var n := SwappedLoop().heap[0];
    assert "a" in n.named && "b" in n.named && |n.named| == 2;
    assert DataChildren(SwappedLoop(), R).value == [LV, V];
  }

  /** A data pair's test looks at its own type only. */
  lemma {:induction false} SameType(h: Host, h': Host, p: Pair)
    requires h' == h.(table := h'.table) && p.typ in h.table && p.typ in h'.table && h'.table[p.typ] == h.table[p.typ] && IsData(h, p)
    ensures IsData(h', p) && Expand(h', p) == Expand(h, p)
  {
  }

  lemma {:induction false} SwappedTypes()
    ensures var h, h' := SharedLoop(), SwappedLoop();
            && h' == h.(table := h'.table)
            && forall t | t == "V" || t == "LV" || t == "LB" :: t in h.table && t in h'.table && h'.table[t] == h.table[t]
  {
  }

  lemma {:induction false} SwappedChildren()
    ensures Expand(SwappedLoop(), R) == Some([LV, V]) && Expand(SwappedLoop(), V) == Some([LB]) && Expand(SwappedLoop(), LV) == Some([V])
    ensures IsData(SwappedLoop(), R) && IsData(SwappedLoop(), V) && IsData(SwappedLoop(), LV) && IsData(SwappedLoop(), LB)
  {
    SwappedRoot();
    RecordChildren();
    ArrayChildren();
    Kinds();
    SwappedTypes();
    hide Expand, IsData, SwappedLoop, SharedLoop;
    SameType(SharedLoop(), SwappedLoop(), V);
    SameType(SharedLoop(), SwappedLoop(), LV);
    SameType(SharedLoop(), SwappedLoop(), LB);
  }

  lemma {:induction false} SwappedTurn(k: nat)
    requires k < 3
    ensures Step(SwappedLoop(), SwappedTrace()[k]) == Next(SwappedTrace()[k + 1])
  {
    SwappedChildren();
    hide Expand, Step, SwappedLoop, IsData;
    var h := SwappedLoop();
    match k {
      case 0 =>
        StepDown(h, [], R, [LV, V], {}, map[]);
        assert [] + [Check(R)] == SwappedTrace()[0].work;
        assert [] + ([Exit(R)] + Checks([LV, V])) == SwappedTrace()[1].work;
      case 1 =>
        var base: seq<Work> := [Exit(R), Check(V)];
        StepDown(h, base, LV, [V], {0}, map[]);
        assert base + [Check(LV)] == SwappedTrace()[1].work;
        assert base + ([Exit(LV)] + Checks([V])) == SwappedTrace()[2].work;
      case _ =>
        var base: seq<Work> := [Exit(R), Check(V), Exit(LV)];
        StepDown(h, base, V, [LB], {0, 2}, map[]);
        assert base + [Check(V)] == SwappedTrace()[2].work;
        assert base + ([Exit(V)] + Checks([LB])) == SwappedTrace()[3].work;
    }
  }

  ghost predicate OnlyOrderDiffers(h: Host, h': Host) {
    && "R" in h.table && |h.table["R"].fields| == 2
    && h' == h.(table := h.table["R" := h.table["R"].(fields := [h.table["R"].fields[1], h.table["R"].fields[0]])])
  }

  lemma {:induction false} SwappedOrder()
    ensures OnlyOrderDiffers(SharedLoop(), SwappedLoop())
  {
  }

  /** What is accepted without conforming depends on the order of fields: the same objects and
      types, reached the other way round, are refused. */
  lemma {:induction false} RefusesSwappedLoop()
    ensures Runs(SwappedLoop(), R, SwappedTrace(), false)
    ensures OnlyOrderDiffers(SharedLoop(), SwappedLoop())
  {
    SwappedChildren();
    forall i | 0 <= i < 3 ensures Step(SwappedLoop(), SwappedTrace()[i]) == Next(SwappedTrace()[i + 1]) {
      SwappedTurn(i);
    }
    SwappedEnd();
    SwappedOrder();
    assert forall i | 0 <= i < 4 :: ExitsHoldObjects(SwappedTrace()[i].work);
    hide Step, Expand, IsData, OnlyOrderDiffers;
  }

  lemma {:induction false} SwappedEnd()
    ensures ExitsHoldObjects(SwappedTrace()[3].work) && Step(SwappedLoop(), SwappedTrace()[3]) == Done(false)
  {
    SwappedChildren();
    hide Expand, SwappedLoop, IsData;
  }
}
