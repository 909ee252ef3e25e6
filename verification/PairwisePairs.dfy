/**
 Which pairs of levels scripts/check_syn038_pairwise_manifest.py misjudges: the exact condition under
 which `find_support` finds nothing for a pair although some complete vector that contains the pair
 satisfies every rule, and what that means for the pair check on observations.
 */
module PairwisePairs {
  import opened Support
  import opened PairwiseRules
  import opened PairwiseSearch
  import opened PairwiseRows

  // ------------------------------------------------- rows and partial vectors

  predicate InTable(t: Table, fixed: Levels) { forall k :: k in fixed ==> t(k, fixed[k]) }

  const TABLE := TableOf()

  lemma {:induction false} RowCompletes(core: bool, fixed: Levels, r: Row)
    requires InGrid(TABLE, core, r) && Extends(VectorOf(r), fixed)
    ensures Completes(Grid(core), fixed, 0, VectorOf(r))
  {
    forall k: Axis
      ensures VectorOf(r)[k] in LevelsOf(k) && !OutsideCore(core)(k, VectorOf(r)[k])
    {
      RowLevel(TABLE, core, r, k);
    }
    FullVectorCompletes(core, fixed, VectorOf(r));
  }

  lemma {:induction false} RowLevel(t: Table, core: bool, r: Row, k: Axis)
    requires InGrid(t, core, r)
    ensures t(k, At(r, k)) && !OutsideCore(core)(k, At(r, k))
  {
  }

  lemma {:induction false} CompletedLevel(core: bool, fixed: Levels, v: Levels, k: Axis)
    requires InTable(TABLE, fixed) && Clean(Grid(core), fixed) && Completes(Grid(core), fixed, 0, v) && k in v
    ensures TABLE(k, v[k]) && !OutsideCore(core)(k, v[k])
  {
    if k in fixed {
      assert v[k] == fixed[k];
    }
  }

  lemma {:induction false} CompletedIsInGrid(core: bool, fixed: Levels, v: Levels)
    requires InTable(TABLE, fixed) && Clean(Grid(core), fixed) && Completes(Grid(core), fixed, 0, v) && Full(v)
    ensures InGrid(TABLE, core, RowOf(v))
  {
    forall k: Axis
      ensures TABLE(k, v[k]) && !OutsideCore(core)(k, v[k])
    {
      CompletedLevel(core, fixed, v, k);
    }
    assert !OutsideCore(core)(TY, v[TY]) && !OutsideCore(core)(IN, v[IN]);
  }

  /** A complete row of the profile around the levels that satisfies every rule. */
  ghost predicate Around(core: bool, fixed: Levels, r: Row)
  {
    InGrid(TABLE, core, r) && Lawful(r) && Extends(VectorOf(r), fixed)
  }

  lemma {:induction false} CompletionIsRow(core: bool, fixed: Levels, v: Levels)
    requires InTable(TABLE, fixed) && Clean(Grid(core), fixed) && Completes(Grid(core), fixed, 0, v) && AllHold(v)
    ensures Full(v) && Around(core, fixed, RowOf(v)) && VectorOf(RowOf(v)) == v
  {
    CompleteIsFull(core, fixed, v);
    CompletedIsInGrid(core, fixed, v);
    RowOfVector(v);
    SightOfRow(RowOf(v));
  }

  lemma {:induction false} RowIsCompletion(core: bool, fixed: Levels, r: Row)
    requires Around(core, fixed, r)
    ensures Completes(Grid(core), fixed, 0, VectorOf(r)) && AllHold(VectorOf(r))
  {
    RowCompletes(core, fixed, r);
    SightOfRow(r);
  }

  lemma {:induction false} RowOfRow(r: Row)
    ensures RowOf(VectorOf(r)) == r
  {
    var v := VectorOf(r);
    assert v[TY] == At(r, TY) && v[OP] == At(r, OP) && v[CO] == At(r, CO) && v[LV] == At(r, LV) && v[SL] == At(r, SL);
    assert v[FM] == At(r, FM) && v[HC] == At(r, HC) && v[HR] == At(r, HR) && v[CP] == At(r, CP) && v[CT] == At(r, CT);
    assert v[IN] == At(r, IN) && v[WK] == At(r, WK) && v[PC] == At(r, PC);
  }

  lemma {:induction false} SupportIsRow(core: bool, fixed: Levels, v: Levels)
    requires InTable(TABLE, fixed) && Clean(Grid(core), fixed) && Supports(Grid(core), RulesOf(RULES), fixed, v)
    ensures Full(v) && Around(core, fixed, RowOf(v)) && Accepted(fixed.Keys, RowOf(v))
  {
    SupportsExactly(core, fixed, v);
    CompletionIsRow(core, fixed, v);
  }

  lemma {:induction false} RowIsSupport(core: bool, fixed: Levels, r: Row)
    requires Clean(Grid(core), fixed) && Around(core, fixed, r) && Accepted(fixed.Keys, r)
    ensures Supports(Grid(core), RulesOf(RULES), fixed, VectorOf(r))
  {
    RowIsCompletion(core, fixed, r);
    RowOfRow(r);
    SupportsExactly(core, fixed, VectorOf(r));
  }

  lemma {:induction false} RowFound(core: bool, fixed: Levels, r: Row)
    requires Clean(Grid(core), fixed) && Around(core, fixed, r) && Accepted(fixed.Keys, r)
    ensures Found(core, fixed)
  {
    RowIsSupport(core, fixed, r);
    SupportedIsFound(Grid(core), RulesOf(RULES), fixed);
  }

  lemma {:induction false} FoundRow(core: bool, fixed: Levels) returns (r: Row)
    requires InTable(TABLE, fixed) && Clean(Grid(core), fixed) && Found(core, fixed)
    ensures Around(core, fixed, r) && Accepted(fixed.Keys, r)
  {
    SupportedIsFound(Grid(core), RulesOf(RULES), fixed);
    var v :| Supports(Grid(core), RulesOf(RULES), fixed, v);
    SupportIsRow(core, fixed, v);
    r := RowOf(v);
  }

  lemma {:induction false} RowSatisfies(core: bool, fixed: Levels, r: Row)
    requires Around(core, fixed, r)
    ensures Satisfiable(core, fixed)
  {
    RowIsCompletion(core, fixed, r);
  }

  lemma {:induction false} SatisfyingRow(core: bool, fixed: Levels) returns (r: Row)
    requires InTable(TABLE, fixed) && Clean(Grid(core), fixed) && Satisfiable(core, fixed)
    ensures Around(core, fixed, r)
  {
    var v :| Completes(Grid(core), fixed, 0, v) && AllHold(v);
    CompletionIsRow(core, fixed, v);
    r := RowOf(v);
  }

  // ------------------------------------------------------------- the boundary

  /** The levels hold a structured target and, beside it, a return statement, a declaration
      initializer or a kind of initializer. */
  predicate MisjudgedLevels(fixed: Levels) { Misjudged(Get(fixed, CO), Get(fixed, LV), Get(fixed, IN)) }

  lemma {:induction false} MisjudgedAlike(fixed: Levels, r: Row)
    requires Extends(VectorOf(r), fixed)
    ensures MisjudgedLevels(fixed) <==> MisjudgedRow(fixed.Keys, r)
  {
    LevelAt(fixed, r, CO);
    LevelAt(fixed, r, LV);
    LevelAt(fixed, r, IN);
  }

  lemma {:induction false} LevelAt(fixed: Levels, r: Row, k: Axis)
    requires Extends(VectorOf(r), fixed)
    ensures Get(fixed, k) == Seen(k in fixed.Keys, At(r, k))
  {
  }

  /** A row that satisfies the rules with a structured target in a return statement. */
  function ReturnedTarget(lv: Level): (r: Row)
  {
    Row(PackedStruct, DirectProjection, FunctionReturnStatement, lv, AutomaticLocal, Nothing, Subroutine, Local,
        Nothing, Nothing, Nothing, ProceduralBlocking, Initial)
  }

  /** A row that satisfies the rules with a structured target and an initializer of the given kind. */
  function InitializedTarget(lv: Level, kind: Level): (r: Row)
  {
    Row(PackedStruct, DirectProjection, DeclarationInitializer, lv, ModulePackage, Nothing, Module, Local,
        Function, Nothing, kind, ProceduralBlocking, Nothing)
  }

  /** The part of a vector on two axes. */
  function Pair(levels: Levels, k: Axis, l: Axis): (r: Levels)
    requires k in levels && l in levels
    ensures r.Keys == {k, l} && r[k] == levels[k] && r[l] == levels[l]
  {
    map[k := levels[k], l := levels[l]]
  }

  lemma {:induction false} ReturnedWitness(t: Table, core: bool, lv: Level)
    requires Basic(t) && t(LV, lv) && lv != Nothing
    ensures InGrid(t, core, ReturnedTarget(lv)) && Lawful(ReturnedTarget(lv))
  {
    assert Returns(ReturnedTarget(lv));
    ShapedIsLawful(ReturnedTarget(lv));
  }

  lemma {:induction false} InitializedWitness(t: Table, core: bool, lv: Level, kind: Level)
    requires Basic(t) && t(LV, lv) && lv != Nothing && t(IN, kind) && kind != Nothing
    requires core ==> kind != MemoryImage
    ensures InGrid(t, core, InitializedTarget(lv, kind)) && Lawful(InitializedTarget(lv, kind))
  {
    assert Initializes(InitializedTarget(lv, kind));
    ShapedIsLawful(InitializedTarget(lv, kind));
  }

  lemma {:induction false} ExtendsPair(fixed: Levels, k: Axis, l: Axis, r: Row)
    requires fixed.Keys == {k, l} && At(r, k) == fixed[k] && At(r, l) == fixed[l]
    ensures Extends(VectorOf(r), fixed)
  {
  }

  /** Levels inside the profile. */
  predicate InProfile(core: bool, fixed: Levels)
  {
    core ==> (TY in fixed ==> fixed[TY] != TaggedExtended) && (IN in fixed ==> fixed[IN] != MemoryImage)
  }

  lemma {:induction false} CleanIsInProfile(core: bool, fixed: Levels)
    ensures Clean(Grid(core), fixed) <==> InProfile(core, fixed)
  {
    if !Clean(Grid(core), fixed) {
      var k :| k in fixed && OutsideCore(core)(k, fixed[k]);
    }
    if TY in fixed {
      assert OutsideCore(core)(TY, fixed[TY]) <==> core && fixed[TY] == TaggedExtended;
    }
    if IN in fixed {
      assert OutsideCore(core)(IN, fixed[IN]) <==> core && fixed[IN] == MemoryImage;
    }
  }

  /** A row around any misjudged pair. */
  lemma {:induction false} MisjudgedWitness(t: Table, core: bool, fixed: Levels, k: Axis, l: Axis) returns (r: Row)
    requires Basic(t) && fixed.Keys == {k, l} && InTable(t, fixed) && InProfile(core, fixed) && MisjudgedLevels(fixed)
    ensures InGrid(t, core, r) && Lawful(r) && Extends(VectorOf(r), fixed)
  {
    var lv := fixed[LV];
    if Is(Get(fixed, CO), FunctionReturnStatement) {
      ReturnedWitness(t, core, lv);
      r := ReturnedTarget(lv);
      ReturnedExtends(fixed, k, l, r);
    } else {
      var kind := KindFor(t, core, fixed);
      InitializedWitness(t, core, lv, kind);
      r := InitializedTarget(lv, kind);
      InitializedExtends(fixed, k, l, r);
    }
  }

  lemma {:induction false} ReturnedExtends(fixed: Levels, k: Axis, l: Axis, r: Row)
    requires fixed.Keys == {k, l} && MisjudgedLevels(fixed) && Is(Get(fixed, CO), FunctionReturnStatement)
    requires r == ReturnedTarget(fixed[LV])
    ensures Extends(VectorOf(r), fixed)
  {
    assert fixed.Keys == {CO, LV};
    ExtendsPair(fixed, CO, LV, r);
  }

  lemma {:induction false} InitializedExtends(fixed: Levels, k: Axis, l: Axis, r: Row)
    requires fixed.Keys == {k, l} && MisjudgedLevels(fixed) && !Is(Get(fixed, CO), FunctionReturnStatement)
    requires r.lv == fixed[LV] && r.co == DeclarationInitializer && (IN in fixed ==> r.kind == fixed[IN])
    ensures Extends(VectorOf(r), fixed)
  {
    if CO in fixed {
      assert fixed.Keys == {CO, LV};
      ExtendsPair(fixed, CO, LV, r);
    } else {
      assert fixed.Keys == {IN, LV};
      ExtendsPair(fixed, IN, LV, r);
    }
  }

  lemma {:induction false} KindFor(t: Table, core: bool, fixed: Levels) returns (kind: Level)
    requires Basic(t) && InTable(t, fixed) && InProfile(core, fixed) && (IN in fixed ==> fixed[IN] != Nothing)
    ensures t(IN, kind) && kind != Nothing && (core ==> kind != MemoryImage) && (IN in fixed ==> kind == fixed[IN])
  {
    kind := if IN in fixed then fixed[IN] else ConstantDeclaration;
  }

  /** For every pair of levels inside the profile: `find_support` finds nothing exactly when no
      complete vector around the pair satisfies the rules, or the pair is misjudged; and misjudged
      pairs do have such a vector. */
  lemma {:induction false} PairsExactly(core: bool, fixed: Levels, k: Axis, l: Axis)
    requires fixed.Keys == {k, l} && InTable(TABLE, fixed) && Clean(Grid(core), fixed)
    ensures !Found(core, fixed) <==> !Satisfiable(core, fixed) || MisjudgedLevels(fixed)
    ensures MisjudgedLevels(fixed) ==> Satisfiable(core, fixed)
  {
    if MisjudgedLevels(fixed) {
      MisjudgedNotFound(core, fixed, k, l);
      MisjudgedSatisfiable(core, fixed, k, l);
    } else if Satisfiable(core, fixed) {
      OthersFound(core, fixed, k, l);
    } else if Found(core, fixed) {
      FoundSatisfiable(core, fixed);
    }
  }

  lemma {:induction false} FoundSatisfiable(core: bool, fixed: Levels)
    requires InTable(TABLE, fixed) && Clean(Grid(core), fixed) && Found(core, fixed)
    ensures Satisfiable(core, fixed)
  {
    var r := FoundRow(core, fixed);
    RowSatisfies(core, fixed, r);
  }

  lemma {:induction false} OthersFound(core: bool, fixed: Levels, k: Axis, l: Axis)
    requires fixed.Keys == {k, l} && InTable(TABLE, fixed) && Clean(Grid(core), fixed)
    requires !MisjudgedLevels(fixed) && Satisfiable(core, fixed)
    ensures Found(core, fixed)
  {
    var r := SatisfyingRow(core, fixed);
    var w := AcceptedInstead(core, fixed, k, l, r);
    RowFound(core, fixed, w);
  }

  lemma {:induction false} MisjudgedSatisfiable(core: bool, fixed: Levels, k: Axis, l: Axis)
    requires fixed.Keys == {k, l} && InTable(TABLE, fixed) && Clean(Grid(core), fixed) && MisjudgedLevels(fixed)
    ensures Satisfiable(core, fixed)
  {
    TableIsBasic();
    CleanIsInProfile(core, fixed);
    var r := MisjudgedWitness(TABLE, core, fixed, k, l);
    RowSatisfies(core, fixed, r);
  }

  lemma {:induction false} MisjudgedNotFound(core: bool, fixed: Levels, k: Axis, l: Axis)
    requires fixed.Keys == {k, l} && InTable(TABLE, fixed) && Clean(Grid(core), fixed) && MisjudgedLevels(fixed)
    ensures !Found(core, fixed)
  {
    if Found(core, fixed) {
      var r := FoundRow(core, fixed);
      MisjudgedAlike(fixed, r);
      MisjudgedIsRefused(fixed.Keys, k, l, r);
    }
  }

  lemma {:induction false} AcceptedInstead(core: bool, fixed: Levels, k: Axis, l: Axis, r: Row) returns (w: Row)
    requires fixed.Keys == {k, l} && Around(core, fixed, r) && !MisjudgedLevels(fixed)
    ensures Around(core, fixed, w) && Accepted(fixed.Keys, w)
  {
    MisjudgedAlike(fixed, r);
    TableIsBasic();
    w := Repair(TABLE, core, fixed.Keys, k, l, r);
    AgreeingExtends(fixed, r, w);
  }

  lemma {:induction false} AgreeingExtends(fixed: Levels, r: Row, w: Row)
    requires Extends(VectorOf(r), fixed) && Agree(fixed.Keys, w, r)
    ensures Extends(VectorOf(w), fixed)
  {
  }

  /** An observation that passes the vector check has all its pairs accepted if and only if it holds
      no misjudged pair. */
  lemma {:induction false} ObservationPairs(core: bool, levels: Levels)
    requires InTable(TABLE, levels) && Found(core, levels)
    ensures (forall k, l :: k in levels && l in levels ==> Found(core, Pair(levels, k, l)))
            <==> !MisjudgedLevels(levels)
  {
    forall k, l | k in levels && l in levels
      ensures Found(core, Pair(levels, k, l)) <==> !MisjudgedLevels(Pair(levels, k, l))
    {
      PairOfObservation(core, levels, k, l);
    }
    if MisjudgedLevels(levels) {
      var other := if CO in levels && (levels[CO] == FunctionReturnStatement || levels[CO] == DeclarationInitializer)
                   then CO else IN;
      assert MisjudgedLevels(Pair(levels, LV, other));
    }
  }

  lemma {:induction false} FoundIsClean(core: bool, levels: Levels, k: Axis, l: Axis)
    requires Found(core, levels) && k in levels && l in levels
    ensures Clean(Grid(core), levels) && Clean(Grid(core), Pair(levels, k, l))
  {
  }

  lemma {:induction false} PairInTable(t: Table, levels: Levels, pair: Levels, k: Axis, l: Axis)
    requires InTable(t, levels) && k in levels && l in levels && pair == Pair(levels, k, l)
    ensures InTable(t, pair) && Extends(levels, pair)
  {
  }

  lemma {:induction false} PartIsSatisfiable(core: bool, levels: Levels, part: Levels)
    requires InTable(TABLE, levels) && Found(core, levels) && Clean(Grid(core), levels)
    requires InTable(TABLE, part) && Clean(Grid(core), part) && Extends(levels, part)
    ensures Satisfiable(core, part)
  {
    var r := FoundRow(core, levels);
    assert Extends(VectorOf(r), part);
    RowSatisfies(core, part, r);
  }

  lemma {:induction false} PairOfObservation(core: bool, levels: Levels, k: Axis, l: Axis)
    requires InTable(TABLE, levels) && Found(core, levels) && k in levels && l in levels
    ensures Found(core, Pair(levels, k, l)) <==> !MisjudgedLevels(Pair(levels, k, l))
  {
    var pair := Pair(levels, k, l);
    FoundIsClean(core, levels, k, l);
    PairInTable(TABLE, levels, pair, k, l);
    PartIsSatisfiable(core, levels, pair);
    PairsExactly(core, pair, k, l);
  }

  lemma {:induction false} MisjudgedPair(core: bool, fixed: Levels, k: Axis, l: Axis)
    requires fixed.Keys == {k, l} && InTable(TABLE, fixed) && InProfile(core, fixed) && MisjudgedLevels(fixed)
    ensures !Found(core, fixed) && Satisfiable(core, fixed)
  {
    CleanIsInProfile(core, fixed);
    PairsExactly(core, fixed, k, l);
  }

  predicate ReturnedField(pair: Levels)
  {
    pair.Keys == {CO, LV} && pair[CO] == FunctionReturnStatement && pair[LV] == Field
  }

  predicate DeclaredField(pair: Levels)
  {
    pair.Keys == {LV, IN} && pair[LV] == Field && pair[IN] == AutomaticLocal
  }

  lemma {:induction false} FieldIsMisjudged(pair: Levels)
    requires ReturnedField(pair) || DeclaredField(pair)
    ensures MisjudgedLevels(pair) && InProfile(true, pair)
  {
  }

  lemma {:induction false} TwoInTable(t: Table, pair: Levels, k: Axis, l: Axis)
    requires pair.Keys == {k, l} && t(k, pair[k]) && t(l, pair[l])
    ensures InTable(t, pair)
  {
  }

  /** A misjudged pair that a rule refuses at once (`ReturnedFieldFails`). */
  lemma {:induction false} ReturnedFieldIsRejected(core: bool, pair: Levels)
    requires ReturnedField(pair)
    ensures !Found(core, pair) && Satisfiable(core, pair)
  {
    FieldIsMisjudged(pair);
    SomeListed();
    TwoInTable(TABLE, pair, CO, LV);
    MisjudgedPair(core, pair, CO, LV);
  }

  /** A misjudged pair that the hasty rules admit (`DeclaredFieldHolds`): its completions are refused
      only on the way. */
  lemma {:induction false} DeclaredFieldIsRejected(core: bool, pair: Levels)
    requires DeclaredField(pair)
    ensures !Found(core, pair) && Satisfiable(core, pair)
  {
    FieldIsMisjudged(pair);
    SomeListed();
    TwoInTable(TABLE, pair, LV, IN);
    MisjudgedPair(core, pair, LV, IN);
  }

  lemma {:induction false} SomeListed()
    ensures TABLE(LV, Field) && TABLE(CO, FunctionReturnStatement) && TABLE(IN, AutomaticLocal)
  {
    Listed(LV, 2);
    Listed(CO, 3);
    Listed(IN, 2);
  }

  lemma {:induction false} ReturnedFieldFails(pair: Levels)
    requires ReturnedField(pair)
    ensures !HastyPermit(SightOf(pair))
  {
    FiveRules(SightOf(pair));
  }

  lemma {:induction false} DeclaredFieldHolds(pair: Levels)
    requires DeclaredField(pair)
    ensures HastyPermit(SightOf(pair))
  {
    FiveRules(SightOf(pair));
  }

  lemma {:induction false} FieldRow(core: bool, lv: Level) returns (r: Row)
    requires lv == Field
    ensures InGrid(TABLE, core, r) && Lawful(r) && r.co == FunctionReturnStatement && r.lv == lv
  {
    SomeListed();
    TableIsBasic();
    ReturnedWitness(TABLE, core, lv);
    r := ReturnedTarget(lv);
  }

  /** An observation that satisfies every rule and passes the vector check, and of which a pair is
      rejected. */
  lemma {:induction false} RejectedObservation(core: bool) returns (r: Row)
    ensures Lawful(r) && Found(core, VectorOf(r)) && !Found(core, Pair(VectorOf(r), CO, LV))
  {
    r := FieldRow(core, Field);
    ObservedRow(core, r);
    PairOfRow(r, Pair(VectorOf(r), CO, LV));
    ReturnedFieldIsRejected(core, Pair(VectorOf(r), CO, LV));
  }

  lemma {:induction false} PairOfRow(r: Row, pair: Levels)
    requires r.co == FunctionReturnStatement && r.lv == Field && pair == Pair(VectorOf(r), CO, LV)
    ensures ReturnedField(pair)
  {
    assert At(r, CO) == r.co && At(r, LV) == r.lv;
  }

  lemma {:induction false} ObservedRow(core: bool, r: Row)
    requires InGrid(TABLE, core, r) && Lawful(r)
    ensures Found(core, VectorOf(r))
  {
    SightOfRow(r);
    forall k: Axis
      ensures VectorOf(r)[k] in LevelsOf(k) && !OutsideCore(core)(k, VectorOf(r)[k])
    {
      RowLevel(TABLE, core, r, k);
    }
    FullVectorIsSupported(core, VectorOf(r));
  }

  // ------------------------------------------------------------ the two profiles

  /** A pair inside the Core profile is found there exactly when it is found in the wider one. */
  lemma {:induction false} ProfilesAgree(fixed: Levels, k: Axis, l: Axis)
    requires fixed.Keys == {k, l} && InTable(TABLE, fixed) && InProfile(true, fixed)
    ensures Found(true, fixed) <==> Found(false, fixed)
  {
    CleanIsInProfile(true, fixed);
    CleanIsInProfile(false, fixed);
    PairsExactly(true, fixed, k, l);
    PairsExactly(false, fixed, k, l);
    SatisfiableAlike(fixed, k, l);
  }

  lemma {:induction false} SatisfiableAlike(fixed: Levels, k: Axis, l: Axis)
    requires fixed.Keys == {k, l} && InTable(TABLE, fixed) && InProfile(true, fixed)
    requires Clean(Grid(true), fixed) && Clean(Grid(false), fixed)
    ensures Satisfiable(true, fixed) <==> Satisfiable(false, fixed)
  {
    if Satisfiable(true, fixed) {
      var r := SatisfyingRow(true, fixed);
      RowSatisfies(false, fixed, r);
    }
    if Satisfiable(false, fixed) {
      var r := SatisfyingRow(false, fixed);
      var w := AroundInCore(fixed, k, l, r);
      RowSatisfies(true, fixed, w);
    }
  }

  lemma {:induction false} CoreLevels(fixed: Levels, r: Row)
    requires InProfile(true, fixed) && Extends(VectorOf(r), fixed)
    ensures (TY in fixed.Keys ==> r.ty != TaggedExtended) && (IN in fixed.Keys ==> r.kind != MemoryImage)
  {
    LevelAt(fixed, r, TY);
    LevelAt(fixed, r, IN);
  }

  lemma {:induction false} AroundInCore(fixed: Levels, k: Axis, l: Axis, r: Row) returns (w: Row)
    requires fixed.Keys == {k, l} && InProfile(true, fixed) && Around(false, fixed, r)
    ensures Around(true, fixed, w)
  {
    CoreLevels(fixed, r);
    TableIsBasic();
    w := IntoCore(TABLE, fixed.Keys, k, l, r);
    AgreeingExtends(fixed, r, w);
  }

  /** So a pair that only the wider profile supports holds one of its two levels, which is the reason
      that the catalogue gives. */
  lemma {:induction false} OutsideHasReason(fixed: Levels, k: Axis, l: Axis)
    requires fixed.Keys == {k, l} && InTable(TABLE, fixed) && Found(false, fixed) && !Found(true, fixed)
    ensures (TY in fixed && fixed[TY] == TaggedExtended) || (IN in fixed && fixed[IN] == MemoryImage)
  {
    if InProfile(true, fixed) {
      ProfilesAgree(fixed, k, l);
    }
  }
}
