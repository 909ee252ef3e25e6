/**
 Complete vectors under the rules of scripts/check_syn038_pairwise_manifest.py: some forms that
 satisfy every rule, and how to exchange a vector for another one that keeps a given pair of levels.
 */
module PairwiseRows {
  import opened Options
  import opened PairwiseRules
  import opened PairwiseSearch

  // ------------------------------------------ rows that satisfy every rule

  /** What the rules ask of every use that passes no argument. */
  predicate Ordinary(r: Row)
  {
    && r.fm == Nothing && r.ct == Nothing && r.hr != ChildPort
    && (r.hr == InterfaceMember ==> r.sl == InterfaceMember)
    && (r.lv == Field ==> r.ty != IntegralBitLogic && r.ty != Enum && r.ty != FixedArrayIntegral)
    && (r.cp == FixedArrayReduction ==> r.ty == FixedArrayIntegral || r.ty == FixedArrayRecord)
  }

  /** An assignment in a process. */
  predicate Assigns(r: Row)
  {
    && Ordinary(r) && r.co == AssignmentRhs && r.kind == Nothing && r.lv != Nothing
    && r.wk == ProceduralBlocking && r.pc != Nothing
  }

  /** A continuous assignment to a module variable. */
  predicate Drives(r: Row)
  {
    && Ordinary(r) && r.co == AssignmentRhs && r.kind == Nothing && r.lv != Nothing
    && r.wk == ContinuousVariable && r.pc == Nothing && r.sl == ModulePackage && r.hc == Module
  }

  /** A use on a right-hand side, or in a return statement, without a write. */
  predicate Reads(r: Row)
  {
    && Ordinary(r) && r.kind == Nothing && r.lv == Nothing && r.wk == Nothing
    && (r.co == AssignmentRhs || (r.co == FunctionReturnStatement && r.hc == Subroutine))
  }

  /** A return statement in a process, behind a write. */
  predicate Returns(r: Row)
  {
    && Ordinary(r) && r.co == FunctionReturnStatement && r.kind == Nothing && r.hc == Subroutine
    && r.lv != Nothing && r.wk == ProceduralBlocking && r.pc != Nothing
  }

  /** A declaration initialised by a function call, behind a write. */
  predicate Initializes(r: Row)
  {
    && Ordinary(r) && r.co == DeclarationInitializer && r.kind != Nothing && r.lv != Nothing
    && r.wk == ProceduralBlocking && r.pc == Nothing && r.cp == Function && r.hr == Local
    && (r.kind == RuntimeDeclaration ==> r.hc != Subroutine)
    && (r.kind == ConstantDeclaration ==> r.sl != InterfaceMember)
  }

  /** An automatic variable declared with an initializer, without another write. */
  predicate Declares(r: Row)
  {
    && Ordinary(r) && r.co == DeclarationInitializer && r.kind == AutomaticLocal && r.wk == Nothing
    && (r.lv == Nothing || (r.lv == WholeObject && r.sl == AutomaticLocal && r.cp != FixedArrayReduction))
  }

  lemma {:induction false} AssignsHolds(r: Row, id: RuleId)
    requires Assigns(r)
    ensures Permits(id, Whole(r))
  {
    if AboutSites(id) {
      AssignsAtSites(r, id);
    }
  }

  lemma {:induction false} AssignsAtSites(r: Row, id: RuleId)
    requires Assigns(r) && AboutSites(id)
    ensures Permits(id, Whole(r))
  {
  }

  lemma {:induction false} DrivesHolds(r: Row, id: RuleId)
    requires Drives(r)
    ensures Permits(id, Whole(r))
  {
  }

  lemma {:induction false} ReadsHolds(r: Row, id: RuleId)
    requires Reads(r)
    ensures Permits(id, Whole(r))
  {
  }

  lemma {:induction false} ReturnsHolds(r: Row, id: RuleId)
    requires Returns(r)
    ensures Permits(id, Whole(r))
  {
    if AboutSites(id) {
      ReturnsAtSites(r, id);
    }
  }

  lemma {:induction false} ReturnsAtSites(r: Row, id: RuleId)
    requires Returns(r) && AboutSites(id)
    ensures Permits(id, Whole(r))
  {
    if id in {InitializerSite, CallTarget, FormalSite, ReturnLexical, InterfaceMemberStorage} {
      ReturnsAtMatchingSites(r, id);
    }
  }

  lemma {:induction false} ReturnsAtMatchingSites(r: Row, id: RuleId)
    requires Returns(r) && id in {InitializerSite, CallTarget, FormalSite, ReturnLexical, InterfaceMemberStorage}
    ensures Permits(id, Whole(r))
  {
  }

  lemma {:induction false} InitializesHolds(r: Row, id: RuleId)
    requires Initializes(r)
    ensures Permits(id, Whole(r))
  {
  }

  lemma {:induction false} DeclaresHolds(r: Row, id: RuleId)
    requires Declares(r)
    ensures Permits(id, Whole(r))
  {
  }

  predicate Shaped(r: Row) { Assigns(r) || Drives(r) || Reads(r) || Returns(r) || Initializes(r) || Declares(r) }

  lemma {:induction false} ShapedIsLawful(r: Row)
    requires Shaped(r)
    ensures Lawful(r)
  {
    forall id
      ensures Permits(id, Whole(r))
    {
      if Assigns(r) {
        AssignsHolds(r, id);
      } else if Drives(r) {
        DrivesHolds(r, id);
      } else if Reads(r) {
        ReadsHolds(r, id);
      } else if Returns(r) {
        ReturnsHolds(r, id);
      } else if Initializes(r) {
        InitializesHolds(r, id);
      } else {
        DeclaresHolds(r, id);
      }
    }
  }

  // ------------------------------------------- what the rules say of a row

  lemma {:induction false} Obeys(r: Row, id: RuleId)
    requires Lawful(r)
    ensures Permits(id, Whole(r))
  {
  }

  lemma {:induction false} UsePassesNothing(r: Row)
    requires Uses(r) && Permits(FormalSite, Whole(r)) && Permits(CallTarget, Whole(r)) && Permits(ChildPortLink, Whole(r))
    ensures r.fm == Nothing && r.ct == Nothing && r.hr != ChildPort
  {
  }

  lemma {:induction false} TypesFit(r: Row)
    requires Permits(InterfaceMemberStorage, Whole(r)) && Permits(TypeField, Whole(r))
    requires Permits(ReductionReceiver, Whole(r))
    ensures r.hr == InterfaceMember ==> r.sl == InterfaceMember
    ensures r.lv == Field ==> r.ty != IntegralBitLogic && r.ty != Enum && r.ty != FixedArrayIntegral
    ensures r.cp == FixedArrayReduction ==> r.ty == FixedArrayIntegral || r.ty == FixedArrayRecord
  {
  }

  lemma {:induction false} UseHasItsSite(r: Row)
    requires Uses(r) && Permits(InitializerSite, Whole(r)) && Permits(ReturnLexical, Whole(r))
    ensures r.co == FunctionReturnStatement ==> r.kind == Nothing && r.hc == Subroutine
    ensures r.co == DeclarationInitializer ==> r.kind != Nothing
  {
  }

  lemma {:induction false} WriteHasTarget(r: Row)
    requires Uses(r) && Permits(FocalWrite, Whole(r)) && r.wk == ProceduralBlocking
    ensures r.lv != Nothing
  {
  }

  /** What the rules say of a return statement or an initializer. */
  lemma {:induction false} UsesAreOrdinary(r: Row)
    requires Lawful(r) && Uses(r)
    ensures Ordinary(r)
    ensures r.co == FunctionReturnStatement ==> r.kind == Nothing && r.hc == Subroutine
    ensures r.co == DeclarationInitializer ==> r.kind != Nothing
    ensures r.wk == ProceduralBlocking ==> r.lv != Nothing
  {
    Obeys(r, FormalSite);
    Obeys(r, CallTarget);
    Obeys(r, ChildPortLink);
    UsePassesNothing(r);
    Obeys(r, InterfaceMemberStorage);
    Obeys(r, TypeField);
    Obeys(r, ReductionReceiver);
    TypesFit(r);
    Obeys(r, InitializerSite);
    Obeys(r, ReturnLexical);
    UseHasItsSite(r);
    if r.wk == ProceduralBlocking {
      Obeys(r, FocalWrite);
      WriteHasTarget(r);
    }
  }

  lemma {:induction false} UnscheduledUse(r: Row)
    requires Permits(ProceduralProcess, Whole(r)) && Unscheduled(r)
    ensures r.sl == AutomaticLocal && r.cp == Nothing
  {
  }

  // ------------------------------------------------------ another row instead

  /** Which levels an axis has. */
  type Table = (Axis, Level) -> bool

  function TableOf(): (t: Table) { (k, x) => x in LevelsOf(k) }

  /** The levels of the row are levels of the table, inside the profile. */
  predicate InGrid(t: Table, core: bool, r: Row)
  {
    && t(TY, r.ty) && t(OP, r.op) && t(CO, r.co) && t(LV, r.lv) && t(SL, r.sl) && t(FM, r.fm) && t(HC, r.hc)
    && t(HR, r.hr) && t(CP, r.cp) && t(CT, r.ct) && t(IN, r.kind) && t(WK, r.wk) && t(PC, r.pc)
    && (core ==> r.ty != TaggedExtended && r.kind != MemoryImage)
  }

  /** The levels that the proofs put into rows. */
  predicate Basic(t: Table) { BasicUse(t) && BasicPlace(t) && BasicWrite(t) }

  predicate BasicUse(t: Table)
  {
    && t(TY, PackedStruct) && t(OP, DirectProjection) && t(LV, Nothing) && t(FM, Nothing) && t(CT, Nothing)
    && t(CO, AssignmentRhs) && t(CO, FunctionReturnStatement) && t(CO, DeclarationInitializer)
  }

  predicate BasicPlace(t: Table)
  {
    && t(SL, ModulePackage) && t(SL, AutomaticLocal) && t(HC, Module) && t(HC, Subroutine) && t(HR, Local)
    && t(CP, Nothing) && t(CP, Function)
  }

  predicate BasicWrite(t: Table)
  {
    && t(IN, Nothing) && t(IN, ConstantDeclaration) && t(IN, AutomaticLocal)
    && t(WK, Nothing) && t(WK, ContinuousVariable) && t(WK, ProceduralBlocking) && t(PC, Nothing) && t(PC, Initial)
  }

  lemma {:induction false} Listed(k: Axis, i: nat)
    requires i < |LevelsOf(k)|
    ensures TableOf()(k, LevelsOf(k)[i])
  {
  }

  lemma {:induction false} TableIsBasic()
    ensures Basic(TableOf())
  {
    TableHasUses();
    TableHasPlaces();
    TableHasWrites();
  }

  lemma {:induction false} TableHasUses()
    ensures BasicUse(TableOf())
  {
    Listed(TY, 2);
    Listed(OP, 0);
    Listed(LV, 0);
    Listed(FM, 0);
    Listed(CT, 0);
    Listed(CO, 0);
    Listed(CO, 3);
    Listed(CO, 4);
  }

  lemma {:induction false} TableHasPlaces()
    ensures BasicPlace(TableOf())
  {
    Listed(SL, 0);
    Listed(SL, 2);
    Listed(HC, 0);
    Listed(HC, 1);
    Listed(HR, 0);
    Listed(CP, 0);
    Listed(CP, 1);
  }

  lemma {:induction false} TableHasWrites()
    ensures BasicWrite(TableOf())
  {
    TableHasKinds();
    Listed(WK, 0);
    Listed(WK, 2);
    Listed(WK, 3);
    Listed(PC, 0);
    Listed(PC, 1);
  }

  lemma {:induction false} TableHasKinds()
    ensures var t := TableOf(); t(IN, Nothing) && t(IN, ConstantDeclaration) && t(IN, AutomaticLocal)
  {
    Listed(IN, 0);
    Listed(IN, 1);
    Listed(IN, 2);
  }

  /** Both rows have the same levels on the fixed axes. */
  predicate Agree(fixed: set<Axis>, a: Row, b: Row) { forall k :: k in fixed ==> At(a, k) == At(b, k) }

  function ToAssignment(r: Row): (w: Row)
  {
    r.(co := AssignmentRhs, kind := Nothing, wk := ProceduralBlocking, pc := if r.pc == Nothing then Initial else r.pc)
  }

  function ToDriver(r: Row): (w: Row)
  {
    r.(co := AssignmentRhs, kind := Nothing, wk := ContinuousVariable, sl := ModulePackage, hc := Module, hr := Local)
  }

  function ToRead(r: Row, returned: bool): (w: Row)
  {
    r.(lv := Nothing, wk := Nothing, co := if returned then r.co else AssignmentRhs)
  }

  function ToInitializer(r: Row): (w: Row)
  {
    r.(co := DeclarationInitializer, kind := AutomaticLocal, cp := Function, hr := Local)
  }

  lemma {:induction false} StaysInGrid(t: Table, core: bool, r: Row, returned: bool)
    requires Basic(t) && InGrid(t, core, r)
    ensures InGrid(t, core, ToAssignment(r)) && InGrid(t, core, ToDriver(r)) && InGrid(t, core, ToRead(r, returned))
    ensures InGrid(t, core, ToInitializer(r)) && InGrid(t, core, r.(pc := Initial))
  {
  }

  // ----------------------------------------------------------- pairs of levels

  /** A structured target together with a return statement or an initializer: the rules that excuse
      it look at the write kind, which a pair leaves open. */
  predicate Misjudged(co: Option<Level>, lv: Option<Level>, kind: Option<Level>)
  {
    !Unstructured(lv) && (Is(co, FunctionReturnStatement) || Is(co, DeclarationInitializer) || Real(kind))
  }

  predicate MisjudgedRow(fixed: set<Axis>, r: Row)
  {
    Misjudged(Seen(CO in fixed, r.co), Seen(LV in fixed, r.lv), Seen(IN in fixed, r.kind))
  }

  /** Another row for a target that the search would refuse. */
  function TargetRepair(fixed: set<Axis>, r: Row): (w: Row)
  {
    if PC in fixed && r.pc == Nothing then ToDriver(r) else ToAssignment(r)
  }

  predicate BadTarget(fixed: set<Axis>, r: Row) { LV in fixed && WK !in fixed && !Aimed(r, SL in fixed, true) }

  lemma {:induction false} TargetIsLawful(fixed: set<Axis>, r: Row)
    requires Ordinary(r) && BadTarget(fixed, r)
    ensures Lawful(TargetRepair(fixed, r))
  {
    assert r.lv != Nothing;
    if PC in fixed && r.pc == Nothing {
      assert Drives(TargetRepair(fixed, r));
    } else {
      assert Assigns(TargetRepair(fixed, r));
    }
    ShapedIsLawful(TargetRepair(fixed, r));
  }

  lemma {:induction false} TargetAgrees(fixed: set<Axis>, k: Axis, r: Row)
    requires fixed == {LV, k} && !MisjudgedRow(fixed, r) && BadTarget(fixed, r)
    requires r.co == FunctionReturnStatement ==> r.kind == Nothing
    ensures At(TargetRepair(fixed, r), k) == At(r, k)
  {
  }

  lemma {:induction false} TargetIsAccepted(fixed: set<Axis>, r: Row)
    ensures Accepted(fixed, TargetRepair(fixed, r))
  {
  }

  lemma {:induction false} AgreeOnPair(k: Axis, l: Axis, a: Row, b: Row)
    requires At(a, k) == At(b, k) && At(a, l) == At(b, l)
    ensures Agree({k, l}, a, b)
  {
  }

  lemma {:induction false} RepairTarget(fixed: set<Axis>, k: Axis, l: Axis, r: Row) returns (w: Row)
    requires fixed == {k, l} && Ordinary(r) && !MisjudgedRow(fixed, r) && BadTarget(fixed, r)
    requires r.co == FunctionReturnStatement ==> r.kind == Nothing
    ensures Lawful(w) && Agree(fixed, w, r) && Accepted(fixed, w) && w == TargetRepair(fixed, r)
  {
    w := TargetRepair(fixed, r);
    TargetIsLawful(fixed, r);
    TargetIsAccepted(fixed, r);
    var other := if k == LV then l else k;
    assert fixed == {LV, other};
    TargetAgrees(fixed, other, r);
    AgreeOnPair(LV, other, w, r);
  }

  /** A return statement behind a write, outside any process, as the rules admit it. */
  predicate LooseReturn(r: Row)
  {
    && Unscheduled(r) && Ordinary(r) && r.kind == Nothing && r.hc == Subroutine && r.lv != Nothing
    && r.sl == AutomaticLocal && r.cp == Nothing
  }

  /** Another row for it. */
  function ReturnRepair(fixed: set<Axis>, r: Row): (w: Row)
  {
    if PC !in fixed then r.(pc := Initial)
    else if LV in fixed then ToDriver(r)
    else if WK in fixed then ToInitializer(r)
    else ToRead(r, CO in fixed)
  }

  lemma {:induction false} ReturnIsLawful(fixed: set<Axis>, r: Row)
    requires LooseReturn(r)
    ensures Lawful(ReturnRepair(fixed, r))
  {
    var w := ReturnRepair(fixed, r);
    if PC !in fixed {
      assert Returns(w);
    } else if LV in fixed {
      assert Drives(w);
    } else if WK in fixed {
      assert Initializes(w);
    } else {
      assert Reads(w);
    }
    ShapedIsLawful(w);
  }

  lemma {:induction false} ReturnAgrees(fixed: set<Axis>, k: Axis, l: Axis, r: Row)
    requires LooseReturn(r) && fixed == {k, l}
    ensures Agree(fixed, ReturnRepair(fixed, r), r)
  {
    ReturnKeeps(fixed, k, l, r);
    assert fixed == {l, k};
    ReturnKeeps(fixed, l, k, r);
    AgreeOnPair(k, l, ReturnRepair(fixed, r), r);
  }

  lemma {:induction false} ReturnKeeps(fixed: set<Axis>, k: Axis, l: Axis, r: Row)
    requires LooseReturn(r) && fixed == {k, l}
    ensures At(ReturnRepair(fixed, r), k) == At(r, k)
  {
    if PC in fixed && k != PC {
      assert fixed == {PC, k};
    }
  }

  lemma {:induction false} ReturnIsAccepted(fixed: set<Axis>, k: Axis, l: Axis, r: Row)
    requires LooseReturn(r) && fixed == {k, l} && !BadTarget(fixed, r)
    ensures Accepted(fixed, ReturnRepair(fixed, r))
  {
    if PC in fixed && LV !in fixed && WK in fixed {
      assert fixed == {PC, WK};
    }
  }

  lemma {:induction false} RepairReturn(fixed: set<Axis>, k: Axis, l: Axis, r: Row) returns (w: Row)
    requires fixed == {k, l} && LooseReturn(r) && !BadTarget(fixed, r)
    ensures Lawful(w) && Agree(fixed, w, r) && Accepted(fixed, w) && w == ReturnRepair(fixed, r)
  {
    w := ReturnRepair(fixed, r);
    ReturnIsLawful(fixed, r);
    ReturnIsAccepted(fixed, k, l, r);
    ReturnAgrees(fixed, k, l, r);
  }

  lemma {:induction false} LooseReturns(r: Row)
    requires Lawful(r) && Unscheduled(r)
    ensures LooseReturn(r)
  {
    UsesAreOrdinary(r);
    Obeys(r, ProceduralProcess);
    UnscheduledUse(r);
  }

  /** A pair that is not misjudged and is part of some row that satisfies the rules is part of one
      that the search reaches. */
  lemma {:induction false} Repair(t: Table, core: bool, fixed: set<Axis>, k: Axis, l: Axis, r: Row) returns (w: Row)
    requires Basic(t) && fixed == {k, l} && InGrid(t, core, r) && Lawful(r) && !MisjudgedRow(fixed, r)
    ensures InGrid(t, core, w) && Lawful(w) && Agree(fixed, w, r) && Accepted(fixed, w)
  {
    if Accepted(fixed, r) {
      w := r;
    } else {
      if BadTarget(fixed, r) {
        UsesAreOrdinary(r);
        w := RepairTarget(fixed, k, l, r);
      } else {
        LooseReturns(r);
        w := RepairReturn(fixed, k, l, r);
      }
      StaysInGrid(t, core, r, CO in fixed);
    }
  }

  lemma {:induction false} MisjudgedIsRefused(fixed: set<Axis>, k: Axis, l: Axis, r: Row)
    requires fixed == {k, l} && Lawful(r) && MisjudgedRow(fixed, r)
    ensures !Accepted(fixed, r)
  {
    Obeys(r, InitializerSite);
    KindMeansInitializer(r);
  }

  lemma {:induction false} KindMeansInitializer(r: Row)
    requires Permits(InitializerSite, Whole(r))
    ensures r.kind != Nothing <==> r.co == DeclarationInitializer
  {
  }

  // ----------------------------------------------- rows inside the Core profile

  predicate Unfit(r: Row) { r.lv == WholeObject && r.wk != ProceduralBlocking && r.sl != AutomaticLocal }

  /** The rules that read the type of the slot. */
  lemma {:induction false} RetypedHolds(r: Row, id: RuleId)
    requires Permits(id, Whole(r)) && r.ty == TaggedExtended
    ensures Permits(id, Whole(r.(ty := PackedStruct)))
  {
    if id != TypeField && id != ReductionReceiver {
      TypeUnread(Whole(r), Whole(r.(ty := PackedStruct)), id);
    }
  }

  lemma {:induction false} TypeUnread(s: Sight, t: Sight, id: RuleId)
    requires t == s.(ty := t.ty) && id != TypeField && id != ReductionReceiver
    ensures Permits(id, s) == Permits(id, t)
  {
  }

  /** The rules that read the kind of initializer. */
  predicate ReadsKind(id: RuleId)
  {
    id in {RuntimeDeclScope, InitializerSite, DeclarationStorage, DeclarationPhase, StaticInitPhase, ProceduralProcess,
           ConstantDeclInterfaceSignal, HierarchicalConstant}
  }

  lemma {:induction false} KindUnread(s: Sight, t: Sight, id: RuleId)
    requires t == s.(kind := t.kind) && !ReadsKind(id)
    ensures Permits(id, s) == Permits(id, t)
  {
  }

  lemma {:induction false} RedeclaredHolds(r: Row, id: RuleId)
    requires Permits(id, Whole(r)) && r.kind == MemoryImage && !Unfit(r)
    ensures Permits(id, Whole(r.(kind := AutomaticLocal)))
  {
    if !ReadsKind(id) {
      KindUnread(Whole(r), Whole(r.(kind := AutomaticLocal)), id);
    }
  }

  lemma {:induction false} RetypedIsLawful(r: Row)
    requires Lawful(r) && r.ty == TaggedExtended
    ensures Lawful(r.(ty := PackedStruct))
  {
    forall id ensures Permits(id, Whole(r.(ty := PackedStruct))) {
      Obeys(r, id);
      RetypedHolds(r, id);
    }
  }

  lemma {:induction false} RedeclaredIsLawful(r: Row)
    requires Lawful(r) && r.kind == MemoryImage && !Unfit(r)
    ensures Lawful(r.(kind := AutomaticLocal))
  {
    forall id ensures Permits(id, Whole(r.(kind := AutomaticLocal))) {
      Obeys(r, id);
      RedeclaredHolds(r, id);
    }
  }

  lemma {:induction false} UnfitTarget(r: Row)
    requires Permits(DeclarationTarget, Whole(r)) && r.co == DeclarationInitializer && Unfit(r)
    ensures r.wk == Nothing
  {
  }

  lemma {:induction false} UnfitReduction(r: Row)
    requires Permits(ReductionRead, Whole(r)) && r.lv == WholeObject && r.wk == Nothing
    ensures r.cp != FixedArrayReduction
  {
  }

  /** A memory image that no automatic variable can stand for as it is. */
  predicate UnfitImage(r: Row)
  {
    && Unfit(r) && Ordinary(r) && r.co == DeclarationInitializer
    && r.wk == Nothing && r.cp != FixedArrayReduction
  }

  lemma {:induction false} UnfitImages(r: Row)
    requires Lawful(r) && r.kind == MemoryImage && Unfit(r)
    ensures UnfitImage(r)
  {
    Obeys(r, InitializerSite);
    KindMeansInitializer(r);
    UsesAreOrdinary(r);
    Obeys(r, DeclarationTarget);
    UnfitTarget(r);
    Obeys(r, ReductionRead);
    UnfitReduction(r);
  }

  /** Another row for it. */
  function Redeclared(fixed: set<Axis>, r: Row): (w: Row)
  {
    if LV !in fixed then r.(kind := AutomaticLocal, lv := Nothing)
    else if SL in fixed || HR in fixed then ToAssignment(r)
    else r.(kind := AutomaticLocal, sl := AutomaticLocal, hr := Local)
  }

  lemma {:induction false} ImageIsShaped(fixed: set<Axis>, r: Row)
    requires UnfitImage(r)
    ensures Shaped(Redeclared(fixed, r))
  {
    var w := Redeclared(fixed, r);
    if LV in fixed && (SL in fixed || HR in fixed) {
      assert Assigns(w);
    } else {
      assert Declares(w);
    }
  }

  lemma {:induction false} ImageAgrees(fixed: set<Axis>, k: Axis, l: Axis, r: Row)
    requires UnfitImage(r) && fixed == {k, l} && IN !in fixed
    ensures Agree(fixed, Redeclared(fixed, r), r)
  {
    ImageKeeps(fixed, k, l, r);
    assert fixed == {l, k};
    ImageKeeps(fixed, l, k, r);
    AgreeOnPair(k, l, Redeclared(fixed, r), r);
  }

  lemma {:induction false} ImageKeeps(fixed: set<Axis>, k: Axis, l: Axis, r: Row)
    requires UnfitImage(r) && fixed == {k, l} && IN !in fixed
    ensures At(Redeclared(fixed, r), k) == At(r, k)
  {
    if LV in fixed && SL in fixed {
      assert k == LV || k == SL;
    } else if LV in fixed && HR in fixed {
      assert k == LV || k == HR;
    }
  }

  lemma {:induction false} ImageStaysInGrid(t: Table, fixed: set<Axis>, r: Row)
    requires Basic(t) && InGrid(t, false, r) && r.ty != TaggedExtended
    ensures InGrid(t, true, Redeclared(fixed, r)) && InGrid(t, true, r.(kind := AutomaticLocal))
  {
  }

  lemma {:induction false} RedeclareImage(t: Table, fixed: set<Axis>, k: Axis, l: Axis, r: Row) returns (w: Row)
    requires Basic(t) && fixed == {k, l} && IN !in fixed && InGrid(t, false, r) && r.ty != TaggedExtended
    requires UnfitImage(r)
    ensures InGrid(t, true, w) && Lawful(w) && Agree(fixed, w, r)
  {
    w := Redeclared(fixed, r);
    ImageAgrees(fixed, k, l, r);
    ImageStaysInGrid(t, fixed, r);
    ImageIsShaped(fixed, r);
    ShapedIsLawful(w);
  }

  lemma {:induction false} RedeclareKind(t: Table, fixed: set<Axis>, k: Axis, l: Axis, r: Row) returns (w: Row)
    requires Basic(t) && fixed == {k, l} && IN !in fixed && InGrid(t, false, r) && r.ty != TaggedExtended
    requires Lawful(r) && r.kind == MemoryImage && !Unfit(r)
    ensures InGrid(t, true, w) && Lawful(w) && Agree(fixed, w, r)
  {
    w := r.(kind := AutomaticLocal);
    AgreeOnPair(k, l, w, r);
    ImageStaysInGrid(t, fixed, r);
    RedeclaredIsLawful(r);
  }

  lemma {:induction false} Redeclare(t: Table, fixed: set<Axis>, k: Axis, l: Axis, r: Row) returns (w: Row)
    requires Basic(t) && fixed == {k, l} && InGrid(t, false, r) && Lawful(r) && r.ty != TaggedExtended
    requires IN in fixed ==> r.kind != MemoryImage
    ensures InGrid(t, true, w) && Lawful(w) && Agree(fixed, w, r)
  {
    if r.kind != MemoryImage {
      w := r;
    } else if Unfit(r) {
      UnfitImages(r);
      w := RedeclareImage(t, fixed, k, l, r);
    } else {
      w := RedeclareKind(t, fixed, k, l, r);
    }
  }

  lemma {:induction false} Retype(t: Table, r: Row) returns (w: Row)
    requires Basic(t) && InGrid(t, false, r) && Lawful(r)
    ensures InGrid(t, false, w) && Lawful(w) && w.ty != TaggedExtended
    ensures w == r || (r.ty == TaggedExtended && w == r.(ty := PackedStruct))
  {
    w := r;
    if r.ty == TaggedExtended {
      w := r.(ty := PackedStruct);
      RetypedIsLawful(r);
    }
  }

  /** A pair inside the Core profile that is part of any row that satisfies the rules is part of one
      inside the profile. */
  lemma {:induction false} IntoCore(t: Table, fixed: set<Axis>, k: Axis, l: Axis, r: Row) returns (w: Row)
    requires Basic(t) && fixed == {k, l} && InGrid(t, false, r) && Lawful(r)
    requires (TY in fixed ==> r.ty != TaggedExtended) && (IN in fixed ==> r.kind != MemoryImage)
    ensures InGrid(t, true, w) && Lawful(w) && Agree(fixed, w, r)
  {
    var retyped := Retype(t, r);
    w := Redeclare(t, fixed, k, l, retyped);
    AgreeOnPair(k, l, retyped, r);
  }
}
