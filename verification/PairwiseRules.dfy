/**
 The factor table, the search order and the structural rules of
 scripts/check_syn038_pairwise_manifest.py, and what "no support" means for them.
 */
module PairwiseRules {
  import opened Options
  import opened Support

  datatype Axis = TY | OP | CO | LV | SL | FM | HC | HR | CP | CT | IN | WK | PC

  datatype Level =
    | Nothing
    | IntegralBitLogic | Enum | PackedStruct | UntaggedPackedUnion | FixedArrayIntegral | FixedArrayRecord
    | UnpackedRecord | TaggedExtended
    | DirectProjection | Conditional | EqualityInside | CastStream | AssignmentPattern
    | AssignmentRhs | PortActual | CallArgument | FunctionReturnStatement | DeclarationInitializer
    | ConstantElaboration | EventExpression
    | WholeObject | Field | Element | RowSlice | Concatenation | PositionalPattern
    | ModulePackage | StaticLocal | AutomaticLocal | Formal | ReturnSlot | InterfaceMember
    | Input | Output | Inout | Ref | ConstRef
    | Module | Subroutine | Generate | Interface
    | Local | ChildPort | HierarchicalIdentifier
    | Function | FixedArrayReduction | Task
    | ConstantDeclaration | RuntimeDeclaration | MemoryImage
    | ContinuousNet | ContinuousVariable | ProceduralBlocking | ProceduralNba
    | Initial | Always | AlwaysComb | AlwaysLatch | AlwaysFf

  type Levels = Vector<Axis, Level>

  function LevelsOf(k: Axis): (r: seq<Level>)
  {
    match k
    case TY => [IntegralBitLogic, Enum, PackedStruct, UntaggedPackedUnion, FixedArrayIntegral, FixedArrayRecord,
                UnpackedRecord, TaggedExtended]
    case OP => [DirectProjection, Conditional, EqualityInside, CastStream, AssignmentPattern]
    case CO => [AssignmentRhs, PortActual, CallArgument, FunctionReturnStatement, DeclarationInitializer,
                ConstantElaboration, EventExpression]
    case LV => [Nothing, WholeObject, Field, Element, RowSlice, Concatenation, PositionalPattern]
    case SL => [ModulePackage, StaticLocal, AutomaticLocal, Formal, ReturnSlot, InterfaceMember]
    case FM => [Nothing, Input, Output, Inout, Ref, ConstRef]
    case HC => [Module, Subroutine, Generate, Interface]
    case HR => [Local, ChildPort, HierarchicalIdentifier, InterfaceMember]
    case CP => [Nothing, Function, FixedArrayReduction]
    case CT => [Nothing, Function, Task]
    case IN => [Nothing, ConstantDeclaration, AutomaticLocal, StaticLocal, RuntimeDeclaration, MemoryImage]
    case WK => [Nothing, ContinuousNet, ContinuousVariable, ProceduralBlocking, ProceduralNba]
    case PC => [Nothing, Initial, Always, AlwaysComb, AlwaysLatch, AlwaysFf]
  }

  const FACTORS: map<Axis, seq<Level>> := map k: Axis | true :: LevelsOf(k)

  const SEARCH_ORDER: seq<Axis> := [CO, IN, HC, WK, PC, LV, SL, FM, CT, CP, TY, OP, HR]

  /** The two levels outside the Core profile. */
  function OutsideCore(core: bool): (b: (Axis, Level) -> bool)
  {
    (k, x) => core && ((k == TY && x == TaggedExtended) || (k == IN && x == MemoryImage))
  }

  function Grid(core: bool): (p: Problem<Axis, Level>) { Problem(FACTORS, SEARCH_ORDER, OutsideCore(core)) }

  // ----------------------------------------------------------------- rules

  function Get(a: Levels, k: Axis): (r: Option<Level>) { if k in a then Some(a[k]) else None }

  /** The level of an axis is unset or one of the given ones. */
  predicate Open(x: Option<Level>, allowed: set<Level>) { x.None? || x.value in allowed }

  predicate Is(x: Option<Level>, y: Level) { x == Some(y) }

  /** The level of an axis is set, and not to "none". */
  predicate Real(x: Option<Level>) { x.Some? && x.value != Nothing }

  predicate MatchingFocalWrite(lv: Option<Level>, wk: Option<Level>)
  {
    lv.None? || wk.None? || ((lv.value == Nothing) == (wk.value == Nothing))
  }

  datatype RuleId =
    | RuntimeDeclScope | InitializerSite | CallTarget | TaskProcess | FormalSite | PortDirection | PortRoute
    | PortLinkRoute | PortAutomaticStorage | ChildPortLink | StaticLocalChildPort | InterfaceMemberStorage
    | ActualAddress | ReadSite | ReturnSlotRule | ReturnLexical | ConstantTime | EventProcess | DeclarationTarget
    | DeclarationStorage | DeclarationPhase | StaticInitPhase | FocalWrite | ContinuousStorage
    | StaticContinuousScope | ProceduralProcess | AutomaticNba | OutputExpression | ReductionReceiver
    | ReductionRead | TypeField | RefActualVariable | ConstantInterfaceSignal | ConstantDeclInterfaceSignal
    | HierarchicalConstant | ProducerFormalActual | ConstRefSourceOp

  predicate CheckActualAddress(co: Option<Level>, fm: Option<Level>, lv: Option<Level>, wk: Option<Level>)
  {
    if !(Is(co, PortActual) || Is(co, CallArgument)) || fm.None? || lv.None? then true
    else if fm.value in {Input, ConstRef} then
      if wk.None? then true
      else if fm.value == ConstRef && wk.value == ContinuousNet then false
      else if wk.value != Nothing then MatchingFocalWrite(lv, wk)
      else lv.value == Nothing
    else if fm.value in {Inout, Ref} then
      if wk.None? then true
      else if wk.value == Nothing then lv.value != Nothing
      else (wk.value in {ProceduralBlocking, ProceduralNba} || (fm.value == Ref && wk.value == ContinuousVariable))
           && MatchingFocalWrite(lv, wk)
    else lv.value != Nothing
  }

  /** No target, or a whole object. */
  predicate Simple(lv: Level) { lv == Nothing || lv == WholeObject }

  predicate Unstructured(lv: Option<Level>) { lv.None? || Simple(lv.value) }

  predicate CheckReadSite(co: Option<Level>, lv: Option<Level>, wk: Option<Level>)
  {
    if Is(co, EventExpression) || (Is(co, FunctionReturnStatement) && Real(wk)) then true
    else if Is(co, ConstantElaboration) && Real(lv) then false
    else if Is(co, FunctionReturnStatement) && !Unstructured(lv) then false
    else !(Is(co, FunctionReturnStatement) || Is(co, ConstantElaboration)) || !Real(wk)
  }

  predicate CheckReturnSlot(co: Option<Level>, lv: Option<Level>, wk: Option<Level>, sl: Option<Level>)
  {
    if Is(co, FunctionReturnStatement) && Real(wk) then true
    else !Is(co, FunctionReturnStatement) || !Is(lv, WholeObject) || Open(sl, {ReturnSlot})
  }

  predicate CheckDeclarationTarget(co: Option<Level>, lv: Option<Level>, wk: Option<Level>)
  {
    if Is(co, DeclarationInitializer) && Is(wk, ProceduralBlocking) then true
    else if Is(co, DeclarationInitializer) && !Unstructured(lv) then false
    else !Is(co, DeclarationInitializer) || !Real(wk)
  }

  predicate CheckDeclarationStorage(co: Option<Level>, lv: Option<Level>, wk: Option<Level>, kind: Option<Level>, sl: Option<Level>)
  {
    if Is(co, DeclarationInitializer) && Is(wk, ProceduralBlocking) then true
    else if !Is(co, DeclarationInitializer) || !Is(lv, WholeObject) then true
    else DeclaredStorage(kind, sl)
  }

  predicate DeclaredStorage(kind: Option<Level>, sl: Option<Level>)
  {
    kind.None? || sl.None? || StorageFits(kind.value, sl.value)
  }

  /** The storage that a declared whole object may have. */
  predicate StorageFits(kind: Level, sl: Level)
  {
    if kind == ConstantDeclaration then sl in {ModulePackage, StaticLocal, Formal}
    else if kind == AutomaticLocal then sl == AutomaticLocal
    else if kind == StaticLocal then sl == StaticLocal
    else if kind == RuntimeDeclaration then sl in {ModulePackage, InterfaceMember}
    else true
  }

  predicate CheckFocalWrite(co: Option<Level>, lv: Option<Level>, wk: Option<Level>, fm: Option<Level>)
  {
    if Is(co, AssignmentRhs) && lv.Some? && wk.Some? then MatchingFocalWrite(lv, wk)
    else if Is(co, EventExpression) then MatchingFocalWrite(lv, wk)
    else if (Is(co, PortActual) || Is(co, CallArgument)) && Open(fm, {Input, ConstRef, Inout, Ref}) && Real(wk) then
      MatchingFocalWrite(lv, wk)
    else if Is(co, FunctionReturnStatement) && Real(wk) then MatchingFocalWrite(lv, wk)
    else if Is(co, DeclarationInitializer) && Is(wk, ProceduralBlocking) then MatchingFocalWrite(lv, wk)
    else Open(co, {AssignmentRhs}) || !Real(wk)
  }

  predicate CheckContinuousStorage(co: Option<Level>, wk: Option<Level>, sl: Option<Level>, hr: Option<Level>, pc: Option<Level>)
  {
    if !(Is(wk, ContinuousNet) || Is(wk, ContinuousVariable)) then true
    else if Is(wk, ContinuousVariable) && (Is(sl, StaticLocal) || Is(sl, ReturnSlot)) && !Open(hr, {HierarchicalIdentifier}) then
      false
    else
      && (Open(co, {AssignmentRhs, EventExpression, CallArgument, FunctionReturnStatement}) || !Real(pc))
      && Open(sl, {ModulePackage, InterfaceMember, Formal}
                  + (if Is(wk, ContinuousVariable) then {StaticLocal, ReturnSlot} else {}))
  }

  predicate CheckProceduralProcess(
      co: Option<Level>, wk: Option<Level>, pc: Option<Level>, cp: Option<Level>, sl: Option<Level>, hc: Option<Level>, kind: Option<Level>)
  {
    if !(Is(wk, ProceduralBlocking) || Is(wk, ProceduralNba)) || !Is(pc, Nothing) then true
    else if Open(co, {PortActual}) then true
    else if Is(co, DeclarationInitializer) && Is(wk, ProceduralBlocking) && Open(cp, {Function}) then true
    else Is(co, FunctionReturnStatement) && Is(wk, ProceduralBlocking) && Is(sl, AutomaticLocal) && Is(hc, Subroutine)
         && !Real(cp) && !Real(kind)
  }

  /** The levels of a partial vector, axis by axis, as the rules read them. */
  datatype Sight = Sight(
    ty: Option<Level>, op: Option<Level>, co: Option<Level>, lv: Option<Level>, sl: Option<Level>, fm: Option<Level>,
    hc: Option<Level>, hr: Option<Level>, cp: Option<Level>, ct: Option<Level>, kind: Option<Level>,
    wk: Option<Level>, pc: Option<Level>)

  function SightOf(a: Levels): (s: Sight)
  {
    Sight(Get(a, TY), Get(a, OP), Get(a, CO), Get(a, LV), Get(a, SL), Get(a, FM), Get(a, HC), Get(a, HR), Get(a, CP),
          Get(a, CT), Get(a, IN), Get(a, WK), Get(a, PC))
  }

  predicate Permits(id: RuleId, s: Sight)
  {
    var Sight(ty, op, co, lv, sl, fm, hc, hr, cp, ct, kind, wk, pc) := s;
    match id
    case RuntimeDeclScope => !Is(kind, RuntimeDeclaration) || !Is(hc, Subroutine)
    case InitializerSite => co.None? || kind.None? || ((co.value == DeclarationInitializer) == (kind.value != Nothing))
    case CallTarget => co.None? || ct.None? || ((co.value == CallArgument) == (ct.value != Nothing))
    case TaskProcess => !Is(ct, Task) || !Is(pc, Nothing)
    case FormalSite => co.None? || fm.None? || ((co.value in {PortActual, CallArgument}) == (fm.value != Nothing))
    case PortDirection => !Is(co, PortActual) || Open(fm, {Input, Output, Inout, Ref})
    case PortRoute =>
      if !Is(co, PortActual) then true
      else if Real(wk) then !Real(pc) && !Is(hc, Subroutine) && Open(fm, {Input})
      else !Real(pc) && !Real(wk) && !Is(hc, Subroutine)
    case PortLinkRoute => !Is(co, PortActual) || !Is(hr, Local)
    case PortAutomaticStorage => !Is(co, PortActual) || !Is(sl, AutomaticLocal)
    case ChildPortLink => !Is(hr, ChildPort) || Open(co, {PortActual})
    case StaticLocalChildPort => !Is(sl, StaticLocal) || !Is(hr, ChildPort)
    case InterfaceMemberStorage => !Is(hr, InterfaceMember) || Open(sl, {InterfaceMember})
    case ActualAddress => CheckActualAddress(co, fm, lv, wk)
    case ReadSite => CheckReadSite(co, lv, wk)
    case ReturnSlotRule => CheckReturnSlot(co, lv, wk, sl)
    case ReturnLexical => !Is(co, FunctionReturnStatement) || Open(hc, {Subroutine})
    case ConstantTime => !Is(co, ConstantElaboration) || !Real(pc)
    case EventProcess => !Is(co, EventExpression) || !(Is(pc, Nothing) || Is(pc, AlwaysComb) || Is(pc, AlwaysLatch))
    case DeclarationTarget => CheckDeclarationTarget(co, lv, wk)
    case DeclarationStorage => CheckDeclarationStorage(co, lv, wk, kind, sl)
    case DeclarationPhase => !(Is(kind, ConstantDeclaration) || Is(kind, RuntimeDeclaration)) || !Real(pc)
    case StaticInitPhase => !Is(kind, StaticLocal) || !Real(pc)
    case FocalWrite => CheckFocalWrite(co, lv, wk, fm)
    case ContinuousStorage => CheckContinuousStorage(co, wk, sl, hr, pc)
    case StaticContinuousScope =>
      if Open(co, {EventExpression, CallArgument, FunctionReturnStatement}) then true
      else !(Is(wk, ContinuousNet) || Is(wk, ContinuousVariable)) || !Is(hc, Subroutine)
    case ProceduralProcess => CheckProceduralProcess(co, wk, pc, cp, sl, hc, kind)
    case AutomaticNba => !Is(wk, ProceduralNba) || !Is(sl, AutomaticLocal)
    case OutputExpression =>
      if !(Is(co, PortActual) || Is(co, CallArgument)) || !(Is(fm, Output) || Is(fm, Inout) || Is(fm, Ref)) then true
      else Open(op, {DirectProjection})
    case ReductionReceiver => !Is(cp, FixedArrayReduction) || Open(ty, {FixedArrayIntegral, FixedArrayRecord})
    case ReductionRead => !Is(cp, FixedArrayReduction) || MatchingFocalWrite(lv, wk)
    case TypeField => !Is(lv, Field) || !(Is(ty, IntegralBitLogic) || Is(ty, Enum) || Is(ty, FixedArrayIntegral))
    case RefActualVariable =>
      !Is(fm, Ref) || !(Is(lv, Concatenation) || Is(lv, PositionalPattern)) || !Is(wk, Nothing)
    case ConstantInterfaceSignal => !Is(co, ConstantElaboration) || !Is(sl, InterfaceMember)
    case ConstantDeclInterfaceSignal => !Is(kind, ConstantDeclaration) || !Is(sl, InterfaceMember)
    case HierarchicalConstant =>
      !Is(hr, HierarchicalIdentifier) || (!Is(co, ConstantElaboration) && !Is(kind, ConstantDeclaration))
    case ProducerFormalActual => !Real(cp) || !(Is(fm, Output) || Is(fm, Inout) || Is(fm, Ref) || Is(fm, ConstRef))
    case ConstRefSourceOp => !Is(co, CallArgument) || !Is(fm, ConstRef) || Open(op, {DirectProjection})
  }

  predicate Check(id: RuleId, a: Levels) { Permits(id, SightOf(a)) }

  /** The rules in the order of the script. */
  const RULES: seq<RuleId> := PORT_RULES + SITE_RULES + WRITE_RULES

  const PORT_RULES: seq<RuleId> := [
    RuntimeDeclScope, InitializerSite, CallTarget, TaskProcess, FormalSite, PortDirection, PortRoute, PortLinkRoute,
    PortAutomaticStorage, ChildPortLink, StaticLocalChildPort, InterfaceMemberStorage, ActualAddress]

  const SITE_RULES: seq<RuleId> := [
    ReadSite, ReturnSlotRule, ReturnLexical, ConstantTime, EventProcess, DeclarationTarget, DeclarationStorage,
    DeclarationPhase, StaticInitPhase]

  const WRITE_RULES: seq<RuleId> := [
    FocalWrite, ContinuousStorage, StaticContinuousScope, ProceduralProcess, AutomaticNba, OutputExpression,
    ReductionReceiver, ReductionRead, TypeField, RefActualVariable, ConstantInterfaceSignal,
    ConstantDeclInterfaceSignal, HierarchicalConstant, ProducerFormalActual, ConstRefSourceOp]

  function NameOf(id: RuleId): (name: string)
  {
    match id
    case RuntimeDeclScope => "SYN038-R-RUNTIME-DECL-SCOPE"
    case InitializerSite => "SYN038-R-INITIALIZER-SITE"
    case CallTarget => "SYN038-R-CALL-TARGET"
    case TaskProcess => "SYN038-R-TASK-PROCESS"
    case FormalSite => "SYN038-R-FORMAL-SITE"
    case PortDirection => "SYN038-R-PORT-DIRECTION"
    case PortRoute => "SYN038-R-PORT-ROUTE"
    case PortLinkRoute => "SYN038-R-PORT-LINK-ROUTE"
    case PortAutomaticStorage => "SYN038-R-PORT-AUTOMATIC-STORAGE"
    case ChildPortLink => "SYN038-R-CHILD-PORT-LINK"
    case StaticLocalChildPort => "SYN038-R-STATIC-LOCAL-CHILD-PORT"
    case InterfaceMemberStorage => "SYN038-R-INTERFACE-MEMBER-STORAGE"
    case ActualAddress => "SYN038-R-ACTUAL-ADDRESS"
    case ReadSite => "SYN038-R-READ-SITE"
    case ReturnSlotRule => "SYN038-R-RETURN-SLOT"
    case ReturnLexical => "SYN038-R-RETURN-LEXICAL"
    case ConstantTime => "SYN038-R-CONSTANT-TIME"
    case EventProcess => "SYN038-R-EVENT-PROCESS"
    case DeclarationTarget => "SYN038-R-DECLARATION-TARGET"
    case DeclarationStorage => "SYN038-R-DECLARATION-STORAGE"
    case DeclarationPhase => "SYN038-R-DECLARATION-PHASE"
    case StaticInitPhase => "SYN038-R-STATIC-INIT-PHASE"
    case FocalWrite => "SYN038-R-FOCAL-WRITE"
    case ContinuousStorage => "SYN038-R-CONTINUOUS-STORAGE"
    case StaticContinuousScope => "SYN038-R-STATIC-CONTINUOUS-SCOPE"
    case ProceduralProcess => "SYN038-R-PROCEDURAL-PROCESS"
    case AutomaticNba => "SYN038-R-AUTOMATIC-NBA"
    case OutputExpression => "SYN038-R-OUTPUT-EXPRESSION"
    case ReductionReceiver => "SYN038-R-REDUCTION-RECEIVER"
    case ReductionRead => "SYN038-R-REDUCTION-READ"
    case TypeField => "SYN038-R-TYPE-FIELD"
    case RefActualVariable => "SYN038-R-REF-ACTUAL-VARIABLE"
    case ConstantInterfaceSignal => "SYN038-R-CONSTANT-INTERFACE-SIGNAL"
    case ConstantDeclInterfaceSignal => "SYN038-R-CONSTANT-DECL-INTERFACE-SIGNAL"
    case HierarchicalConstant => "SYN038-R-HIERARCHICAL-CONSTANT"
    case ProducerFormalActual => "SYN038-R-PRODUCER-FORMAL-ACTUAL"
    case ConstRefSourceOp => "SYN038-R-CONST-REF-SOURCE-OP"
  }

  function RuleOf(id: RuleId): (r: Rule<Axis, Level>) { Rule(NameOf(id), (a: Levels) => Check(id, a)) }

  function RulesOf(ids: seq<RuleId>): (r: seq<Rule<Axis, Level>>)
    ensures |r| == |ids| && forall i :: 0 <= i < |r| ==> r[i] == RuleOf(ids[i])
  {
    seq(|ids|, i requires 0 <= i < |ids| => RuleOf(ids[i]))
  }

  // ----------------------------------------------- which rules are persistent

  /** The rules that read an unset axis as a reason to refuse. */
  predicate Hasty(id: RuleId)
  {
    id in {ReadSite, ReturnSlotRule, DeclarationTarget, DeclarationStorage, ProceduralProcess}
  }

  /** What is seen in `s` is seen in `t`. */
  predicate Grows(s: Sight, t: Sight)
  {
    && Kept(s.ty, t.ty) && Kept(s.op, t.op) && Kept(s.co, t.co) && Kept(s.lv, t.lv) && Kept(s.sl, t.sl)
    && Kept(s.fm, t.fm) && Kept(s.hc, t.hc) && Kept(s.hr, t.hr) && Kept(s.cp, t.cp) && Kept(s.ct, t.ct)
    && Kept(s.kind, t.kind) && Kept(s.wk, t.wk) && Kept(s.pc, t.pc)
  }

  predicate Kept(x: Option<Level>, y: Option<Level>) { x.None? || y == x }

  lemma {:induction false} SightGrows(a: Levels, b: Levels)
    requires Extends(b, a)
    ensures Grows(SightOf(a), SightOf(b))
  {
  }

  /** The rules about one use site and what it receives. */
  predicate AboutSites(id: RuleId)
  {
    id in {RuntimeDeclScope, InitializerSite, CallTarget, TaskProcess, FormalSite, PortDirection, PortLinkRoute,
           PortAutomaticStorage, ChildPortLink, StaticLocalChildPort, InterfaceMemberStorage, ReturnLexical,
           ConstantTime, EventProcess, DeclarationPhase}
  }

  /** The rules with the most cases. */
  predicate Branching(id: RuleId) { id in {ActualAddress, FocalWrite, ContinuousStorage, PortRoute} }

  lemma {:induction false} AddressStaysFalse(s: Sight, t: Sight)
    requires Grows(s, t) && !Permits(ActualAddress, s)
    ensures !Permits(ActualAddress, t)
  {
  }

  lemma {:induction false} FocalWriteStaysFalse(s: Sight, t: Sight)
    requires Grows(s, t) && !Permits(FocalWrite, s)
    ensures !Permits(FocalWrite, t)
  {
  }

  lemma {:induction false} StorageStaysFalse(s: Sight, t: Sight)
    requires Grows(s, t) && !Permits(ContinuousStorage, s)
    ensures !Permits(ContinuousStorage, t)
  {
  }

  lemma {:induction false} RouteStaysFalse(s: Sight, t: Sight)
    requires Grows(s, t) && !Permits(PortRoute, s)
    ensures !Permits(PortRoute, t)
  {
  }

  lemma {:induction false} SitesStayFalse(id: RuleId, s: Sight, t: Sight)
    requires Grows(s, t) && AboutSites(id) && !Permits(id, s)
    ensures !Permits(id, t)
  {
  }

  lemma {:induction false} OthersStayFalse(id: RuleId, s: Sight, t: Sight)
    requires Grows(s, t) && !Hasty(id) && !Branching(id) && !AboutSites(id) && !Permits(id, s)
    ensures !Permits(id, t)
  {
  }

  lemma {:induction false} StaysFalse(id: RuleId, s: Sight, t: Sight)
    requires Grows(s, t) && !Hasty(id) && !Permits(id, s)
    ensures !Permits(id, t)
  {
    if AboutSites(id) {
      SitesStayFalse(id, s, t);
    } else {
      match id
      case ActualAddress => AddressStaysFalse(s, t);
      case FocalWrite => FocalWriteStaysFalse(s, t);
      case ContinuousStorage => StorageStaysFalse(s, t);
      case PortRoute => RouteStaysFalse(s, t);
      case _ => OthersStayFalse(id, s, t);
    }
  }

  /** The hasty rules, or the others, in the order of the script. */
  function Pick(ids: seq<RuleId>, hasty: bool): (r: seq<RuleId>)
    ensures forall id :: id in r <==> id in ids && Hasty(id) == hasty
  {
    if ids == [] then []
    else if Hasty(ids[0]) == hasty then [ids[0]] + Pick(ids[1..], hasty)
    else Pick(ids[1..], hasty)
  }

  const HASTY: seq<RuleId> := Pick(RULES, true)
  const PATIENT: seq<RuleId> := Pick(RULES, false)

  ghost predicate AllPermit(s: Sight) { forall id :: Permits(id, s) }

  ghost predicate HastyPermit(s: Sight) { forall id :: Hasty(id) ==> Permits(id, s) }

  ghost predicate PatientPermit(s: Sight) { forall id :: !Hasty(id) ==> Permits(id, s) }

  /** The vector satisfies every rule of the script. */
  ghost predicate AllHold(a: Levels) { AllPermit(SightOf(a)) }

  lemma {:induction false} HoldsOf(ids: seq<RuleId>, a: Levels)
    ensures Holds(RulesOf(ids), a) <==> forall id :: id in ids ==> Permits(id, SightOf(a))
  {
    var rules := RulesOf(ids);
    if Holds(rules, a) {
      forall id | id in ids ensures Permits(id, SightOf(a)) {
        var i :| 0 <= i < |ids| && ids[i] == id;
        assert rules[i].check(a);
      }
    }
  }

  lemma {:induction false} PortRulesAre(id: RuleId, i: nat)
    requires i < |PORT_RULES| && PORT_RULES[i] == id
    ensures id in RULES
  {
    assert RULES[i] == id;
  }

  lemma {:induction false} SiteRulesAre(id: RuleId, i: nat)
    requires i < |SITE_RULES| && SITE_RULES[i] == id
    ensures id in RULES
  {
    assert RULES[|PORT_RULES| + i] == id;
  }

  lemma {:induction false} WriteRulesAre(id: RuleId, i: nat)
    requires i < |WRITE_RULES| && WRITE_RULES[i] == id
    ensures id in RULES
  {
    assert RULES[|PORT_RULES| + |SITE_RULES| + i] == id;
  }

  lemma {:induction false} RulesAreAll(id: RuleId)
    ensures id in RULES
  {
    match id
    case RuntimeDeclScope => PortRulesAre(id, 0);
    case InitializerSite => PortRulesAre(id, 1);
    case CallTarget => PortRulesAre(id, 2);
    case TaskProcess => PortRulesAre(id, 3);
    case FormalSite => PortRulesAre(id, 4);
    case PortDirection => PortRulesAre(id, 5);
    case PortRoute => PortRulesAre(id, 6);
    case PortLinkRoute => PortRulesAre(id, 7);
    case PortAutomaticStorage => PortRulesAre(id, 8);
    case ChildPortLink => PortRulesAre(id, 9);
    case StaticLocalChildPort => PortRulesAre(id, 10);
    case InterfaceMemberStorage => PortRulesAre(id, 11);
    case ActualAddress => PortRulesAre(id, 12);
    case ReadSite => SiteRulesAre(id, 0);
    case ReturnSlotRule => SiteRulesAre(id, 1);
    case ReturnLexical => SiteRulesAre(id, 2);
    case ConstantTime => SiteRulesAre(id, 3);
    case EventProcess => SiteRulesAre(id, 4);
    case DeclarationTarget => SiteRulesAre(id, 5);
    case DeclarationStorage => SiteRulesAre(id, 6);
    case DeclarationPhase => SiteRulesAre(id, 7);
    case StaticInitPhase => SiteRulesAre(id, 8);
    case FocalWrite => WriteRulesAre(id, 0);
    case ContinuousStorage => WriteRulesAre(id, 1);
    case StaticContinuousScope => WriteRulesAre(id, 2);
    case ProceduralProcess => WriteRulesAre(id, 3);
    case AutomaticNba => WriteRulesAre(id, 4);
    case OutputExpression => WriteRulesAre(id, 5);
    case ReductionReceiver => WriteRulesAre(id, 6);
    case ReductionRead => WriteRulesAre(id, 7);
    case TypeField => WriteRulesAre(id, 8);
    case RefActualVariable => WriteRulesAre(id, 9);
    case ConstantInterfaceSignal => WriteRulesAre(id, 10);
    case ConstantDeclInterfaceSignal => WriteRulesAre(id, 11);
    case HierarchicalConstant => WriteRulesAre(id, 12);
    case ProducerFormalActual => WriteRulesAre(id, 13);
    case ConstRefSourceOp => WriteRulesAre(id, 14);
  }

  lemma {:induction false} AllRules(ids: seq<RuleId>, a: Levels)
    requires ids == RULES
    ensures Holds(RulesOf(ids), a) <==> AllHold(a)
  {
    HoldsOf(ids, a);
    forall id ensures id in ids { RulesAreAll(id); }
  }

  lemma {:induction false} SomeRules(ids: seq<RuleId>, hasty: bool, a: Levels)
    requires ids == Pick(RULES, hasty)
    ensures hasty ==> (Holds(RulesOf(ids), a) <==> HastyPermit(SightOf(a)))
    ensures !hasty ==> (Holds(RulesOf(ids), a) <==> PatientPermit(SightOf(a)))
  {
    HoldsOf(ids, a);
    forall id ensures id in ids <==> Hasty(id) == hasty { RulesAreAll(id); }
  }

  lemma {:induction false} HoldsNamed(a: Levels)
    ensures Holds(RulesOf(RULES), a) <==> AllHold(a)
    ensures Holds(RulesOf(HASTY), a) <==> HastyPermit(SightOf(a))
    ensures Holds(RulesOf(PATIENT), a) <==> PatientPermit(SightOf(a))
  {
    AllRules(RULES, a);
    SomeRules(HASTY, true, a);
    SomeRules(PATIENT, false, a);
  }

  lemma {:induction false} PatientPersist(fixed: Levels)
    ensures AllPersistent(RulesOf(PATIENT), fixed)
  {
    var rules := RulesOf(PATIENT);
    forall i | 0 <= i < |rules| ensures Persistent(rules[i], fixed) {
      assert PATIENT[i] in PATIENT;
      forall a, b | Extends(a, fixed) && Extends(b, a) && !rules[i].check(a) ensures !rules[i].check(b) {
        SightGrows(a, b);
        StaysFalse(PATIENT[i], SightOf(a), SightOf(b));
      }
    }
  }

  /** What a support is for the rules of the script: a complete vector of the profile that satisfies all of
      them, such that the five hasty ones also hold on the fixed levels and on the way. */
  lemma {:induction false} ScriptSupport(core: bool, fixed: Levels, v: Levels)
    ensures Supports(Grid(core), RulesOf(RULES), fixed, v)
            <==> && Clean(Grid(core), fixed) && Completes(Grid(core), fixed, 0, v) && AllHold(v)
                 && Holds(RulesOf(HASTY), fixed) && Trail(Grid(core), RulesOf(HASTY), fixed, 0, v)
  {
    var p := Grid(core);
    PatientPersist(fixed);
    OnlyOthersSeeTheTrail(p, RulesOf(PATIENT), RulesOf(HASTY), fixed, v);
    SameRules(p, RulesOf(RULES), RulesOf(PATIENT) + RulesOf(HASTY), fixed, v);
    HoldsNamed(v);
    AllAreEither(SightOf(v));
  }

  lemma {:induction false} AllAreEither(s: Sight)
    ensures AllPermit(s) <==> PatientPermit(s) && HastyPermit(s)
  {
  }

  lemma {:induction false} SameRules(
      p: Problem<Axis, Level>, a: seq<Rule<Axis, Level>>, b: seq<Rule<Axis, Level>>, fixed: Levels, v: Levels)
    requires a == RulesOf(RULES) && b == RulesOf(PATIENT) + RulesOf(HASTY)
    ensures Supports(p, a, fixed, v) <==> Supports(p, b, fixed, v)
  {
    forall x ensures Holds(a, x) <==> Holds(b, x) {
      HoldsNamed(x);
      HoldsBoth(RulesOf(PATIENT), RulesOf(HASTY), x);
      AllAreEither(SightOf(x));
    }
  }

  /** A vector with a level on every axis, inside the profile, completes each of its parts. */
  lemma {:induction false} FullVectorCompletes(core: bool, part: Levels, v: Levels)
    requires Extends(v, part) && forall k: Axis :: k in v && v[k] in LevelsOf(k) && !OutsideCore(core)(k, v[k])
    ensures Completes(Grid(core), part, 0, v)
  {
    forall k: Axis ensures k in Axes(SEARCH_ORDER, 0, |SEARCH_ORDER|) { AxisIsSearched(k); }
  }

  lemma {:induction false} AxisIsSearched(k: Axis)
    ensures k in Axes(SEARCH_ORDER, 0, |SEARCH_ORDER|)
  {
    var i := match k
      case CO => 0 case IN => 1 case HC => 2 case WK => 3 case PC => 4 case LV => 5 case SL => 6 case FM => 7
      case CT => 8 case CP => 9 case TY => 10 case OP => 11 case HR => 12;
    assert SEARCH_ORDER[i] == k;
  }

  /** Each of the five hasty rules is false on some partial vector and true on a completion of it. */
  lemma {:induction false} HastyAreNotPersistent(id: RuleId) returns (a: Levels, b: Levels)
    requires Hasty(id)
    ensures Extends(b, a) && !Check(id, a) && Check(id, b)
  {
    var s, t := HastySights(id);
    a, b := LevelsIn(s), LevelsIn(t);
    LevelsInSight(s);
    LevelsInSight(t);
    GrowingExtends(s, t);
  }

  function Look(s: Sight, k: Axis): (x: Option<Level>)
  {
    match k
    case TY => s.ty case OP => s.op case CO => s.co case LV => s.lv case SL => s.sl case FM => s.fm case HC => s.hc
    case HR => s.hr case CP => s.cp case CT => s.ct case IN => s.kind case WK => s.wk case PC => s.pc
  }

  function LevelsIn(s: Sight): (a: Levels) { map k: Axis | Look(s, k).Some? :: Look(s, k).value }

  lemma {:induction false} LevelsInSight(s: Sight)
    ensures SightOf(LevelsIn(s)) == s
  {
    var a := LevelsIn(s);
    assert forall k: Axis :: Get(a, k) == Look(s, k);
  }

  lemma {:induction false} GrowingExtends(s: Sight, t: Sight)
    requires Grows(s, t)
    ensures Extends(LevelsIn(t), LevelsIn(s))
  {
    assert forall k: Axis :: Kept(Look(s, k), Look(t, k));
  }

  const BLANK := Sight(None, None, None, None, None, None, None, None, None, None, None, None, None)

  lemma {:induction false} HastySights(id: RuleId) returns (s: Sight, t: Sight)
    requires Hasty(id)
    ensures Grows(s, t) && !Permits(id, s) && Permits(id, t)
  {
    if id == DeclarationTarget || id == DeclarationStorage {
      s, t := DeclaringSights(id);
    } else {
      s, t := ReturningSights(id);
    }
  }

  lemma {:induction false} DeclaringSights(id: RuleId) returns (s: Sight, t: Sight)
    requires id == DeclarationTarget || id == DeclarationStorage
    ensures Grows(s, t) && !Permits(id, s) && Permits(id, t)
  {
    s := BLANK.(co := Some(DeclarationInitializer));
    if id == DeclarationTarget {
      s := s.(lv := Some(Field));
    } else {
      s := s.(lv := Some(WholeObject), kind := Some(AutomaticLocal), sl := Some(Formal));
    }
    t := s.(wk := Some(ProceduralBlocking));
  }

  lemma {:induction false} ReturningSights(id: RuleId) returns (s: Sight, t: Sight)
    requires id == ReadSite || id == ReturnSlotRule || id == ProceduralProcess
    ensures Grows(s, t) && !Permits(id, s) && Permits(id, t)
  {
    s := BLANK.(co := Some(FunctionReturnStatement));
    if id == ProceduralProcess {
      s, t := ProcessSights();
    } else {
      s := if id == ReadSite then s.(lv := Some(Field)) else s.(lv := Some(WholeObject), sl := Some(Formal));
      t := s.(wk := Some(ProceduralBlocking));
    }
  }

  lemma {:induction false} ProcessSights() returns (s: Sight, t: Sight)
    ensures Grows(s, t) && !Permits(ProceduralProcess, s) && Permits(ProceduralProcess, t)
  {
    s := BLANK.(co := Some(FunctionReturnStatement), wk := Some(ProceduralBlocking), pc := Some(Nothing),
                hc := Some(Subroutine));
    t := s.(sl := Some(AutomaticLocal));
  }

  // ------------------------------------------------- explanations of the script

  /** Every axis of the table has a level inside the profile, so the search may clear what it set. */
  lemma {:induction false} GridIsPopulated(core: bool)
    ensures Populated(Grid(core))
  {
    forall n | 0 <= n < |SEARCH_ORDER|
      ensures PopulatedAt(Grid(core), SEARCH_ORDER[n])
    {
      AxisIsPopulated(core, Grid(core), SEARCH_ORDER[n]);
    }
  }

  lemma {:induction false} AxisIsPopulated(core: bool, p: Problem<Axis, Level>, k: Axis)
    requires p == Grid(core)
    ensures PopulatedAt(p, k)
  {
    FirstLevelIsCore(core, k);
    assert p.table[k] == LevelsOf(k);
    assert !p.banned(k, p.table[k][0]);
  }

  lemma {:induction false} FirstLevelIsCore(core: bool, k: Axis)
    ensures |LevelsOf(k)| > 0 && !OutsideCore(core)(k, LevelsOf(k)[0])
  {
  }

  function NamesOf(ids: seq<RuleId>): (r: seq<string>)
    ensures |r| == |ids| && forall i :: 0 <= i < |r| ==> r[i] == NameOf(ids[i])
  {
    seq(|ids|, i requires 0 <= i < |ids| => NameOf(ids[i]))
  }

  lemma {:induction false} AllEnabled(rules: seq<Rule<Axis, Level>>, names: seq<string>)
    requires forall i :: 0 <= i < |rules| ==> rules[i].name in names
    ensures Enabled(rules, names) == rules
  {
    if rules != [] {
      AllEnabled(rules[1..], names);
      assert rules == [rules[0]] + rules[1..];
    }
  }

  /** `impossible_rules` of the script: for levels without a support it never raises, and what it
      returns still admits no support while each of its rules is needed for that. */
  method ExplainImpossible(fixed: Levels) returns (names: seq<string>)
    requires FindSupport(Grid(false), RulesOf(RULES), fixed).None?
    ensures names != [] && forall x :: x in names ==> x in NamesOf(RULES)
    ensures FindSupport(Grid(false), Enabled(RulesOf(RULES), names), fixed).None?
    ensures forall x :: x in names ==> FindSupport(Grid(false), Enabled(RulesOf(RULES), Without(names, x)), fixed).Some?
  {
    var rules, all := RulesOf(RULES), NamesOf(RULES);
    GridIsPopulated(false);
    forall i | 0 <= i < |rules| ensures rules[i].name in all { assert all[i] == rules[i].name; }
    AllEnabled(rules, all);
    SupportedIsFound(Grid(false), rules, fixed);
    var r := ImpossibleRules(Grid(false), rules, all, fixed);
    names := r.value;
    SupportedIsFound(Grid(false), Enabled(rules, names), fixed);
    NoRulesSupport(Grid(false), fixed);
    NoneEnabled(rules);
    forall x | x in names
      ensures FindSupport(Grid(false), Enabled(rules, Without(names, x)), fixed).Some?
    {
      assert Needed(Grid(false), rules, fixed, names, x);
      SupportedIsFound(Grid(false), Enabled(rules, Without(names, x)), fixed);
    }
  }
}
