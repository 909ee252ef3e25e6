/**
 What `find_support` of scripts/check_syn038_pairwise_manifest.py decides for the rules of the script,
 without the search: five rules are hasty, and on the partial vectors of the search they refuse just
 what is written out here.
 */
module PairwiseSearch {
  import opened Options
  import opened Support
  import opened PairwiseRules

  // ------------------------------------------------------------------- rows

  /** A complete vector. */
  datatype Row = Row(ty: Level, op: Level, co: Level, lv: Level, sl: Level, fm: Level, hc: Level, hr: Level,
                     cp: Level, ct: Level, kind: Level, wk: Level, pc: Level)

  function At(r: Row, k: Axis): (x: Level)
  {
    match k
    case TY => r.ty case OP => r.op case CO => r.co case LV => r.lv case SL => r.sl case FM => r.fm case HC => r.hc
    case HR => r.hr case CP => r.cp case CT => r.ct case IN => r.kind case WK => r.wk case PC => r.pc
  }

  predicate Full(v: Levels) { forall k: Axis :: k in v }

  function VectorOf(r: Row): (v: Levels)
    ensures Full(v) && forall k: Axis :: v[k] == At(r, k)
  {
    map k: Axis | true :: At(r, k)
  }

  function RowOf(v: Levels): (r: Row)
    requires Full(v)
  {
    Row(v[TY], v[OP], v[CO], v[LV], v[SL], v[FM], v[HC], v[HR], v[CP], v[CT], v[IN], v[WK], v[PC])
  }

  lemma {:induction false} RowOfVector(v: Levels)
    requires Full(v)
    ensures VectorOf(RowOf(v)) == v
  {
  }

  /** A level as a rule sees it. */
  function Seen(known: bool, x: Level): (r: Option<Level>) { if known then Some(x) else None }

  /** What a rule sees of a row on the known axes. */
  function Glimpse(r: Row, known: set<Axis>): (s: Sight)
  {
    Sight(Seen(TY in known, r.ty), Seen(OP in known, r.op), Seen(CO in known, r.co), Seen(LV in known, r.lv),
          Seen(SL in known, r.sl), Seen(FM in known, r.fm), Seen(HC in known, r.hc), Seen(HR in known, r.hr),
          Seen(CP in known, r.cp), Seen(CT in known, r.ct), Seen(IN in known, r.kind), Seen(WK in known, r.wk),
          Seen(PC in known, r.pc))
  }

  function Whole(r: Row): (s: Sight)
  {
    Sight(Some(r.ty), Some(r.op), Some(r.co), Some(r.lv), Some(r.sl), Some(r.fm), Some(r.hc), Some(r.hr), Some(r.cp),
          Some(r.ct), Some(r.kind), Some(r.wk), Some(r.pc))
  }

  /** The row satisfies the rules of the script. */
  ghost predicate Lawful(r: Row) { AllPermit(Whole(r)) }

  lemma {:induction false} PartAt(r: Row, known: set<Axis>, k: Axis)
    ensures Get(Restrict(VectorOf(r), known), k) == Seen(k in known, At(r, k))
  {
  }

  lemma {:induction false} PartOfUse(r: Row, known: set<Axis>)
    ensures var a := Restrict(VectorOf(r), known);
            && Get(a, TY) == Seen(TY in known, r.ty) && Get(a, OP) == Seen(OP in known, r.op)
            && Get(a, CO) == Seen(CO in known, r.co) && Get(a, LV) == Seen(LV in known, r.lv)
            && Get(a, SL) == Seen(SL in known, r.sl) && Get(a, FM) == Seen(FM in known, r.fm)
  {
    PartAt(r, known, TY);
    PartAt(r, known, OP);
    PartAt(r, known, CO);
    PartAt(r, known, LV);
    PartAt(r, known, SL);
    PartAt(r, known, FM);
  }

  lemma {:induction false} PartOfPlace(r: Row, known: set<Axis>)
    ensures var a := Restrict(VectorOf(r), known);
            && Get(a, HC) == Seen(HC in known, r.hc) && Get(a, HR) == Seen(HR in known, r.hr)
            && Get(a, CP) == Seen(CP in known, r.cp) && Get(a, CT) == Seen(CT in known, r.ct)
            && Get(a, IN) == Seen(IN in known, r.kind) && Get(a, WK) == Seen(WK in known, r.wk)
            && Get(a, PC) == Seen(PC in known, r.pc)
  {
    PartAt(r, known, HC);
    PartAt(r, known, HR);
    PartAt(r, known, CP);
    PartAt(r, known, CT);
    PartAt(r, known, IN);
    PartAt(r, known, WK);
    PartAt(r, known, PC);
  }

  lemma {:induction false} SightOfPart(r: Row, known: set<Axis>)
    ensures SightOf(Restrict(VectorOf(r), known)) == Glimpse(r, known)
  {
    PartOfUse(r, known);
    PartOfPlace(r, known);
  }

  lemma {:induction false} SightOfRow(r: Row)
    ensures SightOf(VectorOf(r)) == Whole(r)
  {
    var all := VectorOf(r).Keys;
    assert Restrict(VectorOf(r), all) == VectorOf(r);
    SightOfPart(r, all);
    assert Glimpse(r, all) == Whole(r);
  }

  // ---------------------------------------- the hasty rules on a part of a row

  lemma {:induction false} ReadSiteSeen(co: Level, lv: Level, wk: Level, kc: bool, kl: bool, kw: bool)
    requires CheckReadSite(Some(co), Some(lv), Some(wk))
    ensures CheckReadSite(Seen(kc, co), Seen(kl, lv), Seen(kw, wk))
            <==> (kc && kl && !kw && co == FunctionReturnStatement ==> Simple(lv))
  {
    if kc && co == FunctionReturnStatement {
      ReturnReadSeen(lv, wk, kl, kw);
    } else {
      OtherReadSeen(co, lv, wk, kc, kl, kw);
    }
  }

  lemma {:induction false} OtherReadSeen(co: Level, lv: Level, wk: Level, kc: bool, kl: bool, kw: bool)
    requires CheckReadSite(Some(co), Some(lv), Some(wk)) && !(kc && co == FunctionReturnStatement)
    ensures CheckReadSite(Seen(kc, co), Seen(kl, lv), Seen(kw, wk))
  {
    if kc && co == ConstantElaboration {
      ElaborationRead(Some(lv), Some(wk));
      ElaborationRead(Seen(kl, lv), Seen(kw, wk));
    } else {
      PlainRead(Seen(kc, co), Seen(kl, lv), Seen(kw, wk));
    }
  }

  lemma {:induction false} ElaborationRead(lv: Option<Level>, wk: Option<Level>)
    ensures CheckReadSite(Some(ConstantElaboration), lv, wk) <==> !Real(lv) && !Real(wk)
  {
    assert !Is(Some(ConstantElaboration), EventExpression) && !Is(Some(ConstantElaboration), FunctionReturnStatement);
  }

  lemma {:induction false} PlainRead(co: Option<Level>, lv: Option<Level>, wk: Option<Level>)
    requires !Is(co, FunctionReturnStatement) && !Is(co, ConstantElaboration)
    ensures CheckReadSite(co, lv, wk)
  {
  }

  lemma {:induction false} ReturnRead(lv: Option<Level>, wk: Option<Level>)
    ensures CheckReadSite(Some(FunctionReturnStatement), lv, wk) <==> Real(wk) || Unstructured(lv)
  {
    assert !Is(Some(FunctionReturnStatement), EventExpression) && !Is(Some(FunctionReturnStatement), ConstantElaboration);
  }

  lemma {:induction false} ReturnReadSeen(lv: Level, wk: Level, kl: bool, kw: bool)
    requires CheckReadSite(Some(FunctionReturnStatement), Some(lv), Some(wk))
    ensures CheckReadSite(Some(FunctionReturnStatement), Seen(kl, lv), Seen(kw, wk)) <==> (kl && !kw ==> Simple(lv))
  {
    ReturnRead(Some(lv), Some(wk));
    ReturnRead(Seen(kl, lv), Seen(kw, wk));
  }

  lemma {:induction false} DeclarationTargetSeen(co: Level, lv: Level, wk: Level, kc: bool, kl: bool, kw: bool)
    requires CheckDeclarationTarget(Some(co), Some(lv), Some(wk))
    ensures CheckDeclarationTarget(Seen(kc, co), Seen(kl, lv), Seen(kw, wk))
            <==> (kc && kl && !kw && co == DeclarationInitializer ==> Simple(lv))
  {
  }

  lemma {:induction false} ReturnSlotSeen(co: Level, lv: Level, wk: Level, sl: Level, kc: bool, kl: bool, kw: bool, ks: bool)
    requires CheckReturnSlot(Some(co), Some(lv), Some(wk), Some(sl))
    ensures CheckReturnSlot(Seen(kc, co), Seen(kl, lv), Seen(kw, wk), Seen(ks, sl))
            <==> (kc && kl && !kw && ks && co == FunctionReturnStatement && lv == WholeObject ==> sl == ReturnSlot)
  {
  }

  lemma {:induction false} DeclarationStorageSeen(
      co: Level, lv: Level, wk: Level, kind: Level, sl: Level, kc: bool, kl: bool, kw: bool, ki: bool, ks: bool)
    requires CheckDeclarationStorage(Some(co), Some(lv), Some(wk), Some(kind), Some(sl))
    ensures CheckDeclarationStorage(Seen(kc, co), Seen(kl, lv), Seen(kw, wk), Seen(ki, kind), Seen(ks, sl))
            <==> (kc && kl && !kw && ki && ks && co == DeclarationInitializer && lv == WholeObject ==> StorageFits(kind, sl))
  {
  }

  /** A blocking write behind a return statement, outside any process. */
  predicate Unscheduled(r: Row) { r.co == FunctionReturnStatement && r.wk == ProceduralBlocking && r.pc == Nothing }

  lemma {:induction false} ProceduralProcessSeen(r: Row, known: set<Axis>)
    requires Permits(ProceduralProcess, Whole(r))
    ensures Permits(ProceduralProcess, Glimpse(r, known))
            <==> (CO in known && WK in known && PC in known && Unscheduled(r) ==> SL in known && HC in known)
  {
    if CO in known && WK in known && PC in known {
      WriteSeen(r, SL in known, HC in known, Seen(CP in known, r.cp), Seen(IN in known, r.kind));
    }
  }

  lemma {:induction false} WriteSeen(r: Row, ks: bool, kh: bool, cp: Option<Level>, kind: Option<Level>)
    requires CheckProceduralProcess(Some(r.co), Some(r.wk), Some(r.pc), Some(r.cp), Some(r.sl), Some(r.hc), Some(r.kind))
    requires Kept(cp, Some(r.cp)) && Kept(kind, Some(r.kind))
    ensures CheckProceduralProcess(Some(r.co), Some(r.wk), Some(r.pc), cp, Seen(ks, r.sl), Seen(kh, r.hc), kind)
            <==> (Unscheduled(r) ==> ks && kh)
  {
  }

  predicate Uses(r: Row) { r.co == FunctionReturnStatement || r.co == DeclarationInitializer }

  /** While the write kind is unset, a return statement and an initializer must not have a target that
      only a write explains. */
  predicate Aimed(r: Row, storage: bool, kind: bool)
  {
    && (Uses(r) ==> Simple(r.lv))
    && (r.lv == WholeObject && storage && r.co == FunctionReturnStatement ==> r.sl == ReturnSlot)
    && (r.lv == WholeObject && storage && kind && r.co == DeclarationInitializer ==> StorageFits(r.kind, r.sl))
  }

  predicate Calm(r: Row, known: set<Axis>)
  {
    && (CO in known && LV in known && WK !in known ==> Aimed(r, SL in known, IN in known))
    && (CO in known && WK in known && PC in known && Unscheduled(r) ==> SL in known && HC in known)
  }

  lemma {:induction false} FiveRules(s: Sight)
    ensures HastyPermit(s)
            <==> && CheckReadSite(s.co, s.lv, s.wk) && CheckDeclarationTarget(s.co, s.lv, s.wk)
                 && CheckReturnSlot(s.co, s.lv, s.wk, s.sl)
                 && CheckDeclarationStorage(s.co, s.lv, s.wk, s.kind, s.sl)
                 && Permits(ProceduralProcess, s)
  {
    assert Permits(ReadSite, s) == CheckReadSite(s.co, s.lv, s.wk);
    assert Permits(DeclarationTarget, s) == CheckDeclarationTarget(s.co, s.lv, s.wk);
    assert Permits(ReturnSlotRule, s) == CheckReturnSlot(s.co, s.lv, s.wk, s.sl);
    assert Permits(DeclarationStorage, s) == CheckDeclarationStorage(s.co, s.lv, s.wk, s.kind, s.sl);
  }

  /** On a part of a row that satisfies them, the hasty rules hold exactly when it is calm. */
  lemma {:induction false} CalmExactly(r: Row, known: set<Axis>)
    requires HastyPermit(Whole(r))
    ensures HastyPermit(Glimpse(r, known)) <==> Calm(r, known)
  {
    var c, l, w, s, i := CO in known, LV in known, WK in known, SL in known, IN in known;
    FiveRules(Whole(r));
    FiveRules(Glimpse(r, known));
    ReadSiteSeen(r.co, r.lv, r.wk, c, l, w);
    DeclarationTargetSeen(r.co, r.lv, r.wk, c, l, w);
    ReturnSlotSeen(r.co, r.lv, r.wk, r.sl, c, l, w, s);
    DeclarationStorageSeen(r.co, r.lv, r.wk, r.kind, r.sl, c, l, w, i, s);
    ProceduralProcessSeen(r, known);
  }

  // ----------------------------------------------------- along the search

  function Place(k: Axis): (n: nat)
    ensures n < |SEARCH_ORDER| && SEARCH_ORDER[n] == k
  {
    match k
    case CO => 0 case IN => 1 case HC => 2 case WK => 3 case PC => 4 case LV => 5 case SL => 6 case FM => 7
    case CT => 8 case CP => 9 case TY => 10 case OP => 11 case HR => 12
  }

  function Known(fixed: set<Axis>, i: nat): (s: set<Axis>)
    requires i <= |SEARCH_ORDER|
  {
    fixed + Axes(SEARCH_ORDER, 0, i)
  }

  lemma {:induction false} OnePlace(n: nat)
    requires n < |SEARCH_ORDER|
    ensures Place(SEARCH_ORDER[n]) == n
  {
  }

  lemma {:induction false} KnownExactly(fixed: set<Axis>, i: nat, k: Axis)
    requires i <= |SEARCH_ORDER|
    ensures k in Known(fixed, i) <==> k in fixed || Place(k) < i
  {
    if k in Axes(SEARCH_ORDER, 0, i) {
      var j :| 0 <= j < i && SEARCH_ORDER[j] == k;
      OnePlace(j);
    }
  }

  lemma {:induction false} KnownEach(fixed: set<Axis>, i: nat)
    requires i <= |SEARCH_ORDER|
    ensures var s := Known(fixed, i);
            && (CO in s <==> CO in fixed || 0 < i) && (IN in s <==> IN in fixed || 1 < i)
            && (HC in s <==> HC in fixed || 2 < i) && (WK in s <==> WK in fixed || 3 < i)
            && (PC in s <==> PC in fixed || 4 < i) && (LV in s <==> LV in fixed || 5 < i)
            && (SL in s <==> SL in fixed || 6 < i)
  {
    KnownExactly(fixed, i, CO);
    KnownExactly(fixed, i, IN);
    KnownExactly(fixed, i, HC);
    KnownExactly(fixed, i, WK);
    KnownExactly(fixed, i, PC);
    KnownExactly(fixed, i, LV);
    KnownExactly(fixed, i, SL);
  }

  /** What the hasty rules cost a row of which some axes are fixed: without a fixed write kind, a fixed
      target must make sense without a write; and an unscheduled return needs its storage fixed, and
      its scope too if write kind and process are. */
  predicate Accepted(fixed: set<Axis>, r: Row)
  {
    && (LV in fixed && WK !in fixed ==> Aimed(r, SL in fixed, true))
    && (Unscheduled(r) ==> SL in fixed && (HC in fixed || WK !in fixed || PC !in fixed))
  }

  lemma {:induction false} CalmAllTheWay(fixed: set<Axis>, r: Row)
    ensures (forall i :: 0 <= i <= |SEARCH_ORDER| ==> Calm(r, Known(fixed, i))) <==> Accepted(fixed, r)
  {
    if Accepted(fixed, r) {
      forall i | 0 <= i <= |SEARCH_ORDER|
        ensures Calm(r, Known(fixed, i))
      {
        KnownEach(fixed, i);
      }
    } else {
      KnownEach(fixed, 1);
      KnownEach(fixed, 3);
      KnownEach(fixed, 5);
      assert !Calm(r, Known(fixed, 1)) || !Calm(r, Known(fixed, 3)) || !Calm(r, Known(fixed, 5));
    }
  }

  lemma {:induction false} CompleteIsFull(core: bool, fixed: Levels, v: Levels)
    requires Completes(Grid(core), fixed, 0, v)
    ensures Full(v)
  {
    forall k: Axis
      ensures k in v
    {
      AxisIsSearched(k);
    }
  }

  lemma {:induction false} StepIsCalm(core: bool, fixed: Levels, r: Row, i: nat)
    requires HastyPermit(Whole(r)) && i <= |SEARCH_ORDER|
    ensures Holds(RulesOf(HASTY), StepOf(Grid(core), fixed, 0, VectorOf(r), i)) <==> Calm(r, Known(fixed.Keys, i))
  {
    HoldsNamed(StepOf(Grid(core), fixed, 0, VectorOf(r), i));
    SightOfPart(r, Known(fixed.Keys, i));
    CalmExactly(r, Known(fixed.Keys, i));
  }

  function CalmSteps(fixed: set<Axis>, r: Row): (calm: int -> bool)
  {
    i => 0 <= i <= |SEARCH_ORDER| && Calm(r, Known(fixed, i))
  }

  lemma {:induction false} AllStepsCalm(fixed: set<Axis>, r: Row, calm: int -> bool)
    requires calm == CalmSteps(fixed, r)
    ensures (forall i :: 0 <= i <= |SEARCH_ORDER| ==> calm(i)) <==> Accepted(fixed, r)
  {
    CalmAllTheWay(fixed, r);
    if forall i :: 0 <= i <= |SEARCH_ORDER| ==> calm(i) {
      forall i | 0 <= i <= |SEARCH_ORDER|
        ensures Calm(r, Known(fixed, i))
      {
        assert calm(i);
      }
    }
  }

  lemma {:induction false} StepsAreCalm(
      p: Problem<Axis, Level>, rules: seq<Rule<Axis, Level>>, fixed: Levels, r: Row, core: bool, calm: int -> bool)
    requires HastyPermit(Whole(r)) && p == Grid(core) && rules == RulesOf(HASTY) && calm == CalmSteps(fixed.Keys, r)
    ensures forall i :: 0 <= i <= |p.order| ==> (Holds(rules, StepOf(p, fixed, 0, VectorOf(r), i)) <==> calm(i))
  {
    forall i | 0 <= i <= |p.order|
      ensures Holds(rules, StepOf(p, fixed, 0, VectorOf(r), i)) <==> calm(i)
    {
      StepIsCalm(core, fixed, r, i);
    }
  }

  lemma {:induction false} HastyOnTheWay(
      p: Problem<Axis, Level>, rules: seq<Rule<Axis, Level>>, fixed: Levels, r: Row, core: bool)
    requires p == Grid(core) && rules == RulesOf(HASTY) && Extends(VectorOf(r), fixed) && HastyPermit(Whole(r))
    ensures Holds(rules, fixed) && Trail(p, rules, fixed, 0, VectorOf(r)) <==> Accepted(fixed.Keys, r)
  {
    var calm := CalmSteps(fixed.Keys, r);
    StepsAreCalm(p, rules, fixed, r, core, calm);
    TrailIs(p, rules, fixed, VectorOf(r), calm);
    AllStepsCalm(fixed.Keys, r, calm);
  }

  /** What a support is for the rules of the script, without the search: a complete vector of the
      profile that satisfies all rules and that the hasty ones do not refuse on the way. */
  lemma {:induction false} SupportsExactly(core: bool, fixed: Levels, v: Levels)
    ensures Supports(Grid(core), RulesOf(RULES), fixed, v)
            <==> && Clean(Grid(core), fixed) && Completes(Grid(core), fixed, 0, v)
                 && AllHold(v) && Full(v) && Accepted(fixed.Keys, RowOf(v))
  {
    ScriptSupport(core, fixed, v);
    if Completes(Grid(core), fixed, 0, v) && AllHold(v) {
      CompleteIsFull(core, fixed, v);
      RowOfVector(v);
      SightOfRow(RowOf(v));
      AllAreEither(SightOf(v));
      HastyOnTheWay(Grid(core), RulesOf(HASTY), fixed, RowOf(v), core);
    }
  }

  ghost predicate Found(core: bool, fixed: Levels) { FindSupport(Grid(core), RulesOf(RULES), fixed).Some? }

  /** Some complete vector of the profile contains the levels and satisfies every rule. */
  ghost predicate Satisfiable(core: bool, fixed: Levels)
  {
    exists v :: Completes(Grid(core), fixed, 0, v) && AllHold(v)
  }

  /** Which axes must be fixed, and which not, for the hasty rules to refuse nothing on the way. */
  predicate Pinned(fixed: Levels)
  {
    && SL in fixed && (LV in fixed ==> WK in fixed)
    && (WK in fixed && PC in fixed ==> HC in fixed)
  }

  /** For levels fixed like that, "no support" means that no complete vector of the profile satisfies
      the rules. */
  lemma {:induction false} NoSupportWhenPinned(core: bool, fixed: Levels)
    requires Pinned(fixed) && Clean(Grid(core), fixed)
    ensures Found(core, fixed) <==> Satisfiable(core, fixed)
  {
    SupportedIsFound(Grid(core), RulesOf(RULES), fixed);
    forall v
      ensures Supports(Grid(core), RulesOf(RULES), fixed, v) <==> Completes(Grid(core), fixed, 0, v) && AllHold(v)
    {
      SupportsExactly(core, fixed, v);
      if Completes(Grid(core), fixed, 0, v) {
        CompleteIsFull(core, fixed, v);
      }
    }
  }

  lemma {:induction false} FullVectorIsSupported(core: bool, v: Levels)
    requires AllHold(v) && forall k: Axis :: k in v && v[k] in LevelsOf(k) && !OutsideCore(core)(k, v[k])
    ensures Found(core, v)
  {
    FullVectorCompletes(core, v, v);
    NoSupportWhenPinned(core, v);
  }
}
