/**
 The fifteen time budgets of one exchange, scaled together by a whole percentage, and the
 inequalities that keep the plugin's stages inside the server's phases. Durations are whole
 milliseconds.
 */
module Budget {
  import opened MachineIntegers
  import opened Wrappers

  const U64_MAX: nat := U64_LIMIT - 1

  datatype Budgets = Budgets(
    serverResolve: nat,
    serverReadRequest: nat,
    serverEditRequest: nat,
    serverBatchRequest: nat,
    serverRenderRequest: nat,
    serverArtifactIngest: nat,
    serverConnectWaitCap: nat,
    pluginHandshake: nat,
    pluginRead: nat,
    pluginEdit: nat,
    pluginBatch: nat,
    pluginRenderWait: nat,
    pluginRenderArtifact: nat,
    pluginWrite: nat,
    transportHeadroom: nat
  )

  datatype ScaledBudgets = ScaledBudgets(percent: nat, budgets: Budgets)

  const SHIPPED := Budgets(5000, 5000, 10000, 20000, 30000, 4000, 1000,
                           2000, 3000, 8000, 18000, 18000, 5000, 1000, 1000)

  datatype BudgetInequality =
    | ReadRequest | EditRequest | BatchRequest | RenderRequest | Resolve | WriteAfterRead | WriteAfterEdit

  const ALL: seq<BudgetInequality> :=
    [ReadRequest, EditRequest, BatchRequest, RenderRequest, Resolve, WriteAfterRead, WriteAfterEdit]

  /** A saturating multiplication, then a truncating division. */
  function Scale(base: nat, percent: nat): nat {
    var product := base * percent;
    (if product > U64_MAX then U64_MAX else product) / 100
  }

  function SaturatingSub(a: nat, b: nat): nat {
    if a < b then 0 else a - b
  }

  function Build(base: Budgets, percent: nat): ScaledBudgets {
    ScaledBudgets(percent, Budgets(
      Scale(base.serverResolve, percent),
      Scale(base.serverReadRequest, percent),
      Scale(base.serverEditRequest, percent),
      Scale(base.serverBatchRequest, percent),
      Scale(base.serverRenderRequest, percent),
      Scale(base.serverArtifactIngest, percent),
      Scale(base.serverConnectWaitCap, percent),
      Scale(base.pluginHandshake, percent),
      Scale(base.pluginRead, percent),
      Scale(base.pluginEdit, percent),
      Scale(base.pluginBatch, percent),
      Scale(base.pluginRenderWait, percent),
      Scale(base.pluginRenderArtifact, percent),
      Scale(base.pluginWrite, percent),
      Scale(base.transportHeadroom, percent)))
  }

  predicate Holds(b: Budgets, inequality: BudgetInequality) {
    match inequality
    case ReadRequest => b.pluginRead + b.pluginWrite + b.transportHeadroom <= b.serverReadRequest
    case EditRequest => b.pluginEdit + b.pluginWrite + b.transportHeadroom <= b.serverEditRequest
    case BatchRequest => b.pluginBatch + b.pluginWrite + b.transportHeadroom <= b.serverBatchRequest
    case RenderRequest =>
      b.pluginRenderWait + b.pluginRenderArtifact + b.pluginWrite + b.serverArtifactIngest + b.transportHeadroom
      <= b.serverRenderRequest
    case Resolve =>
      b.serverConnectWaitCap + b.pluginHandshake + b.pluginWrite + b.transportHeadroom <= b.serverResolve
    case WriteAfterRead => b.pluginWrite < SaturatingSub(b.serverReadRequest, b.pluginRead)
    case WriteAfterEdit => b.pluginWrite < SaturatingSub(b.serverEditRequest, b.pluginEdit)
  }

  function FirstViolationOf(b: Budgets, inequalities: seq<BudgetInequality>): Option<BudgetInequality> {
    if inequalities == [] then None
    else if !Holds(b, inequalities[0]) then Some(inequalities[0])
    else FirstViolationOf(b, inequalities[1..])
  }

  function Checked(base: Budgets, percent: nat): Result<ScaledBudgets, BudgetInequality> {
    var scaled := Build(base, percent);
    match FirstViolationOf(scaled.budgets, ALL)
    case Some(inequality) => Err(inequality)
    case None => Ok(scaled)
  }

  // ----- What scaling makes of a budget -----

  /** Where the product fits, the scaled budget is the percentage of it, cut to a whole millisecond. */
  lemma ScaleMeaning(base: nat, percent: nat)
    requires base * percent <= U64_MAX
    ensures 100 * Scale(base, percent) <= base * percent < 100 * (Scale(base, percent) + 1)
  {
  }

  lemma HundredPercent(base: nat)
    requires base * 100 <= U64_MAX
    ensures Scale(base, 100) == base
  {
  }

  predicate AllWithin(b: Budgets, limit: nat) {
    && b.serverResolve <= limit && b.serverReadRequest <= limit && b.serverEditRequest <= limit
    && b.serverBatchRequest <= limit && b.serverRenderRequest <= limit && b.serverArtifactIngest <= limit
    && b.serverConnectWaitCap <= limit && b.pluginHandshake <= limit && b.pluginRead <= limit
    && b.pluginEdit <= limit && b.pluginBatch <= limit && b.pluginRenderWait <= limit
    && b.pluginRenderArtifact <= limit && b.pluginWrite <= limit && b.transportHeadroom <= limit
  }

  /** At a hundred percent every budget is its own. */
  lemma UnscaledIsBase(base: Budgets)
    requires AllWithin(base, U64_MAX / 100)
    ensures Build(base, 100) == ScaledBudgets(100, base)
  {
    hide Scale;
    forall b: nat | b <= U64_MAX / 100 ensures Scale(b, 100) == b {
      HundredPercent(b);
    }
  }

  /** The shipped budgets are whole tenths of a second, so no percentage of them is ever cut. */
  lemma ShippedScales(percent: nat)
    requires percent < U32_LIMIT
    ensures Build(SHIPPED, percent).budgets == Budgets(
      50 * percent, 50 * percent, 100 * percent, 200 * percent, 300 * percent, 40 * percent, 10 * percent,
      20 * percent, 30 * percent, 80 * percent, 180 * percent, 180 * percent, 50 * percent, 10 * percent, 10 * percent)
  {
    hide SHIPPED;
    forall k: nat | k <= 300 ensures Scale(100 * k, percent) == k * percent {
      Hundredth(k, percent);
    }
    ShippedTable();
    hide Scale;
  }

  lemma ShippedTable()
    ensures SHIPPED == Budgets(
      100 * 50, 100 * 50, 100 * 100, 100 * 200, 100 * 300, 100 * 40, 100 * 10,
      100 * 20, 100 * 30, 100 * 80, 100 * 180, 100 * 180, 100 * 50, 100 * 10, 100 * 10)
  {
  }

  lemma Hundredth(k: nat, percent: nat)
    requires k <= 300 && percent < U32_LIMIT
    ensures Scale(100 * k, percent) == k * percent
  {
    ScaleMonotone(k, 300, percent);
    assert 100 * k * percent == 100 * (k * percent);
  }

  // ----- Truncation keeps the sums -----

  /** Truncating parts of a sum loses at least what truncating the sum loses. */
  lemma FloorSum(x: nat, y: nat)
    ensures x / 100 + y / 100 <= (x + y) / 100
  {
  }

  lemma ScaleMonotone(x: nat, y: nat, percent: nat)
    requires x <= y
    ensures x * percent <= y * percent
  {
  }

  /** The scaled limit is what an unbounded multiplication would give. */
  predicate LimitFits(limit: nat, percent: nat) {
    limit * percent / 100 <= U64_MAX / 100
  }

  /** Scaling a sum of up to five parts that stays under a limit leaves the scaled parts under the scaled limit. */
  lemma ScaledPartsFit(a: nat, b: nat, c: nat, d: nat, e: nat, limit: nat, percent: nat)
    requires a + b + c + d + e <= limit && LimitFits(limit, percent)
    ensures Scale(a, percent) + Scale(b, percent) + Scale(c, percent) + Scale(d, percent) + Scale(e, percent)
         <= Scale(limit, percent)
  {
    var pa, pb, pc, pd, pe := a * percent, b * percent, c * percent, d * percent, e * percent;
    ScaleMonotone(a + b + c + d + e, limit, percent);
    assert (a + b + c + d + e) * percent == pa + pb + pc + pd + pe;
    FloorSum(pa, pb);
    FloorSum(pa + pb, pc);
    FloorSum(pa + pb + pc, pd);
    FloorSum(pa + pb + pc + pd, pe);
  }

  /** The phase limit an inequality compares with. */
  function Limit(b: Budgets, inequality: BudgetInequality): nat {
    match inequality
    case ReadRequest | WriteAfterRead => b.serverReadRequest
    case EditRequest | WriteAfterEdit => b.serverEditRequest
    case BatchRequest => b.serverBatchRequest
    case RenderRequest => b.serverRenderRequest
    case Resolve => b.serverResolve
  }

  /**
   Whatever the base table and the percentage, an inequality between sums survives scaling despite
   every term being truncated on its own, as long as the scaled limit fits.
   */
  lemma ScalingKeepsSums(base: Budgets, percent: nat, inequality: BudgetInequality)
    requires inequality !in {WriteAfterRead, WriteAfterEdit}
    requires Holds(base, inequality) && LimitFits(Limit(base, inequality), percent)
    ensures Holds(Build(base, percent).budgets, inequality)
  {
    hide Scale, LimitFits;
    assert Scale(0, percent) == 0 by { ScaleOfZero(percent); }
    var b := base;
    match inequality {
      case ReadRequest =>
        ScaledPartsFit(b.pluginRead, b.pluginWrite, b.transportHeadroom, 0, 0, b.serverReadRequest, percent);
      case EditRequest =>
        ScaledPartsFit(b.pluginEdit, b.pluginWrite, b.transportHeadroom, 0, 0, b.serverEditRequest, percent);
      case BatchRequest =>
        ScaledPartsFit(b.pluginBatch, b.pluginWrite, b.transportHeadroom, 0, 0, b.serverBatchRequest, percent);
      case RenderRequest =>
        ScaledPartsFit(b.pluginRenderWait, b.pluginRenderArtifact, b.pluginWrite, b.serverArtifactIngest,
                       b.transportHeadroom, b.serverRenderRequest, percent);
      case Resolve =>
        ScaledPartsFit(b.serverConnectWaitCap, b.pluginHandshake, b.pluginWrite, b.transportHeadroom, 0,
                       b.serverResolve, percent);
    }
  }

  lemma ScaleOfZero(percent: nat)
    ensures Scale(0, percent) == 0
  {
  }

  const ZERO := Budgets(0, 0, 0, 0, 0, 0, 0, 0, 0, 0, 0, 0, 0, 0, 0)

  /** Once the headroom is positive, the strict inequalities follow from the sums. */
  lemma HeadroomGivesStrict(b: Budgets)
    requires b.transportHeadroom > 0
    ensures Holds(b, ReadRequest) ==> Holds(b, WriteAfterRead)
    ensures Holds(b, EditRequest) ==> Holds(b, WriteAfterEdit)
  {
  }

  /** Two parts that make up a limit too large to scale: each is scaled exactly, or saturates as the limit does. */
  lemma PartsOvertake(limit: nat, percent: nat)
    requires percent < U32_LIMIT && !LimitFits(limit, percent)
    ensures limit >= 100 && Scale(100, percent) + Scale(limit - 100, percent) > Scale(limit, percent)
  {
    if limit < 100 {
      ScaleMonotone(limit, 99, percent);
    } else {
      assert (limit - 100) * percent == limit * percent - 100 * percent;
    }
  }

  /** The table whose only budgets are the limit of an inequality and two parts that fill it. */
  function Filled(inequality: BudgetInequality, limit: nat): Budgets
    requires limit >= 100
  {
    var base := ZERO.(pluginWrite := 100);
    match inequality
    case ReadRequest | WriteAfterRead => base.(pluginRead := limit - 100, serverReadRequest := limit)
    case EditRequest | WriteAfterEdit => base.(pluginEdit := limit - 100, serverEditRequest := limit)
    case BatchRequest => base.(pluginBatch := limit - 100, serverBatchRequest := limit)
    case RenderRequest => base.(pluginRenderWait := limit - 100, serverRenderRequest := limit)
    case Resolve => base.(serverConnectWaitCap := limit - 100, serverResolve := limit)
  }

  /**
   Which limits can be scaled by a percentage: exactly those whose exact value fits. Above it some
   table satisfies the inequality and breaks it when scaled, the limit saturating before its parts do.
   */
  lemma SumsSurviveExactly(percent: nat, limit: nat, inequality: BudgetInequality)
    requires percent < U32_LIMIT && inequality !in {WriteAfterRead, WriteAfterEdit}
    ensures LimitFits(limit, percent) <==>
      forall base :: Limit(base, inequality) == limit && Holds(base, inequality) ==>
        Holds(Build(base, percent).budgets, inequality)
  {
    hide Scale, LimitFits;
    if LimitFits(limit, percent) {
      forall base | Limit(base, inequality) == limit && Holds(base, inequality)
        ensures Holds(Build(base, percent).budgets, inequality)
      {
        ScalingKeepsSums(base, percent, inequality);
      }
    } else {
      PartsOvertake(limit, percent);
      var base := Filled(inequality, limit);
      assert Limit(base, inequality) == limit && Holds(base, inequality);
      assert Scale(0, percent) == 0 by { ScaleOfZero(percent); }
      assert !Holds(Build(base, percent).budgets, inequality);
    }
  }

  /** What a limit has to spare when its stages and the headroom are taken from it; for the strict two, no headroom. */
  function Spare(b: Budgets, inequality: BudgetInequality): int {
    match inequality
    case ReadRequest => b.serverReadRequest - b.transportHeadroom - b.pluginWrite - b.pluginRead
    case EditRequest => b.serverEditRequest - b.transportHeadroom - b.pluginWrite - b.pluginEdit
    case BatchRequest => b.serverBatchRequest - b.transportHeadroom - b.pluginWrite - b.pluginBatch
    case RenderRequest =>
      b.serverRenderRequest - b.transportHeadroom - b.serverArtifactIngest - b.pluginWrite - b.pluginRenderArtifact
      - b.pluginRenderWait
    case Resolve => b.serverResolve - b.transportHeadroom - b.pluginWrite - b.pluginHandshake - b.serverConnectWaitCap
    case WriteAfterRead => b.serverReadRequest - b.pluginRead - b.pluginWrite
    case WriteAfterEdit => b.serverEditRequest - b.pluginEdit - b.pluginWrite
  }

  lemma SpareMeaning(b: Budgets, inequality: BudgetInequality)
    ensures Holds(b, inequality) <==>
      if inequality in {WriteAfterRead, WriteAfterEdit} then Spare(b, inequality) > 0 else Spare(b, inequality) >= 0
  {
  }

  /** The inequality reported is the first, in the order of the list, that does not hold. */
  lemma {:induction false} FirstViolationIs(b: Budgets, inequalities: seq<BudgetInequality>, k: nat)
    requires k < |inequalities| && !Holds(b, inequalities[k])
    requires forall j :: 0 <= j < k ==> Holds(b, inequalities[j])
    ensures FirstViolationOf(b, inequalities) == Some(inequalities[k])
  {
    hide Holds;
    if k > 0 {
      FirstViolationIs(b, inequalities[1..], k - 1);
    }
  }

  lemma FirstViolationMeaning(b: Budgets)
    ensures FirstViolationOf(b, ALL).None? <==> forall inequality :: Holds(b, inequality)
  {
    hide Holds;
    forall inequality: BudgetInequality ensures inequality in ALL {
      match inequality {
        case ReadRequest => assert ALL[0] == inequality;
        case EditRequest => assert ALL[1] == inequality;
        case BatchRequest => assert ALL[2] == inequality;
        case RenderRequest => assert ALL[3] == inequality;
        case Resolve => assert ALL[4] == inequality;
        case WriteAfterRead => assert ALL[5] == inequality;
        case WriteAfterEdit => assert ALL[6] == inequality;
      }
    }
    NoViolation(b, ALL);
  }

  lemma {:induction false} NoViolation(b: Budgets, inequalities: seq<BudgetInequality>)
    ensures FirstViolationOf(b, inequalities).None? <==>
      forall inequality :: inequality in inequalities ==> Holds(b, inequality)
  {
    hide Holds;
    if inequalities != [] {
      NoViolation(b, inequalities[1..]);
      assert inequalities == [inequalities[0]] + inequalities[1..];
    }
  }

  /** The shipped table is accepted at every percentage but zero, where nothing is left to write with. */
  lemma ShippedIsAccepted(percent: nat)
    requires percent < U32_LIMIT
    ensures Checked(SHIPPED, percent) == if percent >= 1 then Ok(Build(SHIPPED, percent)) else Err(WriteAfterRead)
  {
    var scaled := Build(SHIPPED, percent).budgets;
    if percent >= 1 {
      forall inequality ensures Holds(scaled, inequality) {
        if inequality !in {WriteAfterRead, WriteAfterEdit} {
          ScalingKeepsSums(SHIPPED, percent, inequality);
        } else {
          ScalingKeepsSums(SHIPPED, percent, ReadRequest);
          ScalingKeepsSums(SHIPPED, percent, EditRequest);
          HeadroomGivesStrict(scaled);
        }
      }
      FirstViolationMeaning(scaled);
    } else {
      assert scaled == ZERO;
      NoneBefore(scaled);
    }
  }

  /** With nothing to share out, the first inequality to fail is the first strict one. */
  lemma NoneBefore(b: Budgets)
    requires b == ZERO
    ensures FirstViolationOf(b, ALL) == Some(WriteAfterRead)
  {
    assert FirstViolationOf(b, ALL) == FirstViolationOf(b, ALL[2..]);
    assert FirstViolationOf(b, ALL[2..]) == FirstViolationOf(b, ALL[4..]);
  }
}
