/**
 * The budget of a bound harness task: tool calls counted against a spend cap and a step cap, and the one
 * audit record a refusal deserves. Money is exact; a cap of zero is no cap.
 */
module HarnessBudget {
  import opened Wrappers

  /** One row of the bindings table. */
  datatype Binding = Binding(
    calls: nat,
    price: real,
    spendCap: real,
    maxSteps: int,
    denied: bool,
    auditReserved: bool)

  datatype Cap = SpendCap | MaxSteps

  function Spend(calls: nat, price: real): real {
    calls as real * price
  }

  /** Which budget refuses the binding's calls. */
  function CapReason(b: Binding): Option<Cap> {
    if b.spendCap > 0.0 && Spend(b.calls, b.price) >= b.spendCap then Some(SpendCap)
    else if b.maxSteps > 0 && b.calls >= b.maxSteps then Some(MaxSteps)
    else None
  }

  /** The number of calls the meter shows as the limit; none when neither budget can run out. */
  function CallsCap(b: Binding): Option<int> {
    var money := if b.spendCap > 0.0 && b.price > 0.0 then Some((b.spendCap / b.price).Floor) else None;
    var steps := if b.maxSteps > 0 then Some(b.maxSteps) else None;
    if money.None? then steps
    else if steps.None? || money.value <= steps.value then money
    else steps
  }

  datatype Attempt = Attempt(denied: bool, emitAudit: bool, estimate: real, counted: bool)

  /** The row and the in-process claim on its denial audit. */
  datatype State = State(binding: Binding, inFlight: bool)

  function NewState(price: real, spendCap: real, maxSteps: int): State {
    State(Binding(0, price, spendCap, maxSteps, false, false), false)
  }

  function Observed(s: State): (State, Attempt) {
    var b := s.binding;
    if b.denied then
      var emit := !b.auditReserved && !s.inFlight;
      (s.(inFlight := s.inFlight || emit), Attempt(true, emit, Spend(b.calls, b.price), false))
    else
      var counted := b.(calls := b.calls + 1);
      var denied := CapReason(counted).Some?;
      (State(counted.(denied := denied, auditReserved := false), s.inFlight || denied),
       Attempt(denied, denied, Spend(counted.calls, b.price), true))
  }

  /** The audit append of one refusal ended. */
  function Finished(s: State, appended: bool): State {
    State(if appended && s.binding.denied then s.binding.(auditReserved := true) else s.binding, false)
  }

  function Repriced(s: State): State {
    s.(binding := s.binding.(denied := CapReason(s.binding).Some?, auditReserved := false))
  }

  function SpendCapSet(s: State, usd: real): State {
    Repriced(s.(binding := s.binding.(spendCap := usd)))
  }

  function MaxStepsSet(s: State, steps: int): State {
    Repriced(s.(binding := s.binding.(maxSteps := steps)))
  }

  // ---------- the store's methods ----------

  class Store {
    var binding: Binding
    var inFlight: bool

    function View(): State
      reads this
    {
      State(binding, inFlight)
    }

    constructor (price: real, spendCap: real, maxSteps: int)
      ensures View() == NewState(price, spendCap, maxSteps)
    {
      binding, inFlight := Binding(0, price, spendCap, maxSteps, false, false), false;
    }

    method ObserveHarnessToolCall() returns (attempt: Attempt)
      modifies this
      ensures (View(), attempt) == Observed(old(View()))
    {
      var current := binding;
      if current.denied {
        var emit := !current.auditReserved && !inFlight;
        if emit {
          inFlight := true;
        }
        return Attempt(true, emit, Spend(current.calls, current.price), false);
      }
      var calls := current.calls + 1;
      var estimate := Spend(calls, current.price);
      var denied := CapReason(current.(calls := calls)).Some?;
      binding := current.(calls := calls, denied := denied, auditReserved := false);
      if denied {
        inFlight := true;
      }
      return Attempt(denied, denied, estimate, true);
    }

    method FinishHarnessDenialAudit(appended: bool)
      modifies this
      ensures View() == Finished(old(View()), appended)
    {
      if appended && binding.denied {
        binding := binding.(auditReserved := true);
      }
      inFlight := false;
    }

    method RepriceHarnessBinding()
      modifies this
      ensures View() == Repriced(old(View()))
    {
      binding := binding.(denied := CapReason(binding).Some?, auditReserved := false);
    }

    method SetTaskSpendCap(usd: real)
      modifies this
      ensures View() == SpendCapSet(old(View()), usd)
    {
      binding := binding.(spendCap := usd);
      RepriceHarnessBinding();
    }

    method SetTaskMaxSteps(steps: int)
      modifies this
      ensures View() == MaxStepsSet(old(View()), steps)
    {
      binding := binding.(maxSteps := steps);
      RepriceHarnessBinding();
    }
  }

  // ---------- runs ----------

  datatype Event =
    | Observe
    | EndUsage(appended: bool, stale: bool)
    | Finish(appended: bool, stale: bool)
    | SetSpendCap(usd: real)
    | SetMaxSteps(steps: int)

  /**
   * Denial audits of one budget on their way: `waiting` for the usage event of the call that was refused first,
   * which is appended before, and being appended themselves.
   */
  datatype Audits = Audits(waiting: nat, flying: nat)

  const NO_AUDITS := Audits(0, 0)

  function Together(a: Audits, b: Audits): Audits {
    Audits(a.waiting + b.waiting, a.flying + b.flying)
  }

  /**
   * A state with the audits on their way: `current` since the last budget change, `stale` from before it;
   * `landed` counts those of the current budget that were appended.
   */
  datatype World = World(state: State, current: Audits, stale: Audits, landed: nat)

  predicate Enabled(w: World, e: Event) {
    match e
    case EndUsage(_, stale) => (if stale then w.stale else w.current).waiting > 0
    case Finish(_, stale) => (if stale then w.stale else w.current).flying > 0
    case _ => true
  }

  /** A call that is counted appends its usage event before it sends an audit; a later refused call just sends one. */
  function Sent(a: Audits, attempt: Attempt): Audits {
    if !attempt.emitAudit then a
    else if attempt.counted then a.(waiting := a.waiting + 1)
    else a.(flying := a.flying + 1)
  }

  /** If the usage event cannot be appended the call throws: it sends no audit and gives no claim back. */
  function UsageEnded(a: Audits, appended: bool): Audits
    requires a.waiting > 0
  {
    Audits(a.waiting - 1, a.flying + if appended then 1 else 0)
  }

  /** A new budget: the audits on their way are of an older one. */
  function Renewed(w: World, s: State): World {
    World(s, NO_AUDITS, Together(w.stale, w.current), 0)
  }

  function Next(w: World, e: Event): World
    requires Enabled(w, e)
  {
    match e
    case Observe =>
      var (s, attempt) := Observed(w.state);
      w.(state := s, current := Sent(w.current, attempt))
    case EndUsage(appended, stale) =>
      if stale then w.(stale := UsageEnded(w.stale, appended)) else w.(current := UsageEnded(w.current, appended))
    case Finish(appended, stale) =>
      var done := w.(state := Finished(w.state, appended));
      if stale then done.(stale := w.stale.(flying := w.stale.flying - 1))
      else
        done.(current := w.current.(flying := w.current.flying - 1),
              landed := w.landed + if appended then 1 else 0)
    case SetSpendCap(usd) => Renewed(w, SpendCapSet(w.state, usd))
    case SetMaxSteps(steps) => Renewed(w, MaxStepsSet(w.state, steps))
  }

  ghost predicate Path(worlds: seq<World>, events: seq<Event>) {
    && |worlds| == |events| + 1
    && forall k: nat | k < |events| :: Enabled(worlds[k], events[k]) && worlds[k + 1] == Next(worlds[k], events[k])
  }

  /** A run starts with a new binding. */
  ghost predicate Run(worlds: seq<World>, events: seq<Event>) {
    && Path(worlds, events)
    && exists price, cap, steps :: worlds[0] == World(NewState(price, cap, steps), NO_AUDITS, NO_AUDITS, 0)
  }

  /** A refusal is on record exactly when a budget is exhausted. */
  predicate Exact(s: State) {
    s.binding.denied <==> CapReason(s.binding).Some?
  }

  /** Main result: `denied` means an exhausted budget after every operation, raises and cuts included. */
  lemma {:induction false} DeniedIffExhausted(worlds: seq<World>, events: seq<Event>, k: nat)
    requires Run(worlds, events) && k <= |events|
    ensures Exact(worlds[k].state)
  {
    if k > 0 {
      DeniedIffExhausted(worlds, events, k - 1);
    }
  }

  // ---------- what the row says after a run ----------

  /** The spend cap in force after the first k events: the last one set, or else the first one. */
  function CapInForce(first: real, events: seq<Event>, k: nat): real
    requires k <= |events|
  {
    if k == 0 then first
    else match events[k - 1]
      case SetSpendCap(usd) => usd
      case _ => CapInForce(first, events, k - 1)
  }

  function StepsInForce(first: int, events: seq<Event>, k: nat): int
    requires k <= |events|
  {
    if k == 0 then first
    else match events[k - 1]
      case SetMaxSteps(steps) => steps
      case _ => StepsInForce(first, events, k - 1)
  }

  /** The calls among them that were not refused beforehand. */
  function Made(worlds: seq<World>, events: seq<Event>, k: nat): nat
    requires k <= |events| <= |worlds|
  {
    if k == 0 then 0
    else
      Made(worlds, events, k - 1)
      + if events[k - 1].Observe? && !worlds[k - 1].state.binding.denied then 1 else 0
  }

  /** The row after a run, and whether it refuses calls, from what happened alone. */
  ghost predicate Ledger(b: Binding, price: real, cap: real, steps: int, made: nat) {
    && b.price == price && b.spendCap == cap && b.maxSteps == steps && b.calls == made
    && (b.denied <==> (cap > 0.0 && made as real * price >= cap) || (steps > 0 && made >= steps))
  }

  lemma LedgerKept(w: World, e: Event, price: real, cap: real, steps: int, made: nat)
    requires Enabled(w, e) && Ledger(w.state.binding, price, cap, steps, made)
    ensures Ledger(Next(w, e).state.binding, price,
                   if e.SetSpendCap? then e.usd else cap, if e.SetMaxSteps? then e.steps else steps,
                   if e.Observe? && !w.state.binding.denied then made + 1 else made)
  {
  }

  /**
   * Main result: at every moment of a run the caps in force are the last ones set, the price is the first one, every
   * call that was not refused beforehand is counted once, and calls are refused exactly when they used up a cap.
   */
  lemma {:induction false} RowIsLedger(worlds: seq<World>, events: seq<Event>, k: nat)
    requires Run(worlds, events) && k <= |events|
    ensures var b := worlds[0].state.binding;
            Ledger(worlds[k].state.binding, b.price, CapInForce(b.spendCap, events, k),
                   StepsInForce(b.maxSteps, events, k), Made(worlds, events, k))
  {
    if k > 0 {
      var b := worlds[0].state.binding;
      RowIsLedger(worlds, events, k - 1);
      LedgerKept(worlds[k - 1], events[k - 1], b.price, CapInForce(b.spendCap, events, k - 1),
                 StepsInForce(b.maxSteps, events, k - 1), Made(worlds, events, k - 1));
    }
  }

  /** The audits that the first k events sent, and those that ended: written, failed, or lost with a usage event. */
  function SentAudits(worlds: seq<World>, events: seq<Event>, k: nat): nat
    requires k <= |events| <= |worlds|
  {
    if k == 0 then 0
    else
      SentAudits(worlds, events, k - 1)
      + if events[k - 1].Observe? && Observed(worlds[k - 1].state).1.emitAudit then 1 else 0
  }

  function EndedAudits(events: seq<Event>, k: nat): nat
    requires k <= |events|
  {
    if k == 0 then 0
    else
      EndedAudits(events, k - 1)
      + match events[k - 1]
        case Finish(_, _) => 1
        case EndUsage(appended, _) => if appended then 0 else 1
        case _ => 0
  }

  /** No audit is made up and none vanishes: those that were sent and have not ended are on their way. */
  lemma {:induction false} AuditsAreConserved(worlds: seq<World>, events: seq<Event>, k: nat)
    requires Run(worlds, events) && k <= |events|
    ensures var w := worlds[k];
            SentAudits(worlds, events, k) ==
            w.current.waiting + w.current.flying + w.stale.waiting + w.stale.flying + EndedAudits(events, k)
  {
    if k > 0 {
      AuditsAreConserved(worlds, events, k - 1);
    }
  }

  /** The audits of the current budget that were appended, since it was last changed. */
  function Appended(events: seq<Event>, k: nat): nat
    requires k <= |events|
  {
    if k == 0 || events[k - 1].SetSpendCap? || events[k - 1].SetMaxSteps? then 0
    else
      Appended(events, k - 1)
      + if events[k - 1].Finish? && events[k - 1].appended && !events[k - 1].stale then 1 else 0
  }

  lemma {:induction false} LandedAreCounted(worlds: seq<World>, events: seq<Event>, k: nat)
    requires Run(worlds, events) && k <= |events|
    ensures worlds[k].landed == Appended(events, k)
  {
    if k > 0 {
      LandedAreCounted(worlds, events, k - 1);
    }
  }

  /** A permitted call leaves the estimate strictly below the cap in force, and room for another step. */
  lemma PermittedIsBelowCap(s: State)
    requires !Observed(s).1.denied
    ensures var (next, attempt) := Observed(s);
            && attempt.counted && attempt.estimate == Spend(next.binding.calls, next.binding.price)
            && (next.binding.spendCap > 0.0 ==> attempt.estimate < next.binding.spendCap)
            && (next.binding.maxSteps > 0 ==> next.binding.calls < next.binding.maxSteps)
  {
  }

  // ---------- the refusing call against the meter ----------

  lemma Multiply(a: real, b: real, p: real)
    requires p > 0.0
    ensures a >= b <==> a * p >= b * p
  {
  }

  lemma MoneyRunsOut(n: nat, price: real, cap: real)
    requires price > 0.0 && cap > 0.0
    ensures Spend(n, price) >= cap <==> n as real >= cap / price
  {
    var q := cap / price;
    assert q * price == cap;
    Multiply(n as real, q, price);
  }

  lemma NeverSpends(n: nat, price: real)
    requires price <= 0.0
    ensures Spend(n, price) <= 0.0
  {
  }

  /** Money runs out between two calls, and before the steps do. */
  predicate MoneyRunsOutBetween(b: Binding) {
    && b.spendCap > 0.0 && b.price > 0.0
    && var q := b.spendCap / b.price;
       q != q.Floor as real && (b.maxSteps <= 0 || q.Floor < b.maxSteps)
  }

  /**
   * The call that is first refused is the meter's last call, or the one after it: that exactly when the money runs
   * out between two calls, and before the steps do.
   */
  lemma RefusingCall(s: State)
    requires Exact(s) && !s.binding.denied && Observed(s).1.denied
    ensures var next := Observed(s).0.binding; var cap := CallsCap(next);
            && cap.Some?
            && next.calls == cap.value + if MoneyRunsOutBetween(next) then 1 else 0
  {
    var b := s.binding;
    var n := b.calls + 1;
    if b.spendCap > 0.0 {
      if b.price > 0.0 {
        MoneyRunsOut(b.calls, b.price, b.spendCap);
        MoneyRunsOut(n, b.price, b.spendCap);
        var q := b.spendCap / b.price;
        assert n as real >= q ==> n >= q.Floor;
        assert (b.calls as real) < q ==> b.calls <= q.Floor;
      } else {
        NeverSpends(n, b.price);
      }
    }
  }

  /** A binding whose meter shows no limit never refuses a call. */
  lemma NoLimitNeverRefuses(b: Binding)
    requires CallsCap(b).None?
    ensures CapReason(b).None?
  {
    if b.price <= 0.0 {
      NeverSpends(b.calls, b.price);
    }
  }

  // ---------- one audit per refusal ----------

  /** How many of the current budget's audits are on their way or were appended. */
  function Audited(w: World): nat {
    w.current.waiting + w.current.flying + w.landed
  }

  predicate OnTheWay(a: Audits) {
    a.waiting + a.flying > 0
  }

  /** No audit of an earlier budget is on its way, and those of this one are as they should be. */
  predicate Orderly(w: World) {
    && !OnTheWay(w.stale)
    && Audited(w) <= 1
    && (w.state.inFlight <==> OnTheWay(w.current))
    && (w.state.binding.auditReserved <==> w.landed == 1)
    && (Audited(w) == 1 ==> w.state.binding.denied)
  }

  predicate ChangesBudget(e: Event) {
    e.SetSpendCap? || e.SetMaxSteps?
  }

  /** The usage event of a call that is refused cannot be appended. */
  predicate UsageFails(e: Event) {
    e.EndUsage? && !e.appended
  }

  /** Budgets change only while no audit is on its way. */
  ghost predicate QuietChanges(worlds: seq<World>, events: seq<Event>)
    requires |worlds| == |events| + 1
  {
    forall k: nat | k < |events| && ChangesBudget(events[k]) ::
      !OnTheWay(worlds[k].current) && !OnTheWay(worlds[k].stale)
  }

  /**
   * The rule for the current refusal: at most one audit on its way or appended, and a refused call sends one
   * exactly when there is none.
   */
  predicate AuditedOnce(w: World) {
    Audited(w) <= 1 && (w.state.binding.denied ==> (Observed(w.state).1.emitAudit <==> Audited(w) == 0))
  }

  lemma OrderlyIsAuditedOnce(w: World)
    requires Orderly(w)
    ensures AuditedOnce(w)
  {
  }

  lemma ObserveIsOrderly(w: World)
    requires Orderly(w)
    ensures Orderly(Next(w, Observe))
  {
  }

  lemma EndIsOrderly(w: World, e: Event)
    requires Orderly(w) && Enabled(w, e) && (e.Finish? || (e.EndUsage? && e.appended))
    ensures Orderly(Next(w, e))
  {
  }

  lemma RenewedIsOrderly(w: World, s: State)
    requires Orderly(w) && !OnTheWay(w.current) && s.inFlight == w.state.inFlight && !s.binding.auditReserved
    ensures Orderly(Renewed(w, s))
  {
  }

  lemma ChangeIsOrderly(w: World, e: Event)
    requires Orderly(w) && ChangesBudget(e) && !OnTheWay(w.current)
    ensures Orderly(Next(w, e))
  {
    match e
    case SetSpendCap(usd) =>
      RenewedIsOrderly(w, SpendCapSet(w.state, usd));
    case SetMaxSteps(steps) =>
      RenewedIsOrderly(w, MaxStepsSet(w.state, steps));
  }

  lemma StepIsExact(w: World, e: Event)
    requires Exact(w.state) && Enabled(w, e)
    ensures Exact(Next(w, e).state)
  {
  }

  lemma QuietStepIsOrderly(w: World, e: Event)
    requires Orderly(w) && Exact(w.state) && Enabled(w, e) && !UsageFails(e)
    requires ChangesBudget(e) ==> !OnTheWay(w.current)
    ensures Orderly(Next(w, e)) && Exact(Next(w, e).state)
  {
    StepIsExact(w, e);
    if ChangesBudget(e) {
      ChangeIsOrderly(w, e);
    } else if e.Observe? {
      ObserveIsOrderly(w);
    } else {
      EndIsOrderly(w, e);
    }
  }

  lemma {:induction false} QuietPathIsOrderly(worlds: seq<World>, events: seq<Event>, k: nat)
    requires Path(worlds, events) && QuietChanges(worlds, events) && k <= |events|
    requires Orderly(worlds[0]) && Exact(worlds[0].state)
    requires forall j: nat | j < k :: !UsageFails(events[j])
    ensures Orderly(worlds[k]) && Exact(worlds[k].state)
  {
    if k > 0 {
      QuietPathIsOrderly(worlds, events, k - 1);
      QuietStepIsOrderly(worlds[k - 1], events[k - 1]);
    }
  }

  /** A claim on the audit with no audit on its way or appended, of this budget or an older one. */
  predicate Stuck(w: World) {
    w.state.inFlight && !OnTheWay(w.current) && !OnTheWay(w.stale) && w.landed == 0
  }

  /** A usage event that cannot be appended leaves a refusal on record, its claim taken and no audit. */
  lemma FailedUsageSticks(w: World)
    requires Orderly(w) && Enabled(w, EndUsage(false, false))
    ensures var next := Next(w, EndUsage(false, false));
            Stuck(next) && next.state.binding.denied && !AuditedOnce(next)
  {
  }

  /**
   * Main result: if budgets change only between audits, then each refusal has at most one denial audit on its way
   * or appended, and the next refused call sends one exactly when there is none, at every moment of a run exactly
   * when no refused call of it fails to append its usage event.
   */
  lemma OneAuditPerBudget(worlds: seq<World>, events: seq<Event>)
    requires Run(worlds, events) && QuietChanges(worlds, events)
    ensures (forall k: nat | k <= |events| :: AuditedOnce(worlds[k])) <==>
            (forall k: nat | k < |events| :: !UsageFails(events[k]))
  {
    if forall k: nat | k < |events| :: !UsageFails(events[k]) {
      forall k: nat | k <= |events|
        ensures AuditedOnce(worlds[k])
      {
        QuietPathIsOrderly(worlds, events, k);
        OrderlyIsAuditedOnce(worlds[k]);
      }
    } else {
      var k :| 0 <= k < |events| && UsageFails(events[k]);
      var first := FirstFailure(events, k);
      QuietPathIsOrderly(worlds, events, first);
      FailedUsageSticks(worlds[first]);
      assert !AuditedOnce(worlds[first + 1]);
    }
  }

  lemma {:induction false} FirstFailure(events: seq<Event>, k: nat) returns (first: nat)
    requires k < |events| && UsageFails(events[k])
    ensures first < |events| && UsageFails(events[first]) && forall j: nat | j < first :: !UsageFails(events[j])
  {
    if j: nat :| j < k && UsageFails(events[j]) {
      first := FirstFailure(events, j);
    } else {
      first := k;
    }
  }

  /**
   * Such a refusal is never audited: as long as calls are refused, whether budgets change or not, none of them
   * sends an audit.
   */
  lemma {:induction false} StuckStays(worlds: seq<World>, events: seq<Event>, k: nat)
    requires Path(worlds, events) && k <= |events| && Stuck(worlds[0])
    requires forall j: nat | j < k :: worlds[j].state.binding.denied
    ensures Stuck(worlds[k])
    ensures worlds[k].state.binding.denied ==> !Observed(worlds[k].state).1.emitAudit
  {
    if k > 0 {
      StuckStays(worlds, events, k - 1);
    }
  }

  /**
   * Any one change of budget here, and only quiet ones and no failing usage event from there on, leave the rule in
   * force for good.
   */
  ghost predicate SafeToChange(w: World) {
    forall change, worlds: seq<World>, events: seq<Event> ::
      && ChangesBudget(change) && Path(worlds, events) && worlds[0] == Next(w, change) && QuietChanges(worlds, events)
      && (forall k: nat | k < |events| :: !UsageFails(events[k]))
      ==> AuditedOnce(worlds[|events|])
  }

  /** Main result: a change of budgets is safe exactly when no audit is on its way. */
  lemma SafeToChangeIff(w: World)
    requires Orderly(w) && Exact(w.state)
    ensures SafeToChange(w) <==> !OnTheWay(w.current)
  {
    if !OnTheWay(w.current) {
      forall change, worlds: seq<World>, events: seq<Event> |
          && ChangesBudget(change) && Path(worlds, events) && worlds[0] == Next(w, change)
          && QuietChanges(worlds, events) && (forall k: nat | k < |events| :: !UsageFails(events[k]))
        ensures AuditedOnce(worlds[|events|])
      {
        QuietStepIsOrderly(w, change);
        QuietPathIsOrderly(worlds, events, |events|);
        OrderlyIsAuditedOnce(worlds[|events|]);
      }
    } else {
      UnchangedBreaks(w);
      var change := SetMaxSteps(w.state.binding.maxSteps);
      assert ChangesBudget(change) && Path([Next(w, change)], []);
    }
  }

  /** Even a change that sets what is set already breaks the rule when an audit is on its way. */
  lemma UnchangedBreaks(w: World)
    requires Orderly(w) && Exact(w.state) && OnTheWay(w.current)
    ensures !AuditedOnce(Next(w, SetMaxSteps(w.state.binding.maxSteps)))
  {
    assert w.state.binding.(maxSteps := w.state.binding.maxSteps) == w.state.binding;
  }

  /** Budgets that the next call exhausts, and that call with its usage event. */
  function Tightened(w: World): World {
    Next(Next(w, SetSpendCap(0.0)), SetMaxSteps(w.state.binding.calls + 1))
  }

  lemma TightenedRefuses(w: World)
    ensures var refused := Next(Tightened(w), Observe);
            && Tightened(w).current == NO_AUDITS && refused.current == Audits(1, 0)
            && refused.stale == Together(w.stale, w.current)
            && refused.landed == 0 && refused.state.binding.denied && !refused.state.binding.auditReserved
  {
    var b := w.state.binding.(spendCap := 0.0, maxSteps := w.state.binding.calls + 1);
    assert CapReason(b).None?;
    assert CapReason(b.(calls := b.calls + 1)) == Some(MaxSteps);
  }

  /** The refused call after its usage event: its audit is being appended. */
  function Refused(w: World): World
    requires Next(Tightened(w), Observe).current.waiting > 0
  {
    Next(Next(Tightened(w), Observe), EndUsage(true, false))
  }

  /**
   * One way to break it, from wherever an audit is being appended: two audits of one refusal, because the end of
   * the older audit releases the claim of the newer one.
   */
  lemma ChangeInFlightDoubles(w: World)
    requires w.current.flying + w.stale.flying > 0
    ensures Next(Tightened(w), Observe).current.waiting > 0
    ensures var refused := Refused(w); var ended := Finish(false, true);
            && Tightened(w).current == NO_AUDITS && refused.current.flying == 1 && refused.state.binding.denied
            && Enabled(refused, ended)
            && Next(Next(refused, ended), Observe).current.flying == 2
  {
    TightenedRefuses(w);
  }

  /** A refusal on record as audited, with no audit on its way or appended. */
  predicate Unaudited(w: World) {
    w.state.binding.denied && w.state.binding.auditReserved && Audited(w) == 0
  }

  /**
   * Another way, from wherever an audit is being appended: the older audit is appended and taken for the newer
   * one, which fails.
   */
  lemma ChangeInFlightLoses(w: World)
    requires w.current.flying + w.stale.flying > 0
    ensures Next(Tightened(w), Observe).current.waiting > 0
    ensures var refused := Refused(w); var older, newer := Finish(true, true), Finish(false, false);
            && refused.current.flying == 1 && Enabled(refused, older) && Enabled(Next(refused, older), newer)
            && Unaudited(Next(Next(refused, older), newer))
  {
    TightenedRefuses(w);
  }

  /** Such a refusal is never audited: until budgets change, no call sends an audit. */
  lemma {:induction false} UnauditedStays(worlds: seq<World>, events: seq<Event>, k: nat)
    requires Path(worlds, events) && k <= |events| && Unaudited(worlds[0])
    requires forall j: nat | j < |events| :: !ChangesBudget(events[j])
    ensures Unaudited(worlds[k]) && !Observed(worlds[k].state).1.emitAudit
  {
    if k > 0 {
      UnauditedStays(worlds, events, k - 1);
      assert !ChangesBudget(events[k - 1]);
    }
  }
}
