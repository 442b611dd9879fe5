/**
 * Approvals as the dispatcher spends them: a row is answered by a person, runs at most one call that
 * counts, and only an answer for the whole task is remembered, up to a limit.
 */
module Approvals {
  import opened Wrappers

  datatype Status = Pending | Approved | Consumed | Denied | Expired | Killed

  datatype Decision = AllowOnce | AllowTask | Deny | Kill

  /** What an approval is bound to. */
  datatype Bind = Bind(task: string, epoch: int, origin: string, hash: string, expires: int)

  /**
   * One row. A remembered answer grants `named` origins when it is given and `used` ones when the call goes
   * on; the two may differ, and both are empty unless the gate is a new domain.
   */
  datatype Row = Row(bind: Bind, named: seq<string>, used: seq<string>, status: Status, decision: Option<Decision>)

  /** A granted origin and the row it came from. */
  datatype Grant = Grant(task: string, origin: string, row: nat)

  const MAX_ORIGINS := 32

  datatype Code =
    | E_AUTH | E_CAPABILITY | E_SPEND_CAP | E_POLICY | E_POLICY_PENDING | E_STALE_REF
    | E_TIMEOUT | E_TAKEOVER_BUSY | E_TAKEOVER_EXPIRED | E_SANDBOX_DEAD | E_IO | E_LIMIT

  datatype ToolResult = Done | Error(code: Code)

  /** Failures that certainly had no effect. */
  predicate NoEffect(code: Code) {
    code in {E_STALE_REF, E_POLICY, E_POLICY_PENDING, E_SANDBOX_DEAD, E_CAPABILITY, E_TAKEOVER_BUSY, E_AUTH}
  }

  predicate Spends(result: ToolResult) {
    result.Done? || !NoEffect(result.code)
  }

  /**
   * How a call under an approval ends: stopped with its task, with an exception that is no timeout (from the
   * computer or on the way to it, also from the retry of a blocked navigation), sent back to ask about a blocked
   * navigation, or with a result.
   */
  datatype Ending = Cancelled | Threw | SentBack | Returned(result: ToolResult)

  /**
   * The tables in rowid order, the rows whose calls are under way, and two histories: which row each
   * counted result ran under, and what people answered.
   */
  datatype Db = Db(
    rows: seq<Row>,
    grants: seq<Grant>,
    running: seq<nat>,
    spent: seq<nat>,
    answers: map<nat, Decision>)

  const EMPTY_DB := Db([], [], [], [], map[])

  /** A call that the gate wants approved. */
  datatype Request = Request(bind: Bind, named: seq<string>, used: seq<string>, now: int)

  // ---------- grants ----------

  function Count(grants: seq<Grant>, task: string): nat {
    if grants == [] then 0
    else Count(grants[..|grants| - 1], task) + if grants[|grants| - 1].task == task then 1 else 0
  }

  predicate Has(grants: seq<Grant>, task: string, origin: string) {
    exists i :: 0 <= i < |grants| && grants[i].task == task && grants[i].origin == origin
  }

  function Granted(grants: seq<Grant>, task: string, origins: seq<string>, row: nat): seq<Grant>
    decreases |origins|
  {
    if origins == [] then grants
    else if origins[0] == "" then Granted(grants, task, origins[1..], row)
    else if Count(grants, task) >= MAX_ORIGINS then grants
    else if Has(grants, task, origins[0]) then Granted(grants, task, origins[1..], row)
    else Granted(grants + [Grant(task, origins[0], row)], task, origins[1..], row)
  }

  method GrantTaskOrigins(grants: seq<Grant>, task: string, origins: seq<string>, row: nat)
    returns (all: seq<Grant>, added: seq<string>)
    ensures all == Granted(grants, task, origins, row)
    ensures grants <= all && |all| == |grants| + |added|
    ensures forall k | 0 <= k < |added| :: all[|grants| + k] == Grant(task, added[k], row)
  {
    all, added := grants, [];
    var held := Count(grants, task);
    for i := 0 to |origins|
      invariant Granted(all, task, origins[i..], row) == Granted(grants, task, origins, row)
      invariant held == Count(all, task) && grants <= all && |all| == |grants| + |added|
      invariant forall k | 0 <= k < |added| :: all[|grants| + k] == Grant(task, added[k], row)
    {
      var origin := origins[i];
      assert origins[i..][0] == origin && origins[i..][1..] == origins[i + 1..];
      if origin == "" {
        continue;
      }
      if held >= MAX_ORIGINS {
        return;
      }
      if !Has(all, task, origin) {
        CountMore(all, Grant(task, origin, row), task);
        all := all + [Grant(task, origin, row)];
        added := added + [origin];
        held := held + 1;
      }
    }
  }

  lemma CountMore(grants: seq<Grant>, g: Grant, task: string)
    ensures Count(grants + [g], task) == Count(grants, task) + if g.task == task then 1 else 0
  {
    assert (grants + [g])[..|grants|] == grants;
  }

  /** Grants are only added, only from the given row, and never past the limit. */
  lemma {:induction false} GrantedKeeps(grants: seq<Grant>, task: string, origins: seq<string>, row: nat)
    ensures var all := Granted(grants, task, origins, row);
            && grants <= all
            && (forall i | |grants| <= i < |all| :: all[i].task == task && all[i].row == row)
            && (forall t :: Count(grants, t) <= MAX_ORIGINS ==> Count(all, t) <= MAX_ORIGINS)
    decreases |origins|
  {
    if origins != [] {
      var g := Grant(task, origins[0], row);
      GrantedKeeps(grants, task, origins[1..], row);
      if origins[0] != "" && Count(grants, task) < MAX_ORIGINS {
        GrantedKeeps(grants + [g], task, origins[1..], row);
        forall t
          ensures Count(grants + [g], t) == Count(grants, t) + if t == task then 1 else 0
        {
          CountMore(grants, g, t);
        }
      }
    }
  }

  lemma HasMore(grants: seq<Grant>, g: Grant, task: string, origin: string)
    ensures Has(grants + [g], task, origin) <==> Has(grants, task, origin) || (g.task == task && g.origin == origin)
  {
    var all := grants + [g];
    assert all[|grants|] == g;
    if Has(grants, task, origin) {
      var i :| 0 <= i < |grants| && grants[i].task == task && grants[i].origin == origin;
      assert all[i] == grants[i];
    }
  }

  /** What is granted was granted before or is one of the origins; only the limit leaves one of them out. */
  lemma {:induction false} GrantedOrigins(grants: seq<Grant>, task: string, origins: seq<string>, row: nat,
                                             origin: string)
    ensures var all := Granted(grants, task, origins, row);
            && (Has(grants, task, origin) ==> Has(all, task, origin))
            && (Has(all, task, origin) ==> Has(grants, task, origin) || (origin in origins && origin != ""))
            && (origin in origins && origin != "" && !Has(all, task, origin) ==> Count(all, task) >= MAX_ORIGINS)
    decreases |origins|
  {
    if origins != [] {
      var g := Grant(task, origins[0], row);
      assert origin in origins <==> origin == origins[0] || origin in origins[1..];
      GrantedOrigins(grants, task, origins[1..], row, origin);
      GrantedOrigins(grants + [g], task, origins[1..], row, origin);
      HasMore(grants, g, task, origin);
    }
  }

  // ---------- the steps ----------

  /** The latest row for the action, if any. */
  function Find(rows: seq<Row>, task: string, hash: string): Option<nat> {
    if rows == [] then None
    else
      var last := rows[|rows| - 1];
      if last.bind.task == task && last.bind.hash == hash then Some(|rows| - 1)
      else Find(rows[..|rows| - 1], task, hash)
  }

  /** What the dispatcher does about a call that needs approval. */
  datatype Verdict = Ask | Expire(row: nat) | Wait(row: nat) | Reject(row: nat) | Go(row: nat)

  function Judge(db: Db, q: Request): (v: Verdict)
    ensures v.Expire? || v.Wait? || v.Reject? || v.Go? ==> v.row < |db.rows|
  {
    match Find(db.rows, q.bind.task, q.bind.hash)
    case None => Ask
    case Some(i) =>
      if i >= |db.rows| then Ask
      else
        var row := db.rows[i];
        if row.status == Expired || row.status == Consumed then Ask
        else if !Exact(row.bind, q.bind) then Ask
        else if row.bind.expires <= q.now then Expire(i)
        else if row.status == Pending then Wait(i)
        else if row.status != Approved then Reject(i)
        else Go(i)
  }

  /** Row `i` is the latest of its task for the action. */
  predicate LatestFor(rows: seq<Row>, i: nat, task: string, hash: string) {
    && i < |rows| && rows[i].bind.task == task && rows[i].bind.hash == hash
    && forall j | i < j < |rows| :: !(rows[j].bind.task == task && rows[j].bind.hash == hash)
  }

  lemma {:induction false} FindIsLatest(rows: seq<Row>, task: string, hash: string, i: nat)
    ensures Find(rows, task, hash) == Some(i) <==> LatestFor(rows, i, task, hash)
  {
    if rows != [] && i < |rows| - 1 {
      var front := rows[..|rows| - 1];
      FindIsLatest(front, task, hash, i);
      assert forall j | 0 <= j < |front| :: front[j] == rows[j];
    } else if rows != [] {
      FindIsInside(rows[..|rows| - 1], task, hash);
    }
  }

  lemma {:induction false} FindIsInside(rows: seq<Row>, task: string, hash: string)
    ensures Find(rows, task, hash).Some? ==> Find(rows, task, hash).value < |rows|
  {
    if rows != [] {
      FindIsInside(rows[..|rows| - 1], task, hash);
    }
  }

  /** A call goes exactly under the latest row for its action, if that is approved, unexpired and bound to it. */
  lemma GoesIff(db: Db, q: Request, i: nat)
    ensures Judge(db, q) == Go(i) <==>
            && LatestFor(db.rows, i, q.bind.task, q.bind.hash)
            && db.rows[i].status == Approved && Exact(db.rows[i].bind, q.bind) && q.now < db.rows[i].bind.expires
  {
    FindIsLatest(db.rows, q.bind.task, q.bind.hash, i);
  }

  predicate Exact(row: Bind, asked: Bind) {
    row.task == asked.task && row.epoch == asked.epoch && row.origin == asked.origin && row.hash == asked.hash
  }

  function WithStatus(db: Db, i: nat, status: Status, decision: Option<Decision>): Db
    requires i < |db.rows|
  {
    db.(rows := db.rows[i := db.rows[i].(status := status, decision := decision)])
  }

  /** The answer a row is spent under; none recorded counts as once. */
  function Decided(row: Row): Decision {
    if row.decision.Some? then row.decision.value else AllowOnce
  }

  function Remembered(row: Row): seq<string> {
    if Decided(row) == AllowTask then row.used else []
  }

  function Began(db: Db, q: Request): Db {
    match Judge(db, q)
    case Ask => db.(rows := db.rows + [Row(q.bind, q.named, q.used, Pending, None)])
    case Expire(i) => WithStatus(db, i, Expired, None)
    case Wait(_) => db
    case Reject(_) => db
    case Go(i) =>
      db.(grants := Granted(db.grants, db.rows[i].bind.task, Remembered(db.rows[i]), i), running := db.running + [i])
  }

  /** Consuming is conditional on the row's status; the grant rides in the same transaction. */
  function ConsumedAs(db: Db, i: nat, expected: Status, task: string, origins: seq<string>, decision: Decision): Db
    requires i < |db.rows|
  {
    if db.rows[i].status != expected then db
    else
      WithStatus(db, i, Consumed, Some(decision)).(grants := Granted(db.grants, task, origins, i))
  }

  /** The dispatcher consumes an approved row, under its answer and with what that remembers. */
  function Consumption(db: Db, i: nat): Db
    requires i < |db.rows|
  {
    var row := db.rows[i];
    ConsumedAs(db, i, Approved, row.bind.task, Remembered(row), Decided(row))
  }

  function Ended(db: Db, k: nat, ending: Ending): Db
    requires k < |db.running| && db.running[k] < |db.rows|
  {
    var i := db.running[k];
    var rest := db.(running := db.running[..k] + db.running[k + 1..]);
    if ending.Returned? && Spends(ending.result) then Consumption(rest.(spent := rest.spent + [i]), i) else rest
  }

  /** A person answers a pending row; an answer for the task grants at once. */
  function Answered(db: Db, i: nat, decision: Decision, now: int): Db
    requires i < |db.rows|
  {
    var row := db.rows[i];
    if row.status != Pending then db
    else if row.bind.expires <= now then WithStatus(db, i, Expired, None)
    else
      var status :=
        match decision
        case AllowOnce => Approved
        case AllowTask => Approved
        case Deny => Denied
        case Kill => Killed;
      var done := WithStatus(db, i, status, Some(decision)).(answers := db.answers[i := decision]);
      if decision == AllowTask then done.(grants := Granted(db.grants, row.bind.task, row.named, i)) else done
  }

  // ---------- the object ----------

  class ApprovalStore {
    var rows: seq<Row>
    var grants: seq<Grant>
    var running: seq<nat>
    ghost var spent: seq<nat>
    ghost var answers: map<nat, Decision>

    ghost function View(): Db
      reads this
    {
      Db(rows, grants, running, spent, answers)
    }

    constructor ()
      ensures View() == EMPTY_DB
    {
      rows, grants, running, spent, answers := [], [], [], [], map[];
    }

    method FindApprovalByAction(task: string, hash: string) returns (found: Option<nat>)
      ensures found == Find(rows, task, hash)
    {
      var i := |rows|;
      assert rows[..i] == rows;
      while i > 0
        invariant 0 <= i <= |rows|
        invariant Find(rows[..i], task, hash) == Find(rows, task, hash)
      {
        assert rows[..i][..i - 1] == rows[..i - 1];
        i := i - 1;
        if rows[i].bind.task == task && rows[i].bind.hash == hash {
          return Some(i);
        }
      }
      return None;
    }

    method SetApprovalStatusIf(i: nat, expected: Status, status: Status, decision: Option<Decision>)
      returns (changed: bool)
      requires i < |rows|
      modifies this`rows
      ensures changed == (old(rows)[i].status == expected)
      ensures View() == if changed then WithStatus(old(View()), i, status, decision) else old(View())
    {
      changed := rows[i].status == expected;
      if changed {
        rows := rows[i := rows[i].(status := status, decision := decision)];
      }
    }

    method ConsumeApprovalWithGrant(i: nat, expected: Status, task: string, origins: seq<string>, decision: Decision)
      returns (consumed: bool)
      requires i < |rows|
      modifies this`rows, this`grants
      ensures consumed == (old(rows)[i].status == expected)
      ensures View() == ConsumedAs(old(View()), i, expected, task, origins, decision)
    {
      consumed := SetApprovalStatusIf(i, expected, Consumed, Some(decision));
      if consumed {
        var added: seq<string>;
        grants, added := GrantTaskOrigins(grants, task, origins, i);
      }
    }
  }

  // ---------- runs ----------

  datatype Step =
    | Begin(q: Request)
    | End(k: nat, ending: Ending)
    | Answer(i: nat, decision: Decision, now: int)

  /** No call starts under a row whose call is still under way. */
  predicate Enabled(db: Db, step: Step) {
    match step
    case Begin(q) => Judge(db, q).Go? ==> Judge(db, q).row !in db.running
    case End(k, _) => k < |db.running| && db.running[k] < |db.rows|
    case Answer(i, _, _) => i < |db.rows|
  }

  function Next(db: Db, step: Step): Db
    requires Enabled(db, step)
  {
    match step
    case Begin(q) => Began(db, q)
    case End(k, ending) => Ended(db, k, ending)
    case Answer(i, decision, now) => Answered(db, i, decision, now)
  }

  ghost predicate Path(states: seq<Db>, steps: seq<Step>) {
    && |states| == |steps| + 1
    && forall k: nat | k < |steps| :: Enabled(states[k], steps[k]) && states[k + 1] == Next(states[k], steps[k])
  }

  /** A run starts with empty tables. */
  ghost predicate Run(states: seq<Db>, steps: seq<Step>) {
    Path(states, steps) && states[0] == EMPTY_DB
  }

  function Times(ids: seq<nat>, i: nat): nat {
    if ids == [] then 0 else Times(ids[..|ids| - 1], i) + if ids[|ids| - 1] == i then 1 else 0
  }

  /** What a row's status says about the counted calls it has bought. */
  predicate RowOk(db: Db, i: nat)
    requires i < |db.rows|
  {
    var n := Times(db.spent, i);
    && n <= 1
    && (n == 1 ==> (db.rows[i].status == Consumed || db.rows[i].status == Expired) && i !in db.running)
    && (db.rows[i].status == Consumed ==> n == 1)
    && (i in db.running ==> n == 0 && (db.rows[i].status == Approved || db.rows[i].status == Expired))
    && (db.rows[i].status == Approved ==>
          i in db.answers && db.rows[i].decision == Some(db.answers[i]) && db.answers[i] in {AllowOnce, AllowTask})
    && (i in db.answers ==> db.rows[i].status != Pending)
  }

  ghost predicate RowsOk(db: Db) {
    && (forall i: nat | i < |db.rows| :: RowOk(db, i))
    && (forall i: nat | i >= |db.rows| :: Times(db.spent, i) == 0 && i !in db.answers)
  }

  ghost predicate RunningInside(db: Db) {
    forall k | 0 <= k < |db.running| :: db.running[k] < |db.rows|
  }

  /** No row stands twice among the calls under way. */
  ghost predicate NoOverlap(db: Db) {
    forall j, k | 0 <= j < k < |db.running| :: db.running[j] != db.running[k]
  }

  ghost predicate RunningOk(db: Db) {
    RunningInside(db) && NoOverlap(db)
  }

  /** Every grant goes back to an answer for the whole task, and no task has too many. */
  ghost predicate GrantsOk(grants: seq<Grant>, answers: map<nat, Decision>) {
    && (forall g | g in grants :: g.row in answers && answers[g.row] == AllowTask)
    && (forall t :: Count(grants, t) <= MAX_ORIGINS)
  }

  ghost predicate Inv(db: Db) {
    RowsOk(db) && RunningOk(db) && GrantsOk(db.grants, db.answers)
  }

  lemma GrantingKeeps(grants: seq<Grant>, task: string, origins: seq<string>, row: nat, answers: map<nat, Decision>)
    requires GrantsOk(grants, answers)
    requires origins != [] ==> row in answers && answers[row] == AllowTask
    ensures GrantsOk(Granted(grants, task, origins, row), answers)
  {
    GrantedKeeps(grants, task, origins, row);
    var all := Granted(grants, task, origins, row);
    forall g | g in all
      ensures g.row in answers && answers[g.row] == AllowTask
    {
      var i :| 0 <= i < |all| && all[i] == g;
      if i < |grants| {
        assert grants[i] in grants;
      }
    }
  }

  lemma TimesMore(ids: seq<nat>, i: nat, j: nat)
    ensures Times(ids + [i], j) == Times(ids, j) + if i == j then 1 else 0
  {
    assert (ids + [i])[..|ids|] == ids;
  }

  lemma Removed(ids: seq<nat>, k: nat)
    requires k < |ids| && forall i, j | 0 <= i < j < |ids| :: ids[i] != ids[j]
    ensures var rest := ids[..k] + ids[k + 1..];
            && ids[k] !in rest
            && (forall x :: x in rest ==> x in ids) && (forall x :: x in ids && x != ids[k] ==> x in rest)
            && (forall i, j | 0 <= i < j < |rest| :: rest[i] != rest[j])
  {
    var rest := ids[..k] + ids[k + 1..];
    forall x | x in ids && x != ids[k]
      ensures x in rest
    {
      var i :| 0 <= i < |ids| && ids[i] == x;
      assert if i < k then rest[i] == x else rest[i - 1] == x;
    }
  }

  lemma BeginKeeps(db: Db, q: Request)
    requires Inv(db) && Enabled(db, Begin(q))
    ensures Inv(Began(db, q))
  {
    var next, verdict := Began(db, q), Judge(db, q);
    if verdict.Go? {
      var g := verdict.row;
      assert RowOk(db, g);
      GrantingKeeps(db.grants, db.rows[g].bind.task, Remembered(db.rows[g]), g, db.answers);
    }
    forall i: nat | i < |next.rows|
      ensures RowOk(next, i)
    {
      if i < |db.rows| {
        assert RowOk(db, i);
      }
    }
  }

  /** When a call ends, its row is as good as before, and the others are untouched. */
  lemma EndKeepsRow(db: Db, k: nat, ending: Ending, i: nat)
    requires RunningOk(db) && Enabled(db, End(k, ending)) && i < |db.rows|
    requires RowOk(db, i) && RowOk(db, db.running[k])
    ensures RowOk(Ended(db, k, ending), i)
  {
    var id := db.running[k];
    Removed(db.running, k);
    TimesMore(db.spent, id, i);
    assert i in db.running[..k] + db.running[k + 1..] <==> i in db.running && i != id;
  }

  lemma EndKeepsRest(db: Db, k: nat, ending: Ending, i: nat)
    requires Enabled(db, End(k, ending)) && i >= |db.rows| && Times(db.spent, i) == 0 && i !in db.answers
    ensures Times(Ended(db, k, ending).spent, i) == 0 && i !in Ended(db, k, ending).answers
  {
    TimesMore(db.spent, db.running[k], i);
  }

  lemma EndKeepsLength(db: Db, k: nat, ending: Ending)
    requires Enabled(db, End(k, ending))
    ensures |Ended(db, k, ending).rows| == |db.rows|
  {
  }

  lemma EndKeepsRows(db: Db, k: nat, ending: Ending)
    requires RowsOk(db) && RunningOk(db) && Enabled(db, End(k, ending))
    ensures RowsOk(Ended(db, k, ending))
  {
    EndKeepsLength(db, k, ending);
    assert RowOk(db, db.running[k]);
    forall i: nat
      ensures i < |db.rows| ==> RowOk(Ended(db, k, ending), i)
      ensures i >= |db.rows| ==> Times(Ended(db, k, ending).spent, i) == 0 && i !in Ended(db, k, ending).answers
    {
      if i < |db.rows| {
        EndKeepsRow(db, k, ending, i);
      } else {
        EndKeepsRest(db, k, ending, i);
      }
    }
  }

  lemma EndKeeps(db: Db, k: nat, ending: Ending)
    requires Inv(db) && Enabled(db, End(k, ending))
    ensures Inv(Ended(db, k, ending))
  {
    var id := db.running[k];
    EndKeepsRows(db, k, ending);
    Removed(db.running, k);
    assert RowOk(db, id);
    if db.rows[id].status == Approved {
      GrantingKeeps(db.grants, db.rows[id].bind.task, Remembered(db.rows[id]), id, db.answers);
    }
  }

  lemma AnswerKeeps(db: Db, i: nat, decision: Decision, now: int)
    requires Inv(db) && i < |db.rows|
    ensures Inv(Answered(db, i, decision, now))
  {
    var next := Answered(db, i, decision, now);
    assert RowOk(db, i);
    if db.rows[i].status == Pending {
      var answers := db.answers[i := decision];
      assert GrantsOk(db.grants, answers);
      if decision == AllowTask {
        GrantingKeeps(db.grants, db.rows[i].bind.task, db.rows[i].named, i, answers);
      }
    }
    forall j: nat | j < |next.rows|
      ensures RowOk(next, j)
    {
      assert RowOk(db, j);
    }
  }

  lemma {:induction false} PathKeeps(states: seq<Db>, steps: seq<Step>, k: nat)
    requires Path(states, steps) && k <= |steps| && Inv(states[0])
    ensures Inv(states[k])
  {
    if k > 0 {
      PathKeeps(states, steps, k - 1);
      match steps[k - 1] {
        case Begin(q) =>
          BeginKeeps(states[k - 1], q);
        case End(j, ending) =>
          EndKeeps(states[k - 1], j, ending);
        case Answer(i, decision, now) =>
          AnswerKeeps(states[k - 1], i, decision, now);
      }
    }
  }

  /**
   * Main result: in every run whose calls under one row do not overlap, each row buys at most one call
   * that counts, a consumed row bought exactly one, every grant goes back to an answer for the whole task,
   * and no task holds more than 32 origins.
   */
  lemma OneApprovalOneEffect(states: seq<Db>, steps: seq<Step>, k: nat, i: nat, task: string)
    requires Run(states, steps) && k <= |steps|
    ensures var db := states[k];
            && Times(db.spent, i) <= 1
            && (i < |db.rows| && db.rows[i].status == Consumed ==> Times(db.spent, i) == 1)
            && (forall g | g in db.grants :: g.row in db.answers && db.answers[g.row] == AllowTask)
            && Count(db.grants, task) <= 32
  {
    PathKeeps(states, steps, k);
    if i < |states[k].rows| {
      assert RowOk(states[k], i);
    }
  }

  /** Once consumed, always consumed: no later step reopens or respends a row. */
  lemma ConsumedIsFinal(db: Db, step: Step, i: nat)
    requires Inv(db) && Enabled(db, step) && i < |db.rows| && db.rows[i].status == Consumed
    ensures i < |Next(db, step).rows| && Next(db, step).rows[i].status == Consumed
    ensures step.Begin? ==> Judge(db, step.q) != Go(i)
  {
    assert RowOk(db, i);
  }

  lemma {:induction false} FindIgnoresStatus(rows: seq<Row>, i: nat, row: Row, task: string, hash: string)
    requires i < |rows| && row.bind == rows[i].bind
    ensures Find(rows[i := row], task, hash) == Find(rows, task, hash)
  {
    if i < |rows| - 1 {
      FindIgnoresStatus(rows[..|rows| - 1], i, row, task, hash);
      assert rows[i := row][..|rows| - 1] == rows[..|rows| - 1][i := row];
    } else {
      assert rows[i := row][..|rows| - 1] == rows[..|rows| - 1];
    }
  }

  /**
   * A call without effect leaves its approval usable, whatever else is under way: nothing is spent, and the same
   * request goes again under the same row, until that expires.
   */
  lemma NoEffectKeepsApproval(db: Db, k: nat, ending: Ending, q: Request, later: int)
    requires Enabled(db, End(k, ending)) && !(ending.Returned? && Spends(ending.result))
    requires Judge(db, q) == Go(db.running[k]) && later < db.rows[db.running[k]].bind.expires
    ensures var ended := Ended(db, k, ending);
            && ended.rows == db.rows && ended.spent == db.spent && ended.grants == db.grants
            && Judge(ended, q.(now := later)) == Go(db.running[k])
  {
  }

  /** A call that counts spends it, whatever else is under way: the same request must ask again. */
  lemma EffectSpendsApproval(db: Db, k: nat, result: ToolResult, q: Request, later: int)
    requires Enabled(db, End(k, Returned(result))) && Spends(result) && Judge(db, q) == Go(db.running[k])
    ensures var ended := Ended(db, k, Returned(result));
            && |ended.rows| == |db.rows| && ended.rows[db.running[k]].status == Consumed
            && ended.spent == db.spent + [db.running[k]]
            && Judge(ended, q.(now := later)) == Ask
  {
    var i := db.running[k];
    var row := db.rows[i].(status := Consumed, decision := Some(Decided(db.rows[i])));
    FindIgnoresStatus(db.rows, i, row, q.bind.task, q.bind.hash);
  }

  /**
   * Overlap is what the main result excludes, and all that it must: wherever a row stands twice among the calls
   * under way, both can count.
   */
  lemma OverlapBuysTwo(db: Db, j: nat, k: nat, first: ToolResult, second: ToolResult)
    requires j < k < |db.running| && db.running[j] == db.running[k] < |db.rows|
    requires Spends(first) && Spends(second)
    ensures var i := db.running[j]; var once := Ended(db, k, Returned(first));
            && Enabled(once, End(j, Returned(second))) && once.running[j] == i
            && Times(Ended(once, j, Returned(second)).spent, i) == Times(db.spent, i) + 2
  {
    var i := db.running[j];
    var once := Ended(db, k, Returned(first));
    EndSpends(db, k, first);
    EndKeepsLength(db, k, Returned(first));
    EndSpends(once, j, second);
    TimesMore(db.spent, i, i);
    TimesMore(db.spent + [i], i, i);
  }

  lemma EndSpends(db: Db, k: nat, result: ToolResult)
    requires Enabled(db, End(k, Returned(result))) && Spends(result)
    ensures var ended := Ended(db, k, Returned(result));
            && ended.spent == db.spent + [db.running[k]]
            && ended.running == db.running[..k] + db.running[k + 1..]
  {
  }

  /** Whatever follows without a new overlap, no row buys two calls that count. */
  ghost predicate StaysSingle(db: Db) {
    forall states: seq<Db>, steps: seq<Step>, i: nat ::
      Path(states, steps) && states[0] == db ==> Times(states[|steps|].spent, i) <= 1
  }

  lemma OverlapPath(db: Db, j: nat, k: nat) returns (states: seq<Db>, steps: seq<Step>)
    requires j < k < |db.running| && db.running[j] == db.running[k] < |db.rows|
    ensures Path(states, steps) && states[0] == db && Times(states[|steps|].spent, db.running[j]) >= 2
  {
    OverlapBuysTwo(db, j, k, Done, Done);
    var first, second := End(k, Returned(Done)), End(j, Returned(Done));
    var once := Ended(db, k, Returned(Done));
    var twice := Ended(once, j, Returned(Done));
    steps := [first, second];
    states := [db, once, twice];
    assert states[0] == db && states[1] == once && states[2] == twice && steps[0] == first && steps[1] == second;
  }

  /**
   * Main result: where no row has bought more than its status says, calls under way can buy two effects under one
   * row exactly when one stands twice among them.
   */
  lemma StaysSingleIff(db: Db)
    requires RowsOk(db) && RunningInside(db) && GrantsOk(db.grants, db.answers)
    ensures StaysSingle(db) <==> NoOverlap(db)
  {
    if NoOverlap(db) {
      forall states: seq<Db>, steps: seq<Step>, i: nat | Path(states, steps) && states[0] == db
        ensures Times(states[|steps|].spent, i) <= 1
      {
        PathKeeps(states, steps, |steps|);
        assert i < |states[|steps|].rows| ==> RowOk(states[|steps|], i);
      }
    } else {
      var j, k :| 0 <= j < k < |db.running| && db.running[j] == db.running[k];
      var states, steps := OverlapPath(db, j, k);
      assert Times(states[|steps|].spent, db.running[j]) > 1;
    }
  }

  /** A call that begins under a row whose call is under way makes such an overlap. */
  lemma BeginOverlaps(db: Db, q: Request)
    requires Judge(db, q).Go? && Judge(db, q).row in db.running
    ensures var after := Began(db, q).running; var last := |after| - 1;
            exists j: nat :: j < last && after[j] == after[last] == Judge(db, q).row
  {
    var row := Judge(db, q).row;
    var j :| 0 <= j < |db.running| && db.running[j] == row;
    assert Began(db, q).running == db.running + [row];
    assert (db.running + [row])[j] == row;
  }
}
