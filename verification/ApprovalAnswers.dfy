/**
 * What an answer does: to its row at once, and to the task for as long as the run goes on; and what a call is told
 * in every state of the row it finds.
 */
module ApprovalAnswers {
  import opened Wrappers
  import opened Approvals

  // ---------- answers ----------

  /** The other fields of a row never change. */
  predicate SameAsk(a: Row, b: Row) {
    a.bind == b.bind && a.named == b.named && a.used == b.used
  }

  /** A pending row takes its answer until it expires, and grants only what was named and for the whole task. */
  lemma AnswerIs(db: Db, i: nat, decision: Decision, now: int, origin: string)
    requires i < |db.rows| && db.rows[i].status == Pending && now < db.rows[i].bind.expires
    ensures var row := db.rows[i]; var after := Answered(db, i, decision, now);
            && |after.rows| == |db.rows| && SameAsk(after.rows[i], row) && after.rows[i].decision == Some(decision)
            && (forall j: nat | j < |db.rows| && j != i :: after.rows[j] == db.rows[j])
            && (decision == AllowOnce || decision == AllowTask <==> after.rows[i].status == Approved)
            && (decision == Deny <==> after.rows[i].status == Denied)
            && (decision == Kill <==> after.rows[i].status == Killed)
            && (decision != AllowTask ==> after.grants == db.grants)
            && (decision == AllowTask && origin in row.named && origin != "" ==>
                  Has(after.grants, row.bind.task, origin) || Count(after.grants, row.bind.task) >= 32)
            && after.running == db.running && after.spent == db.spent
  {
    GrantedOrigins(db.grants, db.rows[i].bind.task, db.rows[i].named, i, origin);
  }

  /** A late answer only marks the row expired; one to a row that is not pending changes nothing. */
  lemma LateAnswerIs(db: Db, i: nat, decision: Decision, now: int)
    requires i < |db.rows| && (db.rows[i].status != Pending || db.rows[i].bind.expires <= now)
    ensures var row := db.rows[i]; var after := Answered(db, i, decision, now);
            if row.status == Pending
            then after == db.(rows := db.rows[i := Row(row.bind, row.named, row.used, Expired, None)])
            else after == db
  {
  }

  // ---------- what a call is told ----------

  /** The row is for this very action of this task, in this epoch and at this origin. */
  predicate Bound(row: Row, q: Request) {
    row.bind == q.bind.(expires := row.bind.expires)
  }

  /** The latest row for the action, if it is bound to the call and neither expired nor consumed. */
  predicate Standing(db: Db, q: Request, i: nat) {
    && LatestFor(db.rows, i, q.bind.task, q.bind.hash)
    && db.rows[i].status in {Pending, Approved, Denied, Killed} && Bound(db.rows[i], q)
  }

  lemma VerdictIs(db: Db, q: Request, i: nat)
    ensures Judge(db, q) == Expire(i) <==> Standing(db, q, i) && db.rows[i].bind.expires <= q.now
    ensures Judge(db, q) == Wait(i) <==>
              Standing(db, q, i) && q.now < db.rows[i].bind.expires && db.rows[i].status == Pending
    ensures Judge(db, q) == Reject(i) <==>
              Standing(db, q, i) && q.now < db.rows[i].bind.expires && db.rows[i].status in {Denied, Killed}
    ensures Judge(db, q) == Go(i) <==>
              Standing(db, q, i) && q.now < db.rows[i].bind.expires && db.rows[i].status == Approved
    ensures Judge(db, q) == Ask ==> !Standing(db, q, i)
  {
    FindIsLatest(db.rows, q.bind.task, q.bind.hash, i);
  }

  /** What the call then does: it asks with a pending row of its own, or lets one expire, or goes on. */
  lemma BeginIs(db: Db, q: Request, origin: string)
    ensures match Judge(db, q)
            case Ask => Began(db, q) == db.(rows := db.rows + [Row(q.bind, q.named, q.used, Pending, None)])
            case Expire(i) =>
              var row := db.rows[i];
              Began(db, q) == db.(rows := db.rows[i := Row(row.bind, row.named, row.used, Expired, None)])
            case Wait(_) => Began(db, q) == db
            case Reject(_) => Began(db, q) == db
            case Go(i) =>
              var row := db.rows[i]; var after := Began(db, q);
              && after.rows == db.rows && after.running == db.running + [i] && after.spent == db.spent
              && (row.decision != Some(AllowTask) ==> after.grants == db.grants)
              && (row.decision == Some(AllowTask) && origin in row.used && origin != "" ==>
                    Has(after.grants, row.bind.task, origin) || Count(after.grants, row.bind.task) >= 32)
  {
    if Judge(db, q).Go? {
      var row := db.rows[Judge(db, q).row];
      GrantedOrigins(db.grants, row.bind.task, row.used, Judge(db, q).row, origin);
    }
  }

  /** Five failures may have had an effect, and spend the approval as a success does; the other seven do not. */
  lemma UncertainSpends(db: Db, k: nat, code: Code)
    requires Enabled(db, End(k, Returned(Error(code)))) && db.rows[db.running[k]].status == Approved
    ensures var row := Ended(db, k, Returned(Error(code))).rows[db.running[k]];
            match code
            case E_SPEND_CAP | E_TIMEOUT | E_TAKEOVER_EXPIRED | E_IO | E_LIMIT =>
              var given := db.rows[db.running[k]].decision;
              row.status == Consumed && row.decision == if given == None then Some(AllowOnce) else given
            case _ => row.status == Approved
  {
  }

  /** Consuming is for a row in the expected status only, and grants what it is told to, or fills the task. */
  lemma ConsumeIs(db: Db, i: nat, expected: Status, task: string, origins: seq<string>, decision: Decision,
                  origin: string)
    requires i < |db.rows|
    ensures var row := db.rows[i]; var after := ConsumedAs(db, i, expected, task, origins, decision);
            && (row.status != expected ==> after == db)
            && (row.status == expected ==>
                  && after.rows == db.rows[i := Row(row.bind, row.named, row.used, Consumed, Some(decision))]
                  && (origin in origins && origin != "" ==>
                        Has(after.grants, task, origin) || Count(after.grants, task) >= 32)
                  && after.running == db.running && after.spent == db.spent && after.answers == db.answers)
  {
    GrantedOrigins(db.grants, task, origins, i, origin);
  }

  /** The count that the limit is about is the number of the task's grants. */
  lemma {:induction false} CountIsSize(grants: seq<Grant>, task: string)
    ensures Count(grants, task) == |set k | 0 <= k < |grants| && grants[k].task == task|
  {
    if grants != [] {
      var n := |grants| - 1;
      CountIsSize(grants[..n], task);
      var before := set k | 0 <= k < |grants[..n]| && grants[..n][k].task == task;
      var all := set k | 0 <= k < |grants| && grants[k].task == task;
      assert all == before + if grants[n].task == task then {n} else {};
    }
  }

  // ---------- over a whole run ----------

  /** Every grant names an origin of the row it came from, for the task of that row. */
  ghost predicate Sourced(db: Db) {
    forall k | 0 <= k < |db.grants| :: FromRow(db, db.grants[k])
  }

  predicate FromRow(db: Db, g: Grant) {
    && g.row < |db.rows| && g.task == db.rows[g.row].bind.task && g.origin != ""
    && (g.origin in db.rows[g.row].named || g.origin in db.rows[g.row].used)
  }

  /** Rows keep what they asked for, and grants stay. */
  ghost predicate Extends(a: Db, b: Db) {
    && |a.rows| <= |b.rows| && (forall i: nat | i < |a.rows| :: SameAsk(a.rows[i], b.rows[i]))
    && a.grants <= b.grants
  }

  lemma {:induction false} NewGrants(grants: seq<Grant>, task: string, origins: seq<string>, row: nat)
    ensures var all := Granted(grants, task, origins, row);
            && grants <= all
            && forall k | |grants| <= k < |all| ::
                 all[k].task == task && all[k].row == row && all[k].origin in origins && all[k].origin != ""
    decreases |origins|
  {
    if origins != [] {
      NewGrants(grants, task, origins[1..], row);
      NewGrants(grants + [Grant(task, origins[0], row)], task, origins[1..], row);
    }
  }

  lemma BeginExtends(db: Db, q: Request)
    requires Enabled(db, Begin(q))
    ensures Extends(db, Began(db, q)) && (Sourced(db) ==> Sourced(Began(db, q)))
  {
    var v := Judge(db, q);
    if v.Go? {
      NewGrants(db.grants, db.rows[v.row].bind.task, Remembered(db.rows[v.row]), v.row);
    }
  }

  lemma EndExtends(db: Db, k: nat, ending: Ending)
    requires Enabled(db, End(k, ending))
    ensures Extends(db, Ended(db, k, ending)) && (Sourced(db) ==> Sourced(Ended(db, k, ending)))
  {
    var row := db.rows[db.running[k]];
    NewGrants(db.grants, row.bind.task, Remembered(row), db.running[k]);
  }

  lemma AnswerExtends(db: Db, i: nat, decision: Decision, now: int)
    requires i < |db.rows|
    ensures Extends(db, Answered(db, i, decision, now)) && (Sourced(db) ==> Sourced(Answered(db, i, decision, now)))
  {
    NewGrants(db.grants, db.rows[i].bind.task, db.rows[i].named, i);
  }

  lemma StepExtends(db: Db, step: Step)
    requires Enabled(db, step)
    ensures Extends(db, Next(db, step)) && (Sourced(db) ==> Sourced(Next(db, step)))
  {
    match step
    case Begin(q) =>
      BeginExtends(db, q);
    case End(k, ending) =>
      EndExtends(db, k, ending);
    case Answer(i, decision, now) =>
      AnswerExtends(db, i, decision, now);
  }

  lemma {:induction false} RunExtends(states: seq<Db>, steps: seq<Step>, j: nat, k: nat)
    requires Run(states, steps) && j <= k <= |steps|
    ensures Extends(states[j], states[k]) && Sourced(states[k])
    decreases k
  {
    if k > 0 {
      RunExtends(states, steps, if j < k then j else k - 1, k - 1);
      StepExtends(states[k - 1], steps[k - 1]);
    }
  }

  lemma {:induction false} CountGrows(a: seq<Grant>, b: seq<Grant>, task: string)
    requires a <= b
    ensures Count(a, task) <= Count(b, task)
    decreases |b|
  {
    if |a| < |b| {
      CountGrows(a, b[..|b| - 1], task);
    } else {
      assert a == b;
    }
  }

  /**
   * Main result: an answer for the whole task, given in time, grants every origin it names for the rest of the run,
   * unless the task is full; and every grant is of an origin that its row named or used, for the task of that row.
   */
  lemma AllowedStays(states: seq<Db>, steps: seq<Step>, j: nat, k: nat, i: nat, now: int, origin: string)
    requires Run(states, steps) && j < k <= |steps| && i < |states[j].rows|
    requires steps[j] == Answer(i, AllowTask, now)
    requires states[j].rows[i].status == Pending && now < states[j].rows[i].bind.expires
    ensures var row := states[j].rows[i];
            origin in row.named && origin != "" ==>
              Has(states[k].grants, row.bind.task, origin) || Count(states[k].grants, row.bind.task) >= 32
    ensures forall n | 0 <= n < |states[k].grants| :: FromRow(states[k], states[k].grants[n])
  {
    var row, after := states[j].rows[i], states[j + 1];
    RunExtends(states, steps, j + 1, k);
    AnswerIs(states[j], i, AllowTask, now, origin);
    CountGrows(after.grants, states[k].grants, row.bind.task);
    if Has(after.grants, row.bind.task, origin) {
      var n :| 0 <= n < |after.grants| && after.grants[n].task == row.bind.task && after.grants[n].origin == origin;
      assert states[k].grants[n] == after.grants[n];
    }
  }
}
