/**
 * The durable takeover rows of the store: which row holds a computer, and that the clean-ups of finished
 * tasks and of old daemons change no answer to that question.
 */
module TakeoverRows {
  import opened Wrappers
  import opened Takeover

  datatype Row = Row(
    id: string,
    computer: string,
    task: Option<string>,
    state: State,
    createdAt: string,
    grantedTo: Option<string>)

  /** Task statuses by task id. */
  type Tasks = map<string, string>

  predicate TerminalStatus(status: string) {
    status == "completed" || status == "failed" || status == "cancelled"
  }

  predicate Open(r: Row) {
    r.state.Requested? || r.state.Human? || r.state.Validating? || r.state.Paused?
  }

  /** A person has the desktop, or had it and the lease expired. */
  predicate Held(r: Row) {
    || r.state.Human? || r.state.Validating?
    || ((r.state.Paused? || r.state.Requested?) && r.grantedTo.Some?)
  }

  predicate TaskAlive(r: Row, tasks: Tasks) {
    || Held(r) || r.task.None?
    || (r.task.value in tasks && !TerminalStatus(tasks[r.task.value]))
  }

  /** The rows the query selects, for a computer and perhaps a task. */
  predicate Selects(r: Row, tasks: Tasks, computer: string, task: Option<string>) {
    && r.computer == computer && Open(r)
    && (r.task.None? || task.None? || r.task == task || Held(r))
    && TaskAlive(r, tasks)
  }

  function Candidates(rows: seq<Row>, tasks: Tasks, computer: string, task: Option<string>): seq<Row> {
    if rows == [] then []
    else
      var last := rows[|rows| - 1];
      Candidates(rows[..|rows| - 1], tasks, computer, task)
      + if Selects(last, tasks, computer, task) then [last] else []
  }

  /** The row that holds the computer: the latest candidate, the first of equals. */
  function Active(rows: seq<Row>, tasks: Tasks, computer: string, task: Option<string>): Option<Row> {
    Latest(Candidates(rows, tasks, computer, task))
  }

  function Latest(rows: seq<Row>): Option<Row> {
    if rows == [] then None
    else
      var before := Latest(rows[..|rows| - 1]);
      var last := rows[|rows| - 1];
      if before.Some? && !Later(last.createdAt, before.value.createdAt) then before else Some(last)
  }

  predicate Later(a: string, b: string) {
    a != [] && (b == [] || a[0] > b[0] || (a[0] == b[0] && Later(a[1..], b[1..])))
  }

  /** The rows that a clean-up terminates, and the others as they were. */
  function Cleaned(rows: seq<Row>, stale: Row -> bool): seq<Row> {
    seq(|rows|, i requires 0 <= i < |rows| =>
      if stale(rows[i]) then rows[i].(state := State.Terminated) else rows[i])
  }

  predicate Stale(r: Row, tasks: Tasks) {
    Open(r) && !TaskAlive(r, tasks)
  }

  predicate Unanswered(r: Row, task: string) {
    r.task == Some(task) && !r.state.Agent? && !r.state.Terminated? && !Held(r)
  }

  /** The tables and the schema version that guards the one-time clean-up. */
  class Store {
    var rows: seq<Row>
    var tasks: Tasks
    var userVersion: nat

    constructor (rows: seq<Row>, tasks: Tasks, userVersion: nat)
      ensures this.rows == rows && this.tasks == tasks && this.userVersion == userVersion
    {
      this.rows, this.tasks, this.userVersion := rows, tasks, userVersion;
    }

    method CloseStaleTakeovers() returns (applied: bool)
      modifies this
      ensures tasks == old(tasks) && applied == (old(userVersion) < 2)
      ensures userVersion == if applied then 2 else old(userVersion)
      ensures rows == if applied then Cleaned(old(rows), (r: Row) => Stale(r, old(tasks))) else old(rows)
    {
      if userVersion >= 2 {
        return false;
      }
      var now := tasks;
      rows := Cleaned(rows, (r: Row) => Stale(r, now));
      userVersion := 2;
      return true;
    }

    method FinishTask(id: string, status: string) returns (finished: bool)
      modifies this
      ensures finished == (id in old(tasks) && !TerminalStatus(old(tasks)[id]))
      ensures tasks == if finished then old(tasks)[id := status] else old(tasks)
      ensures rows == if finished then Cleaned(old(rows), (r: Row) => Unanswered(r, id)) else old(rows)
      ensures userVersion == old(userVersion)
    {
      if id !in tasks || TerminalStatus(tasks[id]) {
        return false;
      }
      tasks := tasks[id := status];
      rows := Cleaned(rows, (r: Row) => Unanswered(r, id));
      return true;
    }
  }

  // ---------- state by state ----------

  /** The task is known and has not ended. */
  predicate Running(tasks: Tasks, id: string) {
    id in tasks && tasks[id] !in {"completed", "failed", "cancelled"}
  }

  /**
   * Whether a row of the computer answers, by its state: never when it is over, always when a person has or had the
   * desktop, and an unanswered one for its own running task or for everyone when it has none.
   */
  lemma SelectsByState(r: Row, tasks: Tasks, task: Option<string>)
    ensures Selects(r, tasks, r.computer, task) <==>
            match r.state
            case Agent | Terminated => false
            case Human | Validating => true
            case Paused | Requested =>
              r.grantedTo.Some? || r.task.None?
              || (Running(tasks, r.task.value) && (task.None? || task == r.task))
    ensures forall computer | computer != r.computer :: !Selects(r, tasks, computer, task)
  {
  }

  /** The clean-ups close the unanswered rows of tasks that ended, or of the one that ends, and no others. */
  lemma ClosedByState(r: Row, tasks: Tasks, id: string)
    ensures Stale(r, tasks) <==>
            && (r.state.Paused? || r.state.Requested?) && r.grantedTo.None?
            && r.task.Some? && !Running(tasks, r.task.value)
    ensures Unanswered(r, id) <==> (r.state.Paused? || r.state.Requested?) && r.grantedTo.None? && r.task == Some(id)
  {
  }

  /** Time stamps compare as texts: by the first character that differs, and a text after its prefixes. */
  predicate Greater(a: string, b: string) {
    exists n: nat | n < |a| && n <= |b| :: a[..n] == b[..n] && (n == |b| || a[n] > b[n])
  }

  lemma {:induction false} LaterIff(a: string, b: string)
    ensures Later(a, b) <==> Greater(a, b)
  {
    if a != [] && b != [] && a[0] == b[0] {
      LaterIff(a[1..], b[1..]);
      GreaterTail(a, b);
    } else if a != [] && (b == [] || a[0] > b[0]) {
      assert a[..0] == b[..0];
    } else if Greater(a, b) {
      var n: nat :| n < |a| && n <= |b| && a[..n] == b[..n] && (n == |b| || a[n] > b[n]);
      if n > 0 {
        HeadsAgree(a, b, n);
      }
    }
  }

  lemma HeadsAgree(a: string, b: string, n: nat)
    requires 0 < n <= |a| && n <= |b| && a[..n] == b[..n]
    ensures a[0] == b[0]
  {
    assert a[..n][0] == a[0];
  }

  lemma GreaterTail(a: string, b: string)
    requires a != [] && b != [] && a[0] == b[0]
    ensures Greater(a, b) <==> Greater(a[1..], b[1..])
  {
    if Greater(a, b) {
      var n: nat :| n < |a| && n <= |b| && a[..n] == b[..n] && (n == |b| || a[n] > b[n]);
      var m: nat := n - 1;
      assert a[1..][..m] == a[..n][1..] && b[1..][..m] == b[..n][1..];
    }
    if Greater(a[1..], b[1..]) {
      var n: nat :| n < |a[1..]| && n <= |b[1..]| && a[1..][..n] == b[1..][..n]
                    && (n == |b[1..]| || a[1..][n] > b[1..][n]);
      assert a[..n + 1] == [a[0]] + a[1..][..n] && b[..n + 1] == [b[0]] + b[1..][..n];
      assert n + 1 == |b| || a[n + 1] > b[n + 1];
    }
  }

  // ---------- the clean-ups ----------

  /** A clean-up of rows that no query selects is invisible, whichever row the query then picks. */
  lemma {:induction false} InvisibleCleanup(rows: seq<Row>, stale: Row -> bool, tasks: Tasks,
                                            computer: string, task: Option<string>)
    requires forall r | r in rows && stale(r) :: !Selects(r, tasks, computer, task)
    ensures Candidates(Cleaned(rows, stale), tasks, computer, task) == Candidates(rows, tasks, computer, task)
  {
    if rows != [] {
      var front, last := rows[..|rows| - 1], rows[|rows| - 1];
      var cleaned := Cleaned(rows, stale);
      assert cleaned[..|rows| - 1] == Cleaned(front, stale);
      InvisibleCleanup(front, stale, tasks, computer, task);
      assert last in rows;
    }
  }

  /** Main result: closing stale rows leaves every answer unchanged, for every computer and task. */
  lemma CloseStaleIsInvisible(rows: seq<Row>, tasks: Tasks, computer: string, task: Option<string>)
    ensures var closed := Cleaned(rows, (r: Row) => Stale(r, tasks));
            && Candidates(closed, tasks, computer, task) == Candidates(rows, tasks, computer, task)
            && Active(closed, tasks, computer, task) == Active(rows, tasks, computer, task)
  {
    InvisibleCleanup(rows, (r: Row) => Stale(r, tasks), tasks, computer, task);
  }

  /** It misses none: every row still open afterwards is held by a person or waits for a live task. */
  lemma CloseStaleMissesNone(rows: seq<Row>, tasks: Tasks, r: Row)
    requires r in Cleaned(rows, (r: Row) => Stale(r, tasks)) && Open(r)
    ensures r in rows && TaskAlive(r, tasks)
  {
    var closed := Cleaned(rows, (r: Row) => Stale(r, tasks));
    var i :| 0 <= i < |closed| && closed[i] == r;
    assert !Stale(rows[i], tasks) && rows[i] == r;
  }

  /** Closing twice closes nothing more. */
  lemma CloseStaleIsIdempotent(rows: seq<Row>, tasks: Tasks)
    ensures var stale := (r: Row) => Stale(r, tasks);
            Cleaned(Cleaned(rows, stale), stale) == Cleaned(rows, stale)
  {
    var stale := (r: Row) => Stale(r, tasks);
    var once := Cleaned(rows, stale);
    forall i | 0 <= i < |rows|
      ensures Cleaned(once, stale)[i] == once[i]
    {
    }
    assert Cleaned(once, stale) == once;
  }

  /**
   * Main result: when a task ends, closing its unanswered rows gives the same answers as the change of
   * status alone.
   */
  lemma FinishCleanupIsInvisible(rows: seq<Row>, tasks: Tasks, id: string, status: string,
                                 computer: string, task: Option<string>)
    requires TerminalStatus(status)
    ensures var after := tasks[id := status];
            Active(Cleaned(rows, (r: Row) => Unanswered(r, id)), after, computer, task) ==
            Active(rows, after, computer, task)
  {
    InvisibleCleanup(rows, (r: Row) => Unanswered(r, id), tasks[id := status], computer, task);
  }

  lemma {:induction false} CandidatesElements(rows: seq<Row>, tasks: Tasks, computer: string,
                                                 task: Option<string>, r: Row)
    ensures r in Candidates(rows, tasks, computer, task) <==> r in rows && Selects(r, tasks, computer, task)
  {
    if rows != [] {
      CandidatesElements(rows[..|rows| - 1], tasks, computer, task, r);
      assert rows == rows[..|rows| - 1] + [rows[|rows| - 1]];
    }
  }

  lemma {:induction false} LatestExists(rows: seq<Row>)
    ensures Latest(rows).Some? <==> rows != []
    ensures rows != [] ==> Latest(rows).value in rows
  {
    if rows != [] {
      LatestExists(rows[..|rows| - 1]);
    }
  }

  lemma {:induction false} LaterTransitive(a: string, b: string, c: string)
    requires Later(a, b) && Later(b, c)
    ensures Later(a, c) && !Later(c, a)
  {
    if c != [] && a[0] == b[0] == c[0] {
      LaterTransitive(a[1..], b[1..], c[1..]);
    }
  }

  lemma {:induction false} NotLaterThanItself(a: string)
    ensures !Later(a, a)
  {
    if a != [] {
      NotLaterThanItself(a[1..]);
    }
  }

  lemma {:induction false} LatestIsGreatest(rows: seq<Row>, r: Row)
    requires r in rows
    ensures Latest(rows).Some? && Latest(rows).value in rows && !Later(r.createdAt, Latest(rows).value.createdAt)
  {
    LatestExists(rows);
    var front, last := rows[..|rows| - 1], rows[|rows| - 1];
    NotLaterThanItself(last.createdAt);
    if r in front {
      LatestIsGreatest(front, r);
      var before := Latest(front).value.createdAt;
      if Later(last.createdAt, before) && Later(r.createdAt, last.createdAt) {
        LaterTransitive(r.createdAt, last.createdAt, before);
      }
    }
  }

  /** The answer: if any row is selected there is one, it is selected, and no selected row is later. */
  lemma ActiveIsLatest(rows: seq<Row>, tasks: Tasks, computer: string, task: Option<string>, r: Row)
    requires r in rows && Selects(r, tasks, computer, task)
    ensures var active := Active(rows, tasks, computer, task);
            && active.Some? && active.value in rows && Selects(active.value, tasks, computer, task)
            && !Later(r.createdAt, active.value.createdAt)
  {
    var found := Candidates(rows, tasks, computer, task);
    CandidatesElements(rows, tasks, computer, task, r);
    LatestIsGreatest(found, r);
    CandidatesElements(rows, tasks, computer, task, Latest(found).value);
  }

  /** Human control outlives its task: a held row still holds its computer, for every asking task. */
  lemma HeldRowOutlivesTask(rows: seq<Row>, tasks: Tasks, id: string, status: string, r: Row, task: Option<string>)
    requires r in rows && Open(r) && Held(r) && r.task == Some(id)
    ensures var after := Cleaned(rows, (x: Row) => Unanswered(x, id));
            && r in Candidates(after, tasks[id := status], r.computer, task)
            && Active(after, tasks[id := status], r.computer, task).Some?
  {
    var stale := (x: Row) => Unanswered(x, id);
    var after := Cleaned(rows, stale);
    var i :| 0 <= i < |rows| && rows[i] == r;
    assert after[i] == r;
    CandidatesElements(after, tasks[id := status], r.computer, task, r);
    LatestExists(Candidates(after, tasks[id := status], r.computer, task));
  }
}
