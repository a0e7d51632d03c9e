/** The transaction bracket: dbt's `transaction_open` flag beside the server's transaction.

    `begin`, `commit` and `release` of the base connection manager are modelled as the adapter's
    comments describe them: beginning twice and committing with nothing open raise, and releasing
    discards an open transaction. */
module Transactions {
  import opened QueryRetry

  /** One statement's lasting effect. */
  type Work = int

  /** `flag` is `dbt_sqlserver_use_dbt_transactions`; `depth` is `@@TRANCOUNT`; `pending` is the
      work of the open transaction and `durable` the work that no rollback can undo. */
  datatype State = State(flag: bool, transactionOpen: bool, depth: nat, pending: seq<Work>, durable: seq<Work>)

  // ----------------------------------------------------------------- the server

  function ServerBegin(s: State): State {
    s.(depth := s.depth + 1)
  }

  /** `IF @@TRANCOUNT > 0 COMMIT TRANSACTION`. */
  function ServerCommit(s: State): State {
    if s.depth == 0 then s
    else if s.depth == 1 then s.(depth := 0, pending := [], durable := s.durable + s.pending)
    else s.(depth := s.depth - 1)
  }

  /** `IF @@TRANCOUNT > 0 ROLLBACK TRANSACTION`, and what an error or an attention does
      under `XACT_ABORT ON`. */
  function ServerRollback(s: State): State {
    s.(depth := 0, pending := [])
  }

  function ServerWork(s: State, w: Work): State {
    if s.depth > 0 then s.(pending := s.pending + [w]) else s.(durable := s.durable + [w])
  }

  // ---------------------------------------------------------------- the adapter

  /** `retried` counts the attempts of a query that failed and were retried; `fails` says whether the last
      one failed too. */
  datatype Op =
    | Query(w: Work, autoBegin: bool, retried: nat, fails: bool)
    | Begin
    | Commit
    | CommitIfOpen
    | BeginIfClosed
    | Release

  /** A step: the next state, and whether it completed without raising. */
  datatype Step = Step(state: State, ok: bool)

  function BeginStep(s: State): Step {
    if s.transactionOpen then Step(s, false)
    else Step((if s.flag then ServerBegin(s) else s).(transactionOpen := true), true)
  }

  function CommitStep(s: State): Step {
    if !s.transactionOpen then Step(s, false)
    else Step((if s.flag then ServerCommit(s) else s).(transactionOpen := false), true)
  }

  /** Rollback through the handle, then the flag is cleared. With the flag off the handle's own
      rollback finds an autocommitted connection. */
  function ReleaseStep(s: State): State {
    ServerRollback(s).(transactionOpen := false)
  }

  /** What the attempts of one query leave at the server: each failed one has aborted the transaction. */
  function Attempted(s: State, w: Work, retried: nat, fails: bool): State {
    var before := if retried > 0 then ServerRollback(s) else s;
    if fails then ServerRollback(before) else ServerWork(before, w)
  }

  function QueryStep(s: State, w: Work, autoBegin: bool, retried: nat, fails: bool): Step {
    var begun := if autoBegin && !s.transactionOpen then BeginStep(s).state else s;
    var after := Attempted(begun, w, retried, fails);
    if fails then Step(ReleaseStep(after), false) else Step(after, true)
  }

  function Apply(s: State, op: Op): Step {
    match op
    case Query(w, autoBegin, retried, fails) => QueryStep(s, w, autoBegin, retried, fails)
    case Begin => BeginStep(s)
    case Commit => CommitStep(s)
    case CommitIfOpen => if s.transactionOpen then CommitStep(s) else Step(s, true)
    case BeginIfClosed => if s.transactionOpen then Step(s, true) else BeginStep(s)
    case Release => Step(ReleaseStep(s), true)
  }

  function Run(s: State, ops: seq<Op>): State
    decreases ops
  {
    if ops == [] then s else Run(Apply(s, ops[0]).state, ops[1..])
  }

  /** What every run keeps: the server has at most one transaction, and only when dbt knows of it. */
  predicate Sane(s: State) {
    && s.depth <= 1
    && (s.depth == 1 ==> s.flag && s.transactionOpen)
    && (s.depth == 0 ==> s.pending == [])
  }

  /** With the flag on, `transaction_open` says exactly whether the server has its one open transaction;
      with the flag off the server never has one. */
  predicate Bracketed(s: State) {
    Sane(s) && (s.flag && s.transactionOpen ==> s.depth == 1)
  }

  /** A query that succeeds on a retry inside a transaction: the failed attempt has ended it. */
  predicate LosesTransaction(s: State, op: Op) {
    op.Query? && op.retried > 0 && !op.fails && s.flag && (s.transactionOpen || op.autoBegin)
  }

  lemma {:induction false} SaneKept(s: State, ops: seq<Op>)
    requires Sane(s)
    ensures Sane(Run(s, ops)) && Run(s, ops).flag == s.flag
    decreases ops
  {
    if ops != [] {
      SaneKept(Apply(s, ops[0]).state, ops[1..]);
    }
  }

  lemma BracketStep(s: State, op: Op)
    requires Bracketed(s)
    ensures Bracketed(Apply(s, op).state) <==> !LosesTransaction(s, op)
    ensures Apply(s, op).state.flag == s.flag
  {
  }

  /** The bracket holds in every state of a run. */
  predicate AlwaysBracketed(s: State, ops: seq<Op>)
    decreases ops
  {
    Bracketed(s) && (ops != [] ==> AlwaysBracketed(Apply(s, ops[0]).state, ops[1..]))
  }

  /** No query of a run loses its transaction. */
  predicate NeverLoses(s: State, ops: seq<Op>)
    decreases ops
  {
    ops != [] ==> !LosesTransaction(s, ops[0]) && NeverLoses(Apply(s, ops[0]).state, ops[1..])
  }

  /** The bracket holds throughout a run exactly when no query of it succeeds on a retry inside a
      transaction. */
  lemma {:induction false} BracketKept(s: State, ops: seq<Op>)
    requires Bracketed(s)
    ensures AlwaysBracketed(s, ops) <==> NeverLoses(s, ops)
    ensures NeverLoses(s, ops) ==> Bracketed(Run(s, ops))
    decreases ops
  {
    hide Apply, Bracketed, LosesTransaction;
    if ops != [] {
      BracketStep(s, ops[0]);
      if !LosesTransaction(s, ops[0]) {
        BracketKept(Apply(s, ops[0]).state, ops[1..]);
      } else {
        NotBracketed(Apply(s, ops[0]).state, ops[1..]);
      }
    }
  }

  lemma NotBracketed(s: State, ops: seq<Op>)
    requires !Bracketed(s)
    ensures !AlwaysBracketed(s, ops)
  {
  }

  /** The state after one `add_query`, as its driver answers. */
  function AfterQuery(s: State, r: Request, adbc: bool, driver: nat -> Outcome, retries: int, w: Work, autoBegin: bool): State {
    var report := Execute(r, adbc, driver, retries, 1);
    Apply(s, Query(w, autoBegin, if |report.sent| > 0 then |report.sent| - 1 else 0, report.outcome != Success)).state
  }

  /** Retried once, then successful. */
  function SecondTime(attempt: nat): Outcome {
    if attempt == 1 then RetryableError else Success
  }

  /** A call keeps the bracket, whatever the driver answers, exactly when it allows one attempt only, or the
      flag is off, or it neither finds nor begins a transaction. */
  lemma QueryBracketSafeIff(s: State, r: Request, adbc: bool, retries: int, w: Work, autoBegin: bool)
    requires Bracketed(s)
    ensures (forall driver: nat -> Outcome :: Bracketed(AfterQuery(s, r, adbc, driver, retries, w, autoBegin)))
            <==> retries <= 1 || !s.flag || (!s.transactionOpen && !autoBegin)
  {
    hide Bracketed, Apply, Prepared, LosesTransaction;
    forall driver: nat -> Outcome
      ensures Bracketed(AfterQuery(s, r, adbc, driver, retries, w, autoBegin))
              <==> !LosesTransaction(s, Query(w, autoBegin, |Execute(r, adbc, driver, retries, 1).sent| - 1,
                                              Execute(r, adbc, driver, retries, 1).outcome != Success))
      ensures 1 <= |Execute(r, adbc, driver, retries, 1).sent| <= (if retries <= 1 then 1 else retries)
    {
      AttemptsBounded(r, adbc, driver, retries, 1);
      BracketStep(s, Query(w, autoBegin, |Execute(r, adbc, driver, retries, 1).sent| - 1,
                           Execute(r, adbc, driver, retries, 1).outcome != Success));
    }
    if retries > 1 && s.flag && (s.transactionOpen || autoBegin) {
      SecondTimeSucceeds(r, adbc, retries);
      LosesIff(s, Query(w, autoBegin, 1, false));
      assert !Bracketed(AfterQuery(s, r, adbc, SecondTime, retries, w, autoBegin));
    } else {
      forall driver: nat -> Outcome ensures Bracketed(AfterQuery(s, r, adbc, driver, retries, w, autoBegin)) {
        LosesIff(s, Query(w, autoBegin, |Execute(r, adbc, driver, retries, 1).sent| - 1,
                          Execute(r, adbc, driver, retries, 1).outcome != Success));
      }
    }
  }

  lemma LosesIff(s: State, op: Op)
    ensures LosesTransaction(s, op) <==>
            op.Query? && op.retried > 0 && !op.fails && s.flag && (s.transactionOpen || op.autoBegin)
  {
  }

  lemma SecondTimeSucceeds(r: Request, adbc: bool, retries: int)
    requires retries > 1
    ensures var report := Execute(r, adbc, SecondTime, retries, 1);
            |report.sent| == 2 && report.outcome == Success
  {
    hide Prepared;
    var p := Prepared(r, adbc);
    assert Execute(p, adbc, SecondTime, retries, 2) == Report([Prepared(p, adbc)], Success);
  }

  /** The runs possible when each query may be attempted `retries` times. */
  predicate Within(ops: seq<Op>, retries: int) {
    forall i :: 0 <= i < |ops| && ops[i].Query? ==> ops[i].retried == 0 || ops[i].retried < retries
  }

  /** Every possible run keeps the bracket throughout exactly when the profile allows one attempt only, or
      the flag is off. */
  lemma RunsBracketSafeIff(s: State, retries: int)
    requires Bracketed(s)
    ensures (forall ops :: Within(ops, retries) ==> AlwaysBracketed(s, ops)) <==> retries <= 1 || !s.flag
  {
    hide Bracketed, Apply;
    if retries <= 1 || !s.flag {
      forall ops | Within(ops, retries) ensures AlwaysBracketed(s, ops) {
        SafeRun(s, ops, retries);
        BracketKept(s, ops);
      }
    } else {
      var ops := [Query(0, true, 1, false)];
      assert Within(ops, retries);
      BracketKept(s, ops);
      assert !NeverLoses(s, ops);
    }
  }

  lemma {:induction false} SafeRun(s: State, ops: seq<Op>, retries: int)
    requires Within(ops, retries) && (retries <= 1 || !s.flag)
    ensures NeverLoses(s, ops)
    decreases ops
  {
    if ops != [] {
      assert Within(ops[1..], retries);
      SafeRun(Apply(s, ops[0]).state, ops[1..], retries);
    }
  }

  /** What such a retry does: the statement is durable at once, the work before it is gone, and the
      trailing commit succeeds all the same. */
  lemma RetryLosesEarlierWork(s: State, op: Op)
    requires Bracketed(s) && LosesTransaction(s, op)
    ensures var t := Apply(s, op).state;
            && t.transactionOpen && t.depth == 0 && t.durable == s.durable + [op.w]
            && Apply(t, Commit).ok && Apply(t, Commit).state.durable == s.durable + [op.w]
    ensures Apply(Apply(s, op).state, Commit).state.durable == s.durable + s.pending + [op.w] <==> s.pending == []
  {
    var x, y := s.durable + [op.w], s.durable + s.pending + [op.w];
    assert |y| == |x| + |s.pending|;
    assert s.pending == [] ==> s.durable + s.pending == s.durable;
  }

  /** Durable work is never lost. */
  lemma {:induction false} DurableGrows(s: State, ops: seq<Op>)
    ensures s.durable <= Run(s, ops).durable
    decreases ops
  {
    if ops != [] {
      var t := Apply(s, ops[0]).state;
      assert s.durable <= t.durable;
      DurableGrows(t, ops[1..]);
    }
  }

  /** Work done before `commit_if_open` survives whatever follows, failures and rollbacks included. */
  lemma CommittedWorkSurvives(s: State, before: seq<Op>, after: seq<Op>)
    requires Sane(s)
    ensures var reached := Run(s, before);
            var t := Apply(reached, CommitIfOpen);
            && t.ok && !t.state.transactionOpen && t.state.pending == []
            && reached.durable + reached.pending <= Run(t.state, after).durable
  {
    SaneKept(s, before);
    DurableGrows(Apply(Run(s, before), CommitIfOpen).state, after);
    assert Run(s, before).durable + [] == Run(s, before).durable;
  }

  predicate Succeeds(op: Op) {
    op.BeginIfClosed? || (op.Query? && op.retried == 0 && !op.fails)
  }

  /** A statement that succeeds inside an open transaction only adds its work to it. */
  lemma SuccessAdds(s: State, op: Op)
    requires Bracketed(s) && s.transactionOpen && Succeeds(op)
    ensures var t := Apply(s, op).state;
            && Bracketed(t) && t.transactionOpen && t.flag == s.flag
            && (s.flag ==> t.durable == s.durable
                           && t.pending == s.pending + (if op.Query? then [op.w] else []))
  {
  }

  lemma {:induction false} OpenTransactionCollects(s: State, ops: seq<Op>)
    requires Bracketed(s) && s.transactionOpen
    requires forall i :: 0 <= i < |ops| ==> Succeeds(ops[i])
    ensures var t := Run(s, ops);
            && Bracketed(t) && t.transactionOpen && t.flag == s.flag
            && (s.flag ==> t.durable == s.durable && t.pending == s.pending + WorkOf(ops))
    decreases ops
  {
    hide Apply, Bracketed;
    if ops != [] {
      SuccessAdds(s, ops[0]);
      OpenTransactionCollects(Apply(s, ops[0]).state, ops[1..]);
      Reassociate(s.pending, if ops[0].Query? then [ops[0].w] else [], WorkOf(ops[1..]));
    }
  }

  lemma Reassociate(x: seq<Work>, y: seq<Work>, z: seq<Work>)
    ensures (x + y) + z == x + (y + z)
  {
  }

  /** After `begin_if_closed` the trailing commit finds a transaction open, whatever statements
      ran in between, and commits exactly their work. */
  lemma TrailingCommitFindsOne(s: State, ops: seq<Op>)
    requires Bracketed(s) && s.transactionOpen
    requires forall i :: 0 <= i < |ops| ==> Succeeds(ops[i])
    ensures Run(s, ops).transactionOpen && Apply(Run(s, ops), Commit).ok
    ensures s.flag ==> Apply(Run(s, ops), Commit).state.durable
                       == s.durable + s.pending + WorkOf(ops)
  {
    hide Run, WorkOf;
    OpenTransactionCollects(s, ops);
    Reassociate(s.durable, s.pending, WorkOf(ops));
  }

  function WorkOf(ops: seq<Op>): seq<Work>
    decreases ops
  {
    if ops == [] then []
    else (if ops[0].Query? && !ops[0].fails then [ops[0].w] else []) + WorkOf(ops[1..])
  }

  // --------------------------------------------------------------- attentions

  /** An attention reaches the server: the transaction is rolled back, and the adapter is not told. */
  function Attention(s: State): State {
    ServerRollback(s)
  }

  /** The bracket survives an attention exactly when no transaction was open. */
  lemma AttentionBreaksBracket(s: State)
    requires Bracketed(s)
    ensures Bracketed(Attention(s)) <==> s.depth == 0
    ensures s.depth == 0 ==> Attention(s) == s
  {
  }

  /** After an attention inside a transaction the trailing commit succeeds, and the work is gone. */
  lemma AttentionLosesWorkSilently(s: State)
    requires Bracketed(s) && s.depth == 1 && s.pending != []
    ensures var t := Apply(Attention(s), Commit);
            t.ok && t.state.durable == s.durable && t.state.durable != s.durable + s.pending
  {
  }

  // ------------------------------------------------------------ queries that only read

  function AfterSelect(s: State, raises: bool): State {
    if raises then ReleaseStep(s) else s
  }

  /** A raising select leaves what any failing query without auto-begin leaves. */
  lemma RaisingSelectIsFailingQuery(s: State, w: Work, retried: nat)
    ensures AfterSelect(s, true) == Apply(s, Query(w, false, retried, true)).state
  {
  }

  /** A select changes nothing exactly when it does not raise or nothing was open. */
  lemma SelectSurvivedIff(s: State, raises: bool)
    requires Sane(s)
    ensures AfterSelect(s, raises) == s <==> !raises || !s.transactionOpen
  {
  }

  /** Behind a select that raised inside a transaction, work done before is gone for good, the trailing
      commit raises, and what runs without auto-begin is durable on its own. */
  lemma RaisedSelectLosesWork(s: State, later: seq<Work>)
    requires Bracketed(s) && s.flag && s.transactionOpen
    ensures var t := AfterSelect(s, true);
            && !t.transactionOpen && t.pending == [] && t.durable == s.durable
            && !Apply(t, Commit).ok
            && Run(t, Reruns(later)).durable == s.durable + later
            && (Run(t, Reruns(later)).durable == s.durable + s.pending + later <==> s.pending == [])
  {
    hide Run, Reruns;
    RerunsAreDurable(AfterSelect(s, true), later);
    var x, y := s.durable + later, s.durable + s.pending + later;
    assert |y| == |x| + |s.pending|;
    assert s.pending == [] ==> s.durable + s.pending == s.durable;
  }

  /** Statements that succeed at once, without auto-begin. */
  function Reruns(works: seq<Work>): seq<Op> {
    if works == [] then [] else [Query(works[0], false, 0, false)] + Reruns(works[1..])
  }

  lemma {:induction false} RerunsAreDurable(s: State, works: seq<Work>)
    requires Bracketed(s) && !s.transactionOpen
    ensures Run(s, Reruns(works)).durable == s.durable + works
    decreases works
  {
    hide Apply, Bracketed;
    if works == [] {
      assert s.durable + [] == s.durable;
    } else {
      OutsideTransaction(s, works[0], 0, false);
      RerunsAreDurable(Apply(s, Query(works[0], false, 0, false)).state, works[1..]);
      Reassociate(s.durable, [works[0]], works[1..]);
      assert [works[0]] + works[1..] == works;
    }
  }

  // ------------------------------------------------------- the connection object

  /** The connection manager's side of one thread's connection. */
  class Connection {
    var state: State

    constructor (flag: bool)
      ensures state == State(flag, false, 0, [], []) && Bracketed(state)
    {
      state := State(flag, false, 0, [], []);
    }

    /** `begin` with `add_begin_query`. */
    method DoBegin() returns (ok: bool)
      modifies this
      ensures Step(state, ok) == Apply(old(state), Begin)
      ensures ok <==> !old(state).transactionOpen
      ensures state.transactionOpen && state.durable == old(state).durable && state.pending == old(state).pending
      ensures old(Bracketed(state)) ==> Bracketed(state) && (state.flag ==> state.depth == 1)
    {
      if state.transactionOpen {
        return false;
      }
      if state.flag {
        state := ServerBegin(state);
      }
      state := state.(transactionOpen := true);
      ok := true;
    }

    /** `commit` with `add_commit_query`. */
    method DoCommit() returns (ok: bool)
      modifies this
      ensures Step(state, ok) == Apply(old(state), Commit)
      ensures ok <==> old(state).transactionOpen
      ensures !state.transactionOpen
      ensures old(Bracketed(state)) ==>
                && Bracketed(state) && state.pending == []
                && state.durable == old(state).durable + old(state).pending
    {
      assert old(state).durable + [] == old(state).durable;
      if !state.transactionOpen {
        return false;
      }
      if state.flag {
        state := ServerCommit(state);
      }
      state := state.(transactionOpen := false);
      ok := true;
    }

    /** `commit_if_open`: afterwards nothing is open and all work so far is durable. */
    method DoCommitIfOpen() returns (ok: bool)
      modifies this
      ensures ok && Step(state, ok) == Apply(old(state), CommitIfOpen) && state.flag == old(state).flag
      ensures !state.transactionOpen
      ensures old(Bracketed(state)) ==>
                && Bracketed(state) && state.pending == []
                && state.durable == old(state).durable + old(state).pending
    {
      assert old(state).durable + [] == old(state).durable;
      ok := true;
      if state.transactionOpen {
        ok := DoCommit();
      }
    }

    /** `begin_if_closed`: afterwards one is open, and no work has moved. */
    method DoBeginIfClosed() returns (ok: bool)
      modifies this
      ensures ok && Step(state, ok) == Apply(old(state), BeginIfClosed) && state.flag == old(state).flag
      ensures state.transactionOpen && state.durable == old(state).durable && state.pending == old(state).pending
      ensures old(Bracketed(state)) ==> Bracketed(state)
    {
      ok := true;
      if !state.transactionOpen {
        ok := DoBegin();
      }
    }

    /** `release` with `_rollback_handle`. */
    method DoRelease()
      modifies this
      ensures Step(state, true) == Apply(old(state), Release)
    {
      state := ServerRollback(state);
      state := state.(transactionOpen := false);
    }

    /** `_execute_query_with_retry` as the server sees it: the recursion makes the attempts that `Execute`
        reports, and only the last one can leave work. */
    method ExecuteWithRetry(r: Request, adbc: bool, driver: nat -> Outcome, retryLimit: int, attempt: nat, w: Work)
      returns (ok: bool)
      modifies this
      ensures var report := Execute(r, adbc, driver, retryLimit, attempt);
              && |report.sent| >= 1 && (ok <==> report.outcome == Success)
              && state == Attempted(old(state), w, |report.sent| - 1, !ok)
      decreases retryLimit - attempt
    {
      hide Prepared;
      match driver(attempt) {
        case Success =>
          state := ServerWork(state, w);
          ok := true;
        case OtherError =>
          state := ServerRollback(state);
          ok := false;
        case RetryableError =>
          state := ServerRollback(state);
          if attempt >= retryLimit {
            return false;
          }
          ok := ExecuteWithRetry(Prepared(r, adbc), adbc, driver, retryLimit, attempt + 1, w);
      }
    }

    /** `add_query`: auto-begin, execute with retries, and on a failure release and raise. It breaks the
        bracket exactly when it succeeds on a retry inside a transaction. */
    method AddQuery(r: Request, adbc: bool, driver: nat -> Outcome, retries: int, w: Work, autoBegin: bool)
      returns (ok: bool)
      modifies this
      ensures var report := Execute(r, adbc, driver, retries, 1);
              && |report.sent| >= 1 && (ok <==> report.outcome == Success)
              && Step(state, ok) == Apply(old(state), Query(w, autoBegin, |report.sent| - 1, !ok))
              && state == AfterQuery(old(state), r, adbc, driver, retries, w, autoBegin)
              && (old(Bracketed(state)) ==>
                    (Bracketed(state) <==> !(ok && |report.sent| > 1 && old(state).flag
                                             && (old(state).transactionOpen || autoBegin))))
      ensures !ok ==> !state.transactionOpen && state.depth == 0 && state.durable == old(state).durable
    {
      hide Execute;
      ghost var start := state;
      if autoBegin && !state.transactionOpen {
        var _ := DoBegin();
      }
      ok := ExecuteWithRetry(r, adbc, driver, retries, 1, w);
      if !ok {
        DoRelease();
      }
      ghost var op := Query(w, autoBegin, |Execute(r, adbc, driver, retries, 1).sent| - 1, !ok);
      if Bracketed(start) {
        BracketStep(start, op);
      }
    }

    /** `add_select_query`: a query without auto-begin whose success leaves no work behind. One that raises
        is a failing `add_query`: the connection is released and its transaction is gone. */
    method AddSelectQuery(raises: bool) returns (ok: bool)
      modifies this
      ensures ok <==> !raises
      ensures state == AfterSelect(old(state), raises)
    {
      if raises {
        state := ServerRollback(state);
        DoRelease();
      }
      ok := !raises;
    }

    /** `sqlserver__create_indexes_no_txn`: every build runs outside any transaction and is durable on its
        own, however often it is retried; earlier work is committed first, and a transaction is open
        afterwards. When a build fails, those before it stay, and nothing is left open. */
    method CreateIndexesNoTxn(builds: seq<Build>, adbc: bool, retries: int) returns (ok: bool)
      requires Bracketed(state)
      modifies this
      ensures Bracketed(state) && state.flag == old(state).flag
      ensures builds == [] ==> ok && state == old(state)
      ensures builds != [] ==> state.pending == [] && (ok <==> state.transactionOpen)
      ensures builds != [] && ok ==> state.durable == old(state).durable + old(state).pending + WorksOf(builds)
      ensures !ok ==> exists j :: 0 <= j < |builds|
                        && state.durable == old(state).durable + old(state).pending + WorksOf(builds[..j])
    {
      hide Execute, Apply;
      ok := true;
      if builds != [] {
        ok := DoCommitIfOpen();
        ghost var flushed := state.durable;
        for i := 0 to |builds|
          invariant ok && Bracketed(state) && !state.transactionOpen && state.flag == old(state).flag
          invariant state.depth == 0 && state.durable == flushed + WorksOf(builds[..i])
        {
          assert WorksOf(builds[..i + 1]) == WorksOf(builds[..i]) + [builds[i].work];
          ghost var before := state;
          ok := AddQuery(builds[i].request, adbc, builds[i].driver, retries, builds[i].work, false);
          ghost var sent := Execute(builds[i].request, adbc, builds[i].driver, retries, 1).sent;
          OutsideTransaction(before, builds[i].work, |sent| - 1, !ok);
          if !ok {
            return;
          }
        }
        assert builds[..|builds|] == builds;
        ok := DoBeginIfClosed();
      }
    }
  }

  /** A build with its query and how the driver answers its attempts. */
  datatype Build = Build(work: Work, request: Request, driver: nat -> Outcome)

  function WorksOf(builds: seq<Build>): seq<Work> {
    seq(|builds|, i requires 0 <= i < |builds| => builds[i].work)
  }

  lemma OutsideTransaction(s: State, w: Work, retried: nat, fails: bool)
    requires Bracketed(s) && !s.transactionOpen
    ensures var t := Apply(s, Query(w, false, retried, fails)).state;
            && Bracketed(t) && !t.transactionOpen && t.depth == 0 && t.flag == s.flag && t.pending == []
            && t.durable == if fails then s.durable else s.durable + [w]
  {
  }
}
