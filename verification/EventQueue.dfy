/**
 * The asynchronous event queue (internal/storage/sqlite.go): any number of producers,
 * a channel of 500 records, one worker, and a Close that drains. Every atomic
 * operation is an action, so a run is any interleaving of them.
 */
module EventQueue {
  import opened Common

  const CAPACITY: nat := 500

  /** An insert whose error the worker ignores is a row that is not `stored`. */
  datatype Row<R> = Row(record: R, stored: bool)

  datatype State<R> = State(
    queue: seq<R>,          // the buffered channel
    inFlight: Option<R>,    // received by the worker, not yet inserted
    rows: seq<Row<R>>,      // inserts attempted
    accepted: seq<R>,
    dropped: seq<R>,
    closed: bool,           // close(saveCh) has happened
    done: bool,             // the worker has closed `done`
    returned: bool,         // Close has returned
    panicked: bool)         // a send hit the closed channel

  datatype Action<R> =
    | Save(record: R)       // the non-blocking send of `save`
    | Receive               // the worker receives the head of the channel
    | Insert(ok: bool)      // the worker's insert
    | CloseChannel          // the first Close, inside closeOnce
    | Exit                  // the worker's range loop ends
    | CloseReturns          // Close has seen `done`

  function Initial<R>(): State<R> {
    State([], None, [], [], [], false, false, false, false)
  }

  predicate Enabled<R>(s: State<R>, a: Action<R>) {
    && !s.panicked
    && match a
       case Save(_) => true
       case Receive => !s.done && s.inFlight.None? && s.queue != []
       case Insert(_) => s.inFlight.Some?
       case CloseChannel => !s.closed
       case Exit => s.closed && !s.done && s.inFlight.None? && s.queue == []
       case CloseReturns => s.done && !s.returned
  }

  function Apply<R>(s: State<R>, a: Action<R>): State<R>
    requires Enabled(s, a)
  {
    match a
    case Save(r) =>
      if s.closed then s.(panicked := true)
      else if |s.queue| < CAPACITY then s.(queue := s.queue + [r], accepted := s.accepted + [r])
      else s.(dropped := s.dropped + [r])
    case Receive => s.(queue := s.queue[1..], inFlight := Some(s.queue[0]))
    case Insert(ok) => s.(rows := s.rows + [Row(s.inFlight.value, ok)], inFlight := None)
    case CloseChannel => s.(closed := true)
    case Exit => s.(done := true)
    case CloseReturns => s.(returned := true)
  }

  ghost predicate IsRun<R>(run: seq<Action<R>>, states: seq<State<R>>) {
    && |states| == |run| + 1
    && states[0] == Initial()
    && forall i :: 0 <= i < |run| ==> IsStep(states[i], run[i], states[i + 1])
  }

  ghost predicate IsStep<R>(s: State<R>, a: Action<R>, s': State<R>) {
    Enabled(s, a) && s' == Apply(s, a)
  }

  lemma StepOf<R>(run: seq<Action<R>>, states: seq<State<R>>, i: nat)
    requires IsRun(run, states) && i < |run|
    ensures Enabled(states[i], run[i]) && states[i + 1] == Apply(states[i], run[i])
  {
    assert IsStep(states[i], run[i], states[i + 1]);
  }

  // ---- Conservation ----------------------------------------------------------------------

  function Records<R>(rows: seq<Row<R>>): (rs: seq<R>)
    ensures |rs| == |rows|
  {
    seq(|rows|, i requires 0 <= i < |rows| => rows[i].record)
  }

  function Submitted<R>(run: seq<Action<R>>): seq<R> {
    FlatMap(SavedBy, run)
  }

  function AsList<R>(o: Option<R>): seq<R> {
    if o.Some? then [o.value] else []
  }

  function SavedBy<R>(a: Action<R>): seq<R> {
    if a.Save? then [a.record] else []
  }

  /** Accepted records are the written, in-flight and queued ones, in order. */
  ghost predicate InOrder<R>(s: State<R>) {
    && s.accepted == Records(s.rows) + AsList(s.inFlight) + s.queue
    && |s.queue| <= CAPACITY
    && (s.done ==> s.closed && s.queue == [] && s.inFlight.None?)
    && (s.returned ==> s.done)
    && (s.panicked ==> s.closed)
  }

  /** Submitted records are the accepted and the dropped ones. */
  ghost predicate Balanced<R>(s: State<R>, submitted: seq<R>) {
    !s.panicked ==> multiset(submitted) == multiset(s.accepted) + multiset(s.dropped)
  }

  /** Nothing is lost, duplicated or reordered between producers and database. */
  ghost predicate Conserved<R>(s: State<R>, submitted: seq<R>) {
    InOrder(s) && Balanced(s, submitted)
  }

  lemma StepKeepsOrder<R>(s: State<R>, a: Action<R>)
    requires InOrder(s) && Enabled(s, a)
    ensures InOrder(Apply(s, a))
  {
    if a.Save? {
      var written := Records(s.rows) + AsList(s.inFlight);
      assert (written + s.queue) + [a.record] == written + (s.queue + [a.record]);
    } else if a.Insert? {
      assert Records(Apply(s, a).rows) == Records(s.rows) + [s.inFlight.value];
    } else if a.Receive? {
      assert s.queue == [s.queue[0]] + s.queue[1..];
    }
  }

  lemma StepKeepsBalance<R>(s: State<R>, submitted: seq<R>, a: Action<R>)
    requires Balanced(s, submitted) && Enabled(s, a)
    ensures Balanced(Apply(s, a), submitted + SavedBy(a))
  {
    if a.Save? {
      BagAppend(submitted, a.record);
      BagAppend(s.accepted, a.record);
      BagAppend(s.dropped, a.record);
    } else {
      assert submitted + [] == submitted;
    }
  }

  lemma BagAppend<T>(s: seq<T>, x: T)
    ensures multiset(s + [x]) == multiset(s) + multiset{x}
  {
  }

  /** The record that a producer saves. */
  lemma SaveConserves<R>(s: State<R>, submitted: seq<R>, r: R)
    requires Conserved(s, submitted) && Enabled(s, Save(r))
    ensures Conserved(Apply(s, Save(r)), submitted + [r])
  {
    StepKeepsOrder(s, Save(r));
    StepKeepsBalance(s, submitted, Save(r));
  }

  lemma WorkerConserves<R>(s: State<R>, submitted: seq<R>, a: Action<R>)
    requires Conserved(s, submitted) && Enabled(s, a) && !a.Save?
    ensures Conserved(Apply(s, a), submitted)
  {
    StepKeepsOrder(s, a);
    StepKeepsBalance(s, submitted, a);
    assert submitted + [] == submitted;
  }

  lemma {:induction false} OrderThroughout<R>(run: seq<Action<R>>, states: seq<State<R>>, n: nat)
    requires IsRun(run, states) && n <= |run|
    ensures InOrder(states[n])
  {
    if n > 0 {
      OrderThroughout(run, states, n - 1);
      StepOf(run, states, n - 1);
      StepKeepsOrder(states[n - 1], run[n - 1]);
    }
  }

  lemma {:induction false} BalanceThroughout<R>(run: seq<Action<R>>, states: seq<State<R>>, n: nat)
    requires IsRun(run, states) && n <= |run|
    ensures Balanced(states[n], Submitted(run[..n]))
  {
    if n > 0 {
      BalanceThroughout(run, states, n - 1);
      StepOf(run, states, n - 1);
      FlatMapExtend(SavedBy, run, n - 1);
      StepKeepsBalance(states[n - 1], Submitted(run[..n - 1]), run[n - 1]);
    }
  }

  /** Every reachable state is conserved: accepted records are the written, in-flight
      and queued ones in order, and submitted ones are the accepted and dropped. */
  lemma Conservation<R>(run: seq<Action<R>>, states: seq<State<R>>, n: nat)
    requires IsRun(run, states) && n <= |run|
    ensures Conserved(states[n], Submitted(run[..n]))
  {
    OrderThroughout(run, states, n);
    BalanceThroughout(run, states, n);
  }

  /** A record is dropped exactly when it is submitted to an open queue that holds
      500 accepted records. */
  lemma DroppedExactlyWhenFull<R>(run: seq<Action<R>>, states: seq<State<R>>, i: nat)
    requires IsRun(run, states) && i < |run|
    ensures states[i + 1].dropped != states[i].dropped <==>
              run[i].Save? && !states[i].closed && |states[i].queue| == 500
    ensures run[i].Save? && !states[i].closed ==>
              if |states[i].queue| == 500
              then && states[i + 1].dropped == states[i].dropped + [run[i].record]
                   && states[i + 1].accepted == states[i].accepted
              else && states[i + 1].accepted == states[i].accepted + [run[i].record]
                   && states[i + 1].dropped == states[i].dropped
  {
    StepOf(run, states, i);
    OrderThroughout(run, states, i);
    if run[i].Save? {
      assert |states[i].dropped + [run[i].record]| == |states[i].dropped| + 1;
    }
  }

  /** When Close returns, an insert has been attempted for every accepted record, in
      order; if none failed, the database holds exactly the accepted records. */
  lemma CloseDrains<R>(run: seq<Action<R>>, states: seq<State<R>>, n: nat)
    requires IsRun(run, states) && n <= |run| && states[n].returned
    ensures Records(states[n].rows) == states[n].accepted
    ensures (forall i :: 0 <= i < |states[n].rows| ==> states[n].rows[i].stored) ==>
              Persisted(states[n].rows) == states[n].accepted
  {
    OrderThroughout(run, states, n);
    if forall i :: 0 <= i < |states[n].rows| ==> states[n].rows[i].stored {
      AllPersisted(states[n].rows);
    }
  }

  function Persisted<R>(rows: seq<Row<R>>): seq<R> {
    FlatMap((row: Row<R>) => if row.stored then [row.record] else [], rows)
  }

  lemma {:induction false} AllPersisted<R>(rows: seq<Row<R>>)
    requires forall i :: 0 <= i < |rows| ==> rows[i].stored
    ensures Persisted(rows) == Records(rows)
  {
    if rows != [] {
      AllPersisted(rows[..|rows| - 1]);
      assert Records(rows) == Records(rows[..|rows| - 1]) + [rows[|rows| - 1].record];
    }
  }

  /** The program crashes exactly in the runs that save after Close has begun. */
  lemma {:induction false} PanicsExactlyOnLateSave<R>(run: seq<Action<R>>, states: seq<State<R>>, n: nat)
    requires IsRun(run, states) && n <= |run|
    ensures states[n].closed <==> exists i :: 0 <= i < n && run[i].CloseChannel?
    ensures states[n].panicked <==> exists i, j :: 0 <= i < j < n && run[i].CloseChannel? && run[j].Save?
  {
    if n > 0 {
      PanicsExactlyOnLateSave(run, states, n - 1);
      StepOf(run, states, n - 1);
    }
  }

  // ---- Draining ------------------------------------------------------------------------------

  predicate IsWorker<R>(a: Action<R>) {
    a.Receive? || a.Insert? || a.Exit?
  }

  /** Worker actions still to come once the channel is closed: two per queued record,
      one for a record in flight and one to leave the loop. */
  function Remaining<R>(s: State<R>): nat {
    2 * |s.queue| + |AsList(s.inFlight)| + if s.done then 0 else 1
  }

  /** After close the worker is never stuck before it is done, and each of its actions
      is progress; nothing else adds work. */
  lemma WorkerProgress<R>(s: State<R>, a: Action<R>)
    requires s.closed && Enabled(s, a) && (s.done ==> s.queue == [] && s.inFlight.None?)
    ensures IsWorker(a) ==> Remaining(Apply(s, a)) == Remaining(s) - 1
    ensures !IsWorker(a) ==> Remaining(Apply(s, a)) == Remaining(s)
    ensures |Apply(s, a).queue| + |AsList(Apply(s, a).inFlight)| <= |s.queue| + |AsList(s.inFlight)|
    ensures s.done <==> Remaining(s) == 0
    ensures !s.done ==> Enabled(s, Receive) || (forall ok :: Enabled(s, Insert(ok))) || Enabled(s, Exit)
  {
  }

  /** At any time: the worker waits exactly while it holds no record, the channel is empty and
      nobody has closed it; every producer may save; the first Close may close the channel; and
      Close returns as soon as the worker is done. */
  lemma NobodyWaitsInVain<R>(s: State<R>, r: R)
    requires !s.panicked && (s.done ==> s.closed && s.queue == [] && s.inFlight.None?)
    ensures Enabled(s, Save(r))
    ensures Enabled(s, CloseChannel) <==> !s.closed
    ensures Enabled(s, CloseReturns) <==> s.done && !s.returned
    ensures !s.done ==>
              ((exists a: Action<R> :: IsWorker(a) && Enabled(s, a)) <==> s.closed || s.queue != [] || s.inFlight.Some?)
  {
    if s.inFlight.Some? {
      assert IsWorker<R>(Insert(true)) && Enabled(s, Insert(true));
    } else if s.queue != [] {
      assert !s.done ==> IsWorker<R>(Receive) && Enabled(s, Receive);
    } else if s.closed {
      assert !s.done ==> IsWorker<R>(Exit) && Enabled(s, Exit);
    }
  }

  function WorkerActions<R>(run: seq<Action<R>>): nat {
    if run == [] then 0 else WorkerActions(run[..|run| - 1]) + if IsWorker(run[|run| - 1]) then 1 else 0
  }

  /** From any moment after close the worker takes exactly `Remaining` more actions,
      under every interleaving: never more, and it is done once it has taken them. */
  lemma {:induction false} DrainTakesExactly<R>(run: seq<Action<R>>, states: seq<State<R>>, m: nat, n: nat)
    requires IsRun(run, states) && m <= n <= |run| && states[m].closed
    ensures states[n].closed
    ensures WorkerActions(run[m..n]) + Remaining(states[n]) == Remaining(states[m])
    ensures states[n].done ==> WorkerActions(run[m..n]) == Remaining(states[m])
    ensures WorkerActions(run[m..n]) == Remaining(states[m]) ==> states[n].done
    decreases n
  {
    if m == n {
      OrderThroughout(run, states, n);
    } else {
      DrainTakesExactly(run, states, m, n - 1);
      DoneIsDrained(run, states, n - 1);
      StepOf(run, states, n - 1);
      WorkerProgress(states[n - 1], run[n - 1]);
      assert run[m..n][..n - m - 1] == run[m..n - 1];
    }
  }

  lemma DoneIsDrained<R>(run: seq<Action<R>>, states: seq<State<R>>, n: nat)
    requires IsRun(run, states) && n <= |run|
    ensures states[n].done ==> states[n].queue == [] && states[n].inFlight.None?
  {
    OrderThroughout(run, states, n);
  }

  /** `rows` continues `before` with rows stored as `insert` says. */
  ghost predicate Attempted<R>(before: seq<Row<R>>, rows: seq<Row<R>>, insert: R -> bool) {
    && before <= rows
    && forall i :: |before| <= i < |rows| ==> rows[i].stored == insert(rows[i].record)
  }

  lemma AttemptOneMore<R>(before: seq<Row<R>>, rows: seq<Row<R>>, insert: R -> bool, r: R)
    requires Attempted(before, rows, insert)
    ensures Attempted(before, rows + [Row(r, insert(r))], insert)
  {
  }

  /** The worker's next action before it leaves its loop, with inserts answering as `insert` says. */
  function NextWork<R>(s: State<R>, insert: R -> bool): Action<R>
    requires s.inFlight.Some? || s.queue != []
  {
    if s.inFlight.Some? then Insert(insert(s.inFlight.value)) else Receive
  }

  /** The state in which the worker, left alone, runs out of work. */
  function Drained<R>(s: State<R>, insert: R -> bool): State<R>
    requires !s.done && !s.panicked
    decreases Remaining(s)
  {
    if s.inFlight.None? && s.queue == [] then s
    else Drained(Apply(s, NextWork(s, insert)), insert)
  }

  /** Whatever the inserts answer, one is attempted per accepted record, in order. */
  lemma {:induction false} DrainedIsWritten<R>(s: State<R>, submitted: seq<R>, insert: R -> bool)
    requires Conserved(s, submitted) && !s.done && !s.panicked
    ensures var t := Drained(s, insert);
            && t == s.(queue := [], inFlight := None, rows := t.rows)
            && Conserved(t, submitted)
            && Records(t.rows) == s.accepted
            && Attempted(s.rows, t.rows, insert)
    decreases Remaining(s)
  {
    if s.inFlight.Some? || s.queue != [] {
      var a := NextWork(s, insert);
      WorkerConserves(s, submitted, a);
      if a.Insert? {
        AttemptOneMore(s.rows, s.rows, insert, s.inFlight.value);
      }
      DrainedIsWritten(Apply(s, a), submitted, insert);
    } else {
      assert Records(s.rows) + [] + [] == Records(s.rows);
    }
  }

  // ---- The store, one caller at a time ---------------------------------------------------------

  class SQLiteStore<R> {
    var saveCh: seq<R>
    var received: Option<R>
    var rows: seq<Row<R>>
    var closed: bool
    var done: bool
    var returned: bool
    var panicked: bool
    ghost var accepted: seq<R>
    ghost var dropped: seq<R>
    ghost var submitted: seq<R>

    ghost function View(): State<R>
      reads this
    {
      State.State(saveCh, received, rows, accepted, dropped, closed, done, returned, panicked)
    }

    ghost predicate Valid()
      reads this
    {
      !panicked && Conserved(View(), submitted)
    }

    constructor ()
      ensures Valid() && View() == Initial()
    {
      saveCh, received, rows := [], None, [];
      closed, done, returned, panicked := false, false, false, false;
      accepted, dropped, submitted := [], [], [];
    }

    /** A full queue drops the record; a closed one crashes the program. */
    method Save(r: R)
      requires Valid()
      modifies this
      ensures View() == Apply(old(View()), Action.Save(r))
      ensures submitted == old(submitted) + [r]
      ensures !panicked ==> Valid()
    {
      ghost var s := Apply(View(), Action.Save(r));
      SaveConserves(View(), submitted, r);
      if closed {
        panicked := true;
      } else if |saveCh| < CAPACITY {
        saveCh := saveCh + [r];
        accepted := accepted + [r];
      } else {
        dropped := dropped + [r];
      }
      assert View() == s;
      submitted := submitted + [r];
    }

    /** The worker's receive from the channel. */
    method ReceiveOne()
      requires Enabled(View(), Receive)
      modifies this`saveCh, this`received
      ensures View() == Apply(old(View()), Receive)
      ensures old(Valid()) ==> Valid()
    {
      ghost var s := Apply(View(), Receive);
      if Valid() {
        WorkerConserves(View(), submitted, Receive);
      }
      received, saveCh := Some(saveCh[0]), saveCh[1..];
      assert View() == s;
    }

    /** The worker's insert, which may fail. */
    method InsertOne(ok: bool)
      requires Enabled(View(), Insert(ok))
      modifies this`received, this`rows
      ensures View() == Apply(old(View()), Insert(ok))
      ensures old(Valid()) ==> Valid()
    {
      ghost var s := Apply(View(), Insert(ok));
      if Valid() {
        WorkerConserves(View(), submitted, Insert(ok));
      }
      rows, received := rows + [Row(received.value, ok)], None;
      assert View() == s;
    }

    /** The worker's loop from here to its end, on a closed channel: whatever the
        inserts answer, one is attempted per accepted record, in order. */
    method WriteWorker(insert: R -> bool)
      requires Valid() && closed && !done
      modifies this`saveCh, this`received, this`rows, this`done
      ensures Valid() && done
      ensures View() == Drained(old(View()), insert).(done := true)
      ensures Records(rows) == accepted
      ensures Attempted(old(rows), rows, insert)
    {
      DrainedIsWritten(View(), submitted, insert);
      ghost var s := Drained(View(), insert);
      while received.Some? || saveCh != []
        invariant !done && !panicked
        invariant Drained(View(), insert) == s
        decreases Remaining(View())
      {
        if received.None? {
          ReceiveOne();
        } else {
          InsertOne(insert(received.value));
        }
      }
      done := true;
      assert View() == s.(done := true);
    }

    /** The first Close; later calls do nothing. */
    method Close(insert: R -> bool)
      requires Valid() && (closed ==> returned)
      modifies this
      ensures Valid() && returned
      ensures Records(rows) == accepted && accepted == old(accepted)
      ensures old(closed) ==> View() == old(View())
    {
      if closed {
        return;
      }
      WorkerConserves(View(), submitted, CloseChannel);
      closed := true;
      assert View() == old(View()).(closed := true);
      WriteWorker(insert);
      WorkerConserves(View(), submitted, CloseReturns);
      returned := true;
    }
  }
}
