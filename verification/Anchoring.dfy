/**
 Anchoring of chain heads (security/anchoring.py) into a write-once directory
 (security/worm_local.py). An anchor is written inside the appending transaction,
 which may still roll back, while a stored object stays for good. `keyOf` is the
 object key derived from table and sequence number; nothing here needs it to be
 injective.
 */
module Anchoring {

  type KeyFn = (string, nat) -> string

  datatype Backend = LocalDirectory | ObjectLockStub

  datatype Payload = Payload(
    table: string,
    number: nat,
    hash: string,
    rowId: string,
    rowCount: int,
    at: int,
    key: string,
    backend: Backend)

  /** The `audit_anchors` row; it takes its own timestamp, a little before the payload does. */
  datatype Anchor = Anchor(
    table: string,
    number: nat,
    hash: string,
    rowId: string,
    rowCount: int,
    anchoredAt: int,
    key: string,
    backend: Backend)

  datatype Checkpoint = Checkpoint(number: nat, rowCount: int, at: int)

  datatype Reason = HeadUnreadable | SinkWriteFailed

  datatype Event = ChainAnchorBreak(table: string, reason: Reason)

  datatype HeadRead = Unreadable | EmptyChain | Found(hash: string, rowId: string)

  /** What one appending transaction has staged; its table lock admits one at a time. */
  datatype Transaction =
    | Closed
    | Open
    | Quiet
    | Anchored(anchor: Anchor, checkpoint: Checkpoint)
    | Broken(event: Event)
    | Doomed

  datatype State = State(
    anchors: map<string, seq<Anchor>>,
    checkpoints: map<string, Checkpoint>,
    events: seq<Event>,
    objects: map<string, Payload>,
    transactions: map<string, Transaction>)

  const EMPTY := State(map[], map[], [], map[], map[])

  /** The inputs of one `maybe_anchor` call and how its surroundings behave. */
  datatype Call = Call(
    rowCount: int,
    now: int,
    stamp: int,
    everyRows: int,
    everyMinutes: int,
    head: HeadRead,
    backend: Backend,
    diskWorks: bool,
    databaseWorks: bool)

  function AnchorsOf(s: State, t: string): seq<Anchor>
  {
    if t in s.anchors then s.anchors[t] else []
  }

  function LastNumber(s: State, t: string): nat
  {
    if t in s.checkpoints then s.checkpoints[t].number else 0
  }

  function TransactionOf(s: State, t: string): Transaction
  {
    if t in s.transactions then s.transactions[t] else Closed
  }

  /** The cadence has fired: enough rows, or enough minutes, or no anchor yet. */
  predicate Due(s: State, t: string, c: Call)
  {
    var rows := c.rowCount - (if t in s.checkpoints then s.checkpoints[t].rowCount else 0);
    !(rows < c.everyRows && t in s.checkpoints && c.now - s.checkpoints[t].at < 60 * c.everyMinutes)
  }

  function AnchorPayload(keyOf: KeyFn, s: State, t: string, c: Call): Payload
    requires c.head.Found?
  {
    var number := LastNumber(s, t) + 1;
    Payload(t, number, c.head.hash, c.head.rowId, c.rowCount, c.stamp, keyOf(t, number), c.backend)
  }

  function AnchorRow(p: Payload, now: int): Anchor
  {
    Anchor(p.table, p.number, p.hash, p.rowId, p.rowCount, now, p.key, p.backend)
  }

  datatype StoreResult = Stored | Absent | Failed

  /** Exclusive creation: an existing object, or a failing disk, is an error; the stub raises by design. */
  function StoreOutcome(objects: map<string, Payload>, p: Payload, diskWorks: bool): StoreResult
  {
    if p.backend == ObjectLockStub then Absent
    else if p.key in objects || !diskWorks then Failed
    else Stored
  }

  /** The whole effect of `maybe_anchor` in an open transaction. */
  function Fire(keyOf: KeyFn, s: State, t: string, c: Call): State
  {
    if !Due(s, t, c) || c.head.EmptyChain? then s.(transactions := s.transactions[t := Quiet])
    else if c.head.Unreadable? then
      s.(transactions := s.transactions[t := Broken(ChainAnchorBreak(t, HeadUnreadable))])
    else
      var p := AnchorPayload(keyOf, s, t, c);
      var outcome := StoreOutcome(s.objects, p, c.diskWorks);
      var objects := if outcome.Stored? then s.objects[p.key := p] else s.objects;
      var tx :=
        if outcome.Failed? then Broken(ChainAnchorBreak(t, SinkWriteFailed))
        else if !c.databaseWorks then Doomed
        else Anchored(AnchorRow(p, c.now), Checkpoint(p.number, c.rowCount, c.now));
      s.(objects := objects, transactions := s.transactions[t := tx])
  }

  datatype Step =
    | Begin(table: string)
    | MaybeAnchor(table: string, call: Call)
    | Commit(table: string)
    | Rollback(table: string)

  predicate Enabled(s: State, step: Step)
  {
    var tx := TransactionOf(s, step.table);
    match step
    case Begin(t) => tx.Closed?
    case MaybeAnchor(t, c) => tx.Open?
    case Commit(t) => !tx.Closed? && !tx.Doomed?
    case Rollback(t) => !tx.Closed?
  }

  function Apply(keyOf: KeyFn, s: State, step: Step): State
    requires Enabled(s, step)
  {
    match step
    case Begin(t) => s.(transactions := s.transactions[t := Open])
    case MaybeAnchor(t, c) => Fire(keyOf, s, t, c)
    case Rollback(t) => s.(transactions := s.transactions[t := Closed])
    case Commit(t) =>
      var closed := s.(transactions := s.transactions[t := Closed]);
      match TransactionOf(s, t)
      case Anchored(p, checkpoint) =>
        closed.(anchors := s.anchors[t := AnchorsOf(s, t) + [p]],
                checkpoints := s.checkpoints[t := checkpoint])
      case Broken(event) => closed.(events := s.events + [event])
      case _ => closed
  }

  ghost predicate Run(keyOf: KeyFn, from: State, steps: seq<Step>, to: State)
    decreases steps
  {
    if steps == [] then from == to
    else Enabled(from, steps[0]) && Run(keyOf, Apply(keyOf, from, steps[0]), steps[1..], to)
  }

  // -------------------------------------------------------------- invariant

  ghost predicate Keeps(objects: map<string, Payload>, key: string, p: Payload)
  {
    key in objects && objects[key] == p
  }

  /** The anchor's object is stored and agrees with it on everything but the timestamp. */
  ghost predicate HasObject(objects: map<string, Payload>, a: Anchor)
  {
    a.key in objects && AnchorRow(objects[a.key], a.anchoredAt) == a
  }

  ghost predicate TableOk(s: State, t: string)
  {
    && LastNumber(s, t) == |AnchorsOf(s, t)|
    && (forall i :: 0 <= i < |AnchorsOf(s, t)| ==> AnchorsOf(s, t)[i].table == t && AnchorsOf(s, t)[i].number == i + 1)
    && (forall i :: 0 <= i < |AnchorsOf(s, t)| && AnchorsOf(s, t)[i].backend == LocalDirectory ==>
          HasObject(s.objects, AnchorsOf(s, t)[i]))
  }

  ghost predicate StagedOk(s: State, t: string)
  {
    match TransactionOf(s, t)
    case Anchored(p, checkpoint) =>
      && p.table == t && p.number == checkpoint.number == LastNumber(s, t) + 1
      && (p.backend == LocalDirectory ==> HasObject(s.objects, p))
    case _ => true
  }

  ghost predicate ObjectOk(keyOf: KeyFn, s: State, key: string)
    requires key in s.objects
  {
    var o := s.objects[key];
    key == o.key == keyOf(o.table, o.number) && 1 <= o.number <= LastNumber(s, o.table) + 1
  }

  ghost predicate Safe(keyOf: KeyFn, s: State)
  {
    && (forall t :: TableOk(s, t) && StagedOk(s, t))
    && (forall k :: k in s.objects ==> ObjectOk(keyOf, s, k))
  }

  lemma ObjectsPersist(keyOf: KeyFn, s: State, step: Step, k: string)
    requires Enabled(s, step) && k in s.objects
    ensures Keeps(Apply(keyOf, s, step).objects, k, s.objects[k])
  {
  }

  lemma StepKeepsTable(keyOf: KeyFn, s: State, step: Step, t: string)
    requires Enabled(s, step) && TableOk(s, t) && StagedOk(s, t)
    ensures TableOk(Apply(keyOf, s, step), t) && StagedOk(Apply(keyOf, s, step), t)
    ensures LastNumber(Apply(keyOf, s, step), t) >= LastNumber(s, t)
  {
    if step.MaybeAnchor? {
      FireKeepsTable(keyOf, s, step.table, step.call, t);
    } else if step.Commit? && step.table == t && TransactionOf(s, t).Anchored? {
      CommitKeepsTable(keyOf, s, t);
    } else {
      hide HasObject;
      hide Fire;
      assert AnchorsOf(Apply(keyOf, s, step), t) == AnchorsOf(s, t);
    }
  }

  lemma CommitKeepsTable(keyOf: KeyFn, s: State, t: string)
    requires TransactionOf(s, t).Anchored? && TableOk(s, t) && StagedOk(s, t)
    ensures var next := Apply(keyOf, s, Commit(t));
      TableOk(next, t) && StagedOk(next, t) && LastNumber(next, t) == LastNumber(s, t) + 1
  {
    hide HasObject;
    hide Fire;
    var next := Apply(keyOf, s, Commit(t));
    assert AnchorsOf(next, t) == AnchorsOf(s, t) + [TransactionOf(s, t).anchor];
  }

  lemma FireKeepsTable(keyOf: KeyFn, s: State, f: string, c: Call, t: string)
    requires TransactionOf(s, f).Open? && TableOk(s, t) && StagedOk(s, t)
    ensures var next := Fire(keyOf, s, f, c);
      TableOk(next, t) && StagedOk(next, t) && LastNumber(next, t) == LastNumber(s, t)
  {
    var next := Fire(keyOf, s, f, c);
    forall k | k in s.objects ensures Keeps(next.objects, k, s.objects[k]) {
      ObjectsPersist(keyOf, s, MaybeAnchor(f, c), k);
    }
    GrowingKeepsTable(s, next, t);
    FireKeepsStaged(keyOf, s, f, c, t);
  }

  ghost predicate Grown(s: State, next: State)
  {
    forall k :: k in s.objects ==> Keeps(next.objects, k, s.objects[k])
  }

  lemma GrowingKeepsTable(s: State, next: State, t: string)
    requires TableOk(s, t) && Grown(s, next) && next.anchors == s.anchors && next.checkpoints == s.checkpoints
    ensures TableOk(next, t)
  {
    forall i | 0 <= i < |AnchorsOf(s, t)| && AnchorsOf(s, t)[i].backend == LocalDirectory
      ensures HasObject(next.objects, AnchorsOf(s, t)[i])
    {
      var a := AnchorsOf(s, t)[i];
      assert HasObject(s.objects, a) && Keeps(next.objects, a.key, s.objects[a.key]);
    }
  }

  lemma OtherStays(keyOf: KeyFn, s: State, f: string, c: Call, t: string)
    requires t != f
    ensures TransactionOf(Fire(keyOf, s, f, c), t) == TransactionOf(s, t)
    ensures LastNumber(Fire(keyOf, s, f, c), t) == LastNumber(s, t)
  {
  }

  lemma FireKeepsStaged(keyOf: KeyFn, s: State, f: string, c: Call, t: string)
    requires TransactionOf(s, f).Open? && StagedOk(s, t) && Grown(s, Fire(keyOf, s, f, c))
    ensures StagedOk(Fire(keyOf, s, f, c), t)
  {
    if t != f {
      OtherStays(keyOf, s, f, c, t);
      hide Fire;
      if TransactionOf(s, t).Anchored? {
        var a := TransactionOf(s, t).anchor;
        assert a.backend == LocalDirectory ==> Keeps(Fire(keyOf, s, f, c).objects, a.key, s.objects[a.key]);
      }
    }
  }

  lemma StepKeepsObject(keyOf: KeyFn, s: State, step: Step, k: string)
    requires Enabled(s, step) && k in Apply(keyOf, s, step).objects && (k in s.objects ==> ObjectOk(keyOf, s, k))
    requires forall t :: TableOk(s, t) && StagedOk(s, t)
    ensures ObjectOk(keyOf, Apply(keyOf, s, step), k)
  {
    if k in s.objects {
      var t := s.objects[k].table;
      assert TableOk(s, t) && StagedOk(s, t);
      StepKeepsTable(keyOf, s, step, t);
      ObjectsPersist(keyOf, s, step, k);
    }
  }

  lemma StepKeepsSafe(keyOf: KeyFn, s: State, step: Step)
    requires Safe(keyOf, s) && Enabled(s, step)
    ensures Safe(keyOf, Apply(keyOf, s, step))
  {
    hide Apply;
    var next := Apply(keyOf, s, step);
    forall t ensures TableOk(next, t) && StagedOk(next, t) {
      assert TableOk(s, t) && StagedOk(s, t);
      StepKeepsTable(keyOf, s, step, t);
    }
    forall k | k in next.objects ensures ObjectOk(keyOf, next, k) {
      assert k in s.objects ==> ObjectOk(keyOf, s, k);
      StepKeepsObject(keyOf, s, step, k);
    }
  }

  /**
   Across every run of commits and rollbacks: the committed anchors of a table are
   numbered 1 to its last number without a gap, each anchor of the directory sink has
   its object with identical contents, stored objects never change, and no stored
   number lies more than one beyond the last committed one.
   */
  lemma {:induction false} AnchorsAreSafe(keyOf: KeyFn, from: State, steps: seq<Step>, to: State)
    requires Safe(keyOf, from) && Run(keyOf, from, steps, to)
    ensures Safe(keyOf, to)
    ensures forall k :: k in from.objects ==> Keeps(to.objects, k, from.objects[k])
    decreases steps
  {
    if steps != [] {
      StepKeepsSafe(keyOf, from, steps[0]);
      var next := Apply(keyOf, from, steps[0]);
      AnchorsAreSafe(keyOf, next, steps[1..], to);
      forall k | k in from.objects ensures Keeps(to.objects, k, from.objects[k]) {
        ObjectsPersist(keyOf, from, steps[0], k);
      }
    } else {
      forall k | k in from.objects ensures Keeps(to.objects, k, from.objects[k]) {
        assert ObjectOk(keyOf, from, k);
      }
    }
  }

  // ---------------------------------------------------------------- orphans

  /** The next object of the table exists already and no open transaction stored it. */
  ghost predicate Orphaned(keyOf: KeyFn, s: State, t: string)
  {
    keyOf(t, LastNumber(s, t) + 1) in s.objects && !TransactionOf(s, t).Anchored?
  }

  /** Every anchoring call of the table uses the directory sink. */
  ghost predicate DirectoryOnly(steps: seq<Step>, t: string)
  {
    forall i :: 0 <= i < |steps| && steps[i].MaybeAnchor? && steps[i].table == t ==>
      steps[i].call.backend == LocalDirectory
  }

  /** A rollback after the object was stored leaves the object without its anchor. */
  lemma RollbackOrphans(keyOf: KeyFn, s: State, t: string)
    requires Safe(keyOf, s) && TransactionOf(s, t).Anchored? && TransactionOf(s, t).anchor.backend == LocalDirectory
    ensures Orphaned(keyOf, Apply(keyOf, s, Rollback(t)), t)
  {
    assert StagedOk(s, t);
    assert ObjectOk(keyOf, s, TransactionOf(s, t).anchor.key);
  }

  /** The call has put an object into the directory, whether or not its transaction survives. */
  predicate StoresObject(keyOf: KeyFn, s: State, t: string, c: Call)
  {
    && Due(s, t, c) && c.head.Found? && c.backend == LocalDirectory && c.diskWorks
    && keyOf(t, LastNumber(s, t) + 1) !in s.objects
  }

  /**
   Which transactions orphan: a call followed by a rollback leaves an orphan exactly
   when it stored its object or found one, also when the database failed and the
   AnchorError doomed the transaction.
   */
  lemma RollbackOrphansExactly(keyOf: KeyFn, s: State, t: string, c: Call)
    requires TransactionOf(s, t).Open?
    ensures
      var fired := Apply(keyOf, s, MaybeAnchor(t, c));
      && Enabled(fired, Rollback(t))
      && (Orphaned(keyOf, Apply(keyOf, fired, Rollback(t)), t)
          <==> StoresObject(keyOf, s, t, c) || keyOf(t, LastNumber(s, t) + 1) in s.objects)
  {
    var fired := Apply(keyOf, s, MaybeAnchor(t, c));
    assert LastNumber(fired, t) == LastNumber(s, t);
  }

  /** The input: the first anchor of a table, stored, and its transaction rolled back because the database failed. */
  lemma OrphanInput(keyOf: KeyFn)
    ensures
      var open := Apply(keyOf, EMPTY, Begin("t"));
      var call := Call(1, 0, 0, 100, 10, Found("h", "r"), LocalDirectory, true, false);
      var fired := Apply(keyOf, open, MaybeAnchor("t", call));
      TransactionOf(fired, "t").Doomed? && Orphaned(keyOf, Apply(keyOf, fired, Rollback("t")), "t")
  {
    var open := Apply(keyOf, EMPTY, Begin("t"));
    var call := Call(1, 0, 0, 100, 10, Found("h", "r"), LocalDirectory, true, false);
    RollbackOrphansExactly(keyOf, open, "t", call);
  }

  lemma OrphanStays(keyOf: KeyFn, s: State, step: Step, t: string)
    requires Enabled(s, step) && Orphaned(keyOf, s, t) && DirectoryOnly([step], t)
    ensures Orphaned(keyOf, Apply(keyOf, s, step), t)
    ensures AnchorsOf(Apply(keyOf, s, step), t) == AnchorsOf(s, t)
    ensures step.MaybeAnchor? && step.table == t && Due(s, t, step.call) && step.call.head.Found? ==>
              TransactionOf(Apply(keyOf, s, step), t) == Broken(ChainAnchorBreak(t, SinkWriteFailed))
  {
    assert [step][0] == step;
  }

  /**
   One orphan ends the anchoring of its table: whatever follows, no further anchor is
   committed there, and every due call stages a break event instead.
   */
  lemma {:induction false} OrphanStopsAnchoring(keyOf: KeyFn, from: State, steps: seq<Step>, to: State, t: string)
    requires Run(keyOf, from, steps, to) && Orphaned(keyOf, from, t) && DirectoryOnly(steps, t)
    ensures Orphaned(keyOf, to, t) && AnchorsOf(to, t) == AnchorsOf(from, t)
    decreases steps
  {
    if steps != [] {
      OrphanStays(keyOf, from, steps[0], t);
      OrphanStopsAnchoring(keyOf, Apply(keyOf, from, steps[0]), steps[1..], to, t);
    }
  }

  /** The cadence: no anchor yet, enough rows since the last one, or enough minutes. */
  predicate Fires(s: State, t: string, c: Call)
  {
    || t !in s.checkpoints
    || c.rowCount - s.checkpoints[t].rowCount >= c.everyRows
    || c.now - s.checkpoints[t].at >= 60 * c.everyMinutes
  }

  /** A directory anchor is staged exactly when the cadence fires, there is a head, its key is unused and nothing fails. */
  lemma AdvancesExactlyWhen(keyOf: KeyFn, s: State, t: string, c: Call)
    requires c.backend == LocalDirectory
    ensures TransactionOf(Fire(keyOf, s, t, c), t).Anchored?
        <==> && (|| t !in s.checkpoints
                 || c.rowCount - s.checkpoints[t].rowCount >= c.everyRows
                 || c.now - s.checkpoints[t].at >= 60 * c.everyMinutes)
             && c.head.Found? && c.diskWorks && c.databaseWorks
             && keyOf(t, LastNumber(s, t) + 1) !in s.objects
  {
  }

  /**
   Every outcome of a call: quiet without the cadence or on an empty chain, broken
   on an unreadable head or a refusing sink, doomed by the database, and otherwise
   an anchor of the head found, under the next number, with the checkpoint it moves.
   */
  lemma OutcomesExactly(keyOf: KeyFn, s: State, t: string, c: Call)
    ensures
      var next := Fire(keyOf, s, t, c);
      var tx, number := TransactionOf(next, t), if t in s.checkpoints then s.checkpoints[t].number + 1 else 1;
      var key, fires := keyOf(t, number), Fires(s, t, c);
      var stores := c.backend == LocalDirectory && key !in s.objects && c.diskWorks;
      var passes := c.backend == ObjectLockStub || stores;
      && (tx == Quiet <==> !fires || c.head.EmptyChain?)
      && (tx == Broken(ChainAnchorBreak(t, HeadUnreadable)) <==> fires && c.head.Unreadable?)
      && (tx == Broken(ChainAnchorBreak(t, SinkWriteFailed)) <==> fires && c.head.Found? && !passes)
      && (tx == Doomed <==> fires && c.head.Found? && passes && !c.databaseWorks)
      && (fires && c.head.Found? && passes && c.databaseWorks ==>
            tx == Anchored(Anchor(t, number, c.head.hash, c.head.rowId, c.rowCount, c.now, key, c.backend),
                           Checkpoint(number, c.rowCount, c.now)))
      && next.objects == (if fires && c.head.Found? && stores
                          then s.objects[key := Payload(t, number, c.head.hash, c.head.rowId, c.rowCount, c.stamp, key, c.backend)]
                          else s.objects)
      && next.anchors == s.anchors && next.checkpoints == s.checkpoints && next.events == s.events
  {
  }

  /** A commit makes visible what was staged, a rollback nothing but the objects that are stored. */
  lemma EndsExactly(keyOf: KeyFn, s: State, t: string)
    requires !TransactionOf(s, t).Closed?
    ensures
      var tx, undone := TransactionOf(s, t), Apply(keyOf, s, Rollback(t));
      && undone.anchors == s.anchors && undone.checkpoints == s.checkpoints && undone.events == s.events
      && undone.objects == s.objects && TransactionOf(undone, t) == Closed
      && (Enabled(s, Commit(t)) <==> tx != Doomed)
      && (Enabled(s, Commit(t)) ==>
            var done := Apply(keyOf, s, Commit(t));
            && done.objects == s.objects && TransactionOf(done, t) == Closed
            && AnchorsOf(done, t) == AnchorsOf(s, t) + (if tx.Anchored? then [tx.anchor] else [])
            && done.events == s.events + (if tx.Broken? then [tx.event] else [])
            && (if tx.Anchored? then t in done.checkpoints && done.checkpoints[t] == tx.checkpoint
                else done.checkpoints == s.checkpoints))
  {
  }

  /** Every call of the table counts one row, as the lineage writer does, and asks for at least one. */
  ghost predicate OneRowCalls(steps: seq<Step>, t: string)
  {
    forall i :: 0 <= i < |steps| && steps[i].MaybeAnchor? && steps[i].table == t ==>
      steps[i].call.rowCount == 1 && steps[i].call.everyRows >= 1
  }

  ghost predicate OneRowCheckpoints(s: State, t: string)
  {
    && (t in s.checkpoints ==> s.checkpoints[t].rowCount == 1)
    && (TransactionOf(s, t).Anchored? ==> TransactionOf(s, t).checkpoint.rowCount == 1)
  }

  lemma StepKeepsOneRow(keyOf: KeyFn, s: State, step: Step, t: string)
    requires Enabled(s, step) && OneRowCheckpoints(s, t) && OneRowCalls([step], t)
    ensures OneRowCheckpoints(Apply(keyOf, s, step), t)
  {
    assert [step][0] == step;
    if step.MaybeAnchor? { OutcomesExactly(keyOf, s, step.table, step.call); OtherTableStays(keyOf, s, step.table, step.call, t); }
    hide Fire;
  }

  lemma OtherTableStays(keyOf: KeyFn, s: State, f: string, c: Call, t: string)
    ensures t != f ==> TransactionOf(Fire(keyOf, s, f, c), t) == TransactionOf(s, t)
    ensures TransactionOf(Fire(keyOf, s, t, c), t).Anchored? ==> TransactionOf(Fire(keyOf, s, t, c), t).checkpoint.rowCount == c.rowCount
  {
  }

  lemma {:induction false} OneRowStays(keyOf: KeyFn, from: State, steps: seq<Step>, to: State, t: string)
    requires Run(keyOf, from, steps, to) && OneRowCheckpoints(from, t) && OneRowCalls(steps, t)
    ensures OneRowCheckpoints(to, t)
    decreases steps
  {
    hide Apply;
    hide Enabled;
    hide OneRowCheckpoints;
    if steps != [] {
      assert [steps[0]][0] == steps[0];
      StepKeepsOneRow(keyOf, from, steps[0], t);
      OneRowStays(keyOf, Apply(keyOf, from, steps[0]), steps[1..], to, t);
    }
  }

  /**
   The lineage writer counts one row at every call, so the row cadence never fires
   again: whatever ran before, its next call stages an anchor exactly when it is the
   first or the minutes have passed, if head, key and sinks allow it, and is quiet
   exactly when neither holds or the chain is empty.
   */
  lemma OneRowCallsGoByTheClock(keyOf: KeyFn, steps: seq<Step>, s: State, t: string, c: Call)
    requires Run(keyOf, EMPTY, steps, s) && OneRowCalls(steps, t)
    requires c.rowCount == 1 && c.everyRows >= 1 && c.backend == LocalDirectory
    ensures
      var tx := TransactionOf(Fire(keyOf, s, t, c), t);
      var timely := t !in s.checkpoints || c.now - s.checkpoints[t].at >= 60 * c.everyMinutes;
      && (tx.Anchored? <==> timely && c.head.Found? && c.diskWorks && c.databaseWorks
                            && keyOf(t, LastNumber(s, t) + 1) !in s.objects)
      && (tx == Quiet <==> !timely || c.head.EmptyChain?)
  {
    OneRowStays(keyOf, EMPTY, steps, s, t);
    OutcomesExactly(keyOf, s, t, c);
    AdvancesExactlyWhen(keyOf, s, t, c);
    hide Fire;
  }

  /** The input: an hour after its last anchor a table is anchored again although no row was counted. */
  lemma HourlyInput(keyOf: KeyFn)
    ensures
      var s := EMPTY.(checkpoints := map["lineage_records" := Checkpoint(1, 1, 0)]);
      var late := Call(1, 3600, 3600, 1000, 5, Found("h", "r"), LocalDirectory, true, true);
      && TransactionOf(Fire(keyOf, s, "lineage_records", late), "lineage_records").Anchored?
      && TransactionOf(Fire(keyOf, s, "lineage_records", late.(now := 299)), "lineage_records") == Quiet
  {
  }

  // ------------------------------------------------------ the two components

  /** The write-once directory. */
  class LocalWorm {
    var objects: map<string, Payload>

    constructor ()
      ensures objects == map[]
    {
      objects := map[];
    }

    method Store(p: Payload, diskWorks: bool) returns (outcome: StoreResult)
      modifies this
      ensures outcome == StoreOutcome(old(objects), p, diskWorks)
      ensures objects == if outcome.Stored? then old(objects)[p.key := p] else old(objects)
    {
      if p.backend == ObjectLockStub {
        return Absent;
      }
      if p.key in objects || !diskWorks {
        return Failed;
      }
      objects := objects[p.key := p];
      outcome := Stored;
    }
  }

  /** The coordinator with the database it writes through. */
  class Coordinator {
    const worm: LocalWorm
    var anchors: map<string, seq<Anchor>>
    var checkpoints: map<string, Checkpoint>
    var events: seq<Event>
    var transactions: map<string, Transaction>

    constructor (sink: LocalWorm)
      ensures worm == sink && Abstract() == EMPTY.(objects := sink.objects)
    {
      worm := sink;
      anchors := map[];
      checkpoints := map[];
      events := [];
      transactions := map[];
    }

    ghost function Abstract(): State
      reads this, worm
    {
      State(anchors, checkpoints, events, worm.objects, transactions)
    }

    /** `raised` is the AnchorError that dooms the caller's transaction. */
    method MaybeAnchorNow(keyOf: KeyFn, t: string, c: Call) returns (raised: bool)
      requires TransactionOf(Abstract(), t).Open?
      modifies this, worm
      ensures Abstract() == Fire(keyOf, old(Abstract()), t, c)
      ensures Abstract() == Apply(keyOf, old(Abstract()), MaybeAnchor(t, c))
      ensures raised <==> TransactionOf(Abstract(), t).Doomed?
    {
      var previous := if t in checkpoints then checkpoints[t] else Checkpoint(0, 0, 0);
      var first := t !in checkpoints;
      raised := false;
      if c.rowCount - previous.rowCount < c.everyRows && !first && c.now - previous.at < 60 * c.everyMinutes {
        transactions := transactions[t := Quiet];
        return;
      }
      if c.head.EmptyChain? {
        transactions := transactions[t := Quiet];
        return;
      }
      if c.head.Unreadable? {
        transactions := transactions[t := Broken(ChainAnchorBreak(t, HeadUnreadable))];
        return;
      }
      var number := previous.number + 1;
      var payload := Payload(t, number, c.head.hash, c.head.rowId, c.rowCount, c.stamp, keyOf(t, number), c.backend);
      var outcome := worm.Store(payload, c.diskWorks);
      if outcome.Failed? {
        transactions := transactions[t := Broken(ChainAnchorBreak(t, SinkWriteFailed))];
        return;
      }
      if !c.databaseWorks {
        transactions := transactions[t := Doomed];
        raised := true;
        return;
      }
      transactions := transactions[t := Anchored(AnchorRow(payload, c.now), Checkpoint(number, c.rowCount, c.now))];
    }
  }
}
