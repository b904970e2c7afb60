/**
 Concurrent appends to one chained table (with_chain_lock and append_chained in
 security/hashchain.py, write_trace in traces.py, log_step in journal.py). Every
 writer stamps its row, takes the table lock, reads the head, inserts, and
 commits or rolls back; steps of different writers interleave freely.
 */
module ChainWriters {
  import opened HashChain
  import opened Verifier
  import opened JsonText
  import opened RowContent

  /** Where a writer is between stamping its row and releasing the lock. */
  datatype Phase =
    | Idle
    | Stamped(draft: Row)
    | Locked(draft: Row)
    | HeadRead(draft: Row, head: string)
    | Inserted(row: Row)

  datatype Lock = Free | HeldBy(writer: nat)

  /** `committed` is kept in chain order, as every reader sorts it. */
  datatype State = State(committed: seq<Row>, lock: Lock, writers: map<nat, Phase>)

  datatype Step =
    | Stamp(writer: nat, draft: Row)
    | TakeLock(writer: nat)
    | ReadHead(writer: nat)
    | Insert(writer: nat)
    | Commit(writer: nat)
    | Rollback(writer: nat)

  const EMPTY := State([], Free, map[])

  function PhaseOf(s: State, w: nat): Phase
  {
    if w in s.writers then s.writers[w] else Idle
  }

  predicate PkFree(rows: seq<Row>, pk: string)
  {
    forall i :: 0 <= i < |rows| ==> rows[i].pk != pk
  }

  /** When the code, the lock and the primary key allow a step. The clock is not consulted. */
  predicate Enabled(s: State, step: Step)
  {
    match step
    case Stamp(w, draft) => PhaseOf(s, w).Idle? && draft.version == CANONICALIZATION_VERSION
    case TakeLock(w) => PhaseOf(s, w).Stamped? && s.lock == Free
    case ReadHead(w) => PhaseOf(s, w).Locked?
    case Insert(w) => PhaseOf(s, w).HeadRead?
    case Commit(w) => PhaseOf(s, w).Inserted? && PkFree(s.committed, PhaseOf(s, w).row.pk)
    case Rollback(w) => !PhaseOf(s, w).Idle?
  }

  function Place(rows: seq<Row>, row: Row): seq<Row>
  {
    if rows == [] || Precedes(row, rows[0]) then [row] + rows else [rows[0]] + Place(rows[1..], row)
  }

  function Release(s: State, w: nat): Lock
  {
    if s.lock == HeldBy(w) then Free else s.lock
  }

  function Apply(sha: Sha, t: Table, s: State, step: Step): State
    requires Enabled(s, step)
  {
    match step
    case Stamp(w, draft) => s.(writers := s.writers[w := Stamped(draft)])
    case TakeLock(w) => s.(lock := HeldBy(w), writers := s.writers[w := Locked(s.writers[w].draft)])
    case ReadHead(w) => s.(writers := s.writers[w := HeadRead(s.writers[w].draft, LastHash(sha, s.committed))])
    case Insert(w) =>
      s.(writers := s.writers[w := Inserted(Chained(sha, t, s.writers[w].draft, s.writers[w].head))])
    case Commit(w) => State(Place(s.committed, s.writers[w].row), Release(s, w), s.writers[w := Idle])
    case Rollback(w) => State(s.committed, Release(s, w), s.writers[w := Idle])
  }

  /** The clock guard: a committing row comes after every committed row. */
  predicate InOrder(rows: seq<Row>, row: Row)
  {
    rows == [] || Precedes(rows[|rows| - 1], row)
  }

  predicate Guarded(s: State, step: Step)
  {
    step.Commit? && PhaseOf(s, step.writer).Inserted? ==> InOrder(s.committed, PhaseOf(s, step.writer).row)
  }

  /** `to` is reached from `from` by some interleaving; `guard` says whether commits obey the clock guard. */
  ghost predicate Run(sha: Sha, t: Table, from: State, steps: seq<Step>, to: State, guard: bool)
    decreases steps
  {
    if steps == [] then from == to
    else
      && Enabled(from, steps[0]) && (guard ==> Guarded(from, steps[0]))
      && Run(sha, t, Apply(sha, t, from, steps[0]), steps[1..], to, guard)
  }

  // ------------------------------------------------------------- invariant

  /** What a phase knows about the table while it holds the lock. */
  ghost predicate PhaseOk(sha: Sha, t: Table, s: State, w: nat)
  {
    match PhaseOf(s, w)
    case Idle => s.lock != HeldBy(w)
    case Stamped(draft) => s.lock != HeldBy(w) && draft.version == CANONICALIZATION_VERSION
    case Locked(draft) => s.lock == HeldBy(w) && draft.version == CANONICALIZATION_VERSION
    case HeadRead(draft, head) =>
      s.lock == HeldBy(w) && draft.version == CANONICALIZATION_VERSION && head == LastHash(sha, s.committed)
    case Inserted(row) =>
      && s.lock == HeldBy(w) && row.version == CANONICALIZATION_VERSION
      && row == Chained(sha, t, row, LastHash(sha, s.committed))
  }

  ghost predicate LockDiscipline(sha: Sha, t: Table, s: State)
  {
    forall w :: PhaseOk(sha, t, s, w)
  }

  lemma {:induction false} PlaceAtEnd(rows: seq<Row>, row: Row)
    requires forall i :: 0 <= i < |rows| ==> !Precedes(row, rows[i])
    ensures Place(rows, row) == rows + [row]
  {
    if rows != [] {
      assert forall i :: 0 <= i < |rows[1..]| ==> rows[1..][i] == rows[i + 1];
      PlaceAtEnd(rows[1..], row);
    }
  }

  lemma InOrderIsLast(sha: Sha, t: Table, rows: seq<Row>, row: Row)
    requires ValidChain(sha, t, rows) && InOrder(rows, row)
    ensures Place(rows, row) == rows + [row]
  {
    forall i | 0 <= i < |rows| ensures !Precedes(row, rows[i]) {
      if i < |rows| - 1 {
        ValidIsOrdered(sha, t, rows, i, |rows| - 1);
        PrecedesIsTransitive(rows[i], rows[|rows| - 1], row);
      }
      PrecedesIsStrict(rows[i], row);
    }
    PlaceAtEnd(rows, row);
  }

  /** Appending a row chained to the current head keeps an accepted table accepted. */
  lemma AppendKeepsValid(sha: Sha, t: Table, rows: seq<Row>, row: Row)
    requires ValidChain(sha, t, rows) && InOrder(rows, row)
    requires row.version == CANONICALIZATION_VERSION && row == Chained(sha, t, row, LastHash(sha, rows))
    ensures ValidChain(sha, t, rows + [row])
  {
    var all := rows + [row];
    forall i | 0 <= i < |all| ensures GoodRow(sha, t, all, i) {
      if i < |rows| {
        assert GoodRow(sha, t, rows, i);
      }
    }
  }

  /** The stored hashes of a row play no part in its own hash. */
  lemma ChainedTwice(sha: Sha, t: Table, draft: Row, head: string)
    ensures Chained(sha, t, Chained(sha, t, draft, head), head) == Chained(sha, t, draft, head)
  {
    assert Presented(t, draft, head) == Presented(t, Chained(sha, t, draft, head), head);
  }

  lemma StepKeepsDiscipline(sha: Sha, t: Table, s: State, step: Step)
    requires LockDiscipline(sha, t, s) && Enabled(s, step)
    ensures LockDiscipline(sha, t, Apply(sha, t, s, step))
  {
    hide Preimage;
    if step.Insert? { ChainedTwice(sha, t, s.writers[step.writer].draft, s.writers[step.writer].head); }
    var next := Apply(sha, t, s, step);
    forall w ensures PhaseOk(sha, t, next, w) {
      assert PhaseOk(sha, t, s, w);
      assert PhaseOk(sha, t, s, step.writer);
    }
  }

  /**
   Over every interleaving whose commits obey the clock guard, the committed table
   passes the verifier and every writer past its lock works on the current head.
   */
  lemma {:induction false} GuardedRunsStayValid(sha: Sha, t: Table, from: State, steps: seq<Step>, to: State)
    requires Run(sha, t, from, steps, to, true)
    requires LockDiscipline(sha, t, from) && ValidChain(sha, t, from.committed)
    ensures LockDiscipline(sha, t, to) && ValidChain(sha, t, to.committed)
    decreases steps
  {
    if steps != [] {
      var step := steps[0];
      StepKeepsDiscipline(sha, t, from, step);
      if step.Commit? {
        assert PhaseOk(sha, t, from, step.writer);
        var row := from.writers[step.writer].row;
        InOrderIsLast(sha, t, from.committed, row);
        AppendKeepsValid(sha, t, from.committed, row);
      }
      hide *;
      GuardedRunsStayValid(sha, t, Apply(sha, t, from, step), steps[1..], to);
    }
  }

  /** No guarded interleaving forks the chain: the table is accepted and no link is used twice. */
  lemma GuardedRunsNeverFork(sha: Sha, t: Table, steps: seq<Step>, to: State)
    requires Run(sha, t, EMPTY, steps, to, true)
    requires FixedWidth(sha) && CollisionFree(sha, Hashed(t, to.committed))
    ensures Failures(sha, t, to.committed, |to.committed|) == []
    ensures forall i, j :: 0 <= i < j < |to.committed| ==> to.committed[i].prevHash != to.committed[j].prevHash
  {
    assert LockDiscipline(sha, t, EMPTY);
    GuardedRunsStayValid(sha, t, EMPTY, steps, to);
    AcceptedMeansValid(sha, t, to.committed);
    forall i, j | 0 <= i < j < |to.committed| ensures to.committed[i].prevHash != to.committed[j].prevHash {
      LinksAreDistinct(sha, t, to.committed, i, j);
    }
  }

  // --------------------------------------------- what the clock guard is for

  /** Where a row lands that is not the last in chain order. */
  lemma {:induction false} PlaceInside(rows: seq<Row>, row: Row) returns (p: nat)
    requires rows != [] && Precedes(row, rows[|rows| - 1])
    ensures p < |rows| && Place(rows, row) == rows[..p] + [row] + rows[p..]
  {
    if Precedes(row, rows[0]) {
      p := 0;
    } else {
      var q := PlaceInside(rows[1..], row);
      p := q + 1;
    }
  }

  lemma LateRowIsRejected(sha: Sha, t: Table, rows: seq<Row>, row: Row)
    requires ValidChain(sha, t, rows) && PkFree(rows, row.pk) && !InOrder(rows, row)
    requires row.prevHash == LastHash(sha, rows)
    requires FixedWidth(sha) && CollisionFree(sha, Hashed(t, rows))
    ensures !ValidChain(sha, t, Place(rows, row))
  {
    hide CollisionFree;
    hide Hashed;
    hide FixedWidth;
    hide Preimage;
    var n := |rows| - 1;
    PrecedesIsTotal(rows[n], row);
    var p := PlaceInside(rows, row);
    var all := Place(rows, row);
    if p == 0 { NeverGenesis(sha, t, rows, n); } else { LinksAreDistinct(sha, t, rows, n, p - 1); }
    assert all[p] == row && all[p].prevHash != Expected(sha, all, p);
    assert !GoodRow(sha, t, all, p);
  }

  /**
   The lock alone is not enough. A row that was chained to the head of an accepted
   table keeps the table accepted exactly when its key follows every committed key.
   */
  lemma CommitIsSafeExactlyInOrder(sha: Sha, t: Table, rows: seq<Row>, row: Row)
    requires ValidChain(sha, t, rows) && PkFree(rows, row.pk)
    requires row.version == CANONICALIZATION_VERSION && row == Chained(sha, t, row, LastHash(sha, rows))
    requires FixedWidth(sha) && CollisionFree(sha, Hashed(t, rows))
    ensures ValidChain(sha, t, Place(rows, row)) <==> InOrder(rows, row)
  {
    if InOrder(rows, row) {
      InOrderIsLast(sha, t, rows, row);
      AppendKeepsValid(sha, t, rows, row);
    } else {
      LateRowIsRejected(sha, t, rows, row);
    }
  }

  /** A row that stands before the very row it was chained to. */
  ghost predicate Marked(rows: seq<Row>)
  {
    exists r, l :: r in rows && l in rows && ChainedBackwards(r, l)
  }

  ghost predicate ChainedBackwards(r: Row, l: Row)
  {
    r.prevHash == l.selfHash && Precedes(r, l)
  }

  lemma {:induction false} PlaceKeepsRows(rows: seq<Row>, row: Row)
    ensures forall x :: x in Place(rows, row) <==> x == row || x in rows
  {
    if rows != [] && !Precedes(row, rows[0]) {
      PlaceKeepsRows(rows[1..], row);
      assert rows == [rows[0]] + rows[1..];
    }
  }

  /** A commit that breaks the guard leaves its mark. */
  lemma LateCommitMarks(sha: Sha, t: Table, s: State, step: Step)
    requires LockDiscipline(sha, t, s) && Enabled(s, step) && !Guarded(s, step)
    ensures Marked(Apply(sha, t, s, step).committed)
  {
    hide Preimage;
    assert PhaseOk(sha, t, s, step.writer);
    var row, last := s.writers[step.writer].row, s.committed[|s.committed| - 1];
    PrecedesIsTotal(last, row);
    assert ChainedBackwards(row, last);
    PlaceKeepsRows(s.committed, row);
  }

  /** Rows are never taken back, so a mark stays. */
  lemma StepKeepsMark(sha: Sha, t: Table, s: State, step: Step)
    requires Enabled(s, step) && Marked(s.committed)
    ensures Marked(Apply(sha, t, s, step).committed)
  {
    hide ChainedBackwards;
    hide Preimage;
    if step.Commit? { PlaceKeepsRows(s.committed, s.writers[step.writer].row); }
  }

  lemma {:induction false} RunKeepsMark(sha: Sha, t: Table, from: State, steps: seq<Step>, to: State)
    requires Run(sha, t, from, steps, to, false) && Marked(from.committed)
    ensures Marked(to.committed)
    decreases steps
  {
    hide Marked;
    hide Apply;
    hide Enabled;
    if steps != [] {
      StepKeepsMark(sha, t, from, steps[0]);
      RunKeepsMark(sha, t, Apply(sha, t, from, steps[0]), steps[1..], to);
    }
  }

  lemma {:induction false} UnguardedRunsAreMarked(sha: Sha, t: Table, from: State, steps: seq<Step>, to: State)
    requires Run(sha, t, from, steps, to, false) && !Run(sha, t, from, steps, to, true)
    requires LockDiscipline(sha, t, from)
    ensures Marked(to.committed)
    decreases steps
  {
    hide Marked;
    hide Apply;
    hide Enabled;
    hide Guarded;
    hide LockDiscipline;
    var step, next := steps[0], Apply(sha, t, from, steps[0]);
    if Guarded(from, step) {
      StepKeepsDiscipline(sha, t, from, step);
      UnguardedRunsAreMarked(sha, t, next, steps[1..], to);
    } else {
      LateCommitMarks(sha, t, from, step);
      RunKeepsMark(sha, t, next, steps[1..], to);
    }
  }

  lemma MarkedIsRejected(sha: Sha, t: Table, rows: seq<Row>)
    requires Marked(rows) && FixedWidth(sha) && CollisionFree(sha, Hashed(t, rows))
    ensures !ValidChain(sha, t, rows)
  {
    hide CollisionFree;
    hide Hashed;
    hide FixedWidth;
    var r, l :| r in rows && l in rows && ChainedBackwards(r, l);
    var i :| 0 <= i < |rows| && rows[i] == r;
    var j :| 0 <= j < |rows| && rows[j] == l;
    PrecedesIsStrict(r, l);
    if ValidChain(sha, t, rows) {
      MarkNeedsGap(sha, t, rows, i, j);
    }
  }

  /** In an accepted table a row stands directly behind the row it is chained to. */
  lemma MarkNeedsGap(sha: Sha, t: Table, rows: seq<Row>, i: nat, j: nat)
    requires FixedWidth(sha) && CollisionFree(sha, Hashed(t, rows)) && ValidChain(sha, t, rows)
    requires i < |rows| && j < |rows| && rows[i].prevHash == rows[j].selfHash
    ensures i == j + 1 && Precedes(rows[j], rows[i])
  {
    hide CollisionFree;
    hide Hashed;
    hide FixedWidth;
    assert GoodRow(sha, t, rows, i);
    if i == 0 {
      NeverGenesis(sha, t, rows, j);
    } else if i != j + 1 {
      LinksAreDistinct(sha, t, rows, i - 1, j);
    } else {
      ValidIsOrdered(sha, t, rows, j, i);
    }
  }

  /**
   Of any interleaving of any number of writers: the final table is accepted
   exactly when every commit obeyed the clock guard.  Later rows repair nothing.
   */
  lemma AcceptedExactlyWhenGuarded(sha: Sha, t: Table, steps: seq<Step>, to: State)
    requires Run(sha, t, EMPTY, steps, to, false)
    requires FixedWidth(sha) && CollisionFree(sha, Hashed(t, to.committed))
    ensures Failures(sha, t, to.committed, |to.committed|) == [] <==> Run(sha, t, EMPTY, steps, to, true)
  {
    hide CollisionFree;
    hide Hashed;
    hide FixedWidth;
    hide Run;
    hide Failures;
    assert LockDiscipline(sha, t, EMPTY);
    hide LockDiscipline;
    AcceptedMeansValid(sha, t, to.committed);
    if Run(sha, t, EMPTY, steps, to, true) {
      GuardedRunsStayValid(sha, t, EMPTY, steps, to);
    } else {
      UnguardedRunsAreMarked(sha, t, EMPTY, steps, to);
      MarkedIsRejected(sha, t, to.committed);
    }
  }

  /** The input: an accepted table of two rows, whose link is not the documented one. */
  lemma DocumentedLinkInput(sha: Sha, t: Table) returns (rows: seq<Row>)
    requires FixedWidth(sha)
    ensures |rows| == 2 && ValidChain(sha, t, rows)
    ensures CollisionFree(sha, Hashed(t, rows) + Documented(t, rows)) ==> !LinkAsDocumented(sha, t, rows, 1)
  {
    hide Preimage;
    var a := Chained(sha, t, Draft("a", 1), GenesisHash(sha));
    var b := Chained(sha, t, Draft("b", 2), a.selfHash);
    ChainedTwice(sha, t, Draft("a", 1), GenesisHash(sha));
    ChainedTwice(sha, t, Draft("b", 2), a.selfHash);
    AppendKeepsValid(sha, t, [], a);
    assert [] + [a] == [a];
    AppendKeepsValid(sha, t, [a], b);
    rows := [a] + [b];
    if CollisionFree(sha, Hashed(t, rows) + Documented(t, rows)) { DocumentedLinkFails(sha, t, rows, 1); }
  }

  // ------------------------------------------------------- one whole append

  lemma Then(sha: Sha, t: Table, s: State, step: Step, rest: seq<Step>, to: State)
    requires Enabled(s, step) && Run(sha, t, Apply(sha, t, s, step), rest, to, false)
    ensures Run(sha, t, s, [step] + rest, to, false)
  {
    assert ([step] + rest)[1..] == rest;
  }

  lemma {:induction false} Join(sha: Sha, t: Table, a: State, first: seq<Step>, b: State, second: seq<Step>, c: State)
    requires Run(sha, t, a, first, b, false) && Run(sha, t, b, second, c, false)
    ensures Run(sha, t, a, first + second, c, false)
    decreases first
  {
    if first == [] {
      assert first + second == second;
    } else {
      Join(sha, t, Apply(sha, t, a, first[0]), first[1..], b, second, c);
      Then(sha, t, a, first[0], first[1..] + second, c);
      assert first + second == [first[0]] + (first[1..] + second);
    }
  }

  /** What a writer that finds the lock free leaves behind. */
  function AfterAppend(sha: Sha, t: Table, s: State, w: nat, draft: Row, commits: bool): State
  {
    State(if commits then Place(s.committed, Chained(sha, t, draft, LastHash(sha, s.committed))) else s.committed,
          Free, s.writers[w := Idle])
  }

  function Finish(w: nat, commits: bool): seq<Step>
  {
    [TakeLock(w), ReadHead(w), Insert(w), if commits then Commit(w) else Rollback(w)]
  }

  /** A stamped writer that finds the lock free can run to its end undisturbed. */
  lemma FinishIsARun(sha: Sha, t: Table, s: State, w: nat, draft: Row, commits: bool)
    requires PhaseOf(s, w) == Stamped(draft) && s.lock == Free
    requires commits ==> PkFree(s.committed, draft.pk)
    ensures Run(sha, t, s, Finish(w, commits), AfterAppend(sha, t, s, w, draft, commits), false)
  {
    hide Preimage;
    var last := if commits then Commit(w) else Rollback(w);
    var s1 := Apply(sha, t, s, TakeLock(w));
    var s2 := Apply(sha, t, s1, ReadHead(w));
    var s3 := Apply(sha, t, s2, Insert(w));
    var to := AfterAppend(sha, t, s, w, draft, commits);
    assert Apply(sha, t, s3, last).writers == to.writers;
    assert Apply(sha, t, s3, last) == to;
    hide Apply;
    assert Run(sha, t, to, [], to, false);
    Then(sha, t, s3, last, [], to);
    Then(sha, t, s2, Insert(w), [last] + [], to);
    Then(sha, t, s1, ReadHead(w), [Insert(w)] + ([last] + []), to);
    Then(sha, t, s, TakeLock(w), [ReadHead(w)] + ([Insert(w)] + ([last] + [])), to);
    assert Finish(w, commits) == [TakeLock(w)] + ([ReadHead(w)] + ([Insert(w)] + ([last] + [])));
  }

  lemma AppendIsARun(sha: Sha, t: Table, s: State, w: nat, draft: Row, commits: bool)
    requires PhaseOf(s, w) == Idle && s.lock == Free && draft.version == CANONICALIZATION_VERSION
    requires commits ==> PkFree(s.committed, draft.pk)
    ensures Run(sha, t, s, [Stamp(w, draft)] + Finish(w, commits), AfterAppend(sha, t, s, w, draft, commits), false)
  {
    var s1 := Apply(sha, t, s, Stamp(w, draft));
    FinishIsARun(sha, t, s1, w, draft, commits);
    assert AfterAppend(sha, t, s1, w, draft, commits).writers == AfterAppend(sha, t, s, w, draft, commits).writers;
    Then(sha, t, s, Stamp(w, draft), Finish(w, commits), AfterAppend(sha, t, s, w, draft, commits));
  }

  /** `now` is `was` with the draft at place `p`, linked to `head` and carrying the digest of `text`. */
  ghost predicate HoldsAt(sha: Sha, was: seq<Row>, draft: Row, now: seq<Row>, p: nat, head: string, text: string)
  {
    var row := Row(draft.pk, draft.clock, draft.version, draft.columns, head, sha(text));
    && p <= |was| && now == was[..p] + [row] + was[p..]
    && (forall i :: 0 <= i < p ==> !StandsBefore(row, was[i]))
    && (p < |was| ==> StandsBefore(row, was[p]))
  }

  /**
   `now` is `was` with one row more: what the writer stamped, linked to the last
   stored hash, its own hash over every column, and placed by clock and key.
   */
  ghost predicate IsAppended(sha: Sha, t: Table, was: seq<Row>, draft: Row, now: seq<Row>)
  {
    exists p, head, text, members ::
      && HoldsAt(sha, was, draft, now, p, head, text)
      && IsHead(sha, was, head) && IsHashedText(t, draft, head, text, members)
  }

  lemma {:induction false} PlaceExactly(rows: seq<Row>, row: Row) returns (p: nat)
    ensures p <= |rows| && Place(rows, row) == rows[..p] + [row] + rows[p..]
    ensures (forall i :: 0 <= i < p ==> !StandsBefore(row, rows[i])) && (p < |rows| ==> StandsBefore(row, rows[p]))
  {
    p := 0;
    if rows != [] {
      PrecedesExactly(row, rows[0]);
      hide StandsBefore;
      if !Precedes(row, rows[0]) {
        var q := PlaceExactly(rows[1..], row);
        p := q + 1;
        forall i | 0 <= i < p ensures !StandsBefore(row, rows[i]) {
          if i > 0 { assert rows[i] == rows[1..][i - 1]; }
        }
      }
    }
  }

  lemma AppendedExactly(sha: Sha, t: Table, rows: seq<Row>, draft: Row)
    ensures IsAppended(sha, t, rows, draft, Place(rows, Chained(sha, t, draft, LastHash(sha, rows))))
  {
    hide StandsBefore;
    hide IsHashedText;
    hide Preimage;
    hide Place;
    var head := LastHash(sha, rows);
    HashCoversTheRow(sha, t, draft, head);
    var text, members :| ChainPair(sha, t, draft, head) == (head, sha(text)) && IsHashedText(t, draft, head, text, members);
    var row := Chained(sha, t, draft, head);
    var p := PlaceExactly(rows, row);
    assert HoldsAt(sha, rows, draft, Place(rows, row), p, head, text);
  }

  /** The table as the writers see it, with the append each of them performs. */
  class ChainedTable {
    const table: Table
    var committed: seq<Row>
    var lock: Lock
    var writers: map<nat, Phase>

    constructor (t: Table)
      ensures table == t && Abstract() == EMPTY
    {
      table := t;
      committed := [];
      lock := Free;
      writers := map[];
    }

    ghost function Abstract(): State
      reads this
    {
      State(committed, lock, writers)
    }

    method ReadLastHash(sha: Sha) returns (head: string)
      ensures head == LastHash(sha, committed) && IsHead(sha, committed, head)
    {
      if committed == [] {
        head := GenesisHash(sha);
      } else {
        head := committed[|committed| - 1].selfHash;
      }
    }

    /**
     One `write_trace` or `log_step`: lock, head, hashes, insert, then commit, or
     roll back when the commit fails. The lock is free once it has been granted.
     */
    method Append(sha: Sha, w: nat, draft: Row, databaseAccepts: bool) returns (ok: bool)
      requires lock == Free && PhaseOf(Abstract(), w) == Idle && draft.version == CANONICALIZATION_VERSION
      modifies this
      ensures ok <==> databaseAccepts && PkFree(old(committed), draft.pk)
      ensures ok ==> IsAppended(sha, table, old(committed), draft, committed)
      ensures !ok ==> committed == old(committed)
      ensures lock == Free && writers == old(writers)[w := Idle]
      ensures Abstract() == AfterAppend(sha, table, old(Abstract()), w, draft, ok)
      ensures Run(sha, table, old(Abstract()), [Stamp(w, draft)] + Finish(w, ok), Abstract(), false)
    {
      AppendIsARun(sha, table, Abstract(), w, draft, databaseAccepts && PkFree(committed, draft.pk));
      AppendedExactly(sha, table, committed, draft);
      lock := HeldBy(w);
      var prevHash := ReadLastHash(sha);
      var (prev, self) := ChainPair(sha, table, draft, prevHash);
      var row := draft.(prevHash := prev, selfHash := self);
      ok := databaseAccepts && PkFree(committed, draft.pk);
      if ok {
        committed := Place(committed, row);
      }
      lock := Free;
      writers := writers[w := Idle];
    }
  }

  // ------------------------------------------------------- the missing guard

  function Draft(pk: string, clock: int): Row
  {
    Row(pk, clock, CANONICALIZATION_VERSION, [], "", "")
  }

  /**
   The timestamp is taken before the lock, so nothing enforces the guard. In this
   run A stamps before B but commits after it, and C then continues from B: A and C
   share a link, and the verifier rejects the table.
   */
  lemma LateCommitForks(sha: Sha, t: Table) returns (steps: seq<Step>, to: State)
    ensures Run(sha, t, EMPTY, steps, to, false)
    ensures |to.committed| == 3 && to.committed[0].prevHash == to.committed[2].prevHash
    ensures to.committed[1].selfHash != GenesisHash(sha) ==> !ValidChain(sha, t, to.committed)
  {
    hide Preimage;
    var a, b, c := Draft("a", 1), Draft("b", 2), Draft("c", 3);
    var s0 := Apply(sha, t, EMPTY, Stamp(0, a));
    AppendIsARun(sha, t, s0, 1, b, true);
    var s1 := AfterAppend(sha, t, s0, 1, b, true);
    var rowB := Chained(sha, t, b, GenesisHash(sha));
    assert s1.committed == [rowB];
    FinishIsARun(sha, t, s1, 0, a, true);
    var s2 := AfterAppend(sha, t, s1, 0, a, true);
    var rowA := Chained(sha, t, a, rowB.selfHash);
    assert s2.committed == [rowA, rowB];
    AppendIsARun(sha, t, s2, 2, c, true);
    to := AfterAppend(sha, t, s2, 2, c, true);
    var rowC := Chained(sha, t, c, rowB.selfHash);
    assert to.committed == [rowA, rowB, rowC] by { ThirdIsLast(rowA, rowB, rowC); }
    var append1, append2 := [Stamp(1, b)] + Finish(1, true), [Stamp(2, c)] + Finish(2, true);
    Join(sha, t, s1, Finish(0, true), s2, append2, to);
    Join(sha, t, s0, append1, s1, Finish(0, true) + append2, to);
    Then(sha, t, EMPTY, Stamp(0, a), append1 + (Finish(0, true) + append2), to);
    steps := [Stamp(0, a)] + (append1 + (Finish(0, true) + append2));
    assert to.committed[1].selfHash != GenesisHash(sha) ==> !GoodRow(sha, t, to.committed, 0);
  }

  lemma ThirdIsLast(a: Row, b: Row, c: Row)
    requires a.clock < b.clock < c.clock
    ensures Place([a, b], c) == [a, b, c]
  {
    PlaceAtEnd([a, b], c);
  }
}
