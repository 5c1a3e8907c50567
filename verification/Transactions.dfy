/** What each transaction of the evaluation store answers and what it leaves, said of the rows and outcomes
    themselves: each reply has one condition, and everything a transaction does not name stays. */
module Transactions {
  import opened Options
  import opened Budget

  /** The sample's row, on its line; identifiers are unique in every reachable store. */
  predicate RowOf(t: Tables, i: nat, id: string, line: string) {
    i < |t.rows| && t.rows[i].id == id && t.rows[i].line == line
  }

  predicate NoRow(t: Tables, id: string, line: string) {
    forall i :: 0 <= i < |t.rows| ==> !(t.rows[i].id == id && t.rows[i].line == line)
  }

  /** The outcome recorded of a task. */
  predicate FinishedWith(t: Tables, line: string, taskId: string, outcome: string) {
    (line, taskId) in t.tasks && t.tasks[(line, taskId)] == Some(outcome)
  }

  ghost predicate IsFinished(t: Tables, line: string, taskId: string) {
    exists outcome :: FinishedWith(t, line, taskId, outcome)
  }

  /** The tables differ at most in one row, which keeps what was recorded of the sample. */
  predicate OnlyRow(t: Tables, u: Tables, i: nat) {
    && |u.rows| == |t.rows| && i < |t.rows| && u.tasks == t.tasks
    && (forall k :: 0 <= k < |t.rows| && k != i ==> u.rows[k] == t.rows[k])
    && SameSample(t.rows[i], u.rows[i])
  }

  predicate SameSample(a: Sample, b: Sample) {
    && a.id == b.id && a.line == b.line && a.kind == b.kind && a.taskId == b.taskId
    && a.document == b.document && a.request == b.request && a.requestHash == b.requestHash
  }

  /** What has been spent on a row so far. */
  predicate Spent(row: Sample, started: bool, reserved: nat, evaluation: Option<Evaluation>, judgment: Option<Label>) {
    row.started == started && row.reserved == reserved && row.evaluation == evaluation && row.judgment == judgment
  }

  lemma FindOnExactly(t: Tables, i: nat, id: string, line: string)
    requires Distinct(t.rows)
    ensures RowOf(t, i, id, line) ==> FindOn(t.rows, id, line) == Some(i) && Find(t.rows, id) == Some(i)
    ensures NoRow(t, id, line) ==> FindOn(t.rows, id, line).None?
  {
    if RowOf(t, i, id, line) {
      FindUnique(t.rows, i);
    }
  }

  // ----- recording -----

  /** The line is one of the pilot's, and the packet passes its validation. */
  predicate Admissible(cfg: Config, line: string, packet: Packet) {
    line in cfg.lines && cfg.packetOk(packet)
  }

  predicate Taken(t: Tables, id: string) {
    exists i :: 0 <= i < |t.rows| && t.rows[i].id == id
  }

  predicate SameAgain(t: Tables, line: string, packet: Packet, snapshot: string) {
    exists i :: 0 <= i < |t.rows| && t.rows[i].id == packet.id && t.rows[i].line == line
      && t.rows[i].document.packet == packet && t.rows[i].document.snapshot == snapshot
  }

  /** Development and synthetic samples never share a task. */
  predicate Unmixed(rows: seq<Sample>) {
    forall i, j :: 0 <= i < |rows| && 0 <= j < |rows| && rows[i].line == rows[j].line && rows[i].taskId == rows[j].taskId ==>
      rows[i].document.packet.synthetic == rows[j].document.packet.synthetic
  }

  predicate FitsTask(t: Tables, line: string, packet: Packet) {
    forall i :: 0 <= i < |t.rows| && t.rows[i].line == line && t.rows[i].taskId == packet.taskId ==>
      t.rows[i].document.packet.synthetic == packet.synthetic
  }

  /** A sample is recorded anew if and only if it is admissible, its identifier is free, its task is not finished,
      and every sample of the task is of its kind; recorded again if and only if it is there already, on the same
      line with the same content. */
  lemma RecordsExactly(t: Tables, cfg: Config, line: string, packet: Packet, snapshot: string)
    requires Distinct(t.rows) && Unmixed(t.rows)
    ensures var o := StoreSample(t, cfg, line, packet, snapshot);
      && (o.reply.Recorded? <==>
            && Admissible(cfg, line, packet)
            && (SameAgain(t, line, packet, snapshot)
                || (!Taken(t, packet.id) && !IsFinished(t, line, packet.taskId) && FitsTask(t, line, packet))))
      && (o.reply.Recorded? || (o.reply.Refused? && o.tables == t))
      && (o.reply.Recorded? && Taken(t, packet.id) ==> o.tables == t)
  {
    var o, f := StoreSample(t, cfg, line, packet, snapshot), Find(t.rows, packet.id);
    if SameAgain(t, line, packet, snapshot) {
      var i :| 0 <= i < |t.rows| && t.rows[i].id == packet.id && t.rows[i].line == line
        && t.rows[i].document.packet == packet && t.rows[i].document.snapshot == snapshot;
      FindUnique(t.rows, i);
    }
    if Taken(t, packet.id) {
      assert f.Some?;
    }
    FinishedKnown(t, line, packet.taskId);
    PeerSpeaks(t, line, packet);
  }

  lemma FinishedKnown(t: Tables, line: string, taskId: string)
    ensures IsFinished(t, line, taskId) <==> (line, taskId) in t.tasks && t.tasks[(line, taskId)].Some?
  {
    if (line, taskId) in t.tasks && t.tasks[(line, taskId)].Some? {
      assert FinishedWith(t, line, taskId, t.tasks[(line, taskId)].value);
    }
  }

  /** One sample of the task speaks for all of them. */
  lemma PeerSpeaks(t: Tables, line: string, packet: Packet)
    requires Unmixed(t.rows)
    ensures var p := Peer(t.rows, line, packet.taskId);
      FitsTask(t, line, packet) <==> (p.None? || t.rows[p.value].document.packet.synthetic == packet.synthetic)
  {}

  /** What recording anew adds: one row, nothing spent on it, and the task if it is new. */
  lemma RecordedAnew(t: Tables, cfg: Config, line: string, packet: Packet, snapshot: string)
    requires StoreSample(t, cfg, line, packet, snapshot).reply.Recorded? && !Taken(t, packet.id)
    ensures var u, n := StoreSample(t, cfg, line, packet, snapshot).tables, |t.rows|;
      && |u.rows| == n + 1 && u.rows[..n] == t.rows && Spent(u.rows[n], false, 0, None, None)
      && u.rows[n].id == packet.id && u.rows[n].line == line && u.rows[n].kind == packet.kind && u.rows[n].taskId == packet.taskId
      && u.rows[n].document.packet == packet && u.rows[n].document.snapshot == snapshot
      && u.rows[n].request == cfg.requestOf(packet) && u.rows[n].requestHash == cfg.digest(cfg.requestOf(packet))
      && u.tasks.Keys == t.tasks.Keys + {(line, packet.taskId)}
      && (forall k :: k in u.tasks ==> u.tasks[k] == if k in t.tasks then t.tasks[k] else None)
  {
    var f := Find(t.rows, packet.id);
    assert f.None?;
  }

  /** No task ever holds samples of both kinds. */
  lemma {:induction false} RunUnmixed(cfg: Config, run: seq<World>, actions: seq<Action>, i: nat)
    requires IsRun(World(EMPTY, {}), cfg, run, actions) && i < |run|
    ensures Unmixed(run[i].tables.rows)
  {
    if i > 0 {
      RunUnmixed(cfg, run, actions, i - 1);
      StepUnmixed(run[i - 1], cfg, actions[i - 1]);
    }
  }

  lemma StepUnmixed(w: World, cfg: Config, a: Action)
    requires Unmixed(w.tables.rows)
    ensures Unmixed(Step(w, cfg, a).tables.rows)
  {
    var t, u := w.tables, Step(w, cfg, a).tables;
    StepGrows(w, cfg, a);
    if a.DoStore? {
      StoreUnmixed(t, cfg, a.line, a.packet, a.snapshot);
    } else {
      StepSameLength(w, cfg, a);
      hide Step, Unmixed;
      SameUnmixed(t.rows, u.rows);
    }
  }

  lemma SameUnmixed(a: seq<Sample>, b: seq<Sample>)
    requires Unmixed(a) && |a| == |b| && forall i :: 0 <= i < |a| ==> Kept(a[i], b[i])
    ensures Unmixed(b)
  {
    forall i, j | 0 <= i < |b| && 0 <= j < |b| && b[i].line == b[j].line && b[i].taskId == b[j].taskId
      ensures b[i].document.packet.synthetic == b[j].document.packet.synthetic
    {
      assert Kept(a[i], b[i]) && Kept(a[j], b[j]);
    }
  }

  lemma StepSameLength(w: World, cfg: Config, a: Action)
    requires !a.DoStore?
    ensures |Step(w, cfg, a).tables.rows| == |w.tables.rows|
  {
    hide CountStarted, SumReserved, Find, FindOn;
    match a
    case DoBegin(id, line, hash, keyOk) =>
    case DoComplete(id, result) =>
    case Crash(id) =>
    case DoRecover(id, line) =>
    case DoLabel(id, line, judgment) =>
    case DoFinish(line, taskId, outcome) =>
  }

  lemma StoreUnmixed(t: Tables, cfg: Config, line: string, packet: Packet, snapshot: string)
    requires Unmixed(t.rows)
    ensures Unmixed(StoreSample(t, cfg, line, packet, snapshot).tables.rows)
  {
    PeerSpeaks(t, line, packet);
  }

  // ----- evaluating -----

  /** The request on record is the one reviewed, by its recorded digest and by its digest now. */
  predicate Reviewed(row: Sample, cfg: Config, reviewedHash: string) {
    row.requestHash == reviewedHash && cfg.digest(row.request) == reviewedHash
  }

  lemma {:induction false} CountedExactly(rows: seq<Sample>)
    ensures CountStarted(rows) == |set i | 0 <= i < |rows| && rows[i].started|
    decreases |rows|
  {
    if rows != [] {
      var n := |rows| - 1;
      CountedExactly(rows[..n]);
      var before, all := set i | 0 <= i < n && rows[..n][i].started, set i | 0 <= i < |rows| && rows[i].started;
      assert all == if rows[n].started then before + {n} else before;
    }
  }

  /** One more call, at its full reservation, stays within the budget. */
  predicate Affordable(t: Tables, cfg: Config) {
    CountStarted(t.rows) + 1 <= cfg.maxCalls && SumReserved(t.rows) + cfg.reservePerCall <= cfg.maxInputTokens
  }

  /** Each answer to the start of an evaluation, by its condition. */
  lemma BeginsExactly(t: Tables, cfg: Config, id: string, line: string, reviewedHash: string, keyOk: bool, i: nat)
    requires Distinct(t.rows)
    ensures NoRow(t, id, line) ==> Begin(t, cfg, id, line, reviewedHash, keyOk) == Outcome(t, Refused)
    ensures RowOf(t, i, id, line) ==>
      var row, o := t.rows[i], Begin(t, cfg, id, line, reviewedHash, keyOk);
      var open := Reviewed(row, cfg, reviewedHash) && row.evaluation.None? && !row.started;
      && (o.reply.Started? <==> open && keyOk && Affordable(t, cfg))
      && (o.reply.Exhausted? <==> open && keyOk && !Affordable(t, cfg))
      && (o.reply.NoCredential? <==> open && !keyOk)
      && (o.reply.InFlight? <==> Reviewed(row, cfg, reviewedHash) && row.evaluation.None? && row.started)
      && (o.reply.Reused? <==> Reviewed(row, cfg, reviewedHash) && row.evaluation.Some?)
      && (o.reply.Refused? <==> !Reviewed(row, cfg, reviewedHash))
      && OnlyRow(t, o.tables, i)
      && (o.reply.Started? ==> Spent(o.tables.rows[i], true, cfg.reservePerCall, None, row.judgment))
      && (o.reply.NoCredential? ==>
            Spent(o.tables.rows[i], false, row.reserved, Some(Unavailable("missing_or_invalid_credential")), row.judgment))
      && (!o.reply.Started? && !o.reply.NoCredential? ==> o.tables == t)
  {
    hide CountStarted, SumReserved;
    FindOnExactly(t, i, id, line);
  }

  /** A call that succeeded costs what it used, any other its whole reservation. */
  function Charged(result: Evaluation, cfg: Config): nat {
    match result
    case Succeeded(n, _) => n
    case Unavailable(_) => cfg.reservePerCall
  }

  /** Settling writes the result over nothing, and charges for it. */
  lemma CompletesExactly(t: Tables, cfg: Config, id: string, result: Evaluation, i: nat)
    requires Distinct(t.rows) && i < |t.rows| && t.rows[i].id == id
    ensures var row, o := t.rows[i], Complete(t, cfg, id, result);
      && (o.reply.Settled? <==> row.evaluation.None?) && (o.reply.Reused? <==> row.evaluation.Some?)
      && (o.reply.Reused? ==> o.tables == t)
      && (o.reply.Settled? ==>
            && OnlyRow(t, o.tables, i)
            && Spent(o.tables.rows[i], row.started, Charged(result, cfg), Some(result), row.judgment))
  {
    FindUnique(t.rows, i);
  }

  lemma RecoversExactly(t: Tables, id: string, line: string, i: nat)
    requires Distinct(t.rows)
    ensures NoRow(t, id, line) ==> Recover(t, id, line) == Outcome(t, Refused)
    ensures RowOf(t, i, id, line) ==>
      var row, o := t.rows[i], Recover(t, id, line);
      && (o.reply.Settled? <==> row.started && row.evaluation.None?)
      && (!o.reply.Settled? ==> o == Outcome(t, Refused))
      && (o.reply.Settled? ==>
            && OnlyRow(t, o.tables, i)
            && Spent(o.tables.rows[i], true, row.reserved, Some(Unavailable("interrupted_billing_unknown")), row.judgment))
  {
    FindOnExactly(t, i, id, line);
  }

  // ----- judging -----

  /** A label is recorded if and only if it fits its case and repeats the one on record, if any. */
  lemma LabelsExactly(t: Tables, cfg: Config, id: string, line: string, judgment: Label, i: nat)
    requires Distinct(t.rows)
    ensures NoRow(t, id, line) ==> LabelCase(t, cfg, id, line, judgment) == Outcome(t, Refused)
    ensures RowOf(t, i, id, line) ==>
      var row, o := t.rows[i], LabelCase(t, cfg, id, line, judgment);
      && (o.reply.Labelled? <==> cfg.labelOk(judgment, row.kind, row.document.packet.actor) && row.judgment in {None, Some(judgment)})
      && (!o.reply.Labelled? ==> o == Outcome(t, Refused))
      && (o.reply.Labelled? ==>
            && OnlyRow(t, o.tables, i)
            && Spent(o.tables.rows[i], row.started, row.reserved, row.evaluation, Some(judgment)))
  {
    FindOnExactly(t, i, id, line);
  }

  /** An outcome is recorded if and only if it is valid, the task known, and no other outcome on record. */
  lemma FinishesExactly(t: Tables, cfg: Config, line: string, taskId: string, outcome: string)
    ensures var o := Finish(t, cfg, line, taskId, outcome);
      && (o.reply.Finished? <==>
            && cfg.outcomeOk(outcome) && (line, taskId) in t.tasks
            && forall other :: FinishedWith(t, line, taskId, other) ==> other == outcome)
      && (!o.reply.Finished? ==> o == Outcome(t, Refused))
      && (o.reply.Finished? ==>
            && o.tables.rows == t.rows && o.tables.tasks.Keys == t.tasks.Keys
            && FinishedWith(o.tables, line, taskId, outcome)
            && forall k :: k in t.tasks && k != (line, taskId) ==> o.tables.tasks[k] == t.tasks[k])
  {
    if (line, taskId) in t.tasks && t.tasks[(line, taskId)].Some? {
      assert FinishedWith(t, line, taskId, t.tasks[(line, taskId)].value);
    }
  }

  /** What is there to show of a row. */
  ghost predicate Shows(t: Tables, i: nat, id: string, line: string, shown: Revealed) {
    && RowOf(t, i, id, line) && IsFinished(t, line, t.rows[i].taskId)
    && t.rows[i].judgment == Some(shown.judgment)
    && t.rows[i].evaluation == shown.evaluation && t.rows[i].document.packet.baseline == shown.baseline
  }

  /** A case is shown if and only if it is on the line, its task is finished and a label is on record; what is
      shown is its own baseline, evaluation and label. */
  lemma RevealsExactly(t: Tables, id: string, line: string, shown: Revealed)
    requires Distinct(t.rows)
    ensures Reveal(t, id, line) == Some(shown) <==> exists i: nat :: Shows(t, i, id, line, shown)
  {
    if Reveal(t, id, line) == Some(shown) {
      var i := FindOn(t.rows, id, line).value;
      FinishedKnown(t, line, t.rows[i].taskId);
      assert Shows(t, i, id, line, shown);
    }
    if i: nat :| Shows(t, i, id, line, shown) {
      FindOnExactly(t, i, id, line);
      FinishedKnown(t, line, t.rows[i].taskId);
    }
  }

  // ----- restoring -----

  /** A row of a checkpoint that is consistent in itself: recorded by the store's rules, its request and digest
      its packet's, and its reservation what its call may have cost. */
  predicate Admitted(row: Sample, cfg: Config, tasks: map<TaskKey, Option<string>>) {
    && Admissible(cfg, row.line, row.document.packet) && (row.line, row.taskId) in tasks
    && row.document.packet.id == row.id && row.document.packet.taskId == row.taskId && row.document.packet.kind == row.kind
    && row.request == cfg.requestOf(row.document.packet) && row.requestHash == cfg.digest(row.request)
    && row.reserved <= MAX_NUMBER
    && (row.judgment.Some? ==> cfg.labelOk(row.judgment.value, row.kind, row.document.packet.actor))
    && match row.evaluation
       case Some(Succeeded(n, _)) => n <= USAGE_BOUND && row.reserved == n && row.started
       case _ => row.started ==> row.reserved >= cfg.reservePerCall
  }

  lemma RowRestored(row: Sample, cfg: Config, tasks: map<TaskKey, Option<string>>)
    ensures RestoreRow(row, cfg, tasks).Some? <==> Admitted(row, cfg, tasks)
    ensures RestoreRow(row, cfg, tasks).Some? ==> Resumed(row, RestoreRow(row, cfg, tasks).value)
  {}

  /** A restored row is the checkpoint's, but for a call under way. */
  predicate RowsResumed(rows: seq<Sample>, r: seq<Sample>) {
    |r| == |rows| && forall i :: 0 <= i < |rows| ==> Resumed(rows[i], r[i])
  }

  lemma {:induction false} RowsExactly(rows: seq<Sample>, cfg: Config, tasks: map<TaskKey, Option<string>>)
    ensures RestoreRows(rows, cfg, tasks).Some? <==>
      Distinct(rows) && forall i :: 0 <= i < |rows| ==> Admitted(rows[i], cfg, tasks)
    ensures RestoreRows(rows, cfg, tasks).Some? ==> RowsResumed(rows, RestoreRows(rows, cfg, tasks).value)
    decreases |rows|
  {
    hide RestoreRow, RestoreRows, Admitted, Resumed, Distinct, RowsResumed;
    if rows == [] {
      NoneRestored(cfg, tasks);
      NothingResumed();
    } else {
      var n := |rows| - 1;
      RowsExactly(rows[..n], cfg, tasks);
      RowRestored(rows[n], cfg, tasks);
      RowsLast(rows, cfg, tasks);
      DistinctLast(rows);
      var init := RestoreRows(rows[..n], cfg, tasks);
      if init.Some? {
        NotTaken(rows[..n], init.value, rows[n].id);
        if RestoreRow(rows[n], cfg, tasks).Some? {
          ResumedLast(rows, init.value, RestoreRow(rows[n], cfg, tasks).value);
        }
      }
    }
  }

  lemma NothingResumed()
    ensures Distinct([]) && RowsResumed([], [])
  {}

  lemma RowsLast(rows: seq<Sample>, cfg: Config, tasks: map<TaskKey, Option<string>>)
    requires rows != []
    ensures var n := |rows| - 1; var init, one := RestoreRows(rows[..n], cfg, tasks), RestoreRow(rows[n], cfg, tasks);
      RestoreRows(rows, cfg, tasks) == if init.Some? && Find(init.value, rows[n].id).None? && one.Some?
        then Some(init.value + [one.value]) else None
  {}

  lemma DistinctLast(rows: seq<Sample>)
    requires rows != []
    ensures var n := |rows| - 1; Distinct(rows) <==> Distinct(rows[..n]) && forall i :: 0 <= i < n ==> rows[..n][i].id != rows[n].id
  {
    var n := |rows| - 1;
    assert forall i :: 0 <= i < n ==> rows[..n][i] == rows[i];
  }

  lemma NotTaken(rows: seq<Sample>, r: seq<Sample>, id: string)
    requires RowsResumed(rows, r)
    ensures Find(r, id).None? <==> forall i :: 0 <= i < |rows| ==> rows[i].id != id
  {
    assert forall i :: 0 <= i < |rows| ==> Resumed(rows[i], r[i]) && r[i].id == rows[i].id;
  }

  lemma ResumedLast(rows: seq<Sample>, r: seq<Sample>, one: Sample)
    requires rows != [] && RowsResumed(rows[..|rows| - 1], r) && Resumed(rows[|rows| - 1], one)
    ensures RowsResumed(rows, r + [one])
  {
    hide Resumed;
    forall i | 0 <= i < |rows|
      ensures Resumed(rows[i], (r + [one])[i])
    {
      if i < |r| {
        assert Resumed(rows[..|rows| - 1][i], r[i]);
      }
    }
  }

  predicate TaskOk(key: TaskKey, outcome: Option<string>, cfg: Config) {
    key.0 in cfg.lines && cfg.identifierOk(key.1) && (outcome.Some? ==> cfg.outcomeOk(outcome.value))
  }

  /** A checkpoint is restored if and only if the store is empty, the checkpoint within the size limits, its tasks
      and rows each in order, and its identifiers unique; then every row and task is the checkpoint's, a call
      under way taken for interrupted. */
  lemma RestoresExactly(t: Tables, rows: seq<Sample>, tasks: map<TaskKey, Option<string>>, cfg: Config)
    ensures var r := Restore(t, rows, tasks, cfg);
      && (r.Some? <==>
            && t.rows == [] && t.tasks == map[] && |rows| <= CHECKPOINT_LIMIT && |tasks| <= CHECKPOINT_LIMIT
            && (forall k :: k in tasks ==> TaskOk(k, tasks[k], cfg))
            && Distinct(rows) && forall i :: 0 <= i < |rows| ==> Admitted(rows[i], cfg, tasks))
      && (r.Some? ==> r.value.tasks == tasks && RowsResumed(rows, r.value.rows))
  {
    hide RestoreRows, Admitted, RowsResumed, Distinct;
    RowsExactly(rows, cfg, tasks);
    assert t == EMPTY <==> t.rows == [] && t.tasks == map[];
  }
}
