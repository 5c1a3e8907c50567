/** The evaluation store: samples are recorded, evaluated within a budget, labelled, and finished, each
    operation one transaction over two tables. */
module Budget {
  import opened Options

  /** What a call to the service came to. Its usage bound is the client's own check. */
  datatype Evaluation = Succeeded(inputTokens: nat, answer: string) | Unavailable(reason: string)

  const USAGE_BOUND := 64000

  /** The largest measurement a record may hold. */
  const MAX_NUMBER := 0x20_0000_0000_0000

  predicate ValidResult(e: Evaluation) {
    e.Succeeded? ==> e.inputTokens <= USAGE_BOUND
  }

  datatype Packet = Packet(id: string, taskId: string, kind: string, synthetic: bool, actor: string, baseline: string, content: string)

  /** The record kept with a sample: its packet and the snapshot of its sources. */
  datatype Document = Document(packet: Packet, snapshot: string)

  datatype Label = Label(choice: string, reviewer: string, independent: bool, rationale: string)

  datatype Sample = Sample(
    id: string, line: string, kind: string, taskId: string, document: Document, request: string, requestHash: string,
    started: bool, reserved: nat, evaluation: Option<Evaluation>, judgment: Option<Label>)

  type TaskKey = (string, string)

  datatype Tables = Tables(rows: seq<Sample>, tasks: map<TaskKey, Option<string>>)

  /** The pilot's fixed configuration; what a packet's request is, what its digest is, and which texts
      pass validation are settled elsewhere. */
  datatype Config = Config(
    maxCalls: nat, maxInputTokens: nat, reservePerCall: nat, lines: set<string>,
    requestOf: Packet -> string, digest: string -> string,
    packetOk: Packet -> bool, labelOk: (Label, string, string) -> bool, outcomeOk: string -> bool, identifierOk: string -> bool)

  ghost predicate ValidConfig(cfg: Config) {
    && cfg.maxCalls > 0 && cfg.maxInputTokens > 0 && USAGE_BOUND <= cfg.reservePerCall <= MAX_NUMBER
    && forall packet :: cfg.packetOk(packet) ==> cfg.identifierOk(packet.taskId)
  }

  const EMPTY := Tables([], map[])

  // ----- the tables -----

  function CountStarted(rows: seq<Sample>): nat {
    if rows == [] then 0 else CountStarted(rows[..|rows| - 1]) + (if rows[|rows| - 1].started then 1 else 0)
  }

  function SumReserved(rows: seq<Sample>): nat {
    if rows == [] then 0 else SumReserved(rows[..|rows| - 1]) + rows[|rows| - 1].reserved
  }

  /** The row of a sample, by identifier. */
  function Find(rows: seq<Sample>, id: string): (r: Option<nat>)
    ensures r.Some? ==> r.value < |rows| && rows[r.value].id == id
    ensures r.None? ==> forall i :: 0 <= i < |rows| ==> rows[i].id != id
  {
    if rows == [] then None
    else if rows[|rows| - 1].id == id then Some(|rows| - 1)
    else Find(rows[..|rows| - 1], id)
  }

  /** The row of a sample on a line. */
  function FindOn(rows: seq<Sample>, id: string, line: string): (r: Option<nat>)
    ensures r.Some? ==> r.value < |rows| && rows[r.value].id == id && rows[r.value].line == line
  {
    var r := Find(rows, id);
    if r.Some? && rows[r.value].line == line then r else None
  }

  /** Some earlier sample of the same task. */
  function Peer(rows: seq<Sample>, line: string, taskId: string): (r: Option<nat>)
    ensures r.Some? ==> r.value < |rows| && rows[r.value].line == line && rows[r.value].taskId == taskId
    ensures r.None? ==> forall i :: 0 <= i < |rows| ==> !(rows[i].line == line && rows[i].taskId == taskId)
  {
    if rows == [] then None
    else
      var earlier := Peer(rows[..|rows| - 1], line, taskId);
      if earlier.Some? then earlier
      else if rows[|rows| - 1].line == line && rows[|rows| - 1].taskId == taskId then Some(|rows| - 1) else None
  }

  // ----- transactions -----

  datatype Reply = Refused | Recorded | Reused | InFlight | NoCredential | Exhausted | Started | Settled | Labelled | Finished | Restored

  datatype Outcome = Outcome(tables: Tables, reply: Reply)

  /** Record a sample, or find it recorded already with the same content. */
  function StoreSample(t: Tables, cfg: Config, line: string, packet: Packet, snapshot: string): Outcome {
    var document, request := Document(packet, snapshot), cfg.requestOf(packet);
    var existing := Find(t.rows, packet.id);
    if line !in cfg.lines || !cfg.packetOk(packet) then Outcome(t, Refused)
    else if existing.Some? then
      if t.rows[existing.value].document == document && t.rows[existing.value].line == line then Outcome(t, Recorded)
      else Outcome(t, Refused)
    else
      var key := (line, packet.taskId);
      var peer := Peer(t.rows, line, packet.taskId);
      if key in t.tasks && t.tasks[key].Some? then Outcome(t, Refused)
      else if peer.Some? && t.rows[peer.value].document.packet.synthetic != packet.synthetic then Outcome(t, Refused)
      else
        var row := Sample(packet.id, line, packet.kind, packet.taskId, document, request, cfg.digest(request), false, 0, None, None);
        Outcome(Tables(t.rows + [row], if key in t.tasks then t.tasks else t.tasks[key := None]), Recorded)
  }

  function WithRow(t: Tables, i: nat, row: Sample): Tables
    requires i < |t.rows|
  {
    t.(rows := t.rows[i := row])
  }

  /** The first half of an evaluation: reserve a call, unless one was made, is under way, or would
      exceed the budget. */
  function Begin(t: Tables, cfg: Config, id: string, line: string, reviewedHash: string, keyOk: bool): Outcome {
    var r := FindOn(t.rows, id, line);
    if r.None? then Outcome(t, Refused)
    else
      var row := t.rows[r.value];
      if row.requestHash != reviewedHash || cfg.digest(row.request) != reviewedHash then Outcome(t, Refused)
      else if row.evaluation.Some? then Outcome(t, Reused)
      else if row.started then Outcome(t, InFlight)
      else if !keyOk then
        Outcome(WithRow(t, r.value, row.(evaluation := Some(Unavailable("missing_or_invalid_credential")))), NoCredential)
      else if CountStarted(t.rows) >= cfg.maxCalls || SumReserved(t.rows) + cfg.reservePerCall > cfg.maxInputTokens then
        Outcome(t, Exhausted)
      else Outcome(WithRow(t, r.value, row.(started := true, reserved := cfg.reservePerCall)), Started)
  }

  /** The second half: settle what the call came to, unless the sample was settled meanwhile. */
  function Complete(t: Tables, cfg: Config, id: string, result: Evaluation): Outcome {
    var r := Find(t.rows, id);
    if r.None? then Outcome(t, Refused)
    else
      var row := t.rows[r.value];
      if row.evaluation.Some? then Outcome(t, Reused)
      else
        var reserve := if result.Succeeded? then result.inputTokens else cfg.reservePerCall;
        Outcome(WithRow(t, r.value, row.(evaluation := Some(result), reserved := reserve)), Settled)
  }

  /** Mark an unfinished call as interrupted; its reservation stays. */
  function Recover(t: Tables, id: string, line: string): Outcome {
    var r := FindOn(t.rows, id, line);
    if r.None? || !t.rows[r.value].started || t.rows[r.value].evaluation.Some? then Outcome(t, Refused)
    else
      Outcome(WithRow(t, r.value, t.rows[r.value].(evaluation := Some(Unavailable("interrupted_billing_unknown")))), Settled)
  }

  /** A label is judged against the case's kind and the actor of its baseline. */
  predicate LabelFits(cfg: Config, judgment: Label, row: Sample) {
    cfg.labelOk(judgment, row.kind, row.document.packet.actor)
  }

  function LabelCase(t: Tables, cfg: Config, id: string, line: string, judgment: Label): Outcome {
    var r := FindOn(t.rows, id, line);
    if r.None? || !LabelFits(cfg, judgment, t.rows[r.value]) then Outcome(t, Refused)
    else
      var row := t.rows[r.value];
      if row.judgment.Some? && row.judgment != Some(judgment) then Outcome(t, Refused)
      else Outcome(WithRow(t, r.value, row.(judgment := Some(judgment))), Labelled)
  }

  function Finish(t: Tables, cfg: Config, line: string, taskId: string, outcome: string): Outcome {
    var key := (line, taskId);
    if !cfg.outcomeOk(outcome) || key !in t.tasks || (t.tasks[key].Some? && t.tasks[key] != Some(outcome)) then Outcome(t, Refused)
    else Outcome(t.(tasks := t.tasks[key := Some(outcome)]), Finished)
  }

  datatype Revealed = Revealed(baseline: string, evaluation: Option<Evaluation>, judgment: Label)

  /** Show a case's judgments once its task is finished and a blind label is on record. */
  function Reveal(t: Tables, id: string, line: string): Option<Revealed> {
    var r := FindOn(t.rows, id, line);
    if r.None? then None
    else
      var row := t.rows[r.value];
      var key := (line, row.taskId);
      if key !in t.tasks || t.tasks[key].None? || row.judgment.None? then None
      else Some(Revealed(row.document.packet.baseline, row.evaluation, row.judgment.value))
  }

  // ----- runs -----

  /** The tables, and the calls whose process may still come back. */
  datatype World = World(tables: Tables, flying: set<string>)

  datatype Action =
    | DoStore(line: string, packet: Packet, snapshot: string)
    | DoBegin(id: string, line: string, reviewedHash: string, keyOk: bool)
    | DoComplete(id: string, result: Evaluation)
    | Crash(id: string)
    | DoRecover(id: string, line: string)
    | DoLabel(id: string, line: string, judgment: Label)
    | DoFinish(line: string, taskId: string, outcome: string)

  predicate Enabled(w: World, a: Action) {
    match a
    case DoComplete(id, result) => id in w.flying && ValidResult(result)
    case Crash(id) => id in w.flying
    case _ => true
  }

  function Step(w: World, cfg: Config, a: Action): World {
    match a
    case DoStore(line, packet, snapshot) => w.(tables := StoreSample(w.tables, cfg, line, packet, snapshot).tables)
    case DoBegin(id, line, hash, keyOk) =>
      var o := Begin(w.tables, cfg, id, line, hash, keyOk);
      World(o.tables, if o.reply.Started? then w.flying + {id} else w.flying)
    case DoComplete(id, result) => World(Complete(w.tables, cfg, id, result).tables, w.flying - {id})
    case Crash(id) => w.(flying := w.flying - {id})
    case DoRecover(id, line) => w.(tables := Recover(w.tables, id, line).tables)
    case DoLabel(id, line, judgment) => w.(tables := LabelCase(w.tables, cfg, id, line, judgment).tables)
    case DoFinish(line, taskId, outcome) => w.(tables := Finish(w.tables, cfg, line, taskId, outcome).tables)
  }

  /** A run from `w`, every action enabled when it is taken. */
  predicate IsRun(w: World, cfg: Config, run: seq<World>, actions: seq<Action>) {
    && |run| == |actions| + 1 && run[0] == w
    && forall i :: 0 <= i < |actions| ==> Enabled(run[i], actions[i]) && run[i + 1] == Step(run[i], cfg, actions[i])
  }

  // ----- the budget -----

  /** A row's reservation says what its call may have cost. */
  predicate RowSound(row: Sample, cfg: Config, flying: set<string>) {
    && (!row.started ==> row.reserved == 0 && (row.evaluation.Some? ==> row.evaluation.value.Unavailable?))
    && (row.started ==>
          if row.evaluation.Some? && row.evaluation.value.Succeeded?
          then row.reserved == row.evaluation.value.inputTokens <= USAGE_BOUND
          else row.reserved == cfg.reservePerCall)
    && (row.id in flying ==> row.started)
    && row.requestHash == cfg.digest(row.request)
  }

  predicate Distinct(rows: seq<Sample>) {
    forall i, j :: 0 <= i < j < |rows| ==> rows[i].id != rows[j].id
  }

  predicate Sound(w: World, cfg: Config) {
    && Distinct(w.tables.rows)
    && (forall i :: 0 <= i < |w.tables.rows| ==> RowSound(w.tables.rows[i], cfg, w.flying))
    && (forall id :: id in w.flying ==> Find(w.tables.rows, id).Some?)
    && CountStarted(w.tables.rows) <= cfg.maxCalls
    && SumReserved(w.tables.rows) <= cfg.maxInputTokens
  }

  lemma {:induction false} RowChanged(rows: seq<Sample>, i: nat, row: Sample)
    requires i < |rows|
    ensures CountStarted(rows[i := row]) == CountStarted(rows) - (if rows[i].started then 1 else 0) + (if row.started then 1 else 0)
    ensures SumReserved(rows[i := row]) == SumReserved(rows) - rows[i].reserved + row.reserved
    decreases |rows|
  {
    var n := |rows| - 1;
    var after := rows[i := row];
    if i < n {
      RowChanged(rows[..n], i, row);
      assert after[..n] == rows[..n][i := row];
    } else {
      assert after[..n] == rows[..n];
    }
  }

  lemma {:induction false} FindUnique(rows: seq<Sample>, i: nat)
    requires Distinct(rows) && i < |rows|
    ensures Find(rows, rows[i].id) == Some(i)
    decreases |rows|
  {
    if i < |rows| - 1 {
      FindUnique(rows[..|rows| - 1], i);
    }
  }

  /** Changing a row in place, its identity and request kept. */
  lemma RowKeeps(w: World, cfg: Config, i: nat, row: Sample, flying: set<string>)
    requires Sound(w, cfg) && i < |w.tables.rows| && row.id == w.tables.rows[i].id
    requires RowSound(row, cfg, flying)
    requires forall id :: id in flying ==> id in w.flying || id == row.id
    requires CountStarted(w.tables.rows) - (if w.tables.rows[i].started then 1 else 0) + (if row.started then 1 else 0) <= cfg.maxCalls
    requires SumReserved(w.tables.rows) - w.tables.rows[i].reserved + row.reserved <= cfg.maxInputTokens
    ensures Sound(World(WithRow(w.tables, i, row), flying), cfg)
  {
    RowChanged(w.tables.rows, i, row);
    var rows := w.tables.rows[i := row];
    forall id | id in flying
      ensures Find(rows, id).Some?
    {
      var j := if id == row.id then i else Find(w.tables.rows, id).value;
      assert rows[j].id == id;
    }
  }

  /** Reservations are never given back below what the call may have cost. */
  lemma {:induction false} RowWithin(rows: seq<Sample>, i: nat)
    requires i < |rows|
    ensures rows[i].reserved <= SumReserved(rows)
    decreases |rows|
  {
    if i < |rows| - 1 {
      RowWithin(rows[..|rows| - 1], i);
    }
  }

  /** Every step keeps the budget. */
  lemma StepSound(w: World, cfg: Config, a: Action)
    requires ValidConfig(cfg) && Sound(w, cfg) && Enabled(w, a)
    ensures Sound(Step(w, cfg, a), cfg)
  {
    var t := w.tables;
    match a
    case DoStore(line, packet, snapshot) => StoreSound(w, cfg, line, packet, snapshot);
    case DoBegin(id, line, hash, keyOk) => BeginSound(w, cfg, id, line, hash, keyOk);
    case DoComplete(id, result) => CompleteSound(w, cfg, id, result);
    case Crash(id) =>
    case DoRecover(id, line) =>
      var r := FindOn(t.rows, id, line);
      if r.Some? && t.rows[r.value].started && t.rows[r.value].evaluation.None? {
        RowKeeps(w, cfg, r.value, t.rows[r.value].(evaluation := Some(Unavailable("interrupted_billing_unknown"))), w.flying);
      }
    case DoLabel(id, line, judgment) =>
      var r := FindOn(t.rows, id, line);
      if r.Some? {
        RowKeeps(w, cfg, r.value, t.rows[r.value].(judgment := Some(judgment)), w.flying);
      }
    case DoFinish(line, taskId, outcome) =>
  }

  lemma StoreSound(w: World, cfg: Config, line: string, packet: Packet, snapshot: string)
    requires Sound(w, cfg)
    ensures Sound(w.(tables := StoreSample(w.tables, cfg, line, packet, snapshot).tables), cfg)
  {
    var t := StoreSample(w.tables, cfg, line, packet, snapshot).tables;
    if t.rows != w.tables.rows {
      assert t.rows[..|t.rows| - 1] == w.tables.rows;
      assert packet.id !in w.flying;
      forall id | id in w.flying
        ensures Find(t.rows, id).Some?
      {
        assert t.rows[Find(w.tables.rows, id).value].id == id;
      }
    }
  }

  lemma BeginSound(w: World, cfg: Config, id: string, line: string, hash: string, keyOk: bool)
    requires Sound(w, cfg)
    ensures Sound(Step(w, cfg, DoBegin(id, line, hash, keyOk)), cfg)
  {
    var t := w.tables;
    var r, o := FindOn(t.rows, id, line), Begin(t, cfg, id, line, hash, keyOk);
    if o.reply.NoCredential? {
      RowKeeps(w, cfg, r.value, t.rows[r.value].(evaluation := Some(Unavailable("missing_or_invalid_credential"))), w.flying);
    } else if o.reply.Started? {
      RowKeeps(w, cfg, r.value, t.rows[r.value].(started := true, reserved := cfg.reservePerCall), w.flying + {id});
    }
  }

  lemma CompleteSound(w: World, cfg: Config, id: string, result: Evaluation)
    requires ValidConfig(cfg) && Sound(w, cfg) && id in w.flying && ValidResult(result)
    ensures Sound(Step(w, cfg, DoComplete(id, result)), cfg)
  {
    var t := w.tables;
    var i := Find(t.rows, id).value;
    var row := t.rows[i];
    if row.evaluation.None? {
      var reserve := if result.Succeeded? then result.inputTokens else cfg.reservePerCall;
      RowKeeps(w, cfg, i, row.(evaluation := Some(result), reserved := reserve), w.flying - {id});
    }
  }

  /** Over every interleaving of records, starts, completions, crashes, recoveries, labels and outcomes
      from an empty store: started calls stay within `maxCalls`, reservations within `maxInputTokens`,
      and a call that did not succeed keeps its whole reservation. */
  lemma {:induction false} BudgetHolds(cfg: Config, run: seq<World>, actions: seq<Action>, i: nat)
    requires ValidConfig(cfg) && IsRun(World(EMPTY, {}), cfg, run, actions) && i < |run|
    ensures Sound(run[i], cfg)
  {
    if i > 0 {
      BudgetHolds(cfg, run, actions, i - 1);
      StepSound(run[i - 1], cfg, actions[i - 1]);
    }
  }

  // ----- written once -----

  /** A row later on: what it records is the same, and what was settled stays as it was. */
  predicate Kept(a: Sample, b: Sample) {
    && b.id == a.id && b.line == a.line && b.kind == a.kind && b.taskId == a.taskId
    && b.document == a.document && b.request == a.request && b.requestHash == a.requestHash
    && (a.started ==> b.started)
    && (a.evaluation.Some? ==> b.evaluation == a.evaluation && b.reserved == a.reserved)
    && (a.judgment.Some? ==> b.judgment == a.judgment)
  }

  predicate Grows(t: Tables, u: Tables) {
    && |t.rows| <= |u.rows|
    && (forall i :: 0 <= i < |t.rows| ==> Kept(t.rows[i], u.rows[i]))
    && (forall k :: k in t.tasks ==> k in u.tasks && (t.tasks[k].Some? ==> u.tasks[k] == t.tasks[k]))
  }

  lemma StepGrows(w: World, cfg: Config, a: Action)
    ensures Grows(w.tables, Step(w, cfg, a).tables)
  {
    hide CountStarted, SumReserved, Find, Peer, FindOn;
    match a
    case DoStore(line, packet, snapshot) =>
    case DoBegin(id, line, hash, keyOk) =>
    case DoComplete(id, result) =>
    case Crash(id) =>
    case DoRecover(id, line) =>
    case DoLabel(id, line, judgment) =>
    case DoFinish(line, taskId, outcome) =>
  }

  /** Evaluations, labels and outcomes are written once, and what was recorded never changes. */
  lemma {:induction false} WrittenOnce(cfg: Config, run: seq<World>, actions: seq<Action>, i: nat, j: nat)
    requires |run| > 0 && IsRun(run[0], cfg, run, actions) && i <= j < |run|
    ensures Grows(run[i].tables, run[j].tables)
    decreases j - i
  {
    hide Grows, Step, Enabled;
    GrowsSame(run[i].tables);
    if i < j {
      WrittenOnce(cfg, run, actions, i, j - 1);
      StepGrows(run[j - 1], cfg, actions[j - 1]);
      GrowsOn(run[i].tables, run[j - 1].tables, run[j].tables);
    }
  }

  lemma GrowsSame(t: Tables)
    ensures Grows(t, t)
  {}

  lemma GrowsOn(t: Tables, u: Tables, v: Tables)
    requires Grows(t, u) && Grows(u, v)
    ensures Grows(t, v)
  {
    forall i | 0 <= i < |t.rows|
      ensures Kept(t.rows[i], v.rows[i])
    {
      assert Kept(t.rows[i], u.rows[i]) && Kept(u.rows[i], v.rows[i]);
    }
  }

  /** What was revealed with an evaluation is revealed the same ever after. */
  lemma RevealedStays(t: Tables, u: Tables, id: string, line: string)
    requires Grows(t, u) && Distinct(u.rows)
    requires Reveal(t, id, line).Some? && Reveal(t, id, line).value.evaluation.Some?
    ensures Reveal(u, id, line) == Reveal(t, id, line)
  {
    var i := FindOn(t.rows, id, line).value;
    assert Kept(t.rows[i], u.rows[i]);
    FindUnique(u.rows, i);
  }

  /** A revealed case is settled for good exactly when an evaluation was there to reveal: without one
      some next transaction supplies it, and the same case then reveals something else. */
  lemma RevealFinalExactly(w: World, cfg: Config, id: string, line: string)
    requires ValidConfig(cfg) && Sound(w, cfg) && Reveal(w.tables, id, line).Some?
    ensures Reveal(w.tables, id, line).value.evaluation.Some? <==>
      forall a :: Enabled(w, a) ==> Reveal(Step(w, cfg, a).tables, id, line) == Reveal(w.tables, id, line)
  {
    var i := FindOn(w.tables.rows, id, line).value;
    var row := w.tables.rows[i];
    if row.evaluation.Some? {
      forall a | Enabled(w, a)
        ensures Reveal(Step(w, cfg, a).tables, id, line) == Reveal(w.tables, id, line)
      {
        StepGrows(w, cfg, a);
        StepSound(w, cfg, a);
        RevealedStays(w.tables, Step(w, cfg, a).tables, id, line);
      }
    } else {
      FindUnique(w.tables.rows, i);
      assert RowSound(row, cfg, w.flying);
      var a := if row.started then DoRecover(id, line) else DoBegin(id, line, row.requestHash, false);
      StepSound(w, cfg, a);
      var after := Step(w, cfg, a).tables;
      assert after.rows[i].id == id && after.rows[i].evaluation.Some?;
      FindUnique(after.rows, i);
      assert Enabled(w, a) && Reveal(after, id, line) != Reveal(w.tables, id, line);
    }
  }

  // ----- checkpoints -----

  const CHECKPOINT_LIMIT := 2000

  /** What every row also is: recorded by the store's own rules. */
  predicate RowRecorded(row: Sample, cfg: Config, tasks: map<TaskKey, Option<string>>) {
    && row.line in cfg.lines && (row.line, row.taskId) in tasks
    && cfg.packetOk(row.document.packet)
    && row.id == row.document.packet.id && row.taskId == row.document.packet.taskId && row.kind == row.document.packet.kind
    && row.request == cfg.requestOf(row.document.packet)
    && (row.judgment.Some? ==> LabelFits(cfg, row.judgment.value, row))
    && (row.evaluation.Some? ==> ValidResult(row.evaluation.value))
  }

  predicate OnRecord(w: World, cfg: Config) {
    && (forall i :: 0 <= i < |w.tables.rows| ==> RowRecorded(w.tables.rows[i], cfg, w.tables.tasks))
    && (forall k :: k in w.tables.tasks ==> k.0 in cfg.lines && cfg.identifierOk(k.1) && (w.tables.tasks[k].Some? ==> cfg.outcomeOk(w.tables.tasks[k].value)))
  }

  /** What a step may newly put into a row is validated first. */
  lemma StepValidates(w: World, cfg: Config, a: Action, i: nat)
    requires Enabled(w, a) && i < |w.tables.rows|
    ensures var row, now := w.tables.rows[i], Step(w, cfg, a).tables.rows[i];
      && (now.judgment.Some? ==> now.judgment == row.judgment || LabelFits(cfg, now.judgment.value, row))
      && (now.evaluation.Some? ==> now.evaluation == row.evaluation || ValidResult(now.evaluation.value))
  {
    StepGrows(w, cfg, a);
    match a
    case DoStore(line, packet, snapshot) =>
    case DoBegin(id, line, hash, keyOk) =>
    case DoComplete(id, result) =>
    case Crash(id) =>
    case DoRecover(id, line) =>
    case DoLabel(id, line, judgment) =>
    case DoFinish(line, taskId, outcome) =>
  }

  lemma StoreRecorded(t: Tables, cfg: Config, line: string, packet: Packet, snapshot: string)
    requires ValidConfig(cfg)
    ensures var u := StoreSample(t, cfg, line, packet, snapshot).tables;
      && |t.rows| <= |u.rows| <= |t.rows| + 1
      && (|u.rows| > |t.rows| ==> RowRecorded(u.rows[|t.rows|], cfg, u.tasks))
      && (forall k :: k in u.tasks ==> (k in t.tasks && u.tasks[k] == t.tasks[k]) || (k.0 in cfg.lines && cfg.identifierOk(k.1) && u.tasks[k].None?))
  {}

  lemma StepTasks(w: World, cfg: Config, a: Action)
    requires ValidConfig(cfg) && OnRecord(w, cfg)
    ensures var u := Step(w, cfg, a).tables;
      && (forall k :: k in u.tasks ==> k.0 in cfg.lines && cfg.identifierOk(k.1) && (u.tasks[k].Some? ==> cfg.outcomeOk(u.tasks[k].value)))
      && (|u.rows| > |w.tables.rows| ==> a.DoStore?)
  {
    hide CountStarted, SumReserved, Find, Peer, FindOn;
    match a
    case DoStore(line, packet, snapshot) => StoreRecorded(w.tables, cfg, line, packet, snapshot);
    case DoBegin(id, line, hash, keyOk) =>
    case DoComplete(id, result) =>
    case Crash(id) =>
    case DoRecover(id, line) =>
    case DoLabel(id, line, judgment) =>
    case DoFinish(line, taskId, outcome) =>
  }

  lemma StepRecorded(w: World, cfg: Config, a: Action)
    requires ValidConfig(cfg) && OnRecord(w, cfg) && Enabled(w, a)
    ensures OnRecord(Step(w, cfg, a), cfg)
  {
    var t, u := w.tables, Step(w, cfg, a).tables;
    StepGrows(w, cfg, a);
    StepTasks(w, cfg, a);
    if a.DoStore? {
      StoreRecorded(t, cfg, a.line, a.packet, a.snapshot);
    }
    hide Step, Enabled;
    forall i | 0 <= i < |u.rows|
      ensures RowRecorded(u.rows[i], cfg, u.tasks)
    {
      if i < |t.rows| {
        StepValidates(w, cfg, a, i);
        assert RowRecorded(t.rows[i], cfg, t.tasks) && Kept(t.rows[i], u.rows[i]);
      }
    }
  }

  lemma {:induction false} RunRecorded(cfg: Config, run: seq<World>, actions: seq<Action>, i: nat)
    requires ValidConfig(cfg) && IsRun(World(EMPTY, {}), cfg, run, actions) && i < |run|
    ensures Sound(run[i], cfg) && OnRecord(run[i], cfg)
  {
    BudgetHolds(cfg, run, actions, i);
    if i > 0 {
      RunRecorded(cfg, run, actions, i - 1);
      StepRecorded(run[i - 1], cfg, actions[i - 1]);
    }
  }

  /** A row as a restore admits it; a call under way is taken for interrupted. */
  function RestoreRow(row: Sample, cfg: Config, tasks: map<TaskKey, Option<string>>): Option<Sample> {
    if row.line !in cfg.lines || (row.line, row.taskId) !in tasks || !cfg.packetOk(row.document.packet) then None
    else if !(row.id == row.document.packet.id && row.taskId == row.document.packet.taskId && row.kind == row.document.packet.kind) then None
    else if cfg.requestOf(row.document.packet) != row.request || cfg.digest(row.request) != row.requestHash then None
    else if row.reserved > MAX_NUMBER then None
    else if row.judgment.Some? && !LabelFits(cfg, row.judgment.value, row) then None
    else if row.evaluation.Some? && row.evaluation.value.Succeeded?
        && (!ValidResult(row.evaluation.value) || row.reserved != row.evaluation.value.inputTokens || !row.started) then None
    else if row.started && !(row.evaluation.Some? && row.evaluation.value.Succeeded?) && row.reserved < cfg.reservePerCall then None
    else if row.started && row.evaluation.None? then
      Some(row.(evaluation := Some(Unavailable("restored_inflight_billing_unknown"))))
    else Some(row)
  }

  function RestoreRows(rows: seq<Sample>, cfg: Config, tasks: map<TaskKey, Option<string>>): Option<seq<Sample>> {
    if rows == [] then Some([])
    else
      var init, last := RestoreRows(rows[..|rows| - 1], cfg, tasks), rows[|rows| - 1];
      if init.None? || Find(init.value, last.id).Some? then None
      else
        var one := RestoreRow(last, cfg, tasks);
        if one.None? then None else Some(init.value + [one.value])
  }

  /** Restore a checkpoint into an empty store. */
  function Restore(t: Tables, rows: seq<Sample>, tasks: map<TaskKey, Option<string>>, cfg: Config): Option<Tables> {
    if |rows| > CHECKPOINT_LIMIT || |tasks| > CHECKPOINT_LIMIT || t != EMPTY then None
    else if exists k :: k in tasks && (k.0 !in cfg.lines || !cfg.identifierOk(k.1) || (tasks[k].Some? && !cfg.outcomeOk(tasks[k].value))) then None
    else
      match RestoreRows(rows, cfg, tasks)
      case Some(r) => Some(Tables(r, tasks))
      case None => None
  }

  /** A row once restored. */
  predicate Resumed(a: Sample, b: Sample) {
    b == if a.started && a.evaluation.None? then a.(evaluation := Some(Unavailable("restored_inflight_billing_unknown"))) else a
  }

  lemma {:induction false} RowsRestored(rows: seq<Sample>, cfg: Config, tasks: map<TaskKey, Option<string>>, flying: set<string>)
    requires ValidConfig(cfg) && Distinct(rows)
    requires forall i :: 0 <= i < |rows| ==> RowSound(rows[i], cfg, flying) && RowRecorded(rows[i], cfg, tasks)
    ensures RestoreRows(rows, cfg, tasks).Some?
    ensures var r := RestoreRows(rows, cfg, tasks).value;
      && |r| == |rows| && (forall i :: 0 <= i < |rows| ==> Resumed(rows[i], r[i]))
      && CountStarted(r) == CountStarted(rows) && SumReserved(r) == SumReserved(rows)
    decreases |rows|
  {
    hide RestoreRow, RowSound, RowRecorded, Resumed, RestoreRows, Find, Distinct, CountStarted, SumReserved;
    if rows == [] {
      NoneRestored(cfg, tasks);
    } else {
      var init, last := rows[..|rows| - 1], rows[|rows| - 1];
      DistinctInit(rows);
      RowsRestored(init, cfg, tasks, flying);
      OneRestored(last, cfg, tasks, flying);
      var before, one := RestoreRows(init, cfg, tasks).value, RestoreRow(last, cfg, tasks).value;
      assert rows == init + [last];
      NotYetRestored(init, before, last);
      LastRestored(rows, cfg, tasks);
      SumsAppend(init, last);
      SumsAppend(before, one);
      SameCost(last, one);
      forall i | 0 <= i < |rows|
        ensures Resumed(rows[i], (before + [one])[i])
      {
        if i < |init| {
          assert Resumed(init[i], before[i]);
        }
      }
    }
  }

  lemma NoneRestored(cfg: Config, tasks: map<TaskKey, Option<string>>)
    ensures RestoreRows([], cfg, tasks) == Some([])
  {}

  lemma DistinctInit(rows: seq<Sample>)
    requires Distinct(rows) && rows != []
    ensures Distinct(rows[..|rows| - 1])
  {}

  lemma SameCost(a: Sample, b: Sample)
    requires Resumed(a, b)
    ensures b.started == a.started && b.reserved == a.reserved && b.id == a.id
  {}

  lemma NotYetRestored(init: seq<Sample>, before: seq<Sample>, last: Sample)
    requires Distinct(init + [last]) && |before| == |init| && forall i :: 0 <= i < |init| ==> Resumed(init[i], before[i])
    ensures Find(before, last.id).None?
  {
    var f := Find(before, last.id);
    assert (init + [last])[|init|] == last;
    assert forall i :: 0 <= i < |init| ==> (init + [last])[i] == init[i] && Resumed(init[i], before[i]) && before[i].id != last.id;
  }

  lemma LastRestored(rows: seq<Sample>, cfg: Config, tasks: map<TaskKey, Option<string>>)
    requires rows != []
    requires var init, last := RestoreRows(rows[..|rows| - 1], cfg, tasks), rows[|rows| - 1];
      init.Some? && Find(init.value, last.id).None? && RestoreRow(last, cfg, tasks).Some?
    ensures RestoreRows(rows, cfg, tasks)
      == Some(RestoreRows(rows[..|rows| - 1], cfg, tasks).value + [RestoreRow(rows[|rows| - 1], cfg, tasks).value])
  {}

  lemma SumsAppend(rows: seq<Sample>, x: Sample)
    ensures CountStarted(rows + [x]) == CountStarted(rows) + (if x.started then 1 else 0)
    ensures SumReserved(rows + [x]) == SumReserved(rows) + x.reserved
  {
    assert (rows + [x])[..|rows|] == rows;
  }

  lemma OneRestored(row: Sample, cfg: Config, tasks: map<TaskKey, Option<string>>, flying: set<string>)
    requires ValidConfig(cfg) && RowSound(row, cfg, flying) && RowRecorded(row, cfg, tasks)
    ensures RestoreRow(row, cfg, tasks).Some? && Resumed(row, RestoreRow(row, cfg, tasks).value)
  {}

  lemma {:induction false} SumsPermute(a: seq<Sample>, b: seq<Sample>)
    requires multiset(a) == multiset(b)
    ensures CountStarted(a) == CountStarted(b) && SumReserved(a) == SumReserved(b)
    decreases |a|
  {
    hide CountStarted, SumReserved;
    assert |multiset(a)| == |multiset(b)|;
    if a == [] {
      assert a == b;
    } else {
      var n := |a| - 1;
      assert a[n] in multiset(b) by {
        assert a[n] in multiset(a);
      }
      var j :| 0 <= j < |b| && b[j] == a[n];
      RowRemoved(a, n);
      RowRemoved(b, j);
      SumsPermute(a[..n] + a[n + 1..], b[..j] + b[j + 1..]);
      RowMoves(a, n);
      RowMoves(b, j);
    }
  }

  lemma RowRemoved(b: seq<Sample>, j: nat)
    requires j < |b|
    ensures multiset(b[..j] + b[j + 1..]) == multiset(b) - multiset{b[j]}
  {
    assert b == b[..j] + [b[j]] + b[j + 1..];
  }

  /** A row counts the same wherever it stands. */
  lemma {:induction false} RowMoves(b: seq<Sample>, j: nat)
    requires j < |b|
    ensures CountStarted(b) == CountStarted(b[..j] + b[j + 1..]) + (if b[j].started then 1 else 0)
    ensures SumReserved(b) == SumReserved(b[..j] + b[j + 1..]) + b[j].reserved
    decreases |b|
  {
    hide CountStarted, SumReserved;
    var n := |b| - 1;
    var init, last := b[..n], b[n];
    assert b == init + [last];
    SumsAppend(init, last);
    if j == n {
      assert b[..j] + b[j + 1..] == init;
    } else {
      RowMoves(init, j);
      SumsAppend(init[..j] + init[j + 1..], last);
      assert b[..j] + b[j + 1..] == init[..j] + init[j + 1..] + [last];
    }
  }

  lemma DistinctPermutes(a: seq<Sample>, b: seq<Sample>)
    requires Distinct(a) && multiset(a) == multiset(b)
    ensures Distinct(b)
  {
    forall i, j | 0 <= i < j < |b|
      ensures b[i].id != b[j].id
    {
      if b[i].id == b[j].id {
        assert b[i] in multiset(a) && b[j] in multiset(a) by {
          assert b[i] in multiset(b) && b[j] in multiset(b);
        }
        var k :| 0 <= k < |a| && a[k] == b[i];
        var l :| 0 <= l < |a| && a[l] == b[j];
        assert k == l && b[i] == b[j];
        assert b == b[..i] + [b[i]] + b[i + 1..j] + [b[j]] + b[j + 1..];
        assert multiset(b)[b[i]] >= 2;
        TwiceDiffers(a, b[i]);
      }
    }
  }

  lemma TwiceDiffers(a: seq<Sample>, x: Sample)
    requires Distinct(a)
    ensures multiset(a)[x] <= 1
  {
    if multiset(a)[x] >= 1 {
      assert x in multiset(a);
      var k :| 0 <= k < |a| && a[k] == x;
      assert a == a[..k] + [a[k]] + a[k + 1..];
      assert x !in a[..k] && x !in a[k + 1..];
    }
  }

  /** Export and restore: the rows of any reachable store, in whatever order a checkpoint lists them,
      restore within the size limits; calls, reservations and everything recorded are the same, calls
      under way are taken for interrupted, and the restored store is sound with no call in flight. */
  lemma RestorePreserves(w: World, cfg: Config, rows: seq<Sample>)
    requires ValidConfig(cfg) && Sound(w, cfg) && OnRecord(w, cfg)
    requires multiset(rows) == multiset(w.tables.rows) && |rows| <= CHECKPOINT_LIMIT && |w.tables.tasks| <= CHECKPOINT_LIMIT
    ensures var r := Restore(EMPTY, rows, w.tables.tasks, cfg);
      && r.Some? && r.value.tasks == w.tables.tasks && |r.value.rows| == |rows|
      && (forall i :: 0 <= i < |rows| ==> Resumed(rows[i], r.value.rows[i]))
      && CountStarted(r.value.rows) == CountStarted(w.tables.rows) && SumReserved(r.value.rows) == SumReserved(w.tables.rows)
      && Sound(World(r.value, {}), cfg)
  {
    hide RowSound, RowRecorded, RestoreRows, CountStarted, SumReserved, Resumed, Find, Distinct;
    RowsSame(w, cfg, rows);
    DistinctPermutes(w.tables.rows, rows);
    SumsPermute(w.tables.rows, rows);
    RowsRestored(rows, cfg, w.tables.tasks, w.flying);
    RestoredSound(rows, RestoreRows(rows, cfg, w.tables.tasks).value, cfg, w.flying);
  }

  lemma RowsSame(w: World, cfg: Config, rows: seq<Sample>)
    requires Sound(w, cfg) && OnRecord(w, cfg) && multiset(rows) == multiset(w.tables.rows)
    ensures forall i :: 0 <= i < |rows| ==> RowSound(rows[i], cfg, w.flying) && RowRecorded(rows[i], cfg, w.tables.tasks)
  {
    hide RowSound, RowRecorded;
    forall i | 0 <= i < |rows|
      ensures RowSound(rows[i], cfg, w.flying) && RowRecorded(rows[i], cfg, w.tables.tasks)
    {
      assert rows[i] in multiset(rows);
      assert rows[i] in w.tables.rows;
    }
  }

  lemma RestoredSound(rows: seq<Sample>, r: seq<Sample>, cfg: Config, flying: set<string>)
    requires Distinct(rows) && |r| == |rows| && forall i :: 0 <= i < |rows| ==> Resumed(rows[i], r[i]) && RowSound(rows[i], cfg, flying)
    ensures Distinct(r) && forall i :: 0 <= i < |r| ==> RowSound(r[i], cfg, {})
  {
    forall i | 0 <= i < |r|
      ensures RowSound(r[i], cfg, {})
    {
      assert RowSound(rows[i], cfg, flying) && Resumed(rows[i], r[i]);
    }
  }
}
