/** The evaluation store as it runs: two tables updated in place, one transaction per method. */
module BudgetStore {
  import opened Options
  import opened Budget

  class Store {
    var rows: seq<Sample>
    var tasks: map<TaskKey, Option<string>>
    const cfg: Config

    ghost function Contents(): Tables
      reads this
    {
      Tables(rows, tasks)
    }

    constructor (cfg: Config)
      ensures Contents() == EMPTY && this.cfg == cfg
    {
      this.cfg, rows, tasks := cfg, [], map[];
    }

    method Select(id: string) returns (r: Option<nat>)
      ensures r == Find(rows, id)
    {
      var i := |rows|;
      assert rows[..i] == rows;
      while i > 0
        invariant 0 <= i <= |rows| && Find(rows, id) == Find(rows[..i], id)
      {
        assert rows[..i][..i - 1] == rows[..i - 1];
        if rows[i - 1].id == id {
          return Some(i - 1);
        }
        i := i - 1;
      }
      r := None;
    }

    method SelectPeer(line: string, taskId: string) returns (r: Option<nat>)
      ensures r == Peer(rows, line, taskId)
    {
      for i := 0 to |rows|
        invariant Peer(rows[..i], line, taskId).None?
      {
        assert rows[..i + 1][..i] == rows[..i];
        if rows[i].line == line && rows[i].taskId == taskId {
          PeerIsFirst(rows, i + 1, line, taskId);
          return Some(i);
        }
      }
      assert rows[..|rows|] == rows;
      r := None;
    }

    /** Calls started and tokens charged or reserved. */
    method Totals() returns (calls: nat, tokens: nat)
      ensures calls == CountStarted(rows) && tokens == SumReserved(rows)
    {
      calls, tokens := 0, 0;
      for i := 0 to |rows|
        invariant calls == CountStarted(rows[..i]) && tokens == SumReserved(rows[..i])
      {
        assert rows[..i + 1][..i] == rows[..i];
        calls := calls + (if rows[i].started then 1 else 0);
        tokens := tokens + rows[i].reserved;
      }
      assert rows[..|rows|] == rows;
    }

    method Record(line: string, packet: Packet, snapshot: string) returns (reply: Reply)
      modifies this
      ensures Outcome(Contents(), reply) == StoreSample(old(Contents()), cfg, line, packet, snapshot)
    {
      if line !in cfg.lines || !cfg.packetOk(packet) {
        return Refused;
      }
      var document, request := Document(packet, snapshot), cfg.requestOf(packet);
      var existing := Select(packet.id);
      if existing.Some? {
        var row := rows[existing.value];
        return if row.document == document && row.line == line then Recorded else Refused;
      }
      var key := (line, packet.taskId);
      if key in tasks && tasks[key].Some? {
        return Refused;
      }
      var peer := SelectPeer(line, packet.taskId);
      if peer.Some? && rows[peer.value].document.packet.synthetic != packet.synthetic {
        return Refused;
      }
      rows := rows + [Sample(packet.id, line, packet.kind, packet.taskId, document, request, cfg.digest(request), false, 0, None, None)];
      if key !in tasks {
        tasks := tasks[key := None];
      }
      reply := Recorded;
    }

    /** Reserve a call within the budget. */
    method Reserve(id: string, line: string, reviewedHash: string, keyOk: bool) returns (reply: Reply)
      modifies this
      ensures Outcome(Contents(), reply) == Begin(old(Contents()), cfg, id, line, reviewedHash, keyOk)
    {
      var r := Select(id);
      if r.None? || rows[r.value].line != line {
        return Refused;
      }
      var row := rows[r.value];
      if row.requestHash != reviewedHash || cfg.digest(row.request) != reviewedHash {
        return Refused;
      }
      if row.evaluation.Some? {
        return Reused;
      }
      if row.started {
        return InFlight;
      }
      if !keyOk {
        rows := rows[r.value := row.(evaluation := Some(Unavailable("missing_or_invalid_credential")))];
        return NoCredential;
      }
      var calls, tokens := Totals();
      if calls >= cfg.maxCalls || tokens + cfg.reservePerCall > cfg.maxInputTokens {
        return Exhausted;
      }
      rows := rows[r.value := row.(started := true, reserved := cfg.reservePerCall)];
      reply := Started;
    }

    /** Settle a call, unless it was settled meanwhile. */
    method Settle(id: string, result: Evaluation) returns (reply: Reply)
      modifies this
      ensures Outcome(Contents(), reply) == Complete(old(Contents()), cfg, id, result)
    {
      var r := Select(id);
      if r.None? {
        return Refused;
      }
      var row := rows[r.value];
      if row.evaluation.Some? {
        return Reused;
      }
      var reserve := if result.Succeeded? then result.inputTokens else cfg.reservePerCall;
      rows := rows[r.value := row.(evaluation := Some(result), reserved := reserve)];
      reply := Settled;
    }

    method Interrupt(id: string, line: string) returns (reply: Reply)
      modifies this
      ensures Outcome(Contents(), reply) == Recover(old(Contents()), id, line)
    {
      var r := Select(id);
      if r.None? || rows[r.value].line != line || !rows[r.value].started || rows[r.value].evaluation.Some? {
        return Refused;
      }
      rows := rows[r.value := rows[r.value].(evaluation := Some(Unavailable("interrupted_billing_unknown")))];
      reply := Settled;
    }

    method Judge(id: string, line: string, judgment: Label) returns (reply: Reply)
      modifies this
      ensures Outcome(Contents(), reply) == LabelCase(old(Contents()), cfg, id, line, judgment)
    {
      var r := Select(id);
      if r.None? || rows[r.value].line != line || !LabelFits(cfg, judgment, rows[r.value]) {
        return Refused;
      }
      var row := rows[r.value];
      if row.judgment.Some? && row.judgment != Some(judgment) {
        return Refused;
      }
      rows := rows[r.value := row.(judgment := Some(judgment))];
      reply := Labelled;
    }

    method Close(line: string, taskId: string, outcome: string) returns (reply: Reply)
      modifies this
      ensures Outcome(Contents(), reply) == Finish(old(Contents()), cfg, line, taskId, outcome)
    {
      var key := (line, taskId);
      if !cfg.outcomeOk(outcome) || key !in tasks || (tasks[key].Some? && tasks[key] != Some(outcome)) {
        return Refused;
      }
      tasks := tasks[key := Some(outcome)];
      reply := Finished;
    }

    method Show(id: string, line: string) returns (r: Option<Revealed>)
      ensures r == Reveal(Contents(), id, line)
    {
      var found := Select(id);
      if found.None? || rows[found.value].line != line {
        return None;
      }
      var row := rows[found.value];
      var key := (line, row.taskId);
      if key !in tasks || tasks[key].None? || row.judgment.None? {
        return None;
      }
      r := Some(Revealed(row.document.packet.baseline, row.evaluation, row.judgment.value));
    }

    /** Take in a checkpoint row by row; a row that is refused undoes everything before it. */
    method Load(listed: seq<Sample>, listedTasks: map<TaskKey, Option<string>>) returns (ok: bool)
      modifies this
      ensures ok == Restore(old(Contents()), listed, listedTasks, cfg).Some?
      ensures Contents() == if ok then Restore(old(Contents()), listed, listedTasks, cfg).value else old(Contents())
    {
      hide RestoreRow, Find, RestoreRows;
      if |listed| > CHECKPOINT_LIMIT || |listedTasks| > CHECKPOINT_LIMIT || rows != [] || tasks != map[] {
        return false;
      }
      if exists k | k in listedTasks ::
           k.0 !in cfg.lines || !cfg.identifierOk(k.1) || (listedTasks[k].Some? && !cfg.outcomeOk(listedTasks[k].value)) {
        return false;
      }
      tasks := listedTasks;
      NoRows(listed, cfg, listedTasks);
      for i := 0 to |listed|
        invariant RestoreRows(listed[..i], cfg, listedTasks) == Some(rows) && tasks == listedTasks
      {
        OneMoreRow(listed, i, cfg, listedTasks);
        var there := Select(listed[i].id);
        var row := RestoreRow(listed[i], cfg, listedTasks);
        if there.Some? || row.None? {
          RefusedOnce(listed, i + 1, cfg, listedTasks);
          rows, tasks := [], map[];
          return false;
        }
        rows := rows + [row.value];
      }
      assert listed[..|listed|] == listed;
      ok := true;
    }
  }

  lemma NoRows(rows: seq<Sample>, cfg: Config, tasks: map<TaskKey, Option<string>>)
    ensures RestoreRows(rows[..0], cfg, tasks) == Some([])
  {}

  lemma OneMoreRow(rows: seq<Sample>, i: nat, cfg: Config, tasks: map<TaskKey, Option<string>>)
    requires i < |rows| && RestoreRows(rows[..i], cfg, tasks).Some?
    ensures var before, row := RestoreRows(rows[..i], cfg, tasks).value, RestoreRow(rows[i], cfg, tasks);
      RestoreRows(rows[..i + 1], cfg, tasks)
      == if Find(before, rows[i].id).Some? || row.None? then None else Some(before + [row.value])
  {
    hide RestoreRow, Find;
    assert rows[..i + 1][..i] == rows[..i];
  }

  /** A checkpoint with a refused row is refused. */
  lemma {:induction false} RefusedOnce(rows: seq<Sample>, n: nat, cfg: Config, tasks: map<TaskKey, Option<string>>)
    requires n <= |rows| && RestoreRows(rows[..n], cfg, tasks).None?
    ensures RestoreRows(rows, cfg, tasks).None?
    decreases |rows|
  {
    if n == |rows| {
      assert rows[..n] == rows;
    } else {
      var init := rows[..|rows| - 1];
      assert init[..n] == rows[..n];
      RefusedOnce(init, n, cfg, tasks);
    }
  }

  lemma {:induction false} PeerIsFirst(rows: seq<Sample>, n: nat, line: string, taskId: string)
    requires 0 < n <= |rows| && Peer(rows[..n - 1], line, taskId).None?
    requires rows[n - 1].line == line && rows[n - 1].taskId == taskId
    ensures Peer(rows, line, taskId) == Some(n - 1)
    decreases |rows|
  {
    if n == |rows| {
      assert rows[..|rows| - 1] == rows[..n - 1];
    } else {
      var init := rows[..|rows| - 1];
      assert init[..n - 1] == rows[..n - 1];
      PeerIsFirst(init, n, line, taskId);
    }
  }
}
