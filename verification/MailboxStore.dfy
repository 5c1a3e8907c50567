/** The mailbox as it runs: the tables updated in place, and the validation of a checkpoint row by row
    with the messages seen so far. */
module MailboxStore {
  import opened Options
  import opened Mailbox

  class Box {
    var lines: set<string>
    var messages: seq<Message>

    ghost function Contents(): Mail
      reads this
    {
      Mail(lines, messages)
    }

    constructor ()
      ensures Contents() == EMPTY
    {
      lines, messages := {}, [];
    }

    /** Insert a validated checkpoint: every line, then every message in order. */
    method Insert(listed: seq<string>, rows: seq<Message>)
      requires Contents() == EMPTY
      modifies this
      ensures Contents() == Restored(listed, rows)
    {
      for i := 0 to |listed|
        invariant lines == (set l | l in listed[..i]) && messages == []
      {
        lines := lines + {listed[i]};
      }
      for i := 0 to |rows|
        invariant lines == (set l | l in listed) && messages == rows[..i]
      {
        messages := messages + [rows[i]];
      }
    }

    method Select(id: string) returns (r: Option<nat>)
      ensures r == Find(messages, id)
    {
      for i := 0 to |messages|
        invariant Find(messages[..i], id).None?
      {
        assert messages[..i + 1][..i] == messages[..i];
        if messages[i].id == id {
          FoundFirst(messages, i, id);
          return Some(i);
        }
      }
      assert messages[..|messages|] == messages;
      r := None;
    }

    method Post(e: Envelope, harness: string, now: string) returns (reply: Reply<Message>)
      modifies this
      ensures (Contents(), reply) == Send(old(Contents()), e, harness, now)
    {
      if !BodyOk(e.body) || !Identifier(e.id) || !Identifier(harness) || e.sender !in lines || e.recipient !in lines {
        return Refused;
      }
      if e.replyTo.Some? {
        var parent := Select(e.replyTo.value);
        if parent.None? || messages[parent.value].sender != e.recipient || messages[parent.value].recipient != e.sender {
          return Refused;
        }
      }
      var previous := Select(e.id);
      if previous.Some? {
        var row := messages[previous.value];
        return if EnvelopeOf(row) == e then Done(row) else Refused;
      }
      var sent := Message(e.id, e.sender, e.recipient, e.kind, e.replyTo, e.body, harness, now, None);
      messages := messages + [sent];
      reply := Done(sent);
    }

    method Confirm(id: string, line: string, harness: string, now: string) returns (reply: Reply<Message>)
      modifies this
      ensures (Contents(), reply) == Acknowledge(old(Contents()), id, line, harness, now)
    {
      var r := Select(id);
      if r.None? || messages[r.value].recipient != line || !Identifier(harness) {
        return Refused;
      }
      var row := messages[r.value];
      if row.acknowledged.None? {
        row := row.(acknowledged := Some(Ack(now, harness)));
        messages := messages[r.value := row];
      }
      reply := Done(row);
    }
  }

  lemma {:induction false} FoundFirst(ms: seq<Message>, i: nat, id: string)
    requires i < |ms| && ms[i].id == id && Find(ms[..i], id).None?
    ensures Find(ms, id) == Some(i)
    decreases |ms|
  {
    var n := |ms| - 1;
    if i < n {
      assert ms[..n][..i] == ms[..i];
      FoundFirst(ms[..n], i, id);
    } else {
      assert ms[..n] == ms[..i];
    }
  }

  /** The rows read so far, by identifier. */
  ghost predicate Seen(seen: map<string, Message>, ms: seq<Message>) {
    forall id :: if id in seen then Find(ms, id).Some? && seen[id] == ms[Find(ms, id).value] else Find(ms, id).None?
  }

  /** Check a checkpoint row by row. */
  method ReadCheckpoint(lines: seq<string>, rows: seq<Message>, validTime: string -> bool) returns (ok: bool)
    ensures ok == CheckpointOk(lines, rows, validTime)
  {
    hide Identifier, BodyOk, Find, EnvelopeOf;
    if !LinesOk(lines) {
      return false;
    }
    var seen: map<string, Message> := map[];
    NoneSeen();
    for i := 0 to |rows|
      invariant Seen(seen, rows[..i])
      invariant forall k :: 0 <= k < i ==> RowOk(lines, rows[..k], rows[k], validTime)
    {
      var row := rows[i];
      if !Identifier(row.id) || !Identifier(row.sender) || !Identifier(row.recipient) || !Identifier(row.harness) {
        return false;
      }
      if row.id in seen || row.sender !in lines || row.recipient !in lines {
        return false;
      }
      if !BodyOk(row.body) || !validTime(row.created) {
        return false;
      }
      if row.acknowledged.Some? && !(validTime(row.acknowledged.value.time) && Identifier(row.acknowledged.value.harness)) {
        return false;
      }
      if row.replyTo.Some? {
        var parent := row.replyTo.value;
        if !Identifier(parent) || parent !in seen {
          return false;
        }
        if seen[parent].sender != row.recipient || seen[parent].recipient != row.sender {
          return false;
        }
      }
      OneMoreSeen(seen, rows, i);
      seen := seen[row.id := row];
    }
    ok := true;
  }

  /** Build a new mailbox from a checkpoint that passes validation, and from no other. */
  method Restore(lines: seq<string>, rows: seq<Message>, validTime: string -> bool) returns (box: Box?)
    ensures box != null <==> CheckpointOk(lines, rows, validTime)
    ensures box != null ==> fresh(box) && box.Contents() == Restored(lines, rows)
  {
    var ok := ReadCheckpoint(lines, rows, validTime);
    if !ok {
      return null;
    }
    box := new Box();
    box.Insert(lines, rows);
  }

  lemma NoneSeen()
    ensures Seen(map[], [])
  {}

  lemma OneMoreSeen(seen: map<string, Message>, rows: seq<Message>, i: nat)
    requires i < |rows| && Seen(seen, rows[..i]) && rows[i].id !in seen
    ensures Seen(seen[rows[i].id := rows[i]], rows[..i + 1])
  {
    assert rows[..i + 1][..i] == rows[..i];
  }
}
