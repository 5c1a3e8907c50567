/** Line mail: registered lines exchange messages in a table; a checkpoint of the table is validated
    before it is restored. */
module Mailbox {
  import opened Options

  datatype Kind = Notice | Request | Response | Test

  datatype Ack = Ack(time: string, harness: string)

  datatype Message = Message(
    id: string, sender: string, recipient: string, kind: Kind, replyTo: Option<string>, body: string,
    harness: string, created: string, acknowledged: Option<Ack>)

  /** Messages in the order they were sent. */
  datatype Mail = Mail(lines: set<string>, messages: seq<Message>)

  const EMPTY := Mail({}, [])

  const BODY_LIMIT := 16384

  /** The fields a retry must repeat exactly. */
  datatype Envelope = Envelope(id: string, sender: string, recipient: string, kind: Kind, replyTo: Option<string>, body: string)

  function EnvelopeOf(m: Message): Envelope {
    Envelope(m.id, m.sender, m.recipient, m.kind, m.replyTo, m.body)
  }

  /** Letters, digits, dots, underscores and hyphens; the first a letter or digit; 1 to 96 of them. */
  predicate Identifier(s: string) {
    && 1 <= |s| <= 96 && Alphanumeric(s[0])
    && forall i :: 0 <= i < |s| ==> Alphanumeric(s[i]) || s[i] in "._-"
  }

  predicate Alphanumeric(c: char) {
    'a' <= c <= 'z' || 'A' <= c <= 'Z' || '0' <= c <= '9'
  }

  function Find(ms: seq<Message>, id: string): (r: Option<nat>)
    ensures r.Some? ==> r.value < |ms| && ms[r.value].id == id
    ensures r.None? ==> forall i :: 0 <= i < |ms| ==> ms[i].id != id
  {
    if ms == [] then None
    else
      var earlier := Find(ms[..|ms| - 1], id);
      if earlier.Some? then earlier
      else if ms[|ms| - 1].id == id then Some(|ms| - 1) else None
  }

  /** A reply reverses the route of the message it answers. */
  predicate Reverses(ms: seq<Message>, parent: string, sender: string, recipient: string) {
    var p := Find(ms, parent);
    p.Some? && ms[p.value].sender == recipient && ms[p.value].recipient == sender
  }

  datatype Reply<+T> = Refused | Done(value: T)

  // ----- operations -----

  function Register(m: Mail, line: string): Mail {
    if Identifier(line) then m.(lines := m.lines + {line}) else m
  }

  /** Send a message, or find that it was sent before with the same envelope. `bodyOk` says the body is
      1 to `BODY_LIMIT` bytes of UTF-8. */
  function Send(m: Mail, e: Envelope, harness: string, now: string): (Mail, Reply<Message>) {
    if !BodyOk(e.body) || !Identifier(e.id) || !Identifier(harness) then (m, Refused)
    else if e.sender !in m.lines || e.recipient !in m.lines then (m, Refused)
    else if e.replyTo.Some? && !Reverses(m.messages, e.replyTo.value, e.sender, e.recipient) then (m, Refused)
    else
      var previous := Find(m.messages, e.id);
      if previous.Some? then
        if EnvelopeOf(m.messages[previous.value]) == e then (m, Done(m.messages[previous.value])) else (m, Refused)
      else
        var sent := Message(e.id, e.sender, e.recipient, e.kind, e.replyTo, e.body, harness, now, None);
        (m.(messages := m.messages + [sent]), Done(sent))
  }

  /** Bodies are held decoded; their encoded length is their length in bytes. */
  predicate BodyOk(body: string) {
    0 < EncodedLength(body) <= BODY_LIMIT
  }

  function EncodedLength(s: string): nat {
    if s == [] then 0 else EncodedLength(s[..|s| - 1]) + CharLength(s[|s| - 1])
  }

  /** Bytes of a character in UTF-8. */
  function CharLength(c: char): nat {
    if c as int < 0x80 then 1 else if c as int < 0x800 then 2 else if c as int < 0x1_0000 then 3 else 4
  }

  /** Acknowledge a message once; later acknowledgements change nothing. */
  function Acknowledge(m: Mail, id: string, line: string, harness: string, now: string): (Mail, Reply<Message>) {
    var r := Find(m.messages, id);
    if r.None? || m.messages[r.value].recipient != line || !Identifier(harness) then (m, Refused)
    else
      var row := m.messages[r.value];
      if row.acknowledged.Some? then (m, Done(row))
      else
        var done := row.(acknowledged := Some(Ack(now, harness)));
        (m.(messages := m.messages[r.value := done]), Done(done))
  }

  // ----- runs -----

  datatype Action =
    | DoRegister(line: string)
    | DoSend(envelope: Envelope, harness: string, now: string)
    | DoAcknowledge(id: string, line: string, harness: string, now: string)

  function Step(m: Mail, a: Action): Mail {
    match a
    case DoRegister(line) => Register(m, line)
    case DoSend(e, harness, now) => Send(m, e, harness, now).0
    case DoAcknowledge(id, line, harness, now) => Acknowledge(m, id, line, harness, now).0
  }

  /** The clock only ever gives times of the one valid form. */
  predicate Timed(a: Action, validTime: string -> bool) {
    match a
    case DoRegister(_) => true
    case DoSend(_, _, now) => validTime(now)
    case DoAcknowledge(_, _, _, now) => validTime(now)
  }

  predicate IsRun(run: seq<Mail>, actions: seq<Action>, validTime: string -> bool) {
    && |run| == |actions| + 1 && run[0] == EMPTY
    && forall i :: 0 <= i < |actions| ==> Timed(actions[i], validTime) && run[i + 1] == Step(run[i], actions[i])
  }

  // ----- what every run keeps -----

  predicate Distinct(ms: seq<Message>) {
    forall i, j :: 0 <= i < j < |ms| ==> ms[i].id != ms[j].id
  }

  /** Every field of a message is one the mailbox admits. */
  predicate FieldsOk(row: Message, lines: set<string>, validTime: string -> bool) {
    && Identifier(row.id) && Identifier(row.sender) && Identifier(row.recipient) && Identifier(row.harness)
    && row.sender in lines && row.recipient in lines
    && BodyOk(row.body) && validTime(row.created)
    && (row.acknowledged.Some? ==> validTime(row.acknowledged.value.time) && Identifier(row.acknowledged.value.harness))
  }

  /** The message at `i` answers an earlier one on the reverse route. */
  predicate ReplyOk(ms: seq<Message>, i: nat)
    requires i < |ms|
  {
    ms[i].replyTo.Some? ==> Identifier(ms[i].replyTo.value) && Reverses(ms[..i], ms[i].replyTo.value, ms[i].sender, ms[i].recipient)
  }

  predicate Orderly(m: Mail, validTime: string -> bool) {
    && (forall l :: l in m.lines ==> Identifier(l))
    && Distinct(m.messages)
    && (forall i :: 0 <= i < |m.messages| ==> FieldsOk(m.messages[i], m.lines, validTime))
    && (forall i :: 0 <= i < |m.messages| ==> ReplyOk(m.messages, i))
  }

  /** Finding does not look beyond what it finds, nor at acknowledgements. */
  lemma {:induction false} FindSame(a: seq<Message>, b: seq<Message>, id: string)
    requires |a| == |b| && forall i :: 0 <= i < |a| ==> EnvelopeOf(a[i]) == EnvelopeOf(b[i])
    ensures Find(a, id) == Find(b, id)
    decreases |a|
  {
    if a != [] {
      assert EnvelopeOf(a[|a| - 1]) == EnvelopeOf(b[|b| - 1]);
      FindSame(a[..|a| - 1], b[..|b| - 1], id);
    }
  }

  lemma StepOrderly(m: Mail, a: Action, validTime: string -> bool)
    requires Orderly(m, validTime) && Timed(a, validTime)
    ensures Orderly(Step(m, a), validTime)
  {
    match a
    case DoRegister(line) =>
      hide Identifier;
      assert forall i :: 0 <= i < |m.messages| ==> FieldsOk(m.messages[i], m.lines, validTime);
    case DoSend(e, harness, now) => SendOrderly(m, e, harness, now, validTime);
    case DoAcknowledge(id, line, harness, now) => AcknowledgeOrderly(m, id, line, harness, now, validTime);
  }

  lemma SendOrderly(m: Mail, e: Envelope, harness: string, now: string, validTime: string -> bool)
    requires Orderly(m, validTime) && validTime(now)
    ensures Orderly(Send(m, e, harness, now).0, validTime)
  {
    hide Identifier, BodyOk;
    var after := Send(m, e, harness, now).0;
    var n := |m.messages|;
    if after != m {
      assert after.messages[..n] == m.messages;
      forall i | 0 <= i < n + 1
        ensures ReplyOk(after.messages, i)
      {
        if i < n {
          assert ReplyOk(m.messages, i) && after.messages[..i] == m.messages[..i];
        } else if e.replyTo.Some? {
          var p := Find(m.messages, e.replyTo.value).value;
          assert FieldsOk(m.messages[p], m.lines, validTime);
        }
      }
    }
  }

  lemma AcknowledgeOrderly(m: Mail, id: string, line: string, harness: string, now: string, validTime: string -> bool)
    requires Orderly(m, validTime) && validTime(now)
    ensures Orderly(Acknowledge(m, id, line, harness, now).0, validTime)
  {
    hide Identifier, BodyOk;
    var after := Acknowledge(m, id, line, harness, now).0;
    var ms, ns := m.messages, after.messages;
    forall i | 0 <= i < |ns|
      ensures ReplyOk(ns, i) && FieldsOk(ns[i], m.lines, validTime)
    {
      assert ReplyOk(ms, i) && FieldsOk(ms[i], m.lines, validTime);
      if ms[i].replyTo.Some? {
        FindSame(ms[..i], ns[..i], ms[i].replyTo.value);
      }
    }
  }

  /** Over every sequence of registrations, sends with retries, and acknowledgements: identifiers stay
      unique, fields stay valid, and every reply follows the message it answers on the reverse route. */
  lemma {:induction false} RunOrderly(run: seq<Mail>, actions: seq<Action>, validTime: string -> bool, i: nat)
    requires IsRun(run, actions, validTime) && i < |run|
    ensures Orderly(run[i], validTime)
  {
    if i > 0 {
      RunOrderly(run, actions, validTime, i - 1);
      StepOrderly(run[i - 1], actions[i - 1], validTime);
    }
  }

  /** Messages stay where they are, their envelopes unchanged; an acknowledgement is written once. */
  predicate Keeps(a: Mail, b: Mail) {
    && a.lines <= b.lines && |a.messages| <= |b.messages|
    && forall i :: 0 <= i < |a.messages| ==>
      && EnvelopeOf(b.messages[i]) == EnvelopeOf(a.messages[i])
      && b.messages[i].harness == a.messages[i].harness && b.messages[i].created == a.messages[i].created
      && (a.messages[i].acknowledged.Some? ==> b.messages[i].acknowledged == a.messages[i].acknowledged)
  }

  lemma StepKeeps(m: Mail, a: Action)
    ensures Keeps(m, Step(m, a))
  {
    hide Identifier, BodyOk, Find, Reverses;
    match a
    case DoRegister(line) =>
    case DoSend(e, harness, now) =>
    case DoAcknowledge(id, line, harness, now) =>
  }

  lemma {:induction false} EnvelopesUnchanging(run: seq<Mail>, actions: seq<Action>, validTime: string -> bool, i: nat, j: nat)
    requires IsRun(run, actions, validTime) && i <= j < |run|
    ensures Keeps(run[i], run[j])
    decreases j - i
  {
    hide Step;
    if i < j {
      EnvelopesUnchanging(run, actions, validTime, i, j - 1);
      StepKeeps(run[j - 1], actions[j - 1]);
    }
  }

  // ----- the reply forest -----

  /** Steps from a message to the root of its thread. */
  function Depth(ms: seq<Message>, i: nat): nat
    requires i < |ms|
    decreases i
  {
    if ms[i].replyTo.None? then 0
    else
      var p := Find(ms[..i], ms[i].replyTo.value);
      if p.None? then 0 else Depth(ms, p.value) + 1
  }

  function Root(ms: seq<Message>, i: nat): (r: nat)
    requires i < |ms|
    ensures r <= i
    decreases i
  {
    if ms[i].replyTo.None? then i
    else
      var p := Find(ms[..i], ms[i].replyTo.value);
      if p.None? then i else Root(ms, p.value)
  }

  /** Replies form a forest, each thread on one pair of lines: at even depth a message runs the root's
      way, at odd depth the other way. */
  lemma {:induction false} ThreadsAlternate(m: Mail, validTime: string -> bool, i: nat)
    requires Orderly(m, validTime) && i < |m.messages|
    ensures var ms, r := m.messages, Root(m.messages, i);
      && ms[r].replyTo.None?
      && if Depth(ms, i) % 2 == 0
         then ms[i].sender == ms[r].sender && ms[i].recipient == ms[r].recipient
         else ms[i].sender == ms[r].recipient && ms[i].recipient == ms[r].sender
    decreases i
  {
    hide Identifier, BodyOk, FieldsOk, Distinct;
    var ms := m.messages;
    assert ReplyOk(ms, i);
    if ms[i].replyTo.Some? {
      var p := Find(ms[..i], ms[i].replyTo.value).value;
      ThreadsAlternate(m, validTime, p);
      Parity(Depth(ms, p));
      hide Find;
      assert ms[..i][p] == ms[p];
    }
  }

  lemma Parity(d: nat)
    ensures (d + 1) % 2 == 0 <==> d % 2 != 0
  {}

  // ----- checkpoints -----

  /** The lines are listed; duplicates are refused. */
  predicate LinesOk(lines: seq<string>) {
    && (forall i :: 0 <= i < |lines| ==> Identifier(lines[i]))
    && (forall i, j :: 0 <= i < j < |lines| ==> lines[i] != lines[j])
  }

  predicate RowOk(lines: seq<string>, seen: seq<Message>, row: Message, validTime: string -> bool) {
    && Identifier(row.id) && Identifier(row.sender) && Identifier(row.recipient) && Identifier(row.harness)
    && Find(seen, row.id).None? && row.sender in lines && row.recipient in lines
    && BodyOk(row.body) && validTime(row.created)
    && (row.acknowledged.Some? ==> validTime(row.acknowledged.value.time) && Identifier(row.acknowledged.value.harness))
    && (row.replyTo.Some? ==> Identifier(row.replyTo.value) && Reverses(seen, row.replyTo.value, row.sender, row.recipient))
  }

  predicate CheckpointOk(lines: seq<string>, rows: seq<Message>, validTime: string -> bool) {
    LinesOk(lines) && forall i :: 0 <= i < |rows| ==> RowOk(lines, rows[..i], rows[i], validTime)
  }

  /** A checkpoint lists the registered lines and the messages in order. */
  predicate Lists(lines: seq<string>, m: Mail) {
    (forall i, j :: 0 <= i < j < |lines| ==> lines[i] != lines[j]) && (set l | l in lines) == m.lines
  }

  /** Restoring is putting the checkpoint's lines and rows into an empty mailbox. */
  function Restored(lines: seq<string>, rows: seq<Message>): Mail {
    Mail((set l | l in lines), rows)
  }

  /** A checkpoint of an orderly mailbox is accepted and restores to the same mailbox; and any accepted
      checkpoint restores to an orderly mailbox, whoever wrote it. */
  lemma CheckpointExactly(lines: seq<string>, m: Mail, validTime: string -> bool)
    requires Lists(lines, m)
    ensures Restored(lines, m.messages) == m
    ensures CheckpointOk(lines, m.messages, validTime) <==> Orderly(m, validTime)
  {
    hide Identifier, BodyOk;
    var ms := m.messages;
    if Orderly(m, validTime) {
      forall i | 0 <= i < |ms|
        ensures RowOk(lines, ms[..i], ms[i], validTime)
      {
        assert FieldsOk(ms[i], m.lines, validTime) && ReplyOk(ms, i);
        assert forall k :: 0 <= k < i ==> ms[..i][k].id != ms[i].id;
      }
    }
    if CheckpointOk(lines, ms, validTime) {
      forall i | 0 <= i < |ms|
        ensures FieldsOk(ms[i], m.lines, validTime) && ReplyOk(ms, i)
      {
        assert RowOk(lines, ms[..i], ms[i], validTime);
      }
      forall i, j | 0 <= i < j < |ms|
        ensures ms[i].id != ms[j].id
      {
        assert RowOk(lines, ms[..j], ms[j], validTime);
        assert ms[..j][i] == ms[i];
      }
    }
  }

  /** Every reachable mailbox's checkpoint is accepted and restores to the same messages in the same
      order. */
  lemma ReachableRestores(run: seq<Mail>, actions: seq<Action>, validTime: string -> bool, i: nat, lines: seq<string>)
    requires IsRun(run, actions, validTime) && i < |run| && Lists(lines, run[i])
    ensures CheckpointOk(lines, run[i].messages, validTime) && Restored(lines, run[i].messages) == run[i]
  {
    RunOrderly(run, actions, validTime, i);
    CheckpointExactly(lines, run[i], validTime);
  }
}
