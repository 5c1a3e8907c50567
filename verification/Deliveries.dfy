/** What each operation on the mail answers and what it leaves, said of the messages themselves. */
module Deliveries {
  import opened Options
  import opened Mailbox

  predicate Known(m: Mail, id: string) {
    exists i :: 0 <= i < |m.messages| && m.messages[i].id == id
  }

  /** A line is registered if and only if it was or its name is an identifier; no message is touched. */
  lemma RegistersExactly(m: Mail, line: string, other: string)
    ensures other in Register(m, line).lines <==> other in m.lines || (other == line && Identifier(line))
    ensures Register(m, line).messages == m.messages
  {}

  /** A message of that name runs the other way between the same two lines. */
  predicate Answerable(m: Mail, parent: string, sender: string, recipient: string) {
    exists i :: 0 <= i < |m.messages| && m.messages[i].id == parent
      && m.messages[i].sender == recipient && m.messages[i].recipient == sender
  }

  /** The same message was sent before, whoever sent it and whenever. */
  predicate SentAs(row: Message, e: Envelope) {
    && row.id == e.id && row.sender == e.sender && row.recipient == e.recipient
    && row.kind == e.kind && row.replyTo == e.replyTo && row.body == e.body
  }

  predicate Sent(m: Mail, e: Envelope) {
    exists i :: 0 <= i < |m.messages| && SentAs(m.messages[i], e)
  }

  /** Fields are valid, both lines registered, and a reply reverses the route it answers. */
  predicate Sendable(m: Mail, e: Envelope, harness: string) {
    && BodyOk(e.body) && Identifier(e.id) && Identifier(harness) && e.sender in m.lines && e.recipient in m.lines
    && (e.replyTo.Some? ==> Answerable(m, e.replyTo.value, e.sender, e.recipient))
  }

  lemma {:induction false} FoundAt(ms: seq<Message>, i: nat)
    requires Distinct(ms) && i < |ms|
    ensures Find(ms, ms[i].id) == Some(i)
  {
    var f := Find(ms, ms[i].id);
    assert f.Some?;
  }

  lemma ReversesExactly(m: Mail, parent: string, sender: string, recipient: string)
    requires Distinct(m.messages)
    ensures Reverses(m.messages, parent, sender, recipient) <==> Answerable(m, parent, sender, recipient)
  {
    if Answerable(m, parent, sender, recipient) {
      var i :| 0 <= i < |m.messages| && m.messages[i].id == parent
        && m.messages[i].sender == recipient && m.messages[i].recipient == sender;
      FoundAt(m.messages, i);
    }
  }

  /** A message is sent if and only if it can be and its identifier is free or names the same message; a retry
      changes nothing, and what is new is one message behind the others, not acknowledged. */
  lemma SendsExactly(m: Mail, e: Envelope, harness: string, now: string)
    requires Distinct(m.messages)
    ensures var (u, r) := Send(m, e, harness, now);
      && (r.Done? <==> Sendable(m, e, harness) && (Sent(m, e) || !Known(m, e.id)))
      && (r.Refused? ==> u == m)
      && (r.Done? ==> SentAs(r.value, e) && r.value in u.messages)
      && (r.Done? && Known(m, e.id) ==> u == m)
      && (r.Done? && !Known(m, e.id) ==>
            && u.lines == m.lines && |u.messages| == |m.messages| + 1 && u.messages[..|m.messages|] == m.messages
            && u.messages[|m.messages|] == r.value
            && r.value.harness == harness && r.value.created == now && r.value.acknowledged.None?)
  {
    hide BodyOk, Identifier;
    if e.replyTo.Some? {
      ReversesExactly(m, e.replyTo.value, e.sender, e.recipient);
    }
    hide Reverses, Answerable;
    if Sent(m, e) {
      var i :| 0 <= i < |m.messages| && SentAs(m.messages[i], e);
      FoundAt(m.messages, i);
    }
    if Send(m, e, harness, now).1.Done? && !Known(m, e.id) {
      var u := Send(m, e, harness, now).0;
      assert u.messages[|m.messages|] in u.messages;
    }
  }

  /** An acknowledgement is accepted if and only if it comes from the line the message is addressed to; the first
      is put on the message, a later one changes nothing. */
  lemma AcknowledgesExactly(m: Mail, id: string, line: string, harness: string, now: string, i: nat)
    requires Distinct(m.messages)
    ensures !Known(m, id) ==> Acknowledge(m, id, line, harness, now) == (m, Refused)
    ensures i < |m.messages| && m.messages[i].id == id ==>
      var (u, r) := Acknowledge(m, id, line, harness, now);
      var row := m.messages[i];
      && (r.Done? <==> line == row.recipient && Identifier(harness))
      && u.lines == m.lines && |u.messages| == |m.messages|
      && (forall k :: 0 <= k < |m.messages| && k != i ==> u.messages[k] == m.messages[k])
      && (r.Refused? || row.acknowledged.Some? ==> u.messages[i] == row)
      && (r.Done? ==> r.value == u.messages[i])
      && (r.Done? && row.acknowledged.None? ==> u.messages[i] == row.(acknowledged := Some(Ack(now, harness))))
  {
    hide Identifier;
    if i < |m.messages| && m.messages[i].id == id {
      FoundAt(m.messages, i);
    }
  }
}
