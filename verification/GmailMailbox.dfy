/** The environment of the sync protocol: one Gmail mailbox with an append-only history log,
    increasing history ids and offset pagination. */
module GmailMailbox {
  import opened Wrappers
  import opened GmailStore

  datatype Label = INBOX | UNREAD | SPAM | TRASH | DRAFT | CHAT | SENT | Custom(name: string)

  /** A stored message. `readable` says whether it can be normalized into an event, `hash` what its
      payload hashes to; both depend on fields that never change after delivery. */
  datatype Message = Message(labels: set<Label>, date: nat, readable: bool, hash: int)

  /** One change of the mailbox; `labels` are the message's labels when it happened. */
  datatype Record = Record(id: nat, added: bool, msg: MsgId, labels: set<Label>)

  datatype Mailbox = Mailbox(
    head: nat,
    oldest: nat,
    next: MsgId,
    messages: map<MsgId, Message>,
    log: seq<Record>)

  /** A message of a history page; Gmail usually omits the labels. */
  datatype Ref = Ref(msg: MsgId, labels: Option<set<Label>>)

  datatype Page = Page(records: seq<Record>, next: Option<nat>, head: nat)

  predicate Excluded(labels: set<Label>) {
    labels * {SPAM, TRASH, DRAFT, CHAT} != {} || (SENT in labels && INBOX !in labels)
  }

  /** Spam, deleted mail, drafts, chats, and sent mail that is not in the inbox. */
  predicate Barred(labels: set<Label>) {
    SPAM in labels || TRASH in labels || DRAFT in labels || CHAT in labels || (SENT in labels && INBOX !in labels)
  }

  lemma BarredIsExcluded(labels: set<Label>)
    ensures Barred(labels) <==> Excluded(labels)
  {
    var common := labels * {SPAM, TRASH, DRAFT, CHAT};
    if SPAM in labels { assert SPAM in common; }
    if TRASH in labels { assert TRASH in common; }
    if DRAFT in labels { assert DRAFT in common; }
    if CHAT in labels { assert CHAT in common; }
  }

  predicate InboxMail(labels: set<Label>) {
    INBOX in labels && !Excluded(labels)
  }

  predicate Inbox(r: Record) {
    INBOX in r.labels
  }

  /** The log is strictly increasing and never ahead of the head. */
  predicate ValidLog(log: seq<Record>, head: nat) {
    && (forall i, j | 0 <= i < j < |log| :: log[i].id < log[j].id)
    && (forall i | 0 <= i < |log| :: log[i].id <= head)
  }

  predicate Valid(m: Mailbox) {
    ValidLog(m.log, m.head) && forall k <- m.messages :: k < m.next
  }

  function Deliver(m: Mailbox, message: Message): Mailbox {
    m.(next := m.next + 1,
       messages := m.messages[m.next := message],
       head := m.head + 1,
       log := m.log + [Record(m.head + 1, true, m.next, message.labels)])
  }

  /** Replaces a message's labels; moving it into the inbox is a recorded change. */
  function SetLabels(m: Mailbox, id: MsgId, labels: set<Label>): Mailbox {
    if id !in m.messages then m else
      var moved := m.(messages := m.messages[id := m.messages[id].(labels := labels)]);
      if INBOX !in m.messages[id].labels && INBOX in labels then
        moved.(head := m.head + 1, log := m.log + [Record(m.head + 1, false, id, labels)])
      else moved
  }

  function Remove(m: Mailbox, id: MsgId): Mailbox {
    m.(messages := m.messages - {id})
  }

  function Expire(m: Mailbox, oldest: nat): Mailbox {
    m.(oldest := oldest)
  }

  /** The inbox records after `start`, in log order: what history.list answers, before paging. */
  function After(log: seq<Record>, start: nat): seq<Record> {
    if log == [] then [] else
      var r := log[|log| - 1];
      After(log[..|log| - 1], start) + if r.id > start && Inbox(r) then [r] else []
  }

  function Slice<T>(s: seq<T>, offset: nat, max: nat): seq<T> {
    if offset >= |s| then [] else if offset + max >= |s| then s[offset..] else s[offset..offset + max]
  }

  /** One page of history; nothing when history before `start` is gone. */
  function HistoryPage(m: Mailbox, start: nat, offset: nat, max: nat): Option<Page> {
    if start < m.oldest then None else
      var after := After(m.log, start);
      Some(Page(Slice(after, offset, max),
                if offset + max < |after| then Some(offset + max) else None,
                m.head))
  }

  /** The inbox messages dated `since` or later among the first `n` delivered, newest first. */
  function Listing(messages: map<MsgId, Message>, since: nat, n: nat): seq<MsgId> {
    if n == 0 then [] else
      (if n - 1 in messages && INBOX in messages[n - 1].labels && messages[n - 1].date >= since then [n - 1] else [])
        + Listing(messages, since, n - 1)
  }

  /** Appending a record never moves what earlier pages answered. */
  lemma AfterSnoc(log: seq<Record>, r: Record, start: nat)
    ensures After(log + [r], start) == After(log, start) + if r.id > start && Inbox(r) then [r] else []
  {
    assert (log + [r])[..|log|] == log;
  }

  /** `After` holds exactly the inbox records above `start`. */
  lemma {:induction false} AfterMembers(log: seq<Record>, start: nat, r: Record)
    ensures r in After(log, start) <==> r in log && r.id > start && Inbox(r)
  {
    if log != [] {
      var n := |log| - 1;
      AfterMembers(log[..n], start, r);
      assert log == log[..n] + [log[n]];
    }
  }

  /** `After` keeps the log's strict order. */
  lemma {:induction false} AfterOrdered(log: seq<Record>, start: nat, head: nat)
    requires ValidLog(log, head)
    ensures ValidLog(After(log, start), head)
  {
    if log != [] {
      var n := |log| - 1;
      var before := After(log[..n], start);
      AfterOrdered(log[..n], start, head);
      forall i | 0 <= i < |before| ensures before[i].id < log[n].id {
        AfterMembers(log[..n], start, before[i]);
      }
    }
  }

  /** The log has a record, above `head`, that puts the message into the inbox. */
  ghost predicate LoggedAbove(log: seq<Record>, head: nat, id: MsgId) {
    exists r <- log :: r.id > head && r.msg == id && INBOX in r.labels
  }

  /** Whatever comes into the inbox, by delivery or by a change of labels, is logged above the old head; and nothing
      else is added to the log. */
  lemma IntoInboxIsLogged(m: Mailbox, message: Message, id: MsgId, labels: set<Label>)
    ensures INBOX in message.labels ==> LoggedAbove(Deliver(m, message).log, m.head, m.next)
    ensures id in m.messages && INBOX !in m.messages[id].labels && INBOX in labels ==>
              LoggedAbove(SetLabels(m, id, labels).log, m.head, id)
    ensures !(id in m.messages && INBOX !in m.messages[id].labels && INBOX in labels) ==>
              SetLabels(m, id, labels).log == m.log
    ensures |Deliver(m, message).log| == |m.log| + 1 && m.log <= Deliver(m, message).log
  {
    var d, s := Deliver(m, message).log, SetLabels(m, id, labels).log;
    assert d[|m.log|].msg == m.next;
    if id in m.messages && INBOX !in m.messages[id].labels && INBOX in labels { assert s[|m.log|].msg == id; }
  }

  /** The mailbox as the test double keeps it: counters, log and messages changed in place. */
  class FakeGoogle {
    var history: nat
    var oldest: nat
    var nextMessage: MsgId
    var messages: map<MsgId, Message>
    var records: seq<Record>

    function Value(): Mailbox
      reads this
    {
      Mailbox(history, oldest, nextMessage, messages, records)
    }

    constructor ()
      ensures Value() == Mailbox(1000, 0, 0, map[], [])
    {
      history, oldest, nextMessage, messages, records := 1000, 0, 0, map[], [];
    }

    method DeliverMessage(message: Message) returns (id: MsgId)
      modifies this
      ensures Value() == Deliver(old(Value()), message) && id == old(nextMessage)
    {
      id := nextMessage;
      nextMessage := nextMessage + 1;
      messages := messages[id := message];
      history := history + 1;
      records := records + [Record(history, true, id, message.labels)];
    }

    method Relabel(id: MsgId, labels: set<Label>)
      modifies this
      ensures Value() == SetLabels(old(Value()), id, labels)
    {
      if id !in messages { return; }
      var intoInbox := INBOX !in messages[id].labels && INBOX in labels;
      messages := messages[id := messages[id].(labels := labels)];
      if intoInbox {
        history := history + 1;
        records := records + [Record(history, false, id, labels)];
      }
    }

    method ExpireHistory(h: nat)
      modifies this
      ensures Value() == Expire(old(Value()), h)
    {
      oldest := h;
    }

    method DeleteMessage(id: MsgId)
      modifies this
      ensures Value() == Remove(old(Value()), id)
    {
      messages := messages - {id};
    }

    /** `history.list`: the filter runs over the whole log, then the page is cut out of it. */
    method History(start: nat, offset: nat, max: nat) returns (page: Option<Page>)
      ensures page == HistoryPage(Value(), start, offset, max)
    {
      if start < oldest { return None; }
      var after: seq<Record> := [];
      for i := 0 to |records|
        invariant after == After(records[..i], start)
      {
        assert records[..i + 1] == records[..i] + [records[i]];
        AfterSnoc(records[..i], records[i], start);
        if records[i].id > start && INBOX in records[i].labels { after := after + [records[i]]; }
      }
      assert records[..|records|] == records;
      var next := if offset + max < |after| then Some(offset + max) else None;
      page := Some(Page(Slice(after, offset, max), next, history));
    }

    /** `messages.list`: ids only, newest first, cut by offset; `next` when more follow. */
    method ListInbox(since: nat, offset: nat, max: nat) returns (ids: seq<MsgId>, next: Option<nat>)
      ensures ids == Slice(Listing(messages, since, nextMessage), offset, max)
      ensures next == if offset + max < |Listing(messages, since, nextMessage)| then Some(offset + max) else None
    {
      var all: seq<MsgId> := [];
      for n := 0 to nextMessage
        invariant all == Listing(messages, since, n)
      {
        if n in messages && INBOX in messages[n].labels && messages[n].date >= since { all := [n] + all; }
      }
      ids := Slice(all, offset, max);
      next := if offset + max < |all| then Some(offset + max) else None;
    }
  }
}
