/** What one sync computes: the messages a history page refers to, how far the page reaches, and
    what each fetched message becomes. */
module GmailSync {
  import opened Wrappers
  import opened GmailStore
  import opened GmailMailbox

  /** The references of a page's records; `shown` when Gmail sends the labels along. */
  function RefsOf(records: seq<Record>, shown: bool): seq<Ref> {
    seq(|records|, i requires 0 <= i < |records| =>
      Ref(records[i].msg, if shown then Some(records[i].labels) else None))
  }

  predicate RefExcluded(ref: Ref) {
    Excluded(if ref.labels.Some? then ref.labels.value else {})
  }

  /** The messages among `refs` that are not excluded, each once, at its first occurrence. */
  function Unique(refs: seq<Ref>): seq<MsgId> {
    if refs == [] then [] else
      var n := |refs| - 1;
      var before := Unique(refs[..n]);
      if refs[n].msg in before || RefExcluded(refs[n]) then before else before + [refs[n].msg]
  }

  /** `Unique` drops nothing but excluded references and repetitions. */
  lemma {:induction false} UniqueMeaning(refs: seq<Ref>, m: MsgId)
    ensures m in Unique(refs) <==>
              exists ref <- refs :: ref.msg == m && (ref.labels.None? || !Barred(ref.labels.value))
    ensures multiset(Unique(refs))[m] <= 1
  {
    if refs != [] {
      var n := |refs| - 1;
      UniqueMeaning(refs[..n], m);
      BarredIsExcluded(if refs[n].labels.Some? then refs[n].labels.value else {});
      assert refs == refs[..n] + [refs[n]];
    }
  }

  method UniqueRefs(refs: seq<Ref>) returns (ids: seq<MsgId>)
    ensures ids == Unique(refs)
  {
    ids := [];
    var seen: set<MsgId> := {};
    for i := 0 to |refs|
      invariant ids == Unique(refs[..i])
      invariant forall m :: m in seen <==> m in ids
    {
      assert refs[..i + 1][..i] == refs[..i];
      if !(refs[i].msg in seen || RefExcluded(refs[i])) {
        seen := seen + {refs[i].msg};
        ids := ids + [refs[i].msg];
      }
    }
    assert refs[..|refs|] == refs;
  }

  /** How far a page reaches: its last record, or on the last page the mailbox's head. */
  function Reach(page: Page, cursor: nat): nat {
    var reach := if page.next.None? then page.head
                 else if page.records == [] then cursor else page.records[|page.records| - 1].id;
    if reach > cursor then reach else cursor
  }

  datatype Admission = History | Listed

  /** What fetching one message gives: nothing to store, an event, or an unreadable message. */
  datatype Fetched = Skip | Deliverable(event: Event) | Broken

  function Fetch(box: Mailbox, m: MsgId, admission: Admission): Fetched {
    if m !in box.messages then Skip else
      var labels := box.messages[m].labels;
      if (if admission.History? then Excluded(labels) else !InboxMail(labels)) then Skip
      else if box.messages[m].readable then Deliverable(Event(Mail(m), box.messages[m].hash))
      else Broken
  }
}
