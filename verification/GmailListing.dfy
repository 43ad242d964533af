/** The full sync's offset pagination over an inbox that changes while its pages are read. */
module GmailListing {
  import opened GmailStore
  import opened GmailMailbox

  /** The inbox as the listing shows it, newest first. */
  function Listed(box: Mailbox, since: nat): seq<MsgId> { Listing(box.messages, since, box.next) }

  /** Page `j` of a listing read with pages of `max`: what `ListInbox` answers at offset `j * max`. */
  function PageOf(box: Mailbox, since: nat, max: nat, j: nat): seq<MsgId> { Slice(Listed(box, since), j * max, max) }

  predicate Shows(messages: map<MsgId, Message>, since: nat, x: MsgId) {
    x in messages && INBOX in messages[x].labels && messages[x].date >= since
  }

  // ----- The listing by its members

  lemma {:induction false} ListingMembers(messages: map<MsgId, Message>, since: nat, n: nat, x: MsgId)
    ensures x in Listing(messages, since, n) <==> x < n && Shows(messages, since, x)
  {
    if n > 0 { ListingMembers(messages, since, n - 1, x); }
  }

  /** Messages delivered later than the first `n` do not matter to what is listed of those. */
  lemma {:induction false} ListingFrame(messages: map<MsgId, Message>, others: map<MsgId, Message>, since: nat, n: nat)
    requires forall x: MsgId | x < n :: Shows(messages, since, x) <==> Shows(others, since, x)
    ensures Listing(messages, since, n) == Listing(others, since, n)
  {
    if n > 0 {
      ListingFrame(messages, others, since, n - 1);
      assert Shows(messages, since, n - 1) <==> Shows(others, since, n - 1);
    }
  }

  /** What stands before a message in the listing. */
  ghost function Before(messages: map<MsgId, Message>, since: nat, n: nat, x: MsgId): set<MsgId> {
    set y | x < y < n && Shows(messages, since, y)
  }

  /** A message's place is the number of newer messages listed. */
  lemma {:induction false} PlaceIsCount(messages: map<MsgId, Message>, since: nat, n: nat, x: MsgId)
    requires x < n && Shows(messages, since, x)
    ensures var p := |Before(messages, since, n, x)|;
            p < |Listing(messages, since, n)| && Listing(messages, since, n)[p] == x
  {
    var front := Before(messages, since, n, x);
    if x == n - 1 {
      assert front == {};
    } else {
      PlaceIsCount(messages, since, n - 1, x);
      var newer := Before(messages, since, n - 1, x);
      assert front == newer + if Shows(messages, since, n - 1) then {n - 1} else {};
    }
  }

  ghost predicate Distinct(s: seq<MsgId>) { forall i, j | 0 <= i < j < |s| :: s[i] != s[j] }

  lemma DistinctCons(x: MsgId, rest: seq<MsgId>)
    requires Distinct(rest) && x !in rest
    ensures Distinct([x] + rest) && Distinct([] + rest)
  {
    assert [] + rest == rest;
  }

  lemma {:induction false} ListingDistinct(messages: map<MsgId, Message>, since: nat, n: nat)
    ensures Distinct(Listing(messages, since, n))
  {
    if n > 0 {
      ListingDistinct(messages, since, n - 1);
      ListingMembers(messages, since, n - 1, n - 1);
      DistinctCons(n - 1, Listing(messages, since, n - 1));
    }
  }

  /** The newer messages listed with `x`, and its place among all. */
  ghost function Newer(box: Mailbox, since: nat, x: MsgId): set<MsgId> { Before(box.messages, since, box.next, x) }

  ghost function Place(box: Mailbox, since: nat, x: MsgId): nat { |Newer(box, since, x)| }

  lemma SliceMembers<T>(s: seq<T>, offset: nat, max: nat, x: T)
    ensures x in Slice(s, offset, max) <==> exists i | offset <= i < offset + max && i < |s| :: s[i] == x
  {
    var page := Slice(s, offset, max);
    forall i | offset <= i < offset + max && i < |s| && s[i] == x ensures x in page { assert page[i - offset] == x; }
  }

  /** A listed message is on a page exactly when its place is. */
  lemma OnPageByPlace(box: Mailbox, since: nat, max: nat, j: nat, x: MsgId)
    requires x in Listed(box, since)
    ensures Place(box, since, x) < |Listed(box, since)| && Listed(box, since)[Place(box, since, x)] == x
    ensures x in PageOf(box, since, max, j) <==> j * max <= Place(box, since, x) < j * max + max
  {
    var list, p := Listed(box, since), Place(box, since, x);
    ListingMembers(box.messages, since, box.next, x);
    PlaceIsCount(box.messages, since, box.next, x);
    ListingDistinct(box.messages, since, box.next);
    SliceMembers(list, j * max, max, x);
    assert forall i | 0 <= i < |list| && list[i] == x :: i == p;
  }

  lemma PageEnds(j: nat, max: nat)
    ensures (j + 1) * max == j * max + max
  {
  }

  // ----- One page boundary

  /** The listed messages newer than `x` that left between two moments. */
  ghost function Departed(a: Mailbox, b: Mailbox, since: nat, x: MsgId): set<MsgId> {
    Newer(a, since, x) - Newer(b, since, x)
  }

  /** Those that came: new mail, or older mail moved into the inbox. */
  ghost function Arrived(a: Mailbox, b: Mailbox, since: nat, x: MsgId): set<MsgId> {
    Newer(b, since, x) - Newer(a, since, x)
  }

  /** Whatever happened to the mailbox, a message moves up by the departures before it and down by the arrivals. */
  lemma PlaceMoves(a: Mailbox, b: Mailbox, since: nat, x: MsgId)
    ensures Place(b, since, x) == Place(a, since, x) - |Departed(a, b, since, x)| + |Arrived(a, b, since, x)|
  {
    var s, t := Newer(a, since, x), Newer(b, since, x);
    assert s == (s * t) + (s - t) && t == (s * t) + (t - s);
  }

  /** Page `j + 1` begins behind a message that page `j` did not reach. */
  ghost predicate Skips(a: Mailbox, b: Mailbox, since: nat, max: nat, j: nat, x: MsgId) {
    Place(a, since, x) >= j * max + max && Place(b, since, x) < (j + 1) * max
  }

  /** Exactly when a message still to come at one page is passed over by the next: more messages left before it than
      came, by as much as it stood behind the boundary. */
  lemma SkippedExactlyWhen(a: Mailbox, b: Mailbox, since: nat, max: nat, j: nat, x: MsgId)
    requires x in Listed(a, since) && x in Listed(b, since) && Place(a, since, x) >= j * max + max
    ensures Skips(a, b, since, max, j, x) <==>
              |Departed(a, b, since, x)| > |Arrived(a, b, since, x)| + (Place(a, since, x) - (j * max + max))
    ensures Skips(a, b, since, max, j, x) ==> x !in PageOf(a, since, max, j) && x !in PageOf(b, since, max, j + 1)
  {
    PlaceMoves(a, b, since, x);
    PageEnds(j, max);
    OnPageByPlace(a, since, max, j, x);
    OnPageByPlace(b, since, max, j + 1, x);
  }

  // ----- A whole listing

  /** `boxes[j]` is the mailbox when page `j` is read; `x` stays listed throughout. */
  ghost predicate StaysListed(boxes: seq<Mailbox>, since: nat, x: MsgId) {
    forall box <- boxes :: x in Listed(box, since)
  }

  /** The last page read has none after it. */
  predicate ReadToTheEnd(boxes: seq<Mailbox>, since: nat, max: nat) {
    boxes != [] && |Listed(boxes[|boxes| - 1], since)| <= |boxes| * max
  }

  ghost predicate Omitted(boxes: seq<Mailbox>, since: nat, max: nat, x: MsgId) {
    forall j | 0 <= j < |boxes| :: x !in PageOf(boxes[j], since, max, j)
  }

  ghost predicate SkippedAt(boxes: seq<Mailbox>, since: nat, max: nat, j: nat, x: MsgId) {
    j + 1 < |boxes| && Skips(boxes[j], boxes[j + 1], since, max, j, x)
  }

  lemma {:induction false} StillAhead(boxes: seq<Mailbox>, since: nat, max: nat, x: MsgId, j: nat)
    requires StaysListed(boxes, since, x) && Omitted(boxes, since, max, x) && j < |boxes|
    ensures (exists k: nat :: SkippedAt(boxes, since, max, k, x)) || Place(boxes[j], since, x) >= j * max + max
  {
    OnPageByPlace(boxes[j], since, max, j, x);
    if j > 0 {
      StillAhead(boxes, since, max, x, j - 1);
      PageEnds(j - 1, max);
      if Place(boxes[j], since, x) < j * max && Place(boxes[j - 1], since, x) >= (j - 1) * max + max {
        assert SkippedAt(boxes, since, max, j - 1, x);
      }
    }
  }

  /** However the mailbox changes between the pages, a message listed throughout is omitted only by a skip at some
      page boundary. */
  lemma OmissionIsASkip(boxes: seq<Mailbox>, since: nat, max: nat, x: MsgId)
    requires StaysListed(boxes, since, x) && ReadToTheEnd(boxes, since, max) && Omitted(boxes, since, max, x)
    ensures exists k: nat :: SkippedAt(boxes, since, max, k, x)
  {
    var n := |boxes| - 1;
    PageEnds(n, max);
    assert Place(boxes[n], since, x) < n * max + max by { OnPageByPlace(boxes[n], since, max, n, x); }
    StillAhead(boxes, since, max, x, n);
  }

  /** Between no two pages does anything newer than `x` come into the listing. */
  ghost predicate NothingComesBefore(boxes: seq<Mailbox>, since: nat, x: MsgId) {
    forall j | 0 <= j < |boxes| - 1 :: Arrived(boxes[j], boxes[j + 1], since, x) == {}
  }

  lemma {:induction false} OnlyMovesUp(boxes: seq<Mailbox>, since: nat, x: MsgId, i: nat, j: nat)
    requires NothingComesBefore(boxes, since, x) && i <= j < |boxes|
    ensures Place(boxes[j], since, x) <= Place(boxes[i], since, x)
    decreases j
  {
    if i < j {
      OnlyMovesUp(boxes, since, x, i, j - 1);
      PlaceMoves(boxes[j - 1], boxes[j], since, x);
      assert Arrived(boxes[j - 1], boxes[j - 1 + 1], since, x) == {};
    }
  }

  lemma MultiplesGrow(i: nat, j: nat, max: nat)
    requires i <= j
    ensures i * max <= j * max
  {
  }

  /** When messages only leave, a skip is final. */
  lemma SkipIsFinal(boxes: seq<Mailbox>, since: nat, max: nat, x: MsgId, k: nat, j: nat)
    requires StaysListed(boxes, since, x) && NothingComesBefore(boxes, since, x) && SkippedAt(boxes, since, max, k, x)
               && j < |boxes|
    ensures x !in PageOf(boxes[j], since, max, j)
  {
    OnPageByPlace(boxes[j], since, max, j, x);
    if j <= k {
      OnlyMovesUp(boxes, since, x, j, k);
      MultiplesGrow(j, k, max);
    } else {
      OnlyMovesUp(boxes, since, x, k + 1, j);
      MultiplesGrow(k + 1, j, max);
    }
  }

  /** Then the message is omitted exactly when a skip happens. */
  lemma OmittedExactlyWhen(boxes: seq<Mailbox>, since: nat, max: nat, x: MsgId)
    requires StaysListed(boxes, since, x) && ReadToTheEnd(boxes, since, max) && NothingComesBefore(boxes, since, x)
    ensures Omitted(boxes, since, max, x) <==> exists k: nat :: SkippedAt(boxes, since, max, k, x)
  {
    if k: nat :| SkippedAt(boxes, since, max, k, x) {
      forall j | 0 <= j < |boxes| ensures x !in PageOf(boxes[j], since, max, j) {
        SkipIsFinal(boxes, since, max, x, k, j);
      }
    } else if Omitted(boxes, since, max, x) {
      OmissionIsASkip(boxes, since, max, x);
    }
  }

  // ----- Arrivals alone omit nothing

  function DeliverAll(box: Mailbox, messages: seq<Message>): Mailbox {
    if messages == [] then box else Deliver(DeliverAll(box, messages[..|messages| - 1]), messages[|messages| - 1])
  }

  /** A delivery puts the new message in front, if anything. */
  lemma DeliveryListed(box: Mailbox, message: Message, since: nat)
    ensures Listed(Deliver(box, message), since)
         == (if INBOX in message.labels && message.date >= since then [box.next] else []) + Listed(box, since)
  {
    ListingFrame(Deliver(box, message).messages, box.messages, since, box.next);
  }

  /** After any deliveries the new listing ends in the old one. */
  lemma {:induction false} DeliveriesListed(box: Mailbox, messages: seq<Message>, since: nat)
    ensures var old', new' := Listed(box, since), Listed(DeliverAll(box, messages), since);
            |old'| <= |new'| && new'[|new'| - |old'|..] == old'
  {
    if messages != [] {
      var n := |messages| - 1;
      DeliveriesListed(box, messages[..n], since);
      DeliveryListed(DeliverAll(box, messages[..n]), messages[n], since);
    }
  }

  /** A delivery removes nothing from the listing. */
  lemma {:induction false} DeliveriesKeep(box: Mailbox, messages: seq<Message>, since: nat, x: MsgId)
    ensures Newer(box, since, x) <= Newer(DeliverAll(box, messages), since, x)
    ensures x in Listed(box, since) ==> x in Listed(DeliverAll(box, messages), since)
  {
    if messages != [] {
      var n := |messages| - 1;
      var before := DeliverAll(box, messages[..n]);
      DeliveriesKeep(box, messages[..n], since, x);
      DeliveryListed(before, messages[n], since);
      assert forall y: MsgId | y < before.next && Shows(before.messages, since, y) ::
          Shows(Deliver(before, messages[n]).messages, since, y);
    }
  }

  /** Between any two pages nothing but deliveries happens, any number of them. */
  ghost predicate OnlyDeliveries(boxes: seq<Mailbox>, mail: seq<seq<Message>>) {
    |mail| + 1 == |boxes| && forall j | 0 <= j < |mail| :: boxes[j + 1] == DeliverAll(boxes[j], mail[j])
  }

  lemma {:induction false} ListedThroughout(boxes: seq<Mailbox>, mail: seq<seq<Message>>, since: nat, x: MsgId, j: nat)
    requires OnlyDeliveries(boxes, mail) && j < |boxes| && x in Listed(boxes[0], since)
    ensures x in Listed(boxes[j], since)
  {
    if j > 0 {
      ListedThroughout(boxes, mail, since, x, j - 1);
      assert boxes[j - 1 + 1] == DeliverAll(boxes[j - 1], mail[j - 1]);
      DeliveriesKeep(boxes[j - 1], mail[j - 1], since, x);
    }
  }

  /** Mail delivered while the pages are read costs repetitions, never omissions: every message listed at the first
      page is on one of the pages. */
  lemma ListingOmitsNothing(boxes: seq<Mailbox>, mail: seq<seq<Message>>, since: nat, max: nat, x: MsgId)
    requires OnlyDeliveries(boxes, mail) && ReadToTheEnd(boxes, since, max) && x in Listed(boxes[0], since)
    ensures exists j: nat | j < |boxes| :: x in PageOf(boxes[j], since, max, j)
  {
    forall j | 0 <= j < |boxes| ensures x in Listed(boxes[j], since) { ListedThroughout(boxes, mail, since, x, j); }
    if Omitted(boxes, since, max, x) {
      OmissionIsASkip(boxes, since, max, x);
      var k: nat :| SkippedAt(boxes, since, max, k, x);
      NoSkipByDelivery(boxes[k], mail[k], boxes[k + 1], since, max, k, x);
    }
  }

  lemma NoSkipByDelivery(a: Mailbox, messages: seq<Message>, b: Mailbox, since: nat, max: nat, j: nat, x: MsgId)
    requires b == DeliverAll(a, messages)
    ensures !Skips(a, b, since, max, j, x)
  {
    DeliveriesKeep(a, messages, since, x);
    PlaceMoves(a, b, since, x);
    assert Departed(a, b, since, x) == {};
    PageEnds(j, max);
  }

  // ----- A departure does omit

  /** The message is gone from the inbox: deleted, or its label taken away. */
  ghost predicate TakenOut(a: Mailbox, b: Mailbox, y: MsgId) {
    || b == Remove(a, y)
    || exists labels: set<Label> :: INBOX !in labels && b == SetLabels(a, y, labels)
  }

  lemma TakenOutListed(a: Mailbox, b: Mailbox, since: nat, y: MsgId, x: MsgId)
    requires TakenOut(a, b, y) && y in Listed(a, since)
    ensures b.next == a.next && (Shows(b.messages, since, x) <==> x != y && Shows(a.messages, since, x))
  {
    ListingMembers(a.messages, since, a.next, y);
  }

  /** For every mailbox, page size and moment: taking any message of the first page out of the inbox before the second
      page is read omits the message that was to open it, though it stays in the inbox. */
  lemma DeletionOmits(a: Mailbox, b: Mailbox, since: nat, max: nat, y: MsgId)
    requires |Listed(a, since)| > max && y in PageOf(a, since, max, 0) && TakenOut(a, b, y)
    ensures var x := Listed(a, since)[max];
            x in Listed(a, since) && x in Listed(b, since)
            && x !in PageOf(a, since, max, 0) && x !in PageOf(b, since, max, 1)
  {
    var list := Listed(a, since);
    var x := list[max];
    SliceMembers(list, 0, max, y);
    ListingDistinct(a.messages, since, a.next);
    ListingMembers(a.messages, since, a.next, x);
    TakenOutListed(a, b, since, y, x);
    ListingMembers(b.messages, since, b.next, x);
    OnPageByPlace(a, since, max, 0, x);
    OnPageByPlace(a, since, max, 0, y);
    assert Place(a, since, x) == max;
    OlderIsBehind(a, since, y, x);
    OneDeparture(a, b, since, y, x);
    SkippedExactlyWhen(a, b, since, max, 0, x);
  }

  lemma OneDeparture(a: Mailbox, b: Mailbox, since: nat, y: MsgId, x: MsgId)
    requires TakenOut(a, b, y) && y in Listed(a, since) && y in Newer(a, since, x)
    ensures Departed(a, b, since, x) == {y} && Arrived(a, b, since, x) == {}
  {
    forall z: MsgId ensures z in Newer(b, since, x) <==> z in Newer(a, since, x) - {y} {
      TakenOutListed(a, b, since, y, z);
    }
  }

  /** Of two listed messages the one at the earlier place is the newer. */
  lemma OlderIsBehind(box: Mailbox, since: nat, y: MsgId, x: MsgId)
    requires x in Listed(box, since) && y in Listed(box, since) && Place(box, since, y) < Place(box, since, x)
    ensures y in Newer(box, since, x)
  {
    ListingMembers(box.messages, since, box.next, x);
    ListingMembers(box.messages, since, box.next, y);
    if y <= x {
      assert Newer(box, since, x) <= Newer(box, since, y);
      SubsetSize(Newer(box, since, x), Newer(box, since, y));
    }
  }

  lemma SubsetSize(s: set<MsgId>, t: set<MsgId>)
    requires s <= t
    ensures |s| <= |t|
  {
    assert t == s + (t - s);
  }

  /** Two deliveries, one message to a page, the newer one deleted in between: the older one is on neither page. */
  lemma OmissionHappens()
    ensures var mail := Message({INBOX}, 5, true, 0);
            var a := Deliver(Deliver(Mailbox(1000, 0, 0, map[], []), mail), mail);
            var b := Remove(a, 1);
            && Listed(a, 0) == [1, 0] && Listed(b, 0) == [0]
            && PageOf(a, 0, 1, 0) == [1] && PageOf(b, 0, 1, 1) == [] && ReadToTheEnd([a, b], 0, 1)
  {
    var mail := Message({INBOX}, 5, true, 0);
    var a := Deliver(Deliver(Mailbox(1000, 0, 0, map[], []), mail), mail);
    var b := Remove(a, 1);
    assert Listing(a.messages, 0, 0) == [] && Listing(a.messages, 0, 1) == [0] && Listing(a.messages, 0, 2) == [1, 0];
    assert Listing(b.messages, 0, 0) == [] && Listing(b.messages, 0, 1) == [0] && Listing(b.messages, 0, 2) == [0];
  }
}
