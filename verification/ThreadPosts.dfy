/** What a folded post is, said of the events by their places. */
module ThreadPosts {
  import opened Wrappers
  import opened CodeUnits
  import opened Thread

  /** Event `c` is the first that records the post's creation. */
  ghost predicate CreatedAt(events: seq<PostEvent>, id: Id, c: nat) {
    && c < |events| && events[c].kind == Creation && events[c].post.id == id
    && forall k | 0 <= k < c && events[k].post.id == id :: events[k].kind != Creation
  }

  ghost predicate NeverCreated(events: seq<PostEvent>, id: Id) {
    forall k | 0 <= k < |events| && events[k].post.id == id :: events[k].kind != Creation
  }

  /** The post is deleted since. */
  ghost predicate DeletedSince(events: seq<PostEvent>, id: Id, c: nat) {
    exists k | c < k < |events| :: events[k].post.id == id && events[k].kind == Deletion
  }

  /** Someone other than a human on their own account edited it since. */
  ghost predicate DistrustedSince(events: seq<PostEvent>, id: Id, c: nat) {
    exists k | c < k < |events| :: events[k].post.id == id && events[k].kind == Edit && events[k].trust != HumanTrusted
  }

  /** Event `m` wrote the text: the last edit since the creation, or the creation itself. */
  ghost predicate WrittenBy(events: seq<PostEvent>, id: Id, c: nat, m: nat) {
    && c <= m < |events| && (m == c || (events[m].kind == Edit && events[m].post.id == id))
    && forall k | m < k < |events| && events[k].post.id == id :: events[k].kind != Edit
  }

  /** The post as its events leave it: author, time, addressees and order from its creation; its text from the last edit
      since; its trust that of the creation unless someone else edited it; deleted exactly when a deletion followed. */
  ghost predicate Describes(events: seq<PostEvent>, p: PostState, c: nat) {
    && CreatedAt(events, p.id, c)
    && p.user == events[c].post.user && p.sender == events[c].post.sender && p.targets == events[c].post.targets
    && p.createdAt == events[c].time && p.order == c
    && (p.deleted <==> DeletedSince(events, p.id, c))
    && p.trust == (if DistrustedSince(events, p.id, c) then InternalUntrusted else events[c].trust)
    && exists m: nat :: WrittenBy(events, p.id, c, m) && p.message == events[m].post.message
  }

  lemma SinceNext(before: seq<PostEvent>, e: PostEvent, id: Id, c: nat)
    requires c < |before|
    ensures DeletedSince(before + [e], id, c) <==>
              DeletedSince(before, id, c) || (e.post.id == id && e.kind == Deletion)
    ensures DistrustedSince(before + [e], id, c) <==>
              DistrustedSince(before, id, c) || (e.post.id == id && e.kind == Edit && e.trust != HumanTrusted)
  {
    var events, n := before + [e], |before|;
    assert events[n] == e && forall k | 0 <= k < n :: events[k] == before[k];
    if DeletedSince(before, id, c) {
      var k :| c < k < n && before[k].post.id == id && before[k].kind == Deletion;
      assert events[k].post.id == id;
    }
    if DistrustedSince(before, id, c) {
      var k :| c < k < n && before[k].post.id == id && before[k].kind == Edit && before[k].trust != HumanTrusted;
      assert events[k].post.id == id;
    }
  }

  lemma WrittenNext(before: seq<PostEvent>, e: PostEvent, id: Id, c: nat, m: nat)
    requires c < |before| && WrittenBy(before, id, c, m)
    ensures WrittenBy(before + [e], id, c, if e.post.id == id && e.kind == Edit then |before| else m)
  {
  }

  /** One more event about some post. */
  lemma DescribesNext(before: seq<PostEvent>, e: PostEvent, p: PostState, c: nat)
    requires Describes(before, p, c)
    ensures Describes(before + [e], if e.post.id == p.id && !e.kind.Creation? then Changed(p, e) else p, c)
  {
    SinceNext(before, e, p.id, c);
    var m: nat :| WrittenBy(before, p.id, c, m) && p.message == before[m].post.message;
    WrittenNext(before, e, p.id, c, m);
  }

  lemma DescribesNew(before: seq<PostEvent>, e: PostEvent)
    requires e.kind == Creation && NeverCreated(before, e.post.id)
    ensures Describes(before + [e], StateOf(e, |before|), |before|)
  {
    assert WrittenBy(before + [e], e.post.id, |before|, |before|);
  }

  /** What the fold has of a post. */
  ghost predicate Told(events: seq<PostEvent>, id: Id, p: Option<PostState>) {
    if p.None? then NeverCreated(events, id) else p.value.id == id && exists c: nat :: Describes(events, p.value, c)
  }

  lemma ToldNext(before: seq<PostEvent>, e: PostEvent, id: Id, known: Option<PostState>)
    requires Told(before, id, known)
    ensures Told(before + [e], id, if e.post.id == id then Step(known, e, |before|) else known)
  {
    if known.Some? {
      var c: nat :| Describes(before, known.value, c);
      DescribesNext(before, e, known.value, c);
    } else if e.post.id == id && e.kind.Creation? {
      DescribesNew(before, e);
    }
  }

  lemma {:induction false} FoldTells(events: seq<PostEvent>, id: Id)
    ensures Told(events, id, Lookup(Fold(events), id))
  {
    if events != [] {
      var n := |events| - 1;
      FoldTells(events[..n], id);
      FoldDistinct(events[..n]);
      LookupApply(Fold(events[..n]), events[n], n, id);
      ToldNext(events[..n], events[n], id, Lookup(Fold(events[..n]), id));
      assert events == events[..n] + [events[n]];
    }
  }

  lemma DescribesOne(events: seq<PostEvent>, p: PostState, q: PostState, c: nat, d: nat)
    requires Describes(events, p, c) && Describes(events, q, d) && p.id == q.id
    ensures p == q
  {
    assert c == d;
    var m: nat :| WrittenBy(events, p.id, c, m) && p.message == events[m].post.message;
    var k: nat :| WrittenBy(events, q.id, c, k) && q.message == events[k].post.message;
    assert m == k;
  }

  /** The folded posts are exactly those the events describe. */
  lemma FoldMeaning(events: seq<PostEvent>, p: PostState)
    ensures p in Fold(events) <==> exists c: nat :: Describes(events, p, c)
  {
    var found := Lookup(Fold(events), p.id);
    FoldTells(events, p.id);
    if p in Fold(events) {
      FoldDistinct(events);
      var i :| 0 <= i < |Fold(events)| && Fold(events)[i] == p;
      assert IndexOf(Fold(events), p.id) == i;
    }
    if c: nat :| Describes(events, p, c) {
      var d: nat :| Describes(events, found.value, d);
      DescribesOne(events, p, found.value, c, d);
    }
  }

  /** The events of a thread: of its channel, and its root or a reply to it. */
  lemma ThreadEvents(events: seq<PostEvent>, q: Request, e: PostEvent)
    ensures e in Mine(events, q) <==>
              && e in events && e.post.channel == q.channel
              && (e.post.root == Some(q.root) || (e.post.root == None && e.post.id == q.root))
  {
    KeepMembers(events, (e: PostEvent) => OfThread(e, q), e);
  }
}
