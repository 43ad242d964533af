/** A thread folded from its stored events: edits applied, deletions marked, the newest posts within a budget. */
module Thread {
  import opened Wrappers
  import opened CodeUnits
  import opened Sorting
  import opened TextBudget

  type Id = Text

  /** `Creation` stands for the four event types that record a post. */
  datatype Kind = Creation | Edit | Deletion | Unrelated

  datatype Trust = SystemTrusted | HumanTrusted | InternalUntrusted | ExternalUntrusted

  datatype Post = Post(id: Id, root: Option<Id>, channel: Id, user: Id, sender: Option<Id>, targets: seq<Id>,
      message: Text)

  datatype PostEvent = PostEvent(kind: Kind, time: int, trust: Trust, post: Post)

  datatype PostState = PostState(id: Id, user: Id, sender: Option<Id>, createdAt: int, message: Text, trust: Trust,
                                 targets: seq<Id>, deleted: bool, order: nat)

  // ----- Current posts

  /** The posts in order of their creation; each id at most once. */
  function IndexOf(posts: seq<PostState>, id: Id): (i: int)
    ensures -1 <= i < |posts| && (i >= 0 ==> posts[i].id == id)
    ensures i == -1 ==> forall j | 0 <= j < |posts| :: posts[j].id != id
  {
    if posts == [] then -1
    else if posts[|posts| - 1].id == id then |posts| - 1 else IndexOf(posts[..|posts| - 1], id)
  }

  function StateOf(e: PostEvent, order: nat): PostState {
    PostState(e.post.id, e.post.user, e.post.sender, e.time, e.post.message, e.trust, e.post.targets, false, order)
  }

  /** A later event about a known post. Text edited by anyone but a human is no longer theirs to vouch for. */
  function Changed(p: PostState, e: PostEvent): PostState {
    match e.kind
    case Deletion => p.(deleted := true)
    case Edit => p.(message := e.post.message, trust := if e.trust.HumanTrusted? then p.trust else InternalUntrusted)
    case _ => p
  }

  function Apply(posts: seq<PostState>, e: PostEvent, order: nat): seq<PostState> {
    var i := IndexOf(posts, e.post.id);
    if e.kind.Creation? then if i < 0 then posts + [StateOf(e, order)] else posts
    else if i < 0 then posts else posts[i := Changed(posts[i], e)]
  }

  function Fold(events: seq<PostEvent>): seq<PostState> {
    if events == [] then [] else Apply(Fold(events[..|events| - 1]), events[|events| - 1], |events| - 1)
  }

  method CurrentPosts(events: seq<PostEvent>) returns (posts: seq<PostState>)
    ensures posts == Fold(events)
  {
    posts := [];
    for k := 0 to |events|
      invariant posts == Fold(events[..k])
    {
      assert events[..k + 1][..k] == events[..k];
      var e := events[k];
      var known := IndexOf(posts, e.post.id);
      if e.kind.Creation? {
        if known < 0 { posts := posts + [StateOf(e, k)]; }
        continue;
      }
      if known < 0 { continue; }
      if e.kind.Deletion? {
        posts := posts[known := posts[known].(deleted := true)];
      } else if e.kind.Edit? {
        var p := posts[known].(message := e.post.message);
        if !e.trust.HumanTrusted? { p := p.(trust := InternalUntrusted); }
        posts := posts[known := p];
      }
    }
    assert events[..|events|] == events;
  }

  // ----- Overlays

  datatype Overlay = Overlay(message: Text, deleted: bool, untrusted: bool)

  function Overlaid(known: Option<Overlay>, e: PostEvent): Option<Overlay> {
    var untrusted := known.Some? && known.value.untrusted;
    if e.kind.Deletion? then Some(Overlay([], true, untrusted))
    else if e.kind.Edit? && !(known.Some? && known.value.deleted) then
      Some(Overlay(e.post.message, false, untrusted || !e.trust.HumanTrusted?))
    else known
  }

  /** What the changes of one post leave, without looking at its creation. */
  function OverlayOf(events: seq<PostEvent>, id: Id): Option<Overlay> {
    if events == [] then None else
      var before := OverlayOf(events[..|events| - 1], id);
      var e := events[|events| - 1];
      if e.post.id == id then Overlaid(before, e) else before
  }

  method PostOverlays(events: seq<PostEvent>, ids: set<Id>) returns (overlays: map<Id, Overlay>)
    ensures forall id :: id in overlays <==> id in ids && OverlayOf(events, id).Some?
    ensures forall id <- overlays :: Some(overlays[id]) == OverlayOf(events, id)
  {
    overlays := map[];
    for k := 0 to |events|
      invariant forall id :: id in overlays <==> id in ids && OverlayOf(events[..k], id).Some?
      invariant forall id <- overlays :: Some(overlays[id]) == OverlayOf(events[..k], id)
    {
      assert events[..k + 1][..k] == events[..k];
      var e := events[k];
      var id := e.post.id;
      if id !in ids { continue; }
      var known := if id in overlays then Some(overlays[id]) else None;
      if e.kind.Deletion? {
        overlays := overlays[id := Overlay([], true, known.Some? && known.value.untrusted)];
      } else if e.kind.Edit? && !(known.Some? && known.value.deleted) {
        overlays := overlays[id :=
            Overlay(e.post.message, false, (known.Some? && known.value.untrusted) || !e.trust.HumanTrusted?)];
      }
    }
    assert events[..|events|] == events;
  }

  // ----- The overlay agrees with the fold

  ghost predicate Distinct(posts: seq<PostState>) {
    forall i, j | 0 <= i < j < |posts| :: posts[i].id != posts[j].id
  }

  lemma {:induction false} FoldDistinct(events: seq<PostEvent>)
    ensures Distinct(Fold(events))
  {
    if events != [] {
      FoldDistinct(events[..|events| - 1]);
      ApplyDistinct(Fold(events[..|events| - 1]), events[|events| - 1], |events| - 1);
    }
  }

  lemma ApplyDistinct(posts: seq<PostState>, e: PostEvent, order: nat)
    requires Distinct(posts)
    ensures Distinct(Apply(posts, e, order))
  {
  }

  function Lookup(posts: seq<PostState>, id: Id): Option<PostState> {
    if IndexOf(posts, id) < 0 then None else Some(posts[IndexOf(posts, id)])
  }

  /** What one event does to one post. */
  function Step(known: Option<PostState>, e: PostEvent, order: nat): Option<PostState> {
    if known.None? then (if e.kind.Creation? then Some(StateOf(e, order)) else None)
    else if e.kind.Creation? then known else Some(Changed(known.value, e))
  }

  lemma {:induction false} SameIndex(posts: seq<PostState>, others: seq<PostState>, id: Id)
    requires |posts| == |others| && forall k | 0 <= k < |posts| :: posts[k].id == others[k].id
    ensures IndexOf(posts, id) == IndexOf(others, id)
  {
    if posts != [] { SameIndex(posts[..|posts| - 1], others[..|posts| - 1], id); }
  }

  lemma LookupUpdated(posts: seq<PostState>, i: nat, p: PostState, id: Id)
    requires Distinct(posts) && i < |posts| && p.id == posts[i].id
    ensures Lookup(posts[i := p], id) == if id == p.id then Some(p) else Lookup(posts, id)
  {
    SameIndex(posts, posts[i := p], id);
  }

  lemma LookupAdded(posts: seq<PostState>, p: PostState, id: Id)
    requires IndexOf(posts, p.id) < 0
    ensures Lookup(posts + [p], id) == if id == p.id then Some(p) else Lookup(posts, id)
  {
    assert (posts + [p])[..|posts|] == posts;
  }

  lemma LookupApply(posts: seq<PostState>, e: PostEvent, order: nat, id: Id)
    requires Distinct(posts)
    ensures Lookup(Apply(posts, e, order), id) ==
            if e.post.id == id then Step(Lookup(posts, id), e, order) else Lookup(posts, id)
  {
    var k := IndexOf(posts, e.post.id);
    if k >= 0 {
      LookupUpdated(posts, k, Changed(posts[k], e), id);
    } else if e.kind.Creation? {
      LookupAdded(posts, StateOf(e, order), id);
    }
  }

  /** The first record of a post's creation. */
  function CreationOf(events: seq<PostEvent>, id: Id): Option<PostEvent> {
    if events == [] then None else
      var before := CreationOf(events[..|events| - 1], id);
      var e := events[|events| - 1];
      if before.None? && e.post.id == id && e.kind.Creation? then Some(e) else before
  }

  /** No change of the post is recorded before its creation. */
  ghost predicate CreatedFirst(events: seq<PostEvent>, id: Id) {
    forall k | 0 <= k < |events| && events[k].post.id == id && (events[k].kind.Edit? || events[k].kind.Deletion?) ::
      CreationOf(events[..k], id).Some?
  }

  /** The fold seen through the overlay: deletion always, text and trust while the post lives. */
  ghost predicate Agree(creation: Option<PostEvent>, state: Option<PostState>, overlay: Option<Overlay>) {
    && (creation.Some? <==> state.Some?)
    && (creation.None? ==> overlay.None?)
    && (creation.Some? ==>
          && (state.value.deleted <==> overlay.Some? && overlay.value.deleted)
          && (!state.value.deleted ==>
                && state.value.message == (if overlay.Some? then overlay.value.message else creation.value.post.message)
                && state.value.trust ==
                     (if overlay.Some? && overlay.value.untrusted then InternalUntrusted else creation.value.trust)))
  }

  /** The overlay of the changes recorded before the creation, or of all of them without one. */
  function EarlyOverlay(events: seq<PostEvent>, id: Id): Option<Overlay> {
    if events == [] then None else
      var before, e := events[..|events| - 1], events[|events| - 1];
      if CreationOf(before, id).Some? || e.post.id != id then EarlyOverlay(before, id)
          else Overlaid(EarlyOverlay(before, id), e)
  }

  /** What happened to the post since its creation. */
  datatype Since = Since(deleted: bool, edited: bool, distrusted: bool)

  function SinceCreation(events: seq<PostEvent>, id: Id): Since {
    if events == [] then Since(false, false, false) else
      var before, e := events[..|events| - 1], events[|events| - 1];
      var s := SinceCreation(before, id);
      if CreationOf(before, id).None? || e.post.id != id then s else
        Since(s.deleted || e.kind.Deletion?, s.edited || e.kind.Edit?, s.distrusted
            || (e.kind.Edit? && !e.trust.HumanTrusted?))
  }

  /** The early changes leave no trace: the post was deleted since, or it was not deleted early, its text was
      replaced since or is the same, and any distrust is shared. */
  predicate Overtaken(creation: PostEvent, early: Overlay, since: Since) {
    since.deleted ||
    (!early.deleted && (since.edited || early.message == creation.post.message)
     && (early.untrusted ==> since.distrusted || creation.trust.InternalUntrusted?))
  }

  /** Fold and overlay by creation, early changes and what happened since. */
  ghost predicate Tracks(creation: Option<PostEvent>, early: Option<Overlay>, since: Since, state: Option<PostState>,
      overlay: Option<Overlay>) {
    && (creation.Some? <==> state.Some?)
    && (creation.None? ==> overlay == early && since == Since(false, false, false))
    && (since.distrusted ==> since.edited)
    && (creation.Some? ==>
          && state.value.deleted == since.deleted
          && state.value.trust == (if since.distrusted then InternalUntrusted else creation.value.trust)
          && (!since.edited ==> state.value.message == creation.value.post.message)
          && (since.deleted ==> overlay.Some? && overlay.value.deleted)
          && (!since.deleted ==> OverlayTracks(early, since, state.value, overlay)))
  }

  ghost predicate OverlayTracks(early: Option<Overlay>, since: Since, state: PostState, overlay: Option<Overlay>) {
    && (overlay.None? <==> early.None? && !since.edited)
    && (overlay.Some? ==>
          && overlay.value.deleted == (early.Some? && early.value.deleted)
          && (!overlay.value.deleted ==>
                && overlay.value.message
                     == (if since.edited then state.message else if early.Some? then early.value.message else [])
                && overlay.value.untrusted == ((early.Some? && early.value.untrusted) || since.distrusted)))
  }

  lemma {:induction false} TracksRun(events: seq<PostEvent>, id: Id)
    ensures Tracks(CreationOf(events, id), EarlyOverlay(events, id), SinceCreation(events, id),
              Lookup(Fold(events), id), OverlayOf(events, id))
  {
    if events != [] {
      var n := |events| - 1;
      var before, e := events[..n], events[n];
      TracksRun(before, id);
      FoldDistinct(before);
      LookupApply(Fold(before), e, n, id);
      assert Fold(events) == Apply(Fold(before), e, n);
    }
  }

  /** Without an overlay of its own before the creation means that no change was recorded before it. */
  lemma {:induction false} EarlyIffChanged(events: seq<PostEvent>, id: Id)
    ensures EarlyOverlay(events, id).None? <==> CreatedFirst(events, id)
  {
    if events != [] {
      var n := |events| - 1;
      EarlyIffChanged(events[..n], id);
      assert forall k | 0 <= k < n :: events[..n][..k] == events[..k] && events[..n][k] == events[k];
      if CreatedFirst(events, id) {
        assert CreatedFirst(events[..n], id);
      } else if CreatedFirst(events[..n], id) {
        assert events[n].post.id == id && CreationOf(events[..n], id).None?;
      }
    }
  }

  /** Fold and overlay agree on a post exactly when its changes were all recorded after its creation, or the earlier
      ones left no trace. */
  lemma AgreeExactlyWhen(events: seq<PostEvent>, id: Id)
    ensures Agree(CreationOf(events, id), Lookup(Fold(events), id), OverlayOf(events, id)) <==>
              || CreatedFirst(events, id)
              || (CreationOf(events, id).Some? && EarlyOverlay(events, id).Some?
                  && Overtaken(CreationOf(events, id).value, EarlyOverlay(events, id).value, SinceCreation(events, id)))
  {
    TracksRun(events, id);
    EarlyIffChanged(events, id);
  }

  /** In particular for every post created before its changes. */
  lemma OverlayAgrees(events: seq<PostEvent>, id: Id)
    requires CreatedFirst(events, id)
    ensures Agree(CreationOf(events, id), Lookup(Fold(events), id), OverlayOf(events, id))
  {
    AgreeExactlyWhen(events, id);
  }

  /** The order matters: an edit recorded before the creation reaches the overlay and not the fold. */
  lemma EditBeforeCreationDisagrees()
    ensures var post := Post([1], None, [2], [3], None, [], [4]);
            var events := [PostEvent(Edit, 0, HumanTrusted, post.(message := [5])),
                PostEvent(Creation, 1, HumanTrusted, post)];
            !CreatedFirst(events, [1])
                && !Agree(CreationOf(events, [1]), Lookup(Fold(events), [1]), OverlayOf(events, [1]))
  {
    var post := Post([1], None, [2], [3], None, [], [4]);
    var events := [PostEvent(Edit, 0, HumanTrusted, post.(message := [5])), PostEvent(Creation, 1, HumanTrusted, post)];
    assert events[..1] == [events[0]] && events[..1][..0] == [] && events[..0] == [];
    assert CreationOf(events[..0], [1]).None?;
    assert Fold(events[..1]) == [] && CreationOf(events[..1], [1]).None?;
    assert OverlayOf(events[..1], [1]) == Some(Overlay([5], false, false));
    assert Fold(events) == [StateOf(events[1], 1)];
  }

  /** Every edit of the post since its creation was a human's own. */
  ghost predicate EditsTrusted(events: seq<PostEvent>, id: Id) {
    forall k | 0 <= k < |events| && events[k].post.id == id && events[k].kind.Edit?
        && CreationOf(events[..k], id).Some? ::
      events[k].trust.HumanTrusted?
  }

  lemma TrustStep(known: Option<PostState>, e: PostEvent, order: nat)
    requires Step(known, e, order).Some? && Step(known, e, order).value.trust.HumanTrusted?
    ensures known.None? ==> e.kind.Creation? && e.trust.HumanTrusted?
    ensures known.Some? ==> known.value.trust.HumanTrusted? && (e.kind.Edit? ==> e.trust.HumanTrusted?)
  {
  }

  lemma EditsExtend(events: seq<PostEvent>, id: Id, n: nat)
    requires n + 1 == |events| && EditsTrusted(events[..n], id)
    requires events[n].post.id == id && events[n].kind.Edit? && CreationOf(events[..n], id).Some? ==>
               events[n].trust.HumanTrusted?
    ensures EditsTrusted(events, id)
  {
    assert forall k | 0 <= k < n :: events[..n][..k] == events[..k] && events[..n][k] == events[k];
  }

  lemma NoEditsBefore(events: seq<PostEvent>, id: Id)
    requires CreationOf(events, id).None?
    ensures EditsTrusted(events, id)
  {
    NoCreationBefore(events, id);
  }

  /** A post folded as human-trusted was created so, and every edit since was a human's own. */
  lemma {:induction false} HumanTrustIsEarned(events: seq<PostEvent>, id: Id)
    requires Lookup(Fold(events), id).Some? && Lookup(Fold(events), id).value.trust.HumanTrusted?
    ensures CreationOf(events, id).Some? && CreationOf(events, id).value.trust.HumanTrusted?
    ensures EditsTrusted(events, id)
  {
    var n := |events| - 1;
    var before, e := events[..n], events[n];
    FoldDistinct(before);
    LookupApply(Fold(before), e, n, id);
    KnownIffCreated(before, id);
    var known := Lookup(Fold(before), id);
    if e.post.id == id { TrustStep(known, e, n); }
    if known.Some? {
      HumanTrustIsEarned(before, id);
    } else {
      NoEditsBefore(before, id);
    }
    EditsExtend(events, id, n);
  }

  lemma {:induction false} KnownIffCreated(events: seq<PostEvent>, id: Id)
    ensures Lookup(Fold(events), id).Some? <==> CreationOf(events, id).Some?
  {
    if events != [] {
      KnownIffCreated(events[..|events| - 1], id);
      FoldDistinct(events[..|events| - 1]);
      LookupApply(Fold(events[..|events| - 1]), events[|events| - 1], |events| - 1, id);
    }
  }

  lemma {:induction false} NoCreationBefore(events: seq<PostEvent>, id: Id)
    requires CreationOf(events, id).None?
    ensures forall k | 0 <= k <= |events| :: CreationOf(events[..k], id).None?
  {
    if events != [] {
      var n := |events| - 1;
      NoCreationBefore(events[..n], id);
      assert forall k | 0 <= k <= n :: events[..n][..k] == events[..k];
    }
    assert events[..|events|] == events;
  }

  // ----- The thread a turn sees

  datatype Budget = Budget(maxPosts: nat, maxChars: nat, maxPostChars: nat)

  datatype ThreadPost = ThreadPost(id: Id, user: Id, sender: Option<Id>, createdAt: int, message: Text, trust: Trust)

  function Shown(p: PostState, maxChars: nat): ThreadPost {
    ThreadPost(p.id, p.user, p.sender, p.createdAt, if p.deleted then [] else Truncate(p.message, maxChars), p.trust)
  }

  function ShownAll(ps: seq<PostState>, maxChars: nat): seq<ThreadPost> {
    seq(|ps|, i requires 0 <= i < |ps| => Shown(ps[i], maxChars))
  }

  /** Characters of the last `k` messages together. */
  function Chars(ps: seq<ThreadPost>, k: nat): nat
    requires k <= |ps|
  {
    if k == 0 then 0 else |ps[|ps| - k].message| + Chars(ps, k - 1)
  }

  function Suffix<T>(s: seq<T>, k: nat): seq<T>
    requires k <= |s|
  {
    s[|s| - k..]
  }

  /** The last `k` posts fit both budgets. */
  predicate WithinBudget(ps: seq<ThreadPost>, k: nat, b: Budget)
    requires k <= |ps|
  {
    k <= b.maxPosts && Chars(ps, k) <= b.maxChars
  }

  lemma {:induction false} CharsGrow(ps: seq<ThreadPost>, j: nat, k: nat)
    requires j <= k <= |ps|
    ensures Chars(ps, j) <= Chars(ps, k)
    decreases k
  {
    if j < k { CharsGrow(ps, j, k - 1); }
  }

  /** A suffix that cannot be made one longer is the longest. */
  lemma LongestSuffix(ps: seq<ThreadPost>, b: Budget, n: nat)
    requires n <= |ps| && (n == |ps| || n == b.maxPosts || Chars(ps, n + 1) > b.maxChars)
    ensures forall k | 0 <= k <= |ps| && WithinBudget(ps, k, b) :: k <= n
  {
    forall k | n < k <= |ps| ensures !WithinBudget(ps, k, b) { CharsGrow(ps, n + 1, k); }
  }

  /** The posts as the backward loop collects them. */
  method NewestFirst(posts: seq<ThreadPost>, b: Budget) returns (reversed: seq<ThreadPost>)
    ensures |reversed| <= |posts| && WithinBudget(posts, |reversed|, b)
    ensures forall j | 0 <= j < |reversed| :: reversed[j] == posts[|posts| - 1 - j]
    ensures |reversed| == |posts| || |reversed| == b.maxPosts || Chars(posts, |reversed| + 1) > b.maxChars
  {
    var chars := 0;
    reversed := [];
    var i := |posts| - 1;
    while i >= 0 && |reversed| < b.maxPosts
      invariant -1 <= i < |posts| && |reversed| == |posts| - 1 - i && |reversed| <= b.maxPosts
      invariant chars == Chars(posts, |reversed|) && chars <= b.maxChars
      invariant forall j | 0 <= j < |reversed| :: reversed[j] == posts[|posts| - 1 - j]
      decreases i
    {
      if chars + |posts[i].message| > b.maxChars {
        break;
      }
      chars := chars + |posts[i].message|;
      reversed := reversed + [posts[i]];
      i := i - 1;
    }
  }

  /** The longest suffix of the posts that fits both budgets. */
  method RecentPosts(posts: seq<ThreadPost>, b: Budget) returns (recent: seq<ThreadPost>)
    ensures |recent| <= |posts| && recent == Suffix(posts, |recent|) && WithinBudget(posts, |recent|, b)
    ensures forall k | 0 <= k <= |posts| && WithinBudget(posts, k, b) :: k <= |recent|
  {
    var reversed := NewestFirst(posts, b);
    LongestSuffix(posts, b, |reversed|);
    recent := seq(|reversed|, j requires 0 <= j < |reversed| => reversed[|reversed| - 1 - j]);
  }

  datatype Request = Request(channel: Id, root: Id, exclude: set<Id>, budget: Budget)

  datatype Context = Context(root: Option<ThreadPost>, recent: seq<ThreadPost>, omitted: nat, participants: set<Id>,
      humans: set<Id>)

  predicate Earlier(a: PostState, b: PostState) {
    a.createdAt < b.createdAt || (a.createdAt == b.createdAt && a.order < b.order)
  }

  predicate OfThread(e: PostEvent, q: Request) {
    e.post.channel == q.channel && (if e.post.root.Some? then e.post.root.value else e.post.id) == q.root
  }

  function Keep<T>(s: seq<T>, p: T -> bool): seq<T> {
    if s == [] then [] else Keep(s[..|s| - 1], p) + if p(s[|s| - 1]) then [s[|s| - 1]] else []
  }

  lemma {:induction false} KeepMembers<T>(s: seq<T>, p: T -> bool, x: T)
    ensures x in Keep(s, p) <==> x in s && p(x)
  {
    if s != [] {
      KeepMembers(s[..|s| - 1], p, x);
      assert s == s[..|s| - 1] + [s[|s| - 1]];
    }
  }

  /** The events of the thread. */
  function Mine(events: seq<PostEvent>, q: Request): seq<PostEvent> {
    Keep(events, (e: PostEvent) => OfThread(e, q))
  }

  function Undeleted(posts: seq<PostState>): seq<PostState> {
    Keep(posts, (p: PostState) => !p.deleted)
  }

  function Eligible(live: seq<PostState>, q: Request): seq<PostState> {
    Keep(live, (p: PostState) => p.id != q.root && p.id !in q.exclude)
  }

  /** The posts of the thread that are not deleted, oldest first. */
  function Live(events: seq<PostEvent>, q: Request): seq<PostState> {
    Sort(Undeleted(Fold(Mine(events, q))), Earlier)
  }

  /** Those a turn may show: neither the root nor carried elsewhere. */
  function Candidates(events: seq<PostEvent>, q: Request): seq<PostState> {
    Eligible(Live(events, q), q)
  }

  lemma CandidatesAreLive(events: seq<PostEvent>, q: Request, p: PostState)
    ensures p in Candidates(events, q) <==>
              p in Fold(Mine(events, q)) && !p.deleted && p.id != q.root
                  && p.id !in q.exclude
  {
    var posts := Fold(Mine(events, q));
    KeepMembers(Live(events, q), (p: PostState) => p.id != q.root && p.id !in q.exclude, p);
    SortMembers(Undeleted(posts), Earlier, p);
    KeepMembers(posts, (p: PostState) => !p.deleted, p);
  }

  // ----- Oldest first

  /** The orders of the posts ascend, all below `n`. */
  ghost predicate OrdersAscend(posts: seq<PostState>, n: nat) {
    && (forall i | 0 <= i < |posts| :: posts[i].order < n)
    && (forall i, j | 0 <= i < j < |posts| :: posts[i].order < posts[j].order)
  }

  lemma {:induction false} FoldOrders(events: seq<PostEvent>)
    ensures OrdersAscend(Fold(events), |events|)
  {
    if events != [] {
      var n := |events| - 1;
      FoldOrders(events[..n]);
      ApplyOrders(Fold(events[..n]), events[n], n);
    }
  }

  lemma ApplyOrders(posts: seq<PostState>, e: PostEvent, n: nat)
    requires OrdersAscend(posts, n)
    ensures OrdersAscend(Apply(posts, e, n), n + 1)
  {
    var i, after := IndexOf(posts, e.post.id), Apply(posts, e, n);
    assert forall k | 0 <= k < |posts| :: after[k].order == posts[k].order;
  }

  lemma OrdersSnoc(posts: seq<PostState>, x: PostState, n: nat)
    requires OrdersAscend(posts, n) && x.order < n && forall i | 0 <= i < |posts| :: posts[i].order < x.order
    ensures OrdersAscend(posts + [x], n) && OrdersAscend(posts + [], n)
  {
    assert posts + [] == posts;
  }

  lemma {:induction false} KeepOrders(posts: seq<PostState>, p: PostState -> bool, n: nat)
    requires OrdersAscend(posts, n)
    ensures OrdersAscend(Keep(posts, p), n)
  {
    if posts != [] {
      var k := |posts| - 1;
      KeepOrders(posts[..k], p, n);
      var before := Keep(posts[..k], p);
      forall i | 0 <= i < |before| ensures before[i].order < posts[k].order { KeepMembers(posts[..k], p, before[i]); }
      OrdersSnoc(before, posts[k], n);
    }
  }

  lemma {:induction false} InsertOrdered(x: PostState, s: seq<PostState>)
    requires StrictlySorted(s, Earlier) && forall y <- s :: y.order != x.order
    ensures StrictlySorted(Insert(x, s, Earlier), Earlier)
  {
    if s != [] && Earlier(s[0], x) {
      InsertOrdered(x, s[1..]);
      var r := Insert(x, s[1..], Earlier);
      InsertPermutes(x, s[1..], Earlier);
      forall k | 0 <= k < |r| ensures Earlier(s[0], r[k]) {
        assert r[k] in multiset(r);
        assert r[k] == x || r[k] in s[1..];
      }
    }
  }

  lemma {:induction false} SortOrdered(s: seq<PostState>, n: nat)
    requires OrdersAscend(s, n)
    ensures StrictlySorted(Sort(s, Earlier), Earlier)
  {
    if s != [] {
      SortOrdered(s[1..], n);
      forall y <- Sort(s[1..], Earlier) ensures y.order != s[0].order { SortMembers(s[1..], Earlier, y); }
      InsertOrdered(s[0], Sort(s[1..], Earlier));
    }
  }

  lemma {:induction false} KeepOrdered(s: seq<PostState>, p: PostState -> bool)
    requires StrictlySorted(s, Earlier)
    ensures StrictlySorted(Keep(s, p), Earlier)
  {
    if s != [] {
      var k := |s| - 1;
      KeepOrdered(s[..k], p);
      var before, all := Keep(s[..k], p), Keep(s, p);
      forall i, j | 0 <= i < j < |all| ensures Earlier(all[i], all[j]) {
        if j == |before| { KeepMembers(s[..k], p, before[i]); }
      }
    }
  }

  /** Post `a` is older than post `b`: created before it, or at the same time and accepted before it. */
  predicate Older(a: PostState, b: PostState) {
    a.createdAt <= b.createdAt && (a.createdAt == b.createdAt ==> a.order < b.order)
  }

  /** The candidates stand oldest first. */
  lemma CandidatesOldestFirst(events: seq<PostEvent>, q: Request)
    ensures var cs := Candidates(events, q); forall i, j | 0 <= i < j < |cs| :: Older(cs[i], cs[j])
  {
    var mine := Mine(events, q);
    FoldOrders(mine);
    KeepOrders(Fold(mine), (p: PostState) => !p.deleted, |mine|);
    SortOrdered(Undeleted(Fold(mine)), |mine|);
    KeepOrdered(Live(events, q), (p: PostState) => p.id != q.root && p.id !in q.exclude);
  }

  /** What is shown of the candidates: the last ones, each with its own author, time and trust, oldest first, and no
      candidate left out is newer than one shown. */
  ghost predicate NewestShown(cs: seq<PostState>, recent: seq<ThreadPost>, omitted: nat, maxChars: nat) {
    && |recent| + omitted == |cs|
    && (forall i, j | 0 <= i < j < |cs| && omitted <= j :: Older(cs[i], cs[j]))
    && (forall k | 0 <= k < |recent| ::
          recent[k] == ThreadPost(cs[omitted + k].id, cs[omitted + k].user, cs[omitted + k].sender,
                                  cs[omitted + k].createdAt, Truncate(cs[omitted + k].message, maxChars),
                                  cs[omitted + k].trust))
  }

  lemma SuffixIsNewest(events: seq<PostEvent>, q: Request, recent: seq<ThreadPost>)
    requires |recent| <= |Candidates(events, q)|
    requires recent == Suffix(ShownAll(Candidates(events, q), q.budget.maxPostChars), |recent|)
    ensures var cs := Candidates(events, q); NewestShown(cs, recent, |cs| - |recent|, q.budget.maxPostChars)
  {
    CandidatesOldestFirst(events, q);
    var cs := Candidates(events, q);
    forall i | 0 <= i < |cs| ensures !cs[i].deleted { CandidatesAreLive(events, q, cs[i]); }
    SuffixShows(cs, recent, q.budget.maxPostChars);
  }

  lemma SuffixShows(cs: seq<PostState>, recent: seq<ThreadPost>, maxChars: nat)
    requires |recent| <= |cs| && recent == Suffix(ShownAll(cs, maxChars), |recent|)
    requires (forall i | 0 <= i < |cs| :: !cs[i].deleted) && forall i, j | 0 <= i < j < |cs| :: Older(cs[i], cs[j])
    ensures NewestShown(cs, recent, |cs| - |recent|, maxChars)
  {
    var omitted := |cs| - |recent|;
    assert forall k | 0 <= k < |recent| :: recent[k] == Shown(cs[omitted + k], maxChars);
  }

  /** The agents that wrote or were addressed, and the humans who wrote. */
  method Participants(live: seq<PostState>) returns (agents: set<Id>, humans: set<Id>)
    ensures forall id :: id in agents <==> exists p <- live :: p.sender == Some(id) || id in p.targets
    ensures humans == set p <- live | p.trust.HumanTrusted? :: p.user
  {
    agents, humans := {}, {};
    for k := 0 to |live|
      invariant forall id ::
                  id in agents <==> exists j | 0 <= j < k :: live[j].sender == Some(id) || id in live[j].targets
      invariant humans == set j | 0 <= j < k && live[j].trust.HumanTrusted? :: live[j].user
    {
      if live[k].sender.Some? { agents := agents + {live[k].sender.value}; }
      agents := agents + set t <- live[k].targets :: t;
      if live[k].trust.HumanTrusted? { humans := humans + {live[k].user}; }
    }
  }

  /** Nothing when the thread is unknown; otherwise the newest candidates that fit, all others counted. */
  method FoldThread(events: seq<PostEvent>, q: Request) returns (c: Option<Context>)
    ensures c.None? <==> Fold(Mine(events, q)) == []
    ensures c.Some? ==>
              var all := ShownAll(Candidates(events, q), q.budget.maxPostChars);
              && |c.value.recent| + c.value.omitted == |all|
              && c.value.recent == Suffix(all, |c.value.recent|)
              && WithinBudget(all, |c.value.recent|, q.budget)
              && forall k | 0 <= k <= |all| && WithinBudget(all, k, q.budget) :: k <= |c.value.recent|
    ensures c.Some? ==> NewestShown(Candidates(events, q), c.value.recent, c.value.omitted, q.budget.maxPostChars)
    ensures c.Some? ==> c.value.humans == set p <- Live(events, q) | p.trust.HumanTrusted? :: p.user
    ensures c.Some? ==> forall id ::
              id in c.value.participants <==> exists p <- Live(events, q) :: p.sender == Some(id) || id in p.targets
    ensures c.Some? ==>
              var root := Lookup(Fold(Mine(events, q)), q.root);
              c.value.root == if root.None? || q.root in q.exclude then None
                  else Some(Shown(root.value, q.budget.maxPostChars))
  {
    var posts := CurrentPosts(Mine(events, q));
    if posts == [] { return None; }
    var live := Sort(Undeleted(posts), Earlier);
    var candidates := Eligible(live, q);
    var recent := RecentPosts(ShownAll(candidates, q.budget.maxPostChars), q.budget);
    SuffixIsNewest(events, q, recent);
    var participants, humans := Participants(live);
    var r := IndexOf(posts, q.root);
    var root := if r < 0 || q.root in q.exclude then None else Some(Shown(posts[r], q.budget.maxPostChars));
    c := Some(Context(root, recent, |candidates| - |recent|, participants, humans));
  }
}
