/** Every interleaving of the threads keeps the feed update protocol, and it comes to an end. */
module QueueTheorems {
  import opened QueueModel

  // ---------------------------------------------------------------- the list

  lemma {:induction false} AddFeedKeeps(s: Shared, f: Feed)
    requires Ordered(s.queue, s.next) && OnePerFeed(s.queue)
    ensures Ordered(AddFeed(s, f).queue, AddFeed(s, f).next) && OnePerFeed(AddFeed(s, f).queue)
    ensures Listed(AddFeed(s, f).queue, f)
  {
    var t := AddFeed(s, f);
    if !Listed(s.queue, f) {
      assert t.queue[0].feed == f;
      assert forall k :: 1 <= k < |t.queue| ==> t.queue[k] == s.queue[k - 1];
    }
  }

  predicate IsNew(e: Entry, next: nat) {
    e == NewEntry(e.id, e.feed) && e.id >= next
  }

  /** The old entries stay as they are; the new ones wait in front of them. */
  predicate Grows(s: Shared, t: Shared) {
    && |t.queue| >= |s.queue| && t.next >= s.next && t.open == s.open
    && (forall k :: 0 <= k < |s.queue| ==> t.queue[k + (|t.queue| - |s.queue|)] == s.queue[k])
    && (forall k :: 0 <= k < |t.queue| - |s.queue| ==> IsNew(t.queue[k], s.next))
  }

  lemma {:induction false} AddFeedGrows(s: Shared, m: Shared, f: Feed)
    requires Grows(s, m)
    ensures Grows(s, AddFeed(m, f))
    ensures forall g :: Listed(m.queue, g) ==> Listed(AddFeed(m, f).queue, g)
  {
    var t := AddFeed(m, f);
    if !Listed(m.queue, f) {
      forall k | 0 <= k < |t.queue| - |s.queue| ensures IsNew(t.queue[k], s.next) {
        if k > 0 {
          assert t.queue[k] == m.queue[k - 1];
        }
      }
      forall g | Listed(m.queue, g) ensures Listed(t.queue, g) {
        var k :| 0 <= k < |m.queue| && m.queue[k].feed == g;
        assert t.queue[k + 1].feed == g;
      }
      forall k | 0 <= k < |s.queue| ensures t.queue[k + (|t.queue| - |s.queue|)] == s.queue[k] {
        assert m.queue[k + (|m.queue| - |s.queue|)] == s.queue[k];
      }
    }
  }

  /** Every feed asked for is in the queue afterwards, once. */
  lemma {:induction false} AddFeedsKeep(s: Shared, feeds: seq<Feed>)
    requires Ordered(s.queue, s.next) && OnePerFeed(s.queue)
    ensures Ordered(AddFeeds(s, feeds).queue, AddFeeds(s, feeds).next) && OnePerFeed(AddFeeds(s, feeds).queue)
    ensures Grows(s, AddFeeds(s, feeds))
    ensures forall k :: 0 <= k < |feeds| ==> Listed(AddFeeds(s, feeds).queue, feeds[k])
    decreases |feeds|
  {
    hide Ordered, OnePerFeed, Listed, AddFeed;
    if feeds != [] {
      var last := |feeds| - 1;
      AddFeedsKeep(s, feeds[..last]);
      AddFeedKeeps(AddFeeds(s, feeds[..last]), feeds[last]);
      AddFeedGrows(s, AddFeeds(s, feeds[..last]), feeds[last]);
      forall k | 0 <= k < last ensures Listed(AddFeeds(s, feeds[..last]).queue, feeds[k]) {
        assert feeds[..last][k] == feeds[k];
      }
    }
  }

  // ---------------------------------------------------------------- the invariant

  /** Nobody holds an entry that did not exist. */
  lemma {:induction false} GrowthInv(s: State, t: State)
    requires Inv(s) && Grows(s.shared, t.shared.(open := s.shared.open))
    requires (t.downloader, t.transfers, t.executor) == (s.downloader, s.transfers, s.executor)
    requires t.inserter == s.inserter || (s.inserter.Idle? && t.inserter.Examining?)
    ensures EntriesOk(t) && NothingDangles(t)
  {
    hide Ordered, OnePerFeed, BatchOk;
    var q, r := s.shared.queue, t.shared.queue;
    var n := |r| - |q|;
    forall id: nat | Held(t, id) ensures Present(r, id) && id < s.shared.next {
      assert Held(s, id);
      var k :| 0 <= k < |q| && q[k].id == id;
      assert r[k + n].id == id;
      PlaceUsed(q, s.shared.next, k);
    }
    forall k | 0 <= k < |r| ensures EntryOk(t, r[k]) {
      if k >= n {
        assert r[(k - n) + n] == q[k - n];
        assert EntryOk(s, q[k - n]);
      } else {
        assert IsNew(r[k], s.shared.next);
        assert !Held(t, r[k].id);
      }
    }
  }

  lemma {:induction false} PlaceUsed(queue: seq<Entry>, next: nat, k: nat)
    requires Ordered(queue, next) && k < |queue|
    ensures queue[k].id < next
  {
  }

  lemma {:induction false} UpdateInv(s: State, feeds: seq<Feed>, t: State)
    requires Inv(s) && t.shared == Update(s.shared, feeds)
    requires (t.downloader, t.transfers, t.executor) == (s.downloader, s.transfers, s.executor)
    requires t.inserter == s.inserter || (s.inserter.Idle? && t.inserter.Examining?)
    requires t.inserter.Examining? || t.callers > 0
    ensures Inv(t)
  {
    hide Ordered, OnePerFeed, EntriesOk, NothingDangles, AddFeeds;
    AddFeedsKeep(s.shared, feeds);
    GrowthInv(s, t);
  }

  lemma {:induction false} ExamineInv(s: State, t: State)
    requires Inv(s) && t.shared == Examine(s.shared)
    requires (t.downloader, t.transfers, t.executor) == (s.downloader, s.transfers, s.executor)
    requires t.inserter == s.inserter || (s.inserter.Examining? && t.inserter.Idle?)
    ensures Inv(t)
  {
    var q := s.shared.queue;
    if AllFinished(q) {
      assert forall k :: 0 <= k < |q| ==> EntryOk(s, q[k]) && q[k].finished;
      forall id: nat ensures !Held(t, id) {
        assert !Held(s, id);
      }
    } else {
      SameList(s, t);
    }
  }

  lemma {:induction false} SameList(s: State, t: State)
    requires Inv(s) && t.shared.queue == s.shared.queue
    requires (t.downloader, t.transfers, t.executor) == (s.downloader, s.transfers, s.executor)
    requires t.inserter == s.inserter || !t.inserter.Holding?
    ensures EntriesOk(t) && NothingDangles(t)
  {
    forall k | 0 <= k < |t.shared.queue| ensures EntryOk(t, t.shared.queue[k]) {
      assert EntryOk(s, s.shared.queue[k]);
    }
    forall id: nat | Held(t, id) ensures Present(t.shared.queue, id) {
      assert Held(s, id);
    }
  }

  /** A step of a worker changes at most one entry, and what is held of the others stays. */
  lemma {:induction false} OneEntryInv(s: State, t: State, k: nat)
    requires Inv(s) && k < |s.shared.queue| == |t.shared.queue|
    requires forall j :: 0 <= j < |s.shared.queue| && j != k ==> t.shared.queue[j] == s.shared.queue[j]
    requires t.shared.queue[k].id == s.shared.queue[k].id && t.shared.queue[k].feed == s.shared.queue[k].feed
    requires t.shared.next == s.shared.next && t.shared.open == s.shared.open
    requires forall id: nat :: id != s.shared.queue[k].id ==>
      (HeldByDownloader(t, id) <==> HeldByDownloader(s, id)) &&
      (t.executor == Holding(id) <==> s.executor == Holding(id)) && (t.inserter == Holding(id) ==> s.inserter == Holding(id))
    requires EntryOk(t, t.shared.queue[k])
    ensures Ordered(t.shared.queue, t.shared.next) && OnePerFeed(t.shared.queue) && EntriesOk(t) && NothingDangles(t)
  {
    var q, r, id := s.shared.queue, t.shared.queue, s.shared.queue[k].id;
    forall j | 0 <= j < |r| ensures EntryOk(t, r[j]) {
      assert EntryOk(s, q[j]);
    }
    forall i: nat | Held(t, i) ensures Present(r, i) {
      if i == id {
        assert r[k].id == i;
      } else {
        assert Held(s, i);
        var j :| 0 <= j < |q| && q[j].id == i;
        assert r[j].id == i;
      }
    }
  }

  lemma {:induction false} PullInv(s: State, w: Worker)
    requires Inv(s) && Enabled(s, PullBy(w))
    ensures Inv(Next(s, PullBy(w)))
  {
    var k := First(s.shared.queue, w);
    var t := Next(s, PullBy(w));
    assert EntryOk(s, s.shared.queue[k]);
    OneEntryInv(s, t, k);
    assert !t.shared.queue[k].finished;
  }

  /** Raising flags of the entry `id` touches one place of the list. */
  lemma {:induction false} WhereHeld(s: State, id: nat) returns (k: nat)
    requires Inv(s) && Held(s, id)
    ensures k < |s.shared.queue| && s.shared.queue[k].id == id && EntryOk(s, s.shared.queue[k])
    ensures forall j :: 0 <= j < |s.shared.queue| && j != k ==> s.shared.queue[j].id != id
  {
    assert Present(s.shared.queue, id);
    k :| 0 <= k < |s.shared.queue| && s.shared.queue[k].id == id;
  }

  lemma {:induction false} PreparedInv(s: State, outcome: Preparation)
    requires Inv(s) && Enabled(s, Prepared(outcome))
    ensures Inv(Next(s, Prepared(outcome)))
  {
    var t := Next(s, Prepared(outcome));
    assert Held(s, s.downloader.id);
    var k := WhereHeld(s, s.downloader.id);
    OneEntryInv(s, t, k);
    assert !t.shared.queue[k].finished;
  }

  lemma {:induction false} TransferredInv(s: State, id: nat, failed: bool, canceled: bool)
    requires Inv(s) && Enabled(s, Transferred(id, failed, canceled))
    ensures Inv(Next(s, Transferred(id, failed, canceled)))
  {
    var t := Next(s, Transferred(id, failed, canceled));
    assert Held(s, id);
    var k := WhereHeld(s, id);
    OneEntryInv(s, t, k);
    assert !t.shared.queue[k].finished;
  }

  lemma {:induction false} ExecutedInv(s: State, failed: bool)
    requires Inv(s) && Enabled(s, Executed(failed))
    ensures Inv(Next(s, Executed(failed)))
  {
    var t := Next(s, Executed(failed));
    assert Held(s, s.executor.id);
    var k := WhereHeld(s, s.executor.id);
    OneEntryInv(s, t, k);
    assert !t.shared.queue[k].finished;
  }

  lemma {:induction false} InsertedInv(s: State)
    requires Inv(s) && Enabled(s, Inserted)
    ensures Inv(Next(s, Inserted))
  {
    var t := Next(s, Inserted);
    assert Held(s, s.inserter.id);
    var k := WhereHeld(s, s.inserter.id);
    OneEntryInv(s, t, k);
  }

  /** Every step of every thread keeps the invariant. */
  lemma {:induction false} NextInv(s: State, a: Action)
    requires Inv(s) && Enabled(s, a)
    ensures Inv(Next(s, a))
  {
    hide Inv, Update, Examine;
    match a
    case QueueUpdates(feeds) => UpdateInv(s, feeds, Next(s, a));
    case AutoUpdate(feed) => UpdateInv(s, [feed], Next(s, a));
    case CallerExamines => ExamineInv(s, Next(s, a));
    case InserterExamines => ExamineInv(s, Next(s, a));
    case PullBy(w) => PullInv(s, w);
    case Prepared(outcome) => PreparedInv(s, outcome);
    case Transferred(id, failed, canceled) => TransferredInv(s, id, failed, canceled);
    case Executed(failed) => ExecutedInv(s, failed);
    case Inserted => InsertedInv(s);
  }

  /** The invariant holds in every reachable state. */
  lemma {:induction false} AlwaysInv(s: State, run: seq<Action>)
    requires Inv(s) && Legal(s, run)
    ensures Inv(After(s, run))
    decreases |run|
  {
    if run != [] {
      AlwaysInv(s, run[..|run| - 1]);
      NextInv(After(s, run[..|run| - 1]), run[|run| - 1]);
    }
  }

  lemma {:induction false} StartInv()
    ensures Inv(START)
  {
  }

  // ---------------------------------------------------------------- who holds what

  /** The entry is held by the thread that fetches its feed or by the inserter, not by both. */
  predicate HeldRightly(s: State, e: Entry) {
    && !e.finished
    && (if s.inserter == Holding(e.id) then !HeldByDownloader(s, e.id) && s.executor != Holding(e.id)
        else if Fetcher(e.feed) == Executor then s.executor == Holding(e.id) && !HeldByDownloader(s, e.id)
        else s.executor != Holding(e.id) && (s.downloader == Holding(e.id) <==> e.id !in s.transfers))
  }

  /** An entry is held by one thread at a time, and fetched by the right one. */
  lemma {:induction false} HeldByOne(s: State, id: nat)
    requires Inv(s) && Held(s, id)
    ensures exists k :: 0 <= k < |s.shared.queue| && s.shared.queue[k].id == id && HeldRightly(s, s.shared.queue[k])
  {
    var k := WhereHeld(s, id);
    assert HeldRightly(s, s.shared.queue[k]);
  }

  /** When the queue is freed, nobody holds an entry of it. */
  lemma {:induction false} FreedIsNotHeld(s: State, id: nat)
    requires Inv(s) && s.shared.queue != [] && Examine(s.shared).queue == []
    ensures !Held(s, id)
  {
    assert forall k :: 0 <= k < |s.shared.queue| ==> EntryOk(s, s.shared.queue[k]);
  }

  // ---------------------------------------------------------------- the life of an entry

  lemma {:induction false} LifeConcat(a: seq<Event>, b: seq<Event>, id: nat)
    ensures Life(a + b, id) == Life(a, id) + Life(b, id)
    decreases |b|
  {
    if b == [] {
      assert a + b == a;
    } else {
      var c := b[..|b| - 1];
      LifeConcat(a, c, id);
      assert (a + b)[..|a + b| - 1] == a + c;
    }
  }

  lemma {:induction false} LifeSnoc(log: seq<Event>, e: Event, id: nat)
    ensures Life(log + [e], id) == if About(e, id) then Life(log, id) + [e] else Life(log, id)
  {
    assert (log + [e])[..|log|] == log;
  }

  lemma {:induction false} AddFeedLives(s: Shared, f: Feed)
    requires LivesOk(s) && Ordered(s.queue, s.next)
    ensures LivesOk(AddFeed(s, f))
  {
    hide Life;
    var t := AddFeed(s, f);
    if !Listed(s.queue, f) {
      var e := Queued(s.next, f);
      forall id: nat ensures Life(t.log, id) == if id == s.next then Life(s.log, id) + [e] else Life(s.log, id) {
        LifeSnoc(s.log, e, id);
      }
      assert forall k :: 1 <= k < |t.queue| ==> t.queue[k] == s.queue[k - 1];
      assert t.queue[0].id == s.next;
      forall id: nat | id < t.next && !Present(t.queue, id) ensures IsOver(t.log, id) {
        assert !Present(s.queue, id) by {
          assert forall k :: 0 <= k < |s.queue| ==> t.queue[k + 1].id == s.queue[k].id;
        }
        assert IsOver(s.log, id);
        var feed :| Life(s.log, id) == WholeLife(id, feed);
        assert Life(t.log, id) == WholeLife(id, feed);
      }
    }
  }

  lemma {:induction false} AddFeedsLives(s: Shared, feeds: seq<Feed>)
    requires LivesOk(s) && Ordered(s.queue, s.next) && OnePerFeed(s.queue)
    ensures LivesOk(AddFeeds(s, feeds))
    decreases |feeds|
  {
    hide LivesOk, Ordered, OnePerFeed, AddFeed;
    if feeds != [] {
      var rest := feeds[..|feeds| - 1];
      AddFeedsLives(s, rest);
      AddFeedsKeep(s, rest);
      AddFeedLives(AddFeeds(s, rest), feeds[|feeds| - 1]);
    }
  }

  lemma {:induction false} OneEventLives(s: Shared, t: Shared, k: nat, e: Event)
    requires LivesOk(s) && Ordered(s.queue, s.next) && k < |s.queue| == |t.queue| && t.next == s.next
    requires t.log == s.log + [e] && About(e, s.queue[k].id) && t.queue[k].id == s.queue[k].id
    requires forall j :: 0 <= j < |s.queue| && j != k ==> t.queue[j] == s.queue[j]
    requires LifeOf(t.queue[k]) == LifeOf(s.queue[k]) + [e]
    ensures LivesOk(t)
  {
    hide Life, LifeOf;
    forall id: nat ensures Life(t.log, id) == if id == e.id then Life(s.log, id) + [e] else Life(s.log, id) {
      LifeSnoc(s.log, e, id);
    }
    forall id: nat | id < t.next && !Present(t.queue, id) ensures IsOver(t.log, id) {
      assert !Present(s.queue, id) by {
        assert forall j :: 0 <= j < |s.queue| ==> t.queue[j].id == s.queue[j].id;
      }
      assert t.queue[k].id != id;
      assert IsOver(s.log, id);
      var feed :| Life(s.log, id) == WholeLife(id, feed);
      assert Life(t.log, id) == WholeLife(id, feed);
    }
  }

  lemma {:induction false} PresentSnoc(queue: seq<Entry>, id: nat)
    requires queue != []
    ensures Present(queue, id) <==> Present(queue[..|queue| - 1], id) || queue[|queue| - 1].id == id
  {
    var n := |queue| - 1;
    if k :| 0 <= k < |queue| && queue[k].id == id {
      assert k < n ==> queue[..n][k].id == id;
    }
    if k :| 0 <= k < |queue[..n]| && queue[..n][k].id == id {
      assert queue[k].id == id;
    }
  }

  lemma {:induction false} LastIsAlone(queue: seq<Entry>, next: nat)
    requires Ordered(queue, next) && queue != []
    ensures Ordered(queue[..|queue| - 1], next) && !Present(queue[..|queue| - 1], queue[|queue| - 1].id)
  {
  }

  lemma {:induction false} NoLife(id: nat)
    ensures Life([], id) == [] && !Present([], id)
  {
  }

  lemma {:induction false} LifeOfFrees(queue: seq<Entry>, next: nat, id: nat)
    requires Ordered(queue, next)
    ensures Life(Frees(queue), id) == if Present(queue, id) then [Freed(id)] else []
    decreases |queue|
  {
    hide Life, Ordered, Present;
    if queue == [] {
      NoLife(id);
    } else {
      var n := |queue| - 1;
      PresentSnoc(queue, id);
      LastIsAlone(queue, next);
      LifeOfFrees(queue[..n], next, id);
      LifeSnoc(Frees(queue[..n]), Freed(queue[n].id), id);
      assert [] + [Freed(id)] == [Freed(id)];
    }
  }

  lemma {:induction false} ExamineLives(s: State)
    requires LivesOk(s.shared) && Inv(s)
    ensures LivesOk(Examine(s.shared))
  {
    hide Life, Frees;
    var q, t := s.shared.queue, Examine(s.shared);
    if AllFinished(q) {
      forall id: nat
        ensures Life(t.log, id) == Life(s.shared.log, id) + if Present(q, id) then [Freed(id)] else []
      {
        LifeSnoc(s.shared.log, Committed, id);
        LifeConcat(s.shared.log + [Committed], Frees(q), id);
        LifeOfFrees(q, s.shared.next, id);
      }
      forall id: nat | id < t.next ensures IsOver(t.log, id) {
        if Present(q, id) {
          var k :| 0 <= k < |q| && q[k].id == id;
          assert EntryOk(s, q[k]);
          assert Life(t.log, id) == WholeLife(id, q[k].feed);
        } else {
          assert IsOver(s.shared.log, id);
          var feed :| Life(s.shared.log, id) == WholeLife(id, feed);
          assert Life(t.log, id) == WholeLife(id, feed);
        }
      }
      forall id: nat | id >= t.next ensures Life(t.log, id) == [] {
        assert !Present(q, id);
      }
    }
  }

  lemma {:induction false} PullLives(s: State, w: Worker)
    requires LivesOk(s.shared) && Inv(s) && Enabled(s, PullBy(w))
    ensures LivesOk(Next(s, PullBy(w)).shared)
  {
    hide LivesOk;
    var k := First(s.shared.queue, w);
    assert EntryOk(s, s.shared.queue[k]);
    if !w.Inserter? {
      OneEventLives(s.shared, Next(s, PullBy(w)).shared, k, Claimed(s.shared.queue[k].id, w));
    }
  }

  lemma {:induction false} CompleteLives(s: State, id: nat, downloaded: bool, failed: bool, canceled: bool)
    requires LivesOk(s.shared) && Inv(s) && (HeldByDownloader(s, id) || s.executor == Holding(id))
    requires downloaded || failed || canceled
    ensures LivesOk(Complete(s.shared, id, downloaded, failed, canceled))
  {
    hide LivesOk;
    assert Held(s, id);
    var k := WhereHeld(s, id);
    OneEventLives(s.shared, Complete(s.shared, id, downloaded, failed, canceled), k, Completed(id));
  }

  lemma {:induction false} FinishLives(s: State, id: nat)
    requires LivesOk(s.shared) && Inv(s) && s.inserter == Holding(id)
    ensures LivesOk(Finish(s.shared, id))
  {
    hide LivesOk;
    assert Held(s, id);
    var k := WhereHeld(s, id);
    OneEventLives(s.shared, Finish(s.shared, id), k, Finished(id));
  }

  lemma {:induction false} NextLives(s: State, a: Action)
    requires LivesOk(s.shared) && Inv(s) && Enabled(s, a)
    ensures LivesOk(Next(s, a).shared)
  {
    hide LivesOk, Examine, Complete, Finish, First, AddFeeds;
    match a
    case QueueUpdates(feeds) => AddFeedsLives(s.shared, feeds); OpeningLives(AddFeeds(s.shared, feeds));
    case AutoUpdate(feed) => AddFeedsLives(s.shared, [feed]); OpeningLives(AddFeeds(s.shared, [feed]));
    case CallerExamines => ExamineLives(s);
    case InserterExamines => ExamineLives(s);
    case PullBy(w) => PullLives(s, w);
    case Prepared(outcome) =>
      CompleteLives(s, s.downloader.id, false, outcome.Refused?, !outcome.Refused?);
    case Transferred(id, failed, canceled) => CompleteLives(s, id, true, failed, canceled);
    case Executed(failed) => CompleteLives(s, s.executor.id, true, failed, false);
    case Inserted => FinishLives(s, s.inserter.id);
  }

  lemma {:induction false} OpeningLives(s: Shared)
    requires LivesOk(s)
    ensures LivesOk(s.(open := true, log := s.log + [Begun]))
  {
    hide Life, LifeOf, WholeLife;
    var t := s.(open := true, log := s.log + [Begun]);
    forall id: nat ensures Life(t.log, id) == Life(s.log, id) {
      LifeSnoc(s.log, Begun, id);
    }
    forall id: nat | id < t.next && !Present(t.queue, id) ensures IsOver(t.log, id) {
      assert IsOver(s.log, id);
    }
  }

  /** In every interleaving each entry is queued, claimed by its fetcher, completed, finished and freed
      once, in this order. */
  lemma {:induction false} EveryEntryLivesOnce(s: State, run: seq<Action>)
    requires Inv(s) && LivesOk(s.shared) && Legal(s, run)
    ensures LivesOk(After(s, run).shared)
    decreases |run|
  {
    hide Inv, LivesOk;
    if run != [] {
      var rest := run[..|run| - 1];
      EveryEntryLivesOnce(s, rest);
      AlwaysInv(s, rest);
      NextLives(After(s, rest), run[|run| - 1]);
    }
  }

  lemma {:induction false} StartLives()
    ensures LivesOk(START.shared)
  {
  }

  /** In every interleaving of the threads: a feed has at most one entry, the transaction is open while
      there are entries, nobody holds an entry that was freed, and every entry ever made has lived as it
      should so far. */
  lemma {:induction false} EveryInterleaving(run: seq<Action>)
    requires Legal(START, run)
    ensures var s := After(START, run);
      && OnePerFeed(s.shared.queue)
      && (s.shared.queue != [] ==> s.shared.open)
      && (forall id: nat :: Held(s, id) ==> Present(s.shared.queue, id))
      && LivesOk(s.shared)
  {
    hide LivesOk;
    StartInv();
    StartLives();
    AlwaysInv(START, run);
    EveryEntryLivesOnce(START, run);
  }

  // ---------------------------------------------------------------- what the database keeps

  lemma {:induction false} SavedSnoc(log: seq<Event>, e: Event)
    ensures Saved(log + [e]) == Effect(Saved(log), e)
  {
    assert (log + [e])[..|log|] == log;
  }

  lemma {:induction false} FreesSaveNothing(log: seq<Event>, queue: seq<Entry>)
    ensures Saved(log + Frees(queue)) == Saved(log)
    decreases |queue|
  {
    if queue == [] {
      assert log + [] == log;
    } else {
      var n := |queue| - 1;
      FreesSaveNothing(log, queue[..n]);
      SavedSnoc(log + Frees(queue[..n]), Freed(queue[n].id));
      assert log + Frees(queue) == log + Frees(queue[..n]) + [Freed(queue[n].id)];
    }
  }

  lemma {:induction false} AddFeedSaved(s: Shared, f: Feed)
    requires SavedOk(s) && Ordered(s.queue, s.next)
    ensures SavedOk(AddFeed(s, f))
  {
    hide Saved;
    var t := AddFeed(s, f);
    if !Listed(s.queue, f) {
      SavedSnoc(s.log, Queued(s.next, f));
      assert t.queue[0] == NewEntry(s.next, f);
      assert forall k :: 0 <= k < |s.queue| ==> t.queue[k + 1] == s.queue[k];
      assert forall k :: 1 <= k < |t.queue| ==> t.queue[k] == s.queue[k - 1];
      assert forall id: nat :: Present(t.queue, id) <==> Present(s.queue, id) || id == s.next;
      assert forall id: nat :: IsFinished(t.queue, id) <==> IsFinished(s.queue, id);
    }
  }

  lemma {:induction false} AddFeedsSaved(s: Shared, feeds: seq<Feed>)
    requires SavedOk(s) && Ordered(s.queue, s.next) && OnePerFeed(s.queue)
    ensures SavedOk(AddFeeds(s, feeds))
    decreases |feeds|
  {
    hide SavedOk, Ordered, OnePerFeed, AddFeed;
    if feeds != [] {
      var rest := feeds[..|feeds| - 1];
      AddFeedsSaved(s, rest);
      AddFeedsKeep(s, rest);
      AddFeedSaved(AddFeeds(s, rest), feeds[|feeds| - 1]);
    }
  }

  lemma {:induction false} UpdateSaved(s: Shared, feeds: seq<Feed>)
    requires SavedOk(s) && Ordered(s.queue, s.next) && OnePerFeed(s.queue)
    ensures SavedOk(Update(s, feeds))
  {
    hide Saved, AddFeeds;
    AddFeedsSaved(s, feeds);
    SavedSnoc(AddFeeds(s, feeds).log, Begun);
  }

  lemma {:induction false} ExamineSaved(s: Shared)
    requires SavedOk(s) && Ordered(s.queue, s.next) && (s.queue != [] ==> s.open)
    ensures SavedOk(Examine(s))
  {
    hide Saved, Frees;
    if AllFinished(s.queue) {
      SavedSnoc(s.log, Committed);
      FreesSaveNothing(s.log + [Committed], s.queue);
      assert forall id: nat :: Present(s.queue, id) <==> IsFinished(s.queue, id);
      assert !s.open ==> s.queue == [];
    }
  }

  /** A step of a worker on one entry: the database hears of it when the entry is finished. */
  lemma {:induction false} OneEntrySaved(s: Shared, t: Shared, k: nat, e: Event)
    requires SavedOk(s) && k < |s.queue| == |t.queue| && (t.open, t.next) == (s.open, s.next)
    requires t.log == s.log + [e] && About(e, s.queue[k].id) && t.queue[k].id == s.queue[k].id
    requires forall j :: 0 <= j < |s.queue| && j != k ==> t.queue[j] == s.queue[j]
    requires t.queue[k].finished == (s.queue[k].finished || e.Finished?) && (e.Finished? ==> s.open)
    ensures SavedOk(t)
  {
    hide Saved;
    SavedSnoc(s.log, e);
    forall id: nat ensures Present(t.queue, id) <==> Present(s.queue, id) {
      if j :| 0 <= j < |s.queue| && s.queue[j].id == id {
        assert t.queue[j].id == id;
      }
      if j :| 0 <= j < |t.queue| && t.queue[j].id == id {
        assert s.queue[j].id == id;
      }
    }
    forall id: nat ensures IsFinished(t.queue, id) <==> IsFinished(s.queue, id) || e == Finished(id) {
      if j :| 0 <= j < |s.queue| && s.queue[j].id == id && s.queue[j].finished {
        assert t.queue[j].finished;
      }
      if j :| 0 <= j < |t.queue| && t.queue[j].id == id && t.queue[j].finished {
        assert s.queue[j].id == id;
      }
      if e == Finished(id) {
        assert t.queue[k].id == id;
      }
    }
  }

  lemma {:induction false} PullSaved(s: State, w: Worker)
    requires SavedOk(s.shared) && Enabled(s, PullBy(w))
    ensures SavedOk(Next(s, PullBy(w)).shared)
  {
    hide SavedOk;
    var k := First(s.shared.queue, w);
    if !w.Inserter? {
      OneEntrySaved(s.shared, Next(s, PullBy(w)).shared, k, Claimed(s.shared.queue[k].id, w));
    }
  }

  lemma {:induction false} CompleteSaved(s: State, id: nat, downloaded: bool, failed: bool, canceled: bool)
    requires SavedOk(s.shared) && Inv(s) && Held(s, id)
    ensures SavedOk(Complete(s.shared, id, downloaded, failed, canceled))
  {
    hide SavedOk;
    var k := WhereHeld(s, id);
    OneEntrySaved(s.shared, Complete(s.shared, id, downloaded, failed, canceled), k, Completed(id));
  }

  lemma {:induction false} FinishSaved(s: State, id: nat)
    requires SavedOk(s.shared) && Inv(s) && Held(s, id)
    ensures SavedOk(Finish(s.shared, id))
  {
    hide SavedOk;
    var k := WhereHeld(s, id);
    OneEntrySaved(s.shared, Finish(s.shared, id), k, Finished(id));
  }

  lemma {:induction false} NextSaved(s: State, a: Action)
    requires SavedOk(s.shared) && Inv(s) && Enabled(s, a)
    ensures SavedOk(Next(s, a).shared)
  {
    hide SavedOk, Examine, Update, Complete, Finish, First;
    match a
    case QueueUpdates(feeds) => UpdateSaved(s.shared, feeds);
    case AutoUpdate(feed) => UpdateSaved(s.shared, [feed]);
    case CallerExamines => ExamineSaved(s.shared);
    case InserterExamines => ExamineSaved(s.shared);
    case PullBy(w) => PullSaved(s, w);
    case Prepared(outcome) => CompleteSaved(s, s.downloader.id, false, outcome.Refused?, !outcome.Refused?);
    case Transferred(id, failed, canceled) => CompleteSaved(s, id, true, failed, canceled);
    case Executed(failed) => CompleteSaved(s, s.executor.id, true, failed, false);
    case Inserted => FinishSaved(s, s.inserter.id);
  }

  lemma {:induction false} AlwaysSaved(s: State, run: seq<Action>)
    requires Inv(s) && SavedOk(s.shared) && Legal(s, run)
    ensures SavedOk(After(s, run).shared)
    decreases |run|
  {
    hide Inv, SavedOk;
    if run != [] {
      var rest := run[..|run| - 1];
      AlwaysSaved(s, rest);
      AlwaysInv(s, rest);
      NextSaved(After(s, rest), run[|run| - 1]);
    }
  }

  /** In every interleaving the data of an entry wait in a transaction from the moment it is finished, and
      are stored for good exactly when it has left the queue. No transaction is left open: one that is open
      has entries, or somebody is about to examine the queue. */
  lemma {:induction false} EveryBatchIsCommitted(run: seq<Action>)
    requires Legal(START, run)
    ensures var s := After(START, run);
      var d := Saved(s.shared.log);
      && (forall id: nat :: id in d.stored <==> id < s.shared.next && !Present(s.shared.queue, id))
      && (forall id: nat :: id in d.pending <==> IsFinished(s.shared.queue, id))
      && (s.shared.queue != [] ==> d.open)
      && (d.open ==> s.shared.queue != [] || s.inserter.Examining? || s.callers > 0)
  {
    hide Saved;
    StartInv();
    assert SavedOk(START.shared) by { NothingSaved(); }
    AlwaysInv(START, run);
    AlwaysSaved(START, run);
  }

  lemma {:induction false} NothingSaved()
    ensures Saved([]) == Database(false, {}, {})
  {
  }

  /** A batch is stored as a whole: before the step that empties the queue nothing of it is stored, and
      after it everything is, and the transaction is over. */
  lemma {:induction false} BatchIsAtomic(s: State, a: Action, id: nat)
    requires Inv(s) && SavedOk(s.shared) && Enabled(s, a) && Present(s.shared.queue, id)
    ensures id !in Saved(s.shared.log).stored
    ensures var t := Next(s, a).shared;
      if t.queue == [] then id in Saved(t.log).stored && !Saved(t.log).open && !t.open
      else id !in Saved(t.log).stored
  {
    hide Saved, Examine, Update, Complete, Finish, First, Inv;
    NextSaved(s, a);
    BatchGoesAsAWhole(s, a, id);
  }

  /** Entries leave the queue together, when it is examined. */
  lemma {:induction false} BatchGoesAsAWhole(s: State, a: Action, id: nat)
    requires Inv(s) && Enabled(s, a) && Present(s.shared.queue, id)
    ensures var t := Next(s, a).shared;
      if t.queue == [] then !t.open && id < t.next else Present(t.queue, id)
  {
    hide Inv, Next, Examine, Update;
    var k :| 0 <= k < |s.shared.queue| && s.shared.queue[k].id == id;
    NextUpdates(s, a);
    match a
    case QueueUpdates(feeds) => UpdateKeepsEntries(s, feeds, k);
    case AutoUpdate(feed) => UpdateKeepsEntries(s, [feed], k);
    case _ => OthersKeepEntries(s, a, k);
  }

  lemma {:induction false} NextUpdates(s: State, a: Action)
    requires Enabled(s, a)
    ensures a.QueueUpdates? ==> Next(s, a).shared == Update(s.shared, a.feeds)
    ensures a.AutoUpdate? ==> Next(s, a).shared == Update(s.shared, [a.feed])
  {
  }

  lemma {:induction false} UpdateKeepsEntries(s: State, feeds: seq<Feed>, k: nat)
    requires Inv(s) && k < |s.shared.queue|
    ensures Present(Update(s.shared, feeds).queue, s.shared.queue[k].id)
  {
    hide AddFeeds, EntriesOk, NothingDangles;
    AddFeedsKeep(s.shared, feeds);
    var t := Update(s.shared, feeds);
    assert t.queue[k + (|t.queue| - |s.shared.queue|)].id == s.shared.queue[k].id;
  }

  lemma {:induction false} OthersKeepEntries(s: State, a: Action, k: nat)
    requires Inv(s) && Enabled(s, a) && IsWork(a) && k < |s.shared.queue|
    ensures var t, id := Next(s, a).shared, s.shared.queue[k].id;
      if t.queue == [] then !t.open && id < t.next else Present(t.queue, id)
  {
    hide EntriesOk, NothingDangles, OnePerFeed, Frees, AllFinished, First;
    var t := Next(s, a).shared;
    if t.queue != [] {
      assert t.queue[k].id == s.shared.queue[k].id;
    }
  }

  // ---------------------------------------------------------------- outcomes

  /** The entry that the step completes, if it does. */
  predicate Completes(s: State, a: Action, id: nat) {
    match a
    case Prepared(outcome) => !outcome.Started? && s.downloader == Holding(id)
    case Transferred(i, _, _) => i == id
    case Executed(_) => s.executor == Holding(id)
    case _ => false
  }

  predicate HasOutcome(e: Entry, downloaded: bool, failed: bool, canceled: bool) {
    e.downloaded == downloaded && e.failed == failed && e.canceled == canceled
  }

  /** The step that completes an entry decides on its outcome, and no other step changes it: a feed that is
      skipped counts as canceled, one that is refused as failed, and a transfer or a command says itself. */
  lemma {:induction false} OutcomeIsDecidedOnce(s: State, a: Action, k: nat)
    requires Inv(s) && Enabled(s, a) && IsWork(a) && k < |s.shared.queue| && Next(s, a).shared.queue != []
    ensures |Next(s, a).shared.queue| == |s.shared.queue|
    ensures var e, f := s.shared.queue[k], Next(s, a).shared.queue[k];
      && f.id == e.id && f.feed == e.feed
      && if Completes(s, a, e.id) then
           match a
           case Prepared(outcome) => HasOutcome(f, false, outcome.Refused?, outcome.Skipped?)
           case Transferred(_, failed, canceled) => HasOutcome(f, true, failed, canceled)
           case Executed(failed) => HasOutcome(f, true, failed, false)
           case _ => false
         else HasOutcome(f, e.downloaded, e.failed, e.canceled)
  {
    hide Frees, First, OnePerFeed, NothingDangles;
    assert EntryOk(s, s.shared.queue[k]);
  }

  // ---------------------------------------------------------------- progress

  /** The steps that do not bring new work. */
  predicate IsWork(a: Action) {
    !a.QueueUpdates? && !a.AutoUpdate?
  }

  /** How many steps the entry is away from being finished, at most. */
  function Weight(s: State, e: Entry): nat {
    if !e.inProgress then 6
    else if !Done(e) then (if e.id in s.transfers then 4 else 5)
    else if !e.finished then (if s.inserter == Holding(e.id) then 2 else 3)
    else 0
  }

  function Sum(s: State, queue: seq<Entry>): nat {
    if queue == [] then 0 else Sum(s, queue[..|queue| - 1]) + Weight(s, queue[|queue| - 1])
  }

  function Measure(s: State): nat {
    Sum(s, s.shared.queue) + (if s.inserter.Examining? then 1 else 0) + s.callers
  }

  lemma {:induction false} SumSame(s: State, t: State, queue: seq<Entry>)
    requires forall k :: 0 <= k < |queue| ==> Weight(t, queue[k]) == Weight(s, queue[k])
    ensures Sum(t, queue) == Sum(s, queue)
    decreases |queue|
  {
    if queue != [] {
      SumSame(s, t, queue[..|queue| - 1]);
    }
  }

  lemma {:induction false} SumChanges(s: State, t: State, q: seq<Entry>, r: seq<Entry>, k: nat)
    requires k < |q| == |r|
    requires forall j :: 0 <= j < |q| && j != k ==> q[j] == r[j] && Weight(t, r[j]) == Weight(s, q[j])
    ensures Sum(t, r) - Weight(t, r[k]) == Sum(s, q) - Weight(s, q[k])
    decreases |q|
  {
    var n := |q| - 1;
    if k == n {
      assert q[..n] == r[..n];
      SumSame(s, t, q[..n]);
    } else {
      SumChanges(s, t, q[..n], r[..n], k);
    }
  }

  lemma {:induction false} EntryStepLowers(s: State, t: State, k: nat)
    requires Ordered(s.shared.queue, s.shared.next)
    requires k < |s.shared.queue| == |t.shared.queue| && t.shared.queue[k].id == s.shared.queue[k].id
    requires forall j :: 0 <= j < |s.shared.queue| && j != k ==> t.shared.queue[j] == s.shared.queue[j]
    requires forall id: nat :: id != s.shared.queue[k].id ==>
      (id in t.transfers <==> id in s.transfers) && (t.inserter == Holding(id) <==> s.inserter == Holding(id))
    requires t.callers == s.callers
    requires Weight(t, t.shared.queue[k]) + (if t.inserter.Examining? then 1 else 0)
      < Weight(s, s.shared.queue[k]) + (if s.inserter.Examining? then 1 else 0)
    ensures Measure(t) < Measure(s)
  {
    hide Sum;
    SumChanges(s, t, s.shared.queue, t.shared.queue, k);
  }

  lemma {:induction false} ExamineLowers(s: State, t: State)
    requires t.shared == Examine(s.shared) && t.transfers == s.transfers
    requires (s.callers > 0 && t.callers == s.callers - 1 && t.inserter == s.inserter)
      || (s.inserter.Examining? && t.callers == s.callers && t.inserter == Idle)
    ensures Measure(t) < Measure(s)
  {
    if t.shared.queue != [] {
      SumSame(s, t, s.shared.queue);
    }
  }

  lemma {:induction false} PullLowers(s: State, w: Worker)
    requires Inv(s) && Enabled(s, PullBy(w))
    ensures Measure(Next(s, PullBy(w))) < Measure(s)
  {
    var k := First(s.shared.queue, w);
    assert EntryOk(s, s.shared.queue[k]);
    EntryStepLowers(s, Next(s, PullBy(w)), k);
  }

  lemma {:induction false} PreparedLowers(s: State, outcome: Preparation)
    requires Inv(s) && Enabled(s, Prepared(outcome))
    ensures Measure(Next(s, Prepared(outcome))) < Measure(s)
  {
    assert Held(s, s.downloader.id);
    var k := WhereHeld(s, s.downloader.id);
    EntryStepLowers(s, Next(s, Prepared(outcome)), k);
  }

  lemma {:induction false} TransferredLowers(s: State, id: nat, failed: bool, canceled: bool)
    requires Inv(s) && Enabled(s, Transferred(id, failed, canceled))
    ensures Measure(Next(s, Transferred(id, failed, canceled))) < Measure(s)
  {
    assert Held(s, id);
    var k := WhereHeld(s, id);
    EntryStepLowers(s, Next(s, Transferred(id, failed, canceled)), k);
  }

  lemma {:induction false} ExecutedLowers(s: State, failed: bool)
    requires Inv(s) && Enabled(s, Executed(failed))
    ensures Measure(Next(s, Executed(failed))) < Measure(s)
  {
    assert Held(s, s.executor.id);
    var k := WhereHeld(s, s.executor.id);
    EntryStepLowers(s, Next(s, Executed(failed)), k);
  }

  lemma {:induction false} InsertedLowers(s: State)
    requires Inv(s) && Enabled(s, Inserted)
    ensures Measure(Next(s, Inserted)) < Measure(s)
  {
    assert Held(s, s.inserter.id);
    var k := WhereHeld(s, s.inserter.id);
    EntryStepLowers(s, Next(s, Inserted), k);
  }

  /** Every step that brings no new work lowers the measure. */
  lemma {:induction false} StepLowers(s: State, a: Action)
    requires Inv(s) && Enabled(s, a) && IsWork(a)
    ensures Measure(Next(s, a)) < Measure(s)
  {
    hide Examine, Measure, Inv, First, Complete, Finish;
    match a
    case CallerExamines => ExamineLowers(s, Next(s, a));
    case InserterExamines => ExamineLowers(s, Next(s, a));
    case PullBy(w) => PullLowers(s, w);
    case Prepared(outcome) => PreparedLowers(s, outcome);
    case Transferred(id, failed, canceled) => TransferredLowers(s, id, failed, canceled);
    case Executed(failed) => ExecutedLowers(s, failed);
    case Inserted => InsertedLowers(s);
  }

  /** While the queue is not empty, some thread has something to do. */
  lemma {:induction false} SomeStepEnabled(s: State)
    requires Inv(s) && s.shared.queue != []
    ensures exists a :: IsWork(a) && Enabled(s, a)
  {
    if s.callers > 0 {
      assert Enabled(s, CallerExamines);
    } else if !s.inserter.Idle? {
      assert Enabled(s, Inserted) || Enabled(s, InserterExamines);
    } else if s.downloader.Holding? {
      assert Enabled(s, Prepared(Started));
    } else if s.executor.Holding? {
      assert Enabled(s, Executed(false));
    } else if id :| id in s.transfers {
      assert Enabled(s, Transferred(id, false, false));
    } else {
      var q := s.shared.queue;
      var k :| 0 <= k < |q| && !q[k].finished;
      assert EntryOk(s, q[k]);
      var w := if Done(q[k]) then Inserter else Fetcher(q[k].feed);
      assert Engages(w, q[k]);
      assert Enabled(s, PullBy(w));
    }
  }

  predicate AllWork(run: seq<Action>) {
    forall k :: 0 <= k < |run| ==> IsWork(run[k])
  }

  /** Without new work a run is bounded. */
  lemma {:induction false} RunIsBounded(s: State, run: seq<Action>)
    requires Inv(s) && Legal(s, run) && AllWork(run)
    ensures |run| + Measure(After(s, run)) <= Measure(s)
    decreases |run|
  {
    hide Inv, Measure, Enabled, Next;
    if run != [] {
      var rest := run[..|run| - 1];
      RunIsBounded(s, rest);
      AlwaysInv(s, rest);
      StepLowers(After(s, rest), run[|run| - 1]);
    }
  }

  /** Without new work the queue empties: a run that cannot go on has emptied it, and it cannot go on
      for ever. */
  lemma {:induction false} QueueEmpties(s: State, run: seq<Action>)
    requires Inv(s) && Legal(s, run) && AllWork(run)
    ensures |run| <= Measure(s)
    ensures (forall a :: IsWork(a) ==> !Enabled(After(s, run), a)) ==> After(s, run).shared.queue == []
  {
    hide Inv, Measure, Enabled;
    RunIsBounded(s, run);
    AlwaysInv(s, run);
    if After(s, run).shared.queue != [] {
      SomeStepEnabled(After(s, run));
    }
  }

  // ---------------------------------------------------------------- queue_wait_finish

  lemma {:induction false} AddFeedsLog(s: Shared, feeds: seq<Feed>)
    ensures s.log <= AddFeeds(s, feeds).log
    decreases |feeds|
  {
    if feeds != [] {
      AddFeedsLog(s, feeds[..|feeds| - 1]);
    }
  }

  lemma {:induction false} LogGrows(s: State, run: seq<Action>)
    requires Legal(s, run)
    ensures s.shared.log <= After(s, run).shared.log
    decreases |run|
  {
    hide AddFeeds, Frees, First;
    if run != [] {
      var m, a := After(s, run[..|run| - 1]), run[|run| - 1];
      LogGrows(s, run[..|run| - 1]);
      if a.QueueUpdates? { AddFeedsLog(m.shared, a.feeds); }
      if a.AutoUpdate? { AddFeedsLog(m.shared, [a.feed]); }
    }
  }

  /** The feed of a freed entry is the one it was queued for. */
  lemma {:induction false} SameFeed(early: seq<Event>, late: seq<Event>, e: Entry)
    requires early <= late && Life(early, e.id) == LifeOf(e) && IsOver(late, e.id)
    ensures Life(late, e.id) == WholeLife(e.id, e.feed)
  {
    hide Life;
    assert late == early + late[|early|..];
    LifeConcat(early, late[|early|..], e.id);
    var feed :| Life(late, e.id) == WholeLife(e.id, feed);
    assert Life(late, e.id)[0] == Queued(e.id, e.feed);
  }

  predicate WasFinished(log: seq<Event>, queue: seq<Entry>, f: Feed) {
    exists k :: 0 <= k < |queue| && queue[k].feed == f && Life(log, queue[k].id) == WholeLife(queue[k].id, f)
  }

  /** When the queue is seen empty some time after an update was asked for, every feed asked for has
      been through it, from being claimed to being finished. */
  lemma {:induction false} WaitFinish(s: State, feeds: seq<Feed>, run: seq<Action>)
    requires Inv(s) && LivesOk(s.shared) && Legal(Next(s, QueueUpdates(feeds)), run)
    requires After(Next(s, QueueUpdates(feeds)), run).shared.queue == []
    ensures var t := Next(s, QueueUpdates(feeds));
      forall k :: 0 <= k < |feeds| ==> WasFinished(After(t, run).shared.log, t.shared.queue, feeds[k])
  {
    hide Life, LifeOf, WholeLife, AddFeeds, Inv;
    var t := Next(s, QueueUpdates(feeds));
    var u := After(t, run);
    NextInv(s, QueueUpdates(feeds));
    NextLives(s, QueueUpdates(feeds));
    EveryEntryLivesOnce(t, run);
    LogGrows(t, run);
    QueuedAreListed(s, feeds);
    forall k | 0 <= k < |feeds| ensures WasFinished(u.shared.log, t.shared.queue, feeds[k]) {
      var j :| 0 <= j < |t.shared.queue| && t.shared.queue[j].feed == feeds[k];
      var e := t.shared.queue[j];
      StillCounted(t, run, j);
      SameFeed(t.shared.log, u.shared.log, e);
    }
  }

  lemma {:induction false} QueuedAreListed(s: State, feeds: seq<Feed>)
    requires Inv(s)
    ensures forall k :: 0 <= k < |feeds| ==> Listed(Next(s, QueueUpdates(feeds)).shared.queue, feeds[k])
  {
    AddFeedsKeep(s.shared, feeds);
  }

  lemma {:induction false} AddFeedsNext(s: Shared, feeds: seq<Feed>)
    ensures s.next <= AddFeeds(s, feeds).next
    decreases |feeds|
  {
    if feeds != [] {
      AddFeedsNext(s, feeds[..|feeds| - 1]);
    }
  }

  lemma {:induction false} StillCounted(s: State, run: seq<Action>, k: nat)
    requires Inv(s) && Legal(s, run) && k < |s.shared.queue|
    ensures s.shared.queue[k].id < After(s, run).shared.next
    decreases |run|
  {
    hide AddFeeds, Frees, First, OnePerFeed, EntriesOk, NothingDangles, BatchOk;
    if run != [] {
      var m, a := After(s, run[..|run| - 1]), run[|run| - 1];
      StillCounted(s, run[..|run| - 1], k);
      if a.QueueUpdates? { AddFeedsNext(m.shared, a.feeds); }
      if a.AutoUpdate? { AddFeedsNext(m.shared, [a.feed]); }
    }
  }
}
