/** The queue itself, changed in place: `src/queue.c` and what the workers write to their entries. */
module FeedQueue {
  import opened QueueModel

  const NOT_MODIFIED := 304
  const TOO_MANY_REQUESTS := 429

  datatype Tally = Tally(finished: nat, canceled: nat, failed: nat)

  /** `quiet` are the feeds whose errors are suppressed. */
  function Count(queue: seq<Entry>, quiet: set<Feed>): Tally {
    if queue == [] then Tally(0, 0, 0)
    else
      var t, e := Count(queue[..|queue| - 1], quiet), queue[|queue| - 1];
      Tally(t.finished + if e.finished then 1 else 0,
            t.canceled + if e.canceled then 1 else 0,
            t.failed + if e.failed && e.feed !in quiet then 1 else 0)
  }

  /** Comparing the counter with the length tells whether everything is finished. */
  lemma {:induction false} CountTellsEnd(queue: seq<Entry>, quiet: set<Feed>)
    ensures Count(queue, quiet).finished <= |queue|
    ensures Count(queue, quiet).finished == |queue| <==> AllFinished(queue)
    decreases |queue|
  {
    if queue != [] {
      var n := |queue| - 1;
      CountTellsEnd(queue[..n], quiet);
      assert AllFinished(queue) <==> AllFinished(queue[..n]) && queue[n].finished by {
        assert forall k :: 0 <= k < n ==> queue[..n][k] == queue[k];
      }
    }
  }

  /** The places of the entries of some kind. */
  function PlacesOf(queue: seq<Entry>, kind: Entry -> bool): set<nat> {
    set k | 0 <= k < |queue| && kind(queue[k])
  }

  lemma {:induction false} OnePlaceMore(queue: seq<Entry>, kind: Entry -> bool)
    requires queue != []
    ensures var n := |queue| - 1;
      |PlacesOf(queue, kind)| == |PlacesOf(queue[..n], kind)| + if kind(queue[n]) then 1 else 0
  {
    var n := |queue| - 1;
    var front := queue[..n];
    assert PlacesOf(queue, kind) == PlacesOf(front, kind) + if kind(queue[n]) then {n} else {};
  }

  /** The counters count the entries. */
  lemma {:induction false} CountsEntries(queue: seq<Entry>, quiet: set<Feed>)
    ensures var t := Count(queue, quiet);
      && t.finished == |PlacesOf(queue, (e: Entry) => e.finished)|
      && t.canceled == |PlacesOf(queue, (e: Entry) => e.canceled)|
      && t.failed == |PlacesOf(queue, (e: Entry) => e.failed && e.feed !in quiet)|
    decreases |queue|
  {
    hide PlacesOf;
    if queue == [] {
      NoPlaces((e: Entry) => e.finished);
      NoPlaces((e: Entry) => e.canceled);
      NoPlaces((e: Entry) => e.failed && e.feed !in quiet);
    } else {
      CountsEntries(queue[..|queue| - 1], quiet);
      OnePlaceMore(queue, (e: Entry) => e.finished);
      OnePlaceMore(queue, (e: Entry) => e.canceled);
      OnePlaceMore(queue, (e: Entry) => e.failed && e.feed !in quiet);
    }
  }

  lemma {:induction false} NoPlaces(kind: Entry -> bool)
    ensures PlacesOf([], kind) == {}
  {
  }

  /** What the status line says. */
  datatype Status = Progress(finished: nat, total: nat) | Failures(n: nat) | UpToDate(n: nat) | Clean

  function StatusOf(queue: seq<Entry>, quiet: set<Feed>): Status {
    var t := Count(queue, quiet);
    if !AllFinished(queue) then Progress(t.finished, |queue|)
    else if t.failed > 0 then Failures(t.failed)
    else if t.canceled > 0 then UpToDate(t.canceled)
    else Clean
  }

  /** While an entry is not finished the status tells how many are; afterwards it tells of the failures that are
      not suppressed, or else of the feeds that were up to date, and is clean only without either. */
  lemma {:induction false} StatusTells(queue: seq<Entry>, quiet: set<Feed>)
    ensures var failed := PlacesOf(queue, (e: Entry) => e.failed && e.feed !in quiet);
      var canceled := PlacesOf(queue, (e: Entry) => e.canceled);
      match StatusOf(queue, quiet)
      case Progress(n, total) => n == |PlacesOf(queue, (e: Entry) => e.finished)| < total == |queue|
      case Failures(n) => AllFinished(queue) && n == |failed| > 0
      case UpToDate(n) => AllFinished(queue) && failed == {} && n == |canceled| > 0
      case Clean => AllFinished(queue) && failed == {} && canceled == {}
  {
    hide PlacesOf, Count, AllFinished;
    CountsEntries(queue, quiet);
    CountTellsEnd(queue, quiet);
  }

  /** What the preparation of a download asks the configuration, the database and the libraries for. */
  datatype Request = Request(
    respectExpires: bool, expires: int,
    respectTtl: bool, downloaded: int, ttl: int,
    updateDate: int,
    sendModified: bool, lastModified: int,
    curlReady: bool, headersReady: bool, proxyReady: bool)

  /** The stored copy is still good, by the header of the last response or by the feed itself. */
  predicate FreshByHeader(r: Request) {
    r.respectExpires && r.expires > 0 && r.updateDate < r.expires
  }

  predicate FreshByTtl(r: Request) {
    r.respectTtl && r.downloaded > 0 && r.ttl > 0 && r.downloaded + r.ttl > r.updateDate
  }

  /** The database could give all the dates that are asked for. */
  predicate ExpiresKnown(r: Request) {
    r.respectExpires ==> r.expires >= 0
  }

  predicate TtlKnown(r: Request) {
    r.respectTtl ==> r.downloaded >= 0 && r.ttl >= 0
  }

  predicate Transferable(r: Request) {
    r.curlReady && r.headersReady && r.proxyReady && (r.sendModified ==> r.lastModified >= 0)
  }

  class FeedQueue {
    var queue: seq<Entry>
    var open: bool
    var next: nat
    var dates: map<Feed, int>
    ghost var log: seq<Event>

    ghost function Contents(): Shared
      reads this
    {
      Shared(queue, open, next, log)
    }

    constructor ()
      ensures Contents() == START.shared && dates == map[]
    {
      queue, open, next, dates, log := [], false, 0, map[], [];
    }

    /** The first entry that meets the worker's condition; a fetcher marks it as its own. */
    method QueuePull(w: Worker) returns (found: bool, target: Entry)
      modifies `queue, `log
      ensures Contents() == Pull(old(Contents()), w)
      ensures found <==> First(old(queue), w) < |old(queue)|
      ensures found ==> target == queue[First(old(queue), w)]
    {
      var j := 0;
      while j < |queue|
        invariant 0 <= j <= |queue| && queue == old(queue) && log == old(log)
        invariant First(queue, w) == j + First(queue[j..], w)
      {
        assert queue[j..][1..] == queue[j + 1..];
        if Engages(w, queue[j]) {
          target := Engaged(w, queue[j]);
          queue := queue[j := target];
          if !w.Inserter? {
            log := log + [Claimed(target.id, w)];
          }
          return true, target;
        }
        j := j + 1;
      }
      return false, NewEntry(0, Feed(0, ""));
    }

    /** Queues the feeds that are not there yet and stamps them with the time. Without a working clock
        nothing is queued. The examination that follows is a step of its own. */
    method QueueUpdates(feeds: seq<Feed>, time: int)
      modifies `queue, `open, `next, `dates, `log
      ensures Contents() == if time <= 0 then old(Contents()) else Update(old(Contents()), feeds)
      ensures time <= 0 ==> dates == old(dates)
      ensures time > 0 ==> dates.Keys == old(dates).Keys + set f | f in feeds && !Listed(old(queue), f)
      ensures time > 0 ==> forall f :: f in dates ==>
        dates[f] == if f in feeds && !Listed(old(queue), f) then time else old(dates)[f]
    {
      hide Listed;
      if time <= 0 {
        return;
      }
      var isNew := queue == [];
      for i := 0 to |feeds|
        invariant Contents() == AddFeeds(old(Contents()), feeds[..i])
        invariant dates.Keys == old(dates).Keys + set f | f in feeds[..i] && !Listed(old(queue), f)
        invariant forall f :: Listed(queue, f) <==> Listed(old(queue), f) || f in feeds[..i]
        invariant forall f :: f in dates ==>
          dates[f] == if f in feeds[..i] && !Listed(old(queue), f) then time else old(dates)[f]
      {
        assert feeds[..i + 1][..i] == feeds[..i];
        assert forall f :: f in feeds[..i + 1] <==> f in feeds[..i] || f == feeds[i];
        var there := Find(feeds[i]);
        ListedAfter(Contents(), feeds[i]);
        if there {
          continue;
        }
        dates := dates[feeds[i] := time];
        queue := [NewEntry(next, feeds[i])] + queue;
        log := log + [Queued(next, feeds[i])];
        next := next + 1;
      }
      assert feeds[..|feeds|] == feeds;
      if isNew {
        open := true;
        log := log + [Begun];
      }
    }

    method Find(f: Feed) returns (there: bool)
      ensures there <==> Listed(queue, f)
    {
      var j := 0;
      while j < |queue| && queue[j].feed != f
        invariant 0 <= j <= |queue| && forall k :: 0 <= k < j ==> queue[k].feed != f
      {
        j := j + 1;
      }
      return j < |queue|;
    }

    /** When everything is finished the transaction is committed and the entries are freed. */
    method QueueExamine(quiet: set<Feed>) returns (status: Status)
      modifies `queue, `open, `log
      ensures Contents() == Examine(old(Contents()))
      ensures status == StatusOf(old(queue), quiet)
    {
      var length, failures, cancelations, finished := 0, 0, 0, 0;
      for j := 0 to |queue|
        invariant length == j && Count(queue[..j], quiet) == Tally(finished, cancelations, failures)
      {
        assert queue[..j + 1][..j] == queue[..j];
        length := length + 1;
        if queue[j].finished {
          finished := finished + 1;
        }
        if queue[j].canceled {
          cancelations := cancelations + 1;
        }
        if queue[j].failed && queue[j].feed !in quiet {
          failures := failures + 1;
        }
      }
      assert queue[..|queue|] == queue;
      CountTellsEnd(queue, quiet);
      status := Progress(finished, length);
      if finished == length {
        if failures > 0 {
          status := Failures(failures);
        } else if cancelations > 0 {
          status := UpToDate(cancelations);
        } else {
          status := Clean;
        }
        open := false;
        log := log + [Committed] + Frees(queue);
        queue := [];
      }
    }

    // -------------------------------------------------------------- what the workers write

    /** `prepare_feed_update_state_for_download`: a feed whose stored copy is still good is skipped, one
        with unknown dates or without the means for a transfer is refused. */
    method Prepare(id: nat, r: Request) returns (outcome: Preparation)
      modifies `queue, `log
      ensures outcome.Skipped? <==> FreshByHeader(r) || (ExpiresKnown(r) && TtlKnown(r) && FreshByTtl(r))
      ensures outcome.Started? <==>
        ExpiresKnown(r) && !FreshByHeader(r) && TtlKnown(r) && !FreshByTtl(r) && Transferable(r)
      ensures outcome.Started? ==> Contents() == old(Contents())
      ensures !outcome.Started? ==>
        Contents() == Complete(old(Contents()), id, false, outcome.Refused?, outcome.Skipped?)
    {
      outcome := Started;
      if r.respectExpires {
        if r.expires < 0 {
          outcome := Refused;
        } else if r.expires > 0 && r.updateDate < r.expires {
          outcome := Skipped;
        }
      }
      if outcome.Started? && r.respectTtl {
        if r.downloaded < 0 || r.ttl < 0 {
          outcome := Refused;
        } else if r.downloaded > 0 && r.ttl > 0 && r.downloaded + r.ttl > r.updateDate {
          outcome := Skipped;
        }
      }
      if outcome.Started? {
        if !r.curlReady || !r.headersReady || (r.sendModified && r.lastModified < 0) || !r.proxyReady {
          outcome := Refused;
        }
      }
      match outcome
      case Started =>
      case Skipped =>
        queue := RaiseAt(queue, id, Flags(false, false, true, false));
        log := log + [Completed(id)];
      case Refused =>
        queue := RaiseAt(queue, id, Flags(false, true, false, false));
        log := log + [Completed(id)];
    }

    /** The end of a transfer; `parsed` is what the parser says in its final call. */
    method TransferDone(id: nat, response: nat, ok: bool, parsed: bool)
      modifies `queue, `log
      ensures var canceled := response == NOT_MODIFIED || response == TOO_MANY_REQUESTS;
        Contents() == Complete(old(Contents()), id, true, !ok || (!canceled && !parsed), canceled)
    {
      var canceled, failed := false, false;
      if response == NOT_MODIFIED {
        canceled := true;
      } else if response == TOO_MANY_REQUESTS {
        canceled := true;
      }
      if !ok {
        failed := true;
      }
      if !failed && !canceled {
        failed := !parsed;
      }
      queue := RaiseAt(queue, id, Flags(true, failed, canceled, false));
      log := log + [Completed(id)];
    }

    method Execute(id: nat, ok: bool)
      modifies `queue, `log
      ensures Contents() == Complete(old(Contents()), id, true, !ok, false)
    {
      queue := RaiseAt(queue, id, Flags(true, !ok, false, false));
      log := log + [Completed(id)];
    }

    method Insert(id: nat)
      modifies `queue, `log
      ensures Contents() == Finish(old(Contents()), id)
    {
      queue := RaiseAt(queue, id, Flags(false, false, false, true));
      log := log + [Finished(id)];
    }
  }

  lemma {:induction false} ListedAfter(s: Shared, f: Feed)
    ensures forall g :: Listed(AddFeed(s, f).queue, g) <==> Listed(s.queue, g) || g == f
  {
    var t := AddFeed(s, f);
    if !Listed(s.queue, f) {
      assert t.queue[0].feed == f;
      forall g ensures Listed(t.queue, g) <==> Listed(s.queue, g) || g == f {
        if k :| 0 <= k < |s.queue| && s.queue[k].feed == g {
          assert t.queue[k + 1].feed == g;
        }
        if k :| 0 <= k < |t.queue| && t.queue[k].feed == g {
          assert k > 0 ==> s.queue[k - 1].feed == g;
        }
      }
    }
  }
}
