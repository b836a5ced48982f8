/** The feed update protocol of `src/queue.c`, `src/downloader.c`, `src/executor.c` and
    `src/inserter.c` as a state machine. Every step is what one thread does under the queue lock, or
    what it does to an entry that only it holds. */
module QueueModel {

  /** A feed is known by its place in memory; `number` stands for it. */
  datatype Feed = Feed(number: nat, url: string)

  /** An entry of the queue. `id` stands for its place in memory; places are not used twice. */
  datatype Entry = Entry(id: nat, feed: Feed, inProgress: bool, downloaded: bool, failed: bool,
                         canceled: bool, finished: bool)

  datatype Worker = Downloader | Executor | Inserter

  predicate IsCommand(f: Feed) {
    f.url != "" && f.url[0] == '$'
  }

  /** Who has to fetch the feed. */
  function Fetcher(f: Feed): Worker {
    if IsCommand(f) then Executor else Downloader
  }

  /** The entry has its outcome. */
  predicate Done(e: Entry) {
    e.downloaded || e.failed || e.canceled
  }

  /** The conditions under which the workers take an entry. */
  predicate Engages(w: Worker, e: Entry) {
    !e.finished &&
    match w
    case Downloader => !e.inProgress && !IsCommand(e.feed)
    case Executor => !e.inProgress && IsCommand(e.feed)
    case Inserter => Done(e)
  }

  function Engaged(w: Worker, e: Entry): Entry {
    if w.Inserter? then e else e.(inProgress := true)
  }

  /** The first entry that the worker takes, or the length of the queue. */
  function First(queue: seq<Entry>, w: Worker): (k: nat)
    ensures k <= |queue| && (k < |queue| ==> Engages(w, queue[k]))
    ensures forall j :: 0 <= j < k ==> !Engages(w, queue[j])
  {
    if queue == [] || Engages(w, queue[0]) then 0 else First(queue[1..], w) + 1
  }

  // ---------------------------------------------------------------- the queue

  /** What happened to the entries, and what the database was asked for. The inserter has written the data
      of an entry when it is finished. */
  datatype Event =
    | Queued(id: nat, feed: Feed)
    | Claimed(id: nat, worker: Worker)
    | Completed(id: nat)
    | Finished(id: nat)
    | Freed(id: nat)
    | Begun
    | Committed

  predicate About(e: Event, id: nat) {
    !e.Begun? && !e.Committed? && e.id == id
  }

  /** What the lock protects: the list, whether a transaction is open, and the history. */
  datatype Shared = Shared(queue: seq<Entry>, open: bool, next: nat, log: seq<Event>)

  predicate Listed(queue: seq<Entry>, f: Feed) {
    exists k :: 0 <= k < |queue| && queue[k].feed == f
  }

  predicate AllFinished(queue: seq<Entry>) {
    forall k :: 0 <= k < |queue| ==> queue[k].finished
  }

  function NewEntry(id: nat, f: Feed): Entry {
    Entry(id, f, false, false, false, false, false)
  }

  function AddFeed(s: Shared, f: Feed): Shared {
    if Listed(s.queue, f) then s
    else s.(queue := [NewEntry(s.next, f)] + s.queue, next := s.next + 1, log := s.log + [Queued(s.next, f)])
  }

  function AddFeeds(s: Shared, feeds: seq<Feed>): Shared {
    if feeds == [] then s else AddFeed(AddFeeds(s, feeds[..|feeds| - 1]), feeds[|feeds| - 1])
  }

  /** `queue_updates` under the lock. */
  function Update(s: Shared, feeds: seq<Feed>): Shared {
    var t := AddFeeds(s, feeds);
    if s.queue == [] then t.(open := true, log := t.log + [Begun]) else t
  }

  function Frees(queue: seq<Entry>): (log: seq<Event>) {
    if queue == [] then [] else Frees(queue[..|queue| - 1]) + [Freed(queue[|queue| - 1].id)]
  }

  /** `queue_examine`: when everything is finished, the transaction is committed and the queue freed. */
  function Examine(s: Shared): Shared {
    if AllFinished(s.queue) then Shared([], false, s.next, s.log + [Committed] + Frees(s.queue)) else s
  }

  /** `queue_pull`. */
  function Pull(s: Shared, w: Worker): Shared {
    var k := First(s.queue, w);
    if k == |s.queue| || w.Inserter? then s
    else s.(queue := s.queue[k := Engaged(w, s.queue[k])], log := s.log + [Claimed(s.queue[k].id, w)])
  }

  datatype Flags = Flags(downloaded: bool, failed: bool, canceled: bool, finished: bool)

  function Raise(e: Entry, f: Flags): Entry {
    e.(downloaded := e.downloaded || f.downloaded, failed := e.failed || f.failed,
       canceled := e.canceled || f.canceled, finished := e.finished || f.finished)
  }

  /** The entry that a worker holds gets some flags. */
  function RaiseAt(queue: seq<Entry>, id: nat, f: Flags): (r: seq<Entry>)
    ensures |r| == |queue|
    ensures forall k :: 0 <= k < |r| ==> r[k] == if queue[k].id == id then Raise(queue[k], f) else queue[k]
  {
    seq(|queue|, k requires 0 <= k < |queue| => if queue[k].id == id then Raise(queue[k], f) else queue[k])
  }

  function Complete(s: Shared, id: nat, downloaded: bool, failed: bool, canceled: bool): Shared {
    s.(queue := RaiseAt(s.queue, id, Flags(downloaded, failed, canceled, false)), log := s.log + [Completed(id)])
  }

  function Finish(s: Shared, id: nat): Shared {
    s.(queue := RaiseAt(s.queue, id, Flags(false, false, false, true)), log := s.log + [Finished(id)])
  }

  // ---------------------------------------------------------------- the threads

  /** Where a worker is: about to pull, working on the entry it pulled, or about to examine the queue. */
  datatype Place = Idle | Holding(id: nat) | Examining

  /** `transfers` are the downloads under way; `callers` counts the other threads that are in
      `queue_updates`, past the lock and before the examination. */
  datatype State = State(shared: Shared, downloader: Place, transfers: set<nat>, executor: Place,
                         inserter: Place, callers: nat)

  const START: State := State(Shared([], false, 0, []), Idle, {}, Idle, Idle, 0)

  datatype Preparation = Started | Skipped | Refused

  datatype Action =
    | QueueUpdates(feeds: seq<Feed>)
    | AutoUpdate(feed: Feed)
    | CallerExamines
    | PullBy(worker: Worker)
    | Prepared(outcome: Preparation)
    | Transferred(id: nat, failed: bool, canceled: bool)
    | Executed(failed: bool)
    | Inserted
    | InserterExamines

  function PlaceOf(s: State, w: Worker): Place {
    match w
    case Downloader => s.downloader
    case Executor => s.executor
    case Inserter => s.inserter
  }

  predicate Enabled(s: State, a: Action) {
    match a
    case QueueUpdates(_) => true
    case AutoUpdate(_) => s.inserter.Idle?
    case CallerExamines => s.callers > 0
    case PullBy(w) => PlaceOf(s, w).Idle? && First(s.shared.queue, w) < |s.shared.queue|
    case Prepared(_) => s.downloader.Holding?
    case Transferred(id, _, _) => s.downloader.Idle? && id in s.transfers
    case Executed(_) => s.executor.Holding?
    case Inserted => s.inserter.Holding?
    case InserterExamines => s.inserter.Examining?
  }

  function AfterPull(s: State, w: Worker): State
    requires First(s.shared.queue, w) < |s.shared.queue|
  {
    var id := s.shared.queue[First(s.shared.queue, w)].id;
    var t := s.(shared := Pull(s.shared, w));
    match w
    case Downloader => t.(downloader := Holding(id))
    case Executor => t.(executor := Holding(id))
    case Inserter => t.(inserter := Holding(id))
  }

  function AfterPreparation(s: State, outcome: Preparation): State
    requires s.downloader.Holding?
  {
    var id := s.downloader.id;
    match outcome
    case Started => s.(downloader := Idle, transfers := s.transfers + {id})
    case Skipped => s.(downloader := Idle, shared := Complete(s.shared, id, false, false, true))
    case Refused => s.(downloader := Idle, shared := Complete(s.shared, id, false, true, false))
  }

  function Next(s: State, a: Action): State
    requires Enabled(s, a)
  {
    match a
    case QueueUpdates(feeds) => s.(shared := Update(s.shared, feeds), callers := s.callers + 1)
    case AutoUpdate(feed) => s.(shared := Update(s.shared, [feed]), inserter := Examining)
    case CallerExamines => s.(shared := Examine(s.shared), callers := s.callers - 1)
    case PullBy(w) => AfterPull(s, w)
    case Prepared(outcome) => AfterPreparation(s, outcome)
    case Transferred(id, failed, canceled) =>
      s.(transfers := s.transfers - {id}, shared := Complete(s.shared, id, true, failed, canceled))
    case Executed(failed) => s.(executor := Idle, shared := Complete(s.shared, s.executor.id, true, failed, false))
    case Inserted => s.(inserter := Examining, shared := Finish(s.shared, s.inserter.id))
    case InserterExamines => s.(inserter := Idle, shared := Examine(s.shared))
  }

  /** The actions happen one after another, each when it can. */
  predicate Legal(s: State, run: seq<Action>)
    decreases |run|, 0
  {
    run == [] || (Legal(s, run[..|run| - 1]) && Enabled(After(s, run[..|run| - 1]), run[|run| - 1]))
  }

  function After(s: State, run: seq<Action>): State
    requires Legal(s, run)
    decreases |run|, 1
  {
    if run == [] then s else Next(After(s, run[..|run| - 1]), run[|run| - 1])
  }

  // ---------------------------------------------------------------- what holds all the time

  predicate Present(queue: seq<Entry>, id: nat) {
    exists k :: 0 <= k < |queue| && queue[k].id == id
  }

  /** New entries come first, and places are not used twice. */
  predicate Ordered(queue: seq<Entry>, next: nat) {
    && (forall k :: 0 <= k < |queue| ==> queue[k].id < next)
    && (forall j, k :: 0 <= j < k < |queue| ==> queue[j].id > queue[k].id)
  }

  /** A feed has at most one entry. */
  predicate OnePerFeed(queue: seq<Entry>) {
    forall j, k :: 0 <= j < k < |queue| ==> queue[j].feed != queue[k].feed
  }

  predicate HeldByDownloader(s: State, id: nat) {
    s.downloader == Holding(id) || id in s.transfers
  }

  predicate Held(s: State, id: nat) {
    HeldByDownloader(s, id) || s.executor == Holding(id) || s.inserter == Holding(id)
  }

  /** An entry is claimed and has no outcome exactly while its fetcher holds it. */
  predicate EntryOk(s: State, e: Entry) {
    && (e.finished ==> Done(e))
    && (Done(e) ==> e.inProgress)
    && (HeldByDownloader(s, e.id) <==> e.inProgress && !Done(e) && !IsCommand(e.feed))
    && (s.executor == Holding(e.id) <==> e.inProgress && !Done(e) && IsCommand(e.feed))
    && (s.inserter == Holding(e.id) ==> Done(e) && !e.finished)
  }

  predicate EntriesOk(s: State) {
    forall k :: 0 <= k < |s.shared.queue| ==> EntryOk(s, s.shared.queue[k])
  }

  /** Nobody holds an entry that was freed. */
  ghost predicate NothingDangles(s: State) {
    forall id: nat :: Held(s, id) ==> Present(s.shared.queue, id)
  }

  predicate PlacesOk(s: State) {
    && !s.downloader.Examining? && !s.executor.Examining?
    && (s.downloader.Holding? ==> s.downloader.id !in s.transfers)
  }

  /** The changes of a batch are in a transaction, and the last of them gets the batch examined. Without
      entries a transaction is open only until somebody examines the queue. */
  predicate BatchOk(s: State) {
    && (s.shared.queue != [] ==> s.shared.open)
    && (s.shared.open && s.shared.queue == [] ==> s.inserter.Examining? || s.callers > 0)
    && (s.shared.queue != [] && AllFinished(s.shared.queue) ==> s.inserter.Examining? || s.callers > 0)
  }

  ghost predicate Inv(s: State) {
    && Ordered(s.shared.queue, s.shared.next)
    && OnePerFeed(s.shared.queue)
    && EntriesOk(s)
    && NothingDangles(s)
    && PlacesOk(s)
    && BatchOk(s)
  }

  // ---------------------------------------------------------------- the life of an entry

  function Life(log: seq<Event>, id: nat): (r: seq<Event>) {
    if log == [] then []
    else Life(log[..|log| - 1], id) + if About(log[|log| - 1], id) then [log[|log| - 1]] else []
  }

  /** What must have happened to an entry, and nothing else. */
  function LifeOf(e: Entry): seq<Event> {
    [Queued(e.id, e.feed)]
    + (if e.inProgress then [Claimed(e.id, Fetcher(e.feed))] else [])
    + (if Done(e) then [Completed(e.id)] else [])
    + (if e.finished then [Finished(e.id)] else [])
  }

  function WholeLife(id: nat, feed: Feed): seq<Event> {
    [Queued(id, feed), Claimed(id, Fetcher(feed)), Completed(id), Finished(id), Freed(id)]
  }

  ghost predicate IsOver(log: seq<Event>, id: nat) {
    exists feed :: Life(log, id) == WholeLife(id, feed)
  }

  ghost predicate LivesOk(s: Shared) {
    && (forall k :: 0 <= k < |s.queue| ==> Life(s.log, s.queue[k].id) == LifeOf(s.queue[k]))
    && (forall id: nat :: 0 <= id < s.next && !Present(s.queue, id) ==> IsOver(s.log, id))
    && (forall id: nat :: id >= s.next ==> Life(s.log, id) == [])
  }

  // ---------------------------------------------------------------- what the database keeps

  /** Whether a transaction is open, the entries whose data wait in it, and the entries whose data are
      stored for good. */
  datatype Database = Database(open: bool, pending: set<nat>, stored: set<nat>)

  /** A transaction is not begun twice, and without one there is nothing to commit and nothing waits. */
  function Effect(d: Database, e: Event): Database {
    match e
    case Begun => d.(open := true)
    case Committed => if d.open then Database(false, {}, d.stored + d.pending) else d
    case Finished(id) => if d.open then d.(pending := d.pending + {id}) else d.(stored := d.stored + {id})
    case _ => d
  }

  function Saved(log: seq<Event>): Database {
    if log == [] then Database(false, {}, {}) else Effect(Saved(log[..|log| - 1]), log[|log| - 1])
  }

  predicate IsFinished(queue: seq<Entry>, id: nat) {
    exists k :: 0 <= k < |queue| && queue[k].id == id && queue[k].finished
  }

  /** The data of the entries in the queue wait in the transaction from the moment they are finished, and
      are stored when the entries are gone. */
  ghost predicate SavedOk(s: Shared) {
    var d := Saved(s.log);
    && d.open == s.open
    && (forall id: nat :: id in d.pending <==> IsFinished(s.queue, id))
    && (forall id: nat :: id in d.stored <==> id < s.next && !Present(s.queue, id))
  }
}
