/** The registry of servable cubes and the loop that polls it
    (infra/cube-server/stac_higher_cube_server/registry.py and app.py).

    The database, the stores and the clock answer as they like, per sink and poll; what
    never changes is the contents of a snapshot. */
module CubeRegistry {
  import opened Basics
  import opened CubeSinks
  import opened CubeDatasets

  // What a collection's snapshot holds.
  type Contents = (string, string) -> Dataset

  // An open repository: whose it is, and which sources its reads are authorised for.
  datatype Handle = Handle(cid: string, prefixes: seq<string>)

  datatype Slot = Slot(prefixes: seq<string>, handle: Handle)

  datatype Key = Key(snapshot: string, variables: seq<string>, prefixes: seq<string>, appendDim: string)

  // A served dataset reads its chunks through the handle it was reopened with.
  datatype Served = Served(view: Dataset, via: Handle)

  datatype Entry = Entry(key: Key, snapshot: string, dataset: Served, steps: nat, openedAt: string)

  // One sink's answers in one poll; a failure is the error's type name.
  datatype Answers = Answers(
    exists_: Result<bool, string>, openRepo: Option<string>, head: Result<string, string>, openZarr: Option<string>)

  datatype Status = Opened | Unchanged | Pending | Empty

  // How one sink's refresh ends: its status, entry and cached handle.
  datatype SinkResult = SinkResult(status: Result<Status, string>, entry: Option<Entry>, slot: Option<Slot>)

  /* ---------------------------------- one sink ---------------------------------- */

  predicate Unsupported(prefixes: seq<string>) {
    exists p :: p in prefixes && !StartsWith(p, "s3://")
  }

  // `S3RepoOpener.open`, with the handle cached for the collection.
  function OpenRepo(slot: Option<Slot>, sink: Sink, a: Answers): (Result<Option<Handle>, string>, Option<Slot>)
    requires sink.SinkRow?
  {
    if sink.prefixes == [] then (Ok(None), slot)
    else if Unsupported(sink.prefixes) then (Err("UnsupportedSourceError"), slot)
    else if slot.Some? && slot.value.prefixes == sink.prefixes then (Ok(Some(slot.value.handle)), slot)
    else
      match a.exists_
      case Err(e) => (Err(e), slot)
      case Ok(false) => (Ok(None), slot)
      case Ok(true) =>
        if a.openRepo.Some? then (Err(a.openRepo.value), slot)
        else (Ok(Some(Handle(sink.cid, sink.prefixes))), Some(Slot(sink.prefixes, Handle(sink.cid, sink.prefixes))))
  }

  function KeyOf(snapshot: string, sink: Sink): Key
    requires sink.SinkRow?
  {
    Key(snapshot, sink.variables, sink.prefixes, sink.appendDim)
  }

  function StepsOf(ds: Dataset, appendDim: string): nat {
    if appendDim in ds.sizes then ds.sizes[appendDim] else 0
  }

  // The entry a successful open leaves: `None` for an empty cube.
  function OpenEntry(contents: Contents, sink: Sink, snapshot: string, handle: Handle, a: Answers, now: string): Result<Option<Entry>, string>
    requires sink.SinkRow?
  {
    var raw := contents(sink.cid, snapshot);
    if a.openZarr.Some? then Err(a.openZarr.value)
    else if StepsOf(raw, sink.appendDim) == 0 then Ok(None)
    else
      match Prepare(raw, sink.variables, sink.appendDim, sink.cid, snapshot)
      case Err(e) => Err(e)
      case Ok(view) => Ok(Some(Entry(KeyOf(snapshot, sink), snapshot, Served(view, handle), StepsOf(raw, sink.appendDim), now)))
  }

  // With a repository and the branch's snapshot at hand: reopen only when the key moved.
  function Reload(contents: Contents, entry: Option<Entry>, sink: Sink, snapshot: string, handle: Handle, a: Answers, now: string)
    : (Result<Status, string>, Option<Entry>)
    requires sink.SinkRow?
  {
    if entry.Some? && entry.value.key == KeyOf(snapshot, sink) then (Ok(Unchanged), entry)
    else
      match OpenEntry(contents, sink, snapshot, handle, a, now)
      case Err(e) => (Err(e), entry)
      case Ok(None) => (Ok(Empty), None)
      case Ok(Some(e)) => (Ok(Opened), Some(e))
  }

  // `_refresh_sink`
  function RefreshOne(contents: Contents, entry: Option<Entry>, slot: Option<Slot>, sink: Sink, a: Answers, now: string): SinkResult
    requires sink.SinkRow?
  {
    var (repo, slot') := OpenRepo(slot, sink, a);
    match repo
    case Err(e) => SinkResult(Err(e), entry, slot')
    case Ok(None) => SinkResult(Ok(Pending), None, slot')
    case Ok(Some(handle)) =>
      match a.head
      case Err(e) => SinkResult(Err(e), entry, slot')
      case Ok(snapshot) =>
        var (status, entry') := Reload(contents, entry, sink, snapshot, handle, a, now);
        SinkResult(status, entry', slot')
  }

  // Any sink; a rejected config is an error that keeps the open dataset.
  function RefreshAny(contents: Contents, entry: Option<Entry>, slot: Option<Slot>, sink: Sink, a: Answers, now: string): SinkResult {
    if sink.BadSink? then SinkResult(Err(sink.error), entry, slot) else RefreshOne(contents, entry, slot, sink, a, now)
  }

  /* ---------------------------------- one refresh ---------------------------------- */

  // A warm-up's answer that was not a 200; `None` is a request that failed.
  datatype WarmUpError = WarmUpFailed(status: Option<int>)

  datatype Registry = Registry(
    entries: map<string, Entry>, cache: map<string, Slot>,
    pending: seq<string>, empty: seq<string>, errors: map<string, string>, warmUpErrors: map<string, WarmUpError>,
    reloadError: Option<string>,
    wanted: set<string>)   // the ids of the last list that could be read

  function Unstarted(): Registry {
    Registry(map[], map[], [], [], map[], map[], None, {})
  }

  // One poll's world: every sink's answers and the clock.
  datatype World = World(answers: string -> Answers, now: string)

  // What the loop over the sinks has built so far.
  datatype Pass = Pass(
    entries: map<string, Entry>, cache: map<string, Slot>,
    reopened: seq<string>, pending: seq<string>, empty: seq<string>, errors: map<string, string>)

  function PutOrDrop<V>(m: map<string, V>, k: string, v: Option<V>): map<string, V> {
    if v.Some? then m[k := v.value] else m - {k}
  }

  function Noted(ids: seq<string>, cid: string, r: SinkResult, s: Status): seq<string> {
    if r.status == Ok(s) then ids + [cid] else ids
  }

  function PassOne(contents: Contents, p: Pass, sink: Sink, w: World): Pass {
    var cid := sink.cid;
    var r := RefreshAny(contents, Lookup(p.entries, cid), Lookup(p.cache, cid), sink, w.answers(cid), w.now);
    Pass(PutOrDrop(p.entries, cid, r.entry), PutOrDrop(p.cache, cid, r.slot),
         Noted(p.reopened, cid, r, Opened), Noted(p.pending, cid, r, Pending), Noted(p.empty, cid, r, Empty),
         if r.status.Err? then p.errors[cid := r.status.error] else p.errors)
  }

  function PassAll(contents: Contents, reg: Registry, sinks: seq<Sink>, w: World): Pass {
    if sinks == [] then Pass(reg.entries, reg.cache, [], [], [], map[])
    else PassOne(contents, PassAll(contents, reg, sinks[..|sinks| - 1], w), sinks[|sinks| - 1], w)
  }

  function WantedIds(sinks: seq<Sink>): set<string> {
    set s | s in sinks :: s.cid
  }

  function Restrict<V>(m: map<string, V>, keys: set<string>): map<string, V> {
    map k | k in m && k in keys :: m[k]
  }

  // `_refresh`: an unreadable list changes nothing but the recorded error.
  function Refresh(contents: Contents, reg: Registry, db: Result<seq<Sink>, string>, w: World): (Registry, seq<string>) {
    match db
    case Err(e) => (reg.(reloadError := Some(e)), [])
    case Ok(sinks) =>
      var p := PassAll(contents, reg, sinks, w);
      var entries := Restrict(p.entries, WantedIds(sinks));
      (Registry(entries, p.cache, p.pending, p.empty, p.errors, Restrict(reg.warmUpErrors, entries.Keys), None, WantedIds(sinks)),
       p.reopened)
  }

  /* ---------------------------------- the poll loop ---------------------------------- */

  function WarmUpResult(status: Option<int>): Option<WarmUpError> {
    if status == Some(200) then None else Some(WarmUpFailed(status))
  }

  function RecordWarmUp(reg: Registry, cid: string, status: Option<int>): Registry {
    reg.(warmUpErrors := PutOrDrop(reg.warmUpErrors, cid, WarmUpResult(status)))
  }

  // Warm up each reopened cube that is served.
  function WarmUpAll(reg: Registry, reopened: seq<string>, statuses: string -> Option<int>): Registry {
    if reopened == [] then reg
    else
      var front, cid := WarmUpAll(reg, reopened[..|reopened| - 1], statuses), reopened[|reopened| - 1];
      if cid in front.entries then RecordWarmUp(front, cid, statuses(cid)) else front
  }

  datatype Poll = Poll(db: Result<seq<Sink>, string>, world: World, statuses: string -> Option<int>)

  function PollOnce(contents: Contents, reg: Registry, poll: Poll): Registry {
    var (next, reopened) := Refresh(contents, reg, poll.db, poll.world);
    WarmUpAll(next, reopened, poll.statuses)
  }

  function Run(contents: Contents, polls: seq<Poll>): Registry {
    if polls == [] then Unstarted() else PollOnce(contents, Run(contents, polls[..|polls| - 1]), polls[|polls| - 1])
  }

  /* ---------------------------------- locality ---------------------------------- */

  ghost predicate DistinctIds(sinks: seq<Sink>) {
    forall i, j :: 0 <= i < j < |sinks| ==> sinks[i].cid != sinks[j].cid
  }

  // A sink's result from the state before the refresh: no other sink matters.
  function ResultOf(contents: Contents, reg: Registry, sink: Sink, w: World): SinkResult {
    RefreshAny(contents, Lookup(reg.entries, sink.cid), Lookup(reg.cache, sink.cid), sink, w.answers(sink.cid), w.now)
  }

  function Ends(contents: Contents, reg: Registry, w: World, s: Status): Sink -> bool {
    (sink: Sink) => ResultOf(contents, reg, sink, w).status == Ok(s)
  }

  // The ids of the sinks that end with status `s`, in list order.
  function IdsEnding(contents: Contents, reg: Registry, sinks: seq<Sink>, w: World, s: Status): seq<string> {
    Cids(Filter(sinks, Ends(contents, reg, w, s)))
  }

  lemma {:induction false} UntouchedBefore(contents: Contents, reg: Registry, sinks: seq<Sink>, w: World, cid: string)
    requires cid !in WantedIds(sinks)
    ensures Lookup(PassAll(contents, reg, sinks, w).entries, cid) == Lookup(reg.entries, cid)
    ensures Lookup(PassAll(contents, reg, sinks, w).cache, cid) == Lookup(reg.cache, cid)
    ensures cid !in PassAll(contents, reg, sinks, w).errors
  {
    if sinks != [] {
      var n := |sinks| - 1;
      assert sinks[n] in sinks;
      assert sinks == sinks[..n] + [sinks[n]];
      UntouchedBefore(contents, reg, sinks[..n], w, cid);
    }
  }

  lemma {:induction false} FreshId(sinks: seq<Sink>)
    requires DistinctIds(sinks) && sinks != []
    ensures sinks[|sinks| - 1].cid !in WantedIds(sinks[..|sinks| - 1])
  {
  }

  /** Failures and changes stay local: each sink's entry, cached handle and error come
      from that sink, its own answers and its own previous state alone. */
  lemma {:induction false} EachSinkOnItsOwn(contents: Contents, reg: Registry, sinks: seq<Sink>, w: World, sink: Sink)
    requires DistinctIds(sinks) && sink in sinks
    ensures var p, r := PassAll(contents, reg, sinks, w), ResultOf(contents, reg, sink, w);
            && Lookup(p.entries, sink.cid) == r.entry && Lookup(p.cache, sink.cid) == r.slot
            && Lookup(p.errors, sink.cid) == (if r.status.Err? then Some(r.status.error) else None)
  {
    var n := |sinks| - 1;
    var front := sinks[..n];
    assert sinks == front + [sinks[n]];
    FreshId(sinks);
    if sink == sinks[n] {
      UntouchedBefore(contents, reg, front, w, sink.cid);
    } else {
      EachSinkOnItsOwn(contents, reg, front, w, sink);
      assert sink.cid in WantedIds(front);
    }
  }

  lemma {:induction false} CidsNext(sinks: seq<Sink>, sink: Sink)
    ensures Cids(sinks + [sink]) == Cids(sinks) + [sink.cid]
  {
  }

  lemma {:induction false} NotedNext(contents: Contents, reg: Registry, sinks: seq<Sink>, w: World, s: Status)
    requires sinks != []
    ensures var n := |sinks| - 1;
            IdsEnding(contents, reg, sinks, w, s)
              == Noted(IdsEnding(contents, reg, sinks[..n], w, s), sinks[n].cid, ResultOf(contents, reg, sinks[n], w), s)
  {
    var n := |sinks| - 1;
    assert sinks == sinks[..n] + [sinks[n]];
    FilterLast(sinks[..n], sinks[n], Ends(contents, reg, w, s));
    CidsNext(Filter(sinks[..n], Ends(contents, reg, w, s)), sinks[n]);
  }

  /** The three reported lists are exactly the sinks that ended so, in list order. */
  lemma {:induction false} ListsAreTheStatuses(contents: Contents, reg: Registry, sinks: seq<Sink>, w: World)
    requires DistinctIds(sinks)
    ensures var p := PassAll(contents, reg, sinks, w);
            && p.reopened == IdsEnding(contents, reg, sinks, w, Opened)
            && p.pending == IdsEnding(contents, reg, sinks, w, Pending)
            && p.empty == IdsEnding(contents, reg, sinks, w, Empty)
  {
    if sinks != [] {
      var n := |sinks| - 1;
      ListsAreTheStatuses(contents, reg, sinks[..n], w);
      FreshId(sinks);
      UntouchedBefore(contents, reg, sinks[..n], w, sinks[n].cid);
      NotedNext(contents, reg, sinks, w, Opened);
      NotedNext(contents, reg, sinks, w, Pending);
      NotedNext(contents, reg, sinks, w, Empty);
    }
  }

  /** A failed sink keeps its entry, and an unreadable list keeps everything. */
  lemma {:induction false} FailureKeepsWhatIsServed(contents: Contents, reg: Registry, db: Result<seq<Sink>, string>, w: World)
    requires db.Ok? ==> DistinctIds(db.value)
    ensures var (next, reopened) := Refresh(contents, reg, db, w);
            if db.Err? then next == reg.(reloadError := Some(db.error)) && reopened == []
            else forall sink :: sink in db.value && ResultOf(contents, reg, sink, w).status.Err? ==>
                   Lookup(next.entries, sink.cid) == Lookup(reg.entries, sink.cid) && sink.cid in next.errors
  {
    if db.Ok? {
      forall sink | sink in db.value && ResultOf(contents, reg, sink, w).status.Err?
        ensures Lookup(Refresh(contents, reg, db, w).0.entries, sink.cid) == Lookup(reg.entries, sink.cid)
        ensures sink.cid in Refresh(contents, reg, db, w).0.errors
      {
        EachSinkOnItsOwn(contents, reg, db.value, w, sink);
        FailedKeeps(contents, Lookup(reg.entries, sink.cid), Lookup(reg.cache, sink.cid), sink, w.answers(sink.cid), w.now);
        assert sink.cid in WantedIds(db.value);
      }
    }
  }

  lemma {:induction false} FailedKeeps(contents: Contents, entry: Option<Entry>, slot: Option<Slot>, sink: Sink, a: Answers, now: string)
    requires RefreshAny(contents, entry, slot, sink, a, now).status.Err?
    ensures RefreshAny(contents, entry, slot, sink, a, now).entry == entry
  {
  }

  /** The order in which distinct sinks are listed does not matter. */
  lemma {:induction false} ListOrderIsIrrelevant(contents: Contents, reg: Registry, sinks: seq<Sink>, other: seq<Sink>, w: World)
    requires DistinctIds(sinks) && DistinctIds(other) && multiset(sinks) == multiset(other)
    ensures var p, q := PassAll(contents, reg, sinks, w), PassAll(contents, reg, other, w);
            p.entries == q.entries && p.cache == q.cache && p.errors == q.errors
    ensures Refresh(contents, reg, Ok(sinks), w).0.entries == Refresh(contents, reg, Ok(other), w).0.entries
  {
    SameElems(sinks, other);
    assert WantedIds(sinks) == WantedIds(other);
    var p, q := PassAll(contents, reg, sinks, w), PassAll(contents, reg, other, w);
    forall cid
      ensures Lookup(p.entries, cid) == Lookup(q.entries, cid)
      ensures Lookup(p.cache, cid) == Lookup(q.cache, cid)
      ensures Lookup(p.errors, cid) == Lookup(q.errors, cid)
    {
      if cid in WantedIds(sinks) {
        var sink :| sink in sinks && sink.cid == cid;
        EachSinkOnItsOwn(contents, reg, sinks, w, sink);
        EachSinkOnItsOwn(contents, reg, other, w, sink);
      } else {
        UntouchedBefore(contents, reg, sinks, w, cid);
        UntouchedBefore(contents, reg, other, w, cid);
      }
    }
    SameLookups(p.entries, q.entries);
    SameLookups(p.cache, q.cache);
    SameLookups(p.errors, q.errors);
  }

  lemma {:induction false} SameLookups<V>(a: map<string, V>, b: map<string, V>)
    requires forall k :: Lookup(a, k) == Lookup(b, k)
    ensures a == b
  {
    forall k
      ensures k in a <==> k in b
      ensures k in a ==> a[k] == b[k]
    {
      assert Lookup(a, k) == Lookup(b, k);
    }
  }

  function Fails(contents: Contents, reg: Registry, w: World): Sink -> bool {
    (sink: Sink) => ResultOf(contents, reg, sink, w).status.Err?
  }

  function Statuses(contents: Contents, reg: Registry, sinks: seq<Sink>, w: World): nat {
    |IdsEnding(contents, reg, sinks, w, Opened)| + |IdsEnding(contents, reg, sinks, w, Unchanged)|
    + |IdsEnding(contents, reg, sinks, w, Pending)| + |IdsEnding(contents, reg, sinks, w, Empty)|
  }

  lemma {:induction false} StatusesNext(contents: Contents, reg: Registry, sinks: seq<Sink>, w: World)
    requires sinks != []
    ensures var n := |sinks| - 1;
            Statuses(contents, reg, sinks, w)
              == Statuses(contents, reg, sinks[..n], w) + if ResultOf(contents, reg, sinks[n], w).status.Ok? then 1 else 0
  {
    CountNext(contents, reg, sinks, w, Opened);
    CountNext(contents, reg, sinks, w, Unchanged);
    CountNext(contents, reg, sinks, w, Pending);
    CountNext(contents, reg, sinks, w, Empty);
  }

  lemma {:induction false} CountNext(contents: Contents, reg: Registry, sinks: seq<Sink>, w: World, s: Status)
    requires sinks != []
    ensures var n := |sinks| - 1;
            |IdsEnding(contents, reg, sinks, w, s)|
              == |IdsEnding(contents, reg, sinks[..n], w, s)| + if ResultOf(contents, reg, sinks[n], w).status == Ok(s) then 1 else 0
  {
    NotedNext(contents, reg, sinks, w, s);
  }

  lemma {:induction false} ErrorsNext(contents: Contents, reg: Registry, sinks: seq<Sink>, w: World)
    requires DistinctIds(sinks) && sinks != []
    ensures var n := |sinks| - 1;
            |PassAll(contents, reg, sinks, w).errors|
              == |PassAll(contents, reg, sinks[..n], w).errors| + if ResultOf(contents, reg, sinks[n], w).status.Err? then 1 else 0
  {
    var n := |sinks| - 1;
    FreshId(sinks);
    UntouchedBefore(contents, reg, sinks[..n], w, sinks[n].cid);
  }

  /** Reopened, unchanged, pending, empty and failed partition the sinks. */
  lemma {:induction false} StatusesPartitionTheSinks(contents: Contents, reg: Registry, sinks: seq<Sink>, w: World)
    requires DistinctIds(sinks)
    ensures Statuses(contents, reg, sinks, w) + |PassAll(contents, reg, sinks, w).errors| == |sinks|
  {
    if sinks != [] {
      StatusesPartitionTheSinks(contents, reg, sinks[..|sinks| - 1], w);
      StatusesNext(contents, reg, sinks, w);
      ErrorsNext(contents, reg, sinks, w);
    }
  }

  lemma {:induction false} InIdsEnding(contents: Contents, reg: Registry, sinks: seq<Sink>, w: World, s: Status, cid: string)
    ensures cid in IdsEnding(contents, reg, sinks, w, s)
            <==> exists sink :: sink in sinks && sink.cid == cid && ResultOf(contents, reg, sink, w).status == Ok(s)
  {
    var f := Filter(sinks, Ends(contents, reg, w, s));
    if cid in Cids(f) {
      var i :| 0 <= i < |f| && Cids(f)[i] == cid;
      assert f[i] in f;
    }
    if exists sink :: sink in sinks && sink.cid == cid && ResultOf(contents, reg, sink, w).status == Ok(s) {
      var sink :| sink in sinks && sink.cid == cid && ResultOf(contents, reg, sink, w).status == Ok(s);
      assert sink in f;
      var i :| 0 <= i < |f| && f[i] == sink;
      assert Cids(f)[i] == cid;
    }
  }

  lemma {:induction false} SameIdSameSink(sinks: seq<Sink>, a: Sink, b: Sink)
    requires DistinctIds(sinks) && a in sinks && b in sinks && a.cid == b.cid
    ensures a == b
  {
    var i :| 0 <= i < |sinks| && sinks[i] == a;
    var j :| 0 <= j < |sinks| && sinks[j] == b;
  }

  /** The ids a refresh returns are exactly those whose entry it replaced. */
  lemma {:induction false} ReturnedIdsAreTheReplaced(contents: Contents, reg: Registry, sinks: seq<Sink>, w: World, cid: string)
    requires DistinctIds(sinks)
    ensures var (next, reopened) := Refresh(contents, reg, Ok(sinks), w);
            cid in reopened <==> cid in next.entries && Lookup(next.entries, cid) != Lookup(reg.entries, cid)
  {
    var p := PassAll(contents, reg, sinks, w);
    ListsAreTheStatuses(contents, reg, sinks, w);
    InIdsEnding(contents, reg, sinks, w, Opened, cid);
    if cid in WantedIds(sinks) {
      var sink :| sink in sinks && sink.cid == cid;
      EachSinkOnItsOwn(contents, reg, sinks, w, sink);
      OpenedReplaces(contents, Lookup(reg.entries, cid), Lookup(reg.cache, cid), sink, w.answers(cid), w.now);
      if cid in p.reopened {
        var other :| other in sinks && other.cid == cid && ResultOf(contents, reg, other, w).status == Ok(Opened);
        SameIdSameSink(sinks, sink, other);
      }
    } else {
      assert forall sink :: sink in sinks ==> sink.cid in WantedIds(sinks);
    }
  }

  lemma {:induction false} OpenedReplaces(contents: Contents, entry: Option<Entry>, slot: Option<Slot>, sink: Sink, a: Answers, now: string)
    ensures var r := RefreshAny(contents, entry, slot, sink, a, now);
            r.status == Ok(Opened) <==> r.entry.Some? && r.entry != entry
  {
  }

  /* ---------------------------------- who ends how ---------------------------------- */

  // Every recorded prefix is an S3 one.
  ghost predicate Supported(sink: Sink)
    requires sink.SinkRow?
  {
    forall p :: p in sink.prefixes ==> "s3://" <= p
  }

  ghost predicate CachedFor(slot: Option<Slot>, sink: Sink)
    requires sink.SinkRow?
  {
    slot.Some? && slot.value.prefixes == sink.prefixes
  }

  // The refresh gets as far as asking the store whether the repository exists.
  ghost predicate Asks(slot: Option<Slot>, sink: Sink) {
    sink.SinkRow? && sink.prefixes != [] && Supported(sink) && !CachedFor(slot, sink)
  }

  // It gets hold of a repository: the cached handle, or one it opens.
  ghost predicate HasRepository(slot: Option<Slot>, sink: Sink, a: Answers) {
    && sink.SinkRow? && sink.prefixes != [] && Supported(sink)
    && (CachedFor(slot, sink) || (a.exists_ == Ok(true) && a.openRepo.None?))
  }

  // What is open is the sink at this snapshot, with these variables, sources and dimension.
  ghost predicate IsCurrent(entry: Option<Entry>, sink: Sink, snapshot: string)
    requires sink.SinkRow?
  {
    && entry.Some? && entry.value.key.snapshot == snapshot && entry.value.key.variables == sink.variables
    && entry.value.key.prefixes == sink.prefixes && entry.value.key.appendDim == sink.appendDim
  }

  // It goes on to open the branch's snapshot, and that opens.
  ghost predicate OpensSnapshot(entry: Option<Entry>, slot: Option<Slot>, sink: Sink, a: Answers) {
    HasRepository(slot, sink, a) && a.head.Ok? && !IsCurrent(entry, sink, a.head.value) && a.openZarr.None?
  }

  ghost predicate HasSteps(ds: Dataset, dim: string) {
    dim in ds.sizes && ds.sizes[dim] > 0
  }

  // One refresh of a list, seen from one of its sinks.
  datatype Seen = Seen(entry: Option<Entry>, slot: Option<Slot>, error: Option<string>, pending: bool, empty: bool, reopened: bool)

  function SeenFrom(contents: Contents, reg: Registry, sinks: seq<Sink>, w: World, cid: string): Seen {
    var (next, reopened) := Refresh(contents, reg, Ok(sinks), w);
    Seen(Lookup(next.entries, cid), Lookup(next.cache, cid), Lookup(next.errors, cid),
         cid in next.pending, cid in next.empty, cid in reopened)
  }

  lemma {:induction false} SeenIsResult(contents: Contents, reg: Registry, sinks: seq<Sink>, w: World, sink: Sink)
    requires DistinctIds(sinks) && sink in sinks
    ensures var r := ResultOf(contents, reg, sink, w);
            SeenFrom(contents, reg, sinks, w, sink.cid)
            == Seen(r.entry, r.slot, if r.status.Err? then Some(r.status.error) else None,
                    r.status == Ok(Pending), r.status == Ok(Empty), r.status == Ok(Opened))
  {
    var cid := sink.cid;
    EachSinkOnItsOwn(contents, reg, sinks, w, sink);
    ListsAreTheStatuses(contents, reg, sinks, w);
    assert cid in WantedIds(sinks);
    forall s
      ensures cid in IdsEnding(contents, reg, sinks, w, s) <==> ResultOf(contents, reg, sink, w).status == Ok(s)
    {
      InIdsEnding(contents, reg, sinks, w, s, cid);
      forall other | other in sinks && other.cid == cid
        ensures other == sink
      {
        SameIdSameSink(sinks, sink, other);
      }
    }
  }

  /** A rejected config is an error under its own name; its open dataset and handle stay,
      and it is in none of the three lists. */
  lemma {:induction false} RejectedConfigKeepsItsCube(contents: Contents, reg: Registry, sinks: seq<Sink>, w: World, sink: Sink)
    requires DistinctIds(sinks) && sink in sinks && sink.BadSink?
    ensures SeenFrom(contents, reg, sinks, w, sink.cid)
            == Seen(Lookup(reg.entries, sink.cid), Lookup(reg.cache, sink.cid), Some(sink.error), false, false, false)
  {
    SeenIsResult(contents, reg, sinks, w, sink);
  }

  /** A sink is pending, and then not served, exactly when it has no recorded prefixes or
      the store is asked for its repository and has none. */
  lemma {:induction false} PendingExactly(contents: Contents, reg: Registry, sinks: seq<Sink>, w: World, sink: Sink)
    requires DistinctIds(sinks) && sink in sinks && sink.SinkRow?
    ensures var seen, slot, a := SeenFrom(contents, reg, sinks, w, sink.cid), Lookup(reg.cache, sink.cid), w.answers(sink.cid);
            && (seen.pending <==> sink.prefixes == [] || (Asks(slot, sink) && a.exists_ == Ok(false)))
            && (seen.pending ==> seen == Seen(None, slot, None, true, false, false))
  {
    SeenIsResult(contents, reg, sinks, w, sink);
  }

  lemma {:induction false} OneEmptiesExactly(contents: Contents, entry: Option<Entry>, slot: Option<Slot>, sink: Sink, a: Answers, now: string)
    requires sink.SinkRow?
    ensures var r := RefreshOne(contents, entry, slot, sink, a, now);
            && (r.status == Ok(Empty) <==> OpensSnapshot(entry, slot, sink, a) && !HasSteps(contents(sink.cid, a.head.value), sink.appendDim))
            && (r.status == Ok(Empty) ==> r.entry.None?)
  {
  }

  /** It is empty, and then not served, exactly when its snapshot opens without a step. */
  lemma {:induction false} EmptyExactly(contents: Contents, reg: Registry, sinks: seq<Sink>, w: World, sink: Sink)
    requires DistinctIds(sinks) && sink in sinks && sink.SinkRow?
    ensures var seen, entry, slot, a := SeenFrom(contents, reg, sinks, w, sink.cid), Lookup(reg.entries, sink.cid),
                                        Lookup(reg.cache, sink.cid), w.answers(sink.cid);
            && (seen.empty <==> OpensSnapshot(entry, slot, sink, a) && !HasSteps(contents(sink.cid, a.head.value), sink.appendDim))
            && (seen.empty ==> seen.entry.None? && seen.error.None? && !seen.pending && !seen.reopened)
  {
    SeenIsResult(contents, reg, sinks, w, sink);
    OneEmptiesExactly(contents, Lookup(reg.entries, sink.cid), Lookup(reg.cache, sink.cid), sink, w.answers(sink.cid), w.now);
  }

  // Its snapshot opens with steps, and preparing it ends so.
  ghost predicate Prepares(contents: Contents, entry: Option<Entry>, slot: Option<Slot>, sink: Sink, a: Answers, r: Result<Dataset, string>) {
    && OpensSnapshot(entry, slot, sink, a) && HasSteps(contents(sink.cid, a.head.value), sink.appendDim)
    && Prepare(contents(sink.cid, a.head.value), sink.variables, sink.appendDim, sink.cid, a.head.value) == r
  }

  // The entry a prepared dataset is served from.
  ghost predicate ServedAs(contents: Contents, slot: Option<Slot>, sink: Sink, a: Answers, now: string, view: Dataset, entry: Entry) {
    && sink.SinkRow? && a.head.Ok? && HasSteps(contents(sink.cid, a.head.value), sink.appendDim)
    && entry == Entry(Key(a.head.value, sink.variables, sink.prefixes, sink.appendDim), a.head.value,
                      Served(view, if CachedFor(slot, sink) then slot.value.handle else Handle(sink.cid, sink.prefixes)),
                      contents(sink.cid, a.head.value).sizes[sink.appendDim], now)
  }

  // One of the steps of its refresh is reached and fails so.
  ghost predicate FailsWith(contents: Contents, entry: Option<Entry>, slot: Option<Slot>, sink: Sink, a: Answers, e: string)
    requires sink.SinkRow?
  {
    || (sink.prefixes != [] && !Supported(sink) && e == "UnsupportedSourceError")
    || (Asks(slot, sink) && a.exists_ == Err(e))
    || (Asks(slot, sink) && a.exists_ == Ok(true) && a.openRepo == Some(e))
    || (HasRepository(slot, sink, a) && a.head == Err(e))
    || (HasRepository(slot, sink, a) && a.head.Ok? && !IsCurrent(entry, sink, a.head.value) && a.openZarr == Some(e))
    || Prepares(contents, entry, slot, sink, a, Err(e))
  }

  lemma {:induction false} OneReopensExactly(contents: Contents, entry: Option<Entry>, slot: Option<Slot>, sink: Sink, a: Answers, now: string)
    requires sink.SinkRow?
    ensures var r := RefreshOne(contents, entry, slot, sink, a, now);
            && (r.status == Ok(Opened) <==> exists view :: Prepares(contents, entry, slot, sink, a, Ok(view)))
            && (r.status == Ok(Opened) ==> exists view :: Prepares(contents, entry, slot, sink, a, Ok(view))
                                             && r.entry.Some? && ServedAs(contents, slot, sink, a, now, view, r.entry.value))
  {
    var r := RefreshOne(contents, entry, slot, sink, a, now);
    if r.status == Ok(Opened) {
      assert Prepares(contents, entry, slot, sink, a, Ok(r.entry.value.dataset.view));
    }
  }

  lemma {:induction false} OneFailsExactly(contents: Contents, entry: Option<Entry>, slot: Option<Slot>, sink: Sink, a: Answers, now: string, e: string)
    requires sink.SinkRow?
    ensures RefreshOne(contents, entry, slot, sink, a, now).status == Err(e) <==> FailsWith(contents, entry, slot, sink, a, e)
  {
    if OpenRepo(slot, sink, a).0.Err? {
      assert !HasRepository(slot, sink, a);
    } else if OpenRepo(slot, sink, a).0.value.None? {
      assert !HasRepository(slot, sink, a);
    } else {
      assert HasRepository(slot, sink, a);
    }
  }

  /** It is reopened exactly when its snapshot opens with steps and can be prepared, and is
      then served as that. */
  lemma {:induction false} ReopenedExactly(contents: Contents, reg: Registry, sinks: seq<Sink>, w: World, sink: Sink)
    requires DistinctIds(sinks) && sink in sinks && sink.SinkRow?
    ensures var seen, entry, slot, a := SeenFrom(contents, reg, sinks, w, sink.cid), Lookup(reg.entries, sink.cid),
                                        Lookup(reg.cache, sink.cid), w.answers(sink.cid);
            && (seen.reopened <==> exists view :: Prepares(contents, entry, slot, sink, a, Ok(view)))
            && (seen.reopened ==> seen.error.None? && !seen.pending && !seen.empty
                                  && exists view :: Prepares(contents, entry, slot, sink, a, Ok(view)) && seen.entry.Some?
                                                    && ServedAs(contents, slot, sink, a, w.now, view, seen.entry.value))
  {
    SeenIsResult(contents, reg, sinks, w, sink);
    OneReopensExactly(contents, Lookup(reg.entries, sink.cid), Lookup(reg.cache, sink.cid), sink, w.answers(sink.cid), w.now);
  }

  /** It fails, keeps what it served, and is an error under the failing step's name, exactly
      when one of its steps is reached and fails. */
  lemma {:induction false} FailsExactly(contents: Contents, reg: Registry, sinks: seq<Sink>, w: World, sink: Sink, e: string)
    requires DistinctIds(sinks) && sink in sinks && sink.SinkRow?
    ensures var seen, entry := SeenFrom(contents, reg, sinks, w, sink.cid), Lookup(reg.entries, sink.cid);
            && (seen.error == Some(e) <==> FailsWith(contents, entry, Lookup(reg.cache, sink.cid), sink, w.answers(sink.cid), e))
            && (seen.error.Some? ==> seen.entry == entry && !seen.pending && !seen.empty && !seen.reopened)
  {
    SeenIsResult(contents, reg, sinks, w, sink);
    OneFailsExactly(contents, Lookup(reg.entries, sink.cid), Lookup(reg.cache, sink.cid), sink, w.answers(sink.cid), w.now, e);
    if ResultOf(contents, reg, sink, w).status.Err? {
      FailedKeeps(contents, Lookup(reg.entries, sink.cid), Lookup(reg.cache, sink.cid), sink, w.answers(sink.cid), w.now);
    }
  }

  lemma {:induction false} OneStaysExactly(contents: Contents, entry: Option<Entry>, slot: Option<Slot>, sink: Sink, a: Answers, now: string)
    requires sink.SinkRow?
    ensures var r := RefreshOne(contents, entry, slot, sink, a, now);
            && (r.status == Ok(Unchanged) <==> HasRepository(slot, sink, a) && a.head.Ok? && IsCurrent(entry, sink, a.head.value))
            && (r.status == Ok(Unchanged) ==> r.entry == entry)
  {
  }

  /** Otherwise it is current and nothing of it changes. */
  lemma {:induction false} UnchangedExactly(contents: Contents, reg: Registry, sinks: seq<Sink>, w: World, sink: Sink)
    requires DistinctIds(sinks) && sink in sinks && sink.SinkRow?
    ensures var seen, entry, slot, a := SeenFrom(contents, reg, sinks, w, sink.cid), Lookup(reg.entries, sink.cid),
                                        Lookup(reg.cache, sink.cid), w.answers(sink.cid);
            && (HasRepository(slot, sink, a) && a.head.Ok? && IsCurrent(entry, sink, a.head.value)
                <==> seen.error.None? && !seen.pending && !seen.empty && !seen.reopened)
            && (seen.error.None? && !seen.pending && !seen.empty && !seen.reopened ==> seen.entry == entry)
  {
    SeenIsResult(contents, reg, sinks, w, sink);
    OneStaysExactly(contents, Lookup(reg.entries, sink.cid), Lookup(reg.cache, sink.cid), sink, w.answers(sink.cid), w.now);
  }

  lemma {:induction false} OneCachesExactly(contents: Contents, entry: Option<Entry>, slot: Option<Slot>, sink: Sink, a: Answers, now: string)
    requires sink.SinkRow?
    ensures RefreshOne(contents, entry, slot, sink, a, now).slot
            == if Asks(slot, sink) && a.exists_ == Ok(true) && a.openRepo.None?
               then Some(Slot(sink.prefixes, Handle(sink.cid, sink.prefixes))) else slot
  {
  }

  /** A handle is cached exactly when one is opened; nothing else touches the cache. */
  lemma {:induction false} CachedExactly(contents: Contents, reg: Registry, sinks: seq<Sink>, w: World, sink: Sink)
    requires DistinctIds(sinks) && sink in sinks && sink.SinkRow?
    ensures var slot, a := Lookup(reg.cache, sink.cid), w.answers(sink.cid);
            SeenFrom(contents, reg, sinks, w, sink.cid).slot
            == if Asks(slot, sink) && a.exists_ == Ok(true) && a.openRepo.None?
               then Some(Slot(sink.prefixes, Handle(sink.cid, sink.prefixes))) else slot
  {
    SeenIsResult(contents, reg, sinks, w, sink);
    OneCachesExactly(contents, Lookup(reg.entries, sink.cid), Lookup(reg.cache, sink.cid), sink, w.answers(sink.cid), w.now);
  }

  /** A cube that is listed no more is dropped and reported nowhere, keeps its handle, and
      only cubes that are still served keep their warm-up errors. */
  lemma {:induction false} UnlistedIsDropped(contents: Contents, reg: Registry, sinks: seq<Sink>, w: World, cid: string)
    requires DistinctIds(sinks) && forall sink :: sink in sinks ==> sink.cid != cid
    ensures SeenFrom(contents, reg, sinks, w, cid) == Seen(None, Lookup(reg.cache, cid), None, false, false, false)
    ensures var next := Refresh(contents, reg, Ok(sinks), w).0;
            && next.reloadError.None?
            && forall id :: Lookup(next.warmUpErrors, id) == if id in next.entries then Lookup(reg.warmUpErrors, id) else None
  {
    assert cid !in WantedIds(sinks);
    UntouchedBefore(contents, reg, sinks, w, cid);
    ListsAreTheStatuses(contents, reg, sinks, w);
    InIdsEnding(contents, reg, sinks, w, Opened, cid);
    InIdsEnding(contents, reg, sinks, w, Pending, cid);
    InIdsEnding(contents, reg, sinks, w, Empty, cid);
  }

  /* ---------------------------------- coherence ---------------------------------- */

  // The entry is what a fresh open-and-prepare at its key would give, read through a
  // handle authorised for exactly its prefixes.
  ghost predicate Coherent(contents: Contents, cid: string, e: Entry) {
    && e.snapshot == e.key.snapshot
    && e.steps == StepsOf(contents(cid, e.snapshot), e.key.appendDim) > 0
    && Prepare(contents(cid, e.snapshot), e.key.variables, e.key.appendDim, cid, e.snapshot) == Ok(e.dataset.view)
    && e.dataset.via == Handle(cid, e.key.prefixes)
  }

  ghost predicate SlotFor(cid: string, slot: Slot) {
    slot.handle == Handle(cid, slot.prefixes)
  }

  ghost predicate AllCoherent(contents: Contents, entries: map<string, Entry>) {
    forall cid :: cid in entries ==> Coherent(contents, cid, entries[cid])
  }

  ghost predicate AllSlots(cache: map<string, Slot>) {
    forall cid :: cid in cache ==> SlotFor(cid, cache[cid])
  }

  lemma {:induction false} HandleIsAuthorised(slot: Option<Slot>, sink: Sink, a: Answers)
    requires sink.SinkRow? && (slot.Some? ==> SlotFor(sink.cid, slot.value))
    ensures var (repo, slot') := OpenRepo(slot, sink, a);
            && (slot'.Some? ==> SlotFor(sink.cid, slot'.value))
            && (repo.Ok? && repo.value.Some? ==>
                  repo.value.value == Handle(sink.cid, sink.prefixes) && sink.prefixes != [] && !Unsupported(sink.prefixes)
                  && slot'.Some? && slot'.value.prefixes == sink.prefixes)
  {
  }

  lemma {:induction false} ReloadedIsCoherent(contents: Contents, entry: Option<Entry>, sink: Sink, snapshot: string, a: Answers, now: string)
    requires sink.SinkRow? && (entry.Some? ==> Coherent(contents, sink.cid, entry.value))
    ensures var (status, entry') := Reload(contents, entry, sink, snapshot, Handle(sink.cid, sink.prefixes), a, now);
            && (entry'.Some? ==> Coherent(contents, sink.cid, entry'.value))
            && (status.Ok? ==> !status.value.Pending?)
            && (status.Ok? && (status.value.Opened? || status.value.Unchanged?) ==> entry'.Some? && entry'.value.key == KeyOf(snapshot, sink))
            && (status.Ok? && status.value.Empty? ==> entry'.None?)
  {
  }

  // Unless it failed, the sink is left at its current key, or with nothing.
  ghost predicate LeftCurrent(sink: Sink, a: Answers, r: SinkResult) {
    r.status.Ok? ==>
      match r.status.value
      case Pending => r.entry.None?
      case Empty => r.entry.None?
      case _ => sink.SinkRow? && a.head.Ok? && r.entry.Some? && r.entry.value.key == KeyOf(a.head.value, sink)
                && r.slot.Some? && r.slot.value.prefixes == sink.prefixes
  }

  // What the refresh of one sink leaves: a coherent entry and an exactly authorised
  // handle, both current unless it failed.
  ghost predicate Sound(contents: Contents, sink: Sink, a: Answers, r: SinkResult) {
    && (r.entry.Some? ==> Coherent(contents, sink.cid, r.entry.value))
    && (r.slot.Some? ==> SlotFor(sink.cid, r.slot.value))
    && LeftCurrent(sink, a, r)
  }

  lemma {:induction false} OneIsSound(contents: Contents, entry: Option<Entry>, slot: Option<Slot>, sink: Sink, a: Answers, now: string)
    requires sink.SinkRow?
    requires entry.Some? ==> Coherent(contents, sink.cid, entry.value)
    requires slot.Some? ==> SlotFor(sink.cid, slot.value)
    ensures Sound(contents, sink, a, RefreshOne(contents, entry, slot, sink, a, now))
  {
    HandleIsAuthorised(slot, sink, a);
    var (repo, slot') := OpenRepo(slot, sink, a);
    if repo.Ok? && repo.value.Some? && a.head.Ok? {
      ReloadedIsCoherent(contents, entry, sink, a.head.value, a, now);
      var (status, entry') := Reload(contents, entry, sink, a.head.value, repo.value.value, a, now);
      assert RefreshOne(contents, entry, slot, sink, a, now) == SinkResult(status, entry', slot');
    }
  }

  /** One sink's refresh is sound, whatever answers and fails. */
  lemma {:induction false} RefreshedIsCoherent(contents: Contents, entry: Option<Entry>, slot: Option<Slot>, sink: Sink, a: Answers, now: string)
    requires entry.Some? ==> Coherent(contents, sink.cid, entry.value)
    requires slot.Some? ==> SlotFor(sink.cid, slot.value)
    ensures Sound(contents, sink, a, RefreshAny(contents, entry, slot, sink, a, now))
  {
    if sink.SinkRow? {
      OneIsSound(contents, entry, slot, sink, a, now);
    }
  }

  /** Invariant of every run: entries are coherent, of wanted cubes and not reported as
      pending or empty; handles are exactly authorised; warm-up errors are of served cubes. */
  ghost predicate Inv(contents: Contents, reg: Registry) {
    && AllCoherent(contents, reg.entries) && AllSlots(reg.cache)
    && WellListed(reg.entries.Keys, reg.wanted, reg.pending, reg.empty)
    && reg.warmUpErrors.Keys <= reg.entries.Keys
  }

  // What is served is wanted, and none of it is reported as pending or empty.
  ghost predicate WellListed(served: set<string>, wanted: set<string>, pending: seq<string>, empty: seq<string>) {
    served <= wanted && forall cid :: cid in pending || cid in empty ==> cid !in served
  }

  lemma {:induction false} PassKeepsCoherent(contents: Contents, reg: Registry, sinks: seq<Sink>, w: World)
    requires AllCoherent(contents, reg.entries) && AllSlots(reg.cache)
    ensures AllCoherent(contents, PassAll(contents, reg, sinks, w).entries) && AllSlots(PassAll(contents, reg, sinks, w).cache)
  {
    if sinks != [] {
      var n := |sinks| - 1;
      PassKeepsCoherent(contents, reg, sinks[..n], w);
      PassOneKeepsCoherent(contents, PassAll(contents, reg, sinks[..n], w), sinks[n], w);
    }
  }

  lemma {:induction false} PassOneKeepsCoherent(contents: Contents, p: Pass, sink: Sink, w: World)
    requires AllCoherent(contents, p.entries) && AllSlots(p.cache)
    ensures AllCoherent(contents, PassOne(contents, p, sink, w).entries) && AllSlots(PassOne(contents, p, sink, w).cache)
  {
    RefreshedIsCoherent(contents, Lookup(p.entries, sink.cid), Lookup(p.cache, sink.cid), sink, w.answers(sink.cid), w.now);
  }

  lemma {:induction false} UnservedHaveNoEntry(contents: Contents, reg: Registry, sinks: seq<Sink>, w: World, s: Status, cid: string)
    requires AllCoherent(contents, reg.entries) && AllSlots(reg.cache) && DistinctIds(sinks) && s in {Pending, Empty}
    requires cid in IdsEnding(contents, reg, sinks, w, s)
    ensures cid !in PassAll(contents, reg, sinks, w).entries
  {
    InIdsEnding(contents, reg, sinks, w, s, cid);
    var sink :| sink in sinks && sink.cid == cid && ResultOf(contents, reg, sink, w).status == Ok(s);
    EachSinkOnItsOwn(contents, reg, sinks, w, sink);
    RefreshedIsCoherent(contents, Lookup(reg.entries, cid), Lookup(reg.cache, cid), sink, w.answers(cid), w.now);
  }

  lemma {:induction false} RefreshKeepsInv(contents: Contents, reg: Registry, db: Result<seq<Sink>, string>, w: World)
    requires Inv(contents, reg) && (db.Ok? ==> DistinctIds(db.value))
    ensures Inv(contents, Refresh(contents, reg, db, w).0)
  {
    if db.Ok? {
      var sinks := db.value;
      var p := PassAll(contents, reg, sinks, w);
      PassKeepsCoherent(contents, reg, sinks, w);
      ListsAreTheStatuses(contents, reg, sinks, w);
      forall cid | cid in p.pending || cid in p.empty
        ensures cid !in p.entries
      {
        if cid in p.pending {
          UnservedHaveNoEntry(contents, reg, sinks, w, Pending, cid);
        } else {
          UnservedHaveNoEntry(contents, reg, sinks, w, Empty, cid);
        }
      }
    }
  }

  /** Recording a warm-up keeps the invariant exactly when it succeeded or the cube is served. */
  lemma {:induction false} RecordKeepsInv(contents: Contents, reg: Registry, cid: string, status: Option<int>)
    requires Inv(contents, reg)
    ensures Inv(contents, RecordWarmUp(reg, cid, status)) <==> status == Some(200) || cid in reg.entries
  {
    assert RecordWarmUp(reg, cid, status).warmUpErrors.Keys
           == if status == Some(200) then reg.warmUpErrors.Keys - {cid} else reg.warmUpErrors.Keys + {cid};
  }

  lemma {:induction false} WarmUpKeepsInv(contents: Contents, reg: Registry, reopened: seq<string>, statuses: string -> Option<int>)
    requires Inv(contents, reg)
    ensures var next := WarmUpAll(reg, reopened, statuses);
            Inv(contents, next) && next == reg.(warmUpErrors := next.warmUpErrors)
  {
    if reopened != [] {
      var cid := reopened[|reopened| - 1];
      WarmUpKeepsInv(contents, reg, reopened[..|reopened| - 1], statuses);
      var front := WarmUpAll(reg, reopened[..|reopened| - 1], statuses);
      if cid in front.entries {
        RecordKeepsInv(contents, front, cid, statuses(cid));
      }
    }
  }

  /** A warm-up is an error until the cube's next successful one: the statuses of the
      reopened, served cubes are recorded and every other record stays. */
  lemma {:induction false} WarmUpsRecorded(reg: Registry, reopened: seq<string>, statuses: string -> Option<int>, cid: string)
    ensures Lookup(WarmUpAll(reg, reopened, statuses).warmUpErrors, cid)
            == if cid in reopened && cid in reg.entries then (if statuses(cid) == Some(200) then None else Some(WarmUpFailed(statuses(cid))))
               else Lookup(reg.warmUpErrors, cid)
    ensures WarmUpAll(reg, reopened, statuses).entries == reg.entries
  {
    if reopened != [] {
      var n := |reopened| - 1;
      assert reopened == reopened[..n] + [reopened[n]];
      WarmUpsRecorded(reg, reopened[..n], statuses, cid);
    }
  }

  ghost predicate ListsDistinct(polls: seq<Poll>) {
    forall poll :: poll in polls && poll.db.Ok? ==> DistinctIds(poll.db.value)
  }

  /** The invariant holds after every run of the poll loop, whatever was listed, answered
      and failed on the way. */
  lemma {:induction false} EveryRunKeepsInv(contents: Contents, polls: seq<Poll>)
    requires ListsDistinct(polls)
    ensures Inv(contents, Run(contents, polls))
  {
    if polls != [] {
      var n := |polls| - 1;
      var poll := polls[n];
      assert poll in polls;
      EveryRunKeepsInv(contents, polls[..n]);
      var reg := Run(contents, polls[..n]);
      RefreshKeepsInv(contents, reg, poll.db, poll.world);
      var (next, reopened) := Refresh(contents, reg, poll.db, poll.world);
      WarmUpKeepsInv(contents, next, reopened, poll.statuses);
    }
  }

  // `entry` is a fresh open-and-prepare of the sink at `snapshot`.
  ghost predicate FreshAt(contents: Contents, sink: Sink, snapshot: string, entry: Entry)
    requires sink.SinkRow?
  {
    && entry.key == KeyOf(snapshot, sink)
    && Prepare(contents(sink.cid, snapshot), sink.variables, sink.appendDim, sink.cid, snapshot) == Ok(entry.dataset.view)
    && entry.dataset.via == Handle(sink.cid, sink.prefixes)
  }

  // What a sink that ended with `status` must be served as.
  ghost predicate ServedRightly(contents: Contents, sink: Sink, a: Answers, status: Status, entry: Option<Entry>) {
    if status.Pending? || status.Empty? then entry.None?
    else sink.SinkRow? && a.head.Ok? && entry.Some? && FreshAt(contents, sink, a.head.value, entry.value)
  }

  lemma {:induction false} SoundIsRight(contents: Contents, sink: Sink, a: Answers, r: SinkResult)
    requires Sound(contents, sink, a, r) && r.status.Ok?
    ensures ServedRightly(contents, sink, a, r.status.value, r.entry)
  {
  }

  lemma {:induction false} RefreshServesCurrent(contents: Contents, reg: Registry, sinks: seq<Sink>, w: World, sink: Sink)
    requires Inv(contents, reg) && DistinctIds(sinks) && sink in sinks
    ensures var entry, r := Lookup(Refresh(contents, reg, Ok(sinks), w).0.entries, sink.cid), ResultOf(contents, reg, sink, w);
            entry == r.entry && Sound(contents, sink, w.answers(sink.cid), r)
  {
    EachSinkOnItsOwn(contents, reg, sinks, w, sink);
    RefreshedIsCoherent(contents, Lookup(reg.entries, sink.cid), Lookup(reg.cache, sink.cid), sink, w.answers(sink.cid), w.now);
    assert sink.cid in WantedIds(sinks);
  }

  /** Cache coherence over every run: after a poll whose list was read, a sink that did
      not fail is served exactly as a fresh open-and-prepare at its current snapshot,
      variables, prefixes and append dimension, or not at all when it has nothing to serve. */
  lemma {:induction false} ServedIsCurrent(contents: Contents, polls: seq<Poll>, poll: Poll, sink: Sink)
    requires ListsDistinct(polls + [poll]) && poll.db.Ok? && sink in poll.db.value
    requires ResultOf(contents, Run(contents, polls), sink, poll.world).status.Ok?
    ensures ServedRightly(contents, sink, poll.world.answers(sink.cid), ResultOf(contents, Run(contents, polls), sink, poll.world).status.value,
                          Lookup(Run(contents, polls + [poll]).entries, sink.cid))
  {
    var before := Run(contents, polls);
    LastPollServes(contents, polls, poll);
    RefreshServesCurrent(contents, before, poll.db.value, poll.world, sink);
    SoundIsRight(contents, sink, poll.world.answers(sink.cid), ResultOf(contents, before, sink, poll.world));
  }

  lemma {:induction false} LastPollServes(contents: Contents, polls: seq<Poll>, poll: Poll)
    requires ListsDistinct(polls + [poll])
    ensures Inv(contents, Run(contents, polls)) && (poll.db.Ok? ==> DistinctIds(poll.db.value))
    ensures Run(contents, polls + [poll]).entries == Refresh(contents, Run(contents, polls), poll.db, poll.world).0.entries
  {
    assert poll in polls + [poll] && forall q :: q in polls ==> q in polls + [poll];
    EveryRunKeepsInv(contents, polls);
    var before := Run(contents, polls);
    RefreshKeepsInv(contents, before, poll.db, poll.world);
    var (next, reopened) := Refresh(contents, before, poll.db, poll.world);
    WarmUpKeepsInv(contents, next, reopened, poll.statuses);
    assert (polls + [poll])[..|polls|] == polls;
  }

  /* ---------------------------------- against reopening everything ---------------------------------- */

  // What reopening the sink now, with nothing cached, would give.
  function Reopened(contents: Contents, sink: Sink, a: Answers, now: string): SinkResult {
    RefreshAny(contents, None, None, sink, a, now)
  }

  // The same served cube, whenever it was opened.
  ghost predicate SameEntry(a: Option<Entry>, b: Option<Entry>) {
    (a.None? && b.None?) || (a.Some? && b.Some? && a.value == b.value.(openedAt := a.value.openedAt))
  }

  // A handle is cached for a repository that is gone.
  predicate StaleHandle(slot: Option<Slot>, sink: Sink, a: Answers) {
    sink.SinkRow? && slot.Some? && slot.value.prefixes == sink.prefixes && sink.prefixes != []
    && !Unsupported(sink.prefixes) && a.exists_ == Ok(false)
  }

  lemma {:induction false} ReloadAgrees(contents: Contents, entry: Option<Entry>, sink: Sink, snapshot: string, a: Answers, now: string)
    requires sink.SinkRow? && (entry.Some? ==> Coherent(contents, sink.cid, entry.value))
    ensures var handle := Handle(sink.cid, sink.prefixes);
            var (status, cached) := Reload(contents, entry, sink, snapshot, handle, a, now);
            var (fresh', reopened) := Reload(contents, None, sink, snapshot, handle, a, now);
            fresh'.Ok? ==> status.Ok? && SameEntry(cached, reopened)
  {
  }

  lemma {:induction false} HandleAgrees(slot: Option<Slot>, sink: Sink, a: Answers)
    requires sink.SinkRow? && (slot.Some? ==> SlotFor(sink.cid, slot.value))
    requires OpenRepo(None, sink, a).0.Ok?
    ensures if StaleHandle(slot, sink, a) then OpenRepo(None, sink, a).0 == Ok(None) && OpenRepo(slot, sink, a).0.Ok?
            else OpenRepo(slot, sink, a).0 == OpenRepo(None, sink, a).0
  {
  }

  // With a usable handle, the sink's cached state leads to nothing being served: the cube
  // is empty, or nothing was served and nothing can be opened.
  predicate NothingToServe(contents: Contents, entry: Option<Entry>, sink: Sink, a: Answers)
    requires sink.SinkRow?
  {
    if a.head.Err? then entry.None?
    else if entry.Some? && entry.value.key == KeyOf(a.head.value, sink) then false
    else if a.openZarr.Some? then entry.None?
    else
      var raw := contents(sink.cid, a.head.value);
      StepsOf(raw, sink.appendDim) == 0
      || (entry.None? && Prepare(raw, sink.variables, sink.appendDim, sink.cid, a.head.value).Err?)
  }

  /** The cached registry serves what reopening everything would, whenever reopening
      works, exactly unless a cached handle outlives its repository and there is something
      to serve through it. */
  lemma {:induction false} AgreesWithReopening(contents: Contents, entry: Option<Entry>, slot: Option<Slot>, sink: Sink, a: Answers, now: string)
    requires entry.Some? ==> Coherent(contents, sink.cid, entry.value)
    requires slot.Some? ==> SlotFor(sink.cid, slot.value)
    requires Reopened(contents, sink, a, now).status.Ok?
    ensures var cached, reopened := RefreshAny(contents, entry, slot, sink, a, now), Reopened(contents, sink, a, now);
            && (!StaleHandle(slot, sink, a) ==> cached.status.Ok?)
            && (SameEntry(cached.entry, reopened.entry) <==> !StaleHandle(slot, sink, a) || NothingToServe(contents, entry, sink, a))
  {
    HandleAgrees(slot, sink, a);
    HandleIsAuthorised(slot, sink, a);
    if a.head.Ok? {
      ReloadAgrees(contents, entry, sink, a.head.value, a, now);
    }
  }

  /** Over every run: each listed sink that reopening would settle is served as reopening
      would serve it, with that one exception. */
  lemma {:induction false} EveryRunAgreesWithReopening(contents: Contents, polls: seq<Poll>, poll: Poll, sink: Sink)
    requires ListsDistinct(polls + [poll]) && poll.db.Ok? && sink in poll.db.value
    requires Reopened(contents, sink, poll.world.answers(sink.cid), poll.world.now).status.Ok?
    ensures var before, a := Run(contents, polls), poll.world.answers(sink.cid);
            SameEntry(Lookup(Run(contents, polls + [poll]).entries, sink.cid), Reopened(contents, sink, a, poll.world.now).entry)
            <==> !StaleHandle(Lookup(before.cache, sink.cid), sink, a) || NothingToServe(contents, Lookup(before.entries, sink.cid), sink, a)
  {
    var before := Run(contents, polls);
    LastPollServes(contents, polls, poll);
    RefreshServesCurrent(contents, before, poll.db.value, poll.world, sink);
    AgreesWithReopening(contents, Lookup(before.entries, sink.cid), Lookup(before.cache, sink.cid), sink, poll.world.answers(sink.cid), poll.world.now);
  }

  function There(snapshot: string): Answers {
    Answers(Ok(true), None, Ok(snapshot), None)
  }

  function Gone(): Answers {
    Answers(Ok(false), None, Err("RepositoryError"), None)
  }

  function OneSink(sink: Sink, a: Answers, now: string): Poll {
    Poll(Ok([sink]), World(_ => a, now), _ => Some(200))
  }

  ghost predicate Servable(contents: Contents, sink: Sink, snapshot: string) {
    && sink.SinkRow? && sink.prefixes != [] && !Unsupported(sink.prefixes)
    && StepsOf(contents(sink.cid, snapshot), sink.appendDim) > 0
    && Prepare(contents(sink.cid, snapshot), sink.variables, sink.appendDim, sink.cid, snapshot).Ok?
  }

  lemma {:induction false} OpensWhenThere(contents: Contents, sink: Sink, snapshot: string, now: string)
    requires Servable(contents, sink, snapshot)
    ensures RefreshAny(contents, None, None, sink, There(snapshot), now).entry.Some?
  {
  }

  lemma {:induction false} StaysWhenGone(contents: Contents, entry: Entry, slot: Option<Slot>, sink: Sink, now: string)
    requires sink.SinkRow? && sink.prefixes != [] && !Unsupported(sink.prefixes)
    requires slot.Some? && slot.value.prefixes == sink.prefixes
    ensures RefreshAny(contents, Some(entry), slot, sink, Gone(), now).entry == Some(entry)
    ensures Reopened(contents, sink, Gone(), now) == SinkResult(Ok(Pending), None, None)
  {
  }

  lemma {:induction false} OpenedInOnePoll(contents: Contents, sink: Sink, snapshot: string)
    requires Servable(contents, sink, snapshot)
    ensures var reg := Run(contents, [OneSink(sink, There(snapshot), "now")]);
            sink.cid in reg.entries && Lookup(reg.cache, sink.cid) == Some(Slot(sink.prefixes, Handle(sink.cid, sink.prefixes)))
  {
    var poll := OneSink(sink, There(snapshot), "now");
    assert [] + [poll] == [poll];
    LastPollServes(contents, [], poll);
    RefreshServesCurrent(contents, Unstarted(), [sink], poll.world, sink);
    EachSinkOnItsOwn(contents, Unstarted(), [sink], poll.world, sink);
    OpensWhenThere(contents, sink, snapshot, "now");
    var (next, reopened) := Refresh(contents, Unstarted(), poll.db, poll.world);
    RefreshKeepsInv(contents, Unstarted(), poll.db, poll.world);
    WarmUpKeepsInv(contents, next, reopened, poll.statuses);
    assert Run(contents, [poll]) == WarmUpAll(next, reopened, poll.statuses) by {
      assert [poll][..0] == [];
    }
  }

  /** The exception is reached by every servable cube: opened in one poll, it is served on
      after its repository is gone, where reopening would find nothing. */
  lemma {:induction false} GoneButServed(contents: Contents, sink: Sink, snapshot: string)
    requires Servable(contents, sink, snapshot)
    ensures sink.cid in Run(contents, [OneSink(sink, There(snapshot), "now"), OneSink(sink, Gone(), "later")]).entries
    ensures Reopened(contents, sink, Gone(), "later") == SinkResult(Ok(Pending), None, None)
  {
    var first, second := OneSink(sink, There(snapshot), "now"), OneSink(sink, Gone(), "later");
    assert [first] + [second] == [first, second];
    OpenedInOnePoll(contents, sink, snapshot);
    var reg := Run(contents, [first]);
    LastPollServes(contents, [first], second);
    RefreshServesCurrent(contents, reg, [sink], second.world, sink);
    StaysWhenGone(contents, reg.entries[sink.cid], Lookup(reg.cache, sink.cid), sink, "later");
  }

  // Every snapshot holds one step and no variable; a sink on a supported source.
  const ONE_STEP: Contents := (cid, snapshot) => Dataset([], {}, map[], map["time" := 1], map[])
  const GOES: Sink := SinkRow("1", "goes", "time", ["CMI"], ["s3://noaa/"])

  /** As in this run. */
  lemma {:induction false} GoneButServedExample()
    ensures "goes" in Run(ONE_STEP, [OneSink(GOES, There("s1"), "now"), OneSink(GOES, Gone(), "later")]).entries
    ensures Reopened(ONE_STEP, GOES, Gone(), "later").entry.None?
  {
    assert Kept(ONE_STEP("goes", "s1"), ["CMI"]) == [];
    GoneButServed(ONE_STEP, GOES, "s1");
  }

  /** And when reopening fails, the cache still serves only what it served, or a fresh
      open-and-prepare at the current key. */
  lemma {:induction false} BridgesFailures(contents: Contents, entry: Option<Entry>, slot: Option<Slot>, sink: Sink, a: Answers, now: string)
    requires entry.Some? ==> Coherent(contents, sink.cid, entry.value)
    requires slot.Some? ==> SlotFor(sink.cid, slot.value)
    requires Reopened(contents, sink, a, now).status.Err?
    ensures var cached := RefreshAny(contents, entry, slot, sink, a, now);
            || cached.entry == entry
            || cached.entry.None?
            || (sink.SinkRow? && a.head.Ok? && cached.entry.value.key == KeyOf(a.head.value, sink)
                && Coherent(contents, sink.cid, cached.entry.value))
  {
  }

  /* ---------------------------------- the objects ---------------------------------- */

  lemma {:induction false} PutSameEntry<V>(m: map<string, V>, k: string)
    ensures PutOrDrop(m, k, Lookup(m, k)) == m
  {
  }

  lemma {:induction false} RestrictAll<V>(m: map<string, V>, keys: set<string>)
    requires m.Keys <= keys
    ensures Restrict(m, keys) == m
  {
  }

  lemma {:induction false} RestrictLess<V>(m: map<string, V>, keys: set<string>, k: string)
    ensures Restrict(m, keys) - {k} == Restrict(m, keys - {k})
  {
  }

  lemma {:induction false} OneLess(keep: set<string>, stale: set<string>, cid: string)
    requires cid in stale && stale !! keep
    ensures keep + stale - {cid} == keep + (stale - {cid})
  {
  }

  // One sink's refresh writes the served map unless it failed or nothing moved.
  function Writes(r: SinkResult): bool {
    r.status.Ok? && !r.status.value.Unchanged?
  }

  // The maps readers see while the sinks are refreshed, one per write.
  function Moves(contents: Contents, reg: Registry, sinks: seq<Sink>, w: World): seq<map<string, Entry>> {
    if sinks == [] then []
    else
      var front, sink := sinks[..|sinks| - 1], sinks[|sinks| - 1];
      var p := PassAll(contents, reg, front, w);
      var r := RefreshAny(contents, Lookup(p.entries, sink.cid), Lookup(p.cache, sink.cid), sink, w.answers(sink.cid), w.now);
      Moves(contents, reg, front, w) + if Writes(r) then [PassOne(contents, p, sink, w).entries] else []
  }

  // Each map drops one id that is not to be kept from the one before, down to `last`.
  ghost predicate DropsFrom(before: map<string, Entry>, steps: seq<map<string, Entry>>, keep: set<string>, last: map<string, Entry>) {
    if steps == [] then last == before
    else
      var n := |steps| - 1;
      var prev := if n == 0 then before else steps[n - 1];
      DropsFrom(before, steps[..n], keep, prev) && DropsOne(prev, last, keep) && steps[n] == last
  }

  ghost predicate DropsOne(before: map<string, Entry>, after: map<string, Entry>, keep: set<string>) {
    exists cid :: cid in before.Keys - keep && after == before - {cid}
  }

  lemma {:induction false} DropsNext(before: map<string, Entry>, steps: seq<map<string, Entry>>, last: map<string, Entry>, keep: set<string>, cid: string)
    requires DropsFrom(before, steps, keep, last) && cid in last.Keys - keep
    ensures DropsFrom(before, steps + [last - {cid}], keep, last - {cid})
  {
    assert (steps + [last - {cid}])[..|steps|] == steps;
    assert DropsOne(last, last - {cid}, keep);
  }

  lemma {:induction false} PassNext(contents: Contents, reg: Registry, sinks: seq<Sink>, n: nat, w: World)
    requires n < |sinks|
    ensures var p, sink := PassAll(contents, reg, sinks[..n], w), sinks[n];
            var r := RefreshAny(contents, Lookup(p.entries, sink.cid), Lookup(p.cache, sink.cid), sink, w.answers(sink.cid), w.now);
            && PassAll(contents, reg, sinks[..n + 1], w) == PassOne(contents, p, sink, w)
            && Moves(contents, reg, sinks[..n + 1], w)
               == Moves(contents, reg, sinks[..n], w) + if Writes(r) then [PassOne(contents, p, sink, w).entries] else []
  {
    assert sinks[..n + 1][..n] == sinks[..n];
  }

  // A refresh, field by field.
  lemma {:induction false} RefreshIs(contents: Contents, reg: Registry, sinks: seq<Sink>, w: World, next: Registry, reopened: seq<string>)
    requires var p := PassAll(contents, reg, sinks, w);
             && next.entries == Restrict(p.entries, WantedIds(sinks)) && next.cache == p.cache && reopened == p.reopened
             && next.pending == p.pending && next.empty == p.empty && next.errors == p.errors
    requires next.warmUpErrors == Restrict(reg.warmUpErrors, next.entries.Keys)
    requires next.reloadError.None? && next.wanted == WantedIds(sinks)
    ensures (next, reopened) == Refresh(contents, reg, Ok(sinks), w)
  {
  }

  lemma {:induction false} AppendOne<T>(a: seq<T>, b: seq<T>, x: T)
    ensures a + b + [x] == a + (b + [x])
  {
  }

  // What readers see during a refresh: the moves, and then the unwanted dropped one by one.
  ghost predicate SeenDuring(contents: Contents, reg: Registry, db: Result<seq<Sink>, string>, w: World,
                             before: seq<map<string, Entry>>, drops: seq<map<string, Entry>>, after: seq<map<string, Entry>>) {
    match db
    case Err(_) => after == before
    case Ok(sinks) =>
      var p := PassAll(contents, reg, sinks, w);
      && after == before + Moves(contents, reg, sinks, w) + drops
      && DropsFrom(p.entries, drops, WantedIds(sinks), Restrict(p.entries, WantedIds(sinks)))
  }

  class S3RepoOpener {
    var cache: map<string, Slot>

    constructor ()
      ensures cache == map[]
    {
      cache := map[];
    }

    method Open(sink: Sink, a: Answers) returns (r: Result<Option<Handle>, string>)
      requires sink.SinkRow?
      modifies this
      ensures var (repo, slot) := OpenRepo(Lookup(old(cache), sink.cid), sink, a);
              r == repo && cache == PutOrDrop(old(cache), sink.cid, slot)
    {
      PutSameEntry(cache, sink.cid);
      if sink.prefixes == [] {
        return Ok(None);
      }
      if Unsupported(sink.prefixes) {
        return Err("UnsupportedSourceError");
      }
      if sink.cid in cache && cache[sink.cid].prefixes == sink.prefixes {
        return Ok(Some(cache[sink.cid].handle));
      }
      if a.exists_.Err? {
        return Err(a.exists_.error);
      }
      if !a.exists_.value {
        return Ok(None);
      }
      if a.openRepo.Some? {
        return Err(a.openRepo.value);
      }
      var handle := Handle(sink.cid, sink.prefixes);
      cache := cache[sink.cid := Slot(sink.prefixes, handle)];
      r := Ok(Some(handle));
    }
  }

  class LiveRegistry {
    const contents: Contents
    const opener: S3RepoOpener
    var entries: map<string, Entry>
    var pending: seq<string>
    var empty: seq<string>
    var errors: map<string, string>
    var warmUpErrors: map<string, WarmUpError>
    var reloadError: Option<string>
    ghost var wanted: set<string>
    ghost var seen: seq<map<string, Entry>>   // every value `entries` has had, as readers may see it

    ghost function Abstract(): Registry
      reads this, opener
    {
      Registry(entries, opener.cache, pending, empty, errors, warmUpErrors, reloadError, wanted)
    }

    // `entries` is the last of the maps a reader could have looked into, all coherent.
    ghost predicate SeenCoherent()
      reads this`entries, this`seen
    {
      seen != [] && seen[|seen| - 1] == entries && AllCoherent(contents, entries)
      && forall m :: m in seen ==> AllCoherent(contents, m)
    }

    ghost predicate Valid()
      reads this, opener
    {
      Inv(contents, Abstract()) && SeenCoherent()
    }

    constructor (contents: Contents, opener: S3RepoOpener)
      requires opener.cache == map[]
      ensures this.contents == contents && this.opener == opener
      ensures Valid() && Abstract() == Unstarted()
    {
      this.contents, this.opener := contents, opener;
      entries, pending, empty, errors, warmUpErrors, reloadError := map[], [], [], map[], map[], None;
      wanted, seen := {}, [map[]];
    }

    // `get`
    function Get(cid: string): (r: Option<Served>)
      reads this
      ensures r.Some? <==> cid in entries
      ensures r.Some? ==> r.value == entries[cid].dataset
    {
      if cid in entries then Some(entries[cid].dataset) else None
    }

    // One write to `_entries`.
    method Write(cid: string, entry: Option<Entry>)
      requires SeenCoherent() && (entry.Some? ==> Coherent(contents, cid, entry.value))
      modifies this`entries, this`seen
      ensures SeenCoherent() && entries == PutOrDrop(old(entries), cid, entry) && seen == old(seen) + [entries]
    {
      entries := PutOrDrop(entries, cid, entry);
      seen := seen + [entries];
    }

    method RefreshSink(sink: Sink, a: Answers, now: string) returns (status: Result<Status, string>)
      requires sink.SinkRow? && SeenCoherent() && AllSlots(opener.cache)
      modifies this`entries, this`seen, opener
      ensures SeenCoherent() && AllSlots(opener.cache)
      ensures var r := RefreshOne(contents, Lookup(old(entries), sink.cid), Lookup(old(opener.cache), sink.cid), sink, a, now);
              && status == r.status
              && entries == PutOrDrop(old(entries), sink.cid, r.entry)
              && seen == old(seen) + (if Writes(r) then [entries] else [])
              && opener.cache == PutOrDrop(old(opener.cache), sink.cid, r.slot)
    {
      ghost var slot := Lookup(opener.cache, sink.cid);
      HandleIsAuthorised(slot, sink, a);
      PutSameEntry(entries, sink.cid);
      var repo := opener.Open(sink, a);
      if repo.Err? {
        return Err(repo.error);
      }
      if repo.value.None? {
        Write(sink.cid, None);
        return Ok(Pending);
      }
      if a.head.Err? {
        return Err(a.head.error);
      }
      status := ReloadSink(sink, a.head.value, repo.value.value, a, now);
    }

    method ReloadSink(sink: Sink, snapshot: string, handle: Handle, a: Answers, now: string) returns (status: Result<Status, string>)
      requires sink.SinkRow? && SeenCoherent() && handle == Handle(sink.cid, sink.prefixes)
      modifies this`entries, this`seen
      ensures SeenCoherent()
      ensures var (s, entry) := Reload(contents, Lookup(old(entries), sink.cid), sink, snapshot, handle, a, now);
              && status == s && entries == PutOrDrop(old(entries), sink.cid, entry)
              && seen == old(seen) + (if s.Ok? && !s.value.Unchanged? then [entries] else [])
    {
      PutSameEntry(entries, sink.cid);
      ReloadedIsCoherent(contents, Lookup(entries, sink.cid), sink, snapshot, a, now);
      if sink.cid in entries && entries[sink.cid].key == KeyOf(snapshot, sink) {
        return Ok(Unchanged);
      }
      var made := OpenEntry(contents, sink, snapshot, handle, a, now);
      if made.Err? {
        return Err(made.error);
      }
      Write(sink.cid, made.value);
      status := Ok(if made.value.Some? then Opened else Empty);
    }

    // Any sink: a rejected config touches nothing.
    method TrySink(sink: Sink, a: Answers, now: string) returns (status: Result<Status, string>)
      requires SeenCoherent() && AllSlots(opener.cache)
      modifies this`entries, this`seen, opener
      ensures SeenCoherent() && AllSlots(opener.cache)
      ensures var r := RefreshAny(contents, Lookup(old(entries), sink.cid), Lookup(old(opener.cache), sink.cid), sink, a, now);
              && status == r.status
              && entries == PutOrDrop(old(entries), sink.cid, r.entry)
              && seen == old(seen) + (if Writes(r) then [entries] else [])
              && opener.cache == PutOrDrop(old(opener.cache), sink.cid, r.slot)
    {
      if sink.BadSink? {
        PutSameEntry(entries, sink.cid);
        PutSameEntry(opener.cache, sink.cid);
        return Err(sink.error);
      }
      status := RefreshSink(sink, a, now);
    }

    method RefreshSinks(sinks: seq<Sink>, w: World, ghost reg: Registry)
      returns (reopened: seq<string>, pending': seq<string>, empty': seq<string>, errors': map<string, string>)
      requires SeenCoherent() && AllSlots(opener.cache) && reg.entries == entries && reg.cache == opener.cache
      modifies this`entries, this`seen, opener
      ensures SeenCoherent() && AllSlots(opener.cache)
      ensures Pass(entries, opener.cache, reopened, pending', empty', errors') == PassAll(contents, reg, sinks, w)
      ensures seen == old(seen) + Moves(contents, reg, sinks, w)
    {
      reopened, pending', empty', errors' := [], [], [], map[];
      for n := 0 to |sinks|
        invariant SeenCoherent() && AllSlots(opener.cache)
        invariant Pass(entries, opener.cache, reopened, pending', empty', errors') == PassAll(contents, reg, sinks[..n], w)
        invariant seen == old(seen) + Moves(contents, reg, sinks[..n], w)
      {
        var sink := sinks[n];
        var cid := sink.cid;
        var status := TrySink(sink, w.answers(cid), w.now);
        match status {
          case Err(e) => errors' := errors'[cid := e];
          case Ok(Opened) => reopened := reopened + [cid];
          case Ok(Pending) => pending' := pending' + [cid];
          case Ok(Empty) => empty' := empty' + [cid];
          case Ok(Unchanged) =>
        }
        PassNext(contents, reg, sinks, n, w);
        AppendOne(old(seen), Moves(contents, reg, sinks[..n], w), entries);
      }
      assert sinks[..|sinks|] == sinks;
    }

    // Drop what is no longer wanted, one entry at a time.
    method Unregister(keep: set<string>) returns (ghost drops: seq<map<string, Entry>>)
      requires SeenCoherent()
      modifies this`entries, this`seen
      ensures SeenCoherent() && entries == Restrict(old(entries), keep)
      ensures seen == old(seen) + drops && DropsFrom(old(entries), drops, keep, entries)
    {
      ghost var before := entries;
      var stale := entries.Keys - keep;
      ghost var left := keep + stale;
      RestrictAll(before, left);
      drops := [];
      while stale != {}
        invariant SeenCoherent()
        invariant stale !! keep && stale <= entries.Keys && left == keep + stale && entries == Restrict(before, left)
        invariant seen == old(seen) + drops && DropsFrom(before, drops, keep, entries)
        decreases stale
      {
        var cid :| cid in stale;
        RestrictLess(before, left, cid);
        OneLess(keep, stale, cid);
        DropsNext(before, drops, entries, keep, cid);
        AppendOne(old(seen), drops, entries - {cid});
        drops := drops + [entries - {cid}];
        Write(cid, None);
        stale, left := stale - {cid}, left - {cid};
      }
      assert left == keep;
    }

    // What a refresh that read its list reports, and the warm-up errors it keeps.
    method Publish(pending': seq<string>, empty': seq<string>, errors': map<string, string>, ghost wanted': set<string>)
      modifies this`pending, this`empty, this`errors, this`warmUpErrors, this`wanted
      ensures pending == pending' && empty == empty' && errors == errors' && wanted == wanted'
      ensures warmUpErrors == Restrict(old(warmUpErrors), entries.Keys)
    {
      pending, empty, errors, wanted := pending', empty', errors', wanted';
      warmUpErrors := Restrict(warmUpErrors, entries.Keys);
    }

    method RefreshListed(sinks: seq<Sink>, w: World) returns (reopened: seq<string>, ghost drops: seq<map<string, Entry>>)
      requires SeenCoherent() && AllSlots(opener.cache)
      modifies this, opener
      ensures SeenCoherent()
      ensures (Abstract(), reopened) == Refresh(contents, old(Abstract()), Ok(sinks), w)
      ensures SeenDuring(contents, old(Abstract()), Ok(sinks), w, old(seen), drops, seen)
    {
      reloadError := None;
      ghost var reg := old(Abstract());
      var pending', empty', errors';
      reopened, pending', empty', errors' := RefreshSinks(sinks, w, reg);
      drops := Unregister(WantedIds(sinks));
      assert warmUpErrors == reg.warmUpErrors;
      Publish(pending', empty', errors', WantedIds(sinks));
      RefreshIs(contents, reg, sinks, w, Abstract(), reopened);
    }

    /* One refresh: what it leaves is the specification's, and what readers could see on
       the way is exactly one map per reopened, pending or empty sink, in list order, and
       then one per dropped cube. */
    method RefreshAll(db: Result<seq<Sink>, string>, w: World) returns (reopened: seq<string>, ghost drops: seq<map<string, Entry>>)
      requires Valid() && (db.Ok? ==> DistinctIds(db.value))
      modifies this, opener
      ensures Valid()
      ensures (Abstract(), reopened) == Refresh(contents, old(Abstract()), db, w)
      ensures SeenDuring(contents, old(Abstract()), db, w, old(seen), drops, seen)
    {
      RefreshKeepsInv(contents, Abstract(), db, w);
      if db.Err? {
        reloadError := Some(db.error);
        return [], [];
      }
      reopened, drops := RefreshListed(db.value, w);
    }

    method RecordWarmUpStatus(cid: string, status: Option<int>)
      modifies this`warmUpErrors
      ensures Abstract() == RecordWarmUp(old(Abstract()), cid, status)
      ensures old(Valid()) ==> (Valid() <==> status == Some(200) || cid in entries)
    {
      if Valid() {
        RecordKeepsInv(contents, Abstract(), cid, status);
      }
      if status == Some(200) {
        warmUpErrors := warmUpErrors - {cid};
      } else {
        warmUpErrors := warmUpErrors[cid := WarmUpFailed(status)];
      }
      assert Abstract() == RecordWarmUp(old(Abstract()), cid, status);
    }

    /* One turn of the poll loop: refresh, then warm up what was reopened. Every map of
       entries a reader could look into on the way was coherent. */
    method PollOnceLive(poll: Poll) returns (ghost drops: seq<map<string, Entry>>)
      requires Valid() && (poll.db.Ok? ==> DistinctIds(poll.db.value))
      modifies this, opener
      ensures Valid() && Abstract() == PollOnce(contents, old(Abstract()), poll)
      ensures SeenDuring(contents, old(Abstract()), poll.db, poll.world, old(seen), drops, seen)
    {
      var reopened;
      reopened, drops := RefreshAll(poll.db, poll.world);
      WarmUp(reopened, poll.statuses);
    }

    method WarmUp(reopened: seq<string>, statuses: string -> Option<int>)
      requires Valid()
      modifies this`warmUpErrors
      ensures Valid() && Abstract() == WarmUpAll(old(Abstract()), reopened, statuses)
    {
      for n := 0 to |reopened|
        invariant Valid() && Abstract() == WarmUpAll(old(Abstract()), reopened[..n], statuses)
      {
        assert reopened[..n + 1][..n] == reopened[..n];
        if Get(reopened[n]).Some? {
          RecordWarmUpStatus(reopened[n], statuses(reopened[n]));
        }
      }
      assert reopened[..|reopened|] == reopened;
    }
  }
}
