/** The rolling-window append protocol
    (docs/research/2026-10-03-virtual-cube-spike/soak.py).

    A key's scan window, its own time and its contents never change: they are a
    function of the key. Listings are arbitrary. */
module RollingWindow {
  import opened Basics

  const T_ARRAYS: seq<string> := ["CMI", "DQF", "t"]

  // A source file: its scan window (from the key), its own time and its two fields.
  datatype File = File(key: string, start: int, end: int, time: int, cmi: string, dqf: string)

  datatype Cell = Chunk(data: string) | Stamp(time: int) | Vacant

  type Arrays = map<string, seq<Cell>>

  ghost predicate WellTimed(f: File) {
    f.start <= f.time <= f.end
  }

  /* ---------------------------------- the three arrays ---------------------------------- */

  function CellOf(f: File, name: string): Cell {
    if name == "t" then Stamp(f.time) else if name == "CMI" then Chunk(f.cmi) else Chunk(f.dqf)
  }

  // One array over the steps of `files`.
  function Column(files: seq<File>, name: string): (r: seq<Cell>)
    ensures |r| == |files| && forall i :: 0 <= i < |files| ==> r[i] == CellOf(files[i], name)
  {
    seq(|files|, i requires 0 <= i < |files| => CellOf(files[i], name))
  }

  // The three arrays hold exactly the steps of `files`, index for index; a store that was
  // never written has no arrays.
  ghost predicate Holds(arrays: Arrays, files: seq<File>) {
    || (files == [] && arrays == map[])
    || ((forall name :: name in arrays <==> name in T_ARRAYS) && forall name :: name in T_ARRAYS ==> arrays[name] == Column(files, name))
  }

  // `to_icechunk`: a first write creates the arrays, a later one appends a step to each.
  function Written(arrays: Arrays, f: File): Arrays {
    map name | name in T_ARRAYS :: (if name in arrays then arrays[name] else []) + [CellOf(f, name)]
  }

  // Chunks move `k` places towards the front; the places they leave are vacant.
  function Shift(a: seq<Cell>, k: nat): (r: seq<Cell>)
    ensures |r| == |a|
  {
    seq(|a|, i requires 0 <= i < |a| => if i + k < |a| then a[i + k] else Vacant)
  }

  function Last<T>(s: seq<T>, n: nat): seq<T> {
    if |s| > n then s[|s| - n..] else s
  }

  function First<T>(s: seq<T>): seq<T> {
    if s == [] then [] else s[..1]
  }

  lemma {:induction false} ShiftedColumn(files: seq<File>, name: string, k: nat)
    requires k <= |files|
    ensures Shift(Column(files, name), k)[..|files| - k] == Column(files[k..], name)
  {
  }

  lemma {:induction false} WrittenHolds(arrays: Arrays, files: seq<File>, f: File)
    requires Holds(arrays, files)
    ensures Holds(Written(arrays, f), files + [f])
  {
    forall name | name in T_ARRAYS
      ensures Written(arrays, f)[name] == Column(files + [f], name)
    {
      assert Column(files + [f], name) == Column(files, name) + [CellOf(f, name)];
    }
  }

  /** Whatever the arrays hold, place `i` of all three is of one file: its two fields and its
      time. */
  lemma {:induction false} OneFilePerPlace(arrays: Arrays, files: seq<File>, i: nat)
    requires Holds(arrays, files) && i < |files|
    ensures "CMI" in arrays && "DQF" in arrays && "t" in arrays
    ensures |arrays["CMI"]| == |arrays["DQF"]| == |arrays["t"]| == |files|
    ensures arrays["CMI"][i] == Chunk(files[i].cmi) && arrays["DQF"][i] == Chunk(files[i].dqf) && arrays["t"][i] == Stamp(files[i].time)
  {
    assert T_ARRAYS[0] == "CMI" && T_ARRAYS[1] == "DQF" && T_ARRAYS[2] == "t";
    assert "CMI" in T_ARRAYS && "DQF" in T_ARRAYS && "t" in T_ARRAYS;
  }

  method ShiftAll(arrays: Arrays, k: nat) returns (r: Arrays)
    requires forall name :: name in T_ARRAYS ==> name in arrays
    ensures r.Keys == arrays.Keys
    ensures forall name :: name in T_ARRAYS ==> r[name] == Shift(arrays[name], k)
  {
    r := arrays;
    for n := 0 to |T_ARRAYS|
      invariant r.Keys == arrays.Keys
      invariant forall name :: name in T_ARRAYS ==> r[name] == if name in T_ARRAYS[..n] then Shift(arrays[name], k) else arrays[name]
    {
      var name := T_ARRAYS[n];
      assert name in T_ARRAYS && name !in T_ARRAYS[..n];
      r := r[name := Shift(r[name], k)];
    }
  }

  method CutAll(arrays: Arrays, k: nat) returns (r: Arrays)
    requires forall name :: name in T_ARRAYS ==> name in arrays && k <= |arrays[name]|
    ensures r.Keys == arrays.Keys
    ensures forall name :: name in T_ARRAYS ==> r[name] == arrays[name][..|arrays[name]| - k]
  {
    r := arrays;
    for n := 0 to |T_ARRAYS|
      invariant r.Keys == arrays.Keys
      invariant forall name :: name in T_ARRAYS ==>
                  r[name] == if name in T_ARRAYS[..n] then arrays[name][..|arrays[name]| - k] else arrays[name]
    {
      var name := T_ARRAYS[n];
      assert name in T_ARRAYS && name !in T_ARRAYS[..n];
      r := r[name := r[name][..|r[name]| - k]];
    }
  }

  // Shift every array, then cut every array.
  method TrimFront(arrays: Arrays, ghost files: seq<File>, k: nat) returns (r: Arrays)
    requires Holds(arrays, files) && k <= |files| && files != []
    ensures Holds(r, files[k..])
  {
    var shifted := ShiftAll(arrays, k);
    r := CutAll(shifted, k);
    forall name | name in T_ARRAYS
      ensures r[name] == Column(files[k..], name)
    {
      ShiftedColumn(files, name, k);
    }
  }

  /* The session of one append: write the step, and shift and cut the arrays back to
     `maxSteps`. The arrays then hold the last steps of what they held plus the file. */
  method AppendStep(arrays: Arrays, ghost files: seq<File>, f: File, maxSteps: nat) returns (r: Arrays, trimmed: nat)
    requires Holds(arrays, files)
    ensures Holds(r, Last(files + [f], maxSteps))
    ensures trimmed == |files| + 1 - |Last(files + [f], maxSteps)|
  {
    WrittenHolds(arrays, files, f);
    ghost var all := files + [f];
    r := Written(arrays, f);
    trimmed := 0;
    var n := |r["t"]|;
    assert n == |all| by {
      assert "t" in T_ARRAYS && r["t"] == Column(all, "t");
    }
    if n > maxSteps {
      trimmed := n - maxSteps;
      r := TrimFront(r, all, trimmed);
    }
    assert all[trimmed..] == Last(all, maxSteps);
  }

  /* ---------------------------------- the protocol ---------------------------------- */

  // What can go wrong around one append. `Unread`: it is committed, and reading the times
  // back yields none. A conflict means that a rival writer got its file in first; the
  // retry appends without looking at the tip again.
  datatype Fault = NoFault | BeforeCommit | AfterCommit | Unread | Conflict(rival: File)

  datatype State = State(
    window: seq<File>,    // the steps in the store, oldest first
    history: seq<File>,   // every step ever committed
    tips: seq<int>,       // the process's own copy of the store's times; none when it could not be read
    seen: set<string>, maxSteps: nat, up: bool)

  function Times(files: seq<File>): (r: seq<int>)
    ensures |r| == |files| && forall i :: 0 <= i < |files| ==> r[i] == files[i].time
  {
    seq(|files|, i requires 0 <= i < |files| => files[i].time)
  }

  // `tip_times[-max_steps:]`, which for zero is the whole list.
  function Recent(tips: seq<int>, maxSteps: nat): seq<int> {
    if maxSteps == 0 then tips else Last(tips, maxSteps)
  }

  predicate IsDuplicate(f: File, tips: seq<int>, maxSteps: nat) {
    exists t :: t in Recent(tips, maxSteps) && f.start <= t <= f.end
  }

  predicate IsLate(f: File, tips: seq<int>)
    requires tips != []
  {
    f.end <= tips[|tips| - 1]
  }

  // Both guards let the file through.
  predicate Accepted(st: State, f: File)
    requires st.tips != []
  {
    !IsDuplicate(f, st.tips, st.maxSteps) && !IsLate(f, st.tips)
  }

  function Commit(st: State, f: File): State {
    st.(window := Last(st.window + [f], st.maxSteps), history := st.history + [f])
  }

  function Reread(st: State): State {
    st.(tips := Times(st.window))
  }

  // One new key of a poll; without a tip, looking at it raises once the key is noted.
  function Offer(st: State, f: File, fault: Fault): State {
    var noted := st.(seen := st.seen + {f.key});
    if st.tips == [] || !Accepted(st, f) then noted
    else
      match fault
      case NoFault => Reread(Commit(noted, f))
      case BeforeCommit => noted
      case AfterCommit => Commit(noted, f)
      case Unread => Commit(noted, f).(tips := [])
      case Conflict(rival) => Reread(Commit(Commit(noted, rival), f))
  }

  // An exception ends the poll.
  predicate Aborts(st: State, f: File, fault: Fault) {
    st.tips == [] || (Accepted(st, f) && (fault.BeforeCommit? || fault.AfterCommit?))
  }

  function OfferAll(st: State, keys: seq<string>, files: string -> File, faults: string -> Fault): State
    decreases |keys|
  {
    if keys == [] then st
    else
      var next := Offer(st, files(keys[0]), faults(keys[0]));
      if Aborts(st, files(keys[0]), faults(keys[0])) then next else OfferAll(next, keys[1..], files, faults)
  }

  function ByStart(files: string -> File): (string, string) -> bool {
    (a: string, b: string) => files(a).start <= files(b).start
  }

  function NotIn(seen: set<string>): string -> bool {
    (k: string) => k !in seen
  }

  // The order a poll goes through the keys it has not seen.
  function NewKeys(listing: seq<string>, seen: set<string>, files: string -> File): seq<string> {
    Sort(Filter(listing, NotIn(seen)), ByStart(files))
  }

  function Poll(st: State, listing: seq<string>, files: string -> File, faults: string -> Fault): State {
    if st.up then OfferAll(st, NewKeys(listing, st.seen, files), files, faults) else st
  }

  function Missed(listing: seq<string>, seen: set<string>): seq<string> {
    Sort(Filter(listing, NotIn(seen)), StrLe)
  }

  // The hourly sweep only notes keys as seen; without a tip to report it stops at the first.
  function Sweep(st: State, listing: seq<string>): State {
    if !st.up then st
    else if st.tips == [] then st.(seen := st.seen + Elems(First(Missed(listing, st.seen))))
    else st.(seen := st.seen + Elems(listing))
  }

  function Seeds(listing: seq<string>, backfill: nat, files: string -> File): seq<string> {
    Last(Sort(listing, ByStart(files)), if backfill < 1 then 1 else backfill)
  }

  function CommitAll(st: State, keys: seq<string>, files: string -> File): State {
    if keys == [] then st else Commit(CommitAll(st, keys[..|keys| - 1], files), files(keys[|keys| - 1]))
  }

  function SeenAtStart(listing: seq<string>, tip: int, files: string -> File): set<string> {
    set k | k in listing && files(k).end <= tip
  }

  /* A start, or a restart: `seen` is empty again, the store is read back, an empty store
     is seeded (a crash may stop the start after `crashAt` seeds), and keys that ended at or
     before the tip count as seen. */
  function StartUp(st: State, listing: seq<string>, maxSteps: nat, backfill: nat, crashAt: Option<nat>, files: string -> File): State {
    var blank := State(st.window, st.history, Times(st.window), {}, maxSteps, false);
    var seeds := if st.window == [] then Seeds(listing, backfill, files) else [];
    Served(Reread(CommitAll(blank, Done(seeds, crashAt), files)), Crashes(seeds, crashAt), listing, files)
  }

  predicate Crashes(seeds: seq<string>, crashAt: Option<nat>) {
    crashAt.Some? && crashAt.value <= |seeds|
  }

  // The seeds that are appended before a crash.
  function Done(seeds: seq<string>, crashAt: Option<nat>): seq<string> {
    if Crashes(seeds, crashAt) then seeds[..crashAt.value] else seeds
  }

  function Served(seeded: State, crashed: bool, listing: seq<string>, files: string -> File): State {
    if crashed || seeded.tips == [] then seeded
    else seeded.(seen := SeenAtStart(listing, seeded.tips[|seeded.tips| - 1], files), up := true)
  }

  datatype Event =
    | Started(listing: seq<string>, maxSteps: nat, backfill: nat, crashAt: Option<nat>)
    | Polled(listing: seq<string>, faults: string -> Fault)
    | Swept(listing: seq<string>)

  function Step(st: State, e: Event, files: string -> File): State {
    match e
    case Started(listing, maxSteps, backfill, crashAt) => StartUp(st, listing, maxSteps, backfill, crashAt, files)
    case Polled(listing, faults) => Poll(st, listing, files, faults)
    case Swept(listing) => Sweep(st, listing)
  }

  function Run(events: seq<Event>, files: string -> File): State {
    if events == [] then State([], [], [], {}, 1, false)
    else Step(Run(events[..|events| - 1], files), events[|events| - 1], files)
  }

  /* ---------------------------------- order and no repeats ---------------------------------- */

  ghost predicate Increasing(times: seq<int>) {
    forall i, j :: 0 <= i < j < |times| ==> times[i] < times[j]
  }

  lemma {:induction false} LastTimes(tips: seq<int>, n: nat)
    requires tips != [] && Increasing(tips)
    ensures tips[|tips| - 1] in Recent(tips, n)
    ensures forall t :: t in Recent(tips, n) ==> t <= tips[|tips| - 1]
  {
    var last := Recent(tips, n);
    assert last[|last| - 1] == tips[|tips| - 1];
    forall t | t in last
      ensures t <= tips[|tips| - 1]
    {
      var i :| 0 <= i < |last| && last[i] == t;
      assert tips[|tips| - |last| + i] == t;
    }
  }

  /** The two guards together are one comparison: over an increasing window a file gets
      through exactly when its scan starts after the tip. */
  lemma {:induction false} GuardsAreOneComparison(st: State, f: File)
    requires st.tips != [] && Increasing(st.tips) && f.start <= f.end
    ensures Accepted(st, f) <==> f.start > st.tips[|st.tips| - 1]
  {
    LastTimes(st.tips, st.maxSteps);
  }

  /** A file whose time the tip has reached is caught, however its step left the window
      and whether or not its scan ends after its time. */
  lemma {:induction false} PassedFileIsCaught(st: State, f: File)
    requires st.tips != [] && WellTimed(f) && f.time <= st.tips[|st.tips| - 1]
    ensures IsLate(f, st.tips) || IsDuplicate(f, st.tips, st.maxSteps)
    ensures forall fault :: Offer(st, f, fault) == st.(seen := st.seen + {f.key})
  {
    var last := Recent(st.tips, st.maxSteps);
    assert last[|last| - 1] == st.tips[|st.tips| - 1] && last[|last| - 1] in last;
  }

  // The steps in the store are the last of the history, in strict time order; a running
  // process's copy of the times is the store's, when it has one.
  ghost predicate Inv(st: State) {
    && Increasing(Times(st.history))
    && |st.window| <= |st.history| && st.window == Last(st.history, |st.window|)
    && (st.history != [] ==> st.window != [])
    && (st.up ==> st.window != [] && (st.tips == Times(st.window) || st.tips == []) && st.maxSteps > 0)
  }

  lemma {:induction false} IncreasingNext(files: seq<File>, f: File)
    requires Increasing(Times(files))
    requires files != [] ==> f.time > files[|files| - 1].time
    ensures Increasing(Times(files + [f]))
  {
    var times, n := Times(files + [f]), |files|;
    forall i, j | 0 <= i < j < |times|
      ensures times[i] < times[j]
    {
      assert j < n ==> Times(files)[i] < Times(files)[j];
      assert i < n - 1 ==> Times(files)[i] < Times(files)[n - 1];
    }
  }

  lemma {:induction false} LastNext(window: seq<File>, history: seq<File>, f: File, m: nat)
    requires m > 0 && |window| <= |history| && window == Last(history, |window|)
    ensures var next := Last(window + [f], m);
            && 0 < |next| <= |history| + 1 && |next| <= m
            && next == Last(history + [f], |next|) && next[|next| - 1] == f
  {
  }

  lemma {:induction false} CommitKeepsOrder(st: State, f: File)
    requires Increasing(Times(st.history)) && |st.window| <= |st.history| && st.window == Last(st.history, |st.window|)
    requires st.maxSteps > 0
    requires st.window != [] ==> f.time > st.window[|st.window| - 1].time
    requires st.window == [] ==> st.history == []
    ensures var next := Commit(st, f);
            && Increasing(Times(next.history))
            && 0 < |next.window| <= |next.history| && next.window == Last(next.history, |next.window|)
            && |next.window| <= st.maxSteps
            && next.window[|next.window| - 1] == f
  {
    if st.history != [] {
      assert st.window[|st.window| - 1] == st.history[|st.history| - 1];
    }
    IncreasingNext(st.history, f);
    LastNext(st.window, st.history, f, st.maxSteps);
  }

  lemma {:induction false} WindowIncreasing(st: State)
    requires Inv(st)
    ensures Increasing(Times(st.window))
  {
    var off := |st.history| - |st.window|;
    forall i, j | 0 <= i < j < |st.window|
      ensures Times(st.window)[i] < Times(st.window)[j]
    {
      assert Times(st.history)[off + i] < Times(st.history)[off + j];
    }
  }

  // A single writer that, once an append is committed, gets to replace its tips.
  ghost predicate Clean(fault: Fault) {
    fault.NoFault? || fault.BeforeCommit? || fault.Unread?
  }

  lemma {:induction false} OfferKeepsInv(st: State, f: File, fault: Fault)
    requires Inv(st) && st.up && WellTimed(f) && Clean(fault)
    ensures Inv(Offer(st, f, fault)) && Offer(st, f, fault).up
  {
    if st.tips != [] && Accepted(st, f) && !fault.BeforeCommit? {
      WindowIncreasing(st);
      GuardsAreOneComparison(st, f);
      CommitKeepsOrder(st.(seen := st.seen + {f.key}), f);
    }
  }

  lemma {:induction false} OfferAllKeepsInv(st: State, keys: seq<string>, files: string -> File, faults: string -> Fault)
    requires Inv(st) && st.up
    requires forall k :: k in keys ==> WellTimed(files(k)) && Clean(faults(k))
    ensures Inv(OfferAll(st, keys, files, faults))
    decreases |keys|
  {
    if keys != [] {
      OfferKeepsInv(st, files(keys[0]), faults(keys[0]));
      OfferAllKeepsInv(Offer(st, files(keys[0]), faults(keys[0])), keys[1..], files, faults);
    }
  }

  lemma {:induction false} CommitAllKeepsInv(st: State, keys: seq<string>, files: string -> File)
    requires st.window == [] && st.history == [] && !st.up && st.maxSteps > 0
    requires Increasing(KeyTimes(keys, files))
    ensures var next := CommitAll(st, keys, files);
            && Inv(next) && !next.up && next.maxSteps == st.maxSteps && |next.window| <= st.maxSteps
            && (keys == [] ==> next == st)
            && (keys != [] ==> next.window != [] && next.window[|next.window| - 1] == files(keys[|keys| - 1]))
  {
    if keys != [] {
      var n := |keys| - 1;
      assert KeyTimes(keys[..n], files) == KeyTimes(keys, files)[..n];
      CommitAllKeepsInv(st, keys[..n], files);
      var prev := CommitAll(st, keys[..n], files);
      if n > 0 {
        assert KeyTimes(keys, files)[n - 1] < KeyTimes(keys, files)[n];
      }
      CommitKeepsOrder(prev, files(keys[n]));
    }
  }

  function KeyTimes(keys: seq<string>, files: string -> File): (r: seq<int>)
    ensures |r| == |keys| && forall i :: 0 <= i < |keys| ==> r[i] == files(keys[i]).time
  {
    seq(|keys|, i requires 0 <= i < |keys| => files(keys[i]).time)
  }

  // What the world must grant: files inside their scan windows, seeds in increasing
  // time, a positive window, one writer and no failure between commit and read-back.
  ghost predicate Admissible(e: Event, files: string -> File) {
    match e
    case Started(listing, maxSteps, backfill, _) => maxSteps > 0 && Increasing(KeyTimes(Seeds(listing, backfill, files), files))
    case Polled(listing, faults) => forall k :: k in listing ==> WellTimed(files(k)) && Clean(faults(k))
    case Swept(_) => true
  }

  lemma {:induction false} SeedingKeepsInv(blank: State, seeds: seq<string>, n: nat, files: string -> File)
    requires blank.window == [] && blank.history == [] && !blank.up && blank.maxSteps > 0
    requires n <= |seeds| && Increasing(KeyTimes(seeds, files))
    ensures Inv(CommitAll(blank, seeds[..n], files)) && !CommitAll(blank, seeds[..n], files).up
    ensures CommitAll(blank, seeds[..n], files).maxSteps == blank.maxSteps
  {
    assert KeyTimes(seeds[..n], files) == KeyTimes(seeds, files)[..n];
    CommitAllKeepsInv(blank, seeds[..n], files);
  }

  lemma {:induction false} StartKeepsInv(st: State, listing: seq<string>, maxSteps: nat, backfill: nat, crashAt: Option<nat>, files: string -> File)
    requires Inv(st) && maxSteps > 0 && Increasing(KeyTimes(Seeds(listing, backfill, files), files))
    ensures Inv(StartUp(st, listing, maxSteps, backfill, crashAt, files))
  {
    var blank := State(st.window, st.history, Times(st.window), {}, maxSteps, false);
    if st.window == [] {
      var seeds := Seeds(listing, backfill, files);
      var n: nat := if Crashes(seeds, crashAt) then crashAt.value else |seeds|;
      assert seeds[..|seeds|] == seeds;
      SeedingKeepsInv(blank, seeds, n, files);
    } else {
      assert CommitAll(blank, [], files) == blank;
    }
  }

  lemma {:induction false} PollKeepsInv(st: State, listing: seq<string>, files: string -> File, faults: string -> Fault)
    requires Inv(st) && forall k :: k in listing ==> WellTimed(files(k)) && Clean(faults(k))
    ensures Inv(Poll(st, listing, files, faults))
  {
    if st.up {
      var unseen := Filter(listing, NotIn(st.seen));
      SortKeepsMembers(unseen, ByStart(files));
      SameElems(NewKeys(listing, st.seen, files), unseen);
      OfferAllKeepsInv(st, NewKeys(listing, st.seen, files), files, faults);
    }
  }

  /** In every single-writer run, over any listings and any restarts, the store holds the
      last steps of the history, in strictly increasing time order. */
  lemma {:induction false} EveryRunKeepsOrder(events: seq<Event>, files: string -> File)
    requires forall e :: e in events ==> Admissible(e, files)
    ensures Inv(Run(events, files))
  {
    if events != [] {
      var n := |events| - 1;
      assert events[n] in events;
      EveryRunKeepsOrder(events[..n], files);
      var st := Run(events[..n], files);
      match events[n] {
        case Started(listing, maxSteps, backfill, crashAt) => StartKeepsInv(st, listing, maxSteps, backfill, crashAt, files);
        case Polled(listing, faults) => PollKeepsInv(st, listing, files, faults);
        case Swept(listing) =>
      }
    }
  }

  /** So no file is ever appended twice, across restarts that lose `seen` and after its
      step was trimmed. */
  lemma {:induction false} NeverAppendedTwice(events: seq<Event>, files: string -> File)
    requires forall e :: e in events ==> Admissible(e, files)
    ensures Distinct(Run(events, files).history)
  {
    EveryRunKeepsOrder(events, files);
    var h := Run(events, files).history;
    forall i, j | 0 <= i < j < |h|
      ensures h[i] != h[j]
    {
      assert Times(h)[i] < Times(h)[j];
    }
  }

  /* ---------------------------------- what a poll appends ---------------------------------- */

  // No two of the keys start their scan together.
  ghost predicate DistinctStarts(keys: seq<string>, files: string -> File) {
    forall a, b :: a in keys && b in keys && a != b ==> files(a).start != files(b).start
  }

  // Of any two of the keys, one ends its scan before the other starts.
  ghost predicate DisjointScans(keys: seq<string>, files: string -> File) {
    forall a, b :: a in keys && b in keys && a != b ==> files(a).end < files(b).start || files(b).end < files(a).start
  }

  // Each key starts its scan before the next.
  ghost predicate InScanOrder(keys: seq<string>, files: string -> File) {
    forall i, j :: 0 <= i < j < |keys| ==> files(keys[i]).start < files(keys[j]).start
  }

  lemma {:induction false} ByStartOrder(files: string -> File)
    ensures TotalPreorder(ByStart(files))
  {
  }

  // The keys a poll goes through are the listed unseen ones, in scan order.
  lemma {:induction false} NewKeysInOrder(listing: seq<string>, seen: set<string>, files: string -> File)
    requires Distinct(listing) && DistinctStarts(listing, files)
    ensures InScanOrder(NewKeys(listing, seen, files), files)
    ensures forall k :: k in NewKeys(listing, seen, files) <==> k in listing && k !in seen
  {
    var unseen, keys := Filter(listing, NotIn(seen)), NewKeys(listing, seen, files);
    ByStartOrder(files);
    SortSorts(unseen, ByStart(files));
    SameElems(keys, unseen);
    FilterDistinct(listing, NotIn(seen));
    DistinctAsMultiset(unseen, keys);
    forall i, j | 0 <= i < j < |keys|
      ensures files(keys[i]).start < files(keys[j]).start
    {
      assert ByStart(files)(keys[i], keys[j]);
      assert keys[i] in unseen && keys[j] in unseen;
    }
  }

  lemma {:induction false} FirstInScanOrder(keys: seq<string>, files: string -> File)
    requires keys != [] && InScanOrder(keys, files)
    ensures keys[0] in Elems(keys) && Elems(keys[1..]) == Elems(keys) - {keys[0]}
    ensures forall k :: k in keys ==> files(keys[0]).start <= files(k).start && (k != keys[0] ==> files(keys[0]).start < files(k).start)
    ensures InScanOrder(keys[1..], files)
  {
    forall k | k in keys[1..]
      ensures files(keys[0]).start < files(k).start
    {
      var i :| 0 <= i < |keys[1..]| && keys[1..][i] == k;
      assert keys[i + 1] == k;
    }
    assert forall k :: k in keys <==> k == keys[0] || k in keys[1..];
  }

  // One set of keys has one scan order.
  lemma {:induction false} ScanOrderUnique(a: seq<string>, b: seq<string>, files: string -> File)
    requires InScanOrder(a, files) && InScanOrder(b, files) && Elems(a) == Elems(b)
    ensures a == b
  {
    EmptyElems(a);
    EmptyElems(b);
    if a != [] {
      FirstInScanOrder(a, files);
      FirstInScanOrder(b, files);
      assert a[0] in b && b[0] in a;
      ScanOrderUnique(a[1..], b[1..], files);
      assert a == [a[0]] + a[1..] && b == [b[0]] + b[1..];
    }
  }

  /** A poll does not depend on the order its keys are listed in, whatever goes wrong. */
  lemma {:induction false} PollIgnoresListOrder(st: State, listing: seq<string>, other: seq<string>, files: string -> File, faults: string -> Fault)
    requires Distinct(listing) && Distinct(other) && DistinctStarts(listing, files)
    requires forall k :: k in listing <==> k in other
    ensures Poll(st, listing, files, faults) == Poll(st, other, files, faults)
  {
    NewKeysInOrder(listing, st.seen, files);
    NewKeysInOrder(other, st.seen, files);
    assert Elems(NewKeys(listing, st.seen, files)) == Elems(NewKeys(other, st.seen, files));
    ScanOrderUnique(NewKeys(listing, st.seen, files), NewKeys(other, st.seen, files), files);
  }

  // The files of the keys that start after `tip`, in the keys' order.
  function After(keys: seq<string>, tip: int, files: string -> File): seq<File> {
    if keys == [] then []
    else (if files(keys[0]).start > tip then [files(keys[0])] else []) + After(keys[1..], tip, files)
  }

  // `history` with those files added one by one.
  function Extended(history: seq<File>, keys: seq<string>, tip: int, files: string -> File): seq<File>
    decreases |keys|
  {
    if keys == [] then history
    else Extended(if files(keys[0]).start > tip then history + [files(keys[0])] else history, keys[1..], tip, files)
  }

  lemma {:induction false} ExtendedFirst(history: seq<File>, keys: seq<string>, tip: int, files: string -> File)
    requires keys != []
    ensures Extended(history, keys, tip, files)
            == Extended(if files(keys[0]).start > tip then history + [files(keys[0])] else history, keys[1..], tip, files)
  {
  }

  lemma {:induction false} ExtendedIs(history: seq<File>, keys: seq<string>, tip: int, files: string -> File)
    ensures Extended(history, keys, tip, files) == history + After(keys, tip, files)
    decreases |keys|
  {
    if keys != [] {
      ExtendedIs(if files(keys[0]).start > tip then history + [files(keys[0])] else history, keys[1..], tip, files);
    }
  }

  lemma {:induction false} AllAfter(history: seq<File>, keys: seq<string>, tip: int, later: int, files: string -> File)
    requires forall k :: k in keys ==> files(k).start > tip && files(k).start > later
    ensures Extended(history, keys, tip, files) == Extended(history, keys, later, files)
    decreases |keys|
  {
    if keys != [] {
      AllAfter(history + [files(keys[0])], keys[1..], tip, later, files);
    }
  }

  // The keys can be polled in this order, without overlaps and without faults.
  ghost predicate Pollable(keys: seq<string>, files: string -> File, faults: string -> Fault) {
    && InScanOrder(keys, files) && DisjointScans(keys, files)
    && forall k :: k in keys ==> WellTimed(files(k)) && faults(k).NoFault?
  }

  lemma {:induction false} RestPollable(keys: seq<string>, files: string -> File, faults: string -> Fault)
    requires keys != [] && Pollable(keys, files, faults)
    ensures WellTimed(files(keys[0])) && faults(keys[0]).NoFault?
    ensures Pollable(keys[1..], files, faults)
    ensures forall k :: k in keys[1..] ==> files(k).start > files(keys[0]).start && files(k).start > files(keys[0]).time
  {
    FirstInScanOrder(keys, files);
    assert keys[0] in keys;
    assert forall k :: k in keys[1..] <==> k in Elems(keys[1..]);
  }

  lemma {:induction false} OfferAllFirst(st: State, keys: seq<string>, files: string -> File, faults: string -> Fault)
    requires keys != [] && !Aborts(st, files(keys[0]), faults(keys[0]))
    ensures OfferAll(st, keys, files, faults) == OfferAll(Offer(st, files(keys[0]), faults(keys[0])), keys[1..], files, faults)
  {
  }

  lemma {:induction false} OneMoreAppended(st: State, next: State, keys: seq<string>, tip: int, later: int, files: string -> File, faults: string -> Fault)
    requires keys != [] && !Aborts(st, files(keys[0]), faults(keys[0])) && next == Offer(st, files(keys[0]), faults(keys[0]))
    requires forall k :: k in keys[1..] ==> files(k).start > files(keys[0]).start && files(k).start > files(keys[0]).time
    requires if files(keys[0]).start > tip then next.history == st.history + [files(keys[0])] && later == files(keys[0]).time
             else next.history == st.history && later == tip
    requires OfferAll(next, keys[1..], files, faults).history == Extended(next.history, keys[1..], later, files)
    ensures OfferAll(st, keys, files, faults).history == Extended(st.history, keys, tip, files)
  {
    OfferAllFirst(st, keys, files, faults);
    ExtendedFirst(st.history, keys, tip, files);
    if files(keys[0]).start > tip {
      AllAfter(next.history, keys[1..], tip, later, files);
    }
  }

  lemma {:induction false} OfferAllAppends(st: State, keys: seq<string>, files: string -> File, faults: string -> Fault)
    requires Inv(st) && st.up && st.tips != [] && Pollable(keys, files, faults)
    ensures OfferAll(st, keys, files, faults).history == Extended(st.history, keys, st.tips[|st.tips| - 1], files)
    decreases |keys|
  {
    if keys != [] {
      RestPollable(keys, files, faults);
      OfferOneAppends(st, files(keys[0]));
      var next := Offer(st, files(keys[0]), NoFault);
      OfferAllAppends(next, keys[1..], files, faults);
      OneMoreAppended(st, next, keys, st.tips[|st.tips| - 1], next.tips[|next.tips| - 1], files, faults);
    }
  }

  // Without a fault, a file that starts after the tip is appended and becomes the tip.
  lemma {:induction false} OfferOneAppends(st: State, f: File)
    requires Inv(st) && st.up && st.tips != [] && WellTimed(f)
    ensures var next, tip := Offer(st, f, NoFault), st.tips[|st.tips| - 1];
            && Inv(next) && next.up && next.tips != [] && !Aborts(st, f, NoFault)
            && (if f.start > tip then next.history == st.history + [f] && next.tips[|next.tips| - 1] == f.time
                else next == st.(seen := st.seen + {f.key}))
  {
    WindowIncreasing(st);
    GuardsAreOneComparison(st, f);
    OfferKeepsInv(st, f, NoFault);
    if f.start > st.tips[|st.tips| - 1] {
      AppendedIsTip(st, f);
    }
  }

  lemma {:induction false} AppendedIsTip(st: State, f: File)
    requires Inv(st) && st.up && st.tips != [] && Accepted(st, f)
    ensures var next := Offer(st, f, NoFault);
            next.history == st.history + [f] && next.tips != [] && next.tips[|next.tips| - 1] == f.time
  {
    var window := Last(st.window + [f], st.maxSteps);
    assert window[|window| - 1] == f;
  }

  // `added` is every listed unseen file that starts after `tip`, in scan order.
  ghost predicate AddsNewer(added: seq<File>, listing: seq<string>, seen: set<string>, tip: int, files: string -> File) {
    && (forall f :: f in added <==> exists k :: k in listing && k !in seen && files(k) == f && f.start > tip)
    && OrderedByScan(added)
  }

  ghost predicate OrderedByScan(files: seq<File>) {
    forall i, j :: 0 <= i < j < |files| ==> files[i].start < files[j].start
  }

  lemma {:induction false} OrderedCons(f: File, later: seq<File>)
    requires OrderedByScan(later) && forall g :: g in later ==> f.start < g.start
    ensures OrderedByScan([f] + later)
  {
    forall i, j | 0 <= i < j < |[f] + later|
      ensures ([f] + later)[i].start < ([f] + later)[j].start
    {
      assert ([f] + later)[j] == later[j - 1] && later[j - 1] in later;
    }
  }

  lemma {:induction false} AfterMembers(keys: seq<string>, tip: int, files: string -> File, f: File)
    ensures f in After(keys, tip, files) <==> exists k :: k in keys && files(k) == f && f.start > tip
  {
    if keys != [] {
      AfterMembers(keys[1..], tip, files, f);
      if f in After(keys[1..], tip, files) {
        var k :| k in keys[1..] && files(k) == f && f.start > tip;
        assert k in keys;
      }
    }
  }

  lemma {:induction false} AfterInOrder(keys: seq<string>, tip: int, files: string -> File)
    requires InScanOrder(keys, files)
    ensures OrderedByScan(After(keys, tip, files))
  {
    if keys != [] {
      var rest := keys[1..];
      FirstInScanOrder(keys, files);
      AfterInOrder(rest, tip, files);
      forall f | f in After(rest, tip, files)
        ensures files(keys[0]).start < f.start
      {
        AfterMembers(rest, tip, files, f);
        var k :| k in rest && files(k) == f && f.start > tip;
        assert k in Elems(keys[1..]);
      }
      OrderedCons(files(keys[0]), After(rest, tip, files));
    }
  }

  /** A poll without faults, over scans that do not overlap, appends exactly the listed
      unseen files that start after the tip, in scan order, however they are listed. */
  lemma {:induction false} PollAppendsTheNewer(st: State, listing: seq<string>, files: string -> File, faults: string -> Fault)
    requires Inv(st) && st.up && st.tips != [] && Distinct(listing) && DisjointScans(listing, files)
    requires forall k :: k in listing ==> WellTimed(files(k)) && faults(k).NoFault?
    ensures var h := Poll(st, listing, files, faults).history;
            st.history <= h && AddsNewer(h[|st.history|..], listing, st.seen, st.tips[|st.tips| - 1], files)
  {
    var keys, tip := NewKeys(listing, st.seen, files), st.tips[|st.tips| - 1];
    NewKeysInOrder(listing, st.seen, files);
    OfferAllAppends(st, keys, files, faults);
    ExtendedIs(st.history, keys, tip, files);
    AfterInOrder(keys, tip, files);
    forall f
      ensures f in After(keys, tip, files) <==> exists k :: k in listing && k !in st.seen && files(k) == f && f.start > tip
    {
      AfterMembers(keys, tip, files, f);
    }
    assert (st.history + After(keys, tip, files))[|st.history|..] == After(keys, tip, files);
  }

  // `k` is the listed unseen key whose scan starts first.
  ghost predicate ComesFirst(k: string, listing: seq<string>, seen: set<string>, files: string -> File) {
    k in listing && k !in seen && forall other :: other in listing && other !in seen ==> files(k).start <= files(other).start
  }

  /** The first unseen key is always noted. Without a tip it is all the poll does; so it is
      when its append fails, committed or not. */
  lemma {:induction false} FailureEndsThePoll(st: State, listing: seq<string>, files: string -> File, faults: string -> Fault, k: string)
    requires st.up && Distinct(listing) && DistinctStarts(listing, files) && ComesFirst(k, listing, st.seen, files)
    ensures var next, noted := Poll(st, listing, files, faults), st.(seen := st.seen + {files(k).key});
            && (st.tips == [] ==> next == noted)
            && (st.tips != [] && Accepted(st, files(k)) && faults(k).BeforeCommit? ==> next == noted)
            && (st.tips != [] && Accepted(st, files(k)) && faults(k).AfterCommit? ==> next == Commit(noted, files(k)))
  {
    var keys := NewKeys(listing, st.seen, files);
    NewKeysInOrder(listing, st.seen, files);
    assert k in keys;
    FirstInScanOrder(keys, files);
    assert keys[0] in listing && keys[0] !in st.seen;
  }

  /** A file gets through exactly when none of the recent times is inside its scan and the
      scan ends after the tip. */
  lemma {:induction false} AcceptedExactly(st: State, f: File)
    requires st.tips != []
    ensures Accepted(st, f) <==>
              && f.end > st.tips[|st.tips| - 1]
              && forall i :: 0 <= i < |st.tips| && (st.maxSteps > 0 ==> i >= |st.tips| - st.maxSteps) ==> st.tips[i] < f.start || f.end < st.tips[i]
  {
    var recent := Recent(st.tips, st.maxSteps);
    var off := |st.tips| - |recent|;
    assert forall i :: 0 <= i < |recent| ==> recent[i] == st.tips[off + i];
    if !IsDuplicate(f, st.tips, st.maxSteps) {
      forall i | off <= i < |st.tips|
        ensures st.tips[i] < f.start || f.end < st.tips[i]
      {
        assert recent[i - off] in recent;
      }
    }
  }

  /** The sweep notes what it lists; without a tip only the first missed key, by name. */
  lemma {:induction false} SweepExactly(st: State, listing: seq<string>)
    ensures !st.up ==> Sweep(st, listing) == st
    ensures st.up && st.tips != [] ==> Sweep(st, listing) == st.(seen := st.seen + set k | k in listing)
    ensures st.up && st.tips == [] ==>
              || (Sweep(st, listing) == st && forall k :: k in listing ==> k in st.seen)
              || exists k :: k in listing && k !in st.seen && Sweep(st, listing) == st.(seen := st.seen + {k})
                   && forall other :: other in listing && other !in st.seen ==> Precedes(k, other)
  {
    if st.up && st.tips == [] {
      var unseen, missed := Filter(listing, NotIn(st.seen)), Missed(listing, st.seen);
      StringOrder();
      SortSorts(unseen, StrLe);
      SameElems(missed, unseen);
      if missed != [] {
        FirstMissed(st, listing, missed);
      } else {
        assert forall k :: k in unseen <==> k in missed;
        assert st.seen + {} == st.seen;
      }
    }
  }

  lemma {:induction false} FirstMissed(st: State, listing: seq<string>, missed: seq<string>)
    requires st.up && st.tips == [] && missed == Missed(listing, st.seen) && missed != []
    requires SortedBy(missed, StrLe) && forall k :: k in missed <==> k in listing && k !in st.seen
    ensures exists k :: k in listing && k !in st.seen && Sweep(st, listing) == st.(seen := st.seen + {k})
              && forall other :: other in listing && other !in st.seen ==> Precedes(k, other)
  {
    var k := missed[0];
    assert k in missed && Elems(missed[..1]) == {k};
    forall other | other in listing && other !in st.seen
      ensures Precedes(k, other)
    {
      var i :| 0 <= i < |missed| && missed[i] == other;
      StrLeTotal(k, k);
      assert i > 0 ==> StrLe(missed[0], missed[i]);
      StrLeExactly(k, other);
    }
  }

  /** A start that gets to its loop has seen exactly the listed keys that end at or before
      the tip, which is the last time in the store. */
  lemma {:induction false} StartMarksThePassed(st: State, listing: seq<string>, maxSteps: nat, backfill: nat, crashAt: Option<nat>, files: string -> File)
    ensures var next := StartUp(st, listing, maxSteps, backfill, crashAt, files);
            next.up ==> next.window != [] && next.tips == Times(next.window) && next.maxSteps == maxSteps
                        && forall k :: k in next.seen <==> k in listing && files(k).end <= next.window[|next.window| - 1].time
  {
    var blank := State(st.window, st.history, Times(st.window), {}, maxSteps, false);
    CommitAllFrame(blank, Done(if st.window == [] then Seeds(listing, backfill, files) else [], crashAt), files);
  }

  lemma {:induction false} CommitAllFrame(st: State, keys: seq<string>, files: string -> File)
    ensures var next := CommitAll(st, keys, files); next.up == st.up && next.maxSteps == st.maxSteps
  {
    if keys != [] {
      CommitAllFrame(st, keys[..|keys| - 1], files);
    }
  }

  // `seeds` are the newest `n` listed keys, oldest first.
  ghost predicate NewestOf(seeds: seq<string>, listing: seq<string>, n: nat, files: string -> File) {
    && |seeds| == (if |listing| < n then |listing| else n)
    && (forall i, j :: 0 <= i < j < |seeds| ==> files(seeds[i]).start <= files(seeds[j]).start)
    && exists passed: seq<string> :: multiset(listing) == multiset(passed) + multiset(seeds)
                        && forall a, b :: a in passed && b in seeds ==> files(a).start <= files(b).start
  }

  lemma {:induction false} SeedsAreTheNewest(listing: seq<string>, backfill: nat, files: string -> File)
    ensures NewestOf(Seeds(listing, backfill, files), listing, if backfill == 0 then 1 else backfill, files)
  {
    var sorted, seeds := Sort(listing, ByStart(files)), Seeds(listing, backfill, files);
    ByStartOrder(files);
    SortSorts(listing, ByStart(files));
    var passed := sorted[..|sorted| - |seeds|];
    assert sorted == passed + seeds;
    SplitSorted(sorted, passed, seeds, files);
    Newest(passed, seeds, listing, if backfill == 0 then 1 else backfill, files);
  }

  lemma {:induction false} Newest(passed: seq<string>, seeds: seq<string>, listing: seq<string>, n: nat, files: string -> File)
    requires |seeds| == if |listing| < n then |listing| else n
    requires forall i, j :: 0 <= i < j < |seeds| ==> files(seeds[i]).start <= files(seeds[j]).start
    requires multiset(listing) == multiset(passed) + multiset(seeds)
    requires forall a, b :: a in passed && b in seeds ==> files(a).start <= files(b).start
    ensures NewestOf(seeds, listing, n, files)
  {
  }

  lemma {:induction false} SplitSorted(sorted: seq<string>, front: seq<string>, back: seq<string>, files: string -> File)
    requires SortedBy(sorted, ByStart(files)) && sorted == front + back
    ensures forall i, j :: 0 <= i < j < |back| ==> files(back[i]).start <= files(back[j]).start
    ensures multiset(sorted) == multiset(front) + multiset(back)
    ensures forall a, b :: a in front && b in back ==> files(a).start <= files(b).start
  {
    forall i, j | 0 <= i < j < |back|
      ensures files(back[i]).start <= files(back[j]).start
    {
      assert ByStart(files)(sorted[|front| + i], sorted[|front| + j]);
    }
    forall a, b | a in front && b in back
      ensures files(a).start <= files(b).start
    {
      var i :| 0 <= i < |front| && front[i] == a;
      var j :| 0 <= j < |back| && back[j] == b;
      assert ByStart(files)(sorted[i], sorted[|front| + j]);
    }
  }

  // The files of the keys, in their order.
  function FilesOf(keys: seq<string>, files: string -> File): seq<File> {
    Map(keys, files)
  }

  lemma {:induction false} CommitAllHistory(st: State, keys: seq<string>, files: string -> File)
    ensures CommitAll(st, keys, files).history == st.history + FilesOf(keys, files)
  {
    if keys != [] {
      var n := |keys| - 1;
      CommitAllHistory(st, keys[..n], files);
      assert FilesOf(keys, files) == FilesOf(keys[..n], files) + [files(keys[n])];
    }
  }

  /** A start on an empty store that runs through appends the newest listed files, oldest
      first, at least one of them; on a store with steps it appends nothing. */
  lemma {:induction false} StartSeedsTheNewest(st: State, listing: seq<string>, maxSteps: nat, backfill: nat, files: string -> File)
    ensures var h := StartUp(st, listing, maxSteps, backfill, None, files).history;
            if st.window != [] then h == st.history
            else exists seeds :: NewestOf(seeds, listing, if backfill == 0 then 1 else backfill, files) && h == st.history + FilesOf(seeds, files)
  {
    var blank := State(st.window, st.history, Times(st.window), {}, maxSteps, false);
    if st.window == [] {
      var seeds := Seeds(listing, backfill, files);
      SeedsAreTheNewest(listing, backfill, files);
      CommitAllHistory(blank, seeds, files);
    }
  }

  /** A stale tip breaks this. When an append failed after its commit, the process still
      holds the old tip: the next file keeps the order exactly when that old tip turns it
      away or it is newer than the store's tip. */
  lemma {:induction false} StaleTipExact(st: State, f: File, stored: int)
    requires Increasing(Times(st.history)) && st.history != [] && st.history[|st.history| - 1].time == stored
    requires st.tips != [] && Increasing(st.tips) && f.start <= f.end
    ensures Increasing(Times(Offer(st, f, NoFault).history))
            <==> f.start <= st.tips[|st.tips| - 1] || f.time > stored
  {
    GuardsAreOneComparison(st, f);
    var h := st.history + [f];
    var n := |st.history|;
    if f.time > stored {
      forall i, j | 0 <= i < j < |h|
        ensures Times(h)[i] < Times(h)[j]
      {
        assert i < n - 1 && j == n ==> Times(st.history)[i] < Times(st.history)[n - 1];
        assert j < n ==> Times(st.history)[i] < Times(st.history)[j];
      }
    } else {
      assert Times(h)[n - 1] >= Times(h)[n];
    }
  }

  // Three files and a run: `b` is committed and its read-back fails; `c`, older, gets past
  // the stale tip and pushes `b` out of a window of one; after a restart nothing catches `b`.
  const STALE_FILES: string -> File := k =>
    if k == "a" then File("a", 0, 1, 0, "", "") else if k == "c" then File("c", 2, 3, 2, "", "") else File("b", 4, 5, 4, "", "")

  function Always(fault: Fault): string -> Fault {
    _ => fault
  }

  const SEEDED: seq<Event> := [Started(["a"], 1, 1, None)]

  const OVERTAKEN: seq<Event> := SEEDED + [Polled(["b"], Always(AfterCommit))] + [Polled(["c"], Always(NoFault))]

  const APPENDED_AGAIN: seq<Event> := OVERTAKEN + [Started(["b"], 1, 1, None)] + [Polled(["b"], Always(NoFault))]

  lemma {:induction false} RunNext(es: seq<Event>, e: Event, files: string -> File)
    ensures Run(es + [e], files) == Step(Run(es, files), e, files)
  {
    assert (es + [e])[..|es|] == es;
  }

  lemma {:induction false} SortOne(k: string, le: (string, string) -> bool)
    ensures Sort([k], le) == [k]
  {
    assert [k][1..] == [];
    assert Sort([k][1..], le) == [];
  }

  lemma {:induction false} PollOneKey(st: State, k: string, files: string -> File, faults: string -> Fault)
    requires st.up && k !in st.seen
    ensures Poll(st, [k], files, faults) == Offer(st, files(k), faults(k))
  {
    FilterLast([], k, NotIn(st.seen));
    assert [] + [k] == [k] && [k][1..] == [];
    SortOne(k, ByStart(files));
    var next := Offer(st, files(k), faults(k));
    assert OfferAll(next, [k][1..], files, faults) == next;
  }

  lemma {:induction false} StartOneSeed(st: State, k: string, files: string -> File)
    requires st.window == []
    ensures StartUp(st, [k], 1, 1, None, files)
            == State([files(k)], st.history + [files(k)], [files(k).time], SeenAtStart([k], files(k).time, files), 1, true)
  {
    SortOne(k, ByStart(files));
    var blank := State(st.window, st.history, Times(st.window), {}, 1, false);
    assert [k][..0] == [] && Times([files(k)]) == [files(k).time];
    assert CommitAll(blank, [k], files) == Commit(blank, files(k)) == State([files(k)], st.history + [files(k)], [], {}, 1, false);
  }

  lemma {:induction false} TwiceIn(a: File, b: File, c: File)
    ensures !Distinct([a] + [b] + [c] + [b])
  {
    var h := [a] + [b] + [c] + [b];
    assert h[1] == h[3];
  }

  // With a window of one, a file that starts after the tip replaces the step.
  lemma {:induction false} StaleCommit(st: State, f: File, fault: Fault)
    requires st.maxSteps == 1 && |st.window| == 1 && |st.tips| == 1 && st.tips[0] < f.start <= f.end && (fault.NoFault? || fault.AfterCommit?)
    ensures Offer(st, f, fault) == State([f], st.history + [f], if fault.NoFault? then [f.time] else st.tips, st.seen + {f.key}, 1, st.up)
  {
    assert Last(st.window + [f], 1) == [f] && Times([f]) == [f.time];
  }

  lemma {:induction false} SeededState()
    ensures Run(SEEDED, STALE_FILES) == State([STALE_FILES("a")], [STALE_FILES("a")], [0], {}, 1, true)
  {
    var a := STALE_FILES("a");
    RunNext([], Started(["a"], 1, 1, None), STALE_FILES);
    assert [] + [Started(["a"], 1, 1, None)] == SEEDED;
    StartOneSeed(State([], [], [], {}, 1, false), "a", STALE_FILES);
    assert [] + [a] == [a] && SeenAtStart(["a"], 0, STALE_FILES) == {};
  }

  // One key over a window of one, starting after the tip.
  lemma {:induction false} OnePolled(es: seq<Event>, k: string, fault: Fault, files: string -> File)
    requires var st := Run(es, files);
             && st.up && k !in st.seen && st.maxSteps == 1 && |st.window| == 1 && |st.tips| == 1
             && st.tips[0] < files(k).start <= files(k).end && (fault.NoFault? || fault.AfterCommit?)
    ensures var st, f := Run(es, files), files(k);
            Run(es + [Polled([k], Always(fault))], files)
            == State([f], st.history + [f], if fault.NoFault? then [f.time] else st.tips, st.seen + {f.key}, 1, true)
  {
    RunNext(es, Polled([k], Always(fault)), files);
    PollOneKey(Run(es, files), k, files, Always(fault));
    StaleCommit(Run(es, files), files(k), fault);
  }

  lemma {:induction false} OvertakenState()
    ensures var a, b, c := STALE_FILES("a"), STALE_FILES("b"), STALE_FILES("c");
            Run(OVERTAKEN, STALE_FILES) == State([c], [a] + [b] + [c], [2], {"b"} + {"c"}, 1, true)
  {
    SeededState();
    OnePolled(SEEDED, "b", AfterCommit, STALE_FILES);
    assert {} + {"b"} == {"b"};
    OnePolled(SEEDED + [Polled(["b"], Always(AfterCommit))], "c", NoFault, STALE_FILES);
  }

  lemma {:induction false} RestartedState()
    ensures Run(OVERTAKEN + [Started(["b"], 1, 1, None)], STALE_FILES)
            == State([STALE_FILES("c")], Run(OVERTAKEN, STALE_FILES).history, [2], {}, 1, true)
  {
    OvertakenState();
    RunNext(OVERTAKEN, Started(["b"], 1, 1, None), STALE_FILES);
    assert SeenAtStart(["b"], 2, STALE_FILES) == {} && Times([STALE_FILES("c")]) == [2];
  }

  /** And then a file can be appended twice: in this run every file is inside its scan
      window, and one append fails after its commit. */
  lemma {:induction false} StaleTipAppendsTwice()
    ensures forall k :: WellTimed(STALE_FILES(k))
    ensures !Distinct(Run(APPENDED_AGAIN, STALE_FILES).history)
  {
    OvertakenState();
    RestartedState();
    var restarted := OVERTAKEN + [Started(["b"], 1, 1, None)];
    var st, b := Run(restarted, STALE_FILES), STALE_FILES("b");
    OnePolled(restarted, "b", NoFault, STALE_FILES);
    TwiceIn(STALE_FILES("a"), b, STALE_FILES("c"));
    assert Run(APPENDED_AGAIN, STALE_FILES).history == st.history + [b];
  }

  lemma {:induction false} IncreasingExtended(files: seq<File>, rival: File, f: File)
    requires files != [] && Increasing(Times(files))
    ensures Increasing(Times(files + [rival] + [f])) <==> files[|files| - 1].time < rival.time < f.time
  {
    var n := |files|;
    var times := Times(files + [rival] + [f]);
    if files[n - 1].time < rival.time < f.time {
      IncreasingNext(files, rival);
      IncreasingNext(files + [rival], f);
    } else {
      assert times[n - 1] == files[n - 1].time && times[n] == rival.time && times[n + 1] == f.time;
    }
  }

  /** A conflict keeps the order exactly when the rival's file is newer than the store's
      tip and the process's file is newer than the rival's: the retry asks neither. */
  lemma {:induction false} ConflictExact(st: State, f: File, rival: File)
    requires Inv(st) && st.up && st.tips != [] && Accepted(st, f)
    ensures Increasing(Times(Offer(st, f, Conflict(rival)).history))
            <==> st.window[|st.window| - 1].time < rival.time < f.time
  {
    IncreasingExtended(st.history, rival, f);
  }

  /** So when the rival committed the very same file, the file is in twice. */
  lemma {:induction false} ConflictAppendsTwice(st: State, f: File)
    requires Inv(st) && st.up && st.tips != [] && Accepted(st, f)
    ensures !Distinct(Offer(st, f, Conflict(f)).history)
  {
    var h := Offer(st, f, Conflict(f)).history;
    assert h[|h| - 2] == h[|h| - 1];
  }

  /* ---------------------------------- the process ---------------------------------- */

  lemma {:induction false} OfferAllNext(st: State, keys: seq<string>, n: nat, files: string -> File, faults: string -> Fault)
    requires n < |keys|
    ensures var next, fault := Offer(st, files(keys[n]), faults(keys[n])), faults(keys[n]);
            OfferAll(st, keys[n..], files, faults)
              == if Aborts(st, files(keys[n]), fault) then next else OfferAll(next, keys[n + 1..], files, faults)
  {
    assert keys[n..][0] == keys[n] && keys[n..][1..] == keys[n + 1..];
  }

  lemma {:induction false} MissedCovers(listing: seq<string>, seen: set<string>)
    ensures seen + Elems(Missed(listing, seen)) == seen + Elems(listing)
  {
    SortKeepsMembers(Filter(listing, NotIn(seen)), StrLe);
    SameElems(Missed(listing, seen), Filter(listing, NotIn(seen)));
  }

  class Soak {
    const files: string -> File
    var main: Arrays           // the committed store
    var tipTimes: seq<int>
    var seen: set<string>
    var maxSteps: nat
    var up: bool
    ghost var window: seq<File>
    ghost var history: seq<File>

    ghost function Abstract(): State
      reads this
    {
      State(window, history, tipTimes, seen, maxSteps, up)
    }

    ghost predicate Valid()
      reads this
    {
      Holds(main, window)
    }

    constructor (files: string -> File)
      ensures this.files == files && Valid() && Abstract() == Run([], files)
    {
      this.files := files;
      main, tipTimes, seen, maxSteps, up := map[], [], {}, 1, false;
      window, history := [], [];
    }

    // `times_in`, of a store that can be read.
    method ReadTimes() returns (times: seq<int>)
      requires Valid()
      ensures times == Times(window)
    {
      if "t" !in main {
        assert "t" in T_ARRAYS;
        return [];
      }
      var cells := main["t"];
      times := seq(|cells|, i requires 0 <= i < |cells| => if cells[i].Stamp? then cells[i].time else 0);
      assert "t" in T_ARRAYS;
    }

    // One committed append.
    method Append(f: File)
      requires Valid()
      modifies this
      ensures Valid() && Abstract() == Commit(old(Abstract()), f)
    {
      var session, trimmed := AppendStep(main, window, f, maxSteps);
      main := session;
      window := Last(window + [f], maxSteps);
      history := history + [f];
    }

    // The body of the poll loop for one key; `false` when an exception ends the poll.
    method OfferKey(f: File, fault: Fault) returns (goOn: bool)
      requires Valid()
      modifies this
      ensures Valid() && Abstract() == Offer(old(Abstract()), f, fault)
      ensures goOn == !Aborts(old(Abstract()), f, fault)
    {
      seen := seen + {f.key};
      goOn := true;
      if tipTimes == [] {
        return false;
      }
      if IsDuplicate(f, tipTimes, maxSteps) {
        return;
      }
      if IsLate(f, tipTimes) {
        return;
      }
      if fault.BeforeCommit? {
        return false;
      }
      if fault.Conflict? {
        Append(fault.rival);
      }
      Append(f);
      if fault.AfterCommit? {
        return false;
      }
      if fault.Unread? {
        tipTimes := [];
      } else {
        tipTimes := ReadTimes();
      }
    }

    method PollOnce(listing: seq<string>, faults: string -> Fault)
      requires Valid() && up
      modifies this
      ensures Valid() && Abstract() == Poll(old(Abstract()), listing, files, faults)
    {
      var keys := NewKeys(listing, seen, files);
      ghost var goal := OfferAll(Abstract(), keys, files, faults);
      var n := 0;
      var goOn := true;
      while n < |keys| && goOn
        invariant n <= |keys| && Valid()
        invariant goal == if goOn then OfferAll(Abstract(), keys[n..], files, faults) else Abstract()
        decreases |keys| - n
      {
        OfferAllNext(Abstract(), keys, n, files, faults);
        goOn := OfferKey(files(keys[n]), faults(keys[n]));
        n := n + 1;
      }
    }

    // The sweep's loop over the keys it never listed before.
    method SweepOnce(listing: seq<string>)
      requires Valid() && up
      modifies this
      ensures Valid() && Abstract() == Sweep(old(Abstract()), listing)
    {
      var missed := Missed(listing, seen);
      MissedCovers(listing, seen);
      ghost var before := Abstract();
      for n := 0 to |missed|
        invariant Valid() && (n > 0 ==> tipTimes != [])
        invariant Abstract() == before.(seen := before.seen + Elems(missed[..n]))
      {
        assert missed[..n + 1] == missed[..n] + [missed[n]];
        ElemsNext(missed[..n], missed[n]);
        seen := seen + {missed[n]};
        if tipTimes == [] {
          return;
        }
      }
      assert missed[..|missed|] == missed;
    }

    method SeedStore(seeds: seq<string>)
      requires Valid()
      modifies this
      ensures Valid() && Abstract() == CommitAll(old(Abstract()), seeds, files)
    {
      ghost var blank := Abstract();
      for n := 0 to |seeds|
        invariant Valid()
        invariant Abstract() == CommitAll(blank, seeds[..n], files)
      {
        assert seeds[..n + 1][..n] == seeds[..n];
        Append(files(seeds[n]));
      }
      assert seeds[..|seeds|] == seeds;
    }

    method Serve(crashed: bool, listing: seq<string>)
      requires Valid()
      modifies this
      ensures Valid() && Abstract() == Served(Reread(old(Abstract())), crashed, listing, files)
    {
      tipTimes := ReadTimes();
      if crashed || tipTimes == [] {
        return;
      }
      seen := SeenAtStart(listing, tipTimes[|tipTimes| - 1], files);
      up := true;
    }

    method Begin(listing: seq<string>, steps: nat, backfill: nat, crashAt: Option<nat>)
      requires Valid()
      modifies this
      ensures Valid() && Abstract() == StartUp(old(Abstract()), listing, steps, backfill, crashAt, files)
    {
      up, seen, maxSteps := false, {}, steps;
      tipTimes := ReadTimes();
      assert tipTimes == [] <==> window == [];
      var seeds := if tipTimes == [] then Seeds(listing, backfill, files) else [];
      SeedStore(Done(seeds, crashAt));
      Serve(Crashes(seeds, crashAt), listing);
    }
  }
}
