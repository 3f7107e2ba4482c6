/** The per-step tolerant loader behind EDR `position`
    (infra/cube-server/stac_higher_cube_server/edr.py). */
module TolerantLoad {
  import opened Basics

  datatype Value = Num(x: real) | NaN

  datatype Meta = Meta(dims: seq<string>, coords: set<string>, shape: seq<nat>, attrs: map<string, string>)

  datatype Variable = Variable(meta: Meta, data: seq<Value>)

  // One step's data variables: before and after reading them.
  type Lazy = map<string, Meta>
  type Loaded = map<string, Variable>

  datatype Error = StorageError | OtherError(name: string)

  // How a read of one step ends; `Unsupported` is NotImplementedError.
  datatype Answer = Data(values: map<string, seq<Value>>) | Unsupported | Failed(error: Error)

  // What the store answers per step: to the async read, the plain read, and the read
  // of whatever a missing step still has.
  datatype Source = Source(async: nat -> Answer, plain: nat -> Answer, rest: nat -> Answer)

  type Outcome = Result<Loaded, Error>

  // The selected dataset: one step per index of the append dimension, or a single
  // step when the selection collapsed it.
  datatype Selection = Stepped(steps: seq<Lazy>) | Collapsed(step: Lazy)

  datatype LoadedSelection = LoadedSteps(steps: seq<Loaded>) | LoadedOne(step: Loaded)

  /* ---------------------------------- one step ---------------------------------- */

  function WithData(step: Lazy, values: map<string, seq<Value>>): Loaded {
    map name | name in step :: Variable(step[name], if name in values then values[name] else [])
  }

  function OutcomeOf(step: Lazy, answer: Answer): Outcome {
    match answer
    case Data(values) => Ok(WithData(step, values))
    case Unsupported => Err(OtherError("NotImplementedError"))
    case Failed(e) => Err(e)
  }

  // `_load_one`
  function LoadOne(step: Lazy, source: Source, i: nat): Outcome {
    if source.async(i).Unsupported? then OutcomeOf(step, source.plain(i)) else OutcomeOf(step, source.async(i))
  }

  function Size(shape: seq<nat>): nat {
    if shape == [] then 1 else shape[0] * Size(shape[1..])
  }

  /** The size of a shape is the product of its lengths. */
  lemma {:induction false} SizeIsTheProduct(a: seq<nat>, b: seq<nat>, n: nat)
    ensures Size(a + b) == Size(a) * Size(b) && Size([n]) == n
  {
    assert [n][1..] == [];
    if a == [] {
      assert a + b == b;
    } else {
      assert (a + b)[1..] == a[1..] + b;
      SizeIsTheProduct(a[1..], b, n);
      assert a[0] * (Size(a[1..]) * Size(b)) == a[0] * Size(a[1..]) * Size(b);
    }
  }

  predicate Along(meta: Meta, dim: string) {
    dim in meta.dims || dim in meta.coords
  }

  function NaNs(n: nat): (r: seq<Value>)
    ensures |r| == n && forall v :: v in r ==> v == NaN
  {
    seq(n, _ => NaN)
  }

  // `_as_missing(step, dim).load()`: NaN along the dimension, the rest read as usual.
  function AsMissing(step: Lazy, dim: string, rest: Answer): Outcome {
    match OutcomeOf(step, rest)
    case Err(e) => Err(e)
    case Ok(read) => Ok(map name | name in step ::
      if Along(step[name], dim) then Variable(step[name], NaNs(Size(step[name].shape))) else read[name])
  }

  /** A missing step keeps every variable with its dimensions, coordinates, shape and
      attributes; along the dimension it is all NaN and as large as its shape. */
  lemma {:induction false} MissingKeepsShape(step: Lazy, dim: string, rest: Answer, name: string)
    requires AsMissing(step, dim, rest).Ok? && name in step
    ensures var filled := AsMissing(step, dim, rest).value;
            && filled.Keys == step.Keys
            && filled[name].meta == step[name]
            && (Along(step[name], dim) ==> |filled[name].data| == Size(step[name].shape) && forall v :: v in filled[name].data ==> v == NaN)
            && (!Along(step[name], dim) ==> rest.Data? && filled[name] == WithData(step, rest.values)[name])
  {
  }

  /* ---------------------------------- the scheduled loads ---------------------------------- */

  datatype Task = Waiting | Running | Done(outcome: Outcome)

  // The tasks under the semaphore and its free permits.
  datatype Pool = Pool(tasks: seq<Task>, free: int)

  datatype Move = Acquire(i: nat) | Finish(i: nat)

  function Start(n: nat, concurrency: nat): Pool {
    Pool(seq(n, _ => Waiting), concurrency)
  }

  predicate Enabled(p: Pool, m: Move) {
    m.i < |p.tasks| &&
    match m
    case Acquire(i) => p.tasks[i] == Waiting && p.free > 0
    case Finish(i) => p.tasks[i] == Running
  }

  function Apply(p: Pool, m: Move, outcome: nat -> Outcome): Pool
    requires Enabled(p, m)
  {
    match m
    case Acquire(i) => Pool(p.tasks[i := Running], p.free - 1)
    case Finish(i) => Pool(p.tasks[i := Done(outcome(i))], p.free + 1)
  }

  // `moves` leads from `p` to `q`, each move enabled where it is made.
  ghost predicate Leads(p: Pool, moves: seq<Move>, q: Pool, outcome: nat -> Outcome)
    decreases |moves|
  {
    if moves == [] then p == q
    else Enabled(p, moves[0]) && Leads(Apply(p, moves[0], outcome), moves[1..], q, outcome)
  }

  function InFlight(tasks: seq<Task>): nat {
    if tasks == [] then 0 else (if tasks[0] == Running then 1 else 0) + InFlight(tasks[1..])
  }

  // Moves still to be made: two per waiting task, one per running task.
  function Remaining(tasks: seq<Task>): nat {
    if tasks == [] then 0
    else (if tasks[0] == Waiting then 2 else if tasks[0] == Running then 1 else 0) + Remaining(tasks[1..])
  }

  ghost predicate PoolInv(p: Pool, n: nat, concurrency: nat, outcome: nat -> Outcome) {
    && |p.tasks| == n
    && p.free >= 0 && p.free + InFlight(p.tasks) == concurrency
    && forall i :: 0 <= i < n && p.tasks[i].Done? ==> p.tasks[i].outcome == outcome(i)
  }

  lemma {:induction false} ChangeOne(tasks: seq<Task>, i: nat, t: Task)
    requires i < |tasks|
    ensures InFlight(tasks[i := t]) == InFlight(tasks) + (if t == Running then 1 else 0) - (if tasks[i] == Running then 1 else 0)
    ensures Remaining(tasks[i := t]) == Remaining(tasks)
              + (if t == Waiting then 2 else if t == Running then 1 else 0)
              - (if tasks[i] == Waiting then 2 else if tasks[i] == Running then 1 else 0)
  {
    if i == 0 {
      assert tasks[0 := t][1..] == tasks[1..];
    } else {
      assert tasks[i := t][1..] == tasks[1..][i - 1 := t];
      ChangeOne(tasks[1..], i - 1, t);
    }
  }

  lemma {:induction false} AllWaiting(n: nat)
    ensures InFlight(seq(n, _ => Waiting)) == 0 && Remaining(seq(n, _ => Waiting)) == 2 * n
  {
    if n > 0 {
      assert seq<Task>(n, _ => Waiting)[1..] == seq(n - 1, _ => Waiting);
      AllWaiting(n - 1);
    }
  }

  /** Every schedule keeps at most `concurrency` loads in flight, records each step's own
      outcome, and uses up exactly one remaining move per move. */
  lemma {:induction false} EverySchedule(p: Pool, moves: seq<Move>, q: Pool, n: nat, concurrency: nat, outcome: nat -> Outcome)
    requires PoolInv(p, n, concurrency, outcome) && Leads(p, moves, q, outcome)
    ensures PoolInv(q, n, concurrency, outcome) && InFlight(q.tasks) <= concurrency
    ensures |moves| + Remaining(q.tasks) == Remaining(p.tasks)
    decreases |moves|
  {
    if moves != [] {
      var m := moves[0];
      var next := Apply(p, m, outcome);
      ChangeOne(p.tasks, m.i, next.tasks[m.i]);
      EverySchedule(next, moves[1..], q, n, concurrency, outcome);
    }
  }

  lemma {:induction false} UnfinishedTask(tasks: seq<Task>)
    ensures Remaining(tasks) > 0 <==> exists i :: 0 <= i < |tasks| && !tasks[i].Done?
    ensures InFlight(tasks) > 0 <==> exists i :: 0 <= i < |tasks| && tasks[i] == Running
  {
    if tasks != [] {
      UnfinishedTask(tasks[1..]);
      assert forall i :: 1 <= i < |tasks| ==> tasks[i] == tasks[1..][i - 1];
      if exists i :: 0 <= i < |tasks[1..]| && !tasks[1..][i].Done? {
        var i :| 0 <= i < |tasks[1..]| && !tasks[1..][i].Done?;
        assert !tasks[i + 1].Done?;
      }
      if exists i :: 0 <= i < |tasks[1..]| && tasks[1..][i] == Running {
        var i :| 0 <= i < |tasks[1..]| && tasks[1..][i] == Running;
        assert tasks[i + 1] == Running;
      }
    }
  }

  /** No schedule gets stuck while there is a permit to hand out. */
  lemma {:induction false} NeverStuck(p: Pool, n: nat, concurrency: nat, outcome: nat -> Outcome)
    requires PoolInv(p, n, concurrency, outcome) && concurrency > 0 && Remaining(p.tasks) > 0
    ensures exists m :: Enabled(p, m)
  {
    UnfinishedTask(p.tasks);
    if InFlight(p.tasks) > 0 {
      var i :| 0 <= i < |p.tasks| && p.tasks[i] == Running;
      assert Enabled(p, Finish(i));
    } else {
      var i :| 0 <= i < |p.tasks| && !p.tasks[i].Done?;
      assert p.tasks[i] != Running;
      assert Enabled(p, Acquire(i));
    }
  }

  // The outcomes in step order, as a sequential pass would produce them.
  function SequentialPass(n: nat, outcome: nat -> Outcome): (r: seq<Outcome>)
    ensures |r| == n && forall i :: 0 <= i < n ==> r[i] == outcome(i)
  {
    seq(n, i requires 0 <= i < n => outcome(i))
  }

  // `asyncio.gather` has returned: every task is done.
  ghost predicate Gathered(p: Pool, outcomes: seq<Outcome>) {
    && |outcomes| == |p.tasks|
    && forall i :: 0 <= i < |p.tasks| ==> p.tasks[i] == Done(outcomes[i])
  }

  /** Whatever the interleaving, a schedule that cannot go on has made exactly two moves
      per step and gathered what a sequential pass produces, in step order. */
  lemma {:induction false} EveryScheduleGathersTheSequentialPass(n: nat, concurrency: nat, moves: seq<Move>, q: Pool, outcome: nat -> Outcome)
    requires concurrency > 0
    requires Leads(Start(n, concurrency), moves, q, outcome)
    ensures |moves| <= 2 * n && InFlight(q.tasks) <= concurrency
    ensures (forall m :: !Enabled(q, m)) <==> |moves| == 2 * n
    ensures |moves| == 2 * n <==> Gathered(q, SequentialPass(n, outcome))
  {
    var p := Start(n, concurrency);
    AllWaiting(n);
    assert p.tasks == seq(n, _ => Waiting);
    EverySchedule(p, moves, q, n, concurrency, outcome);
    UnfinishedTask(q.tasks);
    if Remaining(q.tasks) > 0 {
      NeverStuck(q, n, concurrency, outcome);
      var i :| 0 <= i < |q.tasks| && !q.tasks[i].Done?;
    } else {
      forall m
        ensures !Enabled(q, m)
      {
      }
    }
  }

  // `moves` is a schedule of `n` loads that gathers what a sequential pass produces.
  ghost predicate Completes(n: nat, concurrency: nat, moves: seq<Move>, q: Pool, outcome: nat -> Outcome) {
    Leads(Start(n, concurrency), moves, q, outcome) && Gathered(q, SequentialPass(n, outcome))
  }

  /** With no permits at all nothing is ever loaded, unless there is nothing to load:
      the loads can finish exactly when the concurrency is positive or there is no step. */
  lemma {:induction false} FinishesExactlyWithPermits(n: nat, concurrency: nat, outcome: nat -> Outcome)
    ensures (exists moves, q :: Completes(n, concurrency, moves, q, outcome)) <==> concurrency > 0 || n == 0
  {
    var p := Start(n, concurrency);
    AllWaiting(n);
    assert p.tasks == seq(n, _ => Waiting);
    if n == 0 {
      assert Completes(n, concurrency, [], p, outcome);
    } else if concurrency > 0 {
      var moves, q := RunToEnd(p, n, concurrency, outcome);
      EveryScheduleGathersTheSequentialPass(n, concurrency, moves, q, outcome);
      EverySchedule(p, moves, q, n, concurrency, outcome);
      assert |moves| == 2 * n;
      assert Completes(n, concurrency, moves, q, outcome);
    } else {
      assert forall m :: !Enabled(p, m);
      assert p.tasks[0] == Waiting;
    }
  }

  lemma {:induction false} RunToEnd(p: Pool, n: nat, concurrency: nat, outcome: nat -> Outcome) returns (moves: seq<Move>, q: Pool)
    requires PoolInv(p, n, concurrency, outcome) && concurrency > 0
    ensures Leads(p, moves, q, outcome) && Remaining(q.tasks) == 0
    decreases Remaining(p.tasks)
  {
    if Remaining(p.tasks) == 0 {
      moves, q := [], p;
    } else {
      NeverStuck(p, n, concurrency, outcome);
      var m :| Enabled(p, m);
      var next := Apply(p, m, outcome);
      ChangeOne(p.tasks, m.i, next.tasks[m.i]);
      var rest;
      rest, q := RunToEnd(next, n, concurrency, outcome);
      moves := [m] + rest;
      assert moves[1..] == rest;
    }
  }

  /* ---------------------------------- the collecting loop ---------------------------------- */

  // The loaded steps so far and how many were missing.
  datatype Collected = Collected(loaded: seq<Loaded>, missing: nat)

  function CollectOne(c: Collected, step: Lazy, outcome: Outcome, dim: string, rest: Answer): Result<Collected, Error> {
    match outcome
    case Ok(loaded) => Ok(Collected(c.loaded + [loaded], c.missing))
    case Err(e) =>
      if e.StorageError? then
        match AsMissing(step, dim, rest)
        case Ok(filled) => Ok(Collected(c.loaded + [filled], c.missing + 1))
        case Err(f) => Err(f)
      else Err(e)
  }

  function Collect(steps: seq<Lazy>, outcomes: seq<Outcome>, dim: string, source: Source): Result<Collected, Error>
    requires |outcomes| == |steps|
  {
    if steps == [] then Ok(Collected([], 0))
    else
      var n := |steps| - 1;
      match Collect(steps[..n], outcomes[..n], dim, source)
      case Err(e) => Err(e)
      case Ok(c) => CollectOne(c, steps[n], outcomes[n], dim, source.rest(n))
  }

  method CollectSteps(steps: seq<Lazy>, outcomes: seq<Outcome>, dim: string, source: Source) returns (r: Result<Collected, Error>)
    requires |outcomes| == |steps|
    ensures r == Collect(steps, outcomes, dim, source)
  {
    var loaded: seq<Loaded> := [];
    var missing: nat := 0;
    for n := 0 to |steps|
      invariant Collect(steps[..n], outcomes[..n], dim, source) == Ok(Collected(loaded, missing))
    {
      assert steps[..n + 1][..n] == steps[..n] && outcomes[..n + 1][..n] == outcomes[..n];
      var result := outcomes[n];
      if result.Err? && result.error.StorageError? {
        var filled := AsMissing(steps[n], dim, source.rest(n));
        if filled.Err? {
          ErrorStays(steps, outcomes, n + 1, dim, source);
          return Err(filled.error);
        }
        missing := missing + 1;
        loaded := loaded + [filled.value];
      } else if result.Err? {
        ErrorStays(steps, outcomes, n + 1, dim, source);
        return Err(result.error);
      } else {
        loaded := loaded + [result.value];
      }
    }
    assert steps[..|steps|] == steps && outcomes[..|outcomes|] == outcomes;
    r := Ok(Collected(loaded, missing));
  }

  lemma {:induction false} ErrorStays(steps: seq<Lazy>, outcomes: seq<Outcome>, n: nat, dim: string, source: Source)
    requires |outcomes| == |steps| && n <= |steps|
    requires Collect(steps[..n], outcomes[..n], dim, source).Err?
    ensures Collect(steps, outcomes, dim, source) == Collect(steps[..n], outcomes[..n], dim, source)
  {
    if n == |steps| {
      assert steps[..n] == steps && outcomes[..n] == outcomes;
    } else {
      var k := |steps| - 1;
      assert steps[..k][..n] == steps[..n] && outcomes[..k][..n] == outcomes[..n];
      ErrorStays(steps[..k], outcomes[..k], n, dim, source);
    }
  }

  // The error one step raises in the collecting loop, if any.
  function Raised(step: Lazy, outcome: Outcome, dim: string, rest: Answer): Option<Error> {
    match outcome
    case Ok(_) => None
    case Err(e) =>
      if e.StorageError? then
        match AsMissing(step, dim, rest) { case Ok(_) => None case Err(f) => Some(f) }
      else Some(e)
  }

  function CountMissing(outcomes: seq<Outcome>): nat {
    |Filter(outcomes, IsMissing())|
  }

  function IsMissing(): Outcome -> bool {
    (o: Outcome) => o.Err? && o.error.StorageError?
  }

  lemma {:induction false} CountMissingNext(outcomes: seq<Outcome>, o: Outcome)
    ensures CountMissing(outcomes + [o]) == CountMissing(outcomes) + if o.Err? && o.error.StorageError? then 1 else 0
  {
    FilterLast(outcomes, o, IsMissing());
  }

  // What one step contributes: its data, or NaN along the dimension.
  ghost predicate Contributes(step: Lazy, outcome: Outcome, dim: string, rest: Answer, loaded: Loaded) {
    if outcome.Ok? then loaded == outcome.value
    else outcome.error.StorageError? && AsMissing(step, dim, rest) == Ok(loaded)
  }

  // No step raises and `c` holds each step's contribution, in order.
  ghost predicate AllLoaded(steps: seq<Lazy>, outcomes: seq<Outcome>, dim: string, source: Source, c: Collected)
    requires |outcomes| == |steps|
  {
    && |c.loaded| == |steps| && c.missing == CountMissing(outcomes)
    && (forall i :: 0 <= i < |steps| ==> Raised(steps[i], outcomes[i], dim, source.rest(i)).None?)
    && (forall i :: 0 <= i < |steps| ==> Contributes(steps[i], outcomes[i], dim, source.rest(i), c.loaded[i]))
  }

  // `e` is the error of the first step that raises.
  ghost predicate FirstRaised(steps: seq<Lazy>, outcomes: seq<Outcome>, dim: string, source: Source, i: nat, e: Error)
    requires |outcomes| == |steps|
  {
    && i < |steps| && Raised(steps[i], outcomes[i], dim, source.rest(i)) == Some(e)
    && forall j :: 0 <= j < i ==> Raised(steps[j], outcomes[j], dim, source.rest(j)).None?
  }

  lemma {:induction false} CollectOneIs(c: Collected, step: Lazy, outcome: Outcome, dim: string, rest: Answer)
    ensures match CollectOne(c, step, outcome, dim, rest)
            case Err(e) => Raised(step, outcome, dim, rest) == Some(e)
            case Ok(next) =>
              && Raised(step, outcome, dim, rest).None?
              && |next.loaded| == |c.loaded| + 1 && next.loaded[..|c.loaded|] == c.loaded
              && Contributes(step, outcome, dim, rest, next.loaded[|c.loaded|])
              && next.missing == c.missing + if outcome.Err? && outcome.error.StorageError? then 1 else 0
  {
  }

  lemma {:induction false} PrefixLoaded(steps: seq<Lazy>, outcomes: seq<Outcome>, dim: string, source: Source, n: nat, c: Collected)
    requires |outcomes| == |steps| == n + 1
    requires AllLoaded(steps[..n], outcomes[..n], dim, source, c)
    ensures |c.loaded| == n
    ensures forall i :: 0 <= i < n ==> Raised(steps[i], outcomes[i], dim, source.rest(i)).None?
    ensures forall i :: 0 <= i < n ==> Contributes(steps[i], outcomes[i], dim, source.rest(i), c.loaded[i])
  {
    assert forall i :: 0 <= i < n ==> steps[..n][i] == steps[i] && outcomes[..n][i] == outcomes[i];
  }

  lemma {:induction false} AllLoadedNext(steps: seq<Lazy>, outcomes: seq<Outcome>, dim: string, source: Source, n: nat, c: Collected)
    requires |outcomes| == |steps| == n + 1
    requires AllLoaded(steps[..n], outcomes[..n], dim, source, c)
    requires CollectOne(c, steps[n], outcomes[n], dim, source.rest(n)).Ok?
    ensures AllLoaded(steps, outcomes, dim, source, CollectOne(c, steps[n], outcomes[n], dim, source.rest(n)).value)
  {
    var next := CollectOne(c, steps[n], outcomes[n], dim, source.rest(n)).value;
    assert outcomes == outcomes[..n] + [outcomes[n]];
    CountMissingNext(outcomes[..n], outcomes[n]);
    CollectOneIs(c, steps[n], outcomes[n], dim, source.rest(n));
    PrefixLoaded(steps, outcomes, dim, source, n, c);
    LoadedNext(c.loaded, next.loaded);
    forall i | 0 <= i < |steps|
      ensures Contributes(steps[i], outcomes[i], dim, source.rest(i), next.loaded[i])
    {
      if i < n {
        assert next.loaded[i] == c.loaded[i];
      }
    }
  }

  lemma {:induction false} FirstRaisedNext(steps: seq<Lazy>, outcomes: seq<Outcome>, dim: string, source: Source, n: nat, c: Collected)
    requires |outcomes| == |steps| == n + 1
    requires AllLoaded(steps[..n], outcomes[..n], dim, source, c)
    requires CollectOne(c, steps[n], outcomes[n], dim, source.rest(n)).Err?
    ensures FirstRaised(steps, outcomes, dim, source, n, CollectOne(c, steps[n], outcomes[n], dim, source.rest(n)).error)
  {
    CollectOneIs(c, steps[n], outcomes[n], dim, source.rest(n));
    PrefixLoaded(steps, outcomes, dim, source, n, c);
  }

  lemma {:induction false} FirstRaisedStays(steps: seq<Lazy>, outcomes: seq<Outcome>, dim: string, source: Source, n: nat, i: nat, e: Error)
    requires |outcomes| == |steps| && n <= |steps|
    requires FirstRaised(steps[..n], outcomes[..n], dim, source, i, e)
    ensures FirstRaised(steps, outcomes, dim, source, i, e)
  {
    assert forall j :: 0 <= j <= i ==> steps[..n][j] == steps[j] && outcomes[..n][j] == outcomes[j];
    forall j | 0 <= j < i
      ensures Raised(steps[j], outcomes[j], dim, source.rest(j)).None?
    {
      assert Raised(steps[..n][j], outcomes[..n][j], dim, source.rest(j)).None?;
    }
  }

  lemma {:induction false} LoadedNext(before: seq<Loaded>, after: seq<Loaded>)
    requires |after| == |before| + 1 && after[..|before|] == before
    ensures forall i :: 0 <= i < |before| ==> after[i] == before[i]
  {
    assert forall i :: 0 <= i < |before| ==> after[..|before|][i] == before[i];
  }

  /** The tolerant load is exact: when no step raises, the result has the same steps in
      the same order, each its data or NaN, and counts exactly the storage errors;
      otherwise the first raising step's error is what propagates. */
  lemma {:induction false} CollectIsExact(steps: seq<Lazy>, outcomes: seq<Outcome>, dim: string, source: Source)
    requires |outcomes| == |steps|
    ensures match Collect(steps, outcomes, dim, source)
            case Ok(c) => AllLoaded(steps, outcomes, dim, source, c)
            case Err(e) => exists i: nat :: FirstRaised(steps, outcomes, dim, source, i, e)
  {
    if steps != [] {
      var n := |steps| - 1;
      CollectIsExact(steps[..n], outcomes[..n], dim, source);
      match Collect(steps[..n], outcomes[..n], dim, source) {
        case Ok(c) =>
          if CollectOne(c, steps[n], outcomes[n], dim, source.rest(n)).Ok? {
            AllLoadedNext(steps, outcomes, dim, source, n, c);
          } else {
            FirstRaisedNext(steps, outcomes, dim, source, n, c);
            assert Collect(steps, outcomes, dim, source) == Err(CollectOne(c, steps[n], outcomes[n], dim, source.rest(n)).error);
          }
        case Err(e) =>
          var i: nat :| FirstRaised(steps[..n], outcomes[..n], dim, source, i, e);
          FirstRaisedStays(steps, outcomes, dim, source, n, i, e);
          assert Collect(steps, outcomes, dim, source) == Err(e);
      }
    }
  }

  /* ---------------------------------- the whole load ---------------------------------- */

  function StepOutcome(steps: seq<Lazy>, source: Source): nat -> Outcome {
    (i: nat) => if i < |steps| then LoadOne(steps[i], source, i) else Err(StorageError)
  }

  function StepsOf(s: Selection): seq<Lazy> {
    if s.Collapsed? then [s.step] else s.steps
  }

  // The load as if each step were read in turn.
  function LoadSpec(s: Selection, dim: string, source: Source, whole: Answer): Result<(LoadedSelection, nat), Error> {
    if s.Stepped? && s.steps == [] then
      match whole {
        case Data(_) => Ok((LoadedSteps([]), 0))
        case Unsupported => Err(OtherError("NotImplementedError"))
        case Failed(e) => Err(e)
      }
    else
      var steps := StepsOf(s);
      match Collect(steps, SequentialPass(|steps|, StepOutcome(steps, source)), dim, source)
      case Err(e) => Err(e)
      case Ok(c) => Ok((if s.Collapsed? && |c.loaded| == 1 then LoadedOne(c.loaded[0]) else LoadedSteps(c.loaded), c.missing))
  }

  // The read of step `i` that counts answers so: the async one, or the plain one where that
  // is not supported.
  ghost predicate Reads(source: Source, i: nat, answer: Answer) {
    if source.async(i) == Unsupported then source.plain(i) == answer else source.async(i) == answer
  }

  // Reading a whole dataset fails so.
  ghost predicate Refuses(answer: Answer, e: Error) {
    answer == Failed(e) || (answer == Unsupported && e == OtherError("NotImplementedError"))
  }

  ghost predicate IsGone(source: Source, i: nat) {
    Reads(source, i, Failed(StorageError))
  }

  // Step `i` raises `e` in the loader: its read fails with anything but a storage error, or
  // what a missing step still has cannot be read either.
  ghost predicate Raises(source: Source, i: nat, e: Error) {
    || (e != StorageError && exists answer :: Reads(source, i, answer) && Refuses(answer, e))
    || (IsGone(source, i) && Refuses(source.rest(i), e))
  }

  // The step with the values that were read.
  ghost predicate HoldsValues(step: Lazy, values: map<string, seq<Value>>, loaded: Loaded) {
    && loaded.Keys == step.Keys
    && forall name :: name in step ==> loaded[name].meta == step[name] && (name in values ==> loaded[name].data == values[name])
  }

  // The step as NaN along the dimension, and with the values that were read elsewhere.
  ghost predicate HoldsNaNs(step: Lazy, dim: string, values: map<string, seq<Value>>, loaded: Loaded) {
    && loaded.Keys == step.Keys
    && forall name :: name in step ==>
         && loaded[name].meta == step[name]
         && (if dim in step[name].dims || dim in step[name].coords then
               |loaded[name].data| == Size(step[name].shape) && forall v :: v in loaded[name].data ==> v == NaN
             else name in values ==> loaded[name].data == values[name])
  }

  // What the loader makes of step `i`.
  ghost predicate LoadedAs(step: Lazy, dim: string, source: Source, i: nat, loaded: Loaded) {
    || (exists values :: Reads(source, i, Data(values)) && HoldsValues(step, values, loaded))
    || (IsGone(source, i) && exists values :: source.rest(i) == Data(values) && HoldsNaNs(step, dim, values, loaded))
  }

  function Gone(n: nat, source: Source): set<nat> {
    set i: nat | i < n && (if source.async(i) == Unsupported then source.plain(i) else source.async(i)) == Failed(StorageError)
  }

  lemma {:induction false} GoneAreCounted(steps: seq<Lazy>, source: Source, n: nat)
    requires n <= |steps|
    ensures CountMissing(SequentialPass(n, StepOutcome(steps, source))) == |Gone(n, source)|
  {
    if n > 0 {
      GoneAreCounted(steps, source, n - 1);
      var outcomes := SequentialPass(n, StepOutcome(steps, source));
      assert outcomes == SequentialPass(n - 1, StepOutcome(steps, source)) + [LoadOne(steps[n - 1], source, n - 1)];
      CountMissingNext(outcomes[..n - 1], outcomes[n - 1]);
      GoneNext(n, source);
    }
  }

  lemma {:induction false} GoneNext(n: nat, source: Source)
    requires n > 0
    ensures |Gone(n, source)| == |Gone(n - 1, source)| + if IsGone(source, n - 1) then 1 else 0
  {
    if IsGone(source, n - 1) {
      assert Gone(n, source) == Gone(n - 1, source) + {n - 1};
    } else {
      assert Gone(n, source) == Gone(n - 1, source);
    }
  }

  lemma {:induction false} RaisedExactly(step: Lazy, dim: string, source: Source, i: nat, e: Error)
    ensures Raised(step, LoadOne(step, source, i), dim, source.rest(i)) == Some(e) <==> Raises(source, i, e)
  {
    var answer := if source.async(i) == Unsupported then source.plain(i) else source.async(i);
    assert Reads(source, i, answer);
  }

  lemma {:induction false} ContributionIs(step: Lazy, dim: string, source: Source, i: nat, loaded: Loaded)
    requires Contributes(step, LoadOne(step, source, i), dim, source.rest(i), loaded)
    ensures LoadedAs(step, dim, source, i, loaded)
  {
    var answer := if source.async(i) == Unsupported then source.plain(i) else source.async(i);
    if answer.Data? {
      assert Reads(source, i, Data(answer.values)) && HoldsValues(step, answer.values, loaded);
    } else {
      assert source.rest(i).Data? && HoldsNaNs(step, dim, source.rest(i).values, loaded);
    }
  }

  function StepsIn(loaded: LoadedSelection): seq<Loaded> {
    if loaded.LoadedOne? then [loaded.step] else loaded.steps
  }

  // The load came out as the store's answers say.
  ghost predicate AsAnswered(s: Selection, dim: string, source: Source, loaded: LoadedSelection, missing: nat) {
    && (loaded.LoadedOne? <==> s.Collapsed?) && |StepsIn(loaded)| == |StepsOf(s)| && missing == |Gone(|StepsOf(s)|, source)|
    && (forall i, e :: 0 <= i < |StepsOf(s)| ==> !Raises(source, i, e))
    && (forall i :: 0 <= i < |StepsOf(s)| ==> LoadedAs(StepsOf(s)[i], dim, source, i, StepsIn(loaded)[i]))
  }

  // `e` is what the first raising step raises.
  ghost predicate FirstRaises(s: Selection, source: Source, e: Error) {
    exists i :: 0 <= i < |StepsOf(s)| && Raises(source, i, e) && forall j, f :: 0 <= j < i ==> !Raises(source, j, f)
  }

  /** The load, from the store's answers alone: every step holds exactly what its read
      answered, or NaN along the dimension when its source is gone, in order, and the gone
      ones are counted; or the first step that raises decides. A selection without steps is
      read as a whole. */
  lemma {:induction false} LoadsWhatIsAnswered(s: Selection, dim: string, source: Source, whole: Answer)
    ensures match LoadSpec(s, dim, source, whole)
            case Ok((loaded, missing)) => AsAnswered(s, dim, source, loaded, missing) && (StepsOf(s) == [] ==> whole.Data?)
            case Err(e) => if StepsOf(s) == [] then Refuses(whole, e) else FirstRaises(s, source, e)
  {
    if StepsOf(s) != [] {
      StepsLoadWhatIsAnswered(s, dim, source, whole);
    }
  }

  lemma {:induction false} StepsLoadWhatIsAnswered(s: Selection, dim: string, source: Source, whole: Answer)
    requires StepsOf(s) != []
    ensures match LoadSpec(s, dim, source, whole)
            case Ok((loaded, missing)) => AsAnswered(s, dim, source, loaded, missing)
            case Err(e) => FirstRaises(s, source, e)
  {
    var steps := StepsOf(s);
    var outcomes := SequentialPass(|steps|, StepOutcome(steps, source));
    CollectIsExact(steps, outcomes, dim, source);
    GoneAreCounted(steps, source, |steps|);
    forall i, e | 0 <= i < |steps|
      ensures Raised(steps[i], outcomes[i], dim, source.rest(i)) == Some(e) <==> Raises(source, i, e)
    {
      RaisedExactly(steps[i], dim, source, i, e);
    }
    match Collect(steps, outcomes, dim, source) {
      case Ok(c) =>
        forall i | 0 <= i < |steps|
          ensures LoadedAs(steps[i], dim, source, i, c.loaded[i])
        {
          ContributionIs(steps[i], dim, source, i, c.loaded[i]);
        }
      case Err(e) =>
        var i: nat :| FirstRaised(steps, outcomes, dim, source, i, e);
        assert Raises(source, i, e);
    }
  }

  lemma {:induction false} NoMoveNoTask(p: Pool, n: nat, concurrency: nat, outcome: nat -> Outcome)
    requires PoolInv(p, n, concurrency, outcome)
    requires forall i :: 0 <= i < n ==> !Enabled(p, Acquire(i)) && !Enabled(p, Finish(i))
    ensures concurrency > 0 ==> forall i :: 0 <= i < n ==> p.tasks[i].Done?
  {
    UnfinishedTask(p.tasks);
    if concurrency > 0 && Remaining(p.tasks) > 0 {
      NeverStuck(p, n, concurrency, outcome);
    }
  }

  /* One schedule of the loads: which task moves next is arbitrary. It ends when no task
     can move; `None` when some load then still waits for a permit, and `gather` with it. */
  method GatherLoads(steps: seq<Lazy>, source: Source, concurrency: nat) returns (outcomes: Option<seq<Outcome>>)
    ensures outcomes == if concurrency > 0 || steps == [] then Some(SequentialPass(|steps|, StepOutcome(steps, source))) else None
  {
    var n := |steps|;
    var outcome := StepOutcome(steps, source);
    var pool := Start(n, concurrency);
    AllWaiting(n);
    assert pool.tasks == seq(n, _ => Waiting);
    while exists i :: 0 <= i < n && (Enabled(pool, Acquire(i)) || Enabled(pool, Finish(i)))
      invariant PoolInv(pool, n, concurrency, outcome)
      invariant concurrency == 0 ==> pool == Start(n, 0)
      decreases Remaining(pool.tasks)
    {
      var i :| 0 <= i < n && (Enabled(pool, Acquire(i)) || Enabled(pool, Finish(i)));
      var m := if Enabled(pool, Finish(i)) then Finish(i) else Acquire(i);
      ChangeOne(pool.tasks, m.i, Apply(pool, m, outcome).tasks[m.i]);
      pool := Apply(pool, m, outcome);
    }
    NoMoveNoTask(pool, n, concurrency, outcome);
    if exists i :: 0 <= i < n && !pool.tasks[i].Done? {
      return None;
    }
    assert n > 0 ==> pool.tasks[0].Done?;
    var done := seq(n, i requires 0 <= i < n => if pool.tasks[i].Done? then pool.tasks[i].outcome else Err(StorageError));
    assert done == SequentialPass(n, outcome);
    outcomes := Some(done);
  }

  /* The whole load. A negative concurrency is refused by the semaphore; with zero, the
     load of a step never returns, which is `None`. */
  method LoadStepsTolerant(s: Selection, dim: string, source: Source, whole: Answer, concurrency: int)
    returns (r: Option<Result<(LoadedSelection, nat), Error>>)
    ensures r == if StepsOf(s) == [] || concurrency > 0 then Some(LoadSpec(s, dim, source, whole))
                 else if concurrency < 0 then Some(Err(OtherError("ValueError")))
                 else None
  {
    if s.Stepped? && s.steps == [] {
      match whole {
        case Data(_) => return Some(Ok((LoadedSteps([]), 0)));
        case Unsupported => return Some(Err(OtherError("NotImplementedError")));
        case Failed(e) => return Some(Err(e));
      }
    }
    if concurrency < 0 {
      return Some(Err(OtherError("ValueError")));
    }
    var steps := StepsOf(s);
    var outcomes := GatherLoads(steps, source, concurrency);
    if outcomes.None? {
      return None;
    }
    var collected := CollectSteps(steps, outcomes.value, dim, source);
    if collected.Err? {
      return Some(Err(collected.error));
    }
    var c := collected.value;
    CollectIsExact(steps, outcomes.value, dim, source);
    r := Some(Ok((if s.Collapsed? then LoadedOne(c.loaded[0]) else LoadedSteps(c.loaded), c.missing)));
  }
}
