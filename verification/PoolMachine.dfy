/** The worker pools as a transition system.

    Both pools (external PHP processes and embedded engines) share the same code for Start,
    spawnWorker, replaceWorker, removeWorker, autoScale and Reload, and differ only in what Exec does
    with the worker it holds. Every goroutine is a thread with a program counter and its local worker;
    one action is one lock section, one channel operation or one atomic counter update. What Exec
    decides in between (keep or retire the worker) is left open here and fixed by the two machines
    built on top of this one.

    The busy-wait of Reload's drain and the time a Stop takes are arbitrary delays: any interleaving
    of the actions below is a run. */
module PoolMachine {

  datatype Config = Config(minWorkers: nat, maxWorkers: nat)

  /** What a thread is in the middle of while it spawns a worker or hands one to the channel. */
  datatype Why =
    | Starting(sent: nat)                                 // Start's loop
    | Replacing                                           // replaceWorker's second half
    | ScalingUp                                           // autoScale
    | Reloading(snapshot: seq<nat>, spawned: seq<nat>)    // Reload's spawn loop
    | Returning                                           // Exec giving its worker back

  datatype Thread =
    | WantSpawn(why: Why)                // about to call spawnWorker
    | Spawning(id: nat, why: Why)        // took an id, the worker is starting
    | Sending(w: nat, why: Why)          // about to do `available <- w`
    | Allocating                         // Exec, waiting for a worker
    | Holding(w: nat)                    // Exec, working with w
    | ReplaceStop(w: nat)                // replaceWorker, before Stop has returned
    | ReplaceRemove(w: nat)              // replaceWorker, before removeWorker
    | Ticking                            // the watchdog between ticks
    | Sampled(total: nat)                // autoScale, after len(workers) was read
    | Deciding(total: nat, busy: int)    // autoScale, after the busy counter was read
    | DownStop(w: nat)                   // scale-down goroutine, before Stop has returned
    | DownRemove(w: nat)                 // scale-down goroutine, before removeWorker
    | Draining(snapshot: seq<nat>, next: nat, spawned: seq<nat>)      // Reload's drain loop
    | DrainRemove(snapshot: seq<nat>, next: nat, spawned: seq<nat>)   // after Stop of snapshot[next]

  /** History only: why a worker id left the list. */
  datatype Cause = Recycled | ScaledDown | Drained(reload: nat)

  datatype State = State(
    nextID: nat,
    workers: seq<nat>,
    active: int,
    available: seq<nat>,
    busy: int,
    threads: map<nat, Thread>,
    gone: map<nat, Cause>)

  /** t is the acting thread, n a thread it starts. The busy counter is updated just after a worker is
      taken and just after it is given back; `lag` is what such outstanding updates make the reader miss. */
  datatype Action =
    | BeginSpawn(t: nat)
    | SpawnOk(t: nat)
    | SpawnFail(t: nat)
    | Send(t: nat)
    | ExecArrive(n: nat)
    | ExecGiveUp(t: nat)
    | ExecReceive(t: nat)
    | ExecKeep(t: nat)
    | ExecRetire(t: nat, n: nat)
    | StopOld(t: nat)
    | RemoveOld(t: nat)
    | Sample(t: nat)
    | ReadBusy(t: nat, lag: int)
    | Decide(t: nat, n: nat)
    | StopIdle(t: nat)
    | RemoveIdle(t: nat)
    | HealthReplace(n: nat, w: nat)
    | ReloadArrive(n: nat)
    | DrainStop(t: nat)
    | DrainTake(t: nat)
    | DrainEnd(t: nat)

  // --- the shared pieces of code ---

  /** removeWorker: drop the first entry with this id, keep the rest in order. */
  function RemoveId(ws: seq<nat>, w: nat): seq<nat> {
    if ws == [] then []
    else if ws[0] == w then ws[1..]
    else [ws[0]] + RemoveId(ws[1..], w)
  }

  function StartNext(cfg: Config, sent: nat): Thread {
    if sent < cfg.minWorkers then WantSpawn(Starting(sent)) else Ticking
  }

  function ReloadNext(cfg: Config, snapshot: seq<nat>, spawned: seq<nat>): Thread {
    if |spawned| < cfg.minWorkers then WantSpawn(Reloading(snapshot, spawned))
    else Draining(snapshot, 0, spawned)
  }

  function Init(cfg: Config): State {
    State(0, [], 0, [], 0, map[0 := StartNext(cfg, 0)], map[])
  }

  predicate WantsUp(cfg: Config, total: nat, busy: int) {
    total > 0 && 5 * busy >= 4 * total && total < cfg.maxWorkers
  }

  predicate WantsDown(cfg: Config, total: nat, busy: int) {
    total > 0 && 5 * busy <= total && total > cfg.minWorkers
  }

  /** In percent: up at 80 and more below the maximum, down at 20 and less above the minimum, never both. */
  lemma ScalingThresholds(cfg: Config, total: nat, busy: int, busyPct: real)
    requires total > 0 && busyPct * total as real == 100.0 * busy as real
    ensures WantsUp(cfg, total, busy) <==> busyPct >= 80.0 && total < cfg.maxWorkers
    ensures WantsDown(cfg, total, busy) <==> busyPct <= 20.0 && total > cfg.minWorkers
    ensures !(WantsUp(cfg, total, busy) && WantsDown(cfg, total, busy))
  {
    hide *;
    var (b, n) := (busy as real, total as real);
    Percentage(busyPct, b, n);
    InReals(busy, total);
    Wants(cfg, total, busy);
  }

  lemma Percentage(pct: real, b: real, n: real)
    requires n > 0.0 && pct * n == 100.0 * b
    ensures pct >= 80.0 <==> 5.0 * b >= 4.0 * n
    ensures pct <= 20.0 <==> 5.0 * b <= n
  {
    Distance(pct, 80.0, n, b);
    Distance(pct, 20.0, n, b);
    Sign(pct - 80.0, n, 100.0 * b - 80.0 * n);
    Sign(pct - 20.0, n, 100.0 * b - 20.0 * n);
    assert 100.0 * b - 80.0 * n == 20.0 * (5.0 * b - 4.0 * n);
    assert 100.0 * b - 20.0 * n == 20.0 * (5.0 * b - n);
  }

  lemma InReals(busy: int, total: nat)
    ensures 5 * busy >= 4 * total <==> 5.0 * busy as real >= 4.0 * total as real
    ensures 5 * busy <= total <==> 5.0 * busy as real <= total as real
  {
  }

  lemma Wants(cfg: Config, total: nat, busy: int)
    ensures WantsUp(cfg, total, busy) <==> total > 0 && 5 * busy >= 4 * total && total < cfg.maxWorkers
    ensures WantsDown(cfg, total, busy) <==> total > 0 && 5 * busy <= total && total > cfg.minWorkers
  {
  }

  lemma Distance(pct: real, k: real, n: real, b: real)
    requires pct * n == 100.0 * b
    ensures (pct - k) * n == 100.0 * b - k * n
  {
  }

  lemma Sign(x: real, n: real, y: real)
    requires n > 0.0 && y == x * n
    ensures (x >= 0.0 <==> y >= 0.0) && (x <= 0.0 <==> y <= 0.0)
  {
    if x > 0.0 { assert x * n > 0.0; }
    if x < 0.0 { assert (0.0 - x) * n > 0.0; assert x * n + (0.0 - x) * n == 0.0; }
  }

  function Put(s: State, t: nat, th: Thread): State {
    s.(threads := s.threads[t := th])
  }

  function End(s: State, t: nat): State {
    s.(threads := s.threads - {t})
  }

  /** removeWorker, with its counter update and the history of causes. */
  function Remove(s: State, w: nat, cause: Cause): State {
    if w in s.workers
    then s.(workers := RemoveId(s.workers, w), active := s.active - 1, gone := s.gone[w := cause])
    else s
  }

  /** The thread that follows a successful send. Exec and one-shot goroutines are finished. */
  function AfterSend(cfg: Config, s: State, t: nat): State
    requires t in s.threads && s.threads[t].Sending?
  {
    match s.threads[t].why
    case Starting(sent) => Put(s, t, StartNext(cfg, sent + 1))
    case Replacing => End(s, t)
    case ScalingUp => Put(s, t, Ticking)
    case Reloading(snapshot, spawned) => Put(s, t, ReloadNext(cfg, snapshot, spawned))
    case Returning => End(s.(busy := s.busy - 1), t)
  }

  function AfterSpawn(w: nat, why: Why): Thread {
    match why
    case Reloading(snapshot, spawned) => Sending(w, Reloading(snapshot, spawned + [w]))
    case _ => Sending(w, why)
  }

  predicate At(s: State, t: nat) { t in s.threads }

  predicate Enabled(cfg: Config, s: State, a: Action) {
    match a
    case BeginSpawn(t) => At(s, t) && s.threads[t].WantSpawn?
    case SpawnOk(t) => At(s, t) && s.threads[t].Spawning?
    case SpawnFail(t) => At(s, t) && s.threads[t].Spawning?
    case Send(t) => At(s, t) && s.threads[t].Sending? && |s.available| < cfg.maxWorkers
    case ExecArrive(n) => !At(s, n)
    case ExecGiveUp(t) => At(s, t) && s.threads[t].Allocating?
    case ExecReceive(t) => At(s, t) && s.threads[t].Allocating? && s.available != []
    case ExecKeep(t) => At(s, t) && s.threads[t].Holding?
    case ExecRetire(t, n) => At(s, t) && s.threads[t].Holding? && !At(s, n)
    case StopOld(t) => At(s, t) && s.threads[t].ReplaceStop?
    case RemoveOld(t) => At(s, t) && s.threads[t].ReplaceRemove?
    case Sample(t) => At(s, t) && s.threads[t].Ticking?
    case ReadBusy(t, _) => At(s, t) && s.threads[t].Sampled?
    case Decide(t, n) => At(s, t) && s.threads[t].Deciding? && !At(s, n)
    case StopIdle(t) => At(s, t) && s.threads[t].DownStop?
    case RemoveIdle(t) => At(s, t) && s.threads[t].DownRemove?
    case HealthReplace(n, w) => !At(s, n) && w in s.workers
    case ReloadArrive(n) => !At(s, n)
    case DrainStop(t) => At(s, t) && s.threads[t].Draining? && s.threads[t].next < |s.threads[t].snapshot|
    case DrainTake(t) => At(s, t) && s.threads[t].DrainRemove? && s.threads[t].next < |s.threads[t].snapshot|
    case DrainEnd(t) => At(s, t) && s.threads[t].Draining? && s.threads[t].next == |s.threads[t].snapshot|
  }

  function Apply(cfg: Config, s: State, a: Action): State
    requires Enabled(cfg, s, a)
  {
    match a
    case BeginSpawn(t) =>
      Put(s.(nextID := s.nextID + 1), t, Spawning(s.nextID + 1, s.threads[t].why))
    case SpawnOk(t) =>
      var id := s.threads[t].id;
      Put(s.(workers := s.workers + [id], active := s.active + 1), t, AfterSpawn(id, s.threads[t].why))
    case SpawnFail(t) =>
      if s.threads[t].why.ScalingUp? then Put(s, t, Ticking) else End(s, t)
    case Send(t) =>
      AfterSend(cfg, s.(available := s.available + [s.threads[t].w]), t)
    case ExecArrive(n) => Put(s, n, Allocating)
    case ExecGiveUp(t) => End(s, t)
    case ExecReceive(t) =>
      Put(s.(available := s.available[1..], busy := s.busy + 1), t, Holding(s.available[0]))
    case ExecKeep(t) => Put(s, t, Sending(s.threads[t].w, Returning))
    case ExecRetire(t, n) => Put(End(s.(busy := s.busy - 1), t), n, ReplaceStop(s.threads[t].w))
    case StopOld(t) => Put(s, t, ReplaceRemove(s.threads[t].w))
    case RemoveOld(t) => Put(Remove(s, s.threads[t].w, Recycled), t, WantSpawn(Replacing))
    case Sample(t) => Put(s, t, Sampled(|s.workers|))
    case ReadBusy(t, lag) => Put(s, t, Deciding(s.threads[t].total, s.busy + lag))
    case Decide(t, n) =>
      var (total, busy) := (s.threads[t].total, s.threads[t].busy);
      if WantsUp(cfg, total, busy) then Put(s, t, WantSpawn(ScalingUp))
      else if WantsDown(cfg, total, busy) && s.available != []
      then Put(Put(s.(available := s.available[1..]), t, Ticking), n, DownStop(s.available[0]))
      else Put(s, t, Ticking)
    case StopIdle(t) => Put(s, t, DownRemove(s.threads[t].w))
    case RemoveIdle(t) => End(Remove(s, s.threads[t].w, ScaledDown), t)
    case HealthReplace(n, w) => Put(s, n, ReplaceStop(w))
    case ReloadArrive(n) => Put(s, n, ReloadNext(cfg, s.workers, []))
    case DrainStop(t) =>
      var d := s.threads[t];
      Put(s, t, DrainRemove(d.snapshot, d.next, d.spawned))
    case DrainTake(t) =>
      var d := s.threads[t];
      Put(Remove(s, d.snapshot[d.next], Drained(t)), t, Draining(d.snapshot, d.next + 1, d.spawned))
    case DrainEnd(t) => End(s, t)
  }

  // --- runs ---

  ghost predicate IsRun(cfg: Config, s: State, run: seq<Action>)
    decreases |run|
  {
    run == [] || (Enabled(cfg, s, run[0]) && IsRun(cfg, Apply(cfg, s, run[0]), run[1..]))
  }

  ghost function After(cfg: Config, s: State, run: seq<Action>): State
    requires IsRun(cfg, s, run)
    decreases |run|
  {
    if run == [] then s else After(cfg, Apply(cfg, s, run[0]), run[1..])
  }

  lemma {:induction false} Extend(cfg: Config, s: State, run: seq<Action>, a: Action)
    requires IsRun(cfg, s, run) && Enabled(cfg, After(cfg, s, run), a)
    ensures IsRun(cfg, s, run + [a])
    ensures After(cfg, s, run + [a]) == Apply(cfg, After(cfg, s, run), a)
    decreases |run|
  {
    if run == [] {
      assert run + [a] == [a];
      assert IsRun(cfg, Apply(cfg, s, a), []);
    } else {
      assert (run + [a])[1..] == run[1..] + [a];
      Extend(cfg, Apply(cfg, s, run[0]), run[1..], a);
    }
  }

  /** The empty run, and one more action at the end of a run from the start. */
  lemma Begin(cfg: Config) returns (run: seq<Action>, s: State)
    ensures run == [] && s == Init(cfg) && IsRun(cfg, Init(cfg), run) && After(cfg, Init(cfg), run) == s
  {
    run, s := [], Init(cfg);
  }

  lemma Go(cfg: Config, run: seq<Action>, s: State, a: Action) returns (run': seq<Action>, s': State)
    requires IsRun(cfg, Init(cfg), run) && After(cfg, Init(cfg), run) == s && Enabled(cfg, s, a)
    ensures run' == run + [a] && s' == Apply(cfg, s, a)
    ensures IsRun(cfg, Init(cfg), run') && After(cfg, Init(cfg), run') == s'
  {
    Extend(cfg, Init(cfg), run, a);
    run', s' := run + [a], Apply(cfg, s, a);
  }

  // --- exclusive possession ---

  ghost predicate NoDup(ws: seq<nat>) {
    forall i, j :: 0 <= i < j < |ws| ==> ws[i] != ws[j]
  }

  /** The worker a thread possesses: one it is starting, holding, handing over or scaling down. */
  predicate Possesses(th: Thread, w: nat) {
    (th.Spawning? && th.id == w)
    || (th.Sending? && th.w == w)
    || (th.Holding? && th.w == w)
    || (th.DownStop? && th.w == w)
    || (th.DownRemove? && th.w == w)
  }

  predicate Has(s: State, t: nat, w: nat) {
    t in s.threads && Possesses(s.threads[t], w)
  }

  /** Every worker is in at most one hand: a single slot of the channel or a single thread. */
  ghost predicate Exclusive(s: State) {
    && NoDup(s.available)
    && (forall t: nat, w: nat :: Has(s, t, w) ==> w !in s.available)
    && (forall t: nat, u: nat, w: nat :: Has(s, t, w) && Has(s, u, w) ==> t == u)
  }

  /** The ids a thread mentions but does not possess: retired workers and Reload's notes. */
  predicate Mentions(th: Thread, w: nat) {
    Possesses(th, w)
    || (th.ReplaceStop? && th.w == w)
    || (th.ReplaceRemove? && th.w == w)
    || ((th.Draining? || th.DrainRemove?) && (w in th.snapshot || w in th.spawned))
    || ((th.WantSpawn? || th.Spawning? || th.Sending?) && th.why.Reloading?
        && (w in th.why.snapshot || w in th.why.spawned))
  }

  predicate Knows(s: State, t: nat, w: nat) {
    t in s.threads && Mentions(s.threads[t], w)
  }

  /** Ids come from a counter that only grows. */
  ghost predicate Issued(s: State) {
    && (forall w: nat :: w in s.workers ==> w <= s.nextID)
    && (forall w: nat :: w in s.available ==> w <= s.nextID)
    && (forall t: nat, w: nat :: Knows(s, t, w) ==> w <= s.nextID)
  }

  /** The list has no id twice, the gauge equals its length, and a starting worker is not in it yet. */
  ghost predicate Listed(s: State) {
    && NoDup(s.workers)
    && s.active == |s.workers|
    && (forall t: nat :: t in s.threads && s.threads[t].Spawning? ==> s.threads[t].id !in s.workers)
  }

  ghost predicate Inv(s: State) {
    Exclusive(s) && Issued(s) && Listed(s)
  }

  lemma {:induction false} RemoveIdWorks(ws: seq<nat>, w: nat)
    ensures w !in ws ==> RemoveId(ws, w) == ws
    ensures forall x: nat :: x in RemoveId(ws, w) ==> x in ws
    ensures forall x: nat :: x in ws && x != w ==> x in RemoveId(ws, w)
    ensures w in ws ==> |RemoveId(ws, w)| == |ws| - 1
    ensures NoDup(ws) ==> NoDup(RemoveId(ws, w)) && w !in RemoveId(ws, w)
  {
    if ws != [] && ws[0] != w {
      RemoveIdWorks(ws[1..], w);
      var rest := RemoveId(ws[1..], w);
      assert ws == [ws[0]] + ws[1..];
      if NoDup(ws) {
        assert ws[0] !in ws[1..];
        assert NoDup(ws[1..]);
      }
    } else if ws != [] {
      assert ws == [ws[0]] + ws[1..];
    }
  }

  lemma InitInv(cfg: Config)
    ensures Inv(Init(cfg))
  {
  }

  lemma NoDupEnds(ws: seq<nat>, w: nat)
    requires NoDup(ws)
    ensures ws != [] ==> NoDup(ws[1..]) && ws[0] !in ws[1..] && forall x: nat :: x in ws[1..] ==> x in ws
    ensures w !in ws ==> NoDup(ws + [w])
  {
  }

  /** The only ways to come to possess a worker: start it, or take it from the front of the channel. */
  ghost predicate Acquires(cfg: Config, s: State, a: Action, u: nat, w: nat)
    requires Enabled(cfg, s, a)
  {
    || (a.BeginSpawn? && u == a.t && w == s.nextID + 1)
    || (a.ExecReceive? && u == a.t && w == s.available[0])
    || (a.Decide? && u == a.n && Takes(cfg, s, a) && w == s.available[0])
  }

  predicate Takes(cfg: Config, s: State, a: Action)
    requires Enabled(cfg, s, a)
  {
    || a.ExecReceive?
    || (a.Decide? && s.available != []
        && !WantsUp(cfg, s.threads[a.t].total, s.threads[a.t].busy)
        && WantsDown(cfg, s.threads[a.t].total, s.threads[a.t].busy))
  }

  lemma StepPossession(cfg: Config, s: State, a: Action, u: nat, w: nat)
    requires Enabled(cfg, s, a) && Has(Apply(cfg, s, a), u, w)
    ensures Has(s, u, w) || Acquires(cfg, s, a, u, w)
    ensures a.Send? ==> u != a.t
  {
  }

  lemma StepChannel(cfg: Config, s: State, a: Action)
    requires Enabled(cfg, s, a)
    ensures Apply(cfg, s, a).available ==
            if a.Send? then s.available + [s.threads[a.t].w]
            else if Takes(cfg, s, a) then s.available[1..]
            else s.available
  {
  }

  lemma StepKeepsExclusive(cfg: Config, s: State, a: Action)
    requires Inv(s) && Enabled(cfg, s, a)
    ensures Exclusive(Apply(cfg, s, a))
  {
    var s' := Apply(cfg, s, a);
    StepChannel(cfg, s, a);
    NoDupEnds(s.available, if a.Send? then s.threads[a.t].w else 0);
    if a.Send? { assert Has(s, a.t, s.threads[a.t].w); }
    forall t: nat, w: nat | Has(s', t, w)
      ensures w !in s'.available
      ensures forall u: nat :: Has(s', u, w) ==> t == u
    {
      StepPossession(cfg, s, a, t, w);
      assert Has(s, t, w) ==> Knows(s, t, w);
      forall u: nat | Has(s', u, w) ensures t == u {
        StepPossession(cfg, s, a, u, w);
        assert Has(s, u, w) ==> Knows(s, u, w);
      }
    }
  }

  lemma StepMentions(cfg: Config, s: State, a: Action, u: nat, w: nat)
    requires Enabled(cfg, s, a) && Knows(Apply(cfg, s, a), u, w)
    ensures Knows(s, u, w) || (a.BeginSpawn? && w == s.nextID + 1) || w in s.available || w in s.workers
            || (a.ExecRetire? && Knows(s, a.t, w))
  {
  }

  lemma StepWorkers(cfg: Config, s: State, a: Action)
    requires Enabled(cfg, s, a)
    ensures Apply(cfg, s, a).workers ==
            if a.SpawnOk? then s.workers + [s.threads[a.t].id]
            else if a.RemoveOld? || a.RemoveIdle? then RemoveId(s.workers, s.threads[a.t].w)
            else if a.DrainTake? then RemoveId(s.workers, s.threads[a.t].snapshot[s.threads[a.t].next])
            else s.workers
  {
    if a.RemoveOld? || a.RemoveIdle? { RemoveIdWorks(s.workers, s.threads[a.t].w); }
    if a.DrainTake? { RemoveIdWorks(s.workers, s.threads[a.t].snapshot[s.threads[a.t].next]); }
  }

  lemma StepKeepsIssued(cfg: Config, s: State, a: Action)
    requires Inv(s) && Enabled(cfg, s, a)
    ensures Issued(Apply(cfg, s, a))
  {
    var s' := Apply(cfg, s, a);
    StepChannel(cfg, s, a);
    StepWorkers(cfg, s, a);
    forall w: nat | w in s'.workers ensures w <= s'.nextID {
      forall x: nat { RemoveIdWorks(s.workers, x); }
      if a.SpawnOk? { assert Knows(s, a.t, s.threads[a.t].id); }
    }
    NoDupEnds(s.available, 0);
    if a.Send? { assert Knows(s, a.t, s.threads[a.t].w); }
    forall t: nat, w: nat | Knows(s', t, w) ensures w <= s'.nextID {
      StepMentions(cfg, s, a, t, w);
    }
  }

  lemma StepKeepsListed(cfg: Config, s: State, a: Action)
    requires Inv(s) && Enabled(cfg, s, a)
    ensures Listed(Apply(cfg, s, a))
  {
    var s' := Apply(cfg, s, a);
    StepWorkers(cfg, s, a);
    if a.RemoveOld? || a.RemoveIdle? { RemoveIdWorks(s.workers, s.threads[a.t].w); }
    if a.DrainTake? { RemoveIdWorks(s.workers, s.threads[a.t].snapshot[s.threads[a.t].next]); }
    if a.SpawnOk? { NoDupEnds(s.workers, s.threads[a.t].id); }
    forall t: nat | t in s'.threads && s'.threads[t].Spawning?
      ensures s'.threads[t].id !in s'.workers
    {
      var w := s'.threads[t].id;
      assert Has(s', t, w);
      StepPossession(cfg, s, a, t, w);
      if a.SpawnOk? { assert Has(s, a.t, s.threads[a.t].id); }
    }
  }

  lemma StepKeepsInv(cfg: Config, s: State, a: Action)
    requires Inv(s) && Enabled(cfg, s, a)
    ensures Inv(Apply(cfg, s, a))
  {
    StepKeepsExclusive(cfg, s, a);
    StepKeepsIssued(cfg, s, a);
    StepKeepsListed(cfg, s, a);
  }

  /** Exclusive possession, and a duplicate-free list whose length is the gauge, in every run. */
  lemma {:induction false} RunKeepsInv(cfg: Config, s: State, run: seq<Action>)
    requires Inv(s) && IsRun(cfg, s, run)
    ensures Inv(After(cfg, s, run))
    decreases |run|
  {
    if run != [] {
      StepKeepsInv(cfg, s, run[0]);
      RunKeepsInv(cfg, Apply(cfg, s, run[0]), run[1..]);
    }
  }

  /** Two Execs never hold the same worker, and a held worker is not in the channel. */
  lemma NoTwoExecsShareAWorker(cfg: Config, run: seq<Action>, t: nat, u: nat)
    requires IsRun(cfg, Init(cfg), run)
    requires var s := After(cfg, Init(cfg), run);
      t in s.threads && u in s.threads && s.threads[t].Holding? && s.threads[u].Holding?
    ensures var s := After(cfg, Init(cfg), run);
      s.threads[t].w !in s.available && (t != u ==> s.threads[t].w != s.threads[u].w)
  {
    RunKeepsInv(cfg, Init(cfg), run);
    var s := After(cfg, Init(cfg), run);
    assert Has(s, t, s.threads[t].w) && Has(s, u, s.threads[u].w);
  }
}
