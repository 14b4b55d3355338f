/** Every interleaving of `Add` and the double-checked `cachedNameIndex` over one read-write lock
    (internal/workspace/index.go).  A step of a thread is one lock operation or one access made under the lock. */
module NameCacheProtocol {
  import opened Model
  import opened NameIndex

  type ThreadId = nat

  /** Where a thread is.  `since` is the number of index states written before its lookup began. */
  datatype PC =
    | Idle
    // Add(path, analysis)
    | AddCall(path: string, analysis: FileAnalysis)
    | AddBlocked(path: string, analysis: FileAnalysis)
    | AddLocked(path: string, analysis: FileAnalysis)
    | AddStored
    | AddCleared
    // cachedNameIndex(cfg), fast path
    | LookupCall(cfg: ConfigRef, since: nat)
    | FastLocked(cfg: ConfigRef, since: nat)
    | FastHit(cfg: ConfigRef, since: nat, names: NameMap)
    | FastMiss(cfg: ConfigRef, since: nat)
    // slow path
    | SlowCall(cfg: ConfigRef, since: nat)
    | SlowBlocked(cfg: ConfigRef, since: nat)
    | SlowLocked(cfg: ConfigRef, since: nat)
    | SlowBuilt(cfg: ConfigRef, since: nat, names: NameMap)
    | SlowStored(cfg: ConfigRef, since: nat, names: NameMap)
    | SlowDone(cfg: ConfigRef, since: nat, names: NameMap)
    | Returned(cfg: ConfigRef, since: nat, names: NameMap)

  /** `readers` and `writer` are the lock; `history` lists every state the entries have had, the current one last. */
  datatype State = State(
    entries: Entries, nameIndex: Option<NameMap>, nameIndexCfg: Option<ConfigRef>,
    readers: set<ThreadId>, writer: Option<ThreadId>,
    threads: map<ThreadId, PC>, history: seq<Entries>)

  ghost predicate Init(s: State) {
    && s.nameIndex.None? && s.nameIndexCfg.None? && s.readers == {} && s.writer.None?
    && s.history == [s.entries]
    && forall t :: t in s.threads ==> s.threads[t].Idle?
  }

  /** Has called Lock and waits; while some thread does, a new RLock waits too. */
  predicate Blocked(pc: PC) { pc.AddBlocked? || pc.SlowBlocked? }

  predicate HoldsRead(pc: PC) { pc.FastLocked? || pc.FastHit? || pc.FastMiss? }

  predicate HoldsWrite(pc: PC) {
    pc.AddLocked? || pc.AddStored? || pc.AddCleared? || pc.SlowLocked? || pc.SlowBuilt? || pc.SlowStored?
      || pc.SlowDone?
  }

  predicate CanRLock(s: State) { s.writer.None? && forall t :: t in s.threads ==> !Blocked(s.threads[t]) }
  predicate CanLock(s: State) { s.writer.None? && s.readers == {} }
  predicate CacheValidFor(s: State, cfg: ConfigRef) { s.nameIndex.Some? && s.nameIndexCfg == Some(cfg) }

  function Goto(s: State, t: ThreadId, pc: PC): State { s.(threads := s.threads[t := pc]) }

  /** An idle thread may start any operation. */
  ghost predicate Begins(s: State, s': State, t: ThreadId) {
    && t in s'.threads && s' == Goto(s, t, s'.threads[t])
    && (s'.threads[t].AddCall? || (s'.threads[t].LookupCall? && s'.threads[t].since + 1 == |s.history|))
  }

  /** Only lock acquisitions wait. */
  predicate Ready(s: State, pc: PC) {
    (Blocked(pc) ==> CanLock(s)) && (pc.LookupCall? ==> CanRLock(s))
  }

  /** The step of a thread that is inside an operation. */
  ghost function After(s: State, t: ThreadId): State
    requires t in s.threads
  {
    match s.threads[t]
    case Idle => s
    case AddCall(path, fa) => Goto(s, t, AddBlocked(path, fa))
    case AddBlocked(path, fa) => Goto(s, t, AddLocked(path, fa)).(writer := Some(t))
    case AddLocked(path, fa) =>
      var next := s.entries[path := fa];
      Goto(s, t, AddStored).(entries := next, history := s.history + [next])
    case AddStored => Goto(s, t, AddCleared).(nameIndex := None, nameIndexCfg := None)
    case AddCleared => Goto(s, t, Idle).(writer := None)
    case LookupCall(cfg, since) => Goto(s, t, FastLocked(cfg, since)).(readers := s.readers + {t})
    case FastLocked(cfg, since) =>
      Goto(s, t, if CacheValidFor(s, cfg) then FastHit(cfg, since, s.nameIndex.value) else FastMiss(cfg, since))
    case FastHit(cfg, since, names) => Goto(s, t, Returned(cfg, since, names)).(readers := s.readers - {t})
    case FastMiss(cfg, since) => Goto(s, t, SlowCall(cfg, since)).(readers := s.readers - {t})
    case SlowCall(cfg, since) => Goto(s, t, SlowBlocked(cfg, since))
    case SlowBlocked(cfg, since) => Goto(s, t, SlowLocked(cfg, since)).(writer := Some(t))
    case SlowLocked(cfg, since) =>
      Goto(s, t, if CacheValidFor(s, cfg) then SlowDone(cfg, since, s.nameIndex.value)
                 else SlowBuilt(cfg, since, NameMapOf(s.entries, cfg.config)))
    case SlowBuilt(cfg, since, names) => Goto(s, t, SlowStored(cfg, since, names)).(nameIndex := Some(names))
    case SlowStored(cfg, since, names) => Goto(s, t, SlowDone(cfg, since, names)).(nameIndexCfg := Some(cfg))
    case SlowDone(cfg, since, names) => Goto(s, t, Returned(cfg, since, names)).(writer := None)
    case Returned(cfg, since, names) => Goto(s, t, Idle)
  }

  ghost predicate Next(s: State, s': State, t: ThreadId) {
    t in s.threads && if s.threads[t].Idle? then Begins(s, s', t) else Ready(s, s.threads[t]) && s' == After(s, t)
  }

  /** The cache, when present, is the name map of the current entries for its tag. */
  ghost predicate CacheCurrent(s: State) {
    s.nameIndex.Some? ==>
      s.nameIndexCfg.Some? && s.nameIndex.value == NameMapOf(s.entries, s.nameIndexCfg.value.config)
  }

  /** The map was the name map of the entries at some moment since the call began. */
  ghost predicate Witnessed(s: State, cfg: ConfigRef, since: nat, names: NameMap) {
    exists k :: since <= k < |s.history| && names == NameMapOf(s.history[k], cfg.config)
  }

  /** The lock's records match where the thread is. */
  ghost predicate LockOk(s: State, t: ThreadId) requires t in s.threads {
    var pc := s.threads[t];
    && (t in s.readers <==> HoldsRead(pc))
    && (s.writer == Some(t) <==> HoldsWrite(pc))
    && (HoldsRead(pc) ==> s.writer.None?)
  }

  /** What the thread carries is right for the entries, or was at some moment of its call. */
  ghost predicate CarriesOk(s: State, t: ThreadId) requires t in s.threads {
    var pc := s.threads[t];
    && (pc.LookupCall? || pc.FastLocked? || pc.FastMiss? || pc.SlowCall? || pc.SlowBlocked? || pc.SlowLocked? ==>
        pc.since < |s.history|)
    && (pc.SlowBuilt? || pc.SlowStored? ==> pc.since < |s.history| && pc.names == NameMapOf(s.entries, pc.cfg.config))
    && (pc.SlowStored? ==> s.nameIndex == Some(pc.names))
    && (pc.FastHit? || pc.SlowDone? || pc.Returned? ==> Witnessed(s, pc.cfg, pc.since, pc.names))
  }

  ghost predicate ThreadOk(s: State, t: ThreadId) requires t in s.threads {
    LockOk(s, t) && CarriesOk(s, t)
  }

  /** Only the writer can have the cache out of step with the entries: between storing and clearing in `Add`,
      and between the two assignments of the slow path. */
  ghost predicate Inv(s: State) {
    && |s.history| > 0 && s.history[|s.history| - 1] == s.entries
    && s.readers <= s.threads.Keys && (s.writer.Some? ==> s.writer.value in s.threads)
    && (s.writer.Some? ==> s.readers == {})
    && (forall t :: t in s.threads ==> ThreadOk(s, t))
    && (s.writer.None? || (!s.threads[s.writer.value].AddStored? && !s.threads[s.writer.value].SlowStored?) ==>
        CacheCurrent(s))
  }

  lemma InitHolds(s: State)
    requires Init(s)
    ensures Inv(s)
  {
  }

  lemma WitnessedLater(s: State, s': State, cfg: ConfigRef, since: nat, names: NameMap)
    requires s.history <= s'.history && Witnessed(s, cfg, since, names)
    ensures Witnessed(s', cfg, since, names)
  {
    hide NameMapOf;
    var k :| since <= k < |s.history| && names == NameMapOf(s.history[k], cfg.config);
    assert s'.history[k] == s.history[k];
  }

  /** A thread other than the one that steps keeps its facts. */
  lemma BystanderOk(s: State, s': State, t: ThreadId, u: ThreadId)
    requires Inv(s) && Next(s, s', t) && u in s.threads && u != t
    ensures u in s'.threads && ThreadOk(s', u)
  {
    hide NameMapOf, Witnessed;
    assert ThreadOk(s, t) && ThreadOk(s, u);
    var pc := s.threads[u];
    assert s'.threads[u] == pc;
    assert s.history <= s'.history;
    if pc.FastHit? || pc.SlowDone? || pc.Returned? {
      WitnessedLater(s, s', pc.cfg, pc.since, pc.names);
    }
  }

  /** The moment a lookup obtains its map: the entries current now bear witness. */
  lemma WitnessedNow(s: State, cfg: ConfigRef, since: nat, names: NameMap)
    requires |s.history| > 0 && s.history[|s.history| - 1] == s.entries && since < |s.history|
    requires names == NameMapOf(s.entries, cfg.config)
    ensures Witnessed(s, cfg, since, names)
  {
    hide NameMapOf;
    var now := |s.history| - 1;
    assert since <= now < |s.history| && names == NameMapOf(s.history[now], cfg.config);
  }

  lemma StepperLockOk(s: State, s': State, t: ThreadId)
    requires Inv(s) && Next(s, s', t)
    ensures t in s'.threads && LockOk(s', t)
  {
    hide NameMapOf, CarriesOk, CacheCurrent;
    assert ThreadOk(s, t);
  }

  lemma StepperCarriesOk(s: State, s': State, t: ThreadId)
    requires Inv(s) && Next(s, s', t)
    ensures t in s'.threads && CarriesOk(s', t)
  {
    hide NameMapOf, Witnessed;
    assert ThreadOk(s, t);
    var pc := s.threads[t];
    if pc.FastHit? || pc.SlowDone? || pc.Returned? {
      WitnessedLater(s, s', pc.cfg, pc.since, pc.names);
    } else if (pc.FastLocked? || pc.SlowLocked?) && CacheValidFor(s, pc.cfg) {
      assert CacheCurrent(s);
      WitnessedNow(s', pc.cfg, pc.since, s.nameIndex.value);
    } else if pc.SlowStored? {
      WitnessedNow(s', pc.cfg, pc.since, pc.names);
    }
  }

  lemma LockStep(s: State, s': State, t: ThreadId)
    requires Inv(s) && Next(s, s', t)
    ensures s'.threads.Keys == s.threads.Keys
    ensures s'.readers <= s'.threads.Keys && (s'.writer.Some? ==> s'.writer.value in s'.threads)
    ensures s'.writer.Some? ==> s'.readers == {}
    ensures |s'.history| > 0 && s'.history[|s'.history| - 1] == s'.entries
  {
    hide NameMapOf, Witnessed;
    assert ThreadOk(s, t);
  }

  lemma CacheStep(s: State, s': State, t: ThreadId)
    requires Inv(s) && Next(s, s', t) && s'.threads.Keys == s.threads.Keys
    requires s'.writer.Some? ==> s'.writer.value in s'.threads
    ensures s'.writer.None? || (!s'.threads[s'.writer.value].AddStored? && !s'.threads[s'.writer.value].SlowStored?) ==>
              CacheCurrent(s')
  {
    hide NameMapOf, Witnessed;
    assert ThreadOk(s, t);
  }

  lemma StepKeepsInv(s: State, s': State, t: ThreadId)
    requires Inv(s) && Next(s, s', t)
    ensures Inv(s')
  {
    StepperLockOk(s, s', t);
    StepperCarriesOk(s, s', t);
    LockStep(s, s', t);
    CacheStep(s, s', t);
    forall u | u in s'.threads ensures ThreadOk(s', u) {
      if u != t { BystanderOk(s, s', t, u); }
    }
    hide NameMapOf, Witnessed, LockOk, CarriesOk, Next, CacheCurrent;
  }

  /** A run: from an initial state, each state follows from the one before by a step of some thread. */
  ghost predicate Run(run: seq<State>) {
    && |run| > 0 && Init(run[0])
    && forall i :: 0 < i < |run| ==> SomeStep(run[i - 1], run[i])
  }

  ghost predicate SomeStep(s: State, s': State) {
    exists t :: Next(s, s', t)
  }

  lemma {:induction false} RunKeepsInv(run: seq<State>, i: nat)
    requires Run(run) && i < |run|
    ensures Inv(run[i])
  {
    if i == 0 {
      InitHolds(run[0]);
    } else {
      RunKeepsInv(run, i - 1);
      var t :| Next(run[i - 1], run[i], t);
      StepKeepsInv(run[i - 1], run[i], t);
    }
  }

  /** In every run, whenever no writer is inside, a present cache is the name map of the current entries. */
  lemma CacheIsCurrentWhenUnlocked(run: seq<State>, i: nat)
    requires Run(run) && i < |run| && run[i].writer.None?
    ensures CacheCurrent(run[i])
  {
    RunKeepsInv(run, i);
  }

  /** In every run, each returned map is the name map the entries had at some moment during the call. */
  lemma ReturnsAMomentOfTheCall(run: seq<State>, i: nat, t: ThreadId)
    requires Run(run) && i < |run| && t in run[i].threads && run[i].threads[t].Returned?
    ensures var pc := run[i].threads[t]; Witnessed(run[i], pc.cfg, pc.since, pc.names)
  {
    RunKeepsInv(run, i);
    assert ThreadOk(run[i], t);
  }

  /** In every run, a thread that asks or waits for the write lock holds no read lock; writers exclude readers. */
  lemma NoUpgrade(run: seq<State>, i: nat, t: ThreadId)
    requires Run(run) && i < |run| && t in run[i].threads
    ensures var pc := run[i].threads[t]; pc.AddCall? || pc.SlowCall? || Blocked(pc) || HoldsWrite(pc) ==>
              t !in run[i].readers
    ensures run[i].writer.Some? ==> run[i].readers == {}
  {
    RunKeepsInv(run, i);
    assert ThreadOk(run[i], t);
  }

  /** Some step of the thread is possible. */
  ghost predicate Enabled(s: State, t: ThreadId) {
    exists s' :: Next(s, s', t)
  }

  /** No deadlock: in every reachable state where an operation is under way, some thread inside one can step. */
  lemma SomeoneCanStep(run: seq<State>, i: nat, t: ThreadId) returns (u: ThreadId)
    requires Run(run) && i < |run| && t in run[i].threads && !run[i].threads[t].Idle?
    ensures u in run[i].threads && !run[i].threads[u].Idle? && Enabled(run[i], u)
  {
    var s := run[i];
    RunKeepsInv(run, i);
    if s.writer.Some? {
      u := s.writer.value;
    } else if s.readers != {} {
      u :| u in s.readers;
    } else if exists w :: w in s.threads && Blocked(s.threads[w]) {
      u :| u in s.threads && Blocked(s.threads[u]);
    } else {
      u := t;
    }
    assert ThreadOk(s, u);
    hide After, NameMapOf;
    assert Next(s, After(s, u), u);
  }
}
