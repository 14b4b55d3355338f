/** The background build publishing its index while the dispatch loop applies edits
    (`publishIndex`, `replayOpenBuffers`, `applyDocumentChange` in internal/server/server.go and
    internal/document/store.go).  Every access made under `idxResMu` is a step of its own. */
module PublishProtocol {
  import opened Model
  import opened Text
  import opened NameIndex
  import opened Resolution

  /** A buffer's analysis, stamped in the order buffers reach the server.  Stamp 0 is kept for disk content. */
  datatype Buffer = Buffer(stamp: nat, analysis: FileAnalysis)

  datatype BuilderPC =
    | Building
    | Built(entries: Option<Entries>)
    | PublishLocked(entries: Option<Entries>)
    | IndexSet(entries: Option<Entries>)
    | PairSet
    | Published
    | Snapshotted(docs: map<string, Buffer>)
    | ReplayLocked(docs: map<string, Buffer>, todo: set<string>)
    | ReplayResolved
    | Finished

  /** `disk` marks a watched-file event, whose content does not come from a buffer. */
  datatype LoopPC =
    | Ready
    | ChangePending(path: string, buffer: Buffer, disk: bool)
    | ChangeLocked(path: string, buffer: Buffer, disk: bool)
    | ChangeAdded(path: string)
    | ChangeDone

  datatype Holder = Nobody | Builder | Loop

  /** The fields after `loop` are records for stating properties: `base` is the index state `res` was last computed
      for; `origin` the stamp behind each entry; `log` every buffer ever received; `atPublish` the stamps stored when
      the index was published, of documents neither closed nor reopened since; `fromDisk` the entries last
      overwritten by a watched file; `overtaken` the documents whose newer buffer, received and applied between
      snapshot and replay, the replay overwrites. */
  datatype State = State(
    cfg: Config, store: map<string, Buffer>, clock: nat,
    idx: Option<Entries>, res: Option<Bindings>, holder: Holder,
    builder: BuilderPC, loop: LoopPC,
    base: Entries, origin: map<string, nat>, log: map<nat, (string, FileAnalysis)>,
    atPublish: map<string, nat>, fromDisk: set<string>, overtaken: set<string>)

  ghost predicate Init(s: State) {
    && s.store == map[] && s.clock == 0 && s.idx.None? && s.res.None? && s.holder.Nobody?
    && s.builder.Building? && s.loop.Ready? && s.origin == map[] && s.log == map[]
    && s.atPublish == map[] && s.fromDisk == {} && s.overtaken == {}
  }

  // ----- Steps of the dispatch loop -----

  function Received(s: State, path: string, fa: FileAnalysis): State {
    s.(clock := s.clock + 1, log := s.log[s.clock + 1 := (path, fa)])
  }

  /** didOpen: the store only; the index is not touched. */
  function Open(s: State, path: string, fa: FileAnalysis): State {
    Received(s, path, fa).(store := s.store[path := Buffer(s.clock + 1, fa)], atPublish := s.atPublish - {path})
  }

  function Close(s: State, path: string): State {
    s.(store := s.store - {path}, atPublish := s.atPublish - {path})
  }

  /** didChange: `Store.Update` ignores an unopened document, but the change is applied to the index regardless. */
  function Change(s: State, path: string, fa: FileAnalysis): State {
    var b := Buffer(s.clock + 1, fa);
    Received(s, path, fa).(store := if path in s.store then s.store[path := b] else s.store,
                           loop := ChangePending(path, b, false))
  }

  /** A watched file changed or was deleted; deletion too stores an analysis, nothing is removed. */
  function Watched(s: State, path: string, fa: FileAnalysis): State {
    s.(loop := ChangePending(path, Buffer(0, fa), true))
  }

  function AcquireChange(s: State): State requires s.loop.ChangePending? {
    s.(holder := Loop, loop := ChangeLocked(s.loop.path, s.loop.buffer, s.loop.disk))
  }

  /** Without an index the change is dropped; otherwise the entry is stored. */
  function AddChange(s: State): State requires s.loop.ChangeLocked? {
    var p, b := s.loop.path, s.loop.buffer;
    if s.idx.None? then s.(loop := ChangeDone)
    else
      s.(idx := Some(s.idx.value[p := b.analysis]), origin := s.origin[p := b.stamp], loop := ChangeAdded(p),
         fromDisk := if s.loop.disk then s.fromDisk + {p} else s.fromDisk - {p},
         overtaken :=
           if s.loop.disk then s.overtaken
           else if s.builder.Snapshotted? then
             if p in s.builder.docs && s.builder.docs[p].stamp < b.stamp then s.overtaken + {p} else s.overtaken
           else s.overtaken - {p})
  }

  ghost function ResolveChange(s: State): State requires s.loop.ChangeAdded? && s.idx.Some? && s.res.Some? {
    s.(res := Some(IncrementalBindings(s.res.value, s.idx.value, s.cfg, [s.loop.path])), base := s.idx.value,
       loop := ChangeDone)
  }

  // ----- Steps of the background build -----

  ghost function BindingsFor(entries: Option<Entries>, cfg: Config): Option<Bindings> {
    if entries.Some? then Some(FullBindings(entries.value, cfg)) else None
  }

  function SetIndex(s: State): State requires s.builder.PublishLocked? {
    s.(idx := s.builder.entries, builder := IndexSet(s.builder.entries),
       origin := if s.builder.entries.Some? then map p | p in s.builder.entries.value :: 0 else map[],
       atPublish := map p | p in s.store :: s.store[p].stamp)
  }

  ghost function SetPair(s: State): State requires s.builder.IndexSet? {
    s.(res := BindingsFor(s.builder.entries, s.cfg), builder := PairSet,
       base := if s.builder.entries.Some? then s.builder.entries.value else s.base)
  }

  function AcquireReplay(s: State): State requires s.builder.Snapshotted? {
    s.(holder := Builder, builder := ReplayLocked(s.builder.docs, s.builder.docs.Keys), fromDisk := {})
  }

  function AddReplay(s: State, p: string): State
    requires s.builder.ReplayLocked? && s.idx.Some? && p in s.builder.todo && p in s.builder.docs
  {
    var b := s.builder.docs[p];
    s.(idx := Some(s.idx.value[p := b.analysis]), origin := s.origin[p := b.stamp],
       builder := ReplayLocked(s.builder.docs, s.builder.todo - {p}))
  }

  /** The store's documents come in an arbitrary order. */
  ghost function ResolveReplay(s: State,
      order: seq<string>): State requires s.builder.ReplayLocked? && s.idx.Some? && s.res.Some? {
    s.(res := Some(IncrementalBindings(s.res.value, s.idx.value, s.cfg, order)), base := s.idx.value,
       builder := ReplayResolved)
  }

  // ----- Runs -----

  datatype Action =
    | DidOpen(path: string, analysis: FileAnalysis) | DidClose(path: string)
    | DidChange(path: string, analysis: FileAnalysis) | DidWatch(path: string, analysis: FileAnalysis)
    | LockChange | StoreChange | RebindChange | UnlockChange
    | FinishBuild(entries: Option<Entries>) | LockPublish | PublishIndex | PublishBindings | UnlockPublish
    | Snapshot | LockReplay | StoreReplay(path: string) | RebindReplay(order: seq<string>) | SkipReplay | UnlockReplay

  predicate IsLoopAction(a: Action) {
    a.DidOpen? || a.DidClose? || a.DidChange? || a.DidWatch? || a.LockChange? || a.StoreChange? || a.RebindChange?
      || a.UnlockChange?
  }

  ghost predicate Enabled(s: State, a: Action) {
    match a
    case DidOpen(_, _) => s.loop.Ready?
    case DidClose(_) => s.loop.Ready?
    case DidChange(_, _) => s.loop.Ready?
    case DidWatch(_, _) => s.loop.Ready?
    case LockChange => s.loop.ChangePending? && s.holder.Nobody?
    case StoreChange => s.loop.ChangeLocked?
    case RebindChange => s.loop.ChangeAdded? && s.idx.Some? && s.res.Some?
    case UnlockChange => s.loop.ChangeDone?
    case FinishBuild(_) => s.builder.Building?
    case LockPublish => s.builder.Built? && s.holder.Nobody?
    case PublishIndex => s.builder.PublishLocked?
    case PublishBindings => s.builder.IndexSet?
    case UnlockPublish => s.builder.PairSet?
    case Snapshot => s.builder.Published?
    case LockReplay => s.builder.Snapshotted? && s.holder.Nobody?
    case StoreReplay(p) => s.builder.ReplayLocked? && s.idx.Some? && p in s.builder.todo && p in s.builder.docs
    case RebindReplay(order) =>
      s.builder.ReplayLocked? && s.idx.Some? && s.res.Some? && s.builder.todo == {}
        && Elements(order) == s.builder.docs.Keys
    case SkipReplay => s.builder.ReplayLocked? && s.idx.None?
    case UnlockReplay => s.builder.ReplayResolved?
  }

  ghost function Do(s: State, a: Action): State requires Enabled(s, a) {
    match a
    case DidOpen(p, fa) => Open(s, p, fa)
    case DidClose(p) => Close(s, p)
    case DidChange(p, fa) => Change(s, p, fa)
    case DidWatch(p, fa) => Watched(s, p, fa)
    case LockChange => AcquireChange(s)
    case StoreChange => AddChange(s)
    case RebindChange => ResolveChange(s)
    case UnlockChange => s.(holder := Nobody, loop := Ready)
    case FinishBuild(entries) => s.(builder := Built(entries))
    case LockPublish => s.(holder := Builder, builder := PublishLocked(s.builder.entries))
    case PublishIndex => SetIndex(s)
    case PublishBindings => SetPair(s)
    case UnlockPublish => s.(holder := Nobody, builder := Published)
    case Snapshot => s.(builder := if s.store == map[] then Finished else Snapshotted(s.store), overtaken := {})
    case LockReplay => AcquireReplay(s)
    case StoreReplay(p) => AddReplay(s, p)
    case RebindReplay(order) => ResolveReplay(s, order)
    case SkipReplay => s.(builder := ReplayResolved)
    case UnlockReplay => s.(holder := Nobody, builder := Finished)
  }

  // ----- The invariant -----

  predicate BuilderLocked(b: BuilderPC) {
    b.PublishLocked? || b.IndexSet? || b.PairSet? || b.ReplayLocked? || b.ReplayResolved?
  }

  predicate LoopLocked(l: LoopPC) {
    l.ChangeLocked? || l.ChangeAdded? || l.ChangeDone?
  }

  ghost predicate LockInv(s: State) {
    (s.holder.Builder? <==> BuilderLocked(s.builder)) && (s.holder.Loop? <==> LoopLocked(s.loop))
  }

  /** `res` fits the index except inside a critical section, where it fits `base` and the index has only gained
      entries. */
  ghost predicate PairInv(s: State) {
    && (s.idx.Some? ==> s.builder.IndexSet? || s.res.Some?)
    && (s.idx.Some? && !s.builder.IndexSet? ==> s.res.value == FullBindings(s.base, s.cfg))
    && (s.builder.IndexSet? ==> s.idx == s.builder.entries)
    && (s.idx.Some? && !s.builder.IndexSet? ==>
         if s.builder.ReplayLocked? then OnlyAddsAt(s.base, s.idx.value, s.builder.docs.Keys - s.builder.todo)
         else if s.loop.ChangeAdded? then OnlyAddsAt(s.base, s.idx.value, {s.loop.path})
         else s.base == s.idx.value)
    && (s.builder.ReplayLocked? ==> s.builder.todo <= s.builder.docs.Keys)
  }

  ghost predicate OnlyAddsAt(before: Entries, after: Entries, paths: set<string>) {
    before.Keys <= after.Keys && forall p :: p in after && p !in paths ==> p in before && before[p] == after[p]
  }

  lemma OnlyAddsAtOrder(before: Entries, after: Entries, paths: set<string>, order: seq<string>)
    requires OnlyAddsAt(before, after, paths) && Elements(order) == paths
    ensures OnlyAdds(before, after, order)
  {
    assert forall p :: p in order <==> p in Elements(order);
  }

  lemma InitHolds(s: State)
    requires Init(s)
    ensures LockInv(s) && PairInv(s) && LogInv(s) && FloorInv(s) && LatestInv(s)
  {
  }

  lemma KeepsLock(s: State, a: Action)
    requires LockInv(s) && Enabled(s, a)
    ensures LockInv(Do(s, a))
  {
    hide FullBindings, IncrementalBindings;
  }

  lemma KeepsPair(s: State, a: Action)
    requires LockInv(s) && PairInv(s) && Enabled(s, a)
    ensures PairInv(Do(s, a))
  {
    hide FullBindings, IncrementalBindings;
    if a.RebindChange? {
      OnlyAddsAtOrder(s.base, s.idx.value, {s.loop.path}, [s.loop.path]);
      IncrementalEqualsFull(s.base, s.idx.value, s.cfg, [s.loop.path]);
    } else if a.RebindReplay? {
      assert s.builder.docs.Keys - {} == s.builder.docs.Keys;
      OnlyAddsAtOrder(s.base, s.idx.value, s.builder.docs.Keys, a.order);
      IncrementalEqualsFull(s.base, s.idx.value, s.cfg, a.order);
    }
  }

  // ----- Where entries come from -----

  predicate Logged(s: State, p: string, b: Buffer) {
    b.stamp in s.log && s.log[b.stamp] == (p, b.analysis)
  }

  ghost predicate LogOk(s: State, p: string) {
    && (p in s.store ==> Logged(s, p, s.store[p]))
    && ((s.builder.Snapshotted? || s.builder.ReplayLocked?) && p in s.builder.docs ==> Logged(s, p, s.builder.docs[p]))
    && ((s.loop.ChangePending? || s.loop.ChangeLocked?) && s.loop.path == p ==>
         if s.loop.disk then s.loop.buffer.stamp == 0 else Logged(s, p, s.loop.buffer))
    && (s.idx.Some? ==> (p in s.origin <==> p in s.idx.value))
    && (s.idx.Some? && p in s.origin && s.origin[p] != 0 ==> Logged(s, p, Buffer(s.origin[p], s.idx.value[p])))
  }

  ghost predicate LogInv(s: State) {
    (forall n :: n in s.log ==> 0 < n <= s.clock) && (forall p :: LogOk(s, p))
  }

  lemma EventKeepsLog(s: State, a: Action, p: string)
    requires LogInv(s) && Enabled(s, a) && s.loop.Ready? && IsLoopAction(a)
    ensures LogOk(Do(s, a), p)
  {
    hide FullBindings, IncrementalBindings;
    assert LogOk(s, p);
  }

  lemma StoreKeepsLog(s: State, p: string)
    requires LogInv(s) && Enabled(s, StoreChange)
    ensures LogOk(Do(s, StoreChange), p)
  {
    hide FullBindings, IncrementalBindings;
    assert LogOk(s, p);
  }

  lemma LoopKeepsLog(s: State, a: Action, p: string)
    requires LogInv(s) && Enabled(s, a) && !s.loop.Ready? && IsLoopAction(a) && !a.StoreChange?
    ensures LogOk(Do(s, a), p)
  {
    hide FullBindings, IncrementalBindings;
    assert LogOk(s, p);
  }

  lemma BuilderKeepsLog(s: State, a: Action, p: string)
    requires LogInv(s) && Enabled(s, a) && !IsLoopAction(a)
    ensures LogOk(Do(s, a), p)
  {
    hide FullBindings, IncrementalBindings;
    assert LogOk(s, p);
  }

  lemma KeepsLog(s: State, a: Action)
    requires LogInv(s) && Enabled(s, a)
    ensures LogInv(Do(s, a))
  {
    hide FullBindings, IncrementalBindings, LogOk;
    forall p ensures LogOk(Do(s, a), p) {
      if !IsLoopAction(a) {
        BuilderKeepsLog(s, a, p);
      } else if s.loop.Ready? {
        EventKeepsLog(s, a, p);
      } else if a.StoreChange? {
        StoreKeepsLog(s, p);
      } else {
        LoopKeepsLog(s, a, p);
      }
    }
  }

  /** The entry of p comes from a buffer at least as new as the one stored at publish. */
  ghost predicate AtLeast(s: State, p: string) requires p in s.atPublish {
    s.idx.Some? ==> p in s.origin && (p !in s.fromDisk ==> s.origin[p] >= s.atPublish[p])
  }

  ghost predicate FloorOk(s: State, p: string) {
    p in s.atPublish ==>
      && p in s.store && s.store[p].stamp >= s.atPublish[p] > 0
      && !s.builder.Building? && !s.builder.Built? && !s.builder.PublishLocked?
      && (s.builder.Snapshotted? || s.builder.ReplayLocked? ==>
          p in s.builder.docs && s.builder.docs[p].stamp >= s.atPublish[p])
      && (s.builder.ReplayLocked? && p !in s.builder.todo ==> AtLeast(s, p))
      && (s.builder.ReplayResolved? || s.builder.Finished? ==> AtLeast(s, p))
  }

  /** A pending edit of an open document is its stored buffer. */
  predicate PendingIsStored(s: State) {
    (s.loop.ChangePending? || s.loop.ChangeLocked?) && !s.loop.disk && s.loop.path in s.store ==>
      s.store[s.loop.path] == s.loop.buffer
  }

  ghost predicate FloorInv(s: State) {
    PendingIsStored(s) && (forall p :: FloorOk(s, p))
  }

  lemma EventKeepsFloor(s: State, a: Action, p: string)
    requires LockInv(s) && LogInv(s) && FloorInv(s) && Enabled(s, a) && s.loop.Ready? && IsLoopAction(a)
    ensures FloorOk(Do(s, a), p)
  {
    hide FullBindings, IncrementalBindings;
    assert LogOk(s, p) && FloorOk(s, p);
  }

  lemma LoopKeepsFloor(s: State, a: Action, p: string)
    requires LockInv(s) && LogInv(s) && FloorInv(s) && Enabled(s, a) && !s.loop.Ready? && IsLoopAction(a)
    ensures FloorOk(Do(s, a), p)
  {
    hide FullBindings, IncrementalBindings;
    assert LogOk(s, p) && FloorOk(s, p);
  }

  lemma BuilderKeepsFloor(s: State, a: Action, p: string)
    requires LockInv(s) && LogInv(s) && FloorInv(s) && Enabled(s, a) && !IsLoopAction(a)
    ensures FloorOk(Do(s, a), p)
  {
    hide FullBindings, IncrementalBindings;
    assert LogOk(s, p) && FloorOk(s, p);
  }

  lemma KeepsFloor(s: State, a: Action)
    requires LockInv(s) && LogInv(s) && FloorInv(s) && Enabled(s, a)
    ensures FloorInv(Do(s, a))
  {
    hide FullBindings, IncrementalBindings, FloorOk, LogOk;
    forall p ensures FloorOk(Do(s, a), p) {
      if !IsLoopAction(a) {
        BuilderKeepsFloor(s, a, p);
      } else if s.loop.Ready? {
        EventKeepsFloor(s, a, p);
      } else {
        LoopKeepsFloor(s, a, p);
      }
    }
  }

  /** An edit of p has reached the store but not yet the index. */
  predicate InFlight(s: State, p: string) {
    (s.loop.ChangePending? || s.loop.ChangeLocked?) && !s.loop.disk && s.loop.path == p
  }

  /** How the replayed or about-to-be-replayed stamp of p compares with the store. */
  ghost predicate Compared(s: State, p: string, stamp: nat) requires p in s.store {
    && stamp <= s.store[p].stamp
    && (p in s.overtaken ==> stamp < s.store[p].stamp)
    && (p !in s.overtaken && !InFlight(s, p) ==> stamp == s.store[p].stamp)
  }

  ghost predicate LatestOk(s: State, p: string) {
    p in s.atPublish && p in s.store ==>
      && ((s.builder.Snapshotted? || s.builder.ReplayLocked?) && s.idx.Some? && p in s.builder.docs ==>
          Compared(s, p, s.builder.docs[p].stamp))
      && (s.builder.ReplayLocked? && p in s.builder.docs && p !in s.builder.todo && s.idx.Some? && p in s.origin ==>
           s.origin[p] == s.builder.docs[p].stamp)
      && ((s.builder.ReplayResolved? || s.builder.Finished?) && s.idx.Some? && p in s.origin && p !in s.fromDisk ==>
           Compared(s, p, s.origin[p]))
  }

  ghost predicate LatestInv(s: State) {
    forall p :: LatestOk(s, p)
  }

  lemma EventKeepsLatest(s: State, a: Action, p: string)
    requires LockInv(s) && LogInv(s) && FloorInv(s) && LatestInv(s) && Enabled(s, a) && s.loop.Ready? && IsLoopAction(a)
    ensures LatestOk(Do(s, a), p)
  {
    hide FullBindings, IncrementalBindings;
    assert LogOk(s, p) && FloorOk(s, p) && LatestOk(s, p);
  }

  lemma LoopKeepsLatest(s: State, a: Action, p: string)
    requires LockInv(s) && LogInv(s) && FloorInv(s) && LatestInv(s) && Enabled(s, a) && !s.loop.Ready?
    requires IsLoopAction(a)
    ensures LatestOk(Do(s, a), p)
  {
    hide FullBindings, IncrementalBindings;
    assert LogOk(s, p) && FloorOk(s, p) && LatestOk(s, p);
  }

  lemma BuilderKeepsLatest(s: State, a: Action, p: string)
    requires LockInv(s) && LogInv(s) && FloorInv(s) && LatestInv(s) && Enabled(s, a) && !IsLoopAction(a)
    ensures LatestOk(Do(s, a), p)
  {
    hide FullBindings, IncrementalBindings;
    assert LogOk(s, p) && FloorOk(s, p) && LatestOk(s, p);
  }

  lemma KeepsLatest(s: State, a: Action)
    requires LockInv(s) && LogInv(s) && FloorInv(s) && LatestInv(s) && Enabled(s, a)
    ensures LatestInv(Do(s, a))
  {
    hide FullBindings, IncrementalBindings, FloorOk, LogOk, LatestOk;
    forall p ensures LatestOk(Do(s, a), p) {
      if !IsLoopAction(a) {
        BuilderKeepsLatest(s, a, p);
      } else if s.loop.Ready? {
        EventKeepsLatest(s, a, p);
      } else {
        LoopKeepsLatest(s, a, p);
      }
    }
  }

  // ----- Every run -----

  /** The actions, in this order, lead from one state to the other. */
  ghost predicate Reaches(s: State, actions: seq<Action>, t: State)
    decreases actions
  {
    if actions == [] then s == t
    else Enabled(s, actions[0]) && Reaches(Do(s, actions[0]), actions[1..], t)
  }

  /** A state of some run: reached from an initial state by some sequence of actions, in any interleaving. */
  ghost predicate Reachable(s: State) {
    exists start, actions :: Init(start) && Reaches(start, actions, s)
  }

  ghost predicate Inv(s: State) {
    LockInv(s) && PairInv(s) && LogInv(s) && FloorInv(s) && LatestInv(s)
  }

  lemma StepKeepsInv(s: State, a: Action)
    requires Inv(s) && Enabled(s, a)
    ensures Inv(Do(s, a))
  {
    hide LockInv, PairInv, LogInv, FloorInv, LatestInv, Enabled, Do;
    KeepsLock(s, a);
    KeepsPair(s, a);
    KeepsLog(s, a);
    KeepsFloor(s, a);
    KeepsLatest(s, a);
  }

  lemma {:induction false} ReachesKeepsInv(s: State, actions: seq<Action>, t: State)
    requires Inv(s) && Reaches(s, actions, t)
    ensures Inv(t)
    decreases actions
  {
    hide Inv, Enabled, Do;
    if actions != [] {
      StepKeepsInv(s, actions[0]);
      ReachesKeepsInv(Do(s, actions[0]), actions[1..], t);
    }
  }

  lemma ReachableKeepsInv(s: State)
    requires Reachable(s)
    ensures Inv(s)
  {
    hide Inv, Reaches, Init;
    var start, actions :| Init(start) && Reaches(start, actions, s);
    InitInv(start);
    ReachesKeepsInv(start, actions, s);
  }

  lemma InitInv(s: State)
    requires Init(s)
    ensures Inv(s)
  {
    InitHolds(s);
  }

  /** In every interleaving, whenever the lock is free and an index is published, the published resolution set is what
      a full resolve of that index gives: no reader under the lock sees a torn pair. */
  lemma PairIsConsistent(s: State)
    requires Reachable(s) && s.holder.Nobody? && s.idx.Some?
    ensures s.res == Some(FullBindings(s.idx.value, s.cfg))
  {
    hide FullBindings, Reachable;
    ReachableKeepsInv(s);
  }

  /** In every interleaving, once replay is over, each document open since the publish has an entry that, unless a
      watched file overwrote it since, is the analysis of a buffer of that document no older than the one stored
      when the index was published. */
  lemma ReplayedEntriesAreRecent(s: State, p: string)
    requires Reachable(s) && s.builder.Finished? && s.idx.Some? && p in s.atPublish
    ensures p in s.idx.value && p in s.store
    ensures p !in s.fromDisk ==>
      && p in s.origin && s.origin[p] >= s.atPublish[p] > 0
      && s.origin[p] in s.log && s.log[s.origin[p]] == (p, s.idx.value[p])
  {
    hide FullBindings, Reachable;
    ReachableKeepsInv(s);
    assert LogOk(s, p) && FloorOk(s, p);
  }

  /** "The index shows the latest buffer" holds, when replay is over and no edit is under way, exactly for the documents
      whose edit was not both received and applied between the store snapshot and the replay's critical section. */
  lemma LatestUnlessOvertaken(s: State, p: string)
    requires Reachable(s) && s.builder.Finished? && s.loop.Ready? && s.idx.Some?
    requires p in s.atPublish && p !in s.fromDisk
    ensures p in s.store && p in s.origin
    ensures s.origin[p] == s.store[p].stamp <==> p !in s.overtaken
  {
    hide FullBindings, Reachable;
    ReachableKeepsInv(s);
    assert LogOk(s, p) && FloorOk(s, p) && LatestOk(s, p);
  }

  // ----- The same, told by the actions alone -----

  /** What the actions of a run say of its edits: the path of the edit under way, if it is one of a buffer, and whether
      it was received inside the window between Snapshot and LockReplay; whether the run is inside the window; the
      documents whose last edit to be stored was both received and stored inside. */
  datatype Edits = Edits(pending: Option<string>, received: bool, open: bool, inside: set<string>)

  const NO_EDITS := Edits(None, false, false, {})

  function Note(h: Edits, a: Action): Edits {
    match a
    case DidChange(p, _) => h.(pending := Some(p), received := h.open)
    case DidWatch(_, _) => h.(pending := None)
    case StoreChange =>
      if h.pending.None? || (h.open && !h.received) then h
      else h.(inside := if h.open then h.inside + {h.pending.value} else h.inside - {h.pending.value})
    case Snapshot => h.(open := true, inside := {})
    case LockReplay => h.(open := false)
    case _ => h
  }

  function Noted(h: Edits, actions: seq<Action>): Edits
    decreases actions
  {
    if actions == [] then h else Noted(Note(h, actions[0]), actions[1..])
  }

  predicate Changing(l: LoopPC) {
    l.ChangePending? || l.ChangeLocked?
  }

  predicate PastSnapshot(b: BuilderPC) {
    b.Snapshotted? || b.ReplayLocked? || b.ReplayResolved? || b.Finished?
  }

  /** What was noted fits the state, as far as document p goes. */
  ghost predicate NotedOk(s: State, h: Edits, p: string) {
    && (Changing(s.loop) ==> h.pending == if s.loop.disk then None else Some(s.loop.path))
    && (!PastSnapshot(s.builder) ==> !h.open && (Changing(s.loop) && !s.loop.disk ==> !h.received))
    && (p in s.atPublish && PastSnapshot(s.builder) ==>
         && (h.open <==> s.builder.Snapshotted?)
         && (h.open && InFlight(s, p) && p in s.builder.docs ==>
              (h.received <==> s.builder.docs[p].stamp < s.loop.buffer.stamp))
         && (s.idx.Some? ==> (p in h.inside <==> p in s.overtaken)))
  }

  lemma EventKeepsNoted(s: State, h: Edits, a: Action, p: string)
    requires LogInv(s) && FloorInv(s) && NotedOk(s, h, p) && Enabled(s, a) && s.loop.Ready? && IsLoopAction(a)
    ensures NotedOk(Do(s, a), Note(h, a), p)
  {
    hide FullBindings, IncrementalBindings;
    assert LogOk(s, p) && FloorOk(s, p);
  }

  lemma LoopKeepsNoted(s: State, h: Edits, a: Action, p: string)
    requires LogInv(s) && FloorInv(s) && NotedOk(s, h, p) && Enabled(s, a) && !s.loop.Ready? && IsLoopAction(a)
    ensures NotedOk(Do(s, a), Note(h, a), p)
  {
    hide FullBindings, IncrementalBindings;
    assert LogOk(s, p) && FloorOk(s, p);
  }

  lemma BuilderKeepsNoted(s: State, h: Edits, a: Action, p: string)
    requires LogInv(s) && FloorInv(s) && NotedOk(s, h, p) && Enabled(s, a) && !IsLoopAction(a)
    ensures NotedOk(Do(s, a), Note(h, a), p)
  {
    hide FullBindings, IncrementalBindings;
    assert LogOk(s, p) && FloorOk(s, p);
  }

  lemma {:induction false} ReachesKeepsNoted(s: State, h: Edits, actions: seq<Action>, t: State, p: string)
    requires Inv(s) && NotedOk(s, h, p) && Reaches(s, actions, t)
    ensures NotedOk(t, Noted(h, actions), p)
    decreases actions
  {
    hide Enabled, Do, Note, NotedOk, LogInv, FloorInv, LockInv, PairInv, LatestInv;
    if actions != [] {
      var a := actions[0];
      StepKeepsInv(s, a);
      if !IsLoopAction(a) {
        BuilderKeepsNoted(s, h, a, p);
      } else if s.loop.Ready? {
        EventKeepsNoted(s, h, a, p);
      } else {
        LoopKeepsNoted(s, h, a, p);
      }
      ReachesKeepsNoted(Do(s, a), Note(h, a), actions[1..], t, p);
    }
  }

  /** In every run, when replay is over and no edit is under way, the entry of a document open since the publish is its
      latest buffer exactly if the last of its edits to be stored was not both received and stored between Snapshot and
      LockReplay. */
  lemma LatestUnlessEditedInside(start: State, actions: seq<Action>, s: State, p: string)
    requires Init(start) && Reaches(start, actions, s)
    requires s.builder.Finished? && s.loop.Ready? && s.idx.Some? && p in s.atPublish && p !in s.fromDisk
    ensures p in s.store && p in s.origin
    ensures s.origin[p] == s.store[p].stamp <==> p !in Noted(NO_EDITS, actions).inside
  {
    hide FullBindings, Reaches, Noted, Inv;
    LatestUnlessOvertaken(s, p);
    InitInv(start);
    ReachesKeepsNoted(start, NO_EDITS, actions, s, p);
  }

  // ----- What the store and the index hold -----

  /** The text a document was last given while open, as the actions of a run tell. */
  function TextAfter(actions: seq<Action>, p: string): Option<FileAnalysis> {
    if actions == [] then None
    else
      var before := TextAfter(actions[..|actions| - 1], p);
      match actions[|actions| - 1]
      case DidOpen(q, fa) => if q == p then Some(fa) else before
      case DidClose(q) => if q == p then None else before
      case DidChange(q, fa) => if q == p && before.Some? then Some(fa) else before
      case _ => before
  }

  /** The store holds the document with its last text. */
  ghost predicate Stores(s: State, p: string, text: Option<FileAnalysis>) {
    if text.None? then p !in s.store else p in s.store && s.store[p].analysis == text.value
  }

  lemma EventKeepsText(s: State, a: Action, actions: seq<Action>, p: string)
    requires Enabled(s, a) && Stores(s, p, TextAfter(actions, p)) && IsLoopAction(a) && s.loop.Ready?
    ensures Stores(Do(s, a), p, TextAfter(actions + [a], p))
  {
    hide FullBindings, IncrementalBindings;
    assert (actions + [a])[..|actions|] == actions;
  }

  lemma OtherKeepsText(s: State, a: Action, actions: seq<Action>, p: string)
    requires Enabled(s, a) && Stores(s, p, TextAfter(actions, p)) && !(IsLoopAction(a) && s.loop.Ready?)
    ensures Stores(Do(s, a), p, TextAfter(actions + [a], p))
  {
    hide FullBindings, IncrementalBindings;
    assert (actions + [a])[..|actions|] == actions;
    assert Do(s, a).store == s.store;
  }

  lemma {:induction false} ReachesKeepsText(s: State, before: seq<Action>, actions: seq<Action>, t: State, p: string)
    requires Stores(s, p, TextAfter(before, p)) && Reaches(s, actions, t)
    ensures Stores(t, p, TextAfter(before + actions, p))
    decreases actions
  {
    hide Enabled, Do, TextAfter, Stores;
    if actions == [] {
      assert before + actions == before;
    } else {
      var a := actions[0];
      if IsLoopAction(a) && s.loop.Ready? {
        EventKeepsText(s, a, before, p);
      } else {
        OtherKeepsText(s, a, before, p);
      }
      ReachesKeepsText(Do(s, a), before + [a], actions[1..], t, p);
      assert before + [a] + actions[1..] == before + actions;
    }
  }

  /** In every run a document is stored exactly while it is open, with the text it was last given. */
  lemma StoreHoldsText(start: State, actions: seq<Action>, s: State, p: string)
    requires Init(start) && Reaches(start, actions, s)
    ensures p in s.store <==> TextAfter(actions, p).Some?
    ensures p in s.store ==> s.store[p].analysis == TextAfter(actions, p).value
  {
    hide Reaches;
    assert Stores(start, p, TextAfter([], p));
    ReachesKeepsText(start, [], actions, s, p);
    assert [] + actions == actions;
  }

  ghost predicate Step(s: State, a: Action, t: State) {
    Enabled(s, a) && t == Do(s, a)
  }

  lemma RunOfFive(s: State, a: Action, s1: State, b: Action, s2: State, c: Action, s3: State, d: Action, s4: State,
      e: Action, t: State)
    requires Step(s, a, s1) && Step(s1, b, s2) && Step(s2, c, s3) && Step(s3, d, s4) && Step(s4, e, t)
    ensures Reaches(s, [a, b, c, d, e], t)
  {
    hide Enabled, Do, Reaches;
    Stays(s);
    assert [] + [a] == [a] && [a] + [b] == [a, b] && [a, b] + [c] == [a, b, c];
    assert [a, b, c] + [d] == [a, b, c, d] && [a, b, c, d] + [e] == [a, b, c, d, e];
    ReachesNext(s, [], s, a);
    ReachesNext(s, [a], s1, b);
    ReachesNext(s, [a, b], s2, c);
    ReachesNext(s, [a, b, c], s3, d);
    ReachesNext(s, [a, b, c, d], s4, e);
  }

  lemma EditArrives(s: State, a: Action, p: string, fa: FileAnalysis) returns (s1: State, s2: State, s3: State)
    requires s.holder.Nobody? && s.loop.Ready? && s.idx.Some?
    requires a == DidChange(p, fa) || a == DidWatch(p, fa)
    ensures Step(s, a, s1) && Step(s1, LockChange, s2) && Step(s2, StoreChange, s3)
    ensures s3.idx == Some(s.idx.value[p := fa]) && s3.loop == ChangeAdded(p) && s3.holder == Loop
    ensures s3.res == s.res && s3.builder == s.builder && s3.cfg == s.cfg
  {
    hide FullBindings, IncrementalBindings;
    s1 := Do(s, a);
    s2 := Do(s1, LockChange);
    s3 := Do(s2, StoreChange);
  }

  lemma EditIsBound(s3: State, p: string) returns (s4: State, t: State)
    requires s3.loop == ChangeAdded(p) && s3.idx.Some? && s3.res.Some?
    ensures Step(s3, RebindChange, s4) && Step(s4, UnlockChange, t)
    ensures t.idx == s3.idx && t.res == Some(IncrementalBindings(s3.res.value, s3.idx.value, s3.cfg, [p]))
    ensures t.holder.Nobody? && t.loop.Ready? && t.builder == s3.builder && t.cfg == s3.cfg
  {
    hide FullBindings, IncrementalBindings;
    s4 := Do(s3, RebindChange);
    t := Do(s4, UnlockChange);
  }

  /** An edit or a watched file that nothing interrupts lands in the published index as it came, every other entry
      staying, and the bindings follow it. */
  lemma EditLands(s: State, a: Action, p: string, fa: FileAnalysis) returns (t: State)
    requires Reachable(s) && s.holder.Nobody? && s.loop.Ready? && s.idx.Some?
    requires a == DidChange(p, fa) || a == DidWatch(p, fa)
    ensures Reaches(s, [a, LockChange, StoreChange, RebindChange, UnlockChange], t)
    ensures t.idx == Some(s.idx.value[p := fa]) && t.res == Some(FullBindings(t.idx.value, t.cfg))
    ensures t.holder.Nobody? && t.loop.Ready? && t.builder == s.builder && t.cfg == s.cfg
  {
    hide FullBindings, IncrementalBindings, Reaches, Reachable, Step;
    PairIsConsistent(s);
    var s1, s2, s3 := EditArrives(s, a, p, fa);
    var s4: State;
    s4, t := EditIsBound(s3, p);
    IncrementalEqualsFull(s.idx.value, s3.idx.value, s.cfg, [p]);
    RunOfFive(s, a, s1, LockChange, s2, StoreChange, s3, RebindChange, s4, UnlockChange, t);
  }

  lemma BuildIsLocked(s: State, built: Entries) returns (s1: State, s2: State)
    requires s.builder.Building? && s.holder.Nobody?
    ensures Step(s, FinishBuild(Some(built)), s1) && Step(s1, LockPublish, s2)
    ensures s2 == s.(holder := Builder, builder := PublishLocked(Some(built)))
  {
    hide FullBindings, IncrementalBindings;
    s1 := Do(s, FinishBuild(Some(built)));
    s2 := Do(s1, LockPublish);
  }

  lemma BuildIsSet(s2: State, built: Entries) returns (s3: State, s4: State, t: State)
    requires s2.builder == PublishLocked(Some(built))
    ensures Step(s2, PublishIndex, s3) && Step(s3, PublishBindings, s4) && Step(s4, UnlockPublish, t)
    ensures t.idx == Some(built) && t.res == Some(FullBindings(built, s2.cfg))
    ensures t.builder.Published? && t.holder.Nobody? && t.store == s2.store && t.loop == s2.loop
  {
    hide FullBindings, IncrementalBindings;
    s3 := Do(s2, PublishIndex);
    s4 := Do(s3, PublishBindings);
    t := Do(s4, UnlockPublish);
  }

  /** A build that nothing interrupts publishes the index it computed, and its bindings, together. */
  lemma PublishLands(s: State, built: Entries) returns (t: State)
    requires s.builder.Building? && s.holder.Nobody?
    ensures Reaches(s, [FinishBuild(Some(built)), LockPublish, PublishIndex, PublishBindings, UnlockPublish], t)
    ensures t.idx == Some(built) && t.res == Some(FullBindings(built, s.cfg))
    ensures t.builder.Published? && t.holder.Nobody? && t.store == s.store && t.loop == s.loop
  {
    hide FullBindings, IncrementalBindings, Reaches, Step;
    var s1, s2 := BuildIsLocked(s, built);
    var s3, s4: State;
    s3, s4, t := BuildIsSet(s2, built);
    RunOfFive(s, FinishBuild(Some(built)), s1, LockPublish, s2, PublishIndex, s3, PublishBindings, s4,
      UnlockPublish, t);
  }

  /** Besides the publish itself only two steps touch the index: an edit stores the analysis it carries, the replay
      that of the snapshotted buffer, each under the one path; nothing is ever removed. */
  lemma EntriesChangeOnlyByStores(s: State, a: Action)
    requires Enabled(s, a) && !a.PublishIndex? && s.idx.Some?
    ensures var next := Do(s, a).idx;
            && next.Some?
            && next.value == if a.StoreChange? then s.idx.value[s.loop.path := s.loop.buffer.analysis]
                             else if a.StoreReplay? then s.idx.value[a.path := s.builder.docs[a.path].analysis]
                             else s.idx.value
  {
    hide FullBindings, IncrementalBindings;
  }

  // ----- A run in which the latest buffer is lost -----

  lemma {:induction false} ReachesNext(s: State, actions: seq<Action>, t: State, a: Action)
    requires Reaches(s, actions, t) && Enabled(t, a)
    ensures Reaches(s, actions + [a], Do(t, a))
    decreases actions
  {
    hide Enabled, Do;
    if actions == [] {
      assert [a][1..] == [];
    } else {
      ReachesNext(Do(s, actions[0]), actions[1..], t, a);
      assert (actions + [a])[1..] == actions[1..] + [a];
    }
  }

  /** One step further along a run. */
  lemma Then(start: State, actions: seq<Action>, s: State, a: Action) returns (more: seq<Action>, t: State)
    requires Reaches(start, actions, s) && Enabled(s, a)
    ensures t == Do(s, a) && more == actions + [a] && Reaches(start, more, t)
  {
    hide Enabled, Do;
    ReachesNext(start, actions, s, a);
    more, t := actions + [a], Do(s, a);
  }

  /** One document is open and the index has just been published and the store snapshotted. */
  ghost predicate InWindow(s: State, p: string, first: FileAnalysis) {
    && s.idx == Some(map[]) && s.res.Some? && s.holder.Nobody? && s.loop.Ready? && s.overtaken == {}
    && s.store == map[p := Buffer(1, first)] && s.clock == 1 && s.builder == Snapshotted(s.store)
  }

  lemma ReachesPublish(p: string, first: FileAnalysis, cfg: Config)
      returns (start: State, actions: seq<Action>, s: State)
    ensures Init(start) && Reaches(start, actions, s)
    ensures s.builder == PublishLocked(Some(map[])) && s.loop.Ready? && s.store == map[p := Buffer(1, first)]
    ensures s.clock == 1
  {
    hide FullBindings, IncrementalBindings, Reaches;
    start := State(cfg, map[], 0, None, None, Nobody, Building, Ready, map[], map[], map[], map[], {}, {});
    assert Reaches(start, [], start) by { Stays(start); }
    actions, s := Then(start, [], start, DidOpen(p, first));
    actions, s := Then(start, actions, s, FinishBuild(Some(map[])));
    actions, s := Then(start, actions, s, LockPublish);
  }

  lemma ReachesWindow(p: string, first: FileAnalysis, cfg: Config)
      returns (start: State, actions: seq<Action>, s: State)
    ensures Init(start) && Reaches(start, actions, s) && InWindow(s, p, first)
  {
    hide FullBindings, IncrementalBindings, Reaches, Init;
    start, actions, s := ReachesPublish(p, first, cfg);
    assert p in s.store;
    actions, s := Then(start, actions, s, PublishIndex);
    actions, s := Then(start, actions, s, PublishBindings);
    actions, s := Then(start, actions, s, UnlockPublish);
    actions, s := Then(start, actions, s, Snapshot);
  }

  lemma Stays(s: State)
    ensures Reaches(s, [], s)
  {
  }

  lemma EditInWindow(start: State, before: seq<Action>, w: State, p: string, first: FileAnalysis, second: FileAnalysis)
    returns (actions: seq<Action>, s: State)
    requires Reaches(start, before, w) && InWindow(w, p, first)
    ensures Reaches(start, actions, s)
    ensures s.idx == Some(map[p := second]) && s.res.Some? && s.holder.Nobody? && s.loop.Ready? && s.overtaken == {p}
    ensures s.store == map[p := Buffer(2, second)] && s.builder == Snapshotted(w.store)
  {
    hide FullBindings, IncrementalBindings, Reaches;
    actions, s := Then(start, before, w, DidChange(p, second));
    actions, s := Then(start, actions, s, LockChange);
    actions, s := Then(start, actions, s, StoreChange);
    actions, s := Then(start, actions, s, RebindChange);
    actions, s := Then(start, actions, s, UnlockChange);
  }

  lemma StoresOverEdit(start: State, before: seq<Action>, e: State, p: string, first: FileAnalysis)
    returns (actions: seq<Action>, s: State)
    requires Reaches(start, before, e) && e.builder == Snapshotted(map[p := Buffer(1, first)])
    requires e.idx.Some? && e.idx.value.Keys == {p} && e.res.Some? && e.holder.Nobody? && e.loop.Ready?
    ensures Reaches(start, actions, s)
    ensures s.builder == ReplayLocked(map[p := Buffer(1, first)], {}) && s.idx == Some(map[p := first])
    ensures s.res.Some? && s.loop.Ready? && s.store == e.store
  {
    hide FullBindings, IncrementalBindings, Reaches;
    var locked: State;
    actions, locked := Then(start, before, e, LockReplay);
    assert locked.builder.todo == {p};
    actions, s := Then(start, actions, locked, StoreReplay(p));
    assert s.builder.todo == {};
    assert s.idx.value == map[p := first];
  }

  lemma ReplayOverEdit(start: State, before: seq<Action>, e: State, p: string, first: FileAnalysis)
    returns (actions: seq<Action>, s: State)
    requires Reaches(start, before, e) && e.builder == Snapshotted(map[p := Buffer(1, first)])
    requires e.idx.Some? && e.idx.value.Keys == {p} && e.res.Some? && e.holder.Nobody? && e.loop.Ready?
    ensures Reaches(start, actions, s)
    ensures s.builder.Finished? && s.loop.Ready? && s.holder.Nobody? && s.idx == Some(map[p := first])
    ensures s.store == e.store
  {
    hide FullBindings, IncrementalBindings, Reaches;
    var stored: State;
    actions, stored := StoresOverEdit(start, before, e, p, first);
    assert Elements([p]) == {p} == stored.builder.docs.Keys;
    actions, s := Then(start, actions, stored, RebindReplay([p]));
    actions, s := Then(start, actions, s, UnlockReplay);
  }

  /** After an edit slipped between snapshot and replay nothing is under way, yet the index holds the older analysis
      while the store holds the newer. */
  lemma LatestBufferCanBeLost(p: string, first: FileAnalysis, second: FileAnalysis, cfg: Config) returns (s: State)
    ensures Reachable(s) && s.builder.Finished? && s.loop.Ready? && s.holder.Nobody?
    ensures s.idx == Some(map[p := first]) && s.store == map[p := Buffer(2, second)]
  {
    hide Reaches, Init;
    var start, actions, w := ReachesWindow(p, first, cfg);
    actions, s := EditInWindow(start, actions, w, p, first, second);
    actions, s := ReplayOverEdit(start, actions, s, p, first);
    assert Init(start) && Reaches(start, actions, s);
  }
}
