/** ChainIndexer (chain/core/chain_indexer.go): sections of headers are indexed in the background while
    reorganisations arrive.  The lock is free during processing, so the model is a state machine in which
    chain events interleave with every read of the worker, and with every statement of a truncation. */
module ChainIndexer {
  import opened Options
  import opened Chain
  import opened ChainTruncation

  /** The update loop's worker: at rest, reading the headers of a section, clearing all sections after the
      backend refused to reset, or failed. */
  datatype Worker =
    | Idle
    | Working(section: nat, oldHead: Hash, lastHead: Hash, done: nat)
    | Clearing(pc: Pc)
    | Failed

  /** The lock: free, or held by a chain event that cuts sections off. */
  datatype Lock = Free | Cutting(target: nat, pc: Pc)

  datatype State = State(stored: nat, known: nat, heads: map<nat, Hash>, cascaded: nat, worker: Worker, lock: Lock)

  datatype Config = Config(sectionSize: nat, confirms: nat)

  const INIT := State(0, 0, map[], 0, Idle, Free)

  function StoreOf(s: State): Store { Store(s.stored, s.heads) }

  function WithStore(s: State, d: Store): State { s.(stored := d.stored, heads := d.heads) }

  /** SectionHead; an absent key reads as the zero hash. */
  function HeadAt(heads: map<nat, Hash>, section: nat): Hash { if section in heads then heads[section] else Zero }

  /** The head before a section; before section 0 the key wraps around to one that is never written. */
  function HeadBefore(heads: map<nat, Hash>, section: nat): Hash { if section == 0 then Zero else HeadAt(heads, section - 1) }

  // ---------------------------------------------------------------- the steps

  datatype Event =
    | NewHead(head: nat, reorg: bool)
    | Cut
    | Begin
    | ResetFails
    | Clear
    | Read(header: Option<Block>)
    | CommitFails
    | Finish

  function Cascade(s: State, head: nat): State { if head < s.cascaded then s.(cascaded := head) else s }

  function AfterReorg(s: State, cfg: Config, head: nat): State
    requires cfg.sectionSize > 0
  {
    var changed := head / cfg.sectionSize;
    var s1 := if changed < s.known then s.(known := changed) else s;
    if changed < s1.stored then s1.(lock := Cutting(changed, Test)) else Cascade(s1, changed * cfg.sectionSize)
  }

  function AfterHead(s: State, cfg: Config, head: nat): State
    requires cfg.sectionSize > 0
  {
    if head >= cfg.confirms && (head + 1 - cfg.confirms) / cfg.sectionSize > s.known
    then s.(known := (head + 1 - cfg.confirms) / cfg.sectionSize)
    else s
  }

  /** The next statement of the chain event's truncation; after the last one the lock is released. */
  function AfterCut(s: State, cfg: Config): State
    requires s.lock.Cutting?
  {
    var s1 := WithStore(s, LoopStore(StoreOf(s), s.lock.pc, s.lock.target));
    var pc := LoopPc(StoreOf(s), s.lock.pc, s.lock.target);
    if pc.Off? then Cascade(s1.(lock := Free), s.lock.target * cfg.sectionSize) else s1.(lock := Cutting(s.lock.target, pc))
  }

  /** The next statement of the worker's truncation. */
  function AfterClear(s: State): State
    requires s.worker.Clearing?
  {
    var s1 := WithStore(s, LoopStore(StoreOf(s), s.worker.pc, 0));
    var pc := LoopPc(StoreOf(s), s.worker.pc, 0);
    s1.(worker := if pc.Off? then Failed else Clearing(pc))
  }

  function AfterRead(s: State, header: Option<Block>): State
    requires s.worker.Working?
  {
    if header.None? || header.value.parent != s.worker.lastHead then s.(worker := Failed)
    else s.(worker := s.worker.(lastHead := Of(header.value), done := s.worker.done + 1))
  }

  predicate Completes(s: State, cfg: Config) {
    s.worker.Working? && s.worker.done == cfg.sectionSize && s.worker.oldHead == HeadBefore(s.heads, s.worker.section)
  }

  /** setValidSections, run without interruption. */
  function Without(heads: map<nat, Hash>, lo: nat, hi: nat): map<nat, Hash> { map i | i in heads && !(lo <= i < hi) :: heads[i] }

  function AfterFinish(s: State, cfg: Config): State {
    if Completes(s, cfg) then
      var section := s.worker.section;
      var heads := s.heads[section := s.worker.lastHead];
      s.(heads := Without(heads, section + 1, s.stored), stored := section + 1, worker := Idle,
         cascaded := if (section + 1) * cfg.sectionSize > 0 then (section + 1) * cfg.sectionSize - 1 else 0)
    else s.(worker := Idle, known := s.stored)
  }

  /** Chain events, and the start and the end of an update, need the lock; the rest of an update does not. */
  ghost predicate Enabled(s: State, cfg: Config, e: Event) {
    match e
    case NewHead(_, _) => s.lock.Free?
    case Cut => s.lock.Cutting? && !s.lock.pc.Off?
    case Begin => s.lock.Free? && s.worker.Idle? && s.known > s.stored
    case ResetFails => s.worker.Working? && s.worker.done == 0
    case Clear => s.worker.Clearing? && !s.worker.pc.Off?
    case Read(_) => s.worker.Working? && s.worker.done < cfg.sectionSize
    case CommitFails => s.worker.Working? && s.worker.done == cfg.sectionSize
    case Finish => s.lock.Free? && (s.worker.Failed? || (s.worker.Working? && s.worker.done == cfg.sectionSize))
  }

  function Step(s: State, cfg: Config, e: Event): State
    requires Enabled(s, cfg, e) && cfg.sectionSize > 0
  {
    match e
    case NewHead(head, reorg) => if reorg then AfterReorg(s, cfg, head) else AfterHead(s, cfg, head)
    case Cut => AfterCut(s, cfg)
    case Begin => s.(worker := Working(s.stored, HeadBefore(s.heads, s.stored), HeadBefore(s.heads, s.stored), 0))
    case ResetFails => s.(worker := Clearing(Test))
    case Clear => AfterClear(s)
    case Read(header) => AfterRead(s, header)
    case CommitFails => s.(worker := Failed)
    case Finish => AfterFinish(s, cfg)
  }

  // ---------------------------------------------------------------- the invariant

  /** `to` is reached from `start` by exactly `k` headers, each the child of the one before. */
  ghost predicate Linked(start: Hash, to: Hash, k: nat)
    decreases k
  {
    if k == 0 then to == start else to.Of? && Linked(start, to.block.parent, k - 1)
  }

  /** Each stored head is joined to the one before by a section's worth of headers. */
  ghost predicate Links(stored: nat, heads: map<nat, Hash>, size: nat) {
    forall i: nat :: i < stored ==> Linked(HeadBefore(heads, i), HeadAt(heads, i), size)
  }

  /** Section heads exist exactly below the stored count, and are joined section by section. */
  ghost predicate Sections(s: State, cfg: Config) { Dense(StoreOf(s)) && Links(s.stored, s.heads, cfg.sectionSize) }

  /** No truncation is under way. */
  predicate Quiet(s: State) { s.lock.Free? && !s.worker.Clearing? }

  function LoopAt(s: State): Pc {
    if s.worker.Clearing? then s.worker.pc else if s.lock.Cutting? then s.lock.pc else Off
  }

  function LoopTarget(s: State): nat { if s.worker.Clearing? || s.lock.Free? then 0 else s.lock.target }

  /** What the worker has read hangs together, and unless a reorganisation took the section before away, it
      continues the stored chain. */
  ghost predicate WorkerOk(s: State, cfg: Config) {
    s.worker.Working? ==>
      && s.stored <= s.worker.section && s.worker.done <= cfg.sectionSize
      && (s.worker.section == 0 <==> s.worker.oldHead == Zero)
      && Linked(s.worker.oldHead, s.worker.lastHead, s.worker.done)
  }

  /** At most one truncation is under way, and it has the heads dense but for the one it removes next. */
  ghost predicate Inv(s: State, cfg: Config) {
    && cfg.sectionSize > 0 && (s.worker.Clearing? ==> s.lock.Free? && !s.worker.pc.Off?) && (s.lock.Cutting? ==> !s.lock.pc.Off?)
    && Alone(StoreOf(s), LoopAt(s), LoopTarget(s)) && Links(s.stored, s.heads, cfg.sectionSize) && WorkerOk(s, cfg)
  }

  lemma QuietSections(s: State, cfg: Config)
    requires Inv(s, cfg) && Quiet(s)
    ensures Sections(s, cfg)
  {}

  lemma InitInv(cfg: Config)
    requires cfg.sectionSize > 0
    ensures Inv(INIT, cfg)
  {}

  lemma LinksBelow(d: Store, d': Store, size: nat)
    requires Links(d.stored, d.heads, size) && d'.stored <= d.stored
    requires forall i: nat :: i < d'.stored ==> (i in d.heads <==> i in d'.heads) && (i in d.heads ==> d.heads[i] == d'.heads[i])
    ensures Links(d'.stored, d'.heads, size)
  {
    hide Linked;
    forall i: nat | i < d'.stored ensures Linked(HeadBefore(d'.heads, i), HeadAt(d'.heads, i), size) {
      assert HeadBefore(d'.heads, i) == HeadBefore(d.heads, i) && HeadAt(d'.heads, i) == HeadAt(d.heads, i);
    }
  }

  /** A statement of a truncation that is alone. */
  lemma LoopKeeps(s: State, cfg: Config, pc: Pc, target: nat)
    requires Alone(StoreOf(s), pc, target) && !pc.Off? && Links(s.stored, s.heads, cfg.sectionSize)
    ensures Alone(LoopStore(StoreOf(s), pc, target), LoopPc(StoreOf(s), pc, target), target)
    ensures LoopStore(StoreOf(s), pc, target).stored <= s.stored
    ensures Links(LoopStore(StoreOf(s), pc, target).stored, LoopStore(StoreOf(s), pc, target).heads, cfg.sectionSize)
    ensures DenseBut(LoopStore(StoreOf(s), pc, target), LoopPc(StoreOf(s), pc, target).Rem?)
  {
    hide Links, Linked;
    AloneStep(StoreOf(s), pc, target);
    LinksBelow(StoreOf(s), LoopStore(StoreOf(s), pc, target), cfg.sectionSize);
  }

  lemma CutKeeps(s: State, cfg: Config)
    requires Inv(s, cfg) && s.lock.Cutting?
    ensures Inv(AfterCut(s, cfg), cfg)
  {
    hide Links, Linked, LoopStore, LoopPc;
    LoopKeeps(s, cfg, s.lock.pc, s.lock.target);
  }

  lemma ClearKeeps(s: State, cfg: Config)
    requires Inv(s, cfg) && s.worker.Clearing?
    ensures Inv(AfterClear(s), cfg)
  {
    hide Links, Linked, LoopStore, LoopPc;
    LoopKeeps(s, cfg, s.worker.pc, 0);
  }

  lemma BeginKeeps(s: State, cfg: Config)
    requires Inv(s, cfg) && Enabled(s, cfg, Begin)
    ensures Inv(Step(s, cfg, Begin), cfg)
  {
    if s.stored > 0 {
      assert Linked(HeadBefore(s.heads, s.stored - 1), HeadAt(s.heads, s.stored - 1), cfg.sectionSize);
    }
  }

  /** The new head is stored only where the chain of heads still ends. */
  lemma FinishKeeps(s: State, cfg: Config)
    requires Inv(s, cfg) && Enabled(s, cfg, Finish)
    ensures Inv(AfterFinish(s, cfg), cfg)
  {
    hide Linked;
    if Completes(s, cfg) {
      var section := s.worker.section;
      assert section == s.stored;
      var heads := s.heads[section := s.worker.lastHead];
      assert Without(heads, section + 1, section) == heads;
      forall i: nat | i < section + 1 ensures Linked(HeadBefore(heads, i), HeadAt(heads, i), cfg.sectionSize) {
        assert HeadBefore(heads, i) == HeadBefore(s.heads, i);
      }
    }
  }

  /** One truncation starts while the other is under way. */
  predicate Overlaps(s: State, cfg: Config, e: Event)
    requires cfg.sectionSize > 0
  {
    || (e.NewHead? && e.reorg && s.worker.Clearing? && e.head / cfg.sectionSize < s.stored)
    || (e.ResetFails? && s.lock.Cutting?)
  }

  /** Every step that does not start a second truncation keeps the invariant. */
  lemma StepKeeps(s: State, cfg: Config, e: Event)
    requires Inv(s, cfg) && Enabled(s, cfg, e) && !Overlaps(s, cfg, e)
    ensures Inv(Step(s, cfg, e), cfg)
  {
    hide Linked, Links;
    match e
    case NewHead(head, reorg) =>
    case Cut => CutKeeps(s, cfg);
    case Begin => BeginKeeps(s, cfg);
    case ResetFails =>
    case Clear => ClearKeeps(s, cfg);
    case Read(header) => ReadKeeps(s, cfg, header);
    case CommitFails =>
    case Finish => FinishKeeps(s, cfg);
  }

  lemma ReadKeeps(s: State, cfg: Config, header: Option<Block>)
    requires Inv(s, cfg) && Enabled(s, cfg, Read(header))
    ensures Inv(AfterRead(s, header), cfg)
  {}

  ghost predicate IsRun(states: seq<State>, cfg: Config, events: seq<Event>) {
    && cfg.sectionSize > 0 && |states| == |events| + 1
    && forall i {:trigger events[i]} :: 0 <= i < |events| ==>
         Enabled(states[i], cfg, events[i]) && states[i + 1] == Step(states[i], cfg, events[i])
  }

  /** In every state of every run in which no truncation starts while another is under way, the section heads
      exist exactly below the stored count, but for one about to be removed, and are joined by full sections of
      headers. */
  lemma {:induction false} EveryRun(states: seq<State>, cfg: Config, events: seq<Event>, k: nat)
    requires IsRun(states, cfg, events) && k < |states| && states[0] == INIT
    requires forall i :: 0 <= i < k ==> !Overlaps(states[i], cfg, events[i])
    ensures Inv(states[k], cfg) && (Quiet(states[k]) ==> Sections(states[k], cfg))
  {
    hide Inv, Step, Enabled, Sections;
    if k == 0 {
      InitInv(cfg);
    } else {
      EveryRun(states, cfg, events, k - 1);
      StepKeeps(states[k - 1], cfg, events[k - 1]);
    }
    if Quiet(states[k]) { QuietSections(states[k], cfg); }
  }

  // ---------------------------------------------------------------- what is known

  /** `n` sections, with the confirmations asked for, end at or below the head. */
  predicate Confirmed(cfg: Config, head: nat, n: nat) { n * cfg.sectionSize + cfg.confirms <= head + 1 }

  /** A head without a reorganisation makes known all sections it confirms, if those are more, and changes
      nothing else. */
  lemma KnownAfterHead(s: State, cfg: Config, head: nat)
    requires cfg.sectionSize > 0
    ensures AfterHead(s, cfg, head) == s.(known := AfterHead(s, cfg, head).known) && AfterHead(s, cfg, head).known >= s.known
    ensures AfterHead(s, cfg, head).known == s.known || Confirmed(cfg, head, AfterHead(s, cfg, head).known)
    ensures forall n: nat :: Confirmed(cfg, head, n) ==> n <= AfterHead(s, cfg, head).known
  {
    if head + 1 >= cfg.confirms {
      var l := head + 1 - cfg.confirms;
      QuotientIs(l, cfg.sectionSize);
      forall n: nat | Confirmed(cfg, head, n) ensures n <= l / cfg.sectionSize { QuotientMost(l, cfg.sectionSize, n); }
      if l == 0 { QuotientMost(0, cfg.sectionSize, l / cfg.sectionSize); }
    }
  }

  /** A reorganisation leaves as many known and stored sections as lie below its head, or the fewer there were. */
  lemma KeptAfterReorg(s: State, cfg: Config, head: nat, s': State)
    requires cfg.sectionSize > 0 && s' == Notified(s, cfg, head, true)
    ensures s'.known <= s.known && s'.known * cfg.sectionSize <= head && (s'.known == s.known || (s'.known + 1) * cfg.sectionSize > head)
    ensures s'.stored <= s.stored && s'.stored * cfg.sectionSize <= head && (s'.stored == s.stored || (s'.stored + 1) * cfg.sectionSize > head)
    ensures s'.cascaded <= s.cascaded && s'.cascaded <= head && (s'.cascaded == s.cascaded || s'.cascaded + cfg.sectionSize > head)
    ensures s'.heads == map i | i in s.heads && !(s'.stored <= i < s.stored) :: s.heads[i]
  {
    hide Without;
    var changed := head / cfg.sectionSize;
    QuotientIs(head, cfg.sectionSize);
    Product(s'.known, changed, cfg.sectionSize);
    Product(s'.stored, changed, cfg.sectionSize);
    KeptHeads(s.heads, s'.stored, s.stored);
  }

  lemma KeptHeads(heads: map<nat, Hash>, lo: nat, hi: nat)
    ensures Without(heads, lo, hi) == map i | i in heads && !(lo <= i < hi) :: heads[i]
    ensures lo == hi ==> Without(heads, lo, hi) == heads
  {}

  lemma QuotientIs(l: nat, size: nat)
    requires size > 0
    ensures l / size * size <= l < (l / size + 1) * size
  {
    assert l == l / size * size + l % size && (l / size + 1) * size == l / size * size + size;
  }

  lemma QuotientMost(l: nat, size: nat, n: nat)
    requires size > 0 && n * size <= l
    ensures n <= l / size
  {
    if n > l / size {
      Product(l / size + 1, n, size);
      assert false;
    }
  }

  lemma Product(m: nat, n: nat, size: nat)
    requires m <= n
    ensures m * size <= n * size
  {
    assert n * size == m * size + (n - m) * size;
  }

  /** A head before event `k` confirmed `n` sections, and no reorganisation since then reached below their end. */
  ghost predicate Announced(events: seq<Event>, cfg: Config, k: nat, n: nat) {
    n == 0 || (cfg.sectionSize > 0 && exists j :: 0 <= j < k <= |events| && Announces(events, cfg, j, k, n))
  }

  ghost predicate Announces(events: seq<Event>, cfg: Config, j: nat, k: nat, n: nat)
    requires j < k <= |events| && cfg.sectionSize > 0
  {
    && events[j].NewHead? && !events[j].reorg && Confirmed(cfg, events[j].head, n)
    && forall i :: j < i < k && events[i].NewHead? && events[i].reorg ==> events[i].head / cfg.sectionSize >= n
  }

  lemma AnnouncedLater(events: seq<Event>, cfg: Config, k: nat, n: nat, m: nat)
    requires cfg.sectionSize > 0 && k < |events| && Announced(events, cfg, k, n) && m <= n
    requires events[k].NewHead? && events[k].reorg ==> events[k].head / cfg.sectionSize >= m
    ensures Announced(events, cfg, k + 1, m)
  {
    if m > 0 {
      var j :| 0 <= j < k <= |events| && Announces(events, cfg, j, k, n);
      Product(m, n, cfg.sectionSize);
      assert Announces(events, cfg, j, k + 1, m);
    }
  }

  /** What is known was announced, but for the count a failed update falls back to: then nothing is left to do. */
  ghost predicate KnownOk(s: State, events: seq<Event>, cfg: Config, k: nat) {
    || Announced(events, cfg, k, s.known)
    || (s.worker.Idle? && s.known <= if s.lock.Free? then s.stored else s.lock.target)
  }

  lemma KnownStep(s: State, cfg: Config, events: seq<Event>, k: nat)
    requires cfg.sectionSize > 0 && k < |events| && Enabled(s, cfg, events[k]) && KnownOk(s, events, cfg, k)
    ensures KnownOk(Step(s, cfg, events[k]), events, cfg, k + 1)
  {
    hide Announced, LoopStore, Without, Confirmed;
    var s' := Step(s, cfg, events[k]);
    if events[k].NewHead? && !events[k].reorg && s'.known != s.known {
      KnownAfterHead(s, cfg, events[k].head);
      NewlyAnnounced(events, cfg, k, s'.known);
    } else if Announced(events, cfg, k, s.known) && s'.known <= s.known {
      if !(events[k].Finish? && !Completes(s, cfg)) { AnnouncedLater(events, cfg, k, s.known, s'.known); }
    }
    if events[k].Cut? { CutStays(s, cfg); }
  }

  lemma NewlyAnnounced(events: seq<Event>, cfg: Config, k: nat, n: nat)
    requires cfg.sectionSize > 0 && k < |events| && events[k].NewHead? && !events[k].reorg && Confirmed(cfg, events[k].head, n)
    ensures Announced(events, cfg, k + 1, n)
  {
    assert Announces(events, cfg, k, k + 1, n);
  }

  lemma CutStays(s: State, cfg: Config)
    requires s.lock.Cutting? && !s.lock.pc.Off?
    ensures var s' := AfterCut(s, cfg);
            && s'.known == s.known && s'.worker == s.worker
            && (if s'.lock.Free? then s'.stored == s.lock.target else s'.lock.target == s.lock.target)
  {}

  lemma {:induction false} KnownInRun(states: seq<State>, cfg: Config, events: seq<Event>, k: nat)
    requires IsRun(states, cfg, events) && k < |states| && states[0] == INIT
    ensures KnownOk(states[k], events, cfg, k)
  {
    hide KnownOk, Step, Enabled;
    if k == 0 {
      NothingKnown(events, cfg);
    } else {
      KnownInRun(states, cfg, events, k - 1);
      KnownStep(states[k - 1], cfg, events, k - 1);
      assert states[k] == Step(states[k - 1], cfg, events[k - 1]);
    }
  }

  lemma NothingKnown(events: seq<Event>, cfg: Config)
    ensures KnownOk(INIT, events, cfg, 0)
  {}

  /** On every run whatsoever the worker begins a section only after a head was announced that lies the asked
      number of confirmations past its end, with no reorganisation into it or below it since then. */
  lemma BegunConfirmed(states: seq<State>, cfg: Config, events: seq<Event>, k: nat) returns (j: nat)
    requires IsRun(states, cfg, events) && k < |events| && states[0] == INIT && events[k].Begin?
    ensures j < k && Announces(events, cfg, j, k, states[k].stored + 1)
  {
    hide Announces;
    KnownInRun(states, cfg, events, k);
    assert Enabled(states[k], cfg, events[k]);
    var n := states[k].known;
    j :| 0 <= j < k <= |events| && Announces(events, cfg, j, k, n);
    AnnouncesFewer(events, cfg, j, k, n, states[k].stored + 1);
  }

  lemma AnnouncesFewer(events: seq<Event>, cfg: Config, j: nat, k: nat, n: nat, m: nat)
    requires cfg.sectionSize > 0 && j < k <= |events| && m <= n && Announces(events, cfg, j, k, n)
    ensures Announces(events, cfg, j, k, m)
  {
    Product(m, n, cfg.sectionSize);
  }

  /** Nobody is held up: a chain event waits only for the lock, each truncation and the reading worker can always go
      on, an update ends once the lock is free, and one is begun whenever a section is known and not stored. */
  lemma NobodyHeldUp(s: State, cfg: Config, head: nat, reorg: bool, header: Option<Block>)
    requires Inv(s, cfg)
    ensures if s.lock.Free? then Enabled(s, cfg, NewHead(head, reorg)) else Enabled(s, cfg, Cut)
    ensures s.worker.Clearing? ==> Enabled(s, cfg, Clear)
    ensures s.worker.Working? && s.worker.done < cfg.sectionSize ==> Enabled(s, cfg, Read(header))
    ensures s.lock.Free? && (s.worker.Failed? || (s.worker.Working? && s.worker.done == cfg.sectionSize)) ==> Enabled(s, cfg, Finish)
    ensures s.lock.Free? && s.worker.Idle? && s.stored < s.known ==> Enabled(s, cfg, Begin)
  {}

  /** After a failed update nothing is begun until a chain event. */
  lemma FailureWaits(s: State, cfg: Config)
    requires cfg.sectionSize > 0 && Enabled(s, cfg, Finish) && !Completes(s, cfg)
    ensures !Enabled(AfterFinish(s, cfg), cfg, Begin)
  {}

  // ---------------------------------------------------------------- when truncations overlap

  function EventOf(x: Side): Event { if x.Clearer? then Clear else Cut }

  /** A schedule of the two truncations under way. */
  ghost predicate Schedule(s: State, cfg: Config, sides: seq<Side>)
    requires cfg.sectionSize > 0
    decreases |sides|
  {
    sides == [] || (Enabled(s, cfg, EventOf(sides[0])) && Schedule(Step(s, cfg, EventOf(sides[0])), cfg, sides[1..]))
  }

  ghost function Run(s: State, cfg: Config, sides: seq<Side>): State
    requires cfg.sectionSize > 0 && Schedule(s, cfg, sides)
    decreases |sides|
  {
    if sides == [] then s else Run(Step(s, cfg, EventOf(sides[0])), cfg, sides[1..])
  }

  /** Whatever the schedule, the heads are in order again when both truncations have ended. */
  ghost predicate Heals(s: State, cfg: Config)
    requires cfg.sectionSize > 0
  {
    forall sides: seq<Side> :: Schedule(s, cfg, sides) && Quiet(Run(s, cfg, sides)) ==> Sections(Run(s, cfg, sides), cfg)
  }

  /** The state as seen by the two truncations. */
  ghost predicate Shows(s: State, d: Duel) {
    && StoreOf(s) == d.store
    && d.clear == (if s.worker.Clearing? then s.worker.pc else Off)
    && (s.lock.Cutting? ==> d.cut == s.lock.pc && d.target == s.lock.target && !d.cut.Off?) && (s.lock.Free? ==> d.cut.Off?)
    && (s.worker.Clearing? ==> !d.clear.Off?)
  }

  lemma ShowsMove(s: State, cfg: Config, d: Duel, x: Side)
    requires Shows(s, d) && cfg.sectionSize > 0
    ensures Enabled(s, cfg, EventOf(x)) <==> !PcOf(d, x).Off?
    ensures Enabled(s, cfg, EventOf(x)) ==> Shows(Step(s, cfg, EventOf(x)), Move(d, x))
  {}

  lemma {:induction false} ShowsPlay(s: State, cfg: Config, d: Duel, sides: seq<Side>)
    requires Shows(s, d) && cfg.sectionSize > 0
    ensures Schedule(s, cfg, sides) <==> Playable(d, sides)
    ensures Schedule(s, cfg, sides) ==> Shows(Run(s, cfg, sides), Play(d, sides))
    decreases |sides|
  {
    hide Shows, Enabled, Step, Move;
    if sides != [] {
      ShowsMove(s, cfg, d, sides[0]);
      if Enabled(s, cfg, EventOf(sides[0])) {
        ShowsPlay(Step(s, cfg, EventOf(sides[0])), cfg, Move(d, sides[0]), sides[1..]);
      }
    }
  }

  /** The truncations after the second one has started. */
  function DuelAt(s: State, cfg: Config, e: Event): Duel
    requires cfg.sectionSize > 0 && Overlaps(s, cfg, e)
  {
    if e.NewHead? then Duel(StoreOf(s), s.worker.pc, Test, e.head / cfg.sectionSize)
    else Duel(StoreOf(s), Test, s.lock.pc, s.lock.target)
  }

  lemma OverlapMeets(s: State, cfg: Config, e: Event)
    requires Inv(s, cfg) && Enabled(s, cfg, e) && Overlaps(s, cfg, e)
    ensures Meet(DuelAt(s, cfg, e)) && Shows(Step(s, cfg, e), DuelAt(s, cfg, e))
  {}

  // ---------------------------------------------------------------- harmless overlaps

  /** The truncations under way, with a counter that may have wrapped around: after a harmless overlap. */
  ghost predicate Settling(s: State, cfg: Config) {
    && cfg.sectionSize > 0 && !Quiet(s) && !s.worker.Working?
    && exists d: Duel :: Shows(s, d) && Calm(d)
  }

  /** One truncation at most is under way and has the heads in order, or a harmless overlap is being worked off. */
  ghost predicate Healthy(s: State, cfg: Config) { cfg.sectionSize > 0 && (Inv(s, cfg) || Settling(s, cfg)) }

  lemma HealthySections(s: State, cfg: Config)
    requires Healthy(s, cfg) && Quiet(s)
    ensures Sections(s, cfg)
  {
    QuietSections(s, cfg);
  }

  lemma SettlingShows(s: State, cfg: Config) returns (d: Duel)
    requires Settling(s, cfg)
    ensures Shows(s, d) && Calm(d)
  {
    d :| Shows(s, d) && Calm(d);
  }

  /** A statement of either truncation; with the last one the index is empty and in order. */
  lemma SettlingMove(s: State, cfg: Config, x: Side)
    requires Settling(s, cfg) && Enabled(s, cfg, EventOf(x))
    ensures Healthy(Step(s, cfg, EventOf(x)), cfg)
  {
    var d := SettlingShows(s, cfg);
    ShowsMove(s, cfg, d, x);
    CalmMove(d, x);
    var s', d' := Step(s, cfg, EventOf(x)), Move(d, x);
    if Quiet(s') {
      assert Over(d');
      assert s'.heads.Keys == {} && s'.stored == 0;
    } else {
      assert Shows(s', d') && Calm(d');
    }
  }

  /** A chain event while the worker works off a harmless overlap. */
  lemma SettlingHead(s: State, cfg: Config, e: Event)
    requires Settling(s, cfg) && Enabled(s, cfg, e) && e.NewHead?
    ensures Overlaps(s, cfg, e) ==> Encounter(DuelAt(s, cfg, e)) && Shows(Step(s, cfg, e), DuelAt(s, cfg, e))
    ensures !Overlaps(s, cfg, e) ==> Settling(Step(s, cfg, e), cfg)
  {
    var d := SettlingShows(s, cfg);
    assert s.worker.Clearing? && d.cut.Off? && d.target == 0;
    if Overlaps(s, cfg, e) {
      assert DuelAt(s, cfg, e).(cut := Off, target := 0) == d;
    } else {
      assert Shows(Step(s, cfg, e), d);
    }
  }

  lemma OverlapEncounters(s: State, cfg: Config, e: Event)
    requires Healthy(s, cfg) && Enabled(s, cfg, e) && Overlaps(s, cfg, e)
    ensures Encounter(DuelAt(s, cfg, e)) && Shows(Step(s, cfg, e), DuelAt(s, cfg, e))
    ensures !Quiet(Step(s, cfg, e)) && !Step(s, cfg, e).worker.Working?
  {
    hide Inv, Settling, Shows, Encounter;
    if Inv(s, cfg) { OverlapMeets(s, cfg, e); MeetIsEncounter(DuelAt(s, cfg, e)); } else { OverlapSettling(s, cfg, e); }
  }

  lemma MeetIsEncounter(d: Duel)
    requires Meet(d)
    ensures Encounter(d)
  {}

  lemma OverlapSettling(s: State, cfg: Config, e: Event)
    requires Settling(s, cfg) && Enabled(s, cfg, e) && Overlaps(s, cfg, e)
    ensures Encounter(DuelAt(s, cfg, e)) && Shows(Step(s, cfg, e), DuelAt(s, cfg, e))
  {
    SettlingHead(s, cfg, e);
  }

  /** Every step that starts no truncation, or starts one harmlessly, leaves the index healthy. */
  lemma HealthyStep(s: State, cfg: Config, e: Event)
    requires Healthy(s, cfg) && Enabled(s, cfg, e)
    requires Overlaps(s, cfg, e) ==> !Harmful(DuelAt(s, cfg, e))
    ensures Healthy(Step(s, cfg, e), cfg)
  {
    if Overlaps(s, cfg, e) {
      OverlapEncounters(s, cfg, e);
      HarmlessCalm(DuelAt(s, cfg, e));
    } else if Inv(s, cfg) {
      StepKeeps(s, cfg, e);
    } else {
      SettlingStep(s, cfg, e);
    }
  }

  lemma SettlingStep(s: State, cfg: Config, e: Event)
    requires Settling(s, cfg) && Enabled(s, cfg, e) && !Overlaps(s, cfg, e)
    ensures Healthy(Step(s, cfg, e), cfg)
  {
    match e
    case NewHead(head, reorg) => SettlingHead(s, cfg, e);
    case Cut => SettlingMove(s, cfg, Cutter);
    case Clear => SettlingMove(s, cfg, Clearer);
    case _ => assert false;
  }

  /** In every state of every run whose overlaps were all harmless, however many there were and however many
      truncations joined in one, the index is healthy, and in order whenever no truncation is under way. */
  lemma {:induction false} HarmlessRun(states: seq<State>, cfg: Config, events: seq<Event>, k: nat)
    requires IsRun(states, cfg, events) && k < |states| && states[0] == INIT
    requires forall i :: 0 <= i < k && Overlaps(states[i], cfg, events[i]) ==> !Harmful(DuelAt(states[i], cfg, events[i]))
    ensures Healthy(states[k], cfg) && (Quiet(states[k]) ==> Sections(states[k], cfg))
  {
    hide Inv, Settling, Step, Enabled, Sections, Overlaps, Harmful, DuelAt;
    if k == 0 {
      InitInv(cfg);
    } else {
      HarmlessRun(states, cfg, events, k - 1);
      HealthyStep(states[k - 1], cfg, events[k - 1]);
    }
    if Quiet(states[k]) { HealthySections(states[k], cfg); }
  }

  /** A second truncation is harmless, whatever the schedule of the two, exactly when the chain event cuts back
      to section 0, and no head is left or else at most one section is stored, with nobody between its decrement
      and its removal while one is. */
  lemma OverlapIff(s: State, cfg: Config, e: Event)
    requires Healthy(s, cfg) && Enabled(s, cfg, e) && Overlaps(s, cfg, e)
    ensures Heals(Step(s, cfg, e), cfg) <==> !Harmful(DuelAt(s, cfg, e))
  {
    hide Enabled, Step, Schedule, Run, Playable, Play, Encounter, DuelAt, Overlaps, Inv, Settling;
    var s', d := Step(s, cfg, e), DuelAt(s, cfg, e);
    OverlapEncounters(s, cfg, e);
    if Harmful(d) {
      var sides := HarmDone(d);
      ShowsPlay(s', cfg, d, sides);
    } else {
      forall sides: seq<Side> | Schedule(s', cfg, sides) && Quiet(Run(s', cfg, sides)) ensures Sections(Run(s', cfg, sides), cfg) {
        ShowsPlay(s', cfg, d, sides);
        CalmEnd(d, sides);
      }
    }
  }

  /** So on every run from the empty index: at each overlap that only harmless ones precede, every schedule of
      the two truncations restores the heads exactly when the overlap is harmless too. */
  lemma EveryOverlap(states: seq<State>, cfg: Config, events: seq<Event>, k: nat)
    requires IsRun(states, cfg, events) && k < |events| && states[0] == INIT && Overlaps(states[k], cfg, events[k])
    requires forall i :: 0 <= i < k && Overlaps(states[i], cfg, events[i]) ==> !Harmful(DuelAt(states[i], cfg, events[i]))
    ensures Heals(states[k + 1], cfg) <==> !Harmful(DuelAt(states[k], cfg, events[k]))
  {
    hide Inv, Settling, Step, Enabled, Overlaps, DuelAt, Heals, Harmful;
    HarmlessRun(states, cfg, events, k);
    OverlapIff(states[k], cfg, events[k]);
  }

  lemma Then(states: seq<State>, cfg: Config, events: seq<Event>, e: Event)
    requires IsRun(states, cfg, events) && Enabled(states[|events|], cfg, e)
    ensures IsRun(states + [Step(states[|events|], cfg, e)], cfg, events + [e])
  {
    hide Enabled, Step;
    var states', events' := states + [Step(states[|events|], cfg, e)], events + [e];
    forall i | 0 <= i < |events'|
      ensures Enabled(states'[i], cfg, events'[i]) && states'[i + 1] == Step(states'[i], cfg, events'[i])
    {
      if i < |events| { assert events'[i] == events[i] && states'[i] == states[i] && states'[i + 1] == states[i + 1]; }
    }
  }

  /** The run goes on through the listed events and ends in `t`. */
  ghost predicate Reaches(s: State, cfg: Config, events: seq<Event>, t: State)
    requires cfg.sectionSize > 0
    decreases |events|
  {
    if events == [] then s == t else Enabled(s, cfg, events[0]) && Reaches(Step(s, cfg, events[0]), cfg, events[1..], t)
  }

  lemma Onward(s: State, cfg: Config, e: Event, rest: seq<Event>, t: State)
    requires cfg.sectionSize > 0 && Enabled(s, cfg, e) && Reaches(Step(s, cfg, e), cfg, rest, t)
    ensures Reaches(s, cfg, [e] + rest, t)
  {
    hide Enabled, Step;
    assert ([e] + rest)[1..] == rest;
  }

  lemma {:induction false} Follow(states: seq<State>, cfg: Config, before: seq<Event>, events: seq<Event>, t: State) returns (all: seq<State>)
    requires IsRun(states, cfg, before) && Reaches(states[|before|], cfg, events, t)
    ensures IsRun(all, cfg, before + events) && all[0] == states[0] && all[|before + events|] == t
    decreases |events|
  {
    hide Enabled, Step;
    if events == [] {
      assert before + events == before;
      all := states;
    } else {
      Then(states, cfg, before, events[0]);
      all := Follow(states + [Step(states[|before|], cfg, events[0])], cfg, before + [events[0]], events[1..], t);
      assert before + [events[0]] + events[1..] == before + events;
    }
  }

  // ---------------------------------------------------------------- progress

  /** The headers continue `start`, each the child of the one before. */
  ghost predicate Chained(start: Hash, headers: seq<Block>)
    decreases |headers|
  {
    headers == [] || (headers[0].parent == start && Chained(Of(headers[0]), headers[1..]))
  }

  function Reads(headers: seq<Block>): seq<Event> {
    if headers == [] then [] else [Read(Some(headers[0]))] + Reads(headers[1..])
  }

  /** The worker after it has read the headers. */
  function HasRead(w: Worker, headers: seq<Block>): Worker
    requires w.Working?
  {
    if headers == [] then w else w.(done := w.done + |headers|, lastHead := Of(headers[|headers| - 1]))
  }

  lemma ReadOne(s: State, cfg: Config, header: Block)
    requires cfg.sectionSize > 0 && s.worker.Working? && s.worker.done < cfg.sectionSize && header.parent == s.worker.lastHead
    ensures Enabled(s, cfg, Read(Some(header)))
    ensures Step(s, cfg, Read(Some(header))) == s.(worker := s.worker.(done := s.worker.done + 1, lastHead := Of(header)))
  {}

  lemma {:induction false} ReadOn(s: State, cfg: Config, headers: seq<Block>, rest: seq<Event>, t: State)
    requires cfg.sectionSize > 0 && s.worker.Working? && s.worker.done + |headers| <= cfg.sectionSize && Chained(s.worker.lastHead, headers)
    requires Reaches(s.(worker := HasRead(s.worker, headers)), cfg, rest, t)
    ensures Reaches(s, cfg, Reads(headers) + rest, t)
    decreases |headers|
  {
    hide Enabled, Step, Reaches;
    if headers == [] {
      assert Reads(headers) + rest == rest;
      assert s.(worker := s.worker) == s;
    } else {
      var e := Read(Some(headers[0]));
      ReadOne(s, cfg, headers[0]);
      ReadOn(Step(s, cfg, e), cfg, headers[1..], rest, t);
      Onward(s, cfg, e, Reads(headers[1..]) + rest, t);
      assert Reads(headers) + rest == [e] + (Reads(headers[1..]) + rest);
    }
  }

  /** An update that nothing disturbs stores the next section, with the last of the headers it was given. */
  lemma IndexesNext(s: State, cfg: Config, headers: seq<Block>, t: State)
    requires Inv(s, cfg) && Enabled(s, cfg, Begin) && |headers| == cfg.sectionSize && Chained(HeadBefore(s.heads, s.stored), headers)
    requires t == s.(stored := s.stored + 1, heads := s.heads[s.stored := Of(headers[|headers| - 1])],
                     cascaded := (s.stored + 1) * cfg.sectionSize - 1)
    ensures Reaches(s, cfg, [Begin] + (Reads(headers) + [Finish]), t)
  {
    hide Inv, Chained, Reads;
    var head, last := HeadBefore(s.heads, s.stored), Of(headers[|headers| - 1]);
    var s1 := s.(worker := Working(s.stored, head, head, 0));
    var s2 := s.(worker := Working(s.stored, head, last, cfg.sectionSize));
    var heads := s.heads[s.stored := last];
    assert Without(heads, s.stored + 1, s.stored) == heads;
    assert HeadBefore(s2.heads, s.stored) == head && Completes(s2, cfg);
    assert Step(s2, cfg, Finish) == t;
    assert Reaches(t, cfg, [], t);
    Onward(s2, cfg, Finish, [], t);
    assert [Finish] + [] == [Finish];
    ReadOn(s1, cfg, headers, [Finish], t);
    Onward(s, cfg, Begin, Reads(headers) + [Finish], t);
  }

  const B0 := Block(Zero, 0, 0, [], 0)
  const B1 := Block(Of(B0), 1, 0, [], 0)
  const B2 := Block(Of(B1), 2, 0, [], 0)

  const THREE: map<nat, Hash> := map[0 := Of(B0), 1 := Of(B1), 2 := Of(B2)]

  /** Sections of one header; three are stored and the worker has begun the fourth. */
  const STORED_THREE := State(3, 11, THREE, 2, Working(3, Of(B2), Of(B2), 0), Free)

  const INDEXING: seq<Event> :=
    [NewHead(10, false), Begin, Read(Some(B0)), Finish, Begin, Read(Some(B1)), Finish, Begin, Read(Some(B2)), Finish, Begin]

  /** The backend refuses to reset; the worker passes section 2; a reorganisation at section 1 cuts; then the
      worker goes on. */
  const TORN: seq<Event> :=
    [ResetFails, Clear, Clear, NewHead(1, true), Cut, Cut, Cut, Cut, Cut, Clear, Clear, Clear, Clear, Clear, Clear]

  const TORN_END := State(0, 1, map[2 := Of(B2)], 1, Failed, Free)

  lemma ThreeStored(cfg: Config)
    requires cfg == Config(1, 0)
    ensures Reaches(INIT, cfg, INDEXING, STORED_THREE)
  {
    var m1: map<nat, Hash>, m2: map<nat, Hash> := map[0 := Of(B0)], map[0 := Of(B0), 1 := Of(B1)];
    var s1 := State(0, 11, map[], 0, Idle, Free);
    var s4 := State(1, 11, m1, 0, Idle, Free);
    var s7 := State(2, 11, m2, 1, Idle, Free);
    var s10 := State(3, 11, THREE, 2, Idle, Free);
    assert Reaches(STORED_THREE, cfg, [], STORED_THREE);
    Onward(s10, cfg, Begin, [], STORED_THREE);
    OneSection(s7, cfg, 2, Of(B1), B2, s10, [Begin], STORED_THREE);
    OneSection(s4, cfg, 1, Of(B0), B1, s7, [Begin, Read(Some(B2)), Finish] + [Begin], STORED_THREE);
    OneSection(s1, cfg, 0, Zero, B0, s4, [Begin, Read(Some(B1)), Finish] + ([Begin, Read(Some(B2)), Finish] + [Begin]), STORED_THREE);
    var rest := [Begin, Read(Some(B0)), Finish] + ([Begin, Read(Some(B1)), Finish] + ([Begin, Read(Some(B2)), Finish] + [Begin]));
    Onward(INIT, cfg, NewHead(10, false), rest, STORED_THREE);
    assert [NewHead(10, false)] + rest == INDEXING;
  }

  /** One section of one header is indexed. */
  lemma OneSection(s: State, cfg: Config, k: nat, old_: Hash, b: Block, s3: State, rest: seq<Event>, t: State)
    requires cfg == Config(1, 0) && s.stored == k < s.known && s.lock.Free? && s.worker.Idle?
    requires old_ == HeadBefore(s.heads, k) && b.parent == old_
    requires s3 == s.(stored := k + 1, heads := s.heads[k := Of(b)], cascaded := k)
    requires (forall i :: i in s.heads ==> i < k) && Reaches(s3, cfg, rest, t)
    ensures Reaches(s, cfg, [Begin, Read(Some(b)), Finish] + rest, t)
  {
    hide Reaches;
    var s1 := s.(worker := Working(k, old_, old_, 0));
    var s2 := s.(worker := Working(k, old_, Of(b), 1));
    assert Without(s.heads[k := Of(b)], k + 1, k) == s.heads[k := Of(b)];
    Onward(s2, cfg, Finish, rest, t);
    Onward(s1, cfg, Read(Some(b)), [Finish] + rest, t);
    Onward(s, cfg, Begin, [Read(Some(b))] + ([Finish] + rest), t);
    assert [Begin, Read(Some(b)), Finish] + rest == [Begin] + ([Read(Some(b))] + ([Finish] + rest));
  }
  lemma TornFirst(cfg: Config, heads: map<nat, Hash>, rest: seq<Event>, t: State)
    requires cfg == Config(1, 0) && heads == map[0 := Of(B0), 2 := Of(B2)]
    requires Reaches(State(1, 1, heads, 1, Clearing(Rem), Free), cfg, rest, t)
    ensures Reaches(STORED_THREE, cfg, [ResetFails, Clear, Clear, NewHead(1, true), Cut, Cut, Cut, Cut, Cut] + rest, t)
  {
    hide Reaches;
    assert heads == THREE - {1};
    Onward(State(1, 1, heads, 2, Clearing(Rem), Cutting(1, Fin)), cfg, Cut, rest, t);
    Onward(State(1, 1, heads, 2, Clearing(Rem), Cutting(1, Test)), cfg, Cut, [Cut] + rest, t);
    Onward(State(1, 1, THREE, 2, Clearing(Rem), Cutting(1, Rem)), cfg, Cut, [Cut] + ([Cut] + rest), t);
    Onward(State(2, 1, THREE, 2, Clearing(Rem), Cutting(1, Dec)), cfg, Cut, [Cut] + ([Cut] + ([Cut] + rest)), t);
    var cuts := [Cut] + ([Cut] + ([Cut] + ([Cut] + rest)));
    Onward(State(2, 1, THREE, 2, Clearing(Rem), Cutting(1, Test)), cfg, Cut, cuts, t);
    Onward(State(2, 11, THREE, 2, Clearing(Rem), Free), cfg, NewHead(1, true), [Cut] + cuts, t);
    var on := [NewHead(1, true)] + ([Cut] + cuts);
    Onward(State(3, 11, THREE, 2, Clearing(Dec), Free), cfg, Clear, on, t);
    Onward(State(3, 11, THREE, 2, Clearing(Test), Free), cfg, Clear, [Clear] + on, t);
    Onward(STORED_THREE, cfg, ResetFails, [Clear] + ([Clear] + on), t);
    assert [ResetFails] + ([Clear] + ([Clear] + on)) == [ResetFails, Clear, Clear, NewHead(1, true), Cut, Cut, Cut, Cut, Cut] + rest;
  }

  lemma TornSecond(cfg: Config, heads: map<nat, Hash>)
    requires cfg == Config(1, 0) && heads == map[0 := Of(B0), 2 := Of(B2)]
    ensures Reaches(State(1, 1, heads, 1, Clearing(Rem), Free), cfg, [Clear, Clear, Clear, Clear, Clear, Clear], TORN_END)
  {
    var left: map<nat, Hash> := map[2 := Of(B2)];
    assert left == heads - {0} && heads - {1} == heads;
    assert Reaches(TORN_END, cfg, [], TORN_END);
    Onward(State(0, 1, left, 1, Clearing(Fin), Free), cfg, Clear, [], TORN_END);
    Onward(State(0, 1, left, 1, Clearing(Test), Free), cfg, Clear, [Clear], TORN_END);
    Onward(State(0, 1, heads, 1, Clearing(Rem), Free), cfg, Clear, [Clear, Clear], TORN_END);
    Onward(State(1, 1, heads, 1, Clearing(Dec), Free), cfg, Clear, [Clear, Clear, Clear], TORN_END);
    Onward(State(1, 1, heads, 1, Clearing(Test), Free), cfg, Clear, [Clear, Clear, Clear, Clear], TORN_END);
    Onward(State(1, 1, heads, 1, Clearing(Rem), Free), cfg, Clear, [Clear, Clear, Clear, Clear, Clear], TORN_END);
  }

  /** A run from the empty index on which the code leaves the head of section 2 behind with no section stored. */
  lemma TruncationsCanTear() returns (states: seq<State>)
    ensures IsRun(states, Config(1, 0), INDEXING + TORN) && states[0] == INIT
    ensures states[|INDEXING + TORN|] == TORN_END && Quiet(TORN_END) && !Sections(TORN_END, Config(1, 0))
  {
    hide Reaches, Enabled, Step;
    var cfg := Config(1, 0);
    var heads: map<nat, Hash> := map[0 := Of(B0), 2 := Of(B2)];
    ThreeStored(cfg);
    states := Follow([INIT], cfg, [], INDEXING, STORED_THREE);
    assert [] + INDEXING == INDEXING;
    TornSecond(cfg, heads);
    var rest := [Clear, Clear, Clear, Clear, Clear, Clear];
    TornFirst(cfg, heads, rest, TORN_END);
    assert [ResetFails, Clear, Clear, NewHead(1, true), Cut, Cut, Cut, Cut, Cut] + rest == TORN;
    states := Follow(states, cfg, INDEXING, TORN, TORN_END);
    assert 2 in StoreOf(TORN_END).heads;
  }

  // ---------------------------------------------------------------- one chain

  lemma {:induction false} LinkedThen(a: Hash, b: Hash, c: Hash, j: nat, k: nat)
    requires Linked(a, b, j) && Linked(b, c, k)
    ensures Linked(a, c, j + k)
    decreases k
  {
    if k > 0 { LinkedThen(a, b, c.block.parent, j, k - 1); }
  }

  /** A head has only one header `k` generations back. */
  lemma {:induction false} LinkedUnique(a: Hash, b: Hash, c: Hash, k: nat)
    requires Linked(a, c, k) && Linked(b, c, k)
    ensures a == b
    decreases k
  {
    if k > 0 { LinkedUnique(a, b, c.block.parent, k - 1); }
  }

  /** The number of headers in `k` sections. */
  function Headers(k: nat, cfg: Config): nat { if k == 0 then 0 else Headers(k - 1, cfg) + cfg.sectionSize }

  lemma {:induction false} HeadersIs(k: nat, cfg: Config)
    ensures Headers(k, cfg) == k * cfg.sectionSize
  {
    if k > 0 { HeadersIs(k - 1, cfg); }
  }

  /** All stored heads lie on one chain: any two are joined by as many headers as there are between their
      sections, and every head is joined to the start of the chain. */
  lemma {:induction false} OneChain(s: State, cfg: Config, i: nat, j: nat)
    requires Sections(s, cfg) && i <= j <= s.stored
    ensures Linked(HeadBefore(s.heads, i), HeadBefore(s.heads, j), Headers(j - i, cfg))
    decreases j
  {
    hide Linked, Sections;
    if i == j {
      LinkedSelf(HeadBefore(s.heads, i));
    } else {
      OneChain(s, cfg, i, j - 1);
      SectionLinked(s, cfg, j);
      LinkedThen(HeadBefore(s.heads, i), HeadBefore(s.heads, j - 1), HeadBefore(s.heads, j), Headers(j - 1 - i, cfg), cfg.sectionSize);
    }
  }

  lemma LinkedSelf(a: Hash)
    ensures Linked(a, a, 0)
  {}

  lemma LinkedNext(a: Hash, b: Hash, next: Block, k: nat)
    requires Linked(a, b, k) && next.parent == b
    ensures Linked(a, Of(next), k + 1)
  {}

  lemma SectionLinked(s: State, cfg: Config, j: nat)
    requires Sections(s, cfg) && 0 < j <= s.stored
    ensures Linked(HeadBefore(s.heads, j - 1), HeadBefore(s.heads, j), cfg.sectionSize)
  {
    assert HeadBefore(s.heads, j) == HeadAt(s.heads, j - 1);
  }

  // ---------------------------------------------------------------- without interruption

  /** newHead as a whole. */
  function Notified(s: State, cfg: Config, head: nat, reorg: bool): State
    requires cfg.sectionSize > 0
  {
    if !reorg then AfterHead(s, cfg, head)
    else
      var changed := head / cfg.sectionSize;
      var s1 := if changed < s.known then s.(known := changed) else s;
      var s2 := if changed < s1.stored then s1.(stored := changed, heads := Without(s1.heads, changed, s1.stored)) else s1;
      Cascade(s2, changed * cfg.sectionSize)
  }

  /** `n` statements of a chain event's truncation. */
  ghost function Cuts(s: State, cfg: Config, n: nat): State
    decreases n
  {
    if n == 0 || !s.lock.Cutting? then s else Cuts(AfterCut(s, cfg), cfg, n - 1)
  }

  lemma {:induction false} CutsThrough(s: State, cfg: Config, target: nat) returns (n: nat)
    requires s.lock == Cutting(target, Test) && s.stored >= target
    ensures Cuts(s, cfg, n) == Cascade(s.(lock := Free, stored := target, heads := Without(s.heads, target, s.stored)), target * cfg.sectionSize)
    decreases s.stored
  {
    var s1 := AfterCut(s, cfg);
    if s.stored == target {
      n := 2;
      assert Without(s.heads, target, target) == s.heads;
      assert Cuts(s, cfg, 2) == Cuts(s1, cfg, 1) == Cuts(AfterCut(s1, cfg), cfg, 0);
    } else {
      var s2 := AfterCut(s1, cfg);
      var s3 := AfterCut(s2, cfg);
      var m := CutsThrough(s3, cfg, target);
      n := m + 3;
      assert Without(s3.heads, target, s3.stored) == Without(s.heads, target, s.stored);
      assert Cuts(s, cfg, n) == Cuts(s1, cfg, m + 2) == Cuts(s2, cfg, m + 1) == Cuts(s3, cfg, m);
    }
  }

  /** The event and the statements of its truncation, with nothing in between, are newHead as a whole. */
  lemma NotifiedBySteps(s: State, cfg: Config, head: nat, reorg: bool) returns (n: nat)
    requires cfg.sectionSize > 0 && s.lock.Free?
    ensures Cuts(Step(s, cfg, NewHead(head, reorg)), cfg, n) == Notified(s, cfg, head, reorg)
  {
    var s1 := Step(s, cfg, NewHead(head, reorg));
    if s1.lock.Cutting? {
      n := CutsThrough(s1, cfg, head / cfg.sectionSize);
    } else {
      n := 0;
    }
  }

  // ---------------------------------------------------------------- a reorganisation into the section being read

  /** A section that has been read is stored although a reorganisation to the common ancestor `head` has taken one
      of its headers away, exactly if the ancestor lies in that section and is not its last header. */
  lemma StaleSectionIff(s: State, cfg: Config, head: nat, t: State)
    requires Inv(s, cfg) && s.lock.Free? && Completes(s, cfg) && t == AfterFinish(Notified(s, cfg, head, true), cfg)
    ensures t.stored * cfg.sectionSize > head + 1 <==>
              s.worker.section * cfg.sectionSize <= head && head + 1 < (s.worker.section + 1) * cfg.sectionSize
  {
    hide Linked, Links;
    var section, changed, s1 := s.worker.section, head / cfg.sectionSize, Notified(s, cfg, head, true);
    QuotientIs(head, cfg.sectionSize);
    assert section == s.stored;
    if changed < section {
      assert section > 0 && section - 1 !in s1.heads && s.worker.oldHead != Zero;
      assert t.stored == changed;
      Product(changed + 1, section, cfg.sectionSize);
    } else if changed > section {
      assert s1.heads == s.heads && t.stored == section + 1;
      Product(section + 1, changed, cfg.sectionSize);
    } else {
      assert s1.heads == s.heads && t.stored == section + 1;
    }
  }

  const C0 := Block(Zero, 0, 0, [], 0)
  const C1 := Block(Of(C0), 1, 0, [], 0)

  const STALE: seq<Event> := [NewHead(10, false), Begin, Read(Some(C0)), Read(Some(C1)), NewHead(0, true), Finish]

  /** Sections of two headers: both of section 0 are read, header 1 is reorganised away, and the section is stored
      with it as its head. */
  lemma StaleSectionCanStay(cfg: Config)
    requires cfg == Config(2, 0)
    ensures Reaches(INIT, cfg, STALE, State(1, 0, map[0 := Of(C1)], 1, Idle, Free))
  {
    var heads: map<nat, Hash> := map[0 := Of(C1)];
    var s1 := State(0, 5, map[], 0, Idle, Free);
    var s2 := s1.(worker := Working(0, Zero, Zero, 0));
    var s3 := s1.(worker := Working(0, Zero, Of(C0), 1));
    var s4 := s1.(worker := Working(0, Zero, Of(C1), 2));
    var s5 := s4.(known := 0);
    var t := State(1, 0, heads, 1, Idle, Free);
    assert Step(INIT, cfg, NewHead(10, false)) == s1;
    assert Step(s4, cfg, NewHead(0, true)) == s5;
    assert Without(heads, 1, 0) == heads;
    assert Step(s5, cfg, Finish) == t;
    hide Step, Enabled;
    Onward(s5, cfg, Finish, [], t);
    Onward(s4, cfg, NewHead(0, true), [Finish], t);
    Onward(s3, cfg, Read(Some(C1)), STALE[4..], t);
    Onward(s2, cfg, Read(Some(C0)), STALE[3..], t);
    Onward(s1, cfg, Begin, STALE[2..], t);
    Onward(INIT, cfg, NewHead(10, false), STALE[1..], t);
  }

  // ---------------------------------------------------------------- the object

  class Indexer {
    const cfg: Config
    var stored: nat
    var known: nat
    var heads: map<nat, Hash>
    var cascaded: nat

    ghost function Snapshot(worker: Worker): State
      reads this
    {
      State(stored, known, heads, cascaded, worker, Free)
    }

    constructor (cfg: Config)
      requires cfg.sectionSize > 0
      ensures this.cfg == cfg && Snapshot(Idle) == INIT
    {
      this.cfg := cfg;
      stored, known, heads, cascaded := 0, 0, map[], 0;
    }

    /** setValidSections: the loop removes the heads of the sections that fell away. */
    method SetValidSections(sections: nat)
      modifies this`stored, this`heads
      ensures stored == sections && heads == Without(old(heads), sections, old(stored))
    {
      ghost var h0, s0 := heads, stored;
      while stored > sections
        invariant stored <= s0 && (stored >= sections || stored == s0)
        invariant heads == Without(h0, stored, s0)
      {
        stored := stored - 1;
        heads := heads - {stored};
      }
      assert s0 <= sections ==> Without(h0, sections, s0) == h0;
      stored := sections;
    }

    /** newHead, while the worker is not clearing. */
    method NewHead(head0: nat, reorg: bool)
      requires cfg.sectionSize > 0
      modifies this
      ensures forall w: Worker :: Snapshot(w) == Notified(old(Snapshot(w)), cfg, head0, reorg)
      ensures !reorg ==> known >= old(known) && (known == old(known) || Confirmed(cfg, head0, known))
      ensures !reorg ==> forall n: nat :: Confirmed(cfg, head0, n) ==> n <= known
    {
      hide Without, Confirmed;
      if !reorg { KnownAfterHead(Snapshot(Idle), cfg, head0); }
      if reorg {
        var changed := head0 / cfg.sectionSize;
        if changed < known { known := changed; }
        if changed < stored { SetValidSections(changed); }
        var head := changed * cfg.sectionSize;
        if head < cascaded { cascaded := head; }
        return;
      }
      if head0 >= cfg.confirms {
        var sections := (head0 + 1 - cfg.confirms) / cfg.sectionSize;
        if sections > known { known := sections; }
      }
    }

    /** The reads of processSection, for whatever the chain database answers to each: the result is the last
        of exactly one section of headers, each the child of the one before. */
    method ReadSection(answers: seq<Option<Block>>, lastHead0: Hash) returns (lastHead: Hash, ok: bool)
      requires |answers| == cfg.sectionSize
      ensures ok ==> Linked(lastHead0, lastHead, cfg.sectionSize)
      ensures ok <==> forall i :: 0 <= i < |answers| ==> Follows(answers, lastHead0, i)
      ensures ok ==> lastHead == Previous(answers, lastHead0, |answers|)
    {
      hide Linked;
      lastHead := lastHead0;
      LinkedSelf(lastHead);
      var i := 0;
      while i < |answers|
        invariant 0 <= i <= |answers| && lastHead == Previous(answers, lastHead0, i) && Linked(lastHead0, lastHead, i)
        invariant forall k :: 0 <= k < i ==> Follows(answers, lastHead0, k)
      {
        if answers[i].None? || answers[i].value.parent != lastHead {
          assert !Follows(answers, lastHead0, i);
          return Zero, false;
        }
        LinkedNext(lastHead0, lastHead, answers[i].value, i);
        lastHead := Of(answers[i].value);
        i := i + 1;
      }
      return lastHead, true;
    }

    /** The locked end of an update. */
    method Complete(section: nat, oldHead: Hash, newHead: Hash, ok: bool)
      requires cfg.sectionSize > 0
      modifies this
      ensures ok ==> Snapshot(Idle) == AfterFinish(old(Snapshot(Working(section, oldHead, newHead, cfg.sectionSize))), cfg)
      ensures !ok ==> Snapshot(Idle) == AfterFinish(old(Snapshot(Failed)), cfg)
    {
      hide Without;
      if ok && oldHead == HeadBefore(heads, section) {
        heads := heads[section := newHead];
        SetValidSections(section + 1);
        cascaded := if stored * cfg.sectionSize > 0 then stored * cfg.sectionSize - 1 else 0;
      } else {
        known := stored;
      }
    }
  }

  /** The hash before read `i`. */
  function Previous(answers: seq<Option<Block>>, start: Hash, i: nat): Hash
    requires i <= |answers|
  {
    if i == 0 then start else if answers[i - 1].Some? then Of(answers[i - 1].value) else Zero
  }

  /** Read `i` found a header that continues the ones before. */
  ghost predicate Follows(answers: seq<Option<Block>>, start: Hash, i: nat)
    requires i < |answers|
  {
    answers[i].Some? && answers[i].value.parent == Previous(answers, start, i)
  }
}
