/** The pool of include/hwmalloc/detail/pool.hpp and its segments as a step system: any number of
    threads run `allocate` and `free`, and each step is one atomic access to shared memory (a push or a
    pop of a lock-free stack, an access to an atomic counter, a mutex operation) or one access to the
    segment map, which only the mutex holder touches. */
module PoolProtocol {
  import opened Common

  type ThreadId = nat

  // A segment's identity: the pointer under which `m_segments` stores it. Identities are not reused.
  type SegmentId = nat

  datatype Block = Block(segment: SegmentId, index: nat)

  // The largest number of threads and of blocks in a segment: 2^61.
  const LIMIT: nat := 0x2000_0000_0000_0000

  // `numBlocks` is m_num_blocks of every segment of the pool.
  datatype Config = Config(numBlocks: nat, reserve: nat, neverFree: bool)

  predicate ValidConfig(c: Config) {
    1 <= c.numBlocks <= LIMIT && 1 <= c.reserve
  }

  // `freed` is m_freed_stack (its top is the last element), `numFreed` is m_num_freed: an atomic `long`,
  // which wraps around in 64 bits. It is kept unwrapped here and reduced where it is read.
  datatype Segment = Segment(freed: seq<Block>, numFreed: int)

  /** Where `segment::collect` is. It pops one block after the other: a popped block is first carried,
      then pushed on the free stack, and only then is its node given back to the freed stack. When a pop
      finds nothing, what was popped is subtracted from the counter. */
  datatype Phase = Popping | Carrying(block: Block) | Releasing | Subtracting

  /** Where a thread is. The first group runs `allocate`, the second runs `free`.
      Three fields are history only: `collected` and `added` count what the current mutex holder
      collected and how many segments it added since it found the free stack empty. */
  datatype Location =
    | Idle
      // allocate
    | PopUnlocked
    | WaitLock
    | PopLocked
    | Collect(todo: set<SegmentId>, collected: nat)
    | Drain(todo: set<SegmentId>, collected: nat, source: SegmentId, phase: Phase, consumed: nat)
    | PopCollected(collected: nat)
    | PopLoop(counter: nat, collected: nat, added: nat)
    | Carve(counter: nat, collected: nat, added: nat, segment: SegmentId, left: nat)
    | Leave(block: Block, collected: nat, added: nat)
      // free
    | Push(block: Block)
    | Increment(segment: SegmentId)
    | Check(segment: SegmentId)
    | WaitErase(segment: SegmentId)
    | Recheck(segment: SegmentId)
    | CompareSize(segment: SegmentId)
    | Erase(segment: SegmentId)
    | Unlock

  /** `segments` holds every segment that exists, `table` the keys of m_segments, `held` the blocks
      that clients hold. `used` and `others` are history: the identities given out so far, and the
      number of unlocked pops since a mutex holder last found the free stack empty. */
  datatype State = State(
    free: seq<Block>,
    segments: map<SegmentId, Segment>,
    table: set<SegmentId>,
    mutex: Option<ThreadId>,
    held: set<Block>,
    threads: map<ThreadId, Location>,
    used: set<SegmentId>,
    others: nat)

  /** What a step does that is visible outside the pool. */
  datatype Event =
    | Silent
    | Returned(block: Block)        // `allocate` hands a block to its caller
    | Released(block: Block)        // a client passes a block to `free`
    | Mapped(segment: SegmentId)    // a segment comes into being
    | Unmapped(segment: SegmentId)  // a segment is destroyed

  predicate Init(s: State) {
    && s.free == [] && s.segments == map[] && s.table == {} && s.mutex == None && s.held == {}
    && |s.threads| <= LIMIT
    && (forall t :: t in s.threads ==> s.threads[t] == Idle)
    && s.used == {} && s.others == 0
  }

  function Goto(s: State, t: ThreadId, l: Location): State {
    s.(threads := s.threads[t := l])
  }

  function Top(s: State): Block
    requires s.free != []
  {
    s.free[|s.free| - 1]
  }

  function Rest(s: State): seq<Block>
    requires s.free != []
  {
    s.free[..|s.free| - 1]
  }

  // The comparison of `is_empty`: the signed counter, cast to 64 unsigned bits, with m_num_blocks.
  predicate CountIsFull(c: Config, numFreed: int) {
    numFreed % 0x1_0000_0000_0000_0000 == c.numBlocks
  }

  // What `is_empty` may return: a read of a destroyed segment may return anything.
  predicate MayRead(c: Config, s: State, g: SegmentId, answer: bool) {
    g in s.segments ==> answer == CountIsFull(c, s.segments[g].numFreed)
  }

  // `counter++` on an unsigned int
  function Bump(counter: nat): nat {
    (counter + 1) % 0x1_0000_0000
  }

  // ---------------------------------------------------------------- allocate

  predicate StepPopUnlocked(s: State, t: ThreadId, e: Event, s': State) {
    if s.free == [] then
      e == Silent && s' == Goto(s, t, WaitLock)
    else
      && e == Returned(Top(s))
      && s' == Goto(s, t, Idle).(free := Rest(s), held := s.held + {Top(s)}, others := s.others + 1)
  }

  predicate StepLock(s: State, t: ThreadId, e: Event, s': State, next: Location) {
    e == Silent && s.mutex == None && s' == Goto(s, t, next).(mutex := Some(t))
  }

  predicate StepPopLocked(s: State, t: ThreadId, e: Event, s': State) {
    && e == Silent
    && s' == if s.free == [] then Goto(s, t, Collect(s.table, 0)).(others := 0)
             else Goto(s, t, Leave(Top(s), 0, 0)).(free := Rest(s))
  }

  // The range-for over m_segments: the map's order is arbitrary.
  ghost predicate StepCollect(s: State, t: ThreadId, e: Event, s': State, todo: set<SegmentId>, collected: nat) {
    && e == Silent
    && if todo == {} then s' == Goto(s, t, PopCollected(collected))
       else exists g :: g in todo && s' == Goto(s, t, Drain(todo - {g}, collected, g, Popping, 0))
  }

  // The segment without the top of its freed stack.
  function Popped(g: Segment): Segment
    requires g.freed != []
  {
    g.(freed := g.freed[..|g.freed| - 1])
  }

  // Other threads go on pushing on the freed stack while it is drained.
  predicate StepDrain(s: State, t: ThreadId, e: Event, s': State,
                      todo: set<SegmentId>, collected: nat, g: SegmentId, phase: Phase, consumed: nat) {
    && e == Silent
    && g in s.segments
    && var x := s.segments[g];
       match phase
       case Popping =>
         s' == if x.freed == [] then
                 Goto(s, t, Drain(todo, collected, g, Subtracting, consumed))
               else
                 Goto(s, t, Drain(todo, collected, g, Carrying(x.freed[|x.freed| - 1]), consumed + 1)).(
                   segments := s.segments[g := Popped(x)])
       case Carrying(b) =>
         s' == Goto(s, t, Drain(todo, collected + 1, g, Releasing, consumed)).(free := s.free + [b])
       case Releasing =>
         s' == Goto(s, t, Drain(todo, collected, g, Popping, consumed))
       case Subtracting =>
         s' == Goto(s, t, Collect(todo, collected)).(
                 segments := s.segments[g := x.(numFreed := x.numFreed - consumed)])
  }

  predicate StepPopCollected(s: State, t: ThreadId, e: Event, s': State, collected: nat) {
    && e == Silent
    && s' == if s.free == [] then Goto(s, t, PopLoop(0, collected, 0))
             else Goto(s, t, Leave(Top(s), collected, 0)).(free := Rest(s))
  }

  // The pop loop: whenever a pop fails, and the counter is even, a segment is added.
  predicate StepPopLoop(c: Config, s: State, t: ThreadId, e: Event, s': State, counter: nat, collected: nat,
      added: nat) {
    if s.free != [] then
      e == Silent && s' == Goto(s, t, Leave(Top(s), collected, added)).(free := Rest(s))
    else if counter % 2 == 0 then
      && e.Mapped? && e.segment !in s.used
      && s' == Goto(s, t, Carve(Bump(counter), collected, added + 1, e.segment, c.numBlocks)).(
                 segments := s.segments[e.segment := Segment([], 0)], used := s.used + {e.segment})
    else
      e == Silent && s' == Goto(s, t, PopLoop(Bump(counter), collected, added))
  }

  // The segment constructor's loop from the last block down to the first, then the insertion in m_segments.
  predicate StepCarve(s: State, t: ThreadId, e: Event, s': State,
                      counter: nat, collected: nat, added: nat, g: SegmentId, left: nat) {
    && e == Silent
    && s' == if left > 0 then
               Goto(s, t, Carve(counter, collected, added, g, left - 1)).(free := s.free + [Block(g, left - 1)])
             else
               Goto(s, t, PopLoop(counter, collected, added)).(table := s.table + {g})
  }

  predicate StepLeave(s: State, t: ThreadId, e: Event, s': State, b: Block) {
    e == Returned(b) && s' == Goto(s, t, Idle).(mutex := None, held := s.held + {b})
  }

  // -------------------------------------------------------------------- free

  predicate StepBegin(s: State, t: ThreadId, e: Event, s': State) {
    || (e == Silent && s' == Goto(s, t, PopUnlocked))
    || (e.Released? && e.block in s.held && s' == Goto(s, t, Push(e.block)).(held := s.held - {e.block}))
  }

  // 1 if a collector has popped a block of g and not yet given its node back.
  function HeldNode(s: State, g: SegmentId): nat {
    if s.mutex.Some? && s.mutex.value in s.threads && HoldsNode(s.threads[s.mutex.value], g) then 1 else 0
  }

  predicate HoldsNode(l: Location, g: SegmentId) {
    l.Drain? && l.source == g && (l.phase.Carrying? || l.phase.Releasing?)
  }

  predicate MayPush(c: Config, s: State, b: Block) {
    b.segment in s.segments && |s.segments[b.segment].freed| + HeldNode(s, b.segment) < c.numBlocks
  }

  // The push of `segment::free` waits for one of the m_num_blocks nodes of the freed stack.
  predicate StepPush(c: Config, s: State, t: ThreadId, e: Event, s': State, b: Block) {
    && e == Silent
    && b.segment in s.segments
    && var g := s.segments[b.segment];
       s' == if MayPush(c, s, b) then
               Goto(s, t, Increment(b.segment)).(segments := s.segments[b.segment := g.(freed := g.freed + [b])])
             else s
  }

  predicate StepIncrement(s: State, t: ThreadId, e: Event, s': State, g: SegmentId) {
    && e == Silent
    && g in s.segments
    && s' == Goto(s, t, Check(g)).(segments := s.segments[g := s.segments[g].(numFreed := s.segments[g].numFreed + 1)])
  }

  predicate StepCheck(c: Config, s: State, t: ThreadId, e: Event, s': State, g: SegmentId) {
    && e == Silent
    && (|| (!c.neverFree && MayRead(c, s, g, true) && s' == Goto(s, t, WaitErase(g)))
        || ((c.neverFree || MayRead(c, s, g, false)) && s' == Goto(s, t, Idle)))
  }

  predicate StepRecheck(c: Config, s: State, t: ThreadId, e: Event, s': State, g: SegmentId) {
    && e == Silent
    && (|| (MayRead(c, s, g, true) && s' == Goto(s, t, CompareSize(g)))
        || (MayRead(c, s, g, false) && s' == Goto(s, t, Unlock)))
  }

  predicate StepCompareSize(c: Config, s: State, t: ThreadId, e: Event, s': State, g: SegmentId) {
    e == Silent && s' == Goto(s, t, if |s.table| > c.reserve then Erase(g) else Unlock)
  }

  // Erasing an absent key does nothing; erasing a present one destroys the segment.
  predicate StepErase(s: State, t: ThreadId, e: Event, s': State, g: SegmentId) {
    if g in s.table then
      e == Unmapped(g) && s' == Goto(s, t, Unlock).(table := s.table - {g}, segments := s.segments - {g})
    else
      e == Silent && s' == Goto(s, t, Unlock)
  }

  predicate StepUnlock(s: State, t: ThreadId, e: Event, s': State) {
    e == Silent && s' == Goto(s, t, Idle).(mutex := None)
  }

  /** One step of thread t. */
  ghost predicate Next(c: Config, s: State, t: ThreadId, e: Event, s': State) {
    t in s.threads &&
    match s.threads[t]
    case Idle => StepBegin(s, t, e, s')
    case PopUnlocked => StepPopUnlocked(s, t, e, s')
    case WaitLock => StepLock(s, t, e, s', PopLocked)
    case PopLocked => StepPopLocked(s, t, e, s')
    case Collect(todo, collected) => StepCollect(s, t, e, s', todo, collected)
    case Drain(todo, collected, g, phase, consumed) => StepDrain(s, t, e, s', todo, collected, g, phase, consumed)
    case PopCollected(collected) => StepPopCollected(s, t, e, s', collected)
    case PopLoop(counter, collected, added) => StepPopLoop(c, s, t, e, s', counter, collected, added)
    case Carve(counter, collected, added, g, left) => StepCarve(s, t, e, s', counter, collected, added, g, left)
    case Leave(b, _, _) => StepLeave(s, t, e, s', b)
    case Push(b) => StepPush(c, s, t, e, s', b)
    case Increment(g) => StepIncrement(s, t, e, s', g)
    case Check(g) => StepCheck(c, s, t, e, s', g)
    case WaitErase(g) => StepLock(s, t, e, s', Recheck(g))
    case Recheck(g) => StepRecheck(c, s, t, e, s', g)
    case CompareSize(g) => StepCompareSize(c, s, t, e, s', g)
    case Erase(g) => StepErase(s, t, e, s', g)
    case Unlock => StepUnlock(s, t, e, s')
  }

  datatype Label = Label(thread: ThreadId, event: Event)

  /** A finite run: states[i] steps to states[i + 1] as labels[i] says. */
  datatype Run = Run(states: seq<State>, labels: seq<Label>)

  ghost predicate StepOf(c: Config, r: Run, i: nat)
    requires i < |r.labels| && |r.states| == |r.labels| + 1
  {
    Next(c, r.states[i], r.labels[i].thread, r.labels[i].event, r.states[i + 1])
  }

  ghost predicate IsRun(c: Config, r: Run) {
    && |r.states| == |r.labels| + 1
    && Init(r.states[0])
    && forall i :: 0 <= i < |r.labels| ==> StepOf(c, r, i)
  }

  function Last(r: Run): State
    requires r.states != []
  {
    r.states[|r.states| - 1]
  }

  function Extend(r: Run, t: ThreadId, e: Event, s': State): Run {
    Run(r.states + [s'], r.labels + [Label(t, e)])
  }

  ghost predicate Reachable(c: Config, s: State) {
    exists r :: IsRun(c, r) && Last(r) == s
  }

  lemma ExtendRun(c: Config, r: Run, t: ThreadId, e: Event, s': State)
    requires IsRun(c, r) && Next(c, Last(r), t, e, s')
    ensures IsRun(c, Extend(r, t, e, s')) && Last(Extend(r, t, e, s')) == s'
  {
    var r' := Extend(r, t, e, s');
    forall i | 0 <= i < |r'.labels| ensures StepOf(c, r', i) {
      if i < |r.labels| { assert StepOf(c, r, i); }
    }
  }

  lemma ReachNext(c: Config, s: State, t: ThreadId, e: Event, s': State)
    requires Reachable(c, s) && Next(c, s, t, e, s')
    ensures Reachable(c, s')
  {
    var r :| IsRun(c, r) && Last(r) == s;
    ExtendRun(c, r, t, e, s');
  }
}
