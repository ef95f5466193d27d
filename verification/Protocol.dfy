/** The coalescing protocol of src/extent.c as interleaved steps of several threads.

    A set's mutex is dropped while two extents are merged or one is split, and the entries of the page
    map are read before the lock of the extent they show is taken.  Every step here is one access to
    shared memory: a lock, a read or a write of a map entry, or a write of the fields that the step's
    lock protects.  A set is named by arena and state together.  The order in which a thread looks at
    its neighbours, and when it stops, are left open, which covers extent_record and extents_evict
    with and without delayed coalescing. */
module CoalesceProtocol {

  const MUTEX_POOL_SIZE := 256

  datatype Option<T> = None | Some(value: T)

  /** In use, or in the set k. */
  datatype State = Active | In(k: nat)

  datatype Cell = Cell(addr: nat, size: nat, state: State)

  /** Who may touch an extent in use. */
  datatype Owner = User | Thread(t: nat)

  /** A merge of a and the extent b behind it into a, or a split of a into a and a new extent b; `cut` is
      the number of pages of the front part. */
  datatype Job = Job(a: nat, b: nat, addr: nat, size: nat, cut: nat, merging: bool)

  datatype Pc =
    | Idle
    | Picking(k: nat)                                      // holds the mutex of k
    | Waiting(e: nat, k: nat)                              // owns e, wants the mutex of k
    | Holding(e: nat, k: nat)                              // owns e, holds the mutex of k
    | Seen(e: nat, k: nat, forward: bool, x: nat)          // a neighbouring page showed x
    | Locked(e: nat, k: nat, forward: bool, x: nat)        // and x is locked
    | Found(e: nat, k: nat, forward: bool, x: nat)         // and the page still showed x
    | Chosen(e: nat, k: nat, forward: bool, x: nat)        // unlocked again; x can be coalesced
    | Meeting(job: Job, k: nat, half: bool)                // taking the locks of both extents
    | Writing(job: Job, k: nat, i: nat)                    // holds both locks; i steps are done
    | Parting(a: nat, b: nat, k: nat)                      // b is about to be freed

  /** Extents by name, the page map, the owners of extents in use, the extent structures that are
      allocated, where each thread stands, and the hash that picks an extent's lock. */
  datatype World = World(ext: map<nat, Cell>, leaf: map<int, nat>, owner: map<nat, Owner>, heap: set<nat>,
                         pc: map<nat, Pc>, hash: nat -> nat)

  // ---------------------------------------------------------------------------------------
  // Locks and ownership
  // ---------------------------------------------------------------------------------------

  /** mutex_pool_mutex: several extents may share a lock. */
  function Slot(hash: nat -> nat, x: nat): nat {
    hash(x) % MUTEX_POOL_SIZE
  }

  function Min(a: nat, b: nat): nat { if a < b then a else b }

  function Max(a: nat, b: nat): nat { if a < b then b else a }

  /** The locks a thread holds. */
  function Slots(hash: nat -> nat, pc: Pc): set<nat> {
    match pc
    case Locked(_, _, _, x) => {Slot(hash, x)}
    case Found(_, _, _, x) => {Slot(hash, x)}
    case Meeting(job, _, half) => if half then {Min(Slot(hash, job.a), Slot(hash, job.b))} else {}
    case Writing(job, _, _) => {Slot(hash, job.a), Slot(hash, job.b)}
    case _ => {}
  }

  /** The set whose mutex a thread holds. */
  function Mutex(pc: Pc): Option<nat> {
    match pc
    case Picking(k) => Some(k)
    case Holding(_, k) => Some(k)
    case Seen(_, k, _, _) => Some(k)
    case Locked(_, k, _, _) => Some(k)
    case Found(_, k, _, _) => Some(k)
    case Chosen(_, k, _, _) => Some(k)
    case _ => None
  }

  /** The extents a thread works on. */
  function Owned(pc: Pc): set<nat> {
    match pc
    case Idle => {}
    case Picking(_) => {}
    case Meeting(job, _, _) => {job.a, job.b}
    case Writing(job, _, _) => {job.a, job.b}
    case Parting(a, b, _) => {a, b}
    case _ => {pc.e}
  }

  predicate SlotFree(w: World, s: nat) {
    forall u :: u in w.pc ==> s !in Slots(w.hash, w.pc[u])
  }

  predicate MutexFree(w: World, k: nat) {
    forall u :: u in w.pc ==> Mutex(w.pc[u]) != Some(k)
  }

  // ---------------------------------------------------------------------------------------
  // The writes of a merge or a split
  // ---------------------------------------------------------------------------------------

  datatype Write = Clear(p: int) | Show(p: int, x: nat) | Resize

  const STEPS := 5

  /** The writes of extent_merge_impl and extent_split_impl, in order; Resize is the change of the
      extents' own fields. */
  function WriteAt(job: Job, i: nat): Write
    requires i < STEPS
  {
    var lastA, firstB, lastB := job.addr + job.cut - 1, job.addr + job.cut, job.addr + job.size - 1;
    if job.merging then
      if i == 0 then Clear(lastA) else if i == 1 then Clear(firstB) else if i == 2 then Resize
      else if i == 3 then Show(job.addr, job.a) else Show(lastB, job.a)
    else
      if i == 0 then Resize else if i == 1 then Show(job.addr, job.a) else if i == 2 then Show(lastA, job.a)
      else if i == 3 then Show(firstB, job.b) else Show(lastB, job.b)
  }

  function Written(leaf: map<int, nat>, step: Write): map<int, nat> {
    match step
    case Clear(p) => leaf - {p}
    case Show(p, x) => leaf[p := x]
    case Resize => leaf
  }

  /** b is not an extent of its own: not yet, or not any more. */
  predicate OnlyA(job: Job, i: nat) {
    if job.merging then i > 2 else i == 0
  }

  function Resized(ext: map<nat, Cell>, job: Job): map<nat, Cell>
    requires job.cut <= job.size
  {
    if job.merging then ext[job.a := Cell(job.addr, job.size, Active)] - {job.b}
    else ext[job.a := Cell(job.addr, job.cut, Active)][job.b := Cell(job.addr + job.cut, job.size - job.cut, Active)]
  }

  // ---------------------------------------------------------------------------------------
  // Steps
  // ---------------------------------------------------------------------------------------

  datatype Action =
    | Free(e: nat, k: nat)                  // the user gives an extent back
    | Enter                                 // take the mutex
    | Begin(k: nat)                         // take the mutex in order to allocate or to evict
    | Leave                                 // nothing fits
    | Evict(x: nat)                         // take an extent out of the set and try to merge it
    | TakeWhole(x: nat)                     // take an extent for the user
    | TakePart(x: nat, n: nat, t: nat)      // take an extent that has to be split
    | Look(forward: bool)                   // read the entry of a neighbouring page
    | GiveUp                                // the entry has the slab bit set
    | Lock
    | Recheck                               // read the entry again
    | Judge                                 // extent_can_coalesce, and unlock
    | Activate                              // take the neighbour out of the set, drop the mutex
    | Acquire                               // one lock of extent_lock2
    | Advance                               // one write
    | Release                               // extent_unlock2
    | Dalloc                                // free the structure of the merged extent
    | Deactivate                            // put the extent into the set
    | Keep                                  // evicted: the extent stays out of the set

  function At(leaf: map<int, nat>, p: int): Option<nat> {
    if p in leaf then Some(leaf[p]) else None
  }

  function Beside(c: Cell, forward: bool): int {
    if forward then c.addr + c.size else c.addr - 1
  }

  predicate InSet(w: World, x: nat, k: nat) {
    x in w.ext && w.ext[x].state == In(k)
  }

  predicate Enabled(w: World, t: nat, act: Action)
    requires t in w.pc
  {
    var pc := w.pc[t];
    match act
    case Free(e, k) => pc == Idle && e in w.owner && w.owner[e] == User
    case Enter => pc.Waiting? && MutexFree(w, pc.k)
    case Begin(k) => pc == Idle && MutexFree(w, k)
    case Leave => pc.Picking?
    case Evict(x) => pc.Picking? && InSet(w, x, pc.k)
    case TakeWhole(x) => pc.Picking? && InSet(w, x, pc.k)
    case TakePart(x, n, b) => pc.Picking? && InSet(w, x, pc.k) && 0 < n < w.ext[x].size && b !in w.heap
    case Look(forward) => pc.Holding? && pc.e in w.ext && Beside(w.ext[pc.e], forward) in w.leaf
    case GiveUp => pc.Seen?
    case Lock => pc.Seen? && SlotFree(w, Slot(w.hash, pc.x))
    case Recheck => pc.Locked? && pc.e in w.ext
    case Judge => pc.Found? && pc.x in w.ext
    case Activate => pc.Chosen? && pc.x in w.ext && pc.e in w.ext
    case Acquire => pc.Meeting? && SlotFree(w, Wanted(w.hash, pc.job, pc.half))
    case Advance => pc.Writing? && pc.i < STEPS && pc.job.cut <= pc.job.size
    case Release => pc.Writing? && pc.i == STEPS
    case Dalloc => pc.Parting?
    case Deactivate => pc.Holding? && pc.e in w.ext
    case Keep => pc.Holding?
  }

  /** mutex_pool_lock2 takes the lower of two locks first. */
  function Wanted(hash: nat -> nat, job: Job, half: bool): nat {
    var a, b := Slot(hash, job.a), Slot(hash, job.b);
    if half then Max(a, b) else Min(a, b)
  }

  function WithState(ext: map<nat, Cell>, x: nat, st: State): map<nat, Cell>
    requires x in ext
  {
    ext[x := ext[x].(state := st)]
  }

  function MergeJob(w: World, e: nat, x: nat, forward: bool): Job
    requires e in w.ext && x in w.ext
  {
    var a, b := if forward then e else x, if forward then x else e;
    Job(a, b, w.ext[a].addr, w.ext[a].size + w.ext[b].size, w.ext[a].size, true)
  }

  function SplitJob(w: World, x: nat, n: nat, b: nat): Job
    requires x in w.ext
  {
    Job(x, b, w.ext[x].addr, w.ext[x].size, n, false)
  }

  /** Where the thread stands after the step. */
  function PcAfter(w: World, t: nat, act: Action): Pc
    requires t in w.pc && Enabled(w, t, act)
  {
    var pc := w.pc[t];
    match act
    case Free(e, k) => Waiting(e, k)
    case Enter => Holding(pc.e, pc.k)
    case Begin(k) => Picking(k)
    case Leave => Idle
    case Evict(x) => Holding(x, pc.k)
    case TakeWhole(x) => Idle
    case TakePart(x, n, b) => Meeting(SplitJob(w, x, n, b), pc.k, false)
    case Look(forward) => Seen(pc.e, pc.k, forward, w.leaf[Beside(w.ext[pc.e], forward)])
    case GiveUp => Holding(pc.e, pc.k)
    case Lock => Locked(pc.e, pc.k, pc.forward, pc.x)
    case Recheck =>
      if At(w.leaf, Beside(w.ext[pc.e], pc.forward)) == Some(pc.x) then Found(pc.e, pc.k, pc.forward, pc.x)
      else Holding(pc.e, pc.k)
    case Judge => if w.ext[pc.x].state == In(pc.k) then Chosen(pc.e, pc.k, pc.forward, pc.x) else Holding(pc.e, pc.k)
    case Activate => Meeting(MergeJob(w, pc.e, pc.x, pc.forward), pc.k, false)
    case Acquire =>
      if pc.half || Slot(w.hash, pc.job.a) == Slot(w.hash, pc.job.b) then Writing(pc.job, pc.k, 0)
      else Meeting(pc.job, pc.k, true)
    case Advance => Writing(pc.job, pc.k, pc.i + 1)
    case Release => if pc.job.merging then Parting(pc.job.a, pc.job.b, pc.k) else Waiting(pc.job.b, pc.k)
    case Dalloc => Waiting(pc.a, pc.k)
    case Deactivate => Idle
    case Keep => Idle
  }

  function ExtAfter(w: World, t: nat, act: Action): map<nat, Cell>
    requires t in w.pc && Enabled(w, t, act)
  {
    var pc := w.pc[t];
    match act
    case Evict(x) => WithState(w.ext, x, Active)
    case TakeWhole(x) => WithState(w.ext, x, Active)
    case TakePart(x, _, _) => WithState(w.ext, x, Active)
    case Activate => WithState(w.ext, pc.x, Active)
    case Deactivate => WithState(w.ext, pc.e, In(pc.k))
    case Advance => if WriteAt(pc.job, pc.i) == Resize then Resized(w.ext, pc.job) else w.ext
    case _ => w.ext
  }

  function OwnerAfter(w: World, t: nat, act: Action): map<nat, Owner>
    requires t in w.pc && Enabled(w, t, act)
  {
    var pc := w.pc[t];
    match act
    case Free(e, _) => w.owner[e := Thread(t)]
    case Evict(x) => w.owner[x := Thread(t)]
    case TakeWhole(x) => w.owner[x := User]
    case TakePart(x, _, b) => w.owner[x := Thread(t)][b := Thread(t)]
    case Activate => w.owner[pc.x := Thread(t)]
    case Release => if pc.job.merging then w.owner else w.owner[pc.job.a := User]
    case Dalloc => w.owner - {pc.b}
    case Deactivate => w.owner - {pc.e}
    case Keep => w.owner[pc.e := User]
    case _ => w.owner
  }

  function LeafAfter(w: World, t: nat, act: Action): map<int, nat>
    requires t in w.pc && Enabled(w, t, act)
  {
    if act == Advance then Written(w.leaf, WriteAt(w.pc[t].job, w.pc[t].i)) else w.leaf
  }

  function HeapAfter(w: World, t: nat, act: Action): set<nat>
    requires t in w.pc && Enabled(w, t, act)
  {
    match act
    case TakePart(_, _, b) => w.heap + {b}
    case Dalloc => w.heap - {w.pc[t].b}
    case _ => w.heap
  }

  function After(w: World, t: nat, act: Action): World
    requires t in w.pc && Enabled(w, t, act)
  {
    World(ExtAfter(w, t, act), LeafAfter(w, t, act), OwnerAfter(w, t, act), HeapAfter(w, t, act),
          w.pc[t := PcAfter(w, t, act)], w.hash)
  }

  // ---------------------------------------------------------------------------------------
  // The invariant
  // ---------------------------------------------------------------------------------------

  predicate InRange(c: Cell, p: int) {
    c.addr <= p < c.addr + c.size
  }

  predicate IsEnd(c: Cell, p: int) {
    p == c.addr || p == c.addr + c.size - 1
  }

  predicate Apart(c: Cell, d: Cell) {
    c.addr + c.size <= d.addr || d.addr + d.size <= c.addr
  }

  predicate Disjoint(ext: map<nat, Cell>) {
    && (forall x :: x in ext ==> ext[x].size > 0)
    && forall x, y :: x in ext && y in ext && x != y ==> Apart(ext[x], ext[y])
  }

  predicate Covered(ext: map<nat, Cell>, p: int) {
    exists x :: x in ext && InRange(ext[x], p)
  }

  /** An extent shows itself on its first and its last page and nothing between. */
  ghost predicate Shows(leaf: map<int, nat>, x: nat, c: Cell) {
    forall p :: InRange(c, p) ==> At(leaf, p) == if IsEnd(c, p) then Some(x) else None
  }

  /** The extents in use are exactly those with an owner; the extents a thread works on are exactly those
      it owns; and nothing that is in use or owned has been freed. */
  ghost predicate OwnersOk(ext: map<nat, Cell>, owner: map<nat, Owner>, heap: set<nat>, pc: map<nat, Pc>) {
    && (forall x :: x in ext ==> x in heap && (x in owner <==> ext[x].state == Active))
    && (forall x :: x in owner ==> x in heap && (owner[x] == User ==> x in ext) && (owner[x].Thread? ==> owner[x].t in pc))
    && (forall t, x :: t in pc ==> (x in Owned(pc[t]) <==> x in owner && owner[x] == Thread(t)))
  }

  /** No lock has two holders, and nobody waits for a lock that it has. */
  ghost predicate Exclusive(pc: map<nat, Pc>, hash: nat -> nat) {
    && (forall t :: t in pc && pc[t].Meeting? && pc[t].half ==> Slot(hash, pc[t].job.a) != Slot(hash, pc[t].job.b))
    && (forall t, u :: t in pc && u in pc && t != u ==> Mutex(pc[t]) == None || Mutex(pc[t]) != Mutex(pc[u]))
    && (forall t, u, s :: t in pc && u in pc && t != u && s in Slots(hash, pc[t]) ==> s !in Slots(hash, pc[u]))
  }

  /** The owner of x is writing the map entries of x. */
  predicate Busy(owner: map<nat, Owner>, pc: map<nat, Pc>, x: nat) {
    x in owner && owner[x].Thread? && owner[x].t in pc && pc[owner[x].t].Writing?
  }

  ghost predicate Agrees(ext: map<nat, Cell>, leaf: map<int, nat>, owner: map<nat, Owner>, pc: map<nat, Pc>) {
    && (forall x :: x in ext ==> Busy(owner, pc, x) || Shows(leaf, x, ext[x]))
    && (forall p :: p in leaf ==> Covered(ext, p))
  }

  predicate JobOk(job: Job) {
    0 < job.cut < job.size && job.a != job.b
  }

  predicate InJob(job: Job, p: int) {
    job.addr <= p < job.addr + job.size
  }

  /** The extents that a job has in hand after i of its steps. */
  predicate Fits(ext: map<nat, Cell>, job: Job, i: nat)
    requires JobOk(job)
  {
    && job.a in ext
    && if OnlyA(job, i) then ext[job.a] == Cell(job.addr, job.size, Active) && job.b !in ext
       else ext[job.a] == Cell(job.addr, job.cut, Active)
            && job.b in ext && ext[job.b] == Cell(job.addr + job.cut, job.size - job.cut, Active)
  }

  /** What a page of the job shows in the end. */
  function Goal(job: Job, p: int): Option<nat> {
    var lastA, firstB, lastB := job.addr + job.cut - 1, job.addr + job.cut, job.addr + job.size - 1;
    if job.merging then if p == job.addr || p == lastB then Some(job.a) else None
    else if p == job.addr || p == lastA then Some(job.a)
    else if p == firstB || p == lastB then Some(job.b) else None
  }

  /** The map after the steps of the job from the i-th on. */
  function Rest(leaf: map<int, nat>, job: Job, i: nat): map<int, nat>
    decreases STEPS - i
  {
    if i >= STEPS then leaf else Rest(Written(leaf, WriteAt(job, i)), job, i + 1)
  }

  ghost predicate Pending(leaf: map<int, nat>, job: Job, i: nat) {
    forall p :: InJob(job, p) ==> PendingAt(leaf, job, i, p)
  }

  predicate PendingAt(leaf: map<int, nat>, job: Job, i: nat, p: int) {
    && At(Rest(leaf, job, i), p) == Goal(job, p)
    && (At(leaf, p) == None || At(leaf, p) == Some(job.a) || At(leaf, p) == Some(job.b))
  }

  predicate Touches(c: Cell, d: Cell, forward: bool) {
    if forward then c.addr + c.size == d.addr else d.addr + d.size == c.addr
  }

  /** What a thread may rely on. */
  ghost predicate Local(ext: map<nat, Cell>, leaf: map<int, nat>, pc: Pc) {
    match pc
    case Found(e, _, forward, x) => e in ext && At(leaf, Beside(ext[e], forward)) == Some(x)
    case Chosen(e, k, forward, x) => e in ext && x in ext && ext[x].state == In(k) && Touches(ext[e], ext[x], forward)
    case Meeting(job, _, half) => JobOk(job) && Fits(ext, job, 0)
    case Writing(job, _, i) => JobOk(job) && i <= STEPS && Fits(ext, job, i) && Pending(leaf, job, i)
    case Parting(a, b, _) => a in ext && b !in ext && a != b
    case Idle => true
    case Picking(_) => true
    case _ => pc.e in ext
  }

  ghost predicate AllLocal(ext: map<nat, Cell>, leaf: map<int, nat>, pc: map<nat, Pc>) {
    forall t :: t in pc ==> Local(ext, leaf, pc[t])
  }

  ghost predicate Inv(w: World) {
    && Disjoint(w.ext) && OwnersOk(w.ext, w.owner, w.heap, w.pc) && Exclusive(w.pc, w.hash)
    && Agrees(w.ext, w.leaf, w.owner, w.pc) && AllLocal(w.ext, w.leaf, w.pc)
  }

  // ---------------------------------------------------------------------------------------
  // Every step keeps the locks and the ownership
  // ---------------------------------------------------------------------------------------

  lemma ExclusiveKept(w: World, t: nat, act: Action)
    requires Inv(w) && t in w.pc && Enabled(w, t, act)
    ensures Exclusive(w.pc[t := PcAfter(w, t, act)], w.hash)
  {
    hide Disjoint, OwnersOk, Agrees, AllLocal, Enabled, PcAfter, SlotFree, MutexFree, Slot, Slots, Mutex;
    GainsFree(w, t, act);
    ExclusiveStep(w, t, PcAfter(w, t, act));
  }

  /** A thread gains only locks that nobody holds. */
  lemma GainsFree(w: World, t: nat, act: Action)
    requires t in w.pc && Enabled(w, t, act) && Exclusive(w.pc, w.hash)
    ensures var pc, pc' := w.pc[t], PcAfter(w, t, act);
            && (forall s :: s in Slots(w.hash, pc') && s !in Slots(w.hash, pc) ==> SlotFree(w, s))
            && (Mutex(pc') == None || Mutex(pc') == Mutex(pc) || MutexFree(w, Mutex(pc').value))
            && (pc'.Meeting? && pc'.half ==> Slot(w.hash, pc'.job.a) != Slot(w.hash, pc'.job.b))
  {
    hide MergeJob, SplitJob, Slot;
  }

  lemma ExclusiveStep(w: World, t: nat, pc': Pc)
    requires t in w.pc && Exclusive(w.pc, w.hash)
    requires forall s :: s in Slots(w.hash, pc') && s !in Slots(w.hash, w.pc[t]) ==> SlotFree(w, s)
    requires Mutex(pc') == None || Mutex(pc') == Mutex(w.pc[t]) || MutexFree(w, Mutex(pc').value)
    requires pc'.Meeting? && pc'.half ==> Slot(w.hash, pc'.job.a) != Slot(w.hash, pc'.job.b)
    ensures Exclusive(w.pc[t := pc'], w.hash)
  {
    hide Slot, Slots, Mutex;
  }

  /** Each extent in hand is there, and the one about to be freed is not. */
  lemma InHand(w: World, t: nat)
    requires Inv(w) && t in w.pc
    ensures match w.pc[t]
            case Holding(e, _) => e in w.ext
            case Chosen(_, k, _, x) => x in w.ext && w.ext[x].state == In(k)
            case Parting(a, b, _) => b !in w.ext && a != b
            case Writing(job, _, i) => job.a in w.ext && job.a != job.b && (i < STEPS && WriteAt(job, i) == Resize && job.merging ==> job.b in w.ext)
            case _ => true
  {
    hide Disjoint, Exclusive, Agrees, OwnersOk;
    assert Local(w.ext, w.leaf, w.pc[t]);
  }

  lemma OwnersKept(w: World, t: nat, act: Action)
    requires Inv(w) && t in w.pc && Enabled(w, t, act)
    ensures OwnersOk(ExtAfter(w, t, act), OwnerAfter(w, t, act), HeapAfter(w, t, act), w.pc[t := PcAfter(w, t, act)])
  {
    hide Inv, Enabled, Owned, PcAfter, OwnerAfter, ExtAfter, HeapAfter;
    InUseSteps(w, t, act);
    OwnedSteps(w, t, act);
  }

  predicate Takes(act: Action) {
    act.Free? || act.Evict? || act.TakeWhole? || act.TakePart? || act == Activate
  }

  /** The extents that change hands in a step. */
  function Moved(pc: Pc, act: Action): set<nat> {
    match act
    case Free(e, _) => {e}
    case Evict(x) => {x}
    case TakeWhole(x) => {x}
    case TakePart(x, _, b) => {x, b}
    case Activate => if pc.Chosen? then {pc.x} else {}
    case Release => if pc.Writing? && !pc.job.merging then {pc.job.a} else {}
    case Dalloc => if pc.Parting? then {pc.b} else {}
    case Deactivate => Owned(pc)
    case Keep => Owned(pc)
    case _ => {}
  }

  ghost predicate OwnedIs(owner: map<nat, Owner>, pc: map<nat, Pc>) {
    forall t, x :: t in pc ==> (x in Owned(pc[t]) <==> x in owner && owner[x] == Thread(t))
  }

  ghost predicate InUseIs(ext: map<nat, Cell>, owner: map<nat, Owner>, heap: set<nat>, pc: map<nat, Pc>) {
    && (forall x :: x in ext ==> x in heap && (x in owner <==> ext[x].state == Active))
    && (forall x :: x in owner ==> x in heap && (owner[x] == User ==> x in ext) && (owner[x].Thread? ==> owner[x].t in pc))
  }

  /** Extents that change hands come from the thread itself, from the user, or from nobody. */
  lemma MovedFrom(w: World, t: nat, act: Action)
    requires Inv(w) && t in w.pc && Enabled(w, t, act)
    ensures forall x :: x in Moved(w.pc[t], act) && x in w.owner ==> w.owner[x] == User || w.owner[x] == Thread(t)
  {
    hide Disjoint, Exclusive, Agrees, AllLocal, SlotFree, MutexFree, Slots, Mutex;
    InHand(w, t);
  }

  lemma MovedOwner(w: World, t: nat, act: Action, x: nat)
    requires t in w.pc && Enabled(w, t, act)
    ensures x !in Moved(w.pc[t], act) ==> (x in OwnerAfter(w, t, act) <==> x in w.owner) && (x in w.owner ==> OwnerAfter(w, t, act)[x] == w.owner[x])
    ensures x in Moved(w.pc[t], act) && x in OwnerAfter(w, t, act) ==> OwnerAfter(w, t, act)[x] == User || OwnerAfter(w, t, act)[x] == Thread(t)
  {
    hide SlotFree, MutexFree, Wanted;
  }

  lemma MovedOwned(w: World, t: nat, act: Action, x: nat)
    requires t in w.pc && Enabled(w, t, act) && (w.pc[t].Parting? ==> w.pc[t].a != w.pc[t].b)
    requires w.pc[t].Writing? ==> w.pc[t].job.a != w.pc[t].job.b
    ensures x in Owned(PcAfter(w, t, act)) <==>
      if x in Moved(w.pc[t], act) then x in OwnerAfter(w, t, act) && OwnerAfter(w, t, act)[x] == Thread(t) else x in Owned(w.pc[t])
  {
    hide SlotFree, MutexFree, Wanted, Slot;
  }

  lemma OwnedSteps(w: World, t: nat, act: Action)
    requires Inv(w) && t in w.pc && Enabled(w, t, act)
    ensures OwnedIs(OwnerAfter(w, t, act), w.pc[t := PcAfter(w, t, act)])
  {
    hide Disjoint, Exclusive, Agrees, AllLocal, Enabled, PcAfter, OwnerAfter, Moved, Owned;
    InHand(w, t);
    MovedFrom(w, t, act);
    var owner', pc' := OwnerAfter(w, t, act), w.pc[t := PcAfter(w, t, act)];
    forall u, x | u in pc' ensures x in Owned(pc'[u]) <==> x in owner' && owner'[x] == Thread(u) {
      MovedOwner(w, t, act, x);
      MovedOwned(w, t, act, x);
    }
  }

  lemma InUseSteps(w: World, t: nat, act: Action)
    requires Inv(w) && t in w.pc && Enabled(w, t, act)
    ensures InUseIs(ExtAfter(w, t, act), OwnerAfter(w, t, act), HeapAfter(w, t, act), w.pc)
  {
    hide Inv, Enabled, ExtAfter, OwnerAfter, HeapAfter, InUseIs;
    if act == Advance {
      InUseResizes(w, t);
    } else if Takes(act) {
      InUseTakes(w, t, act);
    } else {
      InUseStays(w, t, act);
    }
  }

  lemma InUseTakes(w: World, t: nat, act: Action)
    requires Inv(w) && t in w.pc && Enabled(w, t, act) && Takes(act)
    ensures InUseIs(ExtAfter(w, t, act), OwnerAfter(w, t, act), HeapAfter(w, t, act), w.pc)
  {
    hide Disjoint, Exclusive, Agrees, AllLocal, SlotFree, MutexFree, PcAfter, Owned;
    InHand(w, t);
  }

  lemma InUseStays(w: World, t: nat, act: Action)
    requires Inv(w) && t in w.pc && Enabled(w, t, act) && !Takes(act) && act != Advance
    ensures InUseIs(ExtAfter(w, t, act), OwnerAfter(w, t, act), HeapAfter(w, t, act), w.pc)
  {
    hide Disjoint, Exclusive, Agrees, AllLocal, SlotFree, MutexFree, PcAfter, Slot, Slots, Mutex;
    if act.Release? || act.Dalloc? || act.Deactivate? || act.Keep? {
      InUseLeaves(w, t, act);
    } else {
      assert InUseIs(w.ext, w.owner, w.heap, w.pc);
    }
  }

  lemma InUseLeaves(w: World, t: nat, act: Action)
    requires Inv(w) && t in w.pc && Enabled(w, t, act) && (act.Release? || act.Dalloc? || act.Deactivate? || act.Keep?)
    ensures InUseIs(ExtAfter(w, t, act), OwnerAfter(w, t, act), HeapAfter(w, t, act), w.pc)
  {
    hide Disjoint, Exclusive, Agrees, AllLocal, SlotFree, MutexFree, PcAfter, Pending, Slot, Slots, Mutex;
    InHand(w, t);
  }

  lemma InUseResizes(w: World, t: nat)
    requires Inv(w) && t in w.pc && Enabled(w, t, Advance)
    ensures InUseIs(ExtAfter(w, t, Advance), OwnerAfter(w, t, Advance), HeapAfter(w, t, Advance), w.pc)
  {
    hide Disjoint, Exclusive, Agrees, AllLocal, PcAfter;
    InHand(w, t);
    assert w.pc[t].job.a in Owned(w.pc[t]) && w.pc[t].job.b in Owned(w.pc[t]);
  }

  // ---------------------------------------------------------------------------------------
  // Every step keeps the extents apart and the pages covered
  // ---------------------------------------------------------------------------------------

  predicate SameRanges(ext: map<nat, Cell>, ext': map<nat, Cell>) {
    ext'.Keys == ext.Keys && forall x :: x in ext ==> ext'[x].addr == ext[x].addr && ext'[x].size == ext[x].size
  }

  ghost predicate SameCover(ext: map<nat, Cell>, ext': map<nat, Cell>) {
    forall p: int :: Covered(ext', p) <==> Covered(ext, p)
  }

  lemma RangesGive(ext: map<nat, Cell>, ext': map<nat, Cell>)
    requires SameRanges(ext, ext')
    ensures SameCover(ext, ext') && (Disjoint(ext) ==> Disjoint(ext'))
  {
    forall p: int ensures Covered(ext', p) <==> Covered(ext, p) {
      if Covered(ext, p) {
        var x :| x in ext && InRange(ext[x], p);
        assert InRange(ext'[x], p);
      }
      if Covered(ext', p) {
        var x :| x in ext' && InRange(ext'[x], p);
        assert InRange(ext[x], p);
      }
    }
    if Disjoint(ext) {
      forall x, y | x in ext' && y in ext' && x != y ensures Apart(ext'[x], ext'[y]) {
        assert Apart(ext[x], ext[y]);
      }
    }
  }

  predicate IsResize(w: World, t: nat, act: Action)
    requires t in w.pc && Enabled(w, t, act)
  {
    act == Advance && WriteAt(w.pc[t].job, w.pc[t].i) == Resize
  }

  lemma RangesStay(w: World, t: nat, act: Action)
    requires t in w.pc && Enabled(w, t, act) && !IsResize(w, t, act)
    ensures SameRanges(w.ext, ExtAfter(w, t, act))
  {
    hide SlotFree, MutexFree;
  }

  lemma ResizeFits(ext: map<nat, Cell>, job: Job, i: nat)
    requires JobOk(job) && Fits(ext, job, i) && i < STEPS && WriteAt(job, i) == Resize
    ensures Fits(Resized(ext, job), job, i + 1)
  {
  }

  lemma ResizeDisjoint(ext: map<nat, Cell>, job: Job, i: nat)
    requires Disjoint(ext) && JobOk(job) && Fits(ext, job, i) && i < STEPS && WriteAt(job, i) == Resize
    ensures Disjoint(Resized(ext, job))
  {
    var ext' := Resized(ext, job);
    forall x, y | x in ext' && y in ext' && x != y ensures Apart(ext'[x], ext'[y]) {
      assert x in ext && y in ext ==> Apart(ext[x], ext[y]);
      assert x in ext && x != job.a ==> Apart(ext[x], ext[job.a]);
      assert y in ext && y != job.a ==> Apart(ext[y], ext[job.a]);
      assert job.merging && x in ext && x != job.b ==> Apart(ext[x], ext[job.b]);
      assert job.merging && y in ext && y != job.b ==> Apart(ext[y], ext[job.b]);
    }
  }

  lemma ResizeCover(ext: map<nat, Cell>, job: Job, i: nat)
    requires JobOk(job) && Fits(ext, job, i) && i < STEPS && WriteAt(job, i) == Resize
    ensures SameCover(ext, Resized(ext, job))
  {
    var ext' := Resized(ext, job);
    forall p: int ensures Covered(ext', p) <==> Covered(ext, p) {
      JobCovers(ext, job, i, p);
      ResizeFits(ext, job, i);
      JobCovers(ext', job, i + 1, p);
      if Covered(ext, p) && !InJob(job, p) {
        var x :| x in ext && InRange(ext[x], p);
        assert InRange(ext'[x], p);
      }
      if Covered(ext', p) && !InJob(job, p) {
        var x :| x in ext' && InRange(ext'[x], p);
        assert InRange(ext[x], p);
      }
    }
  }

  lemma JobCovers(ext: map<nat, Cell>, job: Job, i: nat, p: int)
    requires JobOk(job) && Fits(ext, job, i)
    ensures InJob(job, p) ==> Covered(ext, p)
    ensures InRange(ext[job.a], p) ==> InJob(job, p)
    ensures job.b in ext && InRange(ext[job.b], p) ==> InJob(job, p)
  {
    if InJob(job, p) {
      assert InRange(ext[job.a], p) || (job.b in ext && InRange(ext[job.b], p));
    }
  }

  lemma ShapeKept(w: World, t: nat, act: Action)
    requires Inv(w) && t in w.pc && Enabled(w, t, act)
    ensures Disjoint(ExtAfter(w, t, act)) && SameCover(w.ext, ExtAfter(w, t, act))
  {
    hide Disjoint, SameCover, OwnersOk, Exclusive, Agrees, SameRanges;
    if IsResize(w, t, act) {
      assert Local(w.ext, w.leaf, w.pc[t]);
      ResizeDisjoint(w.ext, w.pc[t].job, w.pc[t].i);
      ResizeCover(w.ext, w.pc[t].job, w.pc[t].i);
    } else {
      RangesStay(w, t, act);
      RangesGive(w.ext, ExtAfter(w, t, act));
    }
  }

  // ---------------------------------------------------------------------------------------
  // What the map shows
  // ---------------------------------------------------------------------------------------

  /** The pages of a job show nothing but its two extents. */
  lemma JobShows(w: World, t: nat, p: int)
    requires Inv(w) && t in w.pc && w.pc[t].Writing? && InJob(w.pc[t].job, p)
    ensures At(w.leaf, p) == None || At(w.leaf, p) == Some(w.pc[t].job.a) || At(w.leaf, p) == Some(w.pc[t].job.b)
  {
    hide Disjoint, OwnersOk, Exclusive, Agrees;
    assert Local(w.ext, w.leaf, w.pc[t]);
    assert PendingAt(w.leaf, w.pc[t].job, w.pc[t].i, p);
  }

  /** Who covers a page that shows x: x itself, at one of its ends, unless the page belongs to two extents
      that are just being written, one of which is x. */
  lemma ShownBy(w: World, p: int)
    requires Inv(w) && p in w.leaf
    ensures var x := w.leaf[p];
            || (x in w.ext && InRange(w.ext[x], p) && IsEnd(w.ext[x], p))
            || (exists u :: u in w.pc && w.pc[u].Writing? && x in {w.pc[u].job.a, w.pc[u].job.b})
  {
    hide Disjoint, Exclusive, AllLocal;
    var y :| y in w.ext && InRange(w.ext[y], p);
    if Busy(w.owner, w.pc, y) {
      var u := w.owner[y].t;
      assert y in Owned(w.pc[u]);
      BusyIn(w, u, y, p);
      JobShows(w, u, p);
    } else {
      assert Shows(w.leaf, y, w.ext[y]);
    }
  }

  lemma BusyIn(w: World, u: nat, y: nat, p: int)
    requires Inv(w) && u in w.pc && w.pc[u].Writing? && y in Owned(w.pc[u]) && y in w.ext && InRange(w.ext[y], p)
    ensures InJob(w.pc[u].job, p)
  {
    hide Disjoint, OwnersOk, Exclusive, Agrees;
    assert Local(w.ext, w.leaf, w.pc[u]);
    JobCovers(w.ext, w.pc[u].job, w.pc[u].i, p);
  }

  /** A writer of x would hold the lock of x. */
  lemma NotWritten(w: World, t: nat)
    requires Inv(w) && t in w.pc && w.pc[t].Found?
    ensures forall u :: u in w.pc && w.pc[u].Writing? ==> w.pc[t].x != w.pc[u].job.a && w.pc[t].x != w.pc[u].job.b
  {
    hide Disjoint, OwnersOk, Agrees, AllLocal;
    assert Slot(w.hash, w.pc[t].x) in Slots(w.hash, w.pc[t]);
  }

  /** The second read of the entry under the lock: the extent is there, it ends next to the thread's own
      extent, and nobody is changing it.  So no lookup returns an extent that was merged away. */
  lemma FoundTouches(w: World, t: nat)
    requires Inv(w) && t in w.pc && w.pc[t].Found?
    ensures var Found(e, _, forward, x) := w.pc[t];
            e in w.ext && x in w.ext && x != e && Touches(w.ext[e], w.ext[x], forward) && !Busy(w.owner, w.pc, x)
  {
    hide Agrees;
    var Found(e, k, forward, x) := w.pc[t];
    assert Local(w.ext, w.leaf, w.pc[t]);
    var p := Beside(w.ext[e], forward);
    ShownBy(w, p);
    NotWritten(w, t);
    assert x != e ==> Apart(w.ext[e], w.ext[x]);
  }

  // ---------------------------------------------------------------------------------------
  // Every step keeps the map in agreement
  // ---------------------------------------------------------------------------------------

  lemma OthersStayBusy(w: World, t: nat, act: Action, x: nat)
    requires Inv(w) && t in w.pc && Enabled(w, t, act) && Busy(w.owner, w.pc, x) && w.owner[x].t != t
    ensures Busy(OwnerAfter(w, t, act), w.pc[t := PcAfter(w, t, act)], x)
  {
    hide Disjoint, Exclusive, Agrees, AllLocal, Enabled, PcAfter, OwnerAfter, Owned;
    OwnersKept(w, t, act);
    var u := w.owner[x].t;
    var pc' := w.pc[t := PcAfter(w, t, act)];
    assert x in Owned(w.pc[u]) && pc'[u] == w.pc[u];
    assert x in Owned(pc'[u]);
  }

  lemma ShowsSame(leaf: map<int, nat>, x: nat, c: Cell, c': Cell)
    requires Shows(leaf, x, c) && c'.addr == c.addr && c'.size == c.size
    ensures Shows(leaf, x, c')
  {
    assert forall p :: InRange(c', p) ==> InRange(c, p);
  }

  /** Once all writes are done the extents of the job show themselves. */
  lemma JobDone(ext: map<nat, Cell>, leaf: map<int, nat>, job: Job)
    requires JobOk(job) && Fits(ext, job, STEPS) && Pending(leaf, job, STEPS)
    ensures Shows(leaf, job.a, ext[job.a]) && (job.b in ext ==> Shows(leaf, job.b, ext[job.b]))
  {
    forall p | InRange(ext[job.a], p) ensures At(leaf, p) == if IsEnd(ext[job.a], p) then Some(job.a) else None {
      assert PendingAt(leaf, job, STEPS, p);
    }
    if job.b in ext {
      forall p | InRange(ext[job.b], p) ensures At(leaf, p) == if IsEnd(ext[job.b], p) then Some(job.b) else None {
        assert PendingAt(leaf, job, STEPS, p);
      }
    }
  }

  /** At the start the five steps lead to the goal. */
  lemma JobStarts(ext: map<nat, Cell>, leaf: map<int, nat>, job: Job)
    requires JobOk(job) && Fits(ext, job, 0) && Shows(leaf, job.a, ext[job.a])
    requires job.b in ext ==> Shows(leaf, job.b, ext[job.b])
    ensures Pending(leaf, job, 0)
  {
    RestIs(leaf, job);
    forall p | InJob(job, p) ensures PendingAt(leaf, job, 0, p) {
      assert InRange(ext[job.a], p) || (job.b in ext && InRange(ext[job.b], p));
    }
  }

  lemma RestIs(leaf: map<int, nat>, job: Job)
    ensures Rest(leaf, job, 0) ==
      var lastA, firstB, lastB := job.addr + job.cut - 1, job.addr + job.cut, job.addr + job.size - 1;
      if job.merging then (leaf - {lastA} - {firstB})[job.addr as int := job.a][lastB := job.a]
      else leaf[job.addr as int := job.a][lastA := job.a][firstB as int := job.b][lastB := job.b]
  {
    var l1 := Written(leaf, WriteAt(job, 0));
    var l2 := Written(l1, WriteAt(job, 1));
    var l3 := Written(l2, WriteAt(job, 2));
    var l4 := Written(l3, WriteAt(job, 3));
    var l5 := Written(l4, WriteAt(job, 4));
    assert Rest(l4, job, 4) == Rest(l5, job, 5) == l5;
    assert Rest(l2, job, 2) == Rest(l3, job, 3) == Rest(l4, job, 4);
    assert Rest(leaf, job, 0) == Rest(l1, job, 1) == Rest(l2, job, 2);
  }

  /** One write keeps the rest on course, and touches pages of the job only. */
  lemma JobAdvances(leaf: map<int, nat>, job: Job, i: nat)
    requires JobOk(job) && i < STEPS && Pending(leaf, job, i)
    ensures var leaf' := Written(leaf, WriteAt(job, i));
      && Pending(leaf', job, i + 1)
      && (forall p :: !InJob(job, p) ==> At(leaf', p) == At(leaf, p))
  {
    var leaf' := Written(leaf, WriteAt(job, i));
    forall p | InJob(job, p) ensures PendingAt(leaf', job, i + 1, p) {
      assert PendingAt(leaf, job, i, p);
    }
  }

  lemma AgreesSteps(w: World, t: nat, act: Action)
    requires Inv(w) && t in w.pc && Enabled(w, t, act) && act != Advance && act != Release
    ensures Agrees(ExtAfter(w, t, act), w.leaf, OwnerAfter(w, t, act), w.pc[t := PcAfter(w, t, act)])
  {
    hide Disjoint, OwnersOk, Exclusive, AllLocal, Shows, Covered, PcAfter, OwnerAfter, ExtAfter;
    var ext', owner', pc' := ExtAfter(w, t, act), OwnerAfter(w, t, act), w.pc[t := PcAfter(w, t, act)];
    ShapeKept(w, t, act);
    RangesStay(w, t, act);
    assert !w.pc[t].Writing?;
    forall x | x in ext' ensures Busy(owner', pc', x) || Shows(w.leaf, x, ext'[x]) {
      if Busy(w.owner, w.pc, x) {
        OthersStayBusy(w, t, act, x);
      } else {
        ShowsSame(w.leaf, x, w.ext[x], ext'[x]);
      }
    }
  }

  lemma AgreesRelease(w: World, t: nat)
    requires Inv(w) && t in w.pc && Enabled(w, t, Release)
    ensures Agrees(w.ext, w.leaf, OwnerAfter(w, t, Release), w.pc[t := PcAfter(w, t, Release)])
  {
    hide Disjoint, Exclusive, Shows, Covered, PcAfter, OwnerAfter;
    var owner', pc', job := OwnerAfter(w, t, Release), w.pc[t := PcAfter(w, t, Release)], w.pc[t].job;
    assert Local(w.ext, w.leaf, w.pc[t]);
    JobDone(w.ext, w.leaf, job);
    forall x | x in w.ext ensures Busy(owner', pc', x) || Shows(w.leaf, x, w.ext[x]) {
      if Busy(w.owner, w.pc, x) && w.owner[x].t != t {
        OthersStayBusy(w, t, Release, x);
      } else if Busy(w.owner, w.pc, x) {
        assert x in Owned(w.pc[t]);
      }
    }
  }

  /** The pages of extents that a job does not have in hand lie elsewhere. */
  lemma JobApart(ext: map<nat, Cell>, job: Job, i: nat, x: nat, p: int)
    requires Disjoint(ext) && JobOk(job) && Fits(ext, job, i) && x in ext && x != job.a && x != job.b && InRange(ext[x], p)
    ensures !InJob(job, p)
  {
    assert Apart(ext[x], ext[job.a]);
    assert job.b in ext ==> Apart(ext[x], ext[job.b]);
  }

  lemma ShowsElsewhere(leaf: map<int, nat>, leaf': map<int, nat>, ext: map<nat, Cell>, job: Job, i: nat, x: nat)
    requires Disjoint(ext) && JobOk(job) && Fits(ext, job, i) && x in ext && x != job.a && x != job.b
    requires Shows(leaf, x, ext[x]) && forall p :: !InJob(job, p) ==> At(leaf', p) == At(leaf, p)
    ensures Shows(leaf', x, ext[x])
  {
    forall p | InRange(ext[x], p) ensures At(leaf', p) == if IsEnd(ext[x], p) then Some(x) else None {
      JobApart(ext, job, i, x, p);
    }
  }

  lemma AgreesAdvance(w: World, t: nat)
    requires Inv(w) && t in w.pc && Enabled(w, t, Advance)
    ensures Agrees(ExtAfter(w, t, Advance), LeafAfter(w, t, Advance), w.owner, w.pc[t := PcAfter(w, t, Advance)])
  {
    hide Disjoint, Exclusive, Shows, Covered, Fits, Pending, Written, WriteAt;
    var ext', leaf', pc', job, i := ExtAfter(w, t, Advance), LeafAfter(w, t, Advance), w.pc[t := PcAfter(w, t, Advance)], w.pc[t].job, w.pc[t].i;
    assert Local(w.ext, w.leaf, w.pc[t]);
    JobAdvances(w.leaf, job, i);
    ShapeKept(w, t, Advance);
    forall x | x in ext' ensures Busy(w.owner, pc', x) || Shows(leaf', x, ext'[x]) {
      if x == job.a || x == job.b {
        assert x in Owned(w.pc[t]);
      } else if !Busy(w.owner, w.pc, x) {
        ShowsElsewhere(w.leaf, leaf', w.ext, job, i, x);
      }
    }
    forall p | p in leaf' ensures Covered(ext', p) {
      assert At(leaf', p) != None;
      JobCovers(w.ext, job, i, p);
    }
  }

  lemma AgreesKept(w: World, t: nat, act: Action)
    requires Inv(w) && t in w.pc && Enabled(w, t, act)
    ensures Agrees(ExtAfter(w, t, act), LeafAfter(w, t, act), OwnerAfter(w, t, act), w.pc[t := PcAfter(w, t, act)])
  {
    hide Inv, Agrees, PcAfter;
    if act == Advance {
      AgreesAdvance(w, t);
    } else if act == Release {
      AgreesRelease(w, t);
    } else {
      AgreesSteps(w, t, act);
    }
  }

  // ---------------------------------------------------------------------------------------
  // Every step keeps what the threads rely on
  // ---------------------------------------------------------------------------------------

  /** What another thread relies on is out of reach. */
  lemma LocalFrame(ext: map<nat, Cell>, leaf: map<int, nat>, ext': map<nat, Cell>, leaf': map<int, nat>, pc: Pc)
    requires Local(ext, leaf, pc)
    requires forall x :: x in Owned(pc) ==> (x in ext <==> x in ext') && (x in ext ==> ext'[x] == ext[x])
    requires pc.Chosen? && pc.x in ext ==> pc.x in ext' && ext'[pc.x] == ext[pc.x]
    requires pc.Found? && pc.e in ext ==> At(leaf', Beside(ext[pc.e], pc.forward)) == At(leaf, Beside(ext[pc.e], pc.forward))
    requires pc.Writing? ==> forall p :: InJob(pc.job, p) ==> At(leaf', p) == At(leaf, p)
    ensures Local(ext', leaf', pc)
  {
    if pc.Writing? {
      forall p | InJob(pc.job, p) ensures PendingAt(leaf', pc.job, pc.i, p) {
        assert PendingAt(leaf, pc.job, pc.i, p);
        RestFrame(leaf, leaf', pc.job, pc.i, p);
      }
    }
  }

  lemma {:induction false} RestFrame(leaf: map<int, nat>, leaf': map<int, nat>, job: Job, i: nat, p: int)
    requires At(leaf', p) == At(leaf, p)
    ensures At(Rest(leaf', job, i), p) == At(Rest(leaf, job, i), p)
    decreases STEPS - i
  {
    if i < STEPS {
      RestFrame(Written(leaf, WriteAt(job, i)), Written(leaf', WriteAt(job, i)), job, i + 1, p);
    }
  }

  /** A step changes only extents that the thread owns, or that are in the set whose mutex it holds. */
  lemma Reach(w: World, t: nat, act: Action, x: nat)
    requires Inv(w) && t in w.pc && Enabled(w, t, act)
    requires x !in Owned(w.pc[t]) && (x in w.ext && w.ext[x].state.In? ==> Mutex(w.pc[t]) != Some(w.ext[x].state.k))
    ensures var ext' := ExtAfter(w, t, act); (x in w.ext <==> x in ext') && (x in w.ext ==> ext'[x] == w.ext[x])
  {
    hide Disjoint, OwnersOk, Exclusive, Agrees, SlotFree, MutexFree, WriteAt;
    InHand(w, t);
  }

  /** What one thread works on, no other does, and it is in no set. */
  lemma OneOwner(w: World, t: nat, u: nat, x: nat)
    requires Inv(w) && t in w.pc && u in w.pc && u != t && x in Owned(w.pc[u])
    ensures x !in Owned(w.pc[t]) && x in w.owner && w.owner[x] != User && (x in w.ext ==> w.ext[x].state == Active)
  {
    hide Disjoint, Exclusive, Agrees, AllLocal, Owned;
  }

  lemma OthersReach(w: World, t: nat, act: Action, u: nat)
    requires Inv(w) && t in w.pc && u in w.pc && u != t && Enabled(w, t, act)
    ensures var ext', pc := ExtAfter(w, t, act), w.pc[u];
      && (forall x :: x in Owned(pc) ==> (x in w.ext <==> x in ext') && (x in w.ext ==> ext'[x] == w.ext[x]))
      && (pc.Chosen? && pc.x in w.ext ==> pc.x in ext' && ext'[pc.x] == w.ext[pc.x])
  {
    hide Disjoint, Agrees, Enabled, ExtAfter, Owned, AllLocal, Mutex;
    forall x | x in Owned(w.pc[u])
      ensures (x in w.ext <==> x in ExtAfter(w, t, act)) && (x in w.ext ==> ExtAfter(w, t, act)[x] == w.ext[x])
    {
      OneOwner(w, t, u, x);
      Reach(w, t, act, x);
    }
    if w.pc[u].Chosen? {
      ChosenApart(w, t, u);
      Reach(w, t, act, w.pc[u].x);
    }
  }

  lemma ChosenApart(w: World, t: nat, u: nat)
    requires Inv(w) && t in w.pc && u in w.pc && u != t && w.pc[u].Chosen?
    ensures var x := w.pc[u].x; x in w.ext && x !in Owned(w.pc[t]) && w.ext[x].state.In? && Mutex(w.pc[t]) != Some(w.ext[x].state.k)
  {
    hide Disjoint, Agrees, Owned;
    assert Local(w.ext, w.leaf, w.pc[u]);
  }

  lemma JobsApart(w: World, t: nat, u: nat, p: int)
    requires Inv(w) && t in w.pc && u in w.pc && u != t && w.pc[t].Writing? && w.pc[u].Writing? && InJob(w.pc[u].job, p)
    ensures !InJob(w.pc[t].job, p)
  {
    hide Disjoint, Exclusive, Agrees;
    assert Local(w.ext, w.leaf, w.pc[t]) && Local(w.ext, w.leaf, w.pc[u]);
    var job := w.pc[u].job;
    assert job.a in Owned(w.pc[u]) && job.b in Owned(w.pc[u]) && job.a !in Owned(w.pc[t]) && job.b !in Owned(w.pc[t]);
    if InRange(w.ext[job.a], p) {
      JobApart(w.ext, w.pc[t].job, w.pc[t].i, job.a, p);
    } else {
      JobApart(w.ext, w.pc[t].job, w.pc[t].i, job.b, p);
    }
  }

  lemma FoundApart(w: World, t: nat, u: nat, p: int)
    requires Inv(w) && t in w.pc && u in w.pc && w.pc[t].Writing? && w.pc[u].Found? && At(w.leaf, p) == Some(w.pc[u].x)
    ensures !InJob(w.pc[t].job, p)
  {
    hide Disjoint, OwnersOk, Exclusive, Agrees, AllLocal;
    NotWritten(w, u);
    if InJob(w.pc[t].job, p) {
      JobShows(w, t, p);
    }
  }

  lemma OthersLocal(w: World, t: nat, act: Action, u: nat)
    requires Inv(w) && t in w.pc && u in w.pc && u != t && Enabled(w, t, act)
    ensures Local(ExtAfter(w, t, act), LeafAfter(w, t, act), w.pc[u])
  {
    hide Disjoint, OwnersOk, Exclusive, Agrees, Enabled, ExtAfter, Written, WriteAt, Owned, Fits, Pending;
    var ext', leaf', pc := ExtAfter(w, t, act), LeafAfter(w, t, act), w.pc[u];
    assert Local(w.ext, w.leaf, pc);
    OthersReach(w, t, act, u);
    if act == Advance {
      IsWriting(w, t);
      assert Local(w.ext, w.leaf, w.pc[t]);
      var job := w.pc[t].job;
      JobAdvances(w.leaf, job, w.pc[t].i);
      if pc.Found? {
        FoundApart(w, t, u, Beside(w.ext[pc.e], pc.forward));
      }
      if pc.Writing? {
        forall p | InJob(pc.job, p) ensures At(leaf', p) == At(w.leaf, p) {
          JobsApart(w, t, u, p);
        }
      }
    }
    LocalFrame(w.ext, w.leaf, ext', leaf', pc);
  }

  lemma IsWriting(w: World, t: nat)
    requires t in w.pc && Enabled(w, t, Advance)
    ensures w.pc[t].Writing? && w.pc[t].i < STEPS
  {
  }

  /** What the thread itself relies on after its step. */
  lemma OwnLocal(w: World, t: nat, act: Action)
    requires Inv(w) && t in w.pc && Enabled(w, t, act)
    ensures Local(ExtAfter(w, t, act), LeafAfter(w, t, act), PcAfter(w, t, act))
  {
    hide Inv, Enabled, Local, ExtAfter, LeafAfter, PcAfter;
    if Takes(act) {
      TakesLocal(w, t, act);
    } else {
      StaysLocal(w, t, act);
    }
  }

  lemma TakesLocal(w: World, t: nat, act: Action)
    requires Inv(w) && t in w.pc && Enabled(w, t, act) && Takes(act)
    ensures Local(ExtAfter(w, t, act), LeafAfter(w, t, act), PcAfter(w, t, act))
  {
    hide Inv, SlotFree, MutexFree, Fits, MergeJob, SplitJob;
    match act
    case Free(e, _) => FreeHas(w, e);
    case TakePart(x, n, b) => TakeStarts(w, t, x, n, b);
    case Activate => MergeStarts(w, t);
    case _ =>
  }

  lemma StaysLocal(w: World, t: nat, act: Action)
    requires Inv(w) && t in w.pc && Enabled(w, t, act) && !Takes(act)
    ensures Local(ExtAfter(w, t, act), LeafAfter(w, t, act), PcAfter(w, t, act))
  {
    hide Disjoint, OwnersOk, Exclusive, Agrees, Pending, SlotFree, MutexFree, WriteAt, Written, Fits;
    assert Local(w.ext, w.leaf, w.pc[t]);
    match act
    case Judge => FoundTouches(w, t);
    case Acquire => LocksMet(w, t);
    case Advance => JobAdvances(w.leaf, w.pc[t].job, w.pc[t].i); AdvanceFits(w, t);
    case Release => ReleaseLeaves(w, t);
    case _ =>
  }

  lemma FreeHas(w: World, e: nat)
    requires Inv(w) && e in w.owner && w.owner[e] == User
    ensures e in w.ext
  {
  }

  lemma TakeStarts(w: World, t: nat, x: nat, n: nat, b: nat)
    requires Inv(w) && t in w.pc && Enabled(w, t, TakePart(x, n, b))
    ensures var job := SplitJob(w, x, n, b); JobOk(job) && Fits(ExtAfter(w, t, TakePart(x, n, b)), job, 0)
  {
    hide Disjoint, Exclusive, Agrees, AllLocal;
  }

  lemma ChosenFacts(w: World, t: nat)
    requires Inv(w) && t in w.pc && w.pc[t].Chosen?
    ensures var Chosen(e, k, forward, x) := w.pc[t];
      && e in w.ext && x in w.ext && w.ext[e].state == Active && w.ext[x].state == In(k) && Touches(w.ext[e], w.ext[x], forward)
      && w.ext[e].size > 0 && w.ext[x].size > 0
  {
    hide Exclusive, Agrees;
    assert Local(w.ext, w.leaf, w.pc[t]) && w.pc[t].e in Owned(w.pc[t]);
  }

  lemma MergeStarts(w: World, t: nat)
    requires Inv(w) && t in w.pc && Enabled(w, t, Activate)
    ensures var pc := w.pc[t]; var job := MergeJob(w, pc.e, pc.x, pc.forward);
            JobOk(job) && Fits(ExtAfter(w, t, Activate), job, 0)
  {
    hide Inv;
    ChosenFacts(w, t);
  }

  /** The map shows every extent in hand that is not being written. */
  lemma ShownInHand(w: World, t: nat, x: nat)
    requires Inv(w) && t in w.pc && !w.pc[t].Writing? && x in Owned(w.pc[t]) && x in w.ext
    ensures Shows(w.leaf, x, w.ext[x])
  {
    hide Exclusive, Disjoint, Shows, AllLocal, Owned;
  }

  lemma LocksMet(w: World, t: nat)
    requires Inv(w) && t in w.pc && w.pc[t].Meeting?
    ensures Pending(w.leaf, w.pc[t].job, 0)
  {
    hide Exclusive, Disjoint, Agrees, OwnersOk, Pending, Shows;
    var job := w.pc[t].job;
    assert Local(w.ext, w.leaf, w.pc[t]);
    ShownInHand(w, t, job.a);
    if job.b in w.ext {
      ShownInHand(w, t, job.b);
    }
    JobStarts(w.ext, w.leaf, job);
  }

  lemma AdvanceFits(w: World, t: nat)
    requires Inv(w) && t in w.pc && Enabled(w, t, Advance)
    ensures JobOk(w.pc[t].job) && Fits(ExtAfter(w, t, Advance), w.pc[t].job, w.pc[t].i + 1)
  {
    hide Exclusive, Disjoint, Pending, Agrees, OwnersOk;
    assert Local(w.ext, w.leaf, w.pc[t]);
  }

  lemma ReleaseLeaves(w: World, t: nat)
    requires Inv(w) && t in w.pc && Enabled(w, t, Release)
    ensures Local(w.ext, w.leaf, PcAfter(w, t, Release))
  {
    hide Exclusive, Disjoint, Pending, Agrees, OwnersOk;
    assert Local(w.ext, w.leaf, w.pc[t]);
  }

  // ---------------------------------------------------------------------------------------
  // Runs
  // ---------------------------------------------------------------------------------------

  /** Every step of every thread keeps the invariant, and no page is lost or gained. */
  lemma StepKeeps(w: World, t: nat, act: Action)
    requires Inv(w) && t in w.pc && Enabled(w, t, act)
    ensures Inv(After(w, t, act)) && SameCover(w.ext, After(w, t, act).ext)
  {
    hide Disjoint, OwnersOk, Exclusive, Agrees, Local, Enabled, ExtAfter, OwnerAfter, HeapAfter, PcAfter, LeafAfter, SameCover;
    ExclusiveKept(w, t, act);
    OwnersKept(w, t, act);
    ShapeKept(w, t, act);
    AgreesKept(w, t, act);
    OwnLocal(w, t, act);
    forall u | u in w.pc && u != t ensures Local(ExtAfter(w, t, act), LeafAfter(w, t, act), w.pc[u]) {
      OthersLocal(w, t, act, u);
    }
  }

  datatype Event = Event(t: nat, act: Action)

  /** v can be reached from w by the events of the run. */
  ghost predicate Reaches(w: World, run: seq<Event>, v: World)
    decreases |run|
  {
    if run == [] then v == w
    else run[0].t in w.pc && Enabled(w, run[0].t, run[0].act) && Reaches(After(w, run[0].t, run[0].act), run[1..], v)
  }

  lemma {:induction false} RunKeeps(w: World, run: seq<Event>, v: World)
    requires Inv(w) && Reaches(w, run, v)
    ensures Inv(v) && SameCover(w.ext, v.ext)
    decreases |run|
  {
    hide Inv, After;
    if run != [] {
      StepKeeps(w, run[0].t, run[0].act);
      RunKeeps(After(w, run[0].t, run[0].act), run[1..], v);
    }
  }

  // ---------------------------------------------------------------------------------------
  // What the invariant gives
  // ---------------------------------------------------------------------------------------

  /** All threads idle, every extent in use in the user's hands, and the map in agreement. */
  ghost predicate Start(w: World) {
    && Disjoint(w.ext)
    && (forall t :: t in w.pc ==> w.pc[t] == Idle)
    && (forall x :: x in w.ext ==> x in w.heap && Shows(w.leaf, x, w.ext[x]))
    && (forall x :: x in w.owner <==> x in w.ext && w.ext[x].state == Active)
    && (forall x :: x in w.owner ==> w.owner[x] == User)
    && (forall p :: p in w.leaf ==> Covered(w.ext, p))
  }

  lemma StartsWell(w: World)
    requires Start(w)
    ensures Inv(w)
  {
  }

  /** Every extent in use belongs to the user or to exactly one thread; every other is in a set. */
  lemma EachHasOneOwner(w: World, x: nat)
    requires Inv(w) && x in w.ext
    ensures w.ext[x].state == Active <==> x in w.owner
    ensures forall t, u :: t in w.pc && u in w.pc && x in Owned(w.pc[t]) && x in Owned(w.pc[u]) ==> t == u
    ensures w.ext[x].state == Active ==> (w.owner[x] == User <==> forall t :: t in w.pc ==> x !in Owned(w.pc[t]))
  {
    hide Disjoint, Exclusive, Agrees, AllLocal, Owned;
  }

  /** Only two extents in use that the merging thread owns, one right behind the other, are merged, and
      nobody else holds their locks. */
  lemma MergesItsOwn(w: World, t: nat)
    requires Inv(w) && t in w.pc && w.pc[t].Writing? && w.pc[t].job.merging && w.pc[t].i <= 2
    ensures var job := w.pc[t].job;
      && job.a in w.ext && job.b in w.ext && w.ext[job.a].state == w.ext[job.b].state == Active
      && Touches(w.ext[job.a], w.ext[job.b], true)
      && job.a in w.owner && job.b in w.owner && w.owner[job.a] == w.owner[job.b] == Thread(t)
      && forall u :: u in w.pc && u != t ==> Slot(w.hash, job.a) !in Slots(w.hash, w.pc[u]) && Slot(w.hash, job.b) !in Slots(w.hash, w.pc[u])
  {
    hide Disjoint, Agrees, Pending, Exclusive, Slots, Slot;
    assert Local(w.ext, w.leaf, w.pc[t]);
    assert w.pc[t].job.a in Owned(w.pc[t]) && w.pc[t].job.b in Owned(w.pc[t]);
    LocksAreOwn(w, t);
  }

  lemma LocksAreOwn(w: World, t: nat)
    requires Inv(w) && t in w.pc && w.pc[t].Writing?
    ensures forall u :: u in w.pc && u != t ==>
              Slot(w.hash, w.pc[t].job.a) !in Slots(w.hash, w.pc[u]) && Slot(w.hash, w.pc[t].job.b) !in Slots(w.hash, w.pc[u])
  {
    hide Disjoint, OwnersOk, Agrees, AllLocal, Slot;
    assert Slot(w.hash, w.pc[t].job.a) in Slots(w.hash, w.pc[t]) && Slot(w.hash, w.pc[t].job.b) in Slots(w.hash, w.pc[t]);
  }

  /** Between merges and splits the map shows each extent at its two ends and nothing else. */
  lemma AgreesWhenQuiet(w: World, p: int)
    requires Inv(w) && forall t :: t in w.pc ==> !w.pc[t].Writing?
    ensures At(w.leaf, p) == None <==> forall x :: x in w.ext ==> !(InRange(w.ext[x], p) && IsEnd(w.ext[x], p))
    ensures forall x :: x in w.ext && InRange(w.ext[x], p) && IsEnd(w.ext[x], p) ==> At(w.leaf, p) == Some(x)
  {
    hide Disjoint, Exclusive, AllLocal, OwnersOk;
    assert forall x :: x in w.ext ==> !Busy(w.owner, w.pc, x);
    forall x | x in w.ext && InRange(w.ext[x], p) && IsEnd(w.ext[x], p) ensures At(w.leaf, p) == Some(x) {
      assert Shows(w.leaf, x, w.ext[x]);
    }
    if p in w.leaf {
      var x :| x in w.ext && InRange(w.ext[x], p);
      assert Shows(w.leaf, x, w.ext[x]);
    }
  }

  // ---------------------------------------------------------------------------------------
  // No deadlock
  // ---------------------------------------------------------------------------------------

  predicate Moves(w: World, e: Event) {
    e.t in w.pc && w.pc[e.t] != Idle && e.act != GiveUp && Enabled(w, e.t, e.act)
  }

  lemma HasBoth(w: World, t: nat) returns (e: Event)
    requires Inv(w) && t in w.pc && (w.pc[t].Locked? || w.pc[t].Found? || w.pc[t].Writing?)
    ensures Moves(w, e)
  {
    hide Disjoint, OwnersOk, Agrees, Exclusive, Fits, Pending, SlotFree, MutexFree;
    assert Local(w.ext, w.leaf, w.pc[t]);
    match w.pc[t]
    case Locked(_, _, _, _) => return Event(t, Recheck);
    case Found(_, _, _, _) => FoundTouches(w, t); return Event(t, Judge);
    case Writing(_, _, i) => return Event(t, if i < STEPS then Advance else Release);
  }

  /** Threads that hold an extent's lock never wait for a mutex, and wait for higher locks only. */
  lemma {:induction false} HolderMoves(w: World, t: nat, s: nat) returns (e: Event)
    requires Inv(w) && t in w.pc && s in Slots(w.hash, w.pc[t])
    ensures Moves(w, e)
    decreases MUTEX_POOL_SIZE - s
  {
    hide Disjoint, OwnersOk, Agrees, AllLocal;
    if w.pc[t].Meeting? {
      var s' := Wanted(w.hash, w.pc[t].job, true);
      if SlotFree(w, s') {
        return Event(t, Acquire);
      }
      var u :| u in w.pc && s' in Slots(w.hash, w.pc[u]);
      e := HolderMoves(w, u, s');
    } else {
      e := HasBoth(w, t);
    }
  }

  lemma MutexHolderMoves(w: World, t: nat) returns (e: Event)
    requires Inv(w) && t in w.pc && Mutex(w.pc[t]).Some?
    ensures Moves(w, e)
  {
    hide Disjoint, OwnersOk, Agrees, Exclusive;
    assert Local(w.ext, w.leaf, w.pc[t]);
    match w.pc[t]
    case Picking(_) => return Event(t, Leave);
    case Holding(_, _) => return Event(t, Deactivate);
    case Chosen(_, _, _, _) => return Event(t, Activate);
    case Seen(_, _, _, x) =>
      var s := Slot(w.hash, x);
      if SlotFree(w, s) {
        return Event(t, Lock);
      }
      var u :| u in w.pc && s in Slots(w.hash, w.pc[u]);
      e := HolderMoves(w, u, s);
    case Locked(_, _, _, x) => e := HolderMoves(w, t, Slot(w.hash, x));
    case Found(_, _, _, x) => e := HolderMoves(w, t, Slot(w.hash, x));
  }

  /** As long as a thread is busy, some thread that is busy can go on. */
  lemma NoDeadlock(w: World, t: nat) returns (e: Event)
    requires Inv(w) && t in w.pc && w.pc[t] != Idle
    ensures Moves(w, e)
  {
    hide Disjoint, OwnersOk, Agrees, Exclusive, AllLocal;
    match w.pc[t]
    case Waiting(_, k) =>
      if MutexFree(w, k) {
        return Event(t, Enter);
      }
      var u :| u in w.pc && Mutex(w.pc[u]) == Some(k);
      e := MutexHolderMoves(w, u);
    case Meeting(job, _, half) =>
      var s := Wanted(w.hash, job, half);
      if SlotFree(w, s) {
        return Event(t, Acquire);
      }
      var u :| u in w.pc && s in Slots(w.hash, w.pc[u]);
      e := HolderMoves(w, u, s);
    case Writing(job, _, _) => e := HolderMoves(w, t, Slot(w.hash, job.a));
    case Parting(_, _, _) => return Event(t, Dalloc);
    case _ => e := MutexHolderMoves(w, t);
  }
}
