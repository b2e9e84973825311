/**
 The vendor publication protocol as a transition system.

 Any number of readers (`check_at`) and publishers (`provision_with` around
 `Publication::commit`) share one `.kvist` directory. Each step is one atomic
 filesystem action; after every step another process may run. A step may
 succeed, fail without effect, take effect and still report an error (a rename
 followed by a failing directory sync), or be the last one before a kill.
 */
module VendorProtocol {
  import opened Options

  type Pid = nat

  // File contents, known only up to equality.
  type Text = nat

  // A vendor directory is known by its inode; a control file by its identity
  // and bytes. Every directory made and every atomic replacement has a new id.
  datatype Tree = Tree(id: nat, content: Text)
  datatype Control = Control(id: nat, bytes: Text)

  /**
   A lockfile as a process has read it: its digest, whether it needs packages
   from outside, which resolver texts parse and bind them, and which trees hold
   them all.
   */
  datatype Graph = Graph(digest: Text, external: bool, binds: Text -> bool, covers: Text -> bool)

  /** The three published things: the tree, its resolver and its receipt. */
  datatype Public = Public(tree: Option<Tree>, resolver: Option<Control>, receipt: Option<Control>)

  function Bytes(c: Option<Control>): Option<Text> {
    match c
    case None => None
    case Some(control) => Some(control.bytes)
  }

  // ---------- Readers ----------

  /** Why a check refused: an operating-system error or cancellation, a running operation, or what it found. */
  datatype Refusal = Io | Busy | Found

  datatype ReadPhase =
    | ReadBegin | FenceSeenClear | WriterSeenAbsent | ReceiptMissing | ResolverMissing
    | ReceiptSeen | ResolverSeen | TreeOpened | TreeLocked | Leased | Catalogued
    | FenceClearAgain | WriterAbsentAgain | ReceiptConfirmed
    | Accepted | AcceptedUnmanaged | Refused(why: Refusal)

  // ---------- Publishers ----------

  /** What a publisher's return value says. `Kept` is `Error::Publication`. */
  datatype Outcome = Success | Reused | Plain | Kept

  /** Before anything is written. `Looking` waits for the check that runs as process `child`. */
  datatype Preface = Arriving | FenceAbsent | WriterAbsent | Looking(child: Pid) | Clearing | Locking

  datatype PublishPhase =
    | Before(step: Preface)
    | Holding | Relooking(child: Pid) | Looked | PrevOpened | PrevTaken | Settled | Staged | ConfigSaved | ManifestSaved
    | Fenced | Moved | Published | ResolverWritten | ReceiptWritten | Unfenced
    | BackingOut | BackedOut | Refencing
    | Returning(outcome: Outcome) | Released(outcome: Outcome) | Gone(outcome: Outcome)

  /** The private stage directory of one publisher. */
  datatype Stage = Stage(vendor: Option<Tree>, oldVendor: Option<Tree>,
                         oldConfig: Option<Text>, oldManifest: Option<Text>)

  const EMPTY_STAGE := Stage(None, None, None, None)

  datatype Reader = Reader(graph: Graph, refuseWriter: bool, reading: ReadPhase, seen: Public)

  /** `config` and `content` are what this publisher would publish: the retargeted resolver, and the acquired tree. */
  datatype Publisher = Publisher(graph: Graph, force: bool, config: Text, content: Text, alive: bool, at: PublishPhase,
                                 op: Option<nat>, before: Public, prev: Option<Tree>, candidate: Option<Tree>,
                                 resolver: Option<Control>, receipt: Option<Control>,
                                 stage: Stage, moved: bool, published: bool)

  datatype Process = Reading(reader: Reader) | Publishing(publisher: Publisher)

  /**
   The shared directory. `op` is the operation lock file, `fence` the recovery
   fence, `next` the next unused identity. `done` is history: every triple that
   was installed together, and the one found at the start.
   */
  datatype Disk = Disk(public: Public, fence: bool, op: Option<nat>, next: nat, done: set<Public>)

  datatype State = State(disk: Disk, procs: map<Pid, Process>)

  /** What one step leaves: the directory and the process that took it. */
  datatype Effect = Effect(disk: Disk, publisher: Publisher)

  /** `Stale`: a check finds the lockfile changed. `Look`: a publisher starts a check of its own. */
  datatype Action = Spawn(process: Process) | Advance | Fail | FailAfter | Stale | Look(child: Pid) | Kill

  // ---------- Advisory locks: who holds what is read off the phases ----------

  predicate Leasing(r: Reader) {
    r.reading.TreeLocked? || Verified(r)
  }

  // The lease was confirmed to name the directory at the public path.
  predicate Verified(r: Reader) {
    r.reading.Leased? || r.reading.Catalogued? || r.reading.FenceClearAgain?
    || r.reading.WriterAbsentAgain? || r.reading.ReceiptConfirmed?
  }

  predicate Shares(p: Process, t: Tree) {
    p.Reading? && Leasing(p.reader) && p.reader.seen.tree == Some(t)
  }

  predicate Locks(p: Publisher, t: Tree) {
    && p.alive
    && ((HoldsPrevious(p.at) && p.prev == Some(t)) || (HoldsCandidate(p.at) && p.candidate == Some(t)))
  }

  predicate Excludes(p: Process, t: Tree) {
    p.Publishing? && Locks(p.publisher, t)
  }

  predicate HoldsPrevious(at: PublishPhase) {
    at.PrevTaken? || at.Settled? || HoldsCandidate(at)
  }

  predicate HoldsCandidate(at: PublishPhase) {
    at.Staged? || at.ConfigSaved? || at.ManifestSaved? || Committing(at) || at.Returning?
  }

  predicate Committing(at: PublishPhase) {
    at.Fenced? || at.Moved? || at.Published? || at.ResolverWritten? || at.ReceiptWritten?
    || at.Unfenced? || at.BackingOut? || at.BackedOut? || at.Refencing?
  }

  predicate HoldsOperation(at: PublishPhase) {
    at.Holding? || at.Relooking? || at.Looked? || at.PrevOpened? || HoldsPrevious(at) || at.Released?
  }

  predicate Unlocked(s: State, t: Tree) {
    forall q :: q in s.procs ==> !Shares(s.procs[q], t) && !Excludes(s.procs[q], t)
  }

  predicate Unexcluded(s: State, t: Tree) {
    forall q :: q in s.procs ==> !Excludes(s.procs[q], t)
  }

  // ---------- Steps ----------

  function SameIdentity(a: Option<Control>, b: Option<Control>): bool {
    a.Some? && b.Some? && a.value.id == b.value.id
  }

  function Refuse(r: Reader, why: Refusal): Reader { r.(reading := Refused(why)) }

  function ReadReceipt(d: Disk, r: Reader): Reader
  {
    if d.public.receipt.Some? && d.public.receipt.value.bytes == r.graph.digest
    then r.(reading := ReceiptSeen, seen := r.seen.(receipt := d.public.receipt))
    else Refuse(r, Found)
  }

  function ReadResolver(d: Disk, r: Reader): Reader
  {
    if d.public.resolver.Some? && r.graph.binds(d.public.resolver.value.bytes)
    then r.(reading := ResolverSeen, seen := r.seen.(resolver := d.public.resolver))
    else Refuse(r, Found)
  }

  predicate InControls(reading: ReadPhase) {
    reading.ReadBegin? || reading.FenceSeenClear? || reading.WriterSeenAbsent? || reading.ReceiptMissing?
    || reading.ResolverMissing? || reading.ReceiptSeen? || reading.ResolverSeen?
  }

  /** `inspect_controls`, then opening the tree. A check that fails refuses. */
  function ControlNext(d: Disk, r: Reader): Reader
    requires InControls(r.reading)
  {
    match r.reading
    case ReadBegin => if d.fence then Refuse(r, Found) else r.(reading := FenceSeenClear)
    case FenceSeenClear => if r.refuseWriter && d.op.Some? then Refuse(r, Busy) else r.(reading := WriterSeenAbsent)
    case WriterSeenAbsent =>
      if d.public.receipt.None? then r.(reading := ReceiptMissing) else ReadReceipt(d, r)
    case ReceiptMissing =>
      if d.public.resolver.None? then r.(reading := ResolverMissing) else ReadReceipt(d, r)
    case ResolverMissing =>
      if d.public.tree.Some? then ReadReceipt(d, r)
      else if r.graph.external then Refuse(r, Found) else r.(reading := AcceptedUnmanaged)
    case ReceiptSeen => ReadResolver(d, r)
    case ResolverSeen =>
      if d.public.tree.None? then Refuse(r, Found)
      else r.(reading := TreeOpened, seen := r.seen.(tree := d.public.tree))
  }

  /** `read_lease`, `catalogue` and `confirm_controls`. */
  function LeaseNext(s: State, r: Reader): Option<Reader>
    requires !InControls(r.reading)
  {
    var d, tree := s.disk, r.seen.tree;
    match r.reading
    case TreeOpened =>
      Some(if tree.Some? && Unexcluded(s, tree.value) then r.(reading := TreeLocked) else Refuse(r, Found))
    case TreeLocked => Some(if tree.Some? && d.public.tree == tree then r.(reading := Leased) else Refuse(r, Found))
    case Leased =>
      Some(if d.public.tree == tree && tree.Some? && r.graph.covers(tree.value.content) then r.(reading := Catalogued)
           else Refuse(r, Found))
    case Catalogued => Some(if d.fence then Refuse(r, Found) else r.(reading := FenceClearAgain))
    case FenceClearAgain =>
      Some(if r.refuseWriter && d.op.Some? then Refuse(r, Busy) else r.(reading := WriterAbsentAgain))
    case WriterAbsentAgain =>
      Some(if SameIdentity(d.public.receipt, r.seen.receipt) then r.(reading := ReceiptConfirmed) else Refuse(r, Found))
    case ReceiptConfirmed =>
      Some(if SameIdentity(d.public.resolver, r.seen.resolver) then r.(reading := Accepted) else Refuse(r, Found))
    case _ => None
  }

  predicate Ended(reading: ReadPhase) { reading.Accepted? || reading.AcceptedUnmanaged? || reading.Refused? }

  /** A reader that fails or is killed leaves nothing behind. */
  function ReaderStep(s: State, r: Reader, a: Action): Option<Reader>
  {
    match a
    case Advance => if InControls(r.reading) then Some(ControlNext(s.disk, r)) else LeaseNext(s, r)
    case Fail => if Ended(r.reading) then None else Some(Refuse(r, Io))
    case Stale => if Ended(r.reading) then None else Some(Refuse(r, Found))
    case _ => None
  }

  function MoveOld(d: Disk, p: Publisher, at: PublishPhase): Effect
  {
    if d.public.tree.None? then Effect(d, p.(at := at))
    else Effect(d.(public := d.public.(tree := None)),
                p.(at := at, moved := true, stage := p.stage.(oldVendor := d.public.tree)))
  }

  function PublishTree(d: Disk, p: Publisher, at: PublishPhase): Effect
  {
    Effect(d.(public := d.public.(tree := p.stage.vendor)),
           p.(at := at, published := true, stage := p.stage.(vendor := None)))
  }

  function WriteResolver(d: Disk, p: Publisher, at: PublishPhase): Effect
  {
    var control := Some(Control(d.next, p.config));
    Effect(d.(public := d.public.(resolver := control), next := d.next + 1),
           p.(at := at, resolver := control))
  }

  function WriteReceipt(d: Disk, p: Publisher, at: PublishPhase): Effect
  {
    var control := Some(Control(d.next, p.graph.digest));
    var public := d.public.(receipt := control);
    Effect(d.(public := public, next := d.next + 1, done := d.done + {public}),
           p.(at := at, receipt := control))
  }

  function TakeOperation(d: Disk, p: Publisher, at: PublishPhase): Effect
  {
    Effect(d.(op := Some(d.next), next := d.next + 1),
           p.(at := at, op := Some(d.next), before := d.public))
  }

  /** Where a publisher's own check has come to. */
  function Looks(s: State, child: Pid): Option<ReadPhase> {
    if child in s.procs && s.procs[child].Reading? && Ended(s.procs[child].reader.reading)
    then Some(s.procs[child].reader.reading)
    else None
  }

  /** A publisher looks for something to reuse where there is a receipt, unless it is forced not to. */
  predicate MayReuse(d: Disk, p: Publisher) { d.public.receipt.Some? && !p.force }

  /** The way to the operation lock; nothing is written before the last step. */
  function PrefaceNext(s: State, p: Publisher): Option<Effect>
    requires p.at.Before?
  {
    var d := s.disk;
    var gone := Effect(d, p.(at := Gone(Plain)));
    match p.at.step
    case Arriving => Some(if d.fence then gone else Effect(d, p.(at := Before(FenceAbsent))))
    case FenceAbsent => Some(if d.op.Some? then gone else Effect(d, p.(at := Before(WriterAbsent))))
    case WriterAbsent => if MayReuse(d, p) then None else Some(Effect(d, p.(at := Before(Clearing))))
    case Looking(child) =>
      (match Looks(s, child)
       case None => None
       case Some(Refused(Found)) => Some(Effect(d, p.(at := Before(Clearing))))
       case Some(Refused(_)) => Some(gone)
       case Some(_) => Some(Effect(d, p.(at := Gone(Reused)))))
    case Clearing => Some(if d.fence then gone else Effect(d, p.(at := Before(Locking))))
    case Locking => Some(if d.op.Some? then gone else TakeOperation(d, p, Holding))
  }

  /** Under the operation lock, a check that does not accept leads on to a new tree. */
  function RelookNext(s: State, p: Publisher): Option<Effect>
    requires p.at.Relooking?
  {
    match Looks(s, p.at.child)
    case None => None
    case Some(Refused(_)) => Some(Effect(s.disk, p.(at := Looked)))
    case Some(_) => Some(Effect(s.disk, p.(at := Released(Reused))))
  }

  /** A tree is staged only if its resolver binds and it holds every package. */
  function StageTree(d: Disk, p: Publisher): Effect
  {
    if p.graph.binds(p.config) && p.graph.covers(p.content) then
      var built := Some(Tree(d.next, p.content));
      Effect(d.(next := d.next + 1), p.(at := Staged, candidate := built, stage := p.stage.(vendor := built)))
    else Effect(d, p.(at := Returning(Plain)))
  }

  predicate Scouting(at: PublishPhase) { at.Holding? || at.Relooking? || at.Looked? }

  predicate Preparing(at: PublishPhase) {
    at.PrevOpened? || at.PrevTaken? || at.Settled? || at.Staged? || at.ConfigSaved? || at.ManifestSaved?
  }

  predicate Swapping(at: PublishPhase) { at.Fenced? || at.Moved? || at.Published? || at.ResolverWritten? }

  function LookNext(s: State, p: Publisher): Option<Effect>
    requires Scouting(p.at)
  {
    var d := s.disk;
    match p.at
    case Holding => if MayReuse(d, p) then None else Some(Effect(d, p.(at := Looked)))
    case Relooking(_) => RelookNext(s, p)
    case Looked =>
      Some(Effect(d, if d.public.tree.None? then p.(at := Settled)
                     else p.(at := PrevOpened, prev := d.public.tree)))
  }

  /** Up to the recovery fence. */
  function PrepareNext(s: State, p: Publisher): Effect
    requires Preparing(p.at)
  {
    var d := s.disk;
    match p.at
    case PrevOpened =>
      Effect(d, if p.prev.Some? && Unlocked(s, p.prev.value) then p.(at := PrevTaken)
                else p.(at := Released(Plain)))
    case PrevTaken => Effect(d, if d.public.tree == p.prev then p.(at := Settled) else p.(at := Returning(Plain)))
    case Settled => StageTree(d, p)
    case Staged => Effect(d, p.(at := ConfigSaved, stage := p.stage.(oldConfig := Bytes(d.public.resolver))))
    case ConfigSaved => Effect(d, p.(at := ManifestSaved, stage := p.stage.(oldManifest := Bytes(d.public.receipt))))
    case ManifestSaved =>
      if d.fence then Effect(d, p.(at := Returning(Plain))) else Effect(d.(fence := true), p.(at := Fenced))
  }

  /** Both renames and both control files. */
  function SwapNext(d: Disk, p: Publisher): Option<Effect>
    requires Swapping(p.at)
  {
    match p.at
    case Fenced => Some(MoveOld(d, p, Moved))
    case Moved => if d.public.tree.Some? then None else Some(PublishTree(d, p, Published))
    case Published => Some(WriteResolver(d, p, ResolverWritten))
    case ResolverWritten => Some(WriteReceipt(d, p, ReceiptWritten))
  }

  /** The fence, and what is given up at the end. */
  function CloseNext(d: Disk, p: Publisher): Option<Effect>
  {
    match p.at
    case ReceiptWritten => Some(Effect(d.(fence := false), p.(at := Unfenced)))
    case Unfenced => Some(Effect(d, p.(at := Returning(Success))))
    case BackingOut => Some(Effect(d.(fence := false), p.(at := BackedOut)))
    case BackedOut => Some(Effect(d, p.(at := Returning(Plain))))
    case Refencing => Some(Effect(d.(fence := true), p.(at := Returning(Kept))))
    case Returning(o) =>
      // Directory locks close; the stage is deleted unless it was kept.
      Some(Effect(d, p.(at := Released(o), stage := if o.Kept? then p.stage else EMPTY_STAGE)))
    case Released(o) =>
      Some(Effect(d.(op := if d.op == p.op then None else d.op), p.(at := Gone(o))))
    case _ => None
  }

  /** The success path of `provision_with` and `commit`, one filesystem action at a time. */
  function PublishNext(s: State, p: Publisher): Option<Effect>
  {
    if p.at.Before? then PrefaceNext(s, p)
    else if Scouting(p.at) then LookNext(s, p)
    else if Preparing(p.at) then Some(PrepareNext(s, p))
    else if Swapping(p.at) then SwapNext(s.disk, p)
    else CloseNext(s.disk, p)
  }

  /** Where `provision_with` and `commit` go when the next action fails without effect. */
  function AfterFailure(p: Publisher): Option<PublishPhase>
  {
    match p.at
    case Before(step) => if step.Looking? then None else Some(Gone(Plain))
    case Relooking(_) => None
    case Holding | Looked | PrevOpened => Some(Released(Plain))
    case PrevTaken | Settled | Staged | ConfigSaved | ManifestSaved => Some(Returning(Plain))
    case Fenced => Some(BackingOut)
    case Moved => Some(if p.moved then Refencing else BackingOut)
    case Published | ResolverWritten | ReceiptWritten | Unfenced | BackingOut | BackedOut => Some(Refencing)
    case Refencing => Some(Returning(Kept))
    case Returning(o) => Some(Released(o))
    case Released(o) => Some(Gone(o))
    case Gone(_) => None
  }

  /** The next action takes effect, but the call reports an error. */
  function PublishThenFail(d: Disk, p: Publisher): Option<Effect>
  {
    match p.at
    case Before(Locking) =>
      // The lock file was created but could not be written or synchronized: it stays behind.
      if d.op.Some? then None else Some(TakeOperation(d, p, Gone(Plain)))
    case ManifestSaved =>
      // The fence was created but could not be reopened: it stays up.
      if d.fence then None else Some(Effect(d.(fence := true), p.(at := Returning(Plain))))
    case Fenced => if d.public.tree.None? then None else Some(MoveOld(d, p, Refencing))
    case Moved => if d.public.tree.Some? then None else Some(PublishTree(d, p, Refencing))
    case Published => Some(WriteResolver(d, p, Refencing))
    case ResolverWritten => Some(WriteReceipt(d, p, Refencing))
    case _ => None
  }

  function PublisherStep(s: State, p: Publisher, a: Action): Option<Effect>
  {
    if !p.alive then None
    else match a
      case Advance => PublishNext(s, p)
      case Fail =>
        (match AfterFailure(p)
         case None => None
         case Some(at) => Some(Effect(s.disk, p.(at := at))))
      case FailAfter => PublishThenFail(s.disk, p)
      case Kill => Some(Effect(s.disk, p.(alive := false)))
      case _ => None
  }

  predicate FreshProcess(p: Process) {
    match p
    case Reading(r) => r.reading.ReadBegin? && r.seen == Public(None, None, None)
    case Publishing(p) =>
      && p.alive && p.at == Before(Arriving) && p.op.None? && p.prev.None? && p.candidate.None?
      && p.resolver.None? && p.receipt.None? && p.stage == EMPTY_STAGE && !p.moved && !p.published
  }

  /** The check a publisher runs: before the lock it refuses running operations, under the lock it is one. */
  function Check(p: Publisher): Reader { Reader(p.graph, p.at.Before?, ReadBegin, Public(None, None, None)) }

  predicate CanLook(s: State, p: Publisher) {
    p.alive && (p.at == Before(WriterAbsent) || p.at.Holding?) && MayReuse(s.disk, p)
  }

  function LookStep(s: State, pid: Pid, child: Pid): Option<State>
    requires pid in s.procs
  {
    if s.procs[pid].Publishing? && CanLook(s, s.procs[pid].publisher) && child !in s.procs then
      var p := s.procs[pid].publisher;
      var at := if p.at.Before? then Before(Looking(child)) else Relooking(child);
      Some(s.(procs := s.procs[child := Reading(Check(p))][pid := Publishing(p.(at := at))]))
    else None
  }

  /** One step of process `pid`; `None` when the action is not possible. */
  function Step(s: State, pid: Pid, a: Action): Option<State> {
    if a.Spawn? then
      if pid !in s.procs && FreshProcess(a.process) then Some(s.(procs := s.procs[pid := a.process])) else None
    else if pid !in s.procs then None
    else if a.Look? then LookStep(s, pid, a.child)
    else
      match s.procs[pid]
      case Reading(r) =>
        (match ReaderStep(s, r, a)
         case None => None
         case Some(next) => Some(s.(procs := s.procs[pid := Reading(next)])))
      case Publishing(p) =>
        (match PublisherStep(s, p, a)
         case None => None
         case Some(e) => Some(State(e.disk, s.procs[pid := Publishing(e.publisher)])))
  }

  /** The state after a schedule; impossible entries change nothing. */
  function Run(s: State, schedule: seq<(Pid, Action)>): State
    decreases |schedule|
  {
    if |schedule| == 0 then s
    else
      match Step(s, schedule[0].0, schedule[0].1)
      case None => Run(s, schedule[1..])
      case Some(next) => Run(next, schedule[1..])
  }

  // ---------- Starting states ----------

  predicate BelowTree(t: Option<Tree>, next: nat) { t.Some? ==> t.value.id < next }

  predicate BelowControl(c: Option<Control>, next: nat) { c.Some? ==> c.value.id < next }

  predicate Below(p: Public, next: nat) {
    BelowTree(p.tree, next) && BelowControl(p.resolver, next) && BelowControl(p.receipt, next)
  }

  /**
   Nothing is running. A fence or a stale operation lock may be left from
   before; without a fence, whatever is public counts as installed together.
   */
  ghost predicate Initial(s: State) {
    && s.procs == map[]
    && Below(s.disk.public, s.disk.next)
    && (s.disk.op.Some? ==> s.disk.op.value < s.disk.next)
    && s.disk.done == (if s.disk.fence then {} else {s.disk.public})
  }
}
