/**
 What a check and a publication come to where nobody else is at work: exactly
 which checks accept, and exactly which publications reuse, succeed or refuse,
 whatever is in the directory.
 */
module VendorUndisturbed {
  import opened Options
  import opened Sequences
  import opened VendorProtocol
  import opened VendorSafety
  import opened VendorContent
  import opened VendorReadiness

  // ---------- Runs ----------

  function With(s: State, pid: Pid, p: Process): State { s.(procs := s.procs[pid := p]) }

  /** Entries that are not possible change nothing. */
  lemma {:induction false} IdleRun(s: State, schedule: Schedule)
    requires forall k :: 0 <= k < |schedule| ==> Step(s, schedule[k].0, schedule[k].1).None?
    ensures Run(s, schedule) == s
    decreases |schedule|
  {
    hide Step;
    if |schedule| > 0 { IdleRun(s, schedule[1..]); }
  }

  // ---------- Checks ----------

  const NOTHING := Public(None, None, None)

  /** What a check that nobody disturbs comes to. */
  ghost function Answer(s: State, g: Graph, refuseWriter: bool): ReadPhase {
    if !s.disk.fence && refuseWriter && s.disk.op.Some? then Refused(Busy)
    else if Serves(s.disk, g) && Unexcluded(s, s.disk.public.tree.value) then Accepted
    else if !s.disk.fence && s.disk.public == NOTHING && !g.external then AcceptedUnmanaged
    else Refused(Found)
  }

  /** Steps that a check still needs at most. */
  function Left(reading: ReadPhase): nat {
    match reading
    case ReceiptMissing => 9
    case ResolverMissing => 8
    case _ => ACCEPTED - Rank(reading)
  }

  /** After `n` steps of a check that found something. */
  ghost predicate FoundSoFar(s: State, g: Graph, n: nat) {
    var public := s.disk.public;
    && public.receipt.Some? && public.receipt.value.bytes == g.digest
    && (n >= 4 ==> public.resolver.Some? && g.binds(public.resolver.value.bytes))
    && (n >= 5 ==> public.tree.Some?)
    && (n >= 6 ==> Unexcluded(s, public.tree.value))
    && (n >= 8 ==> g.covers(public.tree.value.content))
  }

  /** Everything that a check on its way has passed was as it should be. */
  ghost predicate Passed(s: State, r: Reader) {
    var d, n := s.disk, Rank(r.reading);
    && (n >= 1 ==> !d.fence) && (n >= 2 ==> !(r.refuseWriter && d.op.Some?))
    && match r.reading
       case ReadBegin | FenceSeenClear | WriterSeenAbsent => r.seen == NOTHING
       case ReceiptMissing => d.public.receipt.None?
       case ResolverMissing => d.public.receipt.None? && d.public.resolver.None?
       case Accepted | AcceptedUnmanaged | Refused(_) => false
       case _ => OnTrack(d, r) && FoundSoFar(s, r.graph, n)
  }

  lemma ControlsGoOn(s: State, r: Reader)
    requires Passed(s, r) && InControls(r.reading)
    ensures var n := ControlNext(s.disk, r);
            && n.graph == r.graph && n.refuseWriter == r.refuseWriter
            && (if Ended(n.reading) then n.reading == Answer(s, r.graph, r.refuseWriter)
                else Passed(s, n) && Left(n.reading) < Left(r.reading))
  {
    hide Unexcluded;
  }

  lemma LeaseGoesOn(s: State, r: Reader)
    requires Passed(s, r) && !InControls(r.reading)
    ensures LeaseNext(s, r).Some?
    ensures var n := LeaseNext(s, r).value;
            && n.graph == r.graph && n.refuseWriter == r.refuseWriter
            && (if Ended(n.reading) then n.reading == Answer(s, r.graph, r.refuseWriter)
                else Passed(s, n) && Left(n.reading) < Left(r.reading))
  {
    hide Unexcluded;
  }

  /** Who reads does not matter to what a check comes to. */
  lemma SameAnswer(s: State, c: Pid, r: Reader)
    requires c in s.procs && s.procs[c].Reading?
    ensures var t := With(s, c, Reading(r));
            && (forall tree :: Unexcluded(t, tree) <==> Unexcluded(s, tree))
            && (forall g, refuse :: Answer(t, g, refuse) == Answer(s, g, refuse))
            && (Passed(s, r) ==> Passed(t, r))
  {
    hide Serves, OnTrack, Rank;
    var t := With(s, c, Reading(r));
    forall tree ensures Unexcluded(t, tree) <==> Unexcluded(s, tree) {
      if Unexcluded(t, tree) {
        forall q | q in s.procs ensures !Excludes(s.procs[q], tree) { assert !Excludes(t.procs[q], tree); }
      }
    }
  }

  /** A check at its end, or on its way with enough steps left. */
  ghost predicate WillAnswer(s: State, r: Reader, n: nat) {
    if Ended(r.reading) then r.reading == Answer(s, r.graph, r.refuseWriter) else Passed(s, r) && Left(r.reading) <= n
  }

  lemma OneCheckStep(s: State, c: Pid, n: nat)
    requires c in s.procs && s.procs[c].Reading? && WillAnswer(s, s.procs[c].reader, n + 1)
    ensures var r, t := s.procs[c].reader, After(s, (c, Advance));
            && c in t.procs && t.procs[c].Reading? && t == With(s, c, t.procs[c])
            && t.procs[c].reader.graph == r.graph && t.procs[c].reader.refuseWriter == r.refuseWriter
            && WillAnswer(t, t.procs[c].reader, n)
            && Answer(t, r.graph, r.refuseWriter) == Answer(s, r.graph, r.refuseWriter)
  {
    var r := s.procs[c].reader;
    if Ended(r.reading) {
      assert ReaderStep(s, r, Advance).None?;
      assert s == With(s, c, s.procs[c]);
    } else {
      if InControls(r.reading) { ControlsGoOn(s, r); } else { LeaseGoesOn(s, r); }
      var m := ReaderStep(s, r, Advance).value;
      SameAnswer(s, c, m);
    }
    hide Answer, Passed, Left, ControlNext, LeaseNext;
  }

  lemma {:induction false} CheckAnswers(s: State, c: Pid, n: nat)
    requires c in s.procs && s.procs[c].Reading? && WillAnswer(s, s.procs[c].reader, n)
    ensures var r, t := s.procs[c].reader, Run(s, Steps(c, n));
            && c in t.procs && t.procs[c].Reading? && t == With(s, c, t.procs[c])
            && t.procs[c].reader.reading == Answer(s, r.graph, r.refuseWriter)
    decreases n
  {
    hide Answer, Step;
    if n > 0 {
      var t := After(s, (c, Advance));
      OneCheckStep(s, c, n - 1);
      RunFirst(s, Steps(c, n));
      assert Steps(c, n)[1..] == Steps(c, n - 1);
      CheckAnswers(t, c, n - 1);
      hide WillAnswer;
    } else {
      assert Steps(c, 0) == [] && s == With(s, c, s.procs[c]);
      NothingLeft(s, s.procs[c].reader);
    }
  }

  lemma NothingLeft(s: State, r: Reader)
    requires WillAnswer(s, r, 0)
    ensures r.reading == Answer(s, r.graph, r.refuseWriter)
  {
  }

  /**
   A check that nobody disturbs ends after twelve steps. It accepts exactly what
   serves its lockfile and nobody is writing, or a project that needs nothing
   and has nothing; it reports a running operation, and refuses anything else.
   */
  lemma UndisturbedCheck(s: State, c: Pid)
    requires c in s.procs && s.procs[c].Reading? && FreshProcess(s.procs[c])
    ensures var r, t := s.procs[c].reader, Run(s, Steps(c, ACCEPTED));
            && c in t.procs && t.procs[c].Reading? && t == With(s, c, t.procs[c])
            && t.procs[c].reader.reading == Answer(s, r.graph, r.refuseWriter)
  {
    hide Run, Answer;
    CheckAnswers(s, c, ACCEPTED);
  }

  // ---------- Publications ----------

  /** How far a publisher has come on the way to its end. */
  function Come(at: PublishPhase): nat {
    match at
    case Before(step) =>
      (match step
       case Arriving => 0
       case FenceAbsent => 1
       case WriterAbsent => 2
       case Clearing => 3
       case _ => 4)
    case Holding => 5
    case Looked => 6
    case PrevOpened => 7
    case PrevTaken => 8
    case Settled => 9
    case Staged => 10
    case ConfigSaved => 11
    case ManifestSaved => 12
    case Fenced => 13
    case Moved => 14
    case Published => 15
    case ResolverWritten => 16
    case ReceiptWritten => 17
    case Unfenced => 18
    case Returning(_) => 19
    case Released(_) => 20
    case _ => 21
  }

  const FAR: nat := 21

  /** Nobody else holds a lock on any tree. */
  ghost predicate Alone(s: State, pid: Pid) {
    forall i, t :: i in s.procs && i != pid ==> !Shares(s.procs[i], t) && !Excludes(s.procs[i], t)
  }

  /** What would be published binds and holds every package. */
  predicate Fit(p: Publisher) { p.graph.binds(p.config) && p.graph.covers(p.content) }

  /** As far as it has come, what it brings is staged or public. */
  ghost predicate Brought(d: Disk, p: Publisher, start: Public) {
    var n := Come(p.at);
    && (n < 13 || !Fit(p) ==> d.public == start)
    && (10 <= n < 19 ==> Fit(p))
    && (10 <= n < 15 ==> p.stage.vendor.Some? && p.stage.vendor.value.content == p.content)
    && (n >= 15 && Fit(p) ==> d.public.tree.Some? && d.public.tree.value.content == p.content)
    && (n >= 16 && Fit(p) ==> Bytes(d.public.resolver) == Some(p.config))
    && (n >= 17 && Fit(p) ==> Bytes(d.public.receipt) == Some(p.graph.digest))
  }

  function OutcomeOf(p: Publisher): Outcome { if Fit(p) then Success else Plain }

  /** On the way to its end: nothing to reuse is looked for, and nobody else writes. */
  ghost predicate Smooth(d: Disk, p: Publisher, start: Public) {
    && p.alive && Brought(d, p, start)
    && d.fence == (13 <= Come(p.at) <= 17)
    && (if p.at.Before? || p.at.Gone? then d.op.None? else d.op == p.op && p.op.Some?)
    && match p.at
       case Before(step) => !MayReuse(d, p) && !step.Looking?
       case Holding => !MayReuse(d, p)
       case PrevOpened | PrevTaken => d.public.tree.Some? && p.prev == d.public.tree
       case Moved => d.public.tree.None?
       case Returning(o) => o == OutcomeOf(p)
       case Released(o) => o == OutcomeOf(p)
       case Gone(o) => o == OutcomeOf(p)
       case Relooking(_) | BackingOut | BackedOut | Refencing => false
       case _ => true
  }

  /** One step on the way, of the same publisher. */
  ghost predicate GoesOn(e: Effect, p: Publisher, start: Public) {
    && Smooth(e.disk, e.publisher, start) && Come(e.publisher.at) > Come(p.at)
    && e.publisher.graph == p.graph && e.publisher.config == p.config && e.publisher.content == p.content
  }

  lemma PrefaceIsSmooth(s: State, p: Publisher, start: Public)
    requires Smooth(s.disk, p, start) && p.at.Before?
    ensures PrefaceNext(s, p).Some? && GoesOn(PrefaceNext(s, p).value, p, start)
  {
  }

  lemma LookIsSmooth(s: State, p: Publisher, start: Public)
    requires Smooth(s.disk, p, start) && Scouting(p.at)
    ensures LookNext(s, p).Some? && GoesOn(LookNext(s, p).value, p, start)
  {
  }

  lemma PrepareIsSmooth(s: State, p: Publisher, start: Public)
    requires Smooth(s.disk, p, start) && Preparing(p.at)
    requires p.prev.Some? && p.at.PrevOpened? ==> Unlocked(s, p.prev.value)
    ensures GoesOn(PrepareNext(s, p), p, start)
  {
    hide Unlocked;
  }

  lemma SwapIsSmooth(d: Disk, p: Publisher, start: Public)
    requires Smooth(d, p, start) && Swapping(p.at)
    ensures SwapNext(d, p).Some? && GoesOn(SwapNext(d, p).value, p, start)
  {
  }

  lemma FenceIsSmooth(d: Disk, p: Publisher, start: Public)
    requires Smooth(d, p, start) && (p.at.ReceiptWritten? || p.at.Unfenced?)
    ensures CloseNext(d, p).Some? && GoesOn(CloseNext(d, p).value, p, start)
  {
  }

  lemma EndIsSmooth(d: Disk, p: Publisher, start: Public)
    requires Smooth(d, p, start) && (p.at.Returning? || p.at.Released?)
    ensures CloseNext(d, p).Some? && GoesOn(CloseNext(d, p).value, p, start)
  {
  }

  lemma NotItself(p: Publisher)
    ensures p.at.PrevOpened? ==> forall t :: !Locks(p, t)
  {
  }

  lemma WhereItIs(d: Disk, p: Publisher, start: Public)
    requires Smooth(d, p, start)
    ensures p.alive
    ensures || p.at.Before? || Scouting(p.at) || Preparing(p.at) || Swapping(p.at)
            || p.at.ReceiptWritten? || p.at.Unfenced? || p.at.Returning? || p.at.Released? || Come(p.at) >= FAR
  {
  }

  lemma NextIsSmooth(s: State, pid: Pid, start: Public)
    requires pid in s.procs && s.procs[pid].Publishing? && Alone(s, pid)
    requires Smooth(s.disk, s.procs[pid].publisher, start) && Come(s.procs[pid].publisher.at) < FAR
    ensures var p := s.procs[pid].publisher;
            PublisherStep(s, p, Advance).Some? && GoesOn(PublisherStep(s, p, Advance).value, p, start)
  {
    var p := s.procs[pid].publisher;
    NotItself(p);
    WhereItIs(s.disk, p, start);
    hide Smooth, GoesOn, Come, PrefaceNext, LookNext, PrepareNext, SwapNext, CloseNext, Locks;
    if p.at.Before? { PrefaceIsSmooth(s, p, start); }
    else if Scouting(p.at) { LookIsSmooth(s, p, start); }
    else if Preparing(p.at) { PrepareIsSmooth(s, p, start); }
    else if Swapping(p.at) { SwapIsSmooth(s.disk, p, start); }
    else if p.at.Returning? || p.at.Released? { EndIsSmooth(s.disk, p, start); }
    else { FenceIsSmooth(s.disk, p, start); }
  }

  lemma AtTheEnd(s: State, p: Publisher, start: Public)
    requires Smooth(s.disk, p, start) && Come(p.at) >= FAR
    ensures p.at == Gone(OutcomeOf(p)) && PublisherStep(s, p, Advance).None?
  {
  }

  /** Process `pid` has moved from `s` to `t`, and nothing else but the directory has changed. */
  ghost predicate Moved(s: State, t: State, pid: Pid)
    requires pid in s.procs && s.procs[pid].Publishing?
  {
    && pid in t.procs && t.procs[pid].Publishing? && t == State(t.disk, s.procs[pid := t.procs[pid]])
    && var p, q := s.procs[pid].publisher, t.procs[pid].publisher;
       q.graph == p.graph && q.config == p.config && q.content == p.content
  }

  lemma StillAlone(s: State, t: State, pid: Pid)
    requires pid in s.procs && s.procs[pid].Publishing? && Moved(s, t, pid) && Alone(s, pid)
    ensures Alone(t, pid)
  {
  }

  /** A publisher that nobody disturbs goes on, step by step, to its end. */
  lemma {:induction false} SmoothRun(s: State, pid: Pid, start: Public, n: nat)
    requires pid in s.procs && s.procs[pid].Publishing? && Alone(s, pid)
    requires Smooth(s.disk, s.procs[pid].publisher, start)
    ensures var p, t := s.procs[pid].publisher, Run(s, Steps(pid, n));
            && Moved(s, t, pid) && Alone(t, pid) && Smooth(t.disk, t.procs[pid].publisher, start)
            && Come(t.procs[pid].publisher.at) >= Min(FAR, Come(p.at) + n)
    decreases n
  {
    hide Smooth, PublisherStep, Come;
    var p := s.procs[pid].publisher;
    if n > 0 {
      RunFirst(s, Steps(pid, n));
      assert Steps(pid, n)[1..] == Steps(pid, n - 1);
      var t := After(s, (pid, Advance));
      if Come(p.at) < FAR {
        NextIsSmooth(s, pid, start);
        StillAlone(s, t, pid);
      } else {
        AtTheEnd(s, p, start);
      }
      SmoothRun(t, pid, start, n - 1);
    } else {
      assert Steps(pid, 0) == [] && s == State(s.disk, s.procs[pid := s.procs[pid]]);
    }
  }

  // ---------- A publication looks for something to reuse ----------

  predicate AtLook(at: PublishPhase) { at == Before(WriterAbsent) || at.Holding? }

  function Waiting(p: Publisher, c: Pid): Publisher {
    p.(at := if p.at.Before? then Before(Looking(c)) else Relooking(c))
  }

  lemma NoneExcludes(s: State, pid: Pid, t: Tree)
    requires pid in s.procs && s.procs[pid].Publishing? && Alone(s, pid)
    requires s.procs[pid].publisher.at.Before? || Scouting(s.procs[pid].publisher.at)
    ensures Unexcluded(s, t)
  {
    assert !Locks(s.procs[pid].publisher, t);
  }

  lemma Answered(s: State, pid: Pid, c: Pid)
    requires pid in s.procs && s.procs[pid].Publishing? && Alone(s, pid) && c !in s.procs
    requires var p := s.procs[pid].publisher;
             p.alive && AtLook(p.at) && MayReuse(s.disk, p) && !s.disk.fence && (p.at.Before? ==> s.disk.op.None?)
    ensures LookStep(s, pid, c).Some?
    ensures var p, t := s.procs[pid].publisher, LookStep(s, pid, c).value;
            && c in t.procs && t.procs[c].Reading? && FreshProcess(t.procs[c])
            && t == State(s.disk, s.procs[c := t.procs[c]][pid := Publishing(Waiting(p, c))])
            && Answer(t, t.procs[c].reader.graph, t.procs[c].reader.refuseWriter)
            == if Serves(s.disk, p.graph) then Accepted else Refused(Found)
  {
    var p, t := s.procs[pid].publisher, LookStep(s, pid, c).value;
    if s.disk.public.tree.Some? {
      var tree := s.disk.public.tree.value;
      NoneExcludes(s, pid, tree);
      assert forall q :: q in t.procs && q != c && q != pid ==> q in s.procs && t.procs[q] == s.procs[q];
      assert Unexcluded(t, tree) by {
        forall q | q in t.procs ensures !Excludes(t.procs[q], tree) {
          if q != c && q != pid { assert !Excludes(s.procs[q], tree); }
        }
      }
    }
    hide Unexcluded, Alone;
  }

  /** Its own check finds what serves its lockfile, and nothing else. */
  lemma LookRun(s: State, pid: Pid, c: Pid)
    requires pid in s.procs && s.procs[pid].Publishing? && Alone(s, pid) && c !in s.procs
    requires var p := s.procs[pid].publisher;
             p.alive && AtLook(p.at) && MayReuse(s.disk, p) && !s.disk.fence && (p.at.Before? ==> s.disk.op.None?)
    ensures var p, t := s.procs[pid].publisher, Run(s, [(pid, Look(c))] + Steps(c, ACCEPTED));
            && c in t.procs && t.procs[c].Reading?
            && t == State(s.disk, s.procs[c := t.procs[c]][pid := Publishing(Waiting(p, c))])
            && t.procs[c].reader.reading == if Serves(s.disk, p.graph) then Accepted else Refused(Found)
  {
    hide Run, Answer, Serves, MayReuse, FreshProcess;
    Answered(s, pid, c);
    var t := LookStep(s, pid, c).value;
    RunOne(s, (pid, Look(c)));
    RunAppend(s, [(pid, Look(c))], Steps(c, ACCEPTED));
    UndisturbedCheck(t, c);
    hide LookStep;
  }

  // ---------- A publication comes to its end ----------

  /** A process does its own check as process `c`, as far as it may. */
  function CheckPart(pid: Pid, c: Pid): Schedule { [(pid, Look(c))] + Steps(c, ACCEPTED) }

  /** The steps of a publication with its two checks, as far as each is possible. */
  function Undisturbed(pid: Pid, c1: Pid, c2: Pid): Schedule {
    Steps(pid, 2) + (CheckPart(pid, c1) + (Steps(pid, 3) + (CheckPart(pid, c2) + Steps(pid, FAR))))
  }

  lemma RunParts(s: State, pid: Pid, c1: Pid, c2: Pid)
    ensures var a := Run(s, Steps(pid, 2));
            var b := Run(a, CheckPart(pid, c1));
            var c := Run(b, Steps(pid, 3));
            var d := Run(c, CheckPart(pid, c2));
            Run(s, Undisturbed(pid, c1, c2)) == Run(d, Steps(pid, FAR))
  {
    hide Run;
    var e := CheckPart(pid, c2) + Steps(pid, FAR);
    var d := Steps(pid, 3) + e;
    var c := CheckPart(pid, c1) + d;
    RunAppend(s, Steps(pid, 2), c);
    var t := Run(s, Steps(pid, 2));
    RunAppend(t, CheckPart(pid, c1), d);
    var u := Run(t, CheckPart(pid, c1));
    RunAppend(u, Steps(pid, 3), e);
    RunAppend(Run(u, Steps(pid, 3)), CheckPart(pid, c2), Steps(pid, FAR));
  }

  lemma TwoSteps(s: State, pid: Pid)
    ensures Run(s, Steps(pid, 2)) == After(After(s, (pid, Advance)), (pid, Advance))
  {
    var e := (pid, Advance);
    RunFirst(s, Steps(pid, 2));
    assert Steps(pid, 2)[1..] == [e];
    RunOne(After(s, e), e);
  }

  lemma ThreeSteps(s: State, pid: Pid)
    ensures Run(s, Steps(pid, 3)) == After(After(After(s, (pid, Advance)), (pid, Advance)), (pid, Advance))
  {
    hide After;
    RunFirst(s, Steps(pid, 3));
    assert Steps(pid, 3)[1..] == Steps(pid, 2);
    TwoSteps(After(s, (pid, Advance)), pid);
  }

  /** A publisher that looks for nothing here, and whose check does not exist. */
  lemma NoCheck(s: State, pid: Pid, c: Pid)
    requires pid in s.procs && s.procs[pid].Publishing?
    requires c in s.procs ==> s.procs[c].Reading? && Ended(s.procs[c].reader.reading)
    requires c in s.procs || !CanLook(s, s.procs[pid].publisher)
    ensures Run(s, CheckPart(pid, c)) == s
  {
    var part := CheckPart(pid, c);
    forall k | 0 <= k < |part| ensures Step(s, part[k].0, part[k].1).None? {
      assert k > 0 ==> part[k] == Steps(c, ACCEPTED)[k - 1];
    }
    IdleRun(s, part);
  }

  lemma NoMore(s: State, pid: Pid, n: nat)
    requires pid in s.procs && s.procs[pid].Publishing? && s.procs[pid].publisher.at.Gone?
    ensures Run(s, Steps(pid, n)) == s
  {
    IdleRun(s, Steps(pid, n));
  }

  /** What a publication comes to, from the directory it finds. */
  ghost predicate ComesTo(d: Disk, p: Publisher, e: Disk, at: PublishPhase) {
    if d.fence || d.op.Some? then e == d && at == Gone(Plain)
    else if Serves(d, p.graph) && !p.force then e == d && at == Gone(Reused)
    else if Fit(p) then
      && at == Gone(Success) && Serves(e, p.graph) && e.op.None? && e.public.tree.value.content == p.content
      && e.public.resolver.value.bytes == p.config && e.public.receipt.value.bytes == p.graph.digest
    else at == Gone(Plain) && e.public == d.public && !e.fence && e.op.None?
  }

  /** A fresh publisher, with nobody else at work, and two process numbers for its checks. */
  ghost predicate Starts(s: State, pid: Pid, c1: Pid, c2: Pid) {
    && pid in s.procs && s.procs[pid].Publishing? && FreshProcess(s.procs[pid]) && Alone(s, pid)
    && c1 !in s.procs && c2 !in s.procs && c1 != c2
  }

  ghost predicate PublicationEnds(s: State, pid: Pid, c1: Pid, c2: Pid)
    requires pid in s.procs && s.procs[pid].Publishing?
  {
    var t := Run(s, Undisturbed(pid, c1, c2));
    && pid in t.procs && t.procs[pid].Publishing?
    && ComesTo(s.disk, s.procs[pid].publisher, t.disk, t.procs[pid].publisher.at)
  }

  lemma BlockedEnds(s: State, pid: Pid, c1: Pid, c2: Pid)
    requires Starts(s, pid, c1, c2) && (s.disk.fence || s.disk.op.Some?)
    ensures PublicationEnds(s, pid, c1, c2)
  {
    var p := s.procs[pid].publisher;
    TwoSteps(s, pid);
    var t := With(s, pid, Publishing(p.(at := Gone(Plain))));
    assert Run(s, Steps(pid, 2)) == t by {
      var a := After(s, (pid, Advance));
      if !s.disk.fence { assert a == With(s, pid, Publishing(p.(at := Before(FenceAbsent)))); }
    }
    hide Run, Steps, PublisherStep, CheckPart;
    RunParts(s, pid, c1, c2);
    NoCheck(t, pid, c1);
    NoMore(t, pid, 3);
    NoCheck(t, pid, c2);
    NoMore(t, pid, FAR);
  }

  lemma FreshIsSmooth(d: Disk, p: Publisher)
    requires FreshProcess(Publishing(p)) && !d.fence && d.op.None? && !MayReuse(d, p)
    ensures Smooth(d, p, d.public) && Come(p.at) == 0
  {
  }

  lemma SmoothLooksForNothing(s: State, p: Publisher, start: Public)
    requires Smooth(s.disk, p, start)
    ensures !CanLook(s, p)
  {
  }

  lemma SmoothComesTo(d: Disk, p: Publisher, e: Disk, q: Publisher)
    requires !d.fence && d.op.None? && !(Serves(d, p.graph) && !p.force)
    requires Smooth(e, q, d.public) && Come(q.at) >= FAR
    requires q.graph == p.graph && q.config == p.config && q.content == p.content
    ensures ComesTo(d, p, e, q.at)
  {
  }

  /** With nothing to reuse, it goes straight on. */
  lemma DirectEnds(s: State, pid: Pid, c1: Pid, c2: Pid)
    requires Starts(s, pid, c1, c2) && !s.disk.fence && s.disk.op.None? && !MayReuse(s.disk, s.procs[pid].publisher)
    ensures PublicationEnds(s, pid, c1, c2)
  {
    var p, start := s.procs[pid].publisher, s.disk.public;
    FreshIsSmooth(s.disk, p);
    hide Smooth, Run, Steps, Come, CheckPart, CanLook, Alone;
    RunParts(s, pid, c1, c2);
    SmoothRun(s, pid, start, 2);
    var a := Run(s, Steps(pid, 2));
    SmoothLooksForNothing(a, a.procs[pid].publisher, start);
    NoCheck(a, pid, c1);
    SmoothRun(a, pid, start, 3);
    var c := Run(a, Steps(pid, 3));
    SmoothLooksForNothing(c, c.procs[pid].publisher, start);
    NoCheck(c, pid, c2);
    SmoothRun(c, pid, start, FAR);
    var t := Run(c, Steps(pid, FAR));
    SmoothComesTo(s.disk, p, t.disk, t.procs[pid].publisher);
  }

  /** With a receipt there, it comes to its first check. */
  lemma ReachesLook(s: State, pid: Pid, c1: Pid, c2: Pid)
    requires Starts(s, pid, c1, c2) && !s.disk.fence && s.disk.op.None? && MayReuse(s.disk, s.procs[pid].publisher)
    ensures var p, b := s.procs[pid].publisher, Run(Run(s, Steps(pid, 2)), CheckPart(pid, c1));
            && c1 in b.procs && b.procs[c1].Reading?
            && b == State(s.disk, s.procs[c1 := b.procs[c1]][pid := Publishing(p.(at := Before(Looking(c1))))])
            && b.procs[c1].reader.reading == if Serves(s.disk, p.graph) then Accepted else Refused(Found)
  {
    var p := s.procs[pid].publisher;
    TwoSteps(s, pid);
    var a := With(s, pid, Publishing(p.(at := Before(WriterAbsent))));
    assert Run(s, Steps(pid, 2)) == a by {
      assert After(s, (pid, Advance)) == With(s, pid, Publishing(p.(at := Before(FenceAbsent))));
    }
    hide Run, Steps, PublisherStep, Serves;
    LookRun(a, pid, c1);
    var b := Run(a, CheckPart(pid, c1));
    assert b.procs == s.procs[c1 := b.procs[c1]][pid := Publishing(p.(at := Before(Looking(c1))))];
  }

  lemma AcceptedIsReused(s: State, pid: Pid, c: Pid, p: Publisher)
    requires pid in s.procs && s.procs[pid] == Publishing(p.(at := Before(Looking(c)))) && p.alive
    requires c in s.procs && s.procs[c].Reading? && s.procs[c].reader.reading.Accepted?
    ensures After(s, (pid, Advance)) == With(s, pid, Publishing(p.(at := Gone(Reused))))
  {
  }

  lemma ReuseEnds(s: State, pid: Pid, c1: Pid, c2: Pid)
    requires Starts(s, pid, c1, c2) && !s.disk.fence && s.disk.op.None? && MayReuse(s.disk, s.procs[pid].publisher)
    requires Serves(s.disk, s.procs[pid].publisher.graph)
    ensures PublicationEnds(s, pid, c1, c2)
  {
    var p := s.procs[pid].publisher;
    ReachesLook(s, pid, c1, c2);
    hide Run, Steps, CheckPart, Serves, Alone, Step;
    RunParts(s, pid, c1, c2);
    var b := Run(Run(s, Steps(pid, 2)), CheckPart(pid, c1));
    ThreeSteps(b, pid);
    AcceptedIsReused(b, pid, c1, p);
    var c := With(b, pid, Publishing(p.(at := Gone(Reused))));
    NoMore(c, pid, 2);
    TwoSteps(c, pid);
    NoCheck(c, pid, c2);
    NoMore(c, pid, FAR);
  }

  function Owner(p: Publisher, d: Disk, at: PublishPhase): Publisher {
    p.(at := at, op := Some(d.next), before := d.public)
  }

  lemma RefusedLeadsOn(b: State, pid: Pid, c: Pid, p: Publisher)
    requires pid in b.procs && b.procs[pid] == Publishing(p.(at := Before(Looking(c)))) && p.alive
    requires c in b.procs && b.procs[c].Reading? && b.procs[c].reader.reading == Refused(Found)
    requires !b.disk.fence && b.disk.op.None?
    ensures After(After(After(b, (pid, Advance)), (pid, Advance)), (pid, Advance))
         == State(b.disk.(op := Some(b.disk.next), next := b.disk.next + 1),
                  b.procs[pid := Publishing(Owner(p, b.disk, Holding))])
  {
    var x := With(b, pid, Publishing(p.(at := Before(Clearing))));
    var y := With(b, pid, Publishing(p.(at := Before(Locking))));
    assert After(b, (pid, Advance)) == x;
    assert After(x, (pid, Advance)) == y;
  }

  /** What does not serve leads on, to the operation lock. */
  lemma ReachesLock(s: State, b: State, pid: Pid, c1: Pid)
    requires pid in s.procs && s.procs[pid].Publishing? && FreshProcess(s.procs[pid]) && Alone(s, pid)
    requires c1 !in s.procs && !s.disk.fence && s.disk.op.None?
    requires var p := s.procs[pid].publisher;
             && c1 in b.procs && b.procs[c1].Reading? && b.procs[c1].reader.reading == Refused(Found)
             && b == State(s.disk, s.procs[c1 := b.procs[c1]][pid := Publishing(p.(at := Before(Looking(c1))))])
    ensures var p, c := s.procs[pid].publisher, Run(b, Steps(pid, 3));
            && c == State(s.disk.(op := Some(s.disk.next), next := s.disk.next + 1),
                          b.procs[pid := Publishing(Owner(p, s.disk, Holding))])
            && Alone(c, pid)
  {
    hide Run, Steps, Alone, Step;
    var p := s.procs[pid].publisher;
    ThreeSteps(b, pid);
    RefusedLeadsOn(b, pid, c1, p);
    RefusedLeavesAlone(s, Run(b, Steps(pid, 3)), pid, c1);
  }

  lemma RefusedLeavesAlone(s: State, t: State, pid: Pid, c: Pid)
    requires pid in s.procs && Alone(s, pid) && pid in t.procs && c in t.procs && t.procs[c].Reading?
    requires t.procs[c].reader.reading.Refused? && t.procs == s.procs[c := t.procs[c]][pid := t.procs[pid]]
    ensures Alone(t, pid)
  {
  }

  lemma OwnerIsSmooth(d: Disk, e: Disk, p: Publisher)
    requires FreshProcess(Publishing(p)) && !d.fence && d.op.None?
    requires e == d.(op := Some(d.next), next := d.next + 1)
    ensures Smooth(e, Owner(p, d, Looked), d.public) && Come(Looked) == 6
  {
  }

  /** Under the lock it looks again, finds the same, and goes on to publish. */
  lemma RelookLeadsOn(s: State, c: State, pid: Pid, c2: Pid)
    requires pid in c.procs && s.disk.public.receipt.Some?
    requires pid in s.procs && s.procs[pid].Publishing? && FreshProcess(s.procs[pid])
    requires !s.disk.fence && s.disk.op.None? && MayReuse(s.disk, s.procs[pid].publisher)
    requires var p := s.procs[pid].publisher;
             && !Serves(s.disk, p.graph) && c.disk == s.disk.(op := Some(s.disk.next), next := s.disk.next + 1)
             && c.procs[pid] == Publishing(Owner(p, s.disk, Holding)) && Alone(c, pid) && c2 !in c.procs
    ensures var p, d := s.procs[pid].publisher, Run(c, CheckPart(pid, c2));
            && pid in d.procs && d.disk == c.disk && Alone(After(d, (pid, Advance)), pid)
            && After(d, (pid, Advance)) == With(d, pid, Publishing(Owner(p, s.disk, Looked)))
  {
    hide Run, Steps, Alone;
    LookRun(c, pid, c2);
    var d := Run(c, CheckPart(pid, c2));
    assert !Serves(c.disk, s.procs[pid].publisher.graph);
    assert Looks(d, c2) == Some(Refused(Found));
    RefusedLeavesAlone(c, After(d, (pid, Advance)), pid, c2);
    hide Serves;
  }

  lemma StaleEnds(s: State, pid: Pid, c1: Pid, c2: Pid)
    requires Starts(s, pid, c1, c2) && !s.disk.fence && s.disk.op.None? && MayReuse(s.disk, s.procs[pid].publisher)
    requires !Serves(s.disk, s.procs[pid].publisher.graph)
    ensures PublicationEnds(s, pid, c1, c2)
  {
    var p := s.procs[pid].publisher;
    ReachesLook(s, pid, c1, c2);
    var b := Run(Run(s, Steps(pid, 2)), CheckPart(pid, c1));
    ReachesLock(s, b, pid, c1);
    var c := Run(b, Steps(pid, 3));
    RelookLeadsOn(s, c, pid, c2);
    var d := Run(c, CheckPart(pid, c2));
    var e := After(d, (pid, Advance));
    OwnerIsSmooth(s.disk, c.disk, p);
    RunParts(s, pid, c1, c2);
    RunFirst(d, Steps(pid, FAR));
    assert Steps(pid, FAR)[1..] == Steps(pid, FAR - 1);
    hide Run, Steps, CheckPart, Serves, Alone, Smooth, Step, Come;
    SmoothRun(e, pid, s.disk.public, FAR - 1);
    var t := Run(e, Steps(pid, FAR - 1));
    SmoothComesTo(s.disk, p, t.disk, t.procs[pid].publisher);
  }

  /**
   A publication that nobody disturbs comes to its end, whatever it finds: it
   refuses to touch what is fenced or locked, reuses exactly what serves its
   lockfile unless it is forced, and otherwise publishes what it has acquired,
   provided that this binds and holds every package.
   */
  lemma UndisturbedPublication(s: State, pid: Pid, c1: Pid, c2: Pid)
    requires Starts(s, pid, c1, c2)
    ensures PublicationEnds(s, pid, c1, c2)
  {
    var p := s.procs[pid].publisher;
    hide PublicationEnds, Alone;
    if s.disk.fence || s.disk.op.Some? { BlockedEnds(s, pid, c1, c2); }
    else if !MayReuse(s.disk, p) { DirectEnds(s, pid, c1, c2); }
    else if Serves(s.disk, p.graph) { ReuseEnds(s, pid, c1, c2); }
    else { StaleEnds(s, pid, c1, c2); }
  }
}
