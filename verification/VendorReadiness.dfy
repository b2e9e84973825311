/**
 What a successful publication leaves: until somebody writes again, every
 check for its lockfile accepts unless the operating system fails it, and a
 second publication that is not forced reuses what is there and writes nothing.
 */
module VendorReadiness {
  import opened Options
  import opened Sequences
  import opened VendorProtocol
  import opened VendorSafety
  import opened VendorContent

  type Schedule = seq<(Pid, Action)>

  /** What is public serves a lockfile: complete, unfenced, its own receipt, and all its packages. */
  ghost predicate Serves(d: Disk, g: Graph) {
    && !d.fence && d.public.tree.Some? && d.public.resolver.Some? && d.public.receipt.Some?
    && d.public.receipt.value.bytes == g.digest && g.binds(d.public.resolver.value.bytes)
    && g.covers(d.public.tree.value.content)
  }

  /** And nobody is writing. */
  ghost predicate Quiet(s: State, g: Graph) {
    Serves(s.disk, g) && s.disk.op.None? && Unexcluded(s, s.disk.public.tree.value)
  }

  // ---------- A successful publication leaves quiet ----------

  lemma OnlyOwnerLocks(s: State, pid: Pid, t: Tree)
    requires Inv(s) && pid in s.procs && s.procs[pid].Publishing? && s.procs[pid].publisher.at.Released?
    ensures Unexcluded(s, t)
  {
    assert ProcessOk(s.disk, s.procs[pid]);
    forall q | q in s.procs ensures !Excludes(s.procs[q], t) {
      assert ProcessOk(s.disk, s.procs[q]);
    }
  }

  lemma SuccessServes(s: State, pid: Pid)
    requires Inv(s) && Contents(s) && pid in s.procs && s.procs[pid].Publishing?
    requires s.procs[pid].publisher.at == Released(Success)
    ensures Serves(s.disk, s.procs[pid].publisher.graph) && s.disk.op == s.procs[pid].publisher.op
  {
    assert ProcessOk(s.disk, s.procs[pid]) && Content(s, s.procs[pid]);
  }

  /**
   On every run, whatever went before: at the moment a publisher returns
   success, what is public serves its lockfile and nobody is writing.
   */
  lemma SuccessIsQuiet(s: State, schedule: Schedule, pid: Pid)
    requires Initial(s) && pid in Run(s, schedule).procs
    requires var p := Run(s, schedule).procs[pid];
             p.Publishing? && p.publisher.alive && p.publisher.at == Released(Success)
    ensures var t := Run(s, schedule);
            Step(t, pid, Advance).Some? && Quiet(Step(t, pid, Advance).value, t.procs[pid].publisher.graph)
  {
    RunKeeps(s, schedule, s.disk.done);
    RunKeepsContents(s, schedule);
    var t := Run(s, schedule);
    SuccessServes(t, pid);
    OnlyOwnerLocks(t, pid, t.disk.public.tree.value);
    hide Inv, Contents, Run;
    ReleaseIsQuiet(t, pid);
  }

  lemma ReleaseIsQuiet(s: State, pid: Pid)
    requires pid in s.procs && s.procs[pid].Publishing? && s.procs[pid].publisher.alive
    requires var p := s.procs[pid].publisher;
             p.at == Released(Success) && Serves(s.disk, p.graph) && s.disk.op == p.op
    requires Unexcluded(s, s.disk.public.tree.value)
    ensures Step(s, pid, Advance).Some? && Quiet(Step(s, pid, Advance).value, s.procs[pid].publisher.graph)
  {
    var t := Step(s, pid, Advance).value;
    forall q | q in t.procs ensures !Excludes(t.procs[q], t.disk.public.tree.value) {
      assert !Excludes(s.procs[q], s.disk.public.tree.value);
    }
  }

  // ---------- Checks of what serves ----------

  /** A check that has met nothing to refuse. */
  ghost predicate OnTrack(d: Disk, r: Reader) {
    match r.reading
    case ReadBegin | FenceSeenClear | WriterSeenAbsent => r.seen == Public(None, None, None)
    case ReceiptSeen => r.seen == Public(None, None, d.public.receipt)
    case ResolverSeen => r.seen == Public(None, d.public.resolver, d.public.receipt)
    case ReceiptMissing | ResolverMissing | AcceptedUnmanaged | Refused(_) => false
    case _ => r.seen == d.public
  }

  const ACCEPTED: nat := 12

  /** How many steps a check on track has taken. */
  function Rank(reading: ReadPhase): (n: nat)
    ensures n <= ACCEPTED
  {
    match reading
    case ReadBegin => 0
    case FenceSeenClear => 1
    case WriterSeenAbsent => 2
    case ReceiptSeen => 3
    case ResolverSeen => 4
    case TreeOpened => 5
    case TreeLocked => 6
    case Leased => 7
    case Catalogued => 8
    case FenceClearAgain => 9
    case WriterAbsentAgain => 10
    case ReceiptConfirmed => 11
    case _ => 12
  }

  lemma TrackGoesOn(s: State, r: Reader)
    requires Quiet(s, r.graph) && OnTrack(s.disk, r)
    ensures if r.reading.Accepted? then ReaderStep(s, r, Advance).None?
            else
              && ReaderStep(s, r, Advance).Some?
              && var n := ReaderStep(s, r, Advance).value;
                 OnTrack(s.disk, n) && n.graph == r.graph && Rank(n.reading) == Rank(r.reading) + 1
  {
    hide Unexcluded;
  }

  /** Steps that only check: no publisher moves. */
  ghost predicate Checks(s: State, schedule: Schedule) {
    forall k :: 0 <= k < |schedule| ==> ChecksOnly(s, schedule[k])
  }

  ghost predicate ChecksOnly(s: State, e: (Pid, Action)) {
    && (e.1.Spawn? ==> e.1.process.Reading?)
    && (e.0 in s.procs ==> s.procs[e.0].Reading?)
  }

  function After(s: State, e: (Pid, Action)): State {
    var step := Step(s, e.0, e.1);
    if step.Some? then step.value else s
  }

  lemma RunFirst(s: State, schedule: Schedule)
    requires |schedule| > 0
    ensures Run(s, schedule) == Run(After(s, schedule[0]), schedule[1..])
  {
  }

  /** A check leaves the directory alone and no exclusive lock behind. */
  lemma CheckStep(s: State, e: (Pid, Action), g: Graph)
    requires Quiet(s, g) && ChecksOnly(s, e)
    ensures After(s, e).disk == s.disk && Quiet(After(s, e), g)
    ensures forall f :: ChecksOnly(s, f) ==> ChecksOnly(After(s, e), f)
    ensures forall q :: q in s.procs ==> q in After(s, e).procs && (q != e.0 ==> After(s, e).procs[q] == s.procs[q])
  {
    var t, tree := After(s, e), s.disk.public.tree.value;
    hide ReaderStep, PublisherStep, Serves;
    assert t.procs.Keys == s.procs.Keys || t.procs.Keys == s.procs.Keys + {e.0};
    forall q | q in t.procs ensures !Excludes(t.procs[q], tree) {
      if q in s.procs && q != e.0 { assert !Excludes(s.procs[q], tree); }
    }
  }

  function Advances(schedule: Schedule, pid: Pid): nat {
    if |schedule| == 0 then 0 else (if schedule[0] == (pid, Advance) then 1 else 0) + Advances(schedule[1..], pid)
  }

  ghost predicate NoTrouble(schedule: Schedule, pid: Pid) {
    forall k :: 0 <= k < |schedule| ==> schedule[k] != (pid, Fail) && schedule[k] != (pid, Stale)
  }

  lemma OwnStep(s: State, pid: Pid, a: Action)
    requires pid in s.procs && s.procs[pid].Reading? && Quiet(s, s.procs[pid].reader.graph)
    requires OnTrack(s.disk, s.procs[pid].reader) && a != Fail && a != Stale
    ensures var r, t := s.procs[pid].reader, After(s, (pid, a));
            && pid in t.procs && t.procs[pid].Reading? && t.procs[pid].reader.graph == r.graph
            && OnTrack(s.disk, t.procs[pid].reader)
            && Rank(t.procs[pid].reader.reading) == Min(ACCEPTED, Rank(r.reading) + if a.Advance? then 1 else 0)
  {
    hide Unexcluded, Serves, OnTrack, Rank;
    if a.Advance? {
      var r := s.procs[pid].reader;
      TrackGoesOn(s, r);
      RankOfTrack(s.disk, r);
      hide ReaderStep;
    }
  }

  lemma RankOfTrack(d: Disk, r: Reader)
    requires OnTrack(d, r)
    ensures r.reading.Accepted? <==> Rank(r.reading) == ACCEPTED
  {
  }

  /**
   Among any other checks, a check of what serves its lockfile is never refused
   unless the operating system fails it or the lockfile changes, and after its
   twelve steps it has accepted exactly what is public.
   */
  lemma {:induction false} QuietCheckAccepts(s: State, schedule: Schedule, pid: Pid)
    requires pid in s.procs && s.procs[pid].Reading? && Quiet(s, s.procs[pid].reader.graph)
    requires OnTrack(s.disk, s.procs[pid].reader) && Checks(s, schedule) && NoTrouble(schedule, pid)
    ensures var r, end := s.procs[pid].reader, Run(s, schedule);
            && end.disk == s.disk && Quiet(end, r.graph) && pid in end.procs && end.procs[pid].Reading?
            && end.procs[pid].reader.graph == r.graph && OnTrack(s.disk, end.procs[pid].reader)
            && Rank(end.procs[pid].reader.reading) == Min(ACCEPTED, Rank(r.reading) + Advances(schedule, pid))
    decreases |schedule|
  {
    hide Quiet, OnTrack, Rank, Step, ChecksOnly;
    if |schedule| > 0 {
      var e, r := schedule[0], s.procs[pid].reader;
      var t := After(s, e);
      CheckStep(s, e, r.graph);
      if e.0 == pid { OwnStep(s, pid, e.1); }
      RunFirst(s, schedule);
      assert Checks(t, schedule[1..]);
      assert NoTrouble(schedule[1..], pid) by {
        assert forall k :: 0 <= k < |schedule| - 1 ==> schedule[1..][k] == schedule[k + 1];
      }
      QuietCheckAccepts(t, schedule[1..], pid);
    } else {
      assert Min(ACCEPTED, Rank(s.procs[pid].reader.reading)) == Rank(s.procs[pid].reader.reading);
    }
  }

  // ---------- A second publication ----------

  /** Checks and the steps of one publisher; nobody changes the lockfile. */
  ghost predicate ChecksAnd(s: State, pid: Pid, schedule: Schedule) {
    forall k :: 0 <= k < |schedule| ==> ChecksOrOwn(s, pid, schedule[k])
  }

  ghost predicate ChecksOrOwn(s: State, pid: Pid, e: (Pid, Action)) {
    && (e.1.Spawn? ==> e.1.process.Reading?) && e.1 != Stale
    && (e.0 in s.procs && e.0 != pid ==> s.procs[e.0].Reading?)
  }

  /** No operating-system error, cancellation or kill. */
  predicate Calm(a: Action) { !a.Fail? && !a.Kill? }

  /** A publisher that has found what it wants waits for its own check, or is done. With `calm`, nothing has failed. */
  ghost predicate Reuses(s: State, pid: Pid, g: Graph, calm: bool) {
    && Quiet(s, g) && pid in s.procs && s.procs[pid].Publishing?
    && var p := s.procs[pid].publisher;
       && p.graph == g && !p.force && (calm ==> p.alive)
       && match p.at
          case Before(step) =>
            (match step
             case Arriving | FenceAbsent | WriterAbsent => true
             case Looking(child) => ReusingCheck(s, child, g, calm)
             case _ => false)
          case Gone(o) => o.Reused? || (o.Plain? && !calm)
          case _ => false
  }

  ghost predicate ReusingCheck(s: State, child: Pid, g: Graph, calm: bool) {
    && child in s.procs && s.procs[child].Reading? && s.procs[child].reader.graph == g
    && (OnTrack(s.disk, s.procs[child].reader) || (!calm && s.procs[child].reader.reading == Refused(Io)))
  }

  lemma CheckGoesOn(s: State, r: Reader, a: Action, calm: bool)
    requires Quiet(s, r.graph) && (OnTrack(s.disk, r) || (!calm && r.reading == Refused(Io)))
    requires a != Stale && (calm ==> Calm(a)) && ReaderStep(s, r, a).Some?
    ensures var n := ReaderStep(s, r, a).value;
            n.graph == r.graph && (OnTrack(s.disk, n) || (!calm && n.reading == Refused(Io)))
  {
    if OnTrack(s.disk, r) { TrackGoesOn(s, r); }
    hide Quiet;
  }

  /** What the steps of others leave of a reusing publisher. */
  lemma OthersLetReuse(s: State, pid: Pid, g: Graph, calm: bool, e: (Pid, Action))
    requires Reuses(s, pid, g, calm) && ChecksOrOwn(s, pid, e) && e.0 != pid && (calm ==> Calm(e.1))
    ensures After(s, e).disk == s.disk && Reuses(After(s, e), pid, g, calm)
  {
    hide OnTrack;
    assert ChecksOnly(s, e);
    CheckStep(s, e, g);
    var p := s.procs[pid].publisher;
    if p.at.Before? && p.at.step.Looking? && p.at.step.child == e.0 && !e.1.Spawn? && !e.1.Look? {
      var r := s.procs[e.0].reader;
      if ReaderStep(s, r, e.1).Some? { CheckGoesOn(s, r, e.1, calm); }
    }
    hide Quiet, ReaderStep;
  }

  lemma OwnQuiet(s: State, pid: Pid, n: Publisher, g: Graph)
    requires Quiet(s, g) && pid in s.procs && (n.at.Before? || n.at.Gone?)
    ensures Quiet(s.(procs := s.procs[pid := Publishing(n)]), g)
  {
    var t := s.(procs := s.procs[pid := Publishing(n)]);
    var tree := s.disk.public.tree.value;
    hide Serves;
    forall q | q in t.procs ensures !Excludes(t.procs[q], tree) {
      if q != pid { assert !Excludes(s.procs[q], tree); }
    }
  }

  lemma OwnLook(s: State, pid: Pid, g: Graph, calm: bool, child: Pid)
    requires Reuses(s, pid, g, calm)
    ensures var t := After(s, (pid, Look(child))); t.disk == s.disk && Reuses(t, pid, g, calm)
  {
    if LookStep(s, pid, child).Some? {
      var p := s.procs[pid].publisher;
      var t := LookStep(s, pid, child).value;
      assert t.procs[child] == Reading(Check(p));
      hide Serves;
      forall q | q in t.procs ensures !Excludes(t.procs[q], s.disk.public.tree.value) {
        if q != pid && q != child { assert !Excludes(s.procs[q], s.disk.public.tree.value); }
      }
    }
  }

  /** The only way on leads to the end. */
  lemma OwnAdvance(s: State, pid: Pid, g: Graph, calm: bool)
    requires Reuses(s, pid, g, calm) && PublisherStep(s, s.procs[pid].publisher, Advance).Some?
    ensures var e := PublisherStep(s, s.procs[pid].publisher, Advance).value;
            && e.disk == s.disk && e.publisher == s.procs[pid].publisher.(at := e.publisher.at)
            && (e.publisher.at == Before(FenceAbsent) || e.publisher.at == Before(WriterAbsent)
                || e.publisher.at == Gone(Reused) || (!calm && e.publisher.at == Gone(Plain)))
  {
    hide Unexcluded;
  }

  lemma OwnLetsReuse(s: State, pid: Pid, g: Graph, calm: bool, a: Action)
    requires Reuses(s, pid, g, calm) && a != Stale && (calm ==> Calm(a))
    ensures After(s, (pid, a)).disk == s.disk && Reuses(After(s, (pid, a)), pid, g, calm)
  {
    var p := s.procs[pid].publisher;
    if a.Look? {
      OwnLook(s, pid, g, calm, a.child);
    } else if !a.Spawn? && PublisherStep(s, p, a).Some? {
      var n := PublisherStep(s, p, a).value.publisher;
      if a.Advance? { OwnAdvance(s, pid, g, calm); } else { OwnFailure(s, p, a); }
      hide PublisherStep;
      OwnQuiet(s, pid, n, g);
      hide Quiet, OnTrack;
    }
  }

  lemma OwnFailure(s: State, p: Publisher, a: Action)
    requires (p.at.Before?
              && (p.at.step.Arriving? || p.at.step.FenceAbsent? || p.at.step.WriterAbsent? || p.at.step.Looking?))
             || p.at.Gone?
    requires !a.Advance? && PublisherStep(s, p, a).Some?
    ensures var e := PublisherStep(s, p, a).value;
            && e.disk == s.disk && (a.Fail? || a.Kill?)
            && e.publisher == (if a.Kill? then p.(alive := false) else p.(at := Gone(Plain)))
  {
  }

  /**
   Where what is public serves its lockfile, an unforced publication never
   gets as far as acquiring anything, and never writes: among any checks, it
   ends by reusing what is there, unless the operating system fails it.
   */
  lemma {:induction false} SecondRunReuses(s: State, schedule: Schedule, pid: Pid, g: Graph, calm: bool)
    requires Reuses(s, pid, g, calm) && ChecksAnd(s, pid, schedule)
    requires calm ==> forall k :: 0 <= k < |schedule| ==> Calm(schedule[k].1)
    ensures Run(s, schedule).disk == s.disk && Reuses(Run(s, schedule), pid, g, calm)
    decreases |schedule|
  {
    hide Reuses, Step, ChecksOrOwn;
    if |schedule| > 0 {
      var e := schedule[0];
      var t := After(s, e);
      assert ChecksOrOwn(s, pid, e);
      NotStale(s, pid, g, calm, e);
      if e.0 == pid {
        OwnLetsReuse(s, pid, g, calm, e.1);
      } else {
        OthersLetReuse(s, pid, g, calm, e);
      }
      RunFirst(s, schedule);
      StillChecks(s, pid, e, schedule[1..]);
      assert calm ==> forall k :: 0 <= k < |schedule| - 1 ==> Calm(schedule[1..][k].1);
      SecondRunReuses(t, schedule[1..], pid, g, calm);
    }
  }

  lemma StillChecks(s: State, pid: Pid, e: (Pid, Action), rest: Schedule)
    requires ChecksOrOwn(s, pid, e) && pid in s.procs && forall k :: 0 <= k < |rest| ==> ChecksOrOwn(s, pid, rest[k])
    ensures ChecksAnd(After(s, e), pid, rest)
  {
    hide ReaderStep, PublisherStep;
    forall k | 0 <= k < |rest| ensures ChecksOrOwn(After(s, e), pid, rest[k]) {
      assert ChecksOrOwn(s, pid, rest[k]);
    }
  }

  lemma NotStale(s: State, pid: Pid, g: Graph, calm: bool, e: (Pid, Action))
    requires Reuses(s, pid, g, calm) && ChecksOrOwn(s, pid, e)
    ensures e.1 != Stale && pid in s.procs
  {
  }

  // ---------- A second publication comes to its end ----------

  lemma {:induction false} RunAppend(s: State, a: Schedule, b: Schedule)
    ensures Run(s, a + b) == Run(Run(s, a), b)
    decreases |a|
  {
    hide Step;
    if |a| == 0 {
      assert a + b == b;
    } else {
      RunFirst(s, a + b);
      RunFirst(s, a);
      assert (a + b)[1..] == a[1..] + b;
      RunAppend(After(s, a[0]), a[1..], b);
    }
  }

  lemma RunOne(s: State, e: (Pid, Action))
    ensures Run(s, [e]) == After(s, e)
  {
    RunFirst(s, [e]);
    assert [e][1..] == [];
  }

  /** `n` steps of one process in a row. */
  function Steps(pid: Pid, n: nat): (r: Schedule)
    ensures |r| == n && forall k :: 0 <= k < n ==> r[k] == (pid, Advance)
  {
    if n == 0 then [] else [(pid, Advance)] + Steps(pid, n - 1)
  }

  lemma {:induction false} StepsAdvance(pid: Pid, n: nat)
    ensures Advances(Steps(pid, n), pid) == n
  {
    if n > 0 {
      assert Steps(pid, n)[1..] == Steps(pid, n - 1);
      StepsAdvance(pid, n - 1);
    }
  }

  /** To its own check, through the check, and back. */
  function ReuseSchedule(pid: Pid, child: Pid): Schedule {
    Steps(pid, 2) + [(pid, Look(child))] + Steps(child, ACCEPTED) + [(pid, Advance)]
  }

  lemma ReachesCheck(s: State, pid: Pid, g: Graph, child: Pid)
    requires Reuses(s, pid, g, true) && s.procs[pid].publisher.at == Before(Arriving) && child !in s.procs
    ensures var t := Run(s, Steps(pid, 2) + [(pid, Look(child))]);
            && t.disk == s.disk && Reuses(t, pid, g, true)
            && t.procs[pid] == Publishing(s.procs[pid].publisher.(at := Before(Looking(child))))
            && t.procs[child].reader.reading == ReadBegin
  {
    var p := s.procs[pid].publisher;
    var a := After(s, (pid, Advance));
    var b := After(a, (pid, Advance));
    OwnLetsReuse(s, pid, g, true, Advance);
    assert a.procs[pid] == Publishing(p.(at := Before(FenceAbsent))) && child !in a.procs;
    OwnLetsReuse(a, pid, g, true, Advance);
    assert b.procs[pid] == Publishing(p.(at := Before(WriterAbsent))) && child !in b.procs;
    OwnLetsReuse(b, pid, g, true, Look(child));
    hide Reuses, Run, PublisherStep;
    RunOne(s, (pid, Advance));
    RunOne(a, (pid, Advance));
    RunOne(b, (pid, Look(child)));
    RunAppend(s, [(pid, Advance)], [(pid, Advance)]);
    assert Steps(pid, 2) == [(pid, Advance)] + [(pid, Advance)];
    RunAppend(s, Steps(pid, 2), [(pid, Look(child))]);
  }

  lemma CheckFinishes(s: State, pid: Pid, g: Graph, child: Pid)
    requires Reuses(s, pid, g, true) && s.procs[pid].publisher.at == Before(Looking(child))
    requires s.procs[child].reader.reading == ReadBegin
    ensures var t := Run(s, Steps(child, ACCEPTED));
            && Reuses(t, pid, g, true) && t.procs[pid].publisher.at == Before(Looking(child))
            && t.procs[child].reader.reading == Accepted
  {
    var later := Steps(child, ACCEPTED);
    StepsAdvance(child, ACCEPTED);
    QuietCheckAccepts(s, later, child);
    SecondRunReuses(s, later, pid, g, true);
    ChecksLeaveOthers(s, later, pid);
    RankOfTrack(s.disk, Run(s, later).procs[child].reader);
    hide Run, Quiet;
  }

  /** A schedule in which a process does not appear leaves it as it was. */
  lemma {:induction false} ChecksLeaveOthers(s: State, schedule: Schedule, pid: Pid)
    requires pid in s.procs && forall k :: 0 <= k < |schedule| ==> schedule[k].0 != pid && schedule[k].1.Advance?
    ensures pid in Run(s, schedule).procs && Run(s, schedule).procs[pid] == s.procs[pid]
    decreases |schedule|
  {
    hide ReaderStep, PublisherStep;
    if |schedule| > 0 {
      RunFirst(s, schedule);
      ChecksLeaveOthers(After(s, schedule[0]), schedule[1..], pid);
    }
  }

  /** The reuse is not only never missed, it is reached. */
  lemma SecondRunEnds(s: State, pid: Pid, g: Graph, child: Pid)
    requires Reuses(s, pid, g, true) && s.procs[pid].publisher.at == Before(Arriving) && child !in s.procs
    ensures var t := Run(s, ReuseSchedule(pid, child));
            t.disk == s.disk && pid in t.procs && t.procs[pid] == Publishing(s.procs[pid].publisher.(at := Gone(Reused)))
  {
    var first, second := Steps(pid, 2) + [(pid, Look(child))], Steps(child, ACCEPTED);
    ReachesCheck(s, pid, g, child);
    var t := Run(s, first);
    CheckFinishes(t, pid, g, child);
    var u := Run(t, second);
    RunAppend(s, first, second);
    RunAppend(s, first + second, [(pid, Advance)]);
    RunOne(u, (pid, Advance));
    ChecksLeaveOthers(t, second, pid);
    QuietCheckAccepts(t, second, child);
    hide Run, Reuses, Quiet;
    assert Looks(u, child) == Some(Accepted);
  }

  // ---------- After success ----------

  /** The state in which a publisher has just returned success. */
  ghost predicate JustPublished(s: State, early: Schedule, pid: Pid, u: State, g: Graph) {
    && Initial(s) && pid in Run(s, early).procs
    && var p := Run(s, early).procs[pid];
       && p.Publishing? && p.publisher.alive && p.publisher.at == Released(Success) && p.publisher.graph == g
       && u == After(Run(s, early), (pid, Advance))
  }

  /**
   After any run in which a publication succeeded, and with nothing written
   since, the next check for its lockfile goes on as long as it is let, is
   refused only if the operating system fails it or the lockfile changes, and
   accepts exactly what is public.
   */
  lemma PublicationThenCheck(s: State, early: Schedule, pid: Pid, u: State, reader: Pid, r: Reader, later: Schedule)
    requires JustPublished(s, early, pid, u, r.graph)
    requires reader !in u.procs && FreshProcess(Reading(r))
    requires var v := After(u, (reader, Spawn(Reading(r)))); Checks(v, later) && NoTrouble(later, reader)
    ensures var end := Run(After(u, (reader, Spawn(Reading(r)))), later);
            && end.disk == u.disk && reader in end.procs && end.procs[reader].Reading?
            && !end.procs[reader].reader.reading.Refused?
            && (Advances(later, reader) >= ACCEPTED ==>
                  end.procs[reader].reader == r.(reading := Accepted, seen := u.disk.public))
  {
    SuccessIsQuiet(s, early, pid);
    assert Quiet(u, r.graph);
    hide *;
    NextCheck(u, reader, r, later);
  }

  lemma NextCheck(u: State, reader: Pid, r: Reader, later: Schedule)
    requires Quiet(u, r.graph) && reader !in u.procs && FreshProcess(Reading(r))
    requires var v := After(u, (reader, Spawn(Reading(r)))); Checks(v, later) && NoTrouble(later, reader)
    ensures var end := Run(After(u, (reader, Spawn(Reading(r)))), later);
            && end.disk == u.disk && reader in end.procs && end.procs[reader].Reading?
            && !end.procs[reader].reader.reading.Refused?
            && (Advances(later, reader) >= ACCEPTED ==>
                  end.procs[reader].reader == r.(reading := Accepted, seen := u.disk.public))
  {
    hide Serves, Unexcluded, Run;
    var e := (reader, Spawn(Reading(r)));
    var v := After(u, e);
    CheckStep(u, e, r.graph);
    QuietCheckAccepts(v, later, reader);
    RankOfTrack(u.disk, Run(v, later).procs[reader].reader);
    SameReader(v, later, reader);
  }

  /** A reader only moves on: its lockfile and its care about writers stay. */
  lemma {:induction false} SameReader(s: State, schedule: Schedule, pid: Pid)
    requires pid in s.procs && s.procs[pid].Reading?
    ensures var t := Run(s, schedule);
            && pid in t.procs && t.procs[pid].Reading? && t.procs[pid].reader.graph == s.procs[pid].reader.graph
            && t.procs[pid].reader.refuseWriter == s.procs[pid].reader.refuseWriter
    decreases |schedule|
  {
    hide PublisherStep;
    if |schedule| > 0 {
      RunFirst(s, schedule);
      SameReader(After(s, schedule[0]), schedule[1..], pid);
    }
  }

  /**
   After any run in which a publication succeeded, and with nothing written
   since, a second one that is not forced leaves the directory as it is and
   never gets as far as the operation lock, let alone to acquiring anything;
   and unless the operating system fails it, it can only end by reusing.
   */
  lemma PublicationThenReuse(s: State, early: Schedule, pid: Pid, u: State, second: Pid, q: Publisher, later: Schedule,
                             calm: bool)
    requires JustPublished(s, early, pid, u, q.graph)
    requires second !in u.procs && FreshProcess(Publishing(q)) && !q.force
    requires var v := After(u, (second, Spawn(Publishing(q)))); ChecksAnd(v, second, later)
    requires calm ==> forall k :: 0 <= k < |later| ==> Calm(later[k].1)
    ensures var end := Run(After(u, (second, Spawn(Publishing(q)))), later);
            && end.disk == u.disk && second in end.procs && end.procs[second].Publishing?
            && var at := end.procs[second].publisher.at;
               || at == Gone(Reused) || (!calm && at == Gone(Plain))
               || (at.Before? && !at.step.Clearing? && !at.step.Locking?)
  {
    SuccessIsQuiet(s, early, pid);
    assert Quiet(u, q.graph);
    hide Initial, Run;
    var v := After(u, (second, Spawn(Publishing(q))));
    SpawnReuses(u, second, q, calm);
    SecondRunReuses(v, later, second, q.graph, calm);
    hide Quiet, OnTrack;
  }

  lemma SpawnReuses(s: State, second: Pid, q: Publisher, calm: bool)
    requires Quiet(s, q.graph) && second !in s.procs && FreshProcess(Publishing(q)) && !q.force
    ensures var v := After(s, (second, Spawn(Publishing(q)))); v.disk == s.disk && Reuses(v, second, q.graph, calm)
  {
    var v, tree := After(s, (second, Spawn(Publishing(q)))), s.disk.public.tree.value;
    hide Serves;
    forall i | i in v.procs ensures !Excludes(v.procs[i], tree) {
      if i != second { assert !Excludes(s.procs[i], tree); }
    }
  }
}
