/**
 What was looked at: the resolver and the tree that a check accepts bind and
 hold every package of its lockfile, and so do those that a publisher stages.
 */
module VendorContent {
  import opened Options
  import opened VendorProtocol
  import opened VendorSafety

  /** What a publisher stages binds and holds every package, and that is what it publishes. */
  ghost predicate PublisherContent(p: Publisher) {
    && (p.candidate.Some? ==>
          p.candidate.value.content == p.content && p.graph.binds(p.config) && p.graph.covers(p.content))
    && (p.resolver.Some? ==> p.resolver.value.bytes == p.config)
    && (p.receipt.Some? ==> p.receipt.value.bytes == p.graph.digest)
  }

  predicate Checked(reading: ReadPhase) {
    reading.Catalogued? || reading.FenceClearAgain? || reading.WriterAbsentAgain? || reading.ReceiptConfirmed?
    || reading.Accepted?
  }

  /** The resolver that a reader has seen binds, and the tree it has catalogued holds every package. */
  ghost predicate ReaderContent(r: Reader) {
    && (r.seen.resolver.Some? ==> r.graph.binds(r.seen.resolver.value.bytes))
    && (Checked(r.reading) ==> r.seen.tree.Some? && r.graph.covers(r.seen.tree.value.content))
  }

  /** A check for `g` that has accepted. */
  ghost predicate AcceptedFor(p: Process, g: Graph)
    requires p.Reading?
  {
    (p.reader.reading.Accepted? || p.reader.reading.AcceptedUnmanaged?) && p.reader.graph == g
  }

  ghost predicate Accepts(s: State, g: Graph) {
    exists c :: c in s.procs && s.procs[c].Reading? && AcceptedFor(s.procs[c], g)
  }

  ghost predicate Waits(s: State, child: Pid, g: Graph) {
    child in s.procs && s.procs[child].Reading? && s.procs[child].reader.graph == g
  }

  ghost predicate Content(s: State, p: Process) {
    match p
    case Reading(r) => ReaderContent(r)
    case Publishing(p) =>
      && PublisherContent(p)
      && (p.at.Before? && p.at.step.Looking? ==> Waits(s, p.at.step.child, p.graph))
      && (p.at.Relooking? ==> Waits(s, p.at.child, p.graph))
      && (Reusing(p.at) ==> Accepts(s, p.graph))
  }

  ghost predicate Contents(s: State) {
    forall i :: i in s.procs ==> Content(s, s.procs[i])
  }

  lemma ReaderKeepsContent(s: State, r: Reader, a: Action)
    requires ReaderContent(r) && ReaderStep(s, r, a).Some?
    ensures var n := ReaderStep(s, r, a).value;
            ReaderContent(n) && n.graph == r.graph && (Ended(r.reading) ==> n == r)
  {
  }

  predicate Reusing(at: PublishPhase) { at == Gone(Reused) || at == Released(Reused) || at == Returning(Reused) }

  /** A step leads only to what its publisher has looked at. */
  ghost predicate Honest(s: State, p: Publisher, n: Publisher) {
    && PublisherContent(n) && n.graph == p.graph && n.force == p.force
    && (n.at.Before? && n.at.step.Looking? ==> n.at == p.at) && (n.at.Relooking? ==> n.at == p.at)
    && (Reusing(n.at) ==> Accepts(s, p.graph))
  }

  lemma LooksAccept(s: State, child: Pid, g: Graph)
    requires Waits(s, child, g) && Looks(s, child).Some? && !Looks(s, child).value.Refused?
    ensures Accepts(s, g)
  {
    assert AcceptedFor(s.procs[child], g);
  }

  /** A step that publishes nothing new. */
  ghost predicate Keeps(s: State, p: Publisher, n: Publisher) {
    && n.graph == p.graph && n.force == p.force && n.config == p.config && n.content == p.content
    && n.candidate == p.candidate && n.resolver == p.resolver && n.receipt == p.receipt
    && ((n.at.Before? && n.at.step.Looking?) || n.at.Relooking? ==> n.at == p.at)
    && (Reusing(n.at) ==> Accepts(s, p.graph))
  }

  lemma KeepsIsHonest(s: State, p: Publisher, n: Publisher)
    requires PublisherContent(p) && Keeps(s, p, n)
    ensures Honest(s, p, n)
  {
    hide Accepts;
  }

  lemma LookingIsHonest(s: State, p: Publisher)
    requires PublisherContent(p) && p.at.Before? && p.at.step.Looking? && Waits(s, p.at.step.child, p.graph)
    requires PrefaceNext(s, p).Some?
    ensures Honest(s, p, PrefaceNext(s, p).value.publisher)
  {
    hide Accepts, Looks, PublisherContent, Waits, Honest;
    var child := p.at.step.child;
    if !Looks(s, child).value.Refused? {
      LooksAccept(s, child, p.graph);
      KeepsIsHonest(s, p, p.(at := Gone(Reused)));
    } else {
      KeepsIsHonest(s, p, p.(at := Gone(Plain)));
      KeepsIsHonest(s, p, p.(at := Before(Clearing)));
    }
  }

  lemma WaysAreHonest(s: State, p: Publisher)
    requires PublisherContent(p)
    ensures Honest(s, p, p.(at := Gone(Plain))) && Honest(s, p, p.(at := Before(FenceAbsent)))
    ensures Honest(s, p, p.(at := Before(WriterAbsent))) && Honest(s, p, p.(at := Before(Clearing)))
    ensures Honest(s, p, p.(at := Before(Locking)))
  {
    hide Accepts, PublisherContent, Honest;
    KeepsIsHonest(s, p, p.(at := Gone(Plain)));
    KeepsIsHonest(s, p, p.(at := Before(FenceAbsent)));
    KeepsIsHonest(s, p, p.(at := Before(WriterAbsent)));
    KeepsIsHonest(s, p, p.(at := Before(Clearing)));
    KeepsIsHonest(s, p, p.(at := Before(Locking)));
  }

  lemma TakingIsHonest(s: State, p: Publisher)
    requires PublisherContent(p)
    ensures Honest(s, p, TakeOperation(s.disk, p, Holding).publisher)
  {
    hide Accepts, PublisherContent, Honest;
    KeepsIsHonest(s, p, TakeOperation(s.disk, p, Holding).publisher);
  }

  lemma PrefaceIsHonest(s: State, p: Publisher)
    requires Content(s, Publishing(p)) && p.at.Before? && PrefaceNext(s, p).Some?
    ensures Honest(s, p, PrefaceNext(s, p).value.publisher)
  {
    assert PublisherContent(p);
    if p.at.step.Looking? {
      LookingIsHonest(s, p);
    } else {
      hide Accepts, Looks, PublisherContent, Waits, Honest, Content, TakeOperation;
      WaysAreHonest(s, p);
      TakingIsHonest(s, p);
    }
  }

  lemma LookIsHonest(s: State, p: Publisher)
    requires Content(s, Publishing(p)) && Scouting(p.at) && LookNext(s, p).Some?
    ensures Honest(s, p, LookNext(s, p).value.publisher)
  {
    hide Accepts, Looks, PublisherContent, Waits;
    if p.at.Relooking? && !Looks(s, p.at.child).value.Refused? { LooksAccept(s, p.at.child, p.graph); }
    KeepsIsHonest(s, p, LookNext(s, p).value.publisher);
  }

  lemma StageIsHonest(s: State, p: Publisher)
    requires PublisherContent(p)
    ensures p.at.Settled? ==> Honest(s, p, StageTree(s.disk, p).publisher)
  {
    hide Accepts;
  }

  lemma PrepareIsHonest(s: State, p: Publisher)
    requires PublisherContent(p) && Preparing(p.at)
    ensures Honest(s, p, PrepareNext(s, p).publisher)
  {
    hide Accepts, Unlocked, PublisherContent, StageTree, Honest;
    if p.at.Settled? { StageIsHonest(s, p); } else { KeepsIsHonest(s, p, PrepareNext(s, p).publisher); }
  }

  /** No step of a commit, and no end of one, waits for a check or stands for one. */
  predicate Plainly(at: PublishPhase) { Committing(at) || at == Gone(Plain) || at == Returning(Plain) }

  lemma MoveIsHonest(s: State, p: Publisher, at: PublishPhase)
    requires PublisherContent(p) && Plainly(at)
    ensures Honest(s, p, MoveOld(s.disk, p, at).publisher)
  {
    hide Accepts, PublisherContent, Honest;
    KeepsIsHonest(s, p, MoveOld(s.disk, p, at).publisher);
  }

  lemma PublishIsHonest(s: State, p: Publisher, at: PublishPhase)
    requires PublisherContent(p) && Plainly(at)
    ensures Honest(s, p, PublishTree(s.disk, p, at).publisher)
  {
    hide Accepts, PublisherContent, Honest;
    KeepsIsHonest(s, p, PublishTree(s.disk, p, at).publisher);
  }

  lemma TakeIsHonest(s: State, p: Publisher, at: PublishPhase)
    requires PublisherContent(p) && Plainly(at)
    ensures Honest(s, p, TakeOperation(s.disk, p, at).publisher) && Honest(s, p, p.(at := at))
  {
    hide Accepts, PublisherContent, Honest;
    KeepsIsHonest(s, p, TakeOperation(s.disk, p, at).publisher);
    KeepsIsHonest(s, p, p.(at := at));
  }

  lemma ControlsAreHonest(s: State, p: Publisher, at: PublishPhase)
    requires PublisherContent(p) && Committing(at)
    ensures Honest(s, p, WriteResolver(s.disk, p, at).publisher) && Honest(s, p, WriteReceipt(s.disk, p, at).publisher)
  {
    hide Accepts;
  }

  lemma SwapIsHonest(s: State, p: Publisher)
    requires PublisherContent(p) && Swapping(p.at) && SwapNext(s.disk, p).Some?
    ensures Honest(s, p, SwapNext(s.disk, p).value.publisher)
  {
    hide Accepts, PublisherContent, Honest, MoveOld, PublishTree, WriteResolver, WriteReceipt;
    if p.at.Fenced? { MoveIsHonest(s, p, Moved); } else { PublishIsHonest(s, p, Published); }
    ControlsAreHonest(s, p, if p.at.Published? then ResolverWritten else ReceiptWritten);
  }

  lemma CloseIsHonest(s: State, p: Publisher)
    requires PublisherContent(p) && (Reusing(p.at) ==> Accepts(s, p.graph)) && CloseNext(s.disk, p).Some?
    ensures Honest(s, p, CloseNext(s.disk, p).value.publisher)
  {
    hide Accepts, PublisherContent, Honest;
    KeepsIsHonest(s, p, CloseNext(s.disk, p).value.publisher);
  }

  lemma EffectBeforeFailure(s: State, p: Publisher)
    requires PublisherContent(p) && PublishThenFail(s.disk, p).Some?
    ensures Honest(s, p, PublishThenFail(s.disk, p).value.publisher)
  {
    hide Accepts, PublisherContent, Honest, MoveOld, PublishTree, WriteResolver, WriteReceipt, TakeOperation,
         AfterFailure;
    MoveIsHonest(s, p, Refencing);
    PublishIsHonest(s, p, Refencing);
    TakeIsHonest(s, p, Gone(Plain));
    TakeIsHonest(s, p, Returning(Plain));
    ControlsAreHonest(s, p, Refencing);
  }

  lemma FailureIsHonest(s: State, p: Publisher)
    requires PublisherContent(p) && (Reusing(p.at) ==> Accepts(s, p.graph))
    ensures AfterFailure(p).Some? ==> Honest(s, p, p.(at := AfterFailure(p).value))
    ensures Honest(s, p, p.(alive := false))
  {
    hide Accepts, PublisherContent, Honest, PublishThenFail;
    if AfterFailure(p).Some? { KeepsIsHonest(s, p, p.(at := AfterFailure(p).value)); }
    KeepsIsHonest(s, p, p.(alive := false));
  }

  lemma PublisherIsHonest(s: State, p: Publisher, a: Action)
    requires Content(s, Publishing(p)) && PublisherStep(s, p, a).Some?
    ensures Honest(s, p, PublisherStep(s, p, a).value.publisher)
  {
    assert PublisherContent(p) && (Reusing(p.at) ==> Accepts(s, p.graph));
    hide PrefaceNext, LookNext, PrepareNext, SwapNext, CloseNext, PublishThenFail, AfterFailure, Honest, Content,
         PublisherContent, Accepts;
    if a.Advance? {
      if p.at.Before? { PrefaceIsHonest(s, p); }
      else if Scouting(p.at) { LookIsHonest(s, p); }
      else if Preparing(p.at) { PrepareIsHonest(s, p); }
      else if Swapping(p.at) { SwapIsHonest(s, p); }
      else { CloseIsHonest(s, p); }
    } else if a.FailAfter? {
      EffectBeforeFailure(s, p);
    } else {
      FailureIsHonest(s, p);
    }
  }

  /** Nobody that others wait for, or have waited for, disappears or changes its mind. */
  ghost predicate Stays(s: State, t: State) {
    forall i :: i in s.procs && s.procs[i].Reading? ==>
      && i in t.procs && t.procs[i].Reading? && t.procs[i].reader.graph == s.procs[i].reader.graph
      && (Ended(s.procs[i].reader.reading) ==> t.procs[i] == s.procs[i])
  }

  lemma StaysContent(s: State, t: State, p: Process)
    requires Content(s, p) && Stays(s, t)
    ensures Content(t, p)
  {
    hide PublisherContent, ReaderContent;
    if p.Publishing? && Accepts(s, p.publisher.graph) {
      var c :| c in s.procs && s.procs[c].Reading? && AcceptedFor(s.procs[c], p.publisher.graph);
      assert t.procs[c] == s.procs[c];
    }
  }

  lemma StepStays(s: State, pid: Pid, a: Action)
    requires Contents(s) && Step(s, pid, a).Some?
    ensures Stays(s, Step(s, pid, a).value)
  {
    hide PublisherStep, PublisherContent;
    if pid in s.procs && s.procs[pid].Reading? && !a.Spawn? && !a.Look? {
      assert Content(s, s.procs[pid]);
      ReaderKeepsContent(s, s.procs[pid].reader, a);
    }
  }

  lemma HonestKeepsContent(s: State, t: State, p: Publisher, n: Publisher)
    requires Content(s, Publishing(p)) && Honest(s, p, n) && Stays(s, t)
    ensures Content(t, Publishing(n))
  {
    hide PublisherContent, Accepts;
    if Accepts(s, p.graph) { AcceptsStays(s, t, p.graph); }
  }

  lemma ActorKeepsContent(s: State, pid: Pid, a: Action)
    requires Contents(s) && Step(s, pid, a).Some?
    ensures pid in Step(s, pid, a).value.procs && Content(Step(s, pid, a).value, Step(s, pid, a).value.procs[pid])
  {
    var t := Step(s, pid, a).value;
    StepStays(s, pid, a);
    if pid in s.procs && !a.Spawn? {
      assert Content(s, s.procs[pid]);
      match s.procs[pid]
      case Reading(r) => ReaderKeepsContent(s, r, a);
      case Publishing(p) =>
        if !a.Look? {
          hide PublisherStep, Content, Honest;
          PublisherIsHonest(s, p, a);
          HonestKeepsContent(s, t, p, PublisherStep(s, p, a).value.publisher);
        }
    }
  }

  lemma AcceptsStays(s: State, t: State, g: Graph)
    requires Stays(s, t) && Accepts(s, g)
    ensures Accepts(t, g)
  {
    var c :| c in s.procs && s.procs[c].Reading? && AcceptedFor(s.procs[c], g);
    assert t.procs[c] == s.procs[c];
  }

  lemma StepKeepsContents(s: State, pid: Pid, a: Action)
    requires Contents(s) && Step(s, pid, a).Some?
    ensures Contents(Step(s, pid, a).value)
  {
    var t := Step(s, pid, a).value;
    StepStays(s, pid, a);
    ActorKeepsContent(s, pid, a);
    forall i | i in t.procs && i != pid ensures Content(t, t.procs[i]) {
      if i in s.procs {
        OthersStay(s, pid, a, i);
        StaysContent(s, t, s.procs[i]);
      }
    }
  }

  lemma OthersStay(s: State, pid: Pid, a: Action, i: Pid)
    requires Step(s, pid, a).Some? && i in s.procs && i != pid
    ensures i in Step(s, pid, a).value.procs && Step(s, pid, a).value.procs[i] == s.procs[i]
  {
    hide ReaderStep, PublisherStep;
  }

  // ---------- Every run ----------

  lemma {:induction false} RunKeepsContents(s: State, schedule: seq<(Pid, Action)>)
    requires Contents(s)
    ensures Contents(Run(s, schedule))
    decreases |schedule|
  {
    hide Step, Contents;
    if |schedule| > 0 {
      var step := Step(s, schedule[0].0, schedule[0].1);
      if step.Some? { StepKeepsContents(s, schedule[0].0, schedule[0].1); }
      RunKeepsContents(if step.Some? then step.value else s, schedule[1..]);
    }
  }

  /**
   A check that accepts a graph with external packages saw a resolver that
   binds every package and a tree that holds them all, besides seeing one
   publication.
   */
  lemma CheckSawEveryPackage(s: State, schedule: seq<(Pid, Action)>, pid: Pid)
    requires Initial(s) && pid in Run(s, schedule).procs
    requires var p := Run(s, schedule).procs[pid];
             p.Reading? && (p.reader.reading.Accepted? || (p.reader.reading.AcceptedUnmanaged? && p.reader.graph.external))
    ensures var r := Run(s, schedule).procs[pid].reader;
            && r.seen.resolver.Some? && r.graph.binds(r.seen.resolver.value.bytes)
            && r.seen.tree.Some? && r.graph.covers(r.seen.tree.value.content)
  {
    var end := Run(s, schedule);
    RunKeeps(s, schedule, s.disk.done);
    RunKeepsContents(s, schedule);
    assert ProcessOk(end.disk, end.procs[pid]) && Content(end, end.procs[pid]);
  }

  /** A publisher that reuses what is there has run a check for its own lockfile that accepted it. */
  lemma ReuseSawOnePublication(s: State, schedule: seq<(Pid, Action)>, pid: Pid)
    requires Initial(s) && pid in Run(s, schedule).procs
    requires var p := Run(s, schedule).procs[pid]; p.Publishing? && Reusing(p.publisher.at)
    ensures var end := Run(s, schedule);
            Accepts(end, end.procs[pid].publisher.graph)
  {
    RunKeepsContents(s, schedule);
    var end := Run(s, schedule);
    assert Content(end, end.procs[pid]);
  }
}
