/**
 Many promotions into one generation parent, interleaved at every filesystem
 action. A generation is its complete listing, under the name that its hashed
 identity gives it.
 */
module GenerationStore {
  import opened Options
  import opened GenerationIdentity

  type Pid = nat
  type Content = seq<SourceEntry>

  datatype Verdict = Fresh | Reused | Refused | Failed | CleanupFailed

  datatype Phase =
    | Starting | Filling | Built | Hardened | Cleaning(verdict: Verdict) | Returned(verdict: Verdict) | Dead

  datatype Promoter = Promoter(entries: Content, provenance: Provenance, at: Phase)

  datatype State = State(hash: Hash, published: map<string, Content>, staging: map<Pid, Content>,
                         procs: map<Pid, Promoter>)

  datatype Action = Spawn(entries: Content, provenance: Provenance) | Advance | Fail | Kill

  function IdentityOf(hash: Hash, p: Promoter): Digest { hash(IdentityBytes(p.entries, p.provenance)) }

  function NameOf(hash: Hash, p: Promoter): string { GenerationName(IdentityOf(hash, p)) }

  /** `reuse_or_collision`: re-identify what is there, with this plan's own provenance. */
  function Compare(hash: Hash, existing: Content, p: Promoter): Phase {
    Cleaning(if hash(IdentityBytes(existing, p.provenance)) == IdentityOf(hash, p) then Reused else Refused)
  }

  function Become(s: State, pid: Pid, p: Promoter, at: Phase): State {
    s.(procs := s.procs[pid := p.(at := at)])
  }

  function Proceed(s: State, pid: Pid, p: Promoter): Option<State> {
    var name := NameOf(s.hash, p);
    match p.at
    case Starting => Some(Become(s, pid, p, Filling).(staging := s.staging[pid := []]))
    case Filling => Some(Become(s, pid, p, Built).(staging := s.staging[pid := p.entries]))
    case Built =>
      Some(Become(s, pid, p, if name in s.published then Compare(s.hash, s.published[name], p) else Hardened))
    case Hardened =>
      if name in s.published then Some(Become(s, pid, p, Compare(s.hash, s.published[name], p)))
      else if pid !in s.staging then None
      else Some(Become(s, pid, p, Returned(Fresh))
                .(published := s.published[name := s.staging[pid]], staging := s.staging - {pid}))
    case Cleaning(v) => Some(Become(s, pid, p, Returned(v)).(staging := s.staging - {pid}))
    case _ => None
  }

  function Falter(s: State, pid: Pid, p: Promoter): Option<State> {
    match p.at
    case Starting => Some(Become(s, pid, p, Returned(Failed)))
    case Filling | Built | Hardened => Some(Become(s, pid, p, Cleaning(Failed)))
    case Cleaning(_) => Some(Become(s, pid, p, Returned(CleanupFailed)))
    case _ => None
  }

  function Step(s: State, pid: Pid, a: Action): Option<State> {
    match a
    case Spawn(entries, provenance) =>
      if pid in s.procs || pid in s.staging || !ValidProvenance(provenance) then None
      else Some(s.(procs := s.procs[pid := Promoter(entries, provenance, Starting)]))
    case Advance => if pid in s.procs then Proceed(s, pid, s.procs[pid]) else None
    case Fail => if pid in s.procs then Falter(s, pid, s.procs[pid]) else None
    case Kill =>
      if pid in s.procs && !s.procs[pid].at.Returned? then Some(Become(s, pid, s.procs[pid], Dead)) else None
  }

  function Run(s: State, schedule: seq<(Pid, Action)>): State
    decreases |schedule|
  {
    if |schedule| == 0 then s
    else
      match Step(s, schedule[0].0, schedule[0].1)
      case None => Run(s, schedule[1..])
      case Some(next) => Run(next, schedule[1..])
  }

  /** Whatever generations are already there, genuine or not. */
  predicate Initial(s: State) { s.procs == map[] && s.staging == map[] }

  predicate Good(v: Verdict) { v.Fresh? || v.Reused? }

  // The encoding's length fields must fit in eight bytes.
  ghost predicate Representable(s: State) {
    && (forall i :: i in s.procs ==> Encodable(IdentityFields(s.procs[i].entries, s.procs[i].provenance)))
    && (forall i, n :: i in s.procs && n in s.published ==>
          Encodable(IdentityFields(s.published[n], s.procs[i].provenance)))
  }

  /** The hash gives different content the identity of a promotion. */
  ghost predicate Collides(hash: Hash, existing: Content, p: Promoter) {
    && IdentityBytes(existing, p.provenance) != IdentityBytes(p.entries, p.provenance)
    && hash(IdentityBytes(existing, p.provenance)) == IdentityOf(hash, p)
  }

  ghost predicate PromoterOk(s: State, pid: Pid, p: Promoter) {
    var name := NameOf(s.hash, p);
    && ValidProvenance(p.provenance)
    && (p.at.Filling? ==> pid in s.staging)
    && (p.at.Built? || p.at.Hardened? ==> pid in s.staging && s.staging[pid] == p.entries)
    && (p.at.Starting? ==> pid !in s.staging)
    && (p.at.Cleaning? ==> !p.at.verdict.Fresh? && !p.at.verdict.CleanupFailed?)
    && ((p.at.Cleaning? || p.at.Returned?) && Good(p.at.verdict) ==>
          name in s.published
          && s.hash(IdentityBytes(s.published[name], p.provenance)) == IdentityOf(s.hash, p))
    && (p.at == Returned(Fresh) ==> s.published[name] == p.entries)
    && (p.at.Returned? && !p.at.verdict.CleanupFailed? ==> pid !in s.staging)
  }

  ghost predicate OneFresh(s: State) {
    forall i, j :: i in s.procs && j in s.procs && i != j
                   && s.procs[i].at == Returned(Fresh) && s.procs[j].at == Returned(Fresh)
                   ==> NameOf(s.hash, s.procs[i]) != NameOf(s.hash, s.procs[j])
  }

  ghost predicate Inv(s: State) {
    && OneFresh(s)
    && (forall i :: i in s.procs ==> PromoterOk(s, i, s.procs[i]))
    && (forall i :: i in s.staging ==> i in s.procs)
  }

  /** Nothing published is rebound or removed. */
  ghost predicate Grows(before: map<string, Content>, after: map<string, Content>) {
    forall n :: n in before ==> n in after && after[n] == before[n]
  }

  lemma StepGrows(s: State, pid: Pid, a: Action)
    requires Step(s, pid, a).Some?
    ensures Grows(s.published, Step(s, pid, a).value.published) && Step(s, pid, a).value.hash == s.hash
  {
    hide NameOf, IdentityOf, ValidProvenance;
  }

  lemma StepSelf(s: State, pid: Pid, a: Action)
    requires Inv(s) && Step(s, pid, a).Some?
    ensures var t := Step(s, pid, a).value; pid in t.procs && PromoterOk(t, pid, t.procs[pid])
  {
    hide IdentityBytes, GenerationName, ValidProvenance, OneFresh;
    if pid in s.procs {
      assert PromoterOk(s, pid, s.procs[pid]);
    }
  }

  /** A step leaves other promoters and their staging trees alone. */
  lemma StepFrames(s: State, pid: Pid, a: Action, i: Pid)
    requires i in s.procs && i != pid && Step(s, pid, a).Some?
    ensures var t := Step(s, pid, a).value;
            && i in t.procs && t.procs[i] == s.procs[i] && (i in t.staging <==> i in s.staging)
            && (i in s.staging ==> t.staging[i] == s.staging[i])
  {
    hide NameOf, IdentityOf, ValidProvenance;
  }

  /** What others publish keeps a promoter's own invariant. */
  lemma GrowthKeeps(s: State, t: State, i: Pid, p: Promoter)
    requires PromoterOk(s, i, p) && t.hash == s.hash && Grows(s.published, t.published)
    requires (i in t.staging <==> i in s.staging) && (i in s.staging ==> t.staging[i] == s.staging[i])
    ensures PromoterOk(t, i, p)
  {
    hide NameOf, IdentityOf, IdentityBytes, ValidProvenance;
  }

  lemma StepOther(s: State, pid: Pid, a: Action, i: Pid)
    requires i in s.procs && i != pid && PromoterOk(s, i, s.procs[i]) && Step(s, pid, a).Some?
    ensures var t := Step(s, pid, a).value; i in t.procs && t.procs[i] == s.procs[i] && PromoterOk(t, i, t.procs[i])
  {
    hide PromoterOk, Step, Grows;
    StepGrows(s, pid, a);
    StepFrames(s, pid, a, i);
    GrowthKeeps(s, Step(s, pid, a).value, i, s.procs[i]);
  }

  /** A name is published once: only while it is absent. */
  lemma StepFresh(s: State, pid: Pid, a: Action)
    requires Inv(s) && Step(s, pid, a).Some?
    ensures OneFresh(Step(s, pid, a).value)
  {
    hide IdentityBytes, GenerationName, ValidProvenance;
    forall i | i in s.procs && s.procs[i].at == Returned(Fresh) ensures NameOf(s.hash, s.procs[i]) in s.published {
      assert PromoterOk(s, i, s.procs[i]);
    }
  }

  lemma StepMembers(s: State, pid: Pid, a: Action)
    requires Step(s, pid, a).Some?
    ensures var t := Step(s, pid, a).value;
            t.procs.Keys == s.procs.Keys + {pid} && t.staging.Keys <= s.staging.Keys + {pid}
  {
    hide NameOf, IdentityOf, ValidProvenance;
  }

  lemma StepKeeps(s: State, pid: Pid, a: Action)
    requires Inv(s) && Step(s, pid, a).Some?
    ensures Inv(Step(s, pid, a).value)
  {
    hide PromoterOk, OneFresh, Step;
    var t := Step(s, pid, a).value;
    StepMembers(s, pid, a);
    StepSelf(s, pid, a);
    StepFresh(s, pid, a);
    forall i | i in t.procs ensures PromoterOk(t, i, t.procs[i]) {
      if i != pid {
        assert i in s.procs;
        StepOther(s, pid, a, i);
      }
    }
  }

  lemma {:induction false} RunKeeps(s: State, schedule: seq<(Pid, Action)>)
    requires Inv(s)
    ensures Inv(Run(s, schedule)) && Grows(s.published, Run(s, schedule).published)
    ensures Run(s, schedule).hash == s.hash
    decreases |schedule|
  {
    hide Inv, Step;
    if |schedule| > 0 {
      var step := Step(s, schedule[0].0, schedule[0].1);
      if step.Some? {
        StepKeeps(s, schedule[0].0, schedule[0].1);
        StepGrows(s, schedule[0].0, schedule[0].1);
        RunKeeps(step.value, schedule[1..]);
      } else {
        RunKeeps(s, schedule[1..]);
      }
    }
  }

  /** From any prefix of a run to its end, a published name keeps its content. */
  lemma NamesAreNeverRebound(s: State, early: seq<(Pid, Action)>, late: seq<(Pid, Action)>, n: string)
    requires Initial(s) && n in Run(s, early).published
    ensures n in Run(Run(s, early), late).published
    ensures Run(Run(s, early), late).published[n] == Run(s, early).published[n]
  {
    RunKeeps(s, early);
    RunKeeps(Run(s, early), late);
  }

  /** A successful promotion leaves exactly its own content under its name, unless it reuses and the hash collides. */
  lemma SuccessNamesOwnContent(s: State, schedule: seq<(Pid, Action)>, pid: Pid)
    requires Initial(s) && Representable(Run(s, schedule)) && pid in Run(s, schedule).procs
    requires var at := Run(s, schedule).procs[pid].at; at.Returned? && Good(at.verdict)
    ensures var end := Run(s, schedule);
            var p := end.procs[pid];
            var name := NameOf(s.hash, p);
            name in end.published
            && (end.published[name] == p.entries || (p.at.verdict.Reused? && Collides(s.hash, end.published[name], p)))
  {
    RunKeeps(s, schedule);
    var end := Run(s, schedule);
    var p := end.procs[pid];
    assert PromoterOk(end, pid, p);
    var there := end.published[NameOf(s.hash, p)];
    if !Collides(s.hash, there, p) { IdentityBytesInjective(there, p.provenance, p.entries, p.provenance); }
  }

  /** Promotions with one plan, its sources in any order, get one name; at most one of them published it. */
  lemma IdenticalPlansAgree(s: State, schedule: seq<(Pid, Action)>, i: Pid, j: Pid)
    requires Initial(s) && i != j && i in Run(s, schedule).procs && j in Run(s, schedule).procs
    requires var p, q := Run(s, schedule).procs[i], Run(s, schedule).procs[j];
             && p.entries == q.entries && SameProvenance(p.provenance, q.provenance)
             && p.at.Returned? && q.at.Returned? && Good(p.at.verdict) && Good(q.at.verdict)
    ensures var p, q := Run(s, schedule).procs[i], Run(s, schedule).procs[j];
            && NameOf(s.hash, p) == NameOf(s.hash, q) && NameOf(s.hash, p) in Run(s, schedule).published
            && !(p.at.verdict.Fresh? && q.at.verdict.Fresh?)
  {
    RunKeeps(s, schedule);
    var p, q := Run(s, schedule).procs[i], Run(s, schedule).procs[j];
    SourceOrderIsIrrelevant(p.entries, p.provenance, q.provenance);
    assert PromoterOk(Run(s, schedule), i, Run(s, schedule).procs[i]);
  }

  /** Different content that sits under a promotion's name from the start is never taken for its own. */
  lemma DifferentContentIsRefused(s: State, schedule: seq<(Pid, Action)>, pid: Pid)
    requires Initial(s) && Representable(Run(s, schedule)) && pid in Run(s, schedule).procs
    requires var p := Run(s, schedule).procs[pid];
             var name := NameOf(s.hash, p);
             && p.at.Returned? && name in s.published && s.published[name] != p.entries
             && !Collides(s.hash, s.published[name], p)
    ensures !Good(Run(s, schedule).procs[pid].at.verdict)
  {
    RunKeeps(s, schedule);
    if Good(Run(s, schedule).procs[pid].at.verdict) {
      SuccessNamesOwnContent(s, schedule, pid);
    }
  }

  /** A promotion that returned left a staging tree behind only if it reported a cleanup error. */
  lemma NoStagingSurvives(s: State, schedule: seq<(Pid, Action)>, pid: Pid)
    requires Initial(s) && pid in Run(s, schedule).procs
    requires Run(s, schedule).procs[pid].at.Returned? && pid in Run(s, schedule).staging
    ensures Run(s, schedule).procs[pid].at.verdict.CleanupFailed?
  {
    RunKeeps(s, schedule);
    assert PromoterOk(Run(s, schedule), pid, Run(s, schedule).procs[pid]);
  }

  // ---------- One promoter's view of the store ----------

  const ME: Pid := 0

  lemma HardenedStep(s: State)
    requires ME in s.procs && s.procs[ME].at.Built? && NameOf(s.hash, s.procs[ME]) !in s.published
    ensures Step(s, ME, Advance) == Some(Become(s, ME, s.procs[ME], Hardened))
  {
    hide NameOf;
  }

  lemma ComparedStep(s: State)
    requires ME in s.procs && (s.procs[ME].at.Built? || s.procs[ME].at.Hardened?)
    requires NameOf(s.hash, s.procs[ME]) in s.published
    ensures var p := s.procs[ME];
            Step(s, ME, Advance) == Some(Become(s, ME, p, Compare(s.hash, s.published[NameOf(s.hash, p)], p)))
  {
    hide NameOf, Compare;
  }

  lemma StagedIsOwn(s: State)
    requires Inv(s) && ME in s.procs && s.procs[ME].at.Hardened?
    ensures ME in s.staging && s.staging[ME] == s.procs[ME].entries
  {
    assert PromoterOk(s, ME, s.procs[ME]);
  }

  lemma PublishedStep(s: State)
    requires ME in s.procs && s.procs[ME].at.Hardened? && ME in s.staging
    requires NameOf(s.hash, s.procs[ME]) !in s.published
    ensures var p := s.procs[ME];
            var published := s.published[NameOf(s.hash, p) := s.staging[ME]];
            var next := Become(s, ME, p, Returned(Fresh)).(published := published, staging := s.staging - {ME});
            Step(s, ME, Advance) == Some(next)
  {
    hide NameOf;
  }

  /** What one promoter can see: all that is published, and its own staging tree. */
  function View(s: State, pid: Pid): State
    requires pid in s.procs
  {
    State(s.hash, s.published, if pid in s.staging then map[ME := s.staging[pid]] else map[], map[ME := s.procs[pid]])
  }

  /** A promoter that has just arrived. */
  function Arriving(hash: Hash, published: map<string, Content>, entries: Content, p: Provenance): State {
    State(hash, published, map[], map[ME := Promoter(entries, p, Starting)])
  }

  /** One step of the promoter, or something published by others. */
  ghost predicate Follows(a: State, b: State) {
    || (exists action :: Step(a, ME, action) == Some(b))
    || (b == a.(published := b.published) && Grows(a.published, b.published))
  }

  ghost predicate Chain(log: seq<State>) {
    forall i {:trigger log[i]} :: 0 < i < |log| ==> Follows(log[i - 1], log[i])
  }

  lemma OneIsChain(s: State)
    ensures Chain([s])
  {
  }

  lemma FollowsKeeps(a: State, b: State)
    requires Inv(a) && a.procs.Keys == {ME} && Follows(a, b)
    ensures Inv(b) && b.procs.Keys == {ME} && Grows(a.published, b.published) && b.hash == a.hash
  {
    hide Inv, Step;
    if b == a.(published := b.published) && Grows(a.published, b.published) {
      OthersKeep(a, b);
    } else {
      var action :| Step(a, ME, action) == Some(b);
      StepKeeps(a, ME, action);
      StepMembers(a, ME, action);
      StepGrows(a, ME, action);
    }
  }

  lemma OthersKeep(a: State, b: State)
    requires Inv(a) && a.procs.Keys == {ME} && b == a.(published := b.published) && Grows(a.published, b.published)
    ensures Inv(b)
  {
    assert PromoterOk(a, ME, a.procs[ME]);
    GrowthKeeps(a, b, ME, a.procs[ME]);
    hide PromoterOk, NameOf;
  }

  /** Stopped anywhere, a promotion has kept the store's invariant and every name that was published. */
  lemma {:induction false} ChainKeeps(log: seq<State>, i: nat)
    requires i < |log| && Chain(log) && Inv(log[0]) && log[0].procs.Keys == {ME}
    ensures Inv(log[i]) && log[i].procs.Keys == {ME} && Grows(log[0].published, log[i].published)
    ensures log[i].hash == log[0].hash
  {
    hide Inv, Follows;
    if i > 0 {
      ChainKeeps(log, i - 1);
      FollowsKeeps(log[i - 1], log[i]);
    }
  }

  /** A promoter's step depends on its view alone, and changes nothing else of the store. */
  lemma StepIsLocal(s: State, pid: Pid, a: Action)
    requires pid in s.procs && !a.Spawn?
    ensures Step(s, pid, a).Some? <==> Step(View(s, pid), ME, a).Some?
    ensures Step(s, pid, a).Some? ==>
              var t := Step(s, pid, a).value; pid in t.procs && Step(View(s, pid), ME, a).value == View(t, pid)
  {
    hide Proceed, Falter;
    match a
    case Advance => ProceedIsLocal(s, pid, s.procs[pid]);
    case Fail => FalterIsLocal(s, pid, s.procs[pid]);
    case Kill =>
  }

  lemma ViewOf(s: State, pid: Pid)
    requires pid in s.procs
    ensures var v := View(s, pid);
            && v.hash == s.hash && v.published == s.published && (ME in v.staging <==> pid in s.staging)
            && (pid in s.staging ==> v.staging[ME] == s.staging[pid])
  {
  }

  lemma ViewBecomes(s: State, pid: Pid, p: Promoter, at: Phase)
    requires pid in s.procs
    ensures View(Become(s, pid, p, at), pid) == Become(View(s, pid), ME, p, at)
  {
  }

  lemma ViewStages(s: State, pid: Pid, p: Promoter, at: Phase, content: Content)
    requires pid in s.procs
    ensures View(Become(s, pid, p, at).(staging := s.staging[pid := content]), pid)
         == Become(View(s, pid), ME, p, at).(staging := View(s, pid).staging[ME := content])
  {
  }

  lemma ViewUnstages(s: State, pid: Pid, p: Promoter, at: Phase, published: map<string, Content>)
    requires pid in s.procs
    ensures View(Become(s, pid, p, at).(published := published, staging := s.staging - {pid}), pid)
         == Become(View(s, pid), ME, p, at).(published := published, staging := View(s, pid).staging - {ME})
  {
  }

  lemma ProceedIsLocal(s: State, pid: Pid, p: Promoter)
    requires pid in s.procs
    ensures Proceed(s, pid, p).Some? <==> Proceed(View(s, pid), ME, p).Some?
    ensures Proceed(s, pid, p).Some? ==>
              var t := Proceed(s, pid, p).value; pid in t.procs && Proceed(View(s, pid), ME, p).value == View(t, pid)
  {
    hide NameOf, IdentityOf, IdentityBytes, Compare, View;
    ViewOf(s, pid);
    match p.at
    case Starting => ViewStages(s, pid, p, Filling, []);
    case Filling => ViewStages(s, pid, p, Built, p.entries);
    case Built =>
      ViewBecomes(s, pid, p, Hardened);
      CompareIsLocal(s, pid, p);
    case Hardened =>
      CompareIsLocal(s, pid, p);
      if pid in s.staging {
        ViewUnstages(s, pid, p, Returned(Fresh), s.published[NameOf(s.hash, p) := s.staging[pid]]);
      }
    case Cleaning(v) => ViewUnstages(s, pid, p, Returned(v), s.published);
    case _ =>
  }

  lemma CompareIsLocal(s: State, pid: Pid, p: Promoter)
    requires pid in s.procs
    ensures var name := NameOf(s.hash, p);
            name in s.published ==>
              var at := Compare(s.hash, s.published[name], p);
              View(Become(s, pid, p, at), pid) == Become(View(s, pid), ME, p, at)
  {
    var name := NameOf(s.hash, p);
    if name in s.published { ViewBecomes(s, pid, p, Compare(s.hash, s.published[name], p)); }
  }

  lemma FalterIsLocal(s: State, pid: Pid, p: Promoter)
    requires pid in s.procs
    ensures Falter(s, pid, p).Some? <==> Falter(View(s, pid), ME, p).Some?
    ensures Falter(s, pid, p).Some? ==>
              var t := Falter(s, pid, p).value; pid in t.procs && Falter(View(s, pid), ME, p).value == View(t, pid)
  {
  }

  /** Whatever another promoter does, this one sees at most something new published. */
  lemma OthersAreSeen(s: State, pid: Pid, other: Pid, a: Action)
    requires pid in s.procs && other != pid && Step(s, other, a).Some?
    ensures var t := Step(s, other, a).value; pid in t.procs && Follows(View(s, pid), View(t, pid))
  {
    hide Step, Grows;
    StepFrames(s, other, a, pid);
    StepGrows(s, other, a);
  }
}
