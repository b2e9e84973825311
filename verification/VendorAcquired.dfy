/**
 From what was acquired to what is served: the acquired source configuration,
 retargeted to the mount, binds the lockfile; an undisturbed publication of it
 succeeds; and whatever a check accepts reads every outside package from the
 mount.
 */
module VendorAcquired {
  import opened Options
  import opened VendorProtocol
  import opened VendorSafety
  import opened VendorContent
  import opened VendorReadiness
  import opened VendorUndisturbed
  import Resolver

  // ---------- What texts mean ----------

  /** TOML is foreign: the tables that a text decodes to, if it does, and its length. */
  datatype Toml = Toml(tables: Text -> Option<Resolver.Tables>, length: Text -> nat)

  /** A project: its packages, and the policy it reads resolvers with. */
  datatype Project = Project(urls: Resolver.Urls, limits: Resolver.Limits, toml: Toml, packages: seq<Resolver.Origin>)

  /** `parse` accepts the text, and `bind` the tables. */
  predicate BindsText(j: Project, text: Text, published: bool) {
    var t := j.toml.tables(text);
    && t.Some? && Resolver.Parses(j.urls, j.limits, t.value, j.toml.length(text))
    && Resolver.BindOk(t.value, j.packages, published)
  }

  /** What a lockfile binds is what its packages bind to. */
  ghost predicate Means(g: Graph, j: Project) {
    && (forall text: Text :: g.binds(text) <==> BindsText(j, text, true))
    && (g.external <==> exists i :: 0 <= i < |j.packages| && !j.packages[i].Local?)
  }

  /**
   If what was acquired parses and binds, and its retargeted text fits, then
   that text binds: nothing that `populate` accepted is refused afterwards.
   */
  lemma AcquiredBinds(g: Graph, j: Project, acquired: Text, config: Text)
    requires Means(g, j) && BindsText(j, acquired, false)
    requires j.toml.tables(config) == Some(Resolver.Retargeted(j.toml.tables(acquired).value, Resolver.MOUNT))
    requires j.toml.length(config) <= j.limits.maxMetadataBytes
    ensures g.binds(config)
  {
    var t := j.toml.tables(acquired).value;
    Resolver.MountIsDestination();
    Resolver.RetargetKeepsValidity(j.urls, j.limits, t, Resolver.MOUNT);
    Resolver.RetargetKeepsBinding(t, j.packages);
    assert BindsText(j, config, true);
  }

  /** A configuration that names only the mount is what retargeting makes of it. */
  lemma AlreadyRetargeted(t: Resolver.Tables, packages: seq<Resolver.Origin>)
    requires Resolver.BindOk(t, packages, true)
    ensures Resolver.Retargeted(t, Resolver.MOUNT) == t && Resolver.BindOk(t, packages, false)
  {
    var r := Resolver.Retargeted(t, Resolver.MOUNT);
    forall k | k in t ensures r[k] == t[k] {
    }
  }

  /** In an accepted check, whatever the run, exactly one table of the resolver binds each outside package, to the mount. */
  lemma AcceptedPackagesResolve(s: State, schedule: Schedule, pid: Pid, j: Project, i: nat)
    requires Initial(s) && pid in Run(s, schedule).procs
    requires var p := Run(s, schedule).procs[pid];
             p.Reading? && (p.reader.reading.Accepted? || p.reader.reading.AcceptedUnmanaged?) && Means(p.reader.graph, j)
    requires i < |j.packages| && !j.packages[i].Local?
    ensures var r := Run(s, schedule).procs[pid].reader;
            && r.seen.resolver.Some? && j.toml.tables(r.seen.resolver.value.bytes).Some?
            && var t := j.toml.tables(r.seen.resolver.value.bytes).value;
               exists k :: Resolver.Bound(t, j.packages[i]) == {k} && k in t
                           && Resolver.Resolve(t, k) == Some(Resolver.MOUNT)
  {
    hide Run, Initial;
    CheckSawEveryPackage(s, schedule, pid);
    var r := Run(s, schedule).procs[pid].reader;
    assert BindsText(j, r.seen.resolver.value.bytes, true);
    var t := j.toml.tables(r.seen.resolver.value.bytes).value;
    AlreadyRetargeted(t, j.packages);
    hide Resolver.Retargeted, Resolver.Resolve, Resolver.Bound, Resolver.TablesOk, Resolver.BindOk;
    Resolver.BoundPackageResolves(j.urls, j.limits, t, j.packages, i);
  }

  // ---------- Undisturbed publication ----------

  /**
   Where nobody else is at work, what was acquired is published: whatever was
   there before, stale or broken, a publication of a configuration that parses
   and binds and of a tree that holds every package ends with something public
   that serves its lockfile: what was there, if that did and the publication
   was not forced, and otherwise what it has acquired.
   */
  lemma AcquiredIsPublished(s: State, pid: Pid, c1: Pid, c2: Pid, j: Project, acquired: Text)
    requires Starts(s, pid, c1, c2) && !s.disk.fence && s.disk.op.None?
    requires var p := s.procs[pid].publisher;
             && Means(p.graph, j) && BindsText(j, acquired, false)
             && j.toml.tables(p.config) == Some(Resolver.Retargeted(j.toml.tables(acquired).value, Resolver.MOUNT))
             && j.toml.length(p.config) <= j.limits.maxMetadataBytes && p.graph.covers(p.content)
    ensures var p, t := s.procs[pid].publisher, Run(s, Undisturbed(pid, c1, c2));
            && pid in t.procs && t.procs[pid].Publishing? && Serves(t.disk, p.graph)
            && if Serves(s.disk, p.graph) && !p.force then
                 t.procs[pid].publisher.at == Gone(Reused) && t.disk == s.disk
               else
                 && t.procs[pid].publisher.at == Gone(Success)
                 && t.disk.public.tree.value.content == p.content && t.disk.public.resolver.value.bytes == p.config
  {
    var p := s.procs[pid].publisher;
    AcquiredBinds(p.graph, j, acquired, p.config);
    hide Run, Serves, Means, BindsText, Alone;
    UndisturbedPublication(s, pid, c1, c2);
  }
}
