/**
 Source replacement: which configurations are accepted, what retargeting one
 to another directory keeps, and how the packages of a lock bind to it. TOML
 and URLs are foreign: a configuration is its decoded tables with the length
 of its text, and what makes a URL safe is a parameter.
 */
module Resolver {
  import opened Options
  import opened Texts

  datatype Source = Source(registry: Option<string>, git: Option<string>, branch: Option<string>, tag: Option<string>,
                           rev: Option<string>, replaceWith: Option<string>, directory: Option<string>)

  type Tables = map<string, Source>

  /** `safe` says which URLs are acceptable, `query` which carry a query. */
  datatype Urls = Urls(safe: string -> bool, query: string -> bool)

  datatype Limits = Limits(maxMetadataBytes: nat, maxSources: nat)

  // ---------- Names and destinations ----------

  predicate Alphanumeric(c: char) { '0' <= c <= '9' || 'a' <= c <= 'z' || 'A' <= c <= 'Z' }

  predicate Contains(s: string, part: string) { |part| <= |s| && (part <= s || Contains(s[1..], part)) }

  predicate Name(u: Urls, raw: string) {
    if "git+" <= raw then u.safe(raw[4..])
    else if "registry+" <= raw then u.safe(raw[9..])
    else if Contains(raw, "://") then u.safe(raw)
    else
      && 0 < |raw| <= 255 && raw != "." && raw != ".."
      && forall i :: 0 <= i < |raw| ==> Alphanumeric(raw[i]) || raw[i] == '-' || raw[i] == '_' || raw[i] == '.'
  }

  /** `destination`: a bounded absolute directory, written plainly, and not the root. */
  predicate Destination(raw: string) {
    Absolute(raw) && NoControl(raw) && exists c :: c in Components(raw[1..]) && c != "."
  }

  // ---------- parse ----------

  predicate SelectorOk(s: Option<string>) { s.Some? ==> 0 < Size(s.value) <= 1024 && NoControl(s.value) }

  function Selectors(s: Source): nat {
    (if s.branch.Some? then 1 else 0) + (if s.tag.Some? then 1 else 0) + (if s.rev.Some? then 1 else 0)
  }

  predicate UrlsOk(u: Urls, s: Source) {
    && (s.registry.Some? ==> u.safe(s.registry.value))
    && (s.git.Some? ==> u.safe(s.git.value) && !u.query(s.git.value))
  }

  predicate DirectoryOk(s: Source)
    requires s.directory.Some?
  {
    && 0 < Size(s.directory.value) <= MAX_PATH && NoControl(s.directory.value)
    && s.replaceWith.None? && s.registry.None? && s.git.None? && Selectors(s) == 0
  }

  predicate ReplacedOk(u: Urls, t: Tables, key: string, s: Source) {
    && s.replaceWith.Some? && Name(u, s.replaceWith.value)
    && !(s.registry.Some? && s.git.Some?)
    && Selectors(s) <= 1 && (s.git.None? ==> Selectors(s) == 0)
    && (key == "crates-io" || s.registry.Some? || s.git.Some?)
    && s.replaceWith.value in t
    && t[s.replaceWith.value].directory.Some? && t[s.replaceWith.value].replaceWith.None?
  }

  predicate SourceOk(u: Urls, t: Tables, key: string, s: Source) {
    && Name(u, key) && SelectorOk(s.branch) && SelectorOk(s.tag) && SelectorOk(s.rev) && UrlsOk(u, s)
    && (if s.directory.Some? then DirectoryOk(s) else ReplacedOk(u, t, key, s))
  }

  predicate Referenced(t: Tables, key: string) { exists k :: k in t && t[k].replaceWith == Some(key) }

  /** The tables of a configuration that `parse` accepts. */
  predicate TablesOk(u: Urls, l: Limits, t: Tables) {
    && 0 < |t| <= l.maxSources
    && (forall k :: k in t ==> SourceOk(u, t, k, t[k]))
    && (forall k :: k in t && t[k].directory.Some? ==> Referenced(t, k))
  }

  predicate Parses(u: Urls, l: Limits, t: Tables, length: nat) { length <= l.maxMetadataBytes && TablesOk(u, l, t) }

  // ---------- retarget ----------

  function Moved(s: Source, target: string): Source {
    if s.directory.Some? then s.(directory := Some(target)) else s
  }

  function Retargeted(t: Tables, target: string): Tables { map k | k in t :: Moved(t[k], target) }

  method MoveDirectories(t: Tables, target: string) returns (config: Tables)
    ensures config == Retargeted(t, target)
  {
    config := t;
    var keys := t.Keys;
    while keys != {}
      invariant keys <= t.Keys == config.Keys
      invariant forall k :: k in t ==> config[k] == if k in keys then t[k] else Moved(t[k], target)
    {
      var k :| k in keys;
      if config[k].directory.Some? {
        config := config[k := config[k].(directory := Some(target))];
      }
      keys := keys - {k};
    }
    assert config == Retargeted(t, target);
  }

  /** `retarget`: every directory is replaced, one table after the other. */
  method Retarget(u: Urls, l: Limits, t: Tables, length: nat, target: string) returns (result: Option<Tables>)
    ensures result.Some? <==> Destination(target) && Parses(u, l, t, length)
    ensures result.Some? ==> result.value == Retargeted(t, target)
  {
    hide *;
    if !Destination(target) || !Parses(u, l, t, length) {
      return None;
    }
    var config := MoveDirectories(t, target);
    result := Some(config);
  }

  lemma MovedKeeps(u: Urls, t: Tables, key: string, target: string)
    requires key in t && SourceOk(u, t, key, t[key]) && Destination(target)
    ensures SourceOk(u, Retargeted(t, target), key, Retargeted(t, target)[key])
  {
    hide Name, NoControl, Contains, SelectorOk;
  }

  /** Retargeting an accepted configuration gives one that is accepted again. */
  lemma RetargetKeepsValidity(u: Urls, l: Limits, t: Tables, target: string)
    requires TablesOk(u, l, t) && Destination(target)
    ensures TablesOk(u, l, Retargeted(t, target))
  {
    hide SourceOk, Destination;
    var r := Retargeted(t, target);
    assert r.Keys == t.Keys;
    assert |r| == |r.Keys| && |t| == |t.Keys|;
    forall k | k in r ensures SourceOk(u, r, k, r[k]) { MovedKeeps(u, t, k, target); }
    forall k | k in r && r[k].directory.Some? ensures Referenced(r, k) {
      assert Referenced(t, k);
      var from :| from in t && t[from].replaceWith == Some(k);
      assert r[from].replaceWith == Some(k);
    }
  }

  /** The directory a source is read from: its own, or that of its replacement. */
  function Resolve(t: Tables, key: string): Option<string>
    requires key in t
  {
    if t[key].directory.Some? then t[key].directory
    else if t[key].replaceWith.Some? && t[key].replaceWith.value in t then t[t[key].replaceWith.value].directory
    else None
  }

  /** After retargeting, every source resolves to the target, in at most one hop. */
  lemma EverySourceResolvesToTarget(u: Urls, l: Limits, t: Tables, target: string, key: string)
    requires TablesOk(u, l, t) && key in t
    ensures Resolve(Retargeted(t, target), key) == Some(target)
  {
    hide Name, SelectorOk, UrlsOk;
    assert SourceOk(u, t, key, t[key]);
  }

  /** Only the last target counts. */
  lemma RetargetTwice(t: Tables, a: string, b: string)
    ensures Retargeted(Retargeted(t, a), b) == Retargeted(t, b)
  {
  }

  // ---------- bind ----------

  datatype Origin = Local | Registry(url: string) | Git(address: string, selector: Option<(string, string)>)

  /** Where a sandbox mounts the published tree. */
  const MOUNT: string := "/workspace/vendored"

  function Selected(s: Source): Option<(string, string)> {
    if s.branch.Some? then Some(("branch", s.branch.value))
    else if s.tag.Some? then Some(("tag", s.tag.value))
    else if s.rev.Some? then Some(("rev", s.rev.value))
    else None
  }

  predicate CratesIo(url: string) {
    url == "https://github.com/rust-lang/crates.io-index" || url == "sparse+https://index.crates.io/"
  }

  /** A source table that replaces the source of a package. */
  predicate Binds(key: string, s: Source, o: Origin) {
    && s.replaceWith.Some?
    && match o
       case Local => false
       case Registry(url) =>
         if s.registry.Some? then s.registry.value == url else s.git.None? && key == "crates-io" && CratesIo(url)
       case Git(address, selector) => s.git == Some(address) && Selected(s) == selector
  }

  function Bound(t: Tables, o: Origin): set<string> { set k | k in t && Binds(k, t[k], o) }

  /** The table that Cargo writes under `key` to replace the source of a package by `other`. */
  predicate Written(key: string, s: Source, o: Origin, other: string) {
    var bare := Source(None, None, None, None, None, Some(other), None);
    match o
    case Local => false
    case Registry(url) => s == bare.(registry := Some(url)) || (key == "crates-io" && CratesIo(url) && s == bare)
    case Git(address, None) => s == bare.(git := Some(address))
    case Git(address, Some((kind, value))) =>
      || (kind == "branch" && s == bare.(git := Some(address), branch := Some(value)))
      || (kind == "tag" && s == bare.(git := Some(address), tag := Some(value)))
      || (kind == "rev" && s == bare.(git := Some(address), rev := Some(value)))
  }

  ghost predicate IsWritten(key: string, s: Source, o: Origin) { exists other :: Written(key, s, o, other) }

  /** In an accepted configuration, what binds a package is just the table that Cargo writes for it. */
  lemma BoundByItsTable(u: Urls, l: Limits, t: Tables, o: Origin)
    requires TablesOk(u, l, t)
    ensures Bound(t, o) == set k | k in t && IsWritten(k, t[k], o)
  {
    hide Name, SelectorOk, UrlsOk, CratesIo, Referenced;
    forall k | k in t ensures Binds(k, t[k], o) <==> IsWritten(k, t[k], o) {
      var s := t[k];
      assert SourceOk(u, t, k, s);
      if Binds(k, s, o) { assert Written(k, s, o, s.replaceWith.value); }
    }
  }

  lemma LettersAreSegment(s: string)
    requires 0 < |s| <= 60 && forall i :: 0 <= i < |s| ==> 'a' <= s[i] <= 'z'
    ensures Segment(s) && s != "."
  {
    hide Size;
    SizeIsBounded(s);
    assert s[0] != '.';
  }

  lemma MountIsDestination()
    ensures Destination(MOUNT)
  {
    hide Size, Components, Segment;
    assert MOUNT[1..] == "workspace" + "/" + "vendored";
    TwoComponents("workspace", "vendored");
    SizeIsBounded(MOUNT);
    LettersAreSegment("workspace");
    LettersAreSegment("vendored");
    assert Components(MOUNT[1..]) == ["workspace", "vendored"];
    assert "workspace" in Components(MOUNT[1..]);
    assert forall i :: 0 <= i < |MOUNT| ==> MOUNT[i] == '/' || 'a' <= MOUNT[i] <= 'z';
  }

  /** Every package from outside is bound by exactly one table. */
  predicate BindsAll(t: Tables, packages: seq<Origin>) {
    forall i :: 0 <= i < |packages| && !packages[i].Local? ==> |Bound(t, packages[i])| == 1
  }

  predicate BindOk(t: Tables, packages: seq<Origin>, published: bool) {
    && (published ==> forall k :: k in t && t[k].directory.Some? ==> t[k].directory.value == MOUNT)
    && BindsAll(t, packages)
  }

  /** `bind`: the directories first, then package by package. */
  method Bind(t: Tables, packages: seq<Origin>, published: bool) returns (ok: bool)
    ensures ok <==> BindOk(t, packages, published)
  {
    if published && exists k :: k in t && t[k].directory.Some? && t[k].directory.value != MOUNT {
      return false;
    }
    for i := 0 to |packages|
      invariant forall j :: 0 <= j < i && !packages[j].Local? ==> |Bound(t, packages[j])| == 1
    {
      if packages[i].Local? {
        continue;
      }
      if |Bound(t, packages[i])| != 1 {
        return false;
      }
    }
    ok := true;
  }

  lemma MovedBindsSame(t: Tables, target: string, o: Origin)
    ensures Bound(Retargeted(t, target), o) == Bound(t, o)
  {
    var r := Retargeted(t, target);
    forall k | k in t ensures Binds(k, r[k], o) == Binds(k, t[k], o) {
    }
  }

  /** Retargeting to the mount keeps every binding, and makes a configuration fit to publish. */
  lemma RetargetKeepsBinding(t: Tables, packages: seq<Origin>)
    ensures BindOk(Retargeted(t, MOUNT), packages, true) <==> BindOk(t, packages, false)
  {
    hide Bound;
    forall i | 0 <= i < |packages| ensures Bound(Retargeted(t, MOUNT), packages[i]) == Bound(t, packages[i]) {
      MovedBindsSame(t, MOUNT, packages[i]);
    }
  }

  /** Exactly one table binds a package, and the package is read from the target. */
  lemma BoundPackageResolves(u: Urls, l: Limits, t: Tables, packages: seq<Origin>, i: nat)
    requires TablesOk(u, l, t) && BindOk(t, packages, false) && i < |packages| && !packages[i].Local?
    ensures exists k :: Bound(Retargeted(t, MOUNT), packages[i]) == {k} && k in Retargeted(t, MOUNT)
                        && Resolve(Retargeted(t, MOUNT), k) == Some(MOUNT)
  {
    var o := packages[i];
    var b := Bound(t, o);
    assert |b| == 1;
    var k :| k in b;
    assert b == {k} by {
      assert |b - {k}| == 0;
      assert b - {k} == {};
    }
    MovedBindsSame(t, MOUNT, o);
    EverySourceResolvesToTarget(u, l, t, MOUNT, k);
  }
}
