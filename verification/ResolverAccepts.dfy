/** What Cargo writes when it vendors a set of sources is accepted, and binds every package from them. */
module ResolverAccepts {
  import opened Options
  import opened Texts
  import opened Resolver

  /** The key of the one directory that replaces all other sources. */
  const VENDORED := "vendored-sources"

  const NOTHING := Source(None, None, None, None, None, None, None)

  predicate Kind(kind: string) { kind == "branch" || kind == "tag" || kind == "rev" }

  predicate ProperOrigin(u: Urls, o: Origin) {
    match o
    case Local => false
    case Registry(url) => u.safe(url)
    case Git(address, selector) =>
      && u.safe(address) && !u.query(address)
      && (selector.Some? ==> Kind(selector.value.0) && 0 < Size(selector.value.1) <= 1024 && NoControl(selector.value.1))
  }

  /** The table that replaces one source; the one of crates.io needs no URL. */
  function Replaced(key: string, o: Origin): Source {
    var bare := NOTHING.(replaceWith := Some(VENDORED));
    match o
    case Local => bare
    case Registry(url) => if key == "crates-io" && CratesIo(url) then bare else bare.(registry := Some(url))
    case Git(address, None) => bare.(git := Some(address))
    case Git(address, Some((kind, value))) =>
      var table := bare.(git := Some(address));
      if kind == "branch" then table.(branch := Some(value))
      else if kind == "tag" then table.(tag := Some(value))
      else table.(rev := Some(value))
  }

  function Vendored(sources: map<string, Origin>, directory: string): Tables {
    (map k | k in sources :: Replaced(k, sources[k]))[VENDORED := NOTHING.(directory := Some(directory))]
  }

  ghost predicate ProperSources(u: Urls, l: Limits, sources: map<string, Origin>) {
    && 0 < |sources| < l.maxSources && VENDORED !in sources
    && forall k :: k in sources ==> Name(u, k) && ProperOrigin(u, sources[k])
  }

  predicate ProperDirectory(directory: string) { 0 < Size(directory) <= MAX_PATH && NoControl(directory) }

  lemma VendoredIsName(u: Urls)
    ensures Name(u, VENDORED)
  {
    hide Contains;
    PlainHasNoScheme(VENDORED);
    assert VENDORED[0] == 'v' && |VENDORED| == 16;
  }

  lemma {:induction false} PlainHasNoScheme(s: string)
    requires ':' !in s
    ensures !Contains(s, "://")
  {
    if |s| > 0 {
      assert s[0] in s;
      assert forall c :: c in s[1..] ==> c in s;
      PlainHasNoScheme(s[1..]);
    }
  }

  lemma VendoredSize(sources: map<string, Origin>, directory: string)
    requires VENDORED !in sources
    ensures |Vendored(sources, directory)| == |sources| + 1
  {
    var t := Vendored(sources, directory);
    assert t.Keys == sources.Keys + {VENDORED};
    assert |t| == |t.Keys| && |sources| == |sources.Keys|;
  }

  lemma ReplacedIsOk(u: Urls, t: Tables, key: string, o: Origin, directory: string)
    requires Name(u, key) && ProperOrigin(u, o) && VENDORED in t
    requires t[VENDORED] == NOTHING.(directory := Some(directory))
    ensures SourceOk(u, t, key, Replaced(key, o))
  {
    hide Name, Size, NoControl, CratesIo;
    VendoredIsName(u);
  }

  /** A configuration of proper sources, all replaced by one proper directory, is accepted. */
  lemma VendoredIsAccepted(u: Urls, l: Limits, sources: map<string, Origin>, directory: string)
    requires ProperSources(u, l, sources) && ProperDirectory(directory)
    ensures TablesOk(u, l, Vendored(sources, directory))
  {
    hide Name, ProperOrigin, Replaced, SourceOk;
    var t := Vendored(sources, directory);
    VendoredSize(sources, directory);
    VendoredIsName(u);
    DirectoryIsOk(u, t, directory);
    forall k | k in t ensures SourceOk(u, t, k, t[k]) {
      if k != VENDORED { ReplacedIsOk(u, t, k, sources[k], directory); }
    }
    var first :| first in sources;
    ReplacedByVendored(first, sources[first]);
    assert t[first].replaceWith == Some(VENDORED);
    forall k | k in t && t[k].directory.Some? ensures Referenced(t, k) {
      if k != VENDORED { ReplacedByVendored(k, sources[k]); }
    }
  }

  lemma DirectoryIsOk(u: Urls, t: Tables, directory: string)
    requires ProperDirectory(directory)
    ensures SourceOk(u, t, VENDORED, NOTHING.(directory := Some(directory)))
  {
    hide Name, Size, NoControl;
    VendoredIsName(u);
  }

  lemma ReplacedByVendored(key: string, o: Origin)
    ensures Replaced(key, o).replaceWith == Some(VENDORED) && Replaced(key, o).directory.None?
  {
    hide CratesIo;
  }

  /** One of these tables binds exactly the packages of its own source, if crates.io goes by one URL. */
  lemma BindsItsOwn(u: Urls, key: string, mine: Origin, o: Origin)
    requires ProperOrigin(u, mine) && ProperOrigin(u, o) && (CratesIo(Url(mine)) && CratesIo(Url(o)) ==> mine == o)
    ensures Binds(key, Replaced(key, mine), o) <==> mine == o
  {
    hide Size, NoControl, CratesIo;
  }

  /** The URL of a registry. */
  function Url(o: Origin): string { if o.Registry? then o.url else "" }

  /** Each source has one key, and crates.io has one URL. */
  ghost predicate Apart(sources: map<string, Origin>) {
    && (forall j, k :: j in sources && k in sources && sources[j] == sources[k] ==> j == k)
    && (forall j, k :: j in sources && k in sources && CratesIo(Url(sources[j])) && CratesIo(Url(sources[k])) ==>
          sources[j] == sources[k])
  }

  /** Every package from one of these sources is bound by exactly one table. */
  lemma VendoredBinds(u: Urls, l: Limits, sources: map<string, Origin>, directory: string, packages: seq<Origin>)
    requires ProperSources(u, l, sources) && Apart(sources)
    requires forall i :: 0 <= i < |packages| && !packages[i].Local? ==> packages[i] in sources.Values
    ensures BindOk(Vendored(sources, directory), packages, directory == MOUNT)
  {
    hide Name, ProperOrigin, Replaced, Binds, CratesIo;
    var t := Vendored(sources, directory);
    forall k | k in t && t[k].directory.Some? ensures t[k].directory.value == directory {
      if k != VENDORED { ReplacedByVendored(k, sources[k]); }
    }
    forall i | 0 <= i < |packages| && !packages[i].Local? ensures |Bound(t, packages[i])| == 1 {
      var key :| key in sources && sources[key] == packages[i];
      forall k | k in t ensures Binds(k, t[k], packages[i]) <==> k == key {
        if k == VENDORED {
          DirectoriesBindNothing(directory, packages[i]);
        } else {
          assert CratesIo(Url(sources[k])) && CratesIo(Url(sources[key])) ==> sources[k] == sources[key];
          BindsItsOwn(u, k, sources[k], packages[i]);
        }
      }
      assert Bound(t, packages[i]) == {key};
    }
  }

  lemma DirectoriesBindNothing(directory: string, o: Origin)
    ensures !Binds(VENDORED, NOTHING.(directory := Some(directory)), o)
  {
  }
}
