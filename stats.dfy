/**
 * The two projects the helper works with (Deeds & UX and Legal Code), the
 * listings the remote translation service returns for them, and the stats
 * tables built from those listings.  Only resources whose slug is
 * configured for the project they are listed under make it into a table.
 */
module Stats {
  import opened Wrappers
  import opened Text

  /** Resource attributes as listed by the service. */
  datatype ResourceStats = ResourceStats(created: string, modified: string, stringCount: int)

  /** Per resource and language statistics; `translatedStrings` is absent
      when the service omits the attribute. */
  datatype TranslationStats = TranslationStats(
    translatedStrings: Option<int>,
    untranslatedStrings: Option<int>,
    lastUpdate: string)

  /** A project as configured locally: its slug, its translation team and
      the resource slugs that belong to it. */
  datatype ProjectConfig = ProjectConfig(projectSlug: string, teamId: nat, resourceSlugs: seq<string>)

  datatype RemoteResource = RemoteResource(slug: string, stats: ResourceStats)

  /** One record of the language statistics listing.  Its resource and
      language are given by ids such as `o:org:p:proj:r:slug` and `l:fr`. */
  datatype LanguageStatsRecord = LanguageStatsRecord(resourceId: string, languageId: string, stats: TranslationStats)

  /** A configured project together with what the service lists for it, in
      id order. */
  datatype Project = Project(config: ProjectConfig, resources: seq<RemoteResource>, languageStats: seq<LanguageStatsRecord>)

  type ResourceTable = map<string, ResourceStats>
  type TranslationTable = map<string, map<string, TranslationStats>>

  /** Resource `j` of the listing is one of the project's configured slugs. */
  ghost predicate ListedResource(p: Project, j: int, k: string)
  {
    0 <= j < |p.resources| && p.resources[j].slug == k && k in p.config.resourceSlugs
  }

  /** The stats a resource table holds for slug `k`, if any. */
  function ResourceAt(t: ResourceTable, k: string): Option<ResourceStats>
  {
    if k in t then Some(t[k]) else None
  }

  /** Reference reading of a project's resource listing: scanning the first
      `n` records backwards, the stats of the first one listing the
      configured slug `k`, that is, of the last such record in id order. */
  function LastResourceIn(p: Project, n: nat, k: string): Option<ResourceStats>
    requires n <= |p.resources|
  {
    if n == 0 then None
    else
      var res := p.resources[n - 1];
      if res.slug == k && k in p.config.resourceSlugs then Some(res.stats)
      else LastResourceIn(p, n - 1, k)
  }

  /** The same over all projects: the last project with such a record
      decides. */
  function LastResource(ps: seq<Project>, k: string): Option<ResourceStats>
  {
    if ps == [] then None
    else
      var p := ps[|ps| - 1];
      var here := LastResourceIn(p, |p.resources|, k);
      if here.Some? then here else LastResource(ps[..|ps| - 1], k)
  }

  /** Fold a project's resource listing into `acc`, later records
      overwriting earlier ones. */
  function AddResources(acc: ResourceTable, p: Project, n: nat): (r: ResourceTable)
    requires n <= |p.resources|
    ensures forall k :: k in r <==> k in acc || exists j :: ListedResource(p, j, k) && j < n
    ensures forall k :: k in r ==> ((k in acc && r[k] == acc[k]) ||
      exists j :: ListedResource(p, j, k) && j < n && p.resources[j].stats == r[k])
    ensures forall k ::
      ResourceAt(r, k) == (if LastResourceIn(p, n, k).Some? then LastResourceIn(p, n, k) else ResourceAt(acc, k))
  {
    if n == 0 then acc
    else
      var a := AddResources(acc, p, n - 1);
      var res := p.resources[n - 1];
      if res.slug in p.config.resourceSlugs then
        assert ListedResource(p, n - 1, res.slug);
        a[res.slug := res.stats]
      else a
  }

  /** The resource stats table: every project's listing, restricted to the
      slugs configured for that project. */
  function ResourceStatsOf(ps: seq<Project>): (r: ResourceTable)
    ensures forall k :: k in r <==> exists i, j :: 0 <= i < |ps| && ListedResource(ps[i], j, k)
    ensures forall k :: k in r ==>
      exists i, j :: 0 <= i < |ps| && ListedResource(ps[i], j, k) && ps[i].resources[j].stats == r[k]
    ensures forall k :: ResourceAt(r, k) == LastResource(ps, k)
  {
    if ps == [] then map[]
    else
      var prev := ResourceStatsOf(ps[..|ps| - 1]);
      var i := |ps| - 1;
      var r := AddResources(prev, ps[i], |ps[i].resources|);
      assert forall i' :: 0 <= i' < |ps| - 1 ==> ps[..|ps| - 1][i'] == ps[i'];
      r
  }

  /** The resource slug of a language statistics record: the last
      `:`-separated piece of its resource id. */
  function RecordSlug(rec: LanguageStatsRecord): string
  {
    LastSegment(rec.resourceId, ':')
  }

  /** The service's language code of a record: the last piece of its
      language id. */
  function RecordCode(rec: LanguageStatsRecord): string
  {
    LastSegment(rec.languageId, ':')
  }

  /** The (resource slug, language code) pairs named by the first `n`
      records of a project's language listing whose slug is configured for
      the project. */
  function ListedPairs(p: Project, n: nat): (r: set<(string, string)>)
    requires n <= |p.languageStats|
    ensures forall s, c :: (s, c) in r ==> s in p.config.resourceSlugs
  {
    if n == 0 then {}
    else
      var rec := p.languageStats[n - 1];
      ListedPairs(p, n - 1) +
        (if RecordSlug(rec) in p.config.resourceSlugs then {(RecordSlug(rec), RecordCode(rec))} else {})
  }

  /** The pairs of a table. */
  function TablePairs(t: TranslationTable): set<(string, string)>
  {
    set s, c | s in t && c in t[s] :: (s, c)
  }

  /** Inserting one pair into a table adds exactly that pair. */
  lemma TablePairsInsert(a: TranslationTable, s: string, c: string, v: TranslationStats)
    ensures TablePairs(a[s := (if s in a then a[s] else map[])[c := v]]) == TablePairs(a) + {(s, c)}
  {
    var r := a[s := (if s in a then a[s] else map[])[c := v]];
    forall x | x in TablePairs(r) ensures x in TablePairs(a) + {(s, c)} {
      var (s', c') := x;
      assert s' in r && c' in r[s'];
      if s' != s || c' != c {
        assert s' in a && c' in a[s'];
      }
    }
    forall x | x in TablePairs(a) + {(s, c)} ensures x in TablePairs(r) {
      var (s', c') := x;
      if x != (s, c) {
        assert s' in a && c' in a[s'];
        assert s' in r && c' in r[s'];
      } else {
        assert s in r && c in r[s];
      }
    }
  }

  /** The stats a table holds for slug `s` and code `c`, if any. */
  function StatsAt(t: TranslationTable, s: string, c: string): Option<TranslationStats>
  {
    if s in t && c in t[s] then Some(t[s][c]) else None
  }

  /** Reference reading of a project's listing: scanning the first `n`
      records backwards, the stats of the first configured record that names
      `s` and `c`, that is, of the last such record in listing order. */
  function LastInProject(p: Project, n: nat, s: string, c: string): Option<TranslationStats>
    requires n <= |p.languageStats|
  {
    if n == 0 then None
    else
      var rec := p.languageStats[n - 1];
      if RecordSlug(rec) == s && RecordCode(rec) == c && s in p.config.resourceSlugs then Some(rec.stats)
      else LastInProject(p, n - 1, s, c)
  }

  /** The same over all projects: the last project with such a record
      decides. */
  function LastListed(ps: seq<Project>, s: string, c: string): Option<TranslationStats>
  {
    if ps == [] then None
    else
      var p := ps[|ps| - 1];
      var here := LastInProject(p, |p.languageStats|, s, c);
      if here.Some? then here else LastListed(ps[..|ps| - 1], s, c)
  }

  /** Setting one entry of a table changes what it holds for that pair only. */
  lemma StatsAtInsert(a: TranslationTable, s: string, c: string, v: TranslationStats)
    ensures var r := a[s := (if s in a then a[s] else map[])[c := v]];
      forall s', c' :: StatsAt(r, s', c') == (if s' == s && c' == c then Some(v) else StatsAt(a, s', c'))
  {
    var inner := if s in a then a[s] else map[];
    var r := a[s := inner[c := v]];
    forall s', c' ensures StatsAt(r, s', c') == (if s' == s && c' == c then Some(v) else StatsAt(a, s', c')) {
      if s' == s && c' != c {
        assert (c' in r[s]) <==> (s in a && c' in a[s]);
      }
    }
  }

  /** Fold a project's language listing into `acc`. */
  function AddLanguageStats(acc: TranslationTable, p: Project, n: nat): (r: TranslationTable)
    requires n <= |p.languageStats|
    requires forall s :: s in acc ==> acc[s] != map[]
    ensures forall s :: s in r ==> r[s] != map[]
    ensures forall s :: s in r ==> s in acc || s in p.config.resourceSlugs
    ensures TablePairs(r) == TablePairs(acc) + ListedPairs(p, n)
    ensures forall s, c ::
      StatsAt(r, s, c) == (if LastInProject(p, n, s, c).Some? then LastInProject(p, n, s, c) else StatsAt(acc, s, c))
  {
    if n == 0 then acc
    else
      var a := AddLanguageStats(acc, p, n - 1);
      var rec := p.languageStats[n - 1];
      var s := RecordSlug(rec);
      var c := RecordCode(rec);
      if s in p.config.resourceSlugs then
        var inner := if s in a then a[s] else map[];
        var r := a[s := inner[c := rec.stats]];
        TablePairsInsert(a, s, c, rec.stats);
        StatsAtInsert(a, s, c, rec.stats);
        r
      else
        a
  }

  /** Every pair listed by any project. */
  function AllListedPairs(ps: seq<Project>): set<(string, string)>
  {
    if ps == [] then {}
    else AllListedPairs(ps[..|ps| - 1]) + ListedPairs(ps[|ps| - 1], |ps[|ps| - 1].languageStats|)
  }

  /** The translation stats table, keyed by resource slug and then by the
      service's language code, restricted to configured slugs. */
  function TranslationStatsOf(ps: seq<Project>): (r: TranslationTable)
    ensures forall s :: s in r ==> r[s] != map[]
    ensures forall s :: s in r ==> exists i :: 0 <= i < |ps| && s in ps[i].config.resourceSlugs
    ensures TablePairs(r) == AllListedPairs(ps)
    ensures forall s, c :: StatsAt(r, s, c) == LastListed(ps, s, c)
  {
    if ps == [] then map[]
    else
      var prev := TranslationStatsOf(ps[..|ps| - 1]);
      var i := |ps| - 1;
      var r := AddLanguageStats(prev, ps[i], |ps[i].languageStats|);
      assert forall i' :: 0 <= i' < |ps| - 1 ==> ps[..|ps| - 1][i'] == ps[i'];
      r
  }

  /** A pair is listed iff some configured record of some project names it. */
  lemma {:induction false} ListedPairsMeaning(p: Project, n: nat, s: string, c: string)
    requires n <= |p.languageStats|
    ensures (s, c) in ListedPairs(p, n) <==>
      exists j :: 0 <= j < n && RecordSlug(p.languageStats[j]) == s &&
        RecordCode(p.languageStats[j]) == c && s in p.config.resourceSlugs
  {
    if n > 0 {
      ListedPairsMeaning(p, n - 1, s, c);
    }
  }

  /** Every slug in either table is configured for some project. */
  lemma TablesOnlyHoldConfiguredSlugs(ps: seq<Project>, s: string)
    ensures s in ResourceStatsOf(ps) || s in TranslationStatsOf(ps) ==>
      exists i :: 0 <= i < |ps| && s in ps[i].config.resourceSlugs
  {
  }

  /** A language is listed for a slug in the translation table exactly
      when some configured record of some project names the pair. */
  lemma TranslationTableMembership(ps: seq<Project>, s: string, c: string)
    ensures var t := TranslationStatsOf(ps);
      (s in t && c in t[s]) <==> (s, c) in AllListedPairs(ps)
  {
    var t := TranslationStatsOf(ps);
    if s in t && c in t[s] {
      assert (s, c) in TablePairs(t);
    }
  }

  /** Assign the first `n` slugs of a project to it, over `acc`. */
  function AddOwners(acc: map<string, ProjectConfig>, cfg: ProjectConfig, n: nat): (r: map<string, ProjectConfig>)
    requires n <= |cfg.resourceSlugs|
    ensures forall s :: s in r <==> s in acc || s in cfg.resourceSlugs[..n]
    ensures forall s :: s in r ==> r[s] == (if s in cfg.resourceSlugs[..n] then cfg else acc[s])
  {
    if n == 0 then acc
    else
      var slugs := cfg.resourceSlugs;
      assert slugs[..n] == slugs[..n - 1] + [slugs[n - 1]];
      AddOwners(acc, cfg, n - 1)[slugs[n - 1] := cfg]
  }

  /** `resource_to_project`, `resource_to_team` and `resource_to_api` as
      one map: each configured slug to its project, built project by project
      so that a slug configured twice belongs to the later project. */
  function ResourceToProject(ps: seq<Project>): (r: map<string, ProjectConfig>)
    ensures forall s :: s in r <==> exists i :: 0 <= i < |ps| && s in ps[i].config.resourceSlugs
    ensures forall s :: s in r ==> s in r[s].resourceSlugs
    ensures forall s :: s in r ==> exists i :: 0 <= i < |ps| && ps[i].config == r[s]
  {
    if ps == [] then map[]
    else
      var init := ps[..|ps| - 1];
      var last := ps[|ps| - 1].config;
      assert forall i :: 0 <= i < |ps| - 1 ==> init[i] == ps[i];
      assert last.resourceSlugs[..|last.resourceSlugs|] == last.resourceSlugs;
      AddOwners(ResourceToProject(init), last, |last.resourceSlugs|)
  }

  /** A slug belongs to the last project that configures it. */
  lemma {:induction false} LaterProjectWins(ps: seq<Project>, i: int, s: string)
    requires 0 <= i < |ps| && s in ps[i].config.resourceSlugs
    requires forall k :: i < k < |ps| ==> s !in ps[k].config.resourceSlugs
    ensures s in ResourceToProject(ps) && ResourceToProject(ps)[s] == ps[i].config
  {
    var init := ps[..|ps| - 1];
    var last := ps[|ps| - 1].config;
    var slugs := last.resourceSlugs;
    assert slugs[..|slugs|] == slugs;
    var prev := ResourceToProject(init);
    assert ResourceToProject(ps) == AddOwners(prev, last, |slugs|);
    if i < |ps| - 1 {
      assert s !in slugs;
      forall k | i < k < |init| ensures s !in init[k].config.resourceSlugs {
        assert init[k] == ps[k];
      }
      assert init[i] == ps[i];
      LaterProjectWins(init, i, s);
    }
  }

}
