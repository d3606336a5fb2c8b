/**
 * The Transifex helper: one object per run, holding the project
 * configuration, the dry-run switch, lazily fetched stats tables, and the
 * operations that keep local PO files and the service consistent.
 *
 * The service is modelled by the listings of `projects` (fixed for the
 * helper's lifetime) and by `writes`, the journal of every change the
 * helper asks of it.  Replies of upload calls are parameters.
 */
module Transifex {
  import opened Wrappers
  import opened Text
  import opened Catalog
  import opened Stats
  import opened Normalize
  import opened Compare
  import opened Sync

  /** A change requested of the service. */
  datatype RemoteWrite =
    | CreateResource(slug: string)
    | PutSourceStrings(slug: string, entries: seq<Entry>)
    | PutTranslation(slug: string, code: string, entries: seq<Entry>)
    | SaveUnit(slug: string, code: string, index: nat, msgstr: string)

  /** The exceptions the helper's operations raise. */
  datatype Failure =
    | UnconfiguredSlug   // `KeyError`: the slug is configured for no project
    | NotInStats         // `KeyError`: the slug or language is missing from a stats table
    | StatsFieldMissing  // `KeyError`: a stats record lacks a string count
    | NoRemoteEntries    // `IndexError`: the service lists no translation units
    | RemoteTooShort     // `IndexError`: the service's copy has fewer entries than the local file
    | NotPoFormat        // `ValueError`: the service's resource is not a PO file
    | IsSourceLanguage   // `ValueError`: a translation upload for the source language
    | ResourceMissing    // `ValueError`: a translation upload before its resource exists

  /** A file downloaded from the service: its declared format and entries. */
  datatype RemoteFile = RemoteFile(format: string, entries: seq<Entry>)

  // --------------------------------------------------------- resource upload

  datatype ResourceUploadReply = ResourceUploadReply(stringsCreated: int, stringsSkipped: int)

  datatype ResourceUploadOutcome =
    | ResourceAlreadyPresent
    | ResourceDryRun
    | ResourceUploadFailed
    | ResourceUploadedWithSkips
    | ResourceUploaded

  /** Whether an outcome sent the source strings to the service. */
  predicate ResourceSent(o: ResourceUploadOutcome)
  {
    o == ResourceUploadFailed || o == ResourceUploadedWithSkips || o == ResourceUploaded
  }

  /** Existing resources are only replaced when overwriting is asked for;
      nothing is sent in a dry run; the stats are stale after any upload
      that created strings. */
  function ResourceUploadDecision(present: bool, pushOverwrite: bool, dryrun: bool,
                                  reply: ResourceUploadReply): (o: ResourceUploadOutcome)
    ensures o == ResourceAlreadyPresent <==> present && !pushOverwrite
    ensures ResourceSent(o) <==> (!present || pushOverwrite) && !dryrun
    ensures o == ResourceUploadFailed <==> ResourceSent(o) && reply.stringsCreated == 0
    ensures o == ResourceUploadedWithSkips <==>
      ResourceSent(o) && reply.stringsCreated != 0 && reply.stringsSkipped != 0
  {
    if !pushOverwrite && present then ResourceAlreadyPresent
    else if dryrun then ResourceDryRun
    else if reply.stringsCreated == 0 then ResourceUploadFailed
    else if reply.stringsSkipped != 0 then ResourceUploadedWithSkips
    else ResourceUploaded
  }

  /** The writes of a resource upload: creation when the service lacks the
      resource, then the source strings. */
  function ResourceUploadWrites(o: ResourceUploadOutcome, present: bool, slug: string,
                                es: seq<Entry>): seq<RemoteWrite>
  {
    if !ResourceSent(o) then []
    else (if present then [] else [CreateResource(slug)]) + [PutSourceStrings(slug, es)]
  }

  // ------------------------------------------------------ translation upload

  datatype TranslationUploadReply = TranslationUploadReply(translationsCreated: int, translationsUpdated: int)

  datatype TranslationUploadOutcome =
    | TranslationEmpty
    | TranslationAlreadyPresent
    | TranslationDryRun
    | TranslationUploadFailed
    | TranslationUploaded

  predicate TranslationSent(o: TranslationUploadOutcome)
  {
    o == TranslationUploadFailed || o == TranslationUploaded
  }

  /** `translation_stats[slug][code].get("translated_strings", 0)`, 0 when
      the service lists no such translation. */
  function RemoteTranslated(t: TranslationTable, slug: string, code: string): int
  {
    if slug in t && code in t[slug] then
      match t[slug][code].translatedStrings
      case None => 0
      case Some(n) => n
    else 0
  }

  /** The source language is refused, so is a translation whose resource
      the service lacks; an untranslated file is never sent, nor is one
      that would replace a non-empty translation unless overwriting is
      asked for. */
  function TranslationUploadDecision(languageCode: string, resourceListed: bool, percent: nat,
                                     remoteTranslated: int, pushOverwrite: bool, dryrun: bool,
                                     reply: TranslationUploadReply): (r: Result<TranslationUploadOutcome, Failure>)
    ensures r == Err(IsSourceLanguage) <==> languageCode == SourceLanguage
    ensures r == Err(ResourceMissing) <==> languageCode != SourceLanguage && !resourceListed
    ensures r.Err? ==> r == Err(IsSourceLanguage) || r == Err(ResourceMissing)
    ensures r.Ok? && TranslationSent(r.value) <==>
      languageCode != SourceLanguage && resourceListed && percent != 0 &&
      (pushOverwrite || remoteTranslated <= 0) && !dryrun
    ensures r == Ok(TranslationUploadFailed) <==>
      r.Ok? && TranslationSent(r.value) &&
      reply.translationsCreated == 0 && reply.translationsUpdated == 0
  {
    if languageCode == SourceLanguage then Err(IsSourceLanguage)
    else if !resourceListed then Err(ResourceMissing)
    else if percent == 0 then Ok(TranslationEmpty)
    else if !pushOverwrite && remoteTranslated > 0 then Ok(TranslationAlreadyPresent)
    else if dryrun then Ok(TranslationDryRun)
    else if reply.translationsCreated == 0 && reply.translationsUpdated == 0 then Ok(TranslationUploadFailed)
    else Ok(TranslationUploaded)
  }

  // -------------------------------------------------------------- dates

  /** How the revision date check ended. */
  datatype DatesOutcome =
    | RevisionKept       // nothing to do for the revision date
    | RevisionAdopted    // the service's revision date was taken
    | RevisionReported   // the dates and entries differ: reported, nothing changed

  /** The verdict on the revision date, once the creation date is handled.
      `configured` says whether the slug belongs to a project. */
  function RevisionVerdict(plan: DatesPlan, configured: bool, remote: RemoteFile, es: seq<Entry>,
                           t: TranslationTable, slug: string, code: string): (r: Result<DatesOutcome, Failure>)
    ensures r == Ok(RevisionAdopted) <==>
      plan.revision == AdoptRevision ||
      (plan.revision == CompareEntries && configured && remote.format == "PO" &&
       es <= remote.entries)
    ensures r == Ok(RevisionKept) <==> plan.revision == KeepRevision
    ensures r == Err(RemoteTooShort) <==>
      plan.revision == CompareEntries && configured && remote.format == "PO" &&
      EntriesSame(es, remote.entries).None?
  {
    match plan.revision
    case KeepRevision => Ok(RevisionKept)
    case AdoptRevision => Ok(RevisionAdopted)
    case CompareEntries =>
      if !configured then Err(UnconfiguredSlug)
      else if remote.format != "PO" then Err(NotPoFormat)
      else
        match EntriesSame(es, remote.entries)
        case None => Err(RemoteTooShort)
        case Some(true) => Ok(RevisionAdopted)
        case Some(false) =>
          if slug !in t || code !in t[slug] then Err(NotInStats)
          else if t[slug][code].translatedStrings.None? || t[slug][code].untranslatedStrings.None? then
            Err(StatsFieldMissing)
          else Ok(RevisionReported)
  }

  /** The header after the date step: each adopted date written as text. */
  function DatedHeader(md: Metadata, creation: bool, txCreation: Timestamp,
                       revision: bool, txRevision: Timestamp): Metadata
  {
    var m1 := if creation then md["POT-Creation-Date" := Str(Render(txCreation))] else md;
    if revision then m1["PO-Revision-Date" := Str(Render(txRevision))] else m1
  }

  /** The revision date is only ever adopted when the local file has none or
      its entries agree with the service's copy. */
  lemma RevisionAdoptedOnlyWhenSafe(pc: Timestamp, pr: Timestamp, tc: Timestamp, tr: Timestamp,
                                    configured: bool, remote: RemoteFile, es: seq<Entry>,
                                    t: TranslationTable, slug: string, code: string)
    ensures RevisionVerdict(PlanDates(pc, pr, tc, tr), configured, remote, es, t, slug, code) == Ok(RevisionAdopted) ==>
      (pr.None? && tr.Some?) || (tr != pr && es <= remote.entries)
  {
  }

  // ------------------------------------------------------------- sync

  /** The saves of pushed translations, one per pushed position. */
  function PushWrites(slug: string, code: string, es: seq<Entry>, pushes: seq<nat>): (ws: seq<RemoteWrite>)
    requires forall j :: 0 <= j < |pushes| ==> pushes[j] < |es|
    ensures |ws| == |pushes|
    ensures forall j :: 0 <= j < |pushes| ==> ws[j] == SaveUnit(slug, code, pushes[j], es[pushes[j]].msgstr)
  {
    seq(|pushes|, j requires 0 <= j < |pushes| => SaveUnit(slug, code, pushes[j], es[pushes[j]].msgstr))
  }

  /** The comparison loop of `compare_entries`: walks the local entries,
      pairing each with the service's entry at its position (an
      `IndexError` when the service's copy runs out), blanking both
      translations first for a source resource. */
  method DiffEntries(po: PoFile, rs: seq<Entry>, resource: bool) returns (r: Result<seq<nat>, Failure>)
    modifies po`entries
    ensures |rs| < |old(po.entries)| ==>
      r == Err(RemoteTooShort) &&
      po.entries == (if resource then BlankedPrefix(old(po.entries), |rs|) else old(po.entries))
    ensures |old(po.entries)| <= |rs| ==>
      r == Ok(Divergent(old(po.entries), rs, resource, |old(po.entries)|)) &&
      po.entries == (if resource then Blanked(old(po.entries)) else old(po.entries))
  {
    ghost var es := po.entries;
    var diffs: seq<nat> := [];
    var i: nat := 0;
    while i < |po.entries|
      invariant 0 <= i <= |es| == |po.entries|
      invariant i <= |rs|
      invariant po.entries == (if resource then BlankedPrefix(es, i) else es)
      invariant diffs == Divergent(es, rs, resource, i)
    {
      if i >= |rs| {
        return Err(RemoteTooShort);
      }
      var mine := po.entries[i];
      var other := rs[i];
      assert mine == es[i];
      if resource {
        BlankedPrefixStep(es, i);
        mine := Entry(mine.msgid, "");
        po.entries := po.entries[i := mine];
        other := Entry(other.msgid, "");
      }
      assert mine == Compared(es[i], resource) && other == Compared(rs[i], resource);
      DivergentStep(es, rs, resource, i);
      if mine != other {
        diffs := diffs + [i];
      }
      i := i + 1;
    }
    assert resource ==> BlankedPrefix(es, i) == Blanked(es);
    return Ok(diffs);
  }

  /** The synchronisation loop of `safesync_translation`: pairs each local
      entry with the unit at its position, adopting translations missing
      locally (outside a dry run) and collecting the positions to push.
      `complete` is false when the units run out first (an `IndexError`). */
  method SyncEntries(po: PoFile, units: seq<RemoteUnit>, dryrun: bool)
    returns (complete: bool, pushes: seq<nat>, adopted: bool)
    modifies po`entries
    ensures complete <==> |old(po.entries)| <= |units|
    ensures !complete ==>
      po.entries == (if dryrun then old(po.entries) else MergedPrefix(old(po.entries), units, |units|))
    ensures complete ==>
      && po.entries == (if dryrun then old(po.entries) else Merged(old(po.entries), units))
      && pushes == PushIndices(old(po.entries), units, |old(po.entries)|)
      && (adopted <==> AdoptsAny(old(po.entries), units, |old(po.entries)|))
  {
    ghost var es := po.entries;
    pushes := [];
    adopted := false;
    var i: nat := 0;
    while i < |po.entries|
      invariant 0 <= i <= |es| == |po.entries|
      invariant i <= |units|
      invariant po.entries == (if dryrun then es else MergedPrefix(es, units, i))
      invariant pushes == PushIndices(es, units, i)
      invariant adopted <==> AdoptsAny(es, units, i)
    {
      if i >= |units| {
        assert i == |units|;
        return false, pushes, adopted;
      }
      pushes, adopted := SyncStep(po, es, units, i, dryrun, pushes, adopted);
      i := i + 1;
    }
    assert i == |es|;
    return true, pushes, adopted;
  }

  /** One position of the synchronisation loop. */
  method SyncStep(po: PoFile, ghost es: seq<Entry>, units: seq<RemoteUnit>, i: nat, dryrun: bool,
                  pushes: seq<nat>, adopted: bool) returns (pushes': seq<nat>, adopted': bool)
    requires i < |es| == |po.entries| && i < |units|
    requires po.entries == (if dryrun then es else MergedPrefix(es, units, i))
    requires pushes == PushIndices(es, units, i)
    requires adopted <==> AdoptsAny(es, units, i)
    modifies po`entries
    ensures |po.entries| == |es|
    ensures po.entries == (if dryrun then es else MergedPrefix(es, units, i + 1))
    ensures pushes' == PushIndices(es, units, i + 1)
    ensures adopted' <==> AdoptsAny(es, units, i + 1)
  {
    var e := po.entries[i];
    var u := units[i];
    assert e == es[i];
    MergedPrefixStep(es, units, i);
    PushIndicesStep(es, units, i);
    AdoptsAnyStep(es, units, i);
    pushes', adopted' := pushes, adopted;
    match Classify(e, u) {
      case RemoteAhead =>
        adopted' := true;
        if !dryrun {
          po.entries := po.entries[i := Entry(e.msgid, RemoteText(u))];
        }
      case LocalAhead =>
        pushes' := pushes + [i];
      case _ =>
    }
  }

  /** The pushes read the local translations after the merge, which are the
      ones before it. */
  lemma PushWritesAfterMerge(slug: string, code: string, es: seq<Entry>, us: seq<RemoteUnit>)
    requires |es| <= |us|
    ensures PushWrites(slug, code, Merged(es, us), PushIndices(es, us, |es|)) ==
            PushWrites(slug, code, es, PushIndices(es, us, |es|))
  {
    var pushes := PushIndices(es, us, |es|);
    forall j | 0 <= j < |pushes|
      ensures Merged(es, us)[pushes[j]] == es[pushes[j]]
    {
      assert pushes[j] in pushes;
      PushedEntriesUnchanged(es, us, pushes[j]);
    }
  }

  // ============================================================ the helper

  class TransifexHelper {
    const dryrun: bool
    const organization: string
    /** The Deeds & UX project, then the Legal Code project. */
    const projects: seq<Project>
    /** Each configured resource slug to its project. */
    const resourceToProject: map<string, ProjectConfig>
    /** What fetching the resource stats returns during this run. */
    const resourceListing: ResourceTable
    /** What fetching the translation stats returns during this run. */
    const translationListing: TranslationTable

    var resourceCache: Option<ResourceTable>
    var translationCache: Option<TranslationTable>
    /** Every change requested of the service, in order. */
    var writes: seq<RemoteWrite>

    ghost var resourceFetches: nat
    ghost var translationFetches: nat
    ghost var clears: nat

    /** A cached table is the one the service's listings give. */
    predicate Valid()
      reads this
    {
      && (resourceCache.Some? ==> resourceCache.value == resourceListing)
      && (translationCache.Some? ==> translationCache.value == translationListing)
    }

    /** How an operation uses the stats caches: each table is fetched at
        most once, and only when it was not cached; without a clear a cached
        table stays cached; after a clear neither table is cached. */
    twostate predicate StatsReused()
      reads this
    {
      && resourceFetches <= old(resourceFetches) + (if old(resourceCache).None? then 1 else 0)
      && translationFetches <= old(translationFetches) + (if old(translationCache).None? then 1 else 0)
      && (clears == old(clears) ==>
            && (old(resourceCache).Some? ==> resourceCache == old(resourceCache))
            && (old(translationCache).Some? ==> translationCache == old(translationCache)))
      && (clears > old(clears) ==> resourceCache.None? && translationCache.None?)
    }

    constructor (dryrun: bool, organization: string, projects: seq<Project>)
      ensures Valid()
      ensures this.dryrun == dryrun && this.organization == organization && this.projects == projects
      ensures resourceToProject == ResourceToProject(projects)
      ensures resourceListing == ResourceStatsOf(projects) && translationListing == TranslationStatsOf(projects)
      ensures resourceCache.None? && translationCache.None? && writes == []
      ensures resourceFetches == 0 && translationFetches == 0 && clears == 0
    {
      this.dryrun := dryrun;
      this.organization := organization;
      this.projects := projects;
      resourceToProject := ResourceToProject(projects);
      resourceListing := ResourceStatsOf(projects);
      translationListing := TranslationStatsOf(projects);
      resourceCache := None;
      translationCache := None;
      writes := [];
      resourceFetches := 0;
      translationFetches := 0;
      clears := 0;
    }

    // ---------------------------------------------------------- stats

    /** `resource_stats`: fetched on first use and kept until cleared. */
    method ResourceStatsTable() returns (t: ResourceTable)
      requires Valid()
      modifies this`resourceCache, this`resourceFetches
      ensures Valid()
      ensures t == resourceListing && resourceCache == Some(t)
      ensures resourceFetches == old(resourceFetches) + (if old(resourceCache).None? then 1 else 0)
    {
      if resourceCache.None? {
        resourceCache := Some(resourceListing);
        resourceFetches := resourceFetches + 1;
      }
      t := resourceCache.value;
    }

    /** `translation_stats`: fetched on first use and kept until cleared. */
    method TranslationStatsTable() returns (t: TranslationTable)
      requires Valid()
      modifies this`translationCache, this`translationFetches
      ensures Valid()
      ensures t == translationListing && translationCache == Some(t)
      ensures translationFetches == old(translationFetches) + (if old(translationCache).None? then 1 else 0)
    {
      if translationCache.None? {
        translationCache := Some(translationListing);
        translationFetches := translationFetches + 1;
      }
      t := translationCache.value;
    }

    /** Drop both cached tables, so the next use fetches them again. */
    method ClearStats()
      modifies this`resourceCache, this`translationCache, this`clears
      ensures Valid()
      ensures resourceCache.None? && translationCache.None?
      ensures clears == old(clears) + 1
    {
      resourceCache := None;
      translationCache := None;
      clears := clears + 1;
    }

    /** `resource_present`: the service holds the configured resource. */
    method ResourcePresent(slug: string) returns (present: bool)
      requires Valid()
      modifies this`resourceCache, this`resourceFetches
      ensures Valid()
      ensures present <==> slug in resourceListing
      ensures resourceCache == Some(resourceListing)
      ensures resourceFetches == old(resourceFetches) + (if old(resourceCache).None? then 1 else 0)
    {
      var t := ResourceStatsTable();
      present := slug in t;
    }

    /** `translation_supported`: the service lists the language for the
        resource; a resource without any language raises `KeyError`. */
    method TranslationSupported(slug: string, code: string) returns (r: Result<bool, Failure>)
      requires Valid()
      modifies this`translationCache, this`translationFetches
      ensures Valid()
      ensures r.Err? <==> slug !in translationListing
      ensures r.Err? ==> r.error == NotInStats
      ensures r.Ok? ==> (r.value <==> code in translationListing[slug])
      ensures translationCache == Some(translationListing)
      ensures translationFetches == old(translationFetches) + (if old(translationCache).None? then 1 else 0)
    {
      var t := TranslationStatsTable();
      if slug !in t {
        return Err(NotInStats);
      }
      return Ok(code in t[slug]);
    }

    // -------------------------------------------------------- uploads

    /** `upload_resource_to_transifex`. */
    method UploadResource(po: PoFile, slug: string, pushOverwrite: bool, reply: ResourceUploadReply)
      returns (r: Result<ResourceUploadOutcome, Failure>)
      requires Valid()
      modifies this, po
      ensures Valid()
      ensures StatsReused()
      ensures po.metadata == old(po.metadata) && po.saves == old(po.saves)
      ensures slug !in resourceToProject ==>
        r == Err(UnconfiguredSlug) && writes == old(writes) && clears == old(clears) &&
        po.entries == old(po.entries)
      ensures slug in resourceToProject ==>
        var present := slug in resourceListing;
        var o := ResourceUploadDecision(present, pushOverwrite, dryrun, reply);
        && r == Ok(o)
        && writes == old(writes) + ResourceUploadWrites(o, present, slug, Blanked(old(po.entries)))
        && po.entries == (if ResourceSent(o) then Blanked(old(po.entries)) else old(po.entries))
        && clears == old(clears) + (if o == ResourceUploaded || o == ResourceUploadedWithSkips then 1 else 0)
    {
      if slug !in resourceToProject {
        return Err(UnconfiguredSlug);
      }
      ghost var present := slug in resourceListing;
      if !pushOverwrite {
        var stats := ResourceStatsTable();
        if slug in stats {
          return Ok(ResourceAlreadyPresent);
        }
      }
      if dryrun {
        return Ok(ResourceDryRun);
      }
      var o := SendResource(po, slug, reply);
      r := Ok(o);
    }

    /** The sending part of `upload_resource_to_transifex`: create the
        resource if the service lacks it, put the blanked strings, and clear
        the stats unless the reply created nothing. */
    method SendResource(po: PoFile, slug: string, reply: ResourceUploadReply) returns (o: ResourceUploadOutcome)
      requires Valid() && !dryrun
      modifies this, po
      ensures Valid()
      ensures StatsReused()
      ensures po.metadata == old(po.metadata) && po.saves == old(po.saves)
      ensures o == ResourceUploadDecision(slug in resourceListing, true, false, reply)
      ensures writes == old(writes) + ResourceUploadWrites(o, slug in resourceListing, slug, Blanked(old(po.entries)))
      ensures po.entries == Blanked(old(po.entries))
      ensures clears == old(clears) + (if o == ResourceUploadFailed then 0 else 1)
    {
      var stats := ResourceStatsTable();
      if slug !in stats {
        writes := writes + [CreateResource(slug)];
      }
      po.BlankTranslations();
      writes := writes + [PutSourceStrings(slug, po.entries)];
      if reply.stringsCreated == 0 {
        o := ResourceUploadFailed;
      } else if reply.stringsSkipped != 0 {
        ClearStats();
        o := ResourceUploadedWithSkips;
      } else {
        ClearStats();
        o := ResourceUploaded;
      }
    }

    /** `upload_translation_to_transifex_resource`. */
    method UploadTranslation(po: PoFile, slug: string, languageCode: string, code: string,
                             pushOverwrite: bool, reply: TranslationUploadReply)
      returns (r: Result<TranslationUploadOutcome, Failure>)
      requires Valid()
      modifies this
      ensures Valid()
      ensures StatsReused()
      ensures slug !in resourceToProject ==>
        r == Err(UnconfiguredSlug) && writes == old(writes) && clears == old(clears)
      ensures slug in resourceToProject ==>
        r == TranslationUploadDecision(languageCode, slug in resourceListing,
               PercentTranslated(po.entries), RemoteTranslated(translationListing, slug, code),
               pushOverwrite, dryrun, reply)
      ensures writes == old(writes) +
        (if r.Ok? && TranslationSent(r.value) then [PutTranslation(slug, code, po.entries)] else [])
      ensures clears == old(clears) + (if r == Ok(TranslationUploaded) then 1 else 0)
    {
      if slug !in resourceToProject {
        return Err(UnconfiguredSlug);
      }
      if languageCode == SourceLanguage {
        return Err(IsSourceLanguage);
      }
      var resources := ResourceStatsTable();
      if slug !in resources {
        return Err(ResourceMissing);
      }
      if PercentTranslated(po.entries) == 0 {
        return Ok(TranslationEmpty);
      }
      if !pushOverwrite {
        var translations := TranslationStatsTable();
        if RemoteTranslated(translations, slug, code) > 0 {
          return Ok(TranslationAlreadyPresent);
        }
      }
      if dryrun {
        return Ok(TranslationDryRun);
      }
      writes := writes + [PutTranslation(slug, code, po.entries)];
      if reply.translationsCreated == 0 && reply.translationsUpdated == 0 {
        r := Ok(TranslationUploadFailed);
      } else {
        ClearStats();
        r := Ok(TranslationUploaded);
      }
    }

    // ----------------------------------------------------- normalizers

    /** `normalize_pofile_language`. */
    method NormalizeLanguage(po: PoFile, t: Target)
      modifies po
      ensures po.metadata == FixLanguage(old(po.metadata), t, dryrun).md
      ensures po.saves == old(po.saves) + (if FixLanguage(old(po.metadata), t, dryrun).saved then 1 else 0)
      ensures po.entries == old(po.entries)
    {
      if LanguageCorrect(po.metadata, t) {
        return;
      }
      if dryrun {
        return;
      }
      po.metadata := po.metadata["Language" := Str(t.transifexCode)]
                                ["Language-Django" := Str(t.languageCode)]
                                ["Language-Transifex" := Str(t.transifexCode)];
      po.Save();
    }

    /** `normalize_pofile_language_team`; an unconfigured slug raises
        `KeyError` before anything changes. */
    method NormalizeLanguageTeam(po: PoFile, t: Target) returns (failure: Option<NormalizeError>)
      modifies po
      ensures failure.Some? <==> t.resourceSlug !in resourceToProject
      ensures failure.Some? ==>
        (failure.value == NormalizeError.UnknownResource && po.metadata == old(po.metadata) &&
         po.saves == old(po.saves))
      ensures failure.None? ==>
        var f := FixLanguageTeam(old(po.metadata),
                   TeamUrl(organization, resourceToProject[t.resourceSlug], t.transifexCode), dryrun);
        po.metadata == f.md && po.saves == old(po.saves) + (if f.saved then 1 else 0)
      ensures po.entries == old(po.entries)
    {
      if t.resourceSlug !in resourceToProject {
        return Some(NormalizeError.UnknownResource);
      }
      var url := TeamUrl(organization, resourceToProject[t.resourceSlug], t.transifexCode);
      if TeamCorrect(po.metadata, url) {
        return None;
      }
      if dryrun {
        return None;
      }
      po.metadata := po.metadata["Language-Team" := Str(url)];
      po.Save();
      return None;
    }

    /** `normalize_pofile_last_translator`. */
    method NormalizeLastTranslator(po: PoFile)
      modifies po
      ensures po.metadata == FixLastTranslator(old(po.metadata), dryrun).md
      ensures po.saves == old(po.saves) + (if FixLastTranslator(old(po.metadata), dryrun).saved then 1 else 0)
      ensures po.entries == old(po.entries)
    {
      if "Last-Translator" !in po.metadata {
        return;
      }
      if po.metadata["Last-Translator"] != Str(FillerTranslator) {
        return;
      }
      if dryrun {
        return;
      }
      po.metadata := po.metadata - {"Last-Translator"};
      po.Save();
    }

    /** `normalize_pofile_percent_translated`; a recorded value that is not
        a number raises `ValueError` before anything changes. */
    method NormalizePercent(po: PoFile, t: Target) returns (failure: Option<NormalizeError>)
      modifies po
      ensures FixPercent(old(po.metadata), old(po.entries), t, dryrun).None? ==>
        failure == Some(PercentNotANumber) && po.metadata == old(po.metadata) && po.saves == old(po.saves)
      ensures FixPercent(old(po.metadata), old(po.entries), t, dryrun).Some? ==>
        var f := FixPercent(old(po.metadata), old(po.entries), t, dryrun).value;
        failure.None? && po.metadata == f.md && po.saves == old(po.saves) + (if f.saved then 1 else 0)
      ensures po.entries == old(po.entries)
    {
      if t.transifexCode == SourceLanguage {
        return None;
      }
      var percent := PercentTranslated(po.entries);
      var recorded := PercentValue(Lookup(po.metadata, "Percent-Translated", Num(0)));
      if recorded.None? {
        return Some(PercentNotANumber);
      }
      if recorded.value == percent {
        return None;
      }
      if dryrun {
        return None;
      }
      po.metadata := po.metadata["Percent-Translated" := Num(percent)];
      po.Save();
      return None;
    }

    /** `normalize_pofile_project_id`. */
    method NormalizeProjectId(po: PoFile, slug: string)
      modifies po
      ensures po.metadata == FixProjectId(old(po.metadata), slug, dryrun).md
      ensures po.saves == old(po.saves) + (if FixProjectId(old(po.metadata), slug, dryrun).saved then 1 else 0)
      ensures po.entries == old(po.entries)
    {
      if "Project-Id-Version" in po.metadata && po.metadata["Project-Id-Version"] == Str(slug) {
        return;
      }
      if dryrun {
        return;
      }
      po.metadata := po.metadata["Project-Id-Version" := Str(slug)];
      po.Save();
    }

    /** `normalize_pofile_metadata`: the five normalizers in order, stopping
        at the first exception. */
    method NormalizeMetadata(po: PoFile, t: Target) returns (failure: Option<NormalizeError>)
      modifies po
      ensures var n := NormalizeAll(old(po.metadata), old(po.entries), t, organization, resourceToProject, dryrun);
        po.metadata == n.md && po.saves == old(po.saves) + n.saves && failure == n.failure
      ensures po.entries == old(po.entries)
    {
      NormalizeLanguage(po, t);
      failure := NormalizeLanguageTeam(po, t);
      if failure.Some? {
        return;
      }
      NormalizeLastTranslator(po);
      failure := NormalizePercent(po, t);
      if failure.Some? {
        return;
      }
      NormalizeProjectId(po, t.resourceSlug);
    }

    // ----------------------------------------------------------- dates

    /** `update_pofile_creation_datetime`. */
    method AdoptCreationDate(po: PoFile, txCreation: Timestamp)
      modifies po
      ensures po.metadata == DatedHeader(old(po.metadata), !dryrun, txCreation, false, None)
      ensures po.saves == old(po.saves) + (if dryrun then 0 else 1)
      ensures po.entries == old(po.entries)
    {
      if dryrun {
        return;
      }
      po.metadata := po.metadata["POT-Creation-Date" := Str(Render(txCreation))];
      po.Save();
    }

    /** `update_pofile_revision_datetime`. */
    method AdoptRevisionDate(po: PoFile, txRevision: Timestamp)
      modifies po
      ensures po.metadata == DatedHeader(old(po.metadata), false, None, !dryrun, txRevision)
      ensures po.saves == old(po.saves) + (if dryrun then 0 else 1)
      ensures po.entries == old(po.entries)
    {
      if dryrun {
        return;
      }
      po.metadata := po.metadata["PO-Revision-Date" := Str(Render(txRevision))];
      po.Save();
    }

    /** `normalize_pofile_dates`: the local dates move towards the
        service's, the revision date only when that cannot hide a
        difference.  `remote` is the service's copy of the file. */
    method NormalizeDates(po: PoFile, t: Target, pc: Timestamp, pr: Timestamp, tc: Timestamp, tr: Timestamp,
                          remote: RemoteFile) returns (r: Result<DatesOutcome, Failure>)
      requires Valid()
      modifies this, po
      ensures Valid()
      ensures StatsReused()
      ensures writes == old(writes) && clears == old(clears)
      ensures var plan := PlanDates(pc, pr, tc, tr);
        && r == RevisionVerdict(plan, t.resourceSlug in resourceToProject, remote, old(po.entries),
                                translationListing, t.resourceSlug, t.transifexCode)
        && po.metadata == DatedHeader(old(po.metadata), plan.adoptCreation && !dryrun, tc,
                                      r == Ok(RevisionAdopted) && !dryrun, tr)
        && po.saves == old(po.saves) + (if plan.adoptCreation && !dryrun then 1 else 0)
                                     + (if r == Ok(RevisionAdopted) && !dryrun then 1 else 0)
      ensures po.entries == old(po.entries)
    {
      var plan := PlanDates(pc, pr, tc, tr);
      if plan.adoptCreation {
        AdoptCreationDate(po, tc);
      }
      r := SettleRevision(po, t, plan, tr, remote);
    }

    /** The revision-date half of `normalize_pofile_dates`. */
    method SettleRevision(po: PoFile, t: Target, plan: DatesPlan, tr: Timestamp, remote: RemoteFile)
      returns (r: Result<DatesOutcome, Failure>)
      requires Valid()
      modifies this, po
      ensures Valid()
      ensures StatsReused()
      ensures writes == old(writes) && clears == old(clears)
      ensures r == RevisionVerdict(plan, t.resourceSlug in resourceToProject, remote, old(po.entries),
                                   translationListing, t.resourceSlug, t.transifexCode)
      ensures po.metadata == DatedHeader(old(po.metadata), false, None, r == Ok(RevisionAdopted) && !dryrun, tr)
      ensures po.saves == old(po.saves) + (if r == Ok(RevisionAdopted) && !dryrun then 1 else 0)
      ensures po.entries == old(po.entries)
    {
      match plan.revision {
        case KeepRevision =>
          r := Ok(RevisionKept);
        case AdoptRevision =>
          AdoptRevisionDate(po, tr);
          r := Ok(RevisionAdopted);
        case CompareEntries =>
          if t.resourceSlug !in resourceToProject {
            return Err(UnconfiguredSlug);
          }
          if remote.format != "PO" {
            return Err(NotPoFormat);
          }
          var same := EntriesMatch(po.entries, remote.entries);
          match same {
            case None =>
              return Err(RemoteTooShort);
            case Some(true) =>
              AdoptRevisionDate(po, tr);
              r := Ok(RevisionAdopted);
            case Some(false) =>
              var stats := TranslationStatsTable();
              if t.resourceSlug !in stats || t.transifexCode !in stats[t.resourceSlug] {
                return Err(NotInStats);
              }
              var s: TranslationStats := stats[t.resourceSlug][t.transifexCode];
              if s.translatedStrings.None? || s.untranslatedStrings.None? {
                return Err(StatsFieldMissing);
              }
              r := Ok(RevisionReported);
          }
      }
    }

    // ------------------------------------------------------------ sync

    /** Save each pushed translation on the service, in order. */
    method SavePushes(slug: string, code: string, es: seq<Entry>, pushes: seq<nat>)
      requires forall j :: 0 <= j < |pushes| ==> pushes[j] < |es|
      modifies this`writes
      ensures writes == old(writes) + PushWrites(slug, code, es, pushes)
    {
      var j := 0;
      while j < |pushes|
        invariant 0 <= j <= |pushes|
        invariant writes == old(writes) + PushWrites(slug, code, es, pushes[..j])
      {
        assert pushes[..j + 1] == pushes[..j] + [pushes[j]];
        writes := writes + [SaveUnit(slug, code, pushes[j], es[pushes[j]].msgstr)];
        j := j + 1;
      }
      assert pushes[..j] == pushes;
    }

    /** `safesync_translation` against the service's listing of units,
        `None` when the service answers that request with an API error: the
        error is logged and the file is returned as it is.  Positions pair
        local entries with units; running past the end of the units raises
        `IndexError`, leaving adoptions made so far in memory but unsaved and
        nothing pushed. */
    method SafesyncTranslation(po: PoFile, slug: string, code: string, listing: Option<seq<RemoteUnit>>)
      returns (r: Result<(), Failure>)
      requires Valid()
      modifies this, po
      ensures Valid()
      ensures StatsReused()
      ensures po.metadata == old(po.metadata)
      ensures slug !in resourceToProject || listing.None? || listing == Some([]) ==>
        r == (if slug !in resourceToProject then Err(UnconfiguredSlug)
              else if listing.None? then Ok(()) else Err(NoRemoteEntries)) &&
        po.entries == old(po.entries) && po.saves == old(po.saves) &&
        writes == old(writes) && clears == old(clears)
      ensures slug in resourceToProject && listing.Some? && listing.value != [] ==>
        var units := listing.value;
        |units| < |old(po.entries)| ==>
          r == Err(RemoteTooShort) &&
          po.entries == (if dryrun then old(po.entries) else MergedPrefix(old(po.entries), units, |units|)) &&
          po.saves == old(po.saves) && writes == old(writes) && clears == old(clears)
      ensures slug in resourceToProject && listing.Some? && listing.value != [] ==>
        var units := listing.value;
        var es := old(po.entries);
        |es| <= |units| ==>
          var pushes := PushIndices(es, units, |es|);
          && r == Ok(())
          && po.entries == (if dryrun then es else Merged(es, units))
          && writes == old(writes) + (if dryrun then [] else PushWrites(slug, code, es, pushes))
          && clears == old(clears) + (if !dryrun && pushes != [] then 1 else 0)
          && po.saves == old(po.saves) + (if !dryrun && AdoptsAny(es, units, |es|) then 1 else 0)
    {
      if slug !in resourceToProject {
        return Err(UnconfiguredSlug);
      }
      if listing.None? {
        return Ok(());
      }
      var units := listing.value;
      if units == [] {
        return Err(NoRemoteEntries);
      }
      ghost var es := po.entries;
      var complete, pushes, adopted := SyncEntries(po, units, dryrun);
      if !complete {
        return Err(RemoteTooShort);
      }
      if pushes != [] && !dryrun {
        PushWritesAfterMerge(slug, code, es, units);
        SavePushes(slug, code, po.entries, pushes);
        ClearStats();
      }
      if adopted && !dryrun {
        po.Save();
      }
      return Ok(());
    }

    // --------------------------------------------------------- compare

    /** `compare_entries`: the positions whose entries differ from the
        service's copy.  For a source resource the translations are blanked
        first, the local ones in place. */
    method CompareEntries(po: PoFile, slug: string, remote: RemoteFile, resource: bool)
      returns (r: Result<seq<nat>, Failure>)
      modifies po
      ensures po.metadata == old(po.metadata) && po.saves == old(po.saves)
      ensures slug !in resourceToProject || remote.format != "PO" ==>
        r == Err(if slug !in resourceToProject then UnconfiguredSlug else NotPoFormat) &&
        po.entries == old(po.entries)
      ensures slug in resourceToProject && remote.format == "PO" && |remote.entries| < |old(po.entries)| ==>
        r == Err(RemoteTooShort) &&
        po.entries == (if resource then BlankedPrefix(old(po.entries), |remote.entries|) else old(po.entries))
      ensures slug in resourceToProject && remote.format == "PO" && |old(po.entries)| <= |remote.entries| ==>
        r == Ok(Divergent(old(po.entries), remote.entries, resource, |old(po.entries)|)) &&
        po.entries == (if resource then Blanked(old(po.entries)) else old(po.entries))
    {
      if slug !in resourceToProject {
        return Err(UnconfiguredSlug);
      }
      if remote.format != "PO" {
        return Err(NotPoFormat);
      }
      r := DiffEntries(po, remote.entries, resource);
    }
  }
}
