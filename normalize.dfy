/**
 * The header normalizers of a PO file, as functions from the header before
 * to the header after and whether the file is written.  Each normalizer
 * checks its own fields; when they already hold the canonical value it
 * changes nothing, otherwise it corrects them and writes the file once,
 * except in dry-run mode, where it only reports.
 */
module Normalize {
  import opened Wrappers
  import opened Text
  import opened Catalog
  import opened Stats

  /** The project's source language code (Django and the service agree on it). */
  const SourceLanguage: string := "en"

  /** The placeholder translator that gettext tools write into new files. */
  const FillerTranslator: string := "FULL NAME <EMAIL@ADDRESS>"

  /** The catalog being normalized: Django language code, the service's
      language code and the resource slug. */
  datatype Target = Target(languageCode: string, transifexCode: string, resourceSlug: string)

  /** What one normalizer did: the header afterwards and whether the file
      was written. */
  datatype Fix = Fix(md: Metadata, saved: bool)

  /** `k` is bound to the same value in both headers, or in neither. */
  predicate SameAt(a: Metadata, b: Metadata, k: string)
  {
    (k in a <==> k in b) && (k in a ==> a[k] == b[k])
  }

  // ---------------------------------------------------------------- Language

  const LanguageKeys: set<string> := {"Language", "Language-Django", "Language-Transifex"}

  /** `Language` and `Language-Transifex` hold the service's code and
      `Language-Django` the Django code (a missing field reads as ""). */
  predicate LanguageCorrect(md: Metadata, t: Target)
  {
    && Lookup(md, "Language", Str("")) == Str(t.transifexCode)
    && Lookup(md, "Language-Django", Str("")) == Str(t.languageCode)
    && Lookup(md, "Language-Transifex", Str("")) == Str(t.transifexCode)
  }

  function FixLanguage(md: Metadata, t: Target, dryrun: bool): (r: Fix)
    ensures r.saved <==> !dryrun && !LanguageCorrect(md, t)
    ensures !r.saved ==> r.md == md
    ensures !dryrun ==> LanguageCorrect(r.md, t)
    ensures forall k :: k !in LanguageKeys ==> SameAt(md, r.md, k)
  {
    if LanguageCorrect(md, t) || dryrun then Fix(md, false)
    else
      Fix(md["Language" := Str(t.transifexCode)]
            ["Language-Django" := Str(t.languageCode)]
            ["Language-Transifex" := Str(t.transifexCode)], true)
  }

  // ----------------------------------------------------------- Language-Team

  /** The team page on the service: the project page for the source
      language, otherwise the page of the project's team for that language. */
  function TeamUrl(org: string, project: ProjectConfig, transifexCode: string): (url: string)
    ensures "https://www.transifex.com/" + org + "/" <= url
    ensures transifexCode == SourceLanguage ==>
      url == "https://www.transifex.com/" + org + "/" + project.projectSlug + "/"
    ensures transifexCode != SourceLanguage ==>
      TeamPrefix(org, project) <= url && url[|TeamPrefix(org, project)|..] == transifexCode + "/"
  {
    var base := "https://www.transifex.com/" + org + "/";
    if transifexCode == SourceLanguage then base + project.projectSlug + "/"
    else
      var url := TeamPrefix(org, project) + (transifexCode + "/");
      assert url[|TeamPrefix(org, project)|..] == transifexCode + "/";
      url
  }

  /** The part of a team page shared by all translation languages of a project. */
  function TeamPrefix(org: string, project: ProjectConfig): string
  {
    "https://www.transifex.com/" + org + "/" + "teams/" + DecimalString(project.teamId) + "/"
  }

  /** Two different translation languages of one project get different team
      pages. */
  lemma TeamUrlSeparatesLanguages(org: string, project: ProjectConfig, a: string, b: string)
    requires a != SourceLanguage && b != SourceLanguage && a != b
    ensures TeamUrl(org, project, a) != TeamUrl(org, project, b)
  {
    var n := |TeamPrefix(org, project)|;
    var u := TeamUrl(org, project, a);
    var v := TeamUrl(org, project, b);
    assert u[n..][..|u[n..]| - 1] == a;
    assert v[n..][..|v[n..]| - 1] == b;
  }

  predicate TeamCorrect(md: Metadata, url: string)
  {
    "Language-Team" in md && md["Language-Team"] == Str(url)
  }

  function FixLanguageTeam(md: Metadata, url: string, dryrun: bool): (r: Fix)
    ensures r.saved <==> !dryrun && !TeamCorrect(md, url)
    ensures !r.saved ==> r.md == md
    ensures !dryrun ==> TeamCorrect(r.md, url)
    ensures forall k :: k != "Language-Team" ==> SameAt(md, r.md, k)
  {
    if TeamCorrect(md, url) || dryrun then Fix(md, false)
    else Fix(md["Language-Team" := Str(url)], true)
  }

  // --------------------------------------------------------- Last-Translator

  predicate HasFillerTranslator(md: Metadata)
  {
    "Last-Translator" in md && md["Last-Translator"] == Str(FillerTranslator)
  }

  /** Only the placeholder is removed; a real translator is never touched. */
  function FixLastTranslator(md: Metadata, dryrun: bool): (r: Fix)
    ensures r.saved <==> !dryrun && HasFillerTranslator(md)
    ensures !r.saved ==> r.md == md
    ensures r.saved ==> r.md == md - {"Last-Translator"}
    ensures !dryrun ==> !HasFillerTranslator(r.md)
    ensures forall k :: k != "Last-Translator" ==> SameAt(md, r.md, k)
  {
    if !HasFillerTranslator(md) || dryrun then Fix(md, false)
    else Fix(md - {"Last-Translator"}, true)
  }

  // ------------------------------------------------------ Percent-Translated

  /** `int(value)`: a number as it is, text through `ParseInt`. */
  function PercentValue(v: MetaValue): Option<int>
  {
    match v
    case Num(n) => Some(n)
    case Str(s) => ParseInt(s)
  }

  /** The recorded percentage, a missing field reading as 0. */
  function RecordedPercent(md: Metadata): Option<int>
  {
    PercentValue(Lookup(md, "Percent-Translated", Num(0)))
  }

  predicate PercentCorrect(md: Metadata, es: seq<Entry>, t: Target)
  {
    t.transifexCode != SourceLanguage ==> RecordedPercent(md) == Some(PercentTranslated(es))
  }

  /** Skipped for the source language; `None` when the recorded value is
      not a number (`int()` raises). */
  function FixPercent(md: Metadata, es: seq<Entry>, t: Target, dryrun: bool): (r: Option<Fix>)
    ensures r.None? <==> t.transifexCode != SourceLanguage && RecordedPercent(md).None?
    ensures r.Some? ==> (r.value.saved <==> !dryrun && !PercentCorrect(md, es, t))
    ensures r.Some? && !r.value.saved ==> r.value.md == md
    ensures r.Some? && r.value.saved ==>
      r.value.md == md["Percent-Translated" := Num(PercentTranslated(es))]
    ensures r.Some? && !dryrun ==> PercentCorrect(r.value.md, es, t)
  {
    if t.transifexCode == SourceLanguage then Some(Fix(md, false))
    else
      match RecordedPercent(md)
      case None => None
      case Some(recorded) =>
        if recorded == PercentTranslated(es) || dryrun then Some(Fix(md, false))
        else Some(Fix(md["Percent-Translated" := Num(PercentTranslated(es))], true))
  }

  // ------------------------------------------------------ Project-Id-Version

  predicate ProjectIdCorrect(md: Metadata, slug: string)
  {
    "Project-Id-Version" in md && md["Project-Id-Version"] == Str(slug)
  }

  function FixProjectId(md: Metadata, slug: string, dryrun: bool): (r: Fix)
    ensures r.saved <==> !dryrun && !ProjectIdCorrect(md, slug)
    ensures !r.saved ==> r.md == md
    ensures !dryrun ==> ProjectIdCorrect(r.md, slug)
    ensures forall k :: k != "Project-Id-Version" ==> SameAt(md, r.md, k)
  {
    if ProjectIdCorrect(md, slug) || dryrun then Fix(md, false)
    else Fix(md["Project-Id-Version" := Str(slug)], true)
  }

  // ---------------------------------------------------------- All together

  datatype NormalizeError =
    | UnknownResource   // the slug is in no project (`KeyError`)
    | PercentNotANumber // `int()` of the recorded percentage raised `ValueError`

  /** The header after the normalizers that ran, the number of writes, and
      the error that stopped the sequence, if any. */
  datatype Normalized = Normalized(md: Metadata, saves: nat, failure: Option<NormalizeError>)

  /** Every field the normalizers look after holds its canonical value. */
  predicate MetadataNormal(md: Metadata, es: seq<Entry>, t: Target, url: string)
  {
    && LanguageCorrect(md, t)
    && TeamCorrect(md, url)
    && !HasFillerTranslator(md)
    && PercentCorrect(md, es, t)
    && ProjectIdCorrect(md, t.resourceSlug)
  }

  /** The language, team and translator steps leave the stored percentage alone. */
  lemma PercentUntouched(md: Metadata, t: Target, url: string, dryrun: bool)
    ensures RecordedPercent(FixLastTranslator(FixLanguageTeam(FixLanguage(md, t, dryrun).md, url, dryrun).md, dryrun).md)
         == RecordedPercent(md)
  {
    var k := "Percent-Translated";
    assert k !in LanguageKeys by {
      assert k[0] != "Language-Transifex"[0];
    }
    var m1 := FixLanguage(md, t, dryrun).md;
    var m2 := FixLanguageTeam(m1, url, dryrun).md;
    var m3 := FixLastTranslator(m2, dryrun).md;
    assert SameAt(md, m1, k) && SameAt(m1, m2, k) && SameAt(m2, m3, k);
  }

  /** Language, Language-Team, Last-Translator, Percent-Translated and
      Project-Id-Version run in that order, each writing the file itself. */
  function NormalizeAll(md: Metadata, es: seq<Entry>, t: Target, org: string, owners: map<string, ProjectConfig>, dryrun: bool): (r: Normalized)
    ensures r.saves <= 5
    ensures dryrun ==> r.saves == 0 && r.md == md
    ensures r.failure == Some(UnknownResource) <==> t.resourceSlug !in owners
    ensures t.resourceSlug !in owners ==>
      r.md == FixLanguage(md, t, dryrun).md && r.saves == (if FixLanguage(md, t, dryrun).saved then 1 else 0)
    ensures r.failure == Some(PercentNotANumber) <==>
      t.resourceSlug in owners && t.transifexCode != SourceLanguage && RecordedPercent(md).None?
  {
    var f1 := FixLanguage(md, t, dryrun);
    var n1 := if f1.saved then 1 else 0;
    if t.resourceSlug !in owners then Normalized(f1.md, n1, Some(UnknownResource))
    else
      var project := owners[t.resourceSlug];
      var f2 := FixLanguageTeam(f1.md, TeamUrl(org, project, t.transifexCode), dryrun);
      var f3 := FixLastTranslator(f2.md, dryrun);
      var n3 := n1 + (if f2.saved then 1 else 0) + (if f3.saved then 1 else 0);
      PercentUntouched(md, t, TeamUrl(org, project, t.transifexCode), dryrun);
      match FixPercent(f3.md, es, t, dryrun)
      case None => Normalized(f3.md, n3, Some(PercentNotANumber))
      case Some(f4) =>
        var f5 := FixProjectId(f4.md, t.resourceSlug, dryrun);
        Normalized(f5.md, n3 + (if f4.saved then 1 else 0) + (if f5.saved then 1 else 0), None)
  }

  /** A run that is not a dry run and meets no error leaves the header normal. */
  lemma NormalizeAllNormalizes(md: Metadata, es: seq<Entry>, t: Target, org: string, owners: map<string, ProjectConfig>)
    requires NormalizeAll(md, es, t, org, owners, false).failure.None?
    ensures t.resourceSlug in owners
    ensures MetadataNormal(NormalizeAll(md, es, t, org, owners, false).md, es, t,
                           TeamUrl(org, owners[t.resourceSlug], t.transifexCode))
  {
    var project := owners[t.resourceSlug];
    var url := TeamUrl(org, project, t.transifexCode);
    var f1 := FixLanguage(md, t, false);
    var f2 := FixLanguageTeam(f1.md, url, false);
    var f3 := FixLastTranslator(f2.md, false);
    var f4 := FixPercent(f3.md, es, t, false).value;
    var f5 := FixProjectId(f4.md, t.resourceSlug, false);
    assert NormalizeAll(md, es, t, org, owners, false).md == f5.md;
    LanguageKept(f1.md, f2.md, t);
    LanguageKept(f2.md, f3.md, t);
    LastStepsKeep(f3.md, es, t, "Language");
    LastStepsKeep(f3.md, es, t, "Language-Django");
    LastStepsKeep(f3.md, es, t, "Language-Transifex");
    LanguageKept(f3.md, f5.md, t);
    assert SameAt(f2.md, f3.md, "Language-Team");
    LastStepsKeep(f3.md, es, t, "Language-Team");
    LastStepsKeep(f3.md, es, t, "Last-Translator");
    assert "Percent-Translated"[1] != "Project-Id-Version"[1];
    assert SameAt(f4.md, f5.md, "Percent-Translated");
  }

  /** The percentage and project-id steps leave every other field alone. */
  lemma LastStepsKeep(m: Metadata, es: seq<Entry>, t: Target, k: string)
    requires FixPercent(m, es, t, false).Some?
    requires k != "Percent-Translated" && k != "Project-Id-Version"
    ensures SameAt(m, FixProjectId(FixPercent(m, es, t, false).value.md, t.resourceSlug, false).md, k)
  {
  }

  /** The language fields carry over when none of them changes. */
  lemma LanguageKept(a: Metadata, b: Metadata, t: Target)
    requires LanguageCorrect(a, t)
    requires SameAt(a, b, "Language") && SameAt(a, b, "Language-Django") && SameAt(a, b, "Language-Transifex")
    ensures LanguageCorrect(b, t)
  {
  }

  /** A header that is already normal goes through every normalizer
      unchanged and unwritten. */
  lemma NormalHeaderIsFixedPoint(md: Metadata, es: seq<Entry>, t: Target, org: string, owners: map<string, ProjectConfig>, dryrun: bool)
    requires t.resourceSlug in owners
    requires MetadataNormal(md, es, t, TeamUrl(org, owners[t.resourceSlug], t.transifexCode))
    ensures NormalizeAll(md, es, t, org, owners, dryrun) == Normalized(md, 0, None)
  {
    var project := owners[t.resourceSlug];
    assert FixLanguage(md, t, dryrun) == Fix(md, false);
    assert FixLanguageTeam(md, TeamUrl(org, project, t.transifexCode), dryrun) == Fix(md, false);
    assert FixLastTranslator(md, dryrun) == Fix(md, false);
    assert FixPercent(md, es, t, dryrun) == Some(Fix(md, false));
    assert FixProjectId(md, t.resourceSlug, dryrun) == Fix(md, false);
  }

  /** Normalizing twice: the second run changes nothing and writes nothing. */
  lemma NormalizeIdempotent(md: Metadata, es: seq<Entry>, t: Target, org: string, owners: map<string, ProjectConfig>, dryrun: bool)
    requires NormalizeAll(md, es, t, org, owners, dryrun).failure.None?
    ensures var r := NormalizeAll(md, es, t, org, owners, dryrun);
      NormalizeAll(r.md, es, t, org, owners, dryrun) == Normalized(r.md, 0, None)
  {
    var r := NormalizeAll(md, es, t, org, owners, dryrun);
    if !dryrun {
      NormalizeAllNormalizes(md, es, t, org, owners);
      NormalHeaderIsFixedPoint(r.md, es, t, org, owners, dryrun);
    }
  }

  /** The header written by a successful run is still normal after the file
      is written and read back, percentage included. */
  lemma NormalSurvivesReload(md: Metadata, es: seq<Entry>, t: Target, url: string)
    requires MetadataNormal(md, es, t, url)
    ensures MetadataNormal(Reloaded(md), es, t, url)
  {
    var rl := Reloaded(md);
    LanguageSurvives(md, rl, t);
    TextKept(md, rl, "Language-Team");
    TranslatorSurvives(md, rl);
    TextKept(md, rl, "Project-Id-Version");
    if t.transifexCode != SourceLanguage {
      PercentKept(md, rl, PercentTranslated(es));
    }
  }

  /** The language fields read back as they were written. */
  lemma LanguageSurvives(md: Metadata, rl: Metadata, t: Target)
    requires rl == Reloaded(md)
    requires LanguageCorrect(md, t)
    ensures LanguageCorrect(rl, t)
  {
    TextKept(md, rl, "Language");
    TextKept(md, rl, "Language-Django");
    TextKept(md, rl, "Language-Transifex");
  }

  /** A number never reads back as the placeholder translator. */
  lemma TranslatorSurvives(md: Metadata, rl: Metadata)
    requires rl == Reloaded(md)
    requires !HasFillerTranslator(md)
    ensures !HasFillerTranslator(rl)
  {
    var key := "Last-Translator";
    if key in md && md[key].Num? {
      var n := md[key].n;
      var s := if n >= 0 then DecimalString(n) else "-" + DecimalString(-n);
      assert rl[key] == Str(s);
      assert s[0] == '-' || '0' <= s[0] <= '9';
      assert FillerTranslator[0] == 'F';
    } else {
      TextKept(md, rl, key);
    }
  }

  /** A text field reads back as it was written. */
  lemma TextKept(md: Metadata, rl: Metadata, k: string)
    requires rl == Reloaded(md)
    ensures k in md && md[k].Str? ==> SameAt(md, rl, k)
    ensures k !in md ==> k !in rl
  {
  }

  /** A percentage stored as a number reads back, through `int()`, as the
      same number. */
  lemma PercentKept(md: Metadata, rl: Metadata, pct: nat)
    requires rl == Reloaded(md)
    requires RecordedPercent(md) == Some(pct)
    ensures RecordedPercent(rl) == Some(pct)
  {
    var key := "Percent-Translated";
    if key in md {
      if md[key].Num? {
        assert md[key].n == pct;
        assert rl[key] == Str(DecimalString(pct));
        ParseDecimal(pct);
      } else {
        assert rl[key] == md[key];
      }
    } else {
      assert key !in rl;
    }
  }

  // ------------------------------------------------------------------ Dates

  /** What to do with the revision date. */
  datatype RevisionStep =
    | KeepRevision    // nothing to do
    | AdoptRevision   // the local date is missing: take the service's
    | CompareEntries  // the dates differ: take the service's only if the entries agree

  /** The decision on the two header dates.  The service does not let its
      dates be changed, so dates only ever move from the service to the
      local file. */
  datatype DatesPlan = DatesPlan(adoptCreation: bool, revision: RevisionStep)

  function PlanDates(poCreation: Option<string>, poRevision: Option<string>,
                     txCreation: Option<string>, txRevision: Option<string>): (r: DatesPlan)
    ensures r.adoptCreation <==> txCreation != poCreation
    ensures r.revision == AdoptRevision <==> poRevision.None? && txRevision.Some?
    ensures r.revision == CompareEntries <==>
      !(poRevision.None? && txRevision.Some?) && txRevision != poRevision
    ensures poCreation == txCreation && poRevision == txRevision ==> r == DatesPlan(false, KeepRevision)
  {
    var creation := txCreation != poCreation;
    if poRevision.None? && txRevision.Some? then DatesPlan(creation, AdoptRevision)
    else if txRevision != poRevision then DatesPlan(creation, CompareEntries)
    else DatesPlan(creation, KeepRevision)
  }

  /** `str()` of a date that may be missing. */
  function Render(d: Option<string>): string
  {
    match d
    case None => "None"
    case Some(s) => s
  }
}
