/**
 * The pure rules of the legal-code HTML loader: which files a run
 * includes, the order files are processed in, the permission flags of a
 * tool, and the definitions and downstream clauses expected in a 4.0
 * license.
 */
module LoadHtml {
  import opened Wrappers
  import opened Text

  // ----------------------------------------------------------- filters

  /** The options that restrict a run; `None` where not given. */
  datatype Filters = Filters(category: Option<string>, languages: Option<set<string>>, versions: Option<seq<string>>)

  /** A run refused at the start (`CommandError`). */
  datatype CommandError = InvalidCategory(category: string)

  /** The two tool categories. */
  const Categories: set<string> := {"licenses", "publicdomain"}

  /** The `category`, `languages` and `versions` options as given on the
      command line ("" when absent); languages and versions are
      comma-separated lists, and English is always added to a language list. */
  function ParseFilters(category: string, languages: string, versions: string): (r: Result<Filters, CommandError>)
    ensures r.Err? <==> category != "" && category !in Categories
    ensures r.Err? ==> r.error == InvalidCategory(category)
    ensures r.Ok? ==> (r.value.category.None? <==> category == "")
    ensures r.Ok? && category != "" ==> r.value.category == Some(category)
    ensures r.Ok? ==> (r.value.languages.None? <==> languages == "")
    ensures r.Ok? && languages != "" ==>
      forall l :: l in r.value.languages.value <==> l == "en" || l in Split(languages, ',')
    ensures r.Ok? ==> (r.value.versions.None? <==> versions == "")
    ensures r.Ok? && versions != "" ==> r.value.versions.value == Split(versions, ',')
  {
    if category != "" && category !in Categories then Err(InvalidCategory(category))
    else
      Ok(Filters(
        if category == "" then None else Some(category),
        if languages == "" then None else Some({"en"} + set l | l in Split(languages, ',')),
        if versions == "" then None else Some(Split(versions, ','))))
  }

  /** A file is loaded when each given filter holds its value. */
  predicate Include(f: Filters, category: string, language: string, version: string)
  {
    && (f.category.None? || f.category.value == category)
    && (f.languages.None? || language in f.languages.value)
    && (f.versions.None? || version in f.versions.value)
  }

  /** Whatever languages are asked for, English files pass the language
      filter; and a file passes exactly when every option given names its
      value. */
  lemma {:induction false} IncludeMeaning(category: string, languages: string, versions: string,
                                          c: string, l: string, v: string)
    requires ParseFilters(category, languages, versions).Ok?
    ensures var f := ParseFilters(category, languages, versions).value;
      Include(f, c, l, v) <==>
        (category == "" || c == category) &&
        (languages == "" || l == "en" || l in Split(languages, ',')) &&
        (versions == "" || v in Split(versions, ','))
  {
  }

  // ------------------------------------------------------------- sorting

  /** The `_`-separated parts of an HTML file name without `.html`. */
  function FileParts(filename: string): seq<string>
  {
    Split(RemoveAll(filename, ".html"), '_')
  }

  /** The parts rearranged as `version__unit__rest`, trailing underscores
      stripped. */
  function PartsKey(parts: seq<string>): (key: string)
    requires |parts| >= 2
    ensures key == [] || key[|key| - 1] != '_'
    ensures var full := parts[1] + "__" + parts[0] + "__" + Join("__", parts[2..]);
      && key <= full
      && forall i :: |key| <= i < |full| ==> full[i] == '_'
  {
    RStrip(parts[1] + "__" + parts[0] + "__" + Join("__", parts[2..]), '_')
  }

  /** The sort key of an HTML file name; a name with fewer than two parts
      raises `IndexError` (`None`). */
  function SortKey(filename: string): (r: Option<string>)
    ensures r.None? <==> |FileParts(filename)| < 2
    ensures r.Some? ==> r.value == PartsKey(FileParts(filename))
  {
    var parts := FileParts(filename);
    if |parts| < 2 then None else Some(PartsKey(parts))
  }

  /** No proper prefix of ".html" is also a suffix of it. */
  lemma HtmlBorderless()
    ensures Borderless(".html")
  {
    var p := ".html";
    forall k | 0 < k < |p| ensures p[..k] != p[|p| - k..] {
      assert p[..k][0] == '.';
      assert p[|p| - k..][0] == p[|p| - k] != '.';
    }
  }

  /** Splitting a string built by joining separator-free pieces gives the
      pieces back. */
  lemma {:induction false} SplitJoin(parts: seq<string>, sep: char)
    requires |parts| >= 1
    requires forall i :: 0 <= i < |parts| ==> sep !in parts[i]
    ensures Split(Join([sep], parts), sep) == parts
    decreases |parts|, |parts[0]|
  {
    var p := parts[0];
    if p == [] {
      if |parts| == 1 {
        assert Join([sep], parts) == "";
      } else {
        var rest := parts[1..];
        assert Join([sep], parts) == [sep] + Join([sep], rest);
        SplitJoin(rest, sep);
        assert (([sep] + Join([sep], rest))[1..]) == Join([sep], rest);
      }
    } else {
      var shorter := [p[1..]] + parts[1..];
      assert shorter[1..] == parts[1..];
      assert sep !in p[1..] by {
        assert forall k :: 0 <= k < |p[1..]| ==> p[1..][k] == p[k + 1];
      }
      assert forall i :: 0 <= i < |shorter| ==> sep !in shorter[i];
      SplitJoin(shorter, sep);
      var s := Join([sep], parts);
      if |parts| == 1 {
        assert s == p;
        assert Join([sep], shorter) == p[1..];
      } else {
        assert s == p + [sep] + Join([sep], parts[1..]);
        assert Join([sep], shorter) == p[1..] + [sep] + Join([sep], parts[1..]);
      }
      assert s[0] == p[0] && s[1..] == Join([sep], shorter);
      assert [p[0]] + p[1..] == p;
      assert [[p[0]] + p[1..]] + parts[1..] == parts;
    }
  }

  /** The stem of `Join("_", parts) + ".html"` splits back into its parts. */
  lemma {:induction false} StemParts(parts: seq<string>)
    requires |parts| >= 1
    requires forall i :: 0 <= i < |parts| ==> '_' !in parts[i]
    requires !Occurs(Join("_", parts), ".html")
    ensures FileParts(Join("_", parts) + ".html") == parts
  {
    HtmlBorderless();
    RemoveTrailing(Join("_", parts), ".html");
    SplitJoin(parts, '_');
  }

  /** Stripping after an appended `c` is stripping the string itself, and
      a string not ending in `c` is kept whole. */
  lemma RStripAppended(s: string, c: char)
    ensures RStrip(s + [c], c) == RStrip(s, c)
    ensures s != [] && s[|s| - 1] != c ==> RStrip(s, c) == s
  {
    assert (s + [c])[..|s + [c]| - 1] == s;
  }

  /** Files sort by version first: `unit_version[_rest].html` gets the key
      `version__unit[__rest]`. */
  lemma {:induction false} SortKeyOfToolFile(parts: seq<string>)
    requires |parts| >= 2
    requires forall i :: 0 <= i < |parts| ==> parts[i] != "" && '_' !in parts[i]
    requires !Occurs(Join("_", parts), ".html")
    ensures SortKey(Join("_", parts) + ".html") ==
      Some(parts[1] + "__" + parts[0] + (if |parts| > 2 then "__" + Join("__", parts[2..]) else ""))
  {
    StemParts(parts);
    if |parts| == 2 {
      assert parts[2..] == [];
      KeyOfPair(parts[0], parts[1]);
      assert parts[1] + "__" + parts[0] + "" == parts[1] + "__" + parts[0];
    } else {
      KeyWithRest(parts);
      var j := Join("__", parts[2..]);
      assert parts[1] + "__" + parts[0] + "__" + j == parts[1] + "__" + parts[0] + ("__" + j);
    }
  }

  /** The key of a two-part name loses its two trailing underscores. */
  lemma KeyOfPair(unit: string, version: string)
    requires unit != [] && '_' !in unit
    ensures PartsKey([unit, version]) == version + "__" + unit
  {
    var k2 := version + "__" + unit;
    assert [unit, version][2..] == [];
    assert version + "__" + unit + "__" + Join("__", []) == k2 + "_" + "_";
    assert k2[|k2| - 1] == unit[|unit| - 1];
    assert unit[|unit| - 1] in unit;
    RStripAppended(k2 + "_", '_');
    RStripAppended(k2, '_');
  }

  /** The key of a longer name ends in its last part and keeps everything. */
  lemma KeyWithRest(parts: seq<string>)
    requires |parts| > 2
    requires forall i :: 0 <= i < |parts| ==> parts[i] != "" && '_' !in parts[i]
    ensures PartsKey(parts) == parts[1] + "__" + parts[0] + "__" + Join("__", parts[2..])
  {
    var tail := Join("__", parts[2..]);
    JoinEndsWith("__", parts[2..]);
    var last := parts[|parts| - 1];
    assert parts[2..][|parts[2..]| - 1] == last;
    assert tail[|tail| - 1] == tail[|tail| - |last|..][|last| - 1];
    var key := parts[1] + "__" + parts[0] + "__" + tail;
    assert key[|key| - 1] == tail[|tail| - 1] == last[|last| - 1];
    assert last[|last| - 1] in last;
    RStripAppended(key, '_');
  }

  /** The deed-only tools added to every run's file list,
      `certification_1.0.html` and `mark_1.0.html`. */
  const DeedOnlyFiles: seq<string> := ["certification" + "_" + "1.0" + ".html", "mark" + "_" + "1.0" + ".html"]

  /** The deed-only files sort as version 1.0 of their units. */
  lemma DeedOnlySortKeys()
    ensures SortKey(DeedOnlyFiles[0]) == Some("1.0" + "__" + "certification")
    ensures SortKey(DeedOnlyFiles[1]) == Some("1.0" + "__" + "mark")
  {
    TwoPartSortKey("certification", "1.0");
    TwoPartSortKey("mark", "1.0");
  }

  /** `unit_version.html` sorts under `version__unit`. */
  lemma TwoPartSortKey(unit: string, version: string)
    requires unit != "" && version != "" && '_' !in unit && '_' !in version
    requires '.' !in unit && |version| < 5
    ensures SortKey(unit + "_" + version + ".html") == Some(version + "__" + unit)
  {
    NoHtmlIn(unit, version);
    var parts := [unit, version];
    assert Join("_", parts) == unit + "_" + version;
    SortKeyOfToolFile(parts);
    assert version + "__" + unit + "" == version + "__" + unit;
  }

  /** `unit_version` holds no ".html" when the unit has no dot and the
      version is shorter than five characters. */
  lemma NoHtmlIn(unit: string, version: string)
    requires '.' !in unit && |version| < 5
    ensures !Occurs(unit + "_" + version, ".html")
  {
    var s := unit + "_" + version;
    forall i | 0 <= i && i + 5 <= |s| ensures !OccursAt(s, ".html", i) {
      assert s[i..i + 5][0] == s[i];
      assert s[i] in unit || s[i] == '_';
    }
  }

  // ---------------------------------------------------------------- flags

  /** The RDF permission flags recorded for a tool. */
  datatype Flags = Flags(
    permitsDerivativeWorks: bool,
    permitsDistribution: bool,
    permitsReproduction: bool,
    permitsSharing: bool,
    requiresAttribution: bool,
    requiresNotice: bool,
    requiresShareAlike: bool,
    prohibitsCommercialUse: bool,
    prohibitsHighIncomeNationUse: bool)

  /** The flags of a tool from its category and its unit (such as
      `by-nc-sa`, split at dashes); no flags for any other category.  What
      they are for each unit the loader meets is stated unit by unit below. */
  function ToolFlags(category: string, unit: string): (r: Option<Flags>)
    ensures r.Some? <==> category in Categories
  {
    var parts := Split(unit, '-');
    if category == "licenses" then
      Some(Flags(
        permitsDerivativeWorks := "nd" !in parts,
        permitsDistribution := "sampling" != unit,
        permitsReproduction := "sampling" != unit,
        permitsSharing := "sampling+" == unit,
        requiresAttribution := "by" in parts || "devnations" in parts || "sampling" in parts || "sampling+" in parts,
        requiresNotice := true,
        requiresShareAlike := "sa" in parts,
        prohibitsCommercialUse := "nc" in parts,
        prohibitsHighIncomeNationUse := "devnations" in parts))
    else if category == "publicdomain" then
      Some(Flags(true, true, true, false, false, false, false, false, false))
    else None
  }

  /** A license that permits sharing (Sampling Plus) also permits
      distribution and requires attribution; every license requires notice
      where no public-domain tool does. */
  lemma SharingImpliesAttribution(category: string, unit: string)
    requires ToolFlags(category, unit).Some?
    ensures ToolFlags(category, unit).value.permitsSharing ==>
      ToolFlags(category, unit).value.requiresAttribution && ToolFlags(category, unit).value.permitsDistribution
    ensures ToolFlags(category, unit).value.requiresNotice <==> category == "licenses"
    ensures ToolFlags(category, unit).value.permitsDistribution <==> ToolFlags(category, unit).value.permitsReproduction
  {
    if category == "licenses" && unit == "sampling+" {
      SplitWithoutSeparator(unit, '-');
    }
  }

  /** A string without the separator splits into itself alone. */
  lemma {:induction false} SplitWithoutSeparator(s: string, sep: char)
    requires sep !in s
    ensures Split(s, sep) == [s]
  {
    if s != [] {
      assert sep !in s[1..] by {
        assert forall k :: 0 <= k < |s[1..]| ==> s[1..][k] == s[k + 1];
      }
      SplitWithoutSeparator(s[1..], sep);
      assert [s[0]] + s[1..] == s;
    }
  }

  /** The licenses branch of `ToolFlags` unfolded for a unit whose split is
      known; the per-unit lemmas below use it. */
  lemma LicenseFlags(unit: string, parts: seq<string>)
    requires Split(unit, '-') == parts
    ensures ToolFlags("licenses", unit) == Some(Flags("nd" !in parts, unit != "sampling", unit != "sampling",
      unit == "sampling+", "by" in parts || "devnations" in parts || "sampling" in parts || "sampling+" in parts,
      true, "sa" in parts, "nc" in parts, "devnations" in parts))
  {
  }

  // The flags of each license unit the loader meets, written out.  Flags
  // are listed in the order of the `Flags` constructor: derivatives,
  // distribution, reproduction, sharing; attribution, notice, share-alike;
  // commercial use, high-income nation use.

  /** BY: everything permitted except sharing; attribution and notice. */
  lemma ByFlags(unit: string)
    requires unit == "by"
    ensures ToolFlags("licenses", unit) == Some(Flags(true, true, true, false, true, true, false, false, false))
  {
    BySetup(unit);
    LicenseFlags(unit, ["by"]);
    assert "nd" != "by" && "sa" != "by" && "nc" != "by";
  }

  /** BY-SA adds share-alike. */
  lemma BySaFlags(unit: string)
    requires unit == "by-sa"
    ensures ToolFlags("licenses", unit) == Some(Flags(true, true, true, false, true, true, true, false, false))
  {
    BySaSetup(unit);
    assert unit[0] != "sampling"[0] && unit[0] != "sampling+"[0];
    LicenseFlags(unit, ["by", "sa"]);
    assert "nd"[0] != "by"[0] && "nd"[0] != "sa"[0];
    assert "nc"[1] != "by"[1] && "nc"[0] != "sa"[0];
  }

  /** BY-ND permits no derivatives. */
  lemma ByNdFlags(unit: string)
    requires unit == "by-nd"
    ensures ToolFlags("licenses", unit) == Some(Flags(false, true, true, false, true, true, false, false, false))
  {
    ByNdSetup(unit);
    assert unit[0] != "sampling"[0] && unit[0] != "sampling+"[0];
    LicenseFlags(unit, ["by", "nd"]);
    assert "sa"[0] != "by"[0] && "sa"[0] != "nd"[0];
    assert "nc"[1] != "by"[1] && "nc"[1] != "nd"[1];
  }

  /** BY-NC prohibits commercial use. */
  lemma ByNcFlags(unit: string)
    requires unit == "by-nc"
    ensures ToolFlags("licenses", unit) == Some(Flags(true, true, true, false, true, true, false, true, false))
  {
    ByNcSetup(unit);
    assert unit[0] != "sampling"[0] && unit[0] != "sampling+"[0];
    LicenseFlags(unit, ["by", "nc"]);
    assert "nd"[1] != "by"[1] && "nd"[1] != "nc"[1];
    assert "sa"[0] != "by"[0] && "sa"[0] != "nc"[0];
  }

  /** BY-NC-SA: share-alike and no commercial use. */
  lemma ByNcSaFlags(unit: string)
    requires unit == "by-nc-sa"
    ensures ToolFlags("licenses", unit) == Some(Flags(true, true, true, false, true, true, true, true, false))
  {
    ByNcSaSetup(unit);
    assert unit[0] != "sampling"[0] && unit[0] != "sampling+"[0];
    LicenseFlags(unit, ["by", "nc", "sa"]);
    assert "nd"[1] != "by"[1] && "nd"[1] != "nc"[1] && "nd"[0] != "sa"[0];
  }

  /** BY-NC-ND: no derivatives and no commercial use. */
  lemma ByNcNdFlags(unit: string)
    requires unit == "by-nc-nd"
    ensures ToolFlags("licenses", unit) == Some(Flags(false, true, true, false, true, true, false, true, false))
  {
    ByNcNdSetup(unit);
    assert unit[0] != "sampling"[0] && unit[0] != "sampling+"[0];
    LicenseFlags(unit, ["by", "nc", "nd"]);
    assert "sa"[0] != "by"[0] && "sa"[0] != "nc"[0] && "sa"[0] != "nd"[0];
  }

  /** Sampling permits neither distribution nor reproduction. */
  lemma SamplingFlags(unit: string)
    requires unit == "sampling"
    ensures ToolFlags("licenses", unit) == Some(Flags(true, false, false, false, true, true, false, false, false))
  {
    SplitWithoutSeparator(unit, '-');
    LicenseFlags(unit, [unit]);
    assert unit != "sampling+";
  }

  /** Sampling Plus is the one license that permits sharing. */
  lemma SamplingPlusFlags(unit: string)
    requires unit == "sampling+"
    ensures ToolFlags("licenses", unit) == Some(Flags(true, true, true, true, true, true, false, false, false))
  {
    SplitWithoutSeparator(unit, '-');
    LicenseFlags(unit, [unit]);
    assert unit != "sampling";
  }

  /** Noncommercial Sampling Plus prohibits commercial use and, its unit
      not being `sampling+` itself, does not permit sharing. */
  lemma NcSamplingPlusFlags(unit: string)
    requires unit == "nc-sampling+"
    ensures ToolFlags("licenses", unit) == Some(Flags(true, true, true, false, true, true, false, true, false))
  {
    var parts := ["nc", "sampling+"];
    assert unit == Join("-", parts);
    UnitElements(parts);
    assert unit[0] != "sampling"[0] && unit[0] != "sampling+"[0];
    LicenseFlags(unit, parts);
    assert "nd"[1] != "nc"[1] && "sa"[0] != "nc"[0] && "by"[0] != "nc"[0];
  }

  /** Developing Nations prohibits use in high-income nations. */
  lemma DevNationsFlags(unit: string)
    requires unit == "devnations"
    ensures ToolFlags("licenses", unit) == Some(Flags(true, true, true, false, true, true, false, false, true))
  {
    SplitWithoutSeparator(unit, '-');
    LicenseFlags(unit, [unit]);
    assert unit[0] != "sampling"[0] && unit[0] != "sampling+"[0];
  }

  /** Every public-domain tool (CC0, the Public Domain Mark, the
      certification) permits everything and requires and prohibits nothing. */
  lemma PublicDomainFlags(unit: string)
    ensures ToolFlags("publicdomain", unit) == Some(Flags(true, true, true, false, false, false, false, false, false))
  {
  }

  // ----------------------------------------------------------- definitions

  /** The definitions shared by every BY 4.0 license, in order. */
  const BaseDefinitions: seq<string> := [
    "adapted_material",
    "copyright_and_similar_rights",
    "effective_technological_measures",
    "exceptions_and_limitations",
    "licensed_material",
    "licensed_rights",
    "licensor",
    "share",
    "sui_generis_database_rights",
    "you"]

  /** The position of the first occurrence of `x`, as `list.index`. */
  function IndexOf(s: seq<string>, x: string): (i: nat)
    requires x in s
    ensures i < |s| && s[i] == x && x !in s[..i]
  {
    if s[0] == x then 0
    else
      var j := IndexOf(s[1..], x);
      assert s[..j + 1] == [s[0]] + s[1..][..j];
      j + 1
  }

  /** `insert_after(x, y)`: `y` right after the first `x`; `None` when `x`
      is absent (`ValueError`). */
  function InsertAfter(defs: seq<string>, x: string, y: string): (r: Option<seq<string>>)
    ensures r.None? <==> x !in defs
    ensures r.Some? ==>
      var i := IndexOf(defs, x);
      && |r.value| == |defs| + 1
      && r.value[..i + 1] == defs[..i + 1]
      && r.value[i + 1] == y
      && r.value[i + 2..] == defs[i + 1..]
  {
    if x !in defs then None
    else
      var i := IndexOf(defs, x);
      Some(defs[..i + 1] + [y] + defs[i + 1..])
  }

  /** `insert_after` at a known first occurrence. */
  lemma InsertedAt(defs: seq<string>, x: string, y: string, i: nat, result: seq<string>)
    requires i < |defs| && defs[i] == x
    requires forall j :: 0 <= j < i ==> defs[j] != x
    requires result == defs[..i + 1] + [y] + defs[i + 1..]
    ensures InsertAfter(defs, x, y) == Some(result)
  {
  }

  /** Removing the inserted definition gives the list back, so every other
      definition keeps its order. */
  lemma InsertAfterKeepsOrder(defs: seq<string>, x: string, y: string)
    requires x in defs
    ensures var r := InsertAfter(defs, x, y).value; var i := IndexOf(defs, x);
      r[..i + 1] + r[i + 2..] == defs && multiset(r) == multiset(defs) + multiset{y}
  {
    var r := InsertAfter(defs, x, y).value;
    var i := IndexOf(defs, x);
    assert defs == defs[..i + 1] + defs[i + 1..];
    assert r == defs[..i + 1] + [y] + defs[i + 1..];
  }

  // The expected definitions of each unit, written out.

  const ByDefinitions: seq<string> :=
    ["adapted_material", "adapters_license", "copyright_and_similar_rights",
     "effective_technological_measures", "exceptions_and_limitations",
     "licensed_material", "licensed_rights", "licensor", "share",
     "sui_generis_database_rights", "you"]

  const BySaStep2: seq<string> :=
    ["adapted_material", "adapters_license", "by_sa_compatible_license",
     "copyright_and_similar_rights", "effective_technological_measures",
     "exceptions_and_limitations", "licensed_material", "licensed_rights",
     "licensor", "share", "sui_generis_database_rights", "you"]

  const BySaDefinitions: seq<string> :=
    ["adapted_material", "adapters_license", "by_sa_compatible_license",
     "copyright_and_similar_rights", "effective_technological_measures",
     "exceptions_and_limitations", "license_elements_sa", "licensed_material",
     "licensed_rights", "licensor", "share", "sui_generis_database_rights", "you"]

  const ByNcDefinitions: seq<string> :=
    ["adapted_material", "adapters_license", "copyright_and_similar_rights",
     "effective_technological_measures", "exceptions_and_limitations",
     "licensed_material", "licensed_rights", "licensor", "noncommercial", "share",
     "sui_generis_database_rights", "you"]

  const ByNcNdDefinitions: seq<string> :=
    ["adapted_material", "copyright_and_similar_rights",
     "effective_technological_measures", "exceptions_and_limitations",
     "licensed_material", "licensed_rights", "licensor", "noncommercial", "share",
     "sui_generis_database_rights", "you"]

  const ByNcSaStep2: seq<string> :=
    ["adapted_material", "adapters_license", "copyright_and_similar_rights",
     "effective_technological_measures", "exceptions_and_limitations",
     "license_elements_nc_sa", "licensed_material", "licensed_rights", "licensor",
     "share", "sui_generis_database_rights", "you"]

  const ByNcSaStep3: seq<string> :=
    ["adapted_material", "adapters_license", "by_nc_sa_compatible_license",
     "copyright_and_similar_rights", "effective_technological_measures",
     "exceptions_and_limitations", "license_elements_nc_sa", "licensed_material",
     "licensed_rights", "licensor", "share", "sui_generis_database_rights", "you"]

  const ByNcSaDefinitions: seq<string> :=
    ["adapted_material", "adapters_license", "by_nc_sa_compatible_license",
     "copyright_and_similar_rights", "effective_technological_measures",
     "exceptions_and_limitations", "license_elements_nc_sa", "licensed_material",
     "licensed_rights", "licensor", "noncommercial", "share",
     "sui_generis_database_rights", "you"]

  /** The definitions a 4.0 license of the unit is expected to hold; a
      unit without insertions (BY-ND, or any other) keeps the base list. */
  function DefinitionsFor(unit: string): seq<string>
  {
    if unit == "by-sa" then BySaDefinitions
    else if unit == "by" then ByDefinitions
    else if unit == "by-nc" then ByNcDefinitions
    else if unit == "by-nc-nd" then ByNcNdDefinitions
    else if unit == "by-nc-sa" then ByNcSaDefinitions
    else BaseDefinitions
  }

  // Each insertion the loader makes, computed once on its literal list.

  lemma ByDefinitionsInserted()
    ensures InsertAfter(BaseDefinitions, "adapted_material", "adapters_license") == Some(ByDefinitions)
  {
    InsertedAt(BaseDefinitions, "adapted_material", "adapters_license", 0, ByDefinitions);
  }

  lemma BySaStep2Inserted()
    ensures InsertAfter(ByDefinitions, "adapters_license", "by_sa_compatible_license") == Some(BySaStep2)
  {
    InsertedAt(ByDefinitions, "adapters_license", "by_sa_compatible_license", 1, BySaStep2);
  }

  lemma BySaDefinitionsInserted()
    ensures InsertAfter(BySaStep2, "exceptions_and_limitations", "license_elements_sa") == Some(BySaDefinitions)
  {
    InsertedAt(BySaStep2, "exceptions_and_limitations", "license_elements_sa", 5, BySaDefinitions);
  }

  lemma ByNcDefinitionsInserted()
    ensures InsertAfter(ByDefinitions, "licensor", "noncommercial") == Some(ByNcDefinitions)
  {
    InsertedAt(ByDefinitions, "licensor", "noncommercial", 7, ByNcDefinitions);
  }

  lemma ByNcNdDefinitionsInserted()
    ensures InsertAfter(BaseDefinitions, "licensor", "noncommercial") == Some(ByNcNdDefinitions)
  {
    InsertedAt(BaseDefinitions, "licensor", "noncommercial", 6, ByNcNdDefinitions);
  }

  lemma ByNcSaStep2Inserted()
    ensures InsertAfter(ByDefinitions, "exceptions_and_limitations", "license_elements_nc_sa") == Some(ByNcSaStep2)
  {
    InsertedAt(ByDefinitions, "exceptions_and_limitations", "license_elements_nc_sa", 4, ByNcSaStep2);
  }

  lemma ByNcSaStep3Inserted()
    ensures InsertAfter(ByNcSaStep2, "adapters_license", "by_nc_sa_compatible_license") == Some(ByNcSaStep3)
  {
    InsertedAt(ByNcSaStep2, "adapters_license", "by_nc_sa_compatible_license", 1, ByNcSaStep3);
  }

  lemma ByNcSaDefinitionsInserted()
    ensures InsertAfter(ByNcSaStep3, "licensor", "noncommercial") == Some(ByNcSaDefinitions)
  {
    InsertedAt(ByNcSaStep3, "licensor", "noncommercial", 9, ByNcSaDefinitions);
  }

  /** The definition list as the loader builds it: the base list, then the
      unit's insertions in the loader's order. */
  method ExpectedDefinitions(unit: string) returns (defs: seq<string>)
    ensures defs == DefinitionsFor(unit)
  {
    defs := BaseDefinitions;
    if unit == "by-sa" {
      ByDefinitionsInserted();
      defs := InsertAfter(defs, "adapted_material", "adapters_license").value;
      BySaStep2Inserted();
      defs := InsertAfter(defs, "adapters_license", "by_sa_compatible_license").value;
      BySaDefinitionsInserted();
      defs := InsertAfter(defs, "exceptions_and_limitations", "license_elements_sa").value;
    } else if unit == "by" {
      ByDefinitionsInserted();
      defs := InsertAfter(defs, "adapted_material", "adapters_license").value;
    } else if unit == "by-nc" {
      ByDefinitionsInserted();
      defs := InsertAfter(defs, "adapted_material", "adapters_license").value;
      ByNcDefinitionsInserted();
      defs := InsertAfter(defs, "licensor", "noncommercial").value;
    } else if unit == "by-nd" {
    } else if unit == "by-nc-nd" {
      ByNcNdDefinitionsInserted();
      defs := InsertAfter(defs, "licensor", "noncommercial").value;
    } else if unit == "by-nc-sa" {
      ByDefinitionsInserted();
      defs := InsertAfter(defs, "adapted_material", "adapters_license").value;
      ByNcSaStep2Inserted();
      defs := InsertAfter(defs, "exceptions_and_limitations", "license_elements_nc_sa").value;
      ByNcSaStep3Inserted();
      defs := InsertAfter(defs, "adapters_license", "by_nc_sa_compatible_license").value;
      ByNcSaDefinitionsInserted();
      defs := InsertAfter(defs, "licensor", "noncommercial").value;
    }
  }

  /** The elements of a 4.0 unit, as the loader splits it at dashes. */
  lemma UnitElements(elements: seq<string>)
    requires |elements| >= 1
    requires forall i :: 0 <= i < |elements| ==> '-' !in elements[i]
    ensures Split(Join("-", elements), '-') == elements
  {
    SplitJoin(elements, '-');
  }

  /** The extra definitions follow the unit's elements: the noncommercial
      definition exactly for NC units, the adapter's license exactly for
      units that allow adaptations, and a license-elements definition
      exactly for share-alike units. */
  lemma DefinitionsFollowElements(unit: string)
    requires unit == "by" || unit == "by-sa" || unit == "by-nc" || unit == "by-nd" || unit == "by-nc-nd" || unit == "by-nc-sa"
    ensures ("noncommercial" in DefinitionsFor(unit) <==> "nc" in Split(unit, '-'))
    ensures ("adapters_license" in DefinitionsFor(unit) <==> "nd" !in Split(unit, '-'))
    ensures ("license_elements_sa" in DefinitionsFor(unit) || "license_elements_nc_sa" in DefinitionsFor(unit)
             <==> "sa" in Split(unit, '-'))
  {
    if unit == "by" {
      ByElements(unit);
    } else if unit == "by-sa" {
      BySaElements(unit);
    } else if unit == "by-nc" {
      ByNcElements(unit);
    } else if unit == "by-nd" {
      ByNdElements(unit);
    } else if unit == "by-nc-nd" {
      ByNcNdElements(unit);
    } else if unit == "by-nc-sa" {
      ByNcSaElements(unit);
    }
  }

  // The lemma above, one unit at a time.

  lemma ByElements(unit: string)
    requires unit == "by"
    ensures ("noncommercial" in DefinitionsFor(unit) <==> "nc" in Split(unit, '-'))
    ensures ("adapters_license" in DefinitionsFor(unit) <==> "nd" !in Split(unit, '-'))
    ensures ("license_elements_sa" in DefinitionsFor(unit) || "license_elements_nc_sa" in DefinitionsFor(unit)
             <==> "sa" in Split(unit, '-'))
  {
    BySetup(unit);
    assert "nc" !in ["by"] && "nd" !in ["by"] && "sa" !in ["by"];
    ByExtras();
    ElementFacts(unit, ["by"], ByDefinitions, true, false, false);
  }

  lemma BySetup(unit: string)
    requires unit == "by"
    ensures DefinitionsFor(unit) == ByDefinitions && Split(unit, '-') == ["by"]
  {
    assert DefinitionsFor(unit) == ByDefinitions;
    UnitElements(["by"]);
    assert unit == Join("-", ["by"]);
  }

  lemma BySaElements(unit: string)
    requires unit == "by-sa"
    ensures ("noncommercial" in DefinitionsFor(unit) <==> "nc" in Split(unit, '-'))
    ensures ("adapters_license" in DefinitionsFor(unit) <==> "nd" !in Split(unit, '-'))
    ensures ("license_elements_sa" in DefinitionsFor(unit) || "license_elements_nc_sa" in DefinitionsFor(unit)
             <==> "sa" in Split(unit, '-'))
  {
    BySaSetup(unit);
    assert "nc" !in ["by", "sa"] && "nd" !in ["by", "sa"] && "sa" in ["by", "sa"];
    BySaExtras();
    ElementFacts(unit, ["by", "sa"], BySaDefinitions, true, false, true);
  }

  lemma BySaSetup(unit: string)
    requires unit == "by-sa"
    ensures DefinitionsFor(unit) == BySaDefinitions && Split(unit, '-') == ["by", "sa"]
  {
    assert Join("-", ["by", "sa"]) == "by" + "-" + "sa";
    assert DefinitionsFor(unit) == BySaDefinitions;
    UnitElements(["by", "sa"]);
    assert unit == Join("-", ["by", "sa"]);
  }

  lemma ByNcElements(unit: string)
    requires unit == "by-nc"
    ensures ("noncommercial" in DefinitionsFor(unit) <==> "nc" in Split(unit, '-'))
    ensures ("adapters_license" in DefinitionsFor(unit) <==> "nd" !in Split(unit, '-'))
    ensures ("license_elements_sa" in DefinitionsFor(unit) || "license_elements_nc_sa" in DefinitionsFor(unit)
             <==> "sa" in Split(unit, '-'))
  {
    ByNcSetup(unit);
    assert "nc" in ["by", "nc"] && "nd" !in ["by", "nc"] && "sa" !in ["by", "nc"];
    ByNcExtras();
    ElementFacts(unit, ["by", "nc"], ByNcDefinitions, true, true, false);
  }

  lemma ByNcSetup(unit: string)
    requires unit == "by-nc"
    ensures DefinitionsFor(unit) == ByNcDefinitions && Split(unit, '-') == ["by", "nc"]
  {
    assert Join("-", ["by", "nc"]) == "by" + "-" + "nc";
    assert DefinitionsFor(unit) == ByNcDefinitions;
    UnitElements(["by", "nc"]);
    assert unit == Join("-", ["by", "nc"]);
  }

  lemma ByNdElements(unit: string)
    requires unit == "by-nd"
    ensures ("noncommercial" in DefinitionsFor(unit) <==> "nc" in Split(unit, '-'))
    ensures ("adapters_license" in DefinitionsFor(unit) <==> "nd" !in Split(unit, '-'))
    ensures ("license_elements_sa" in DefinitionsFor(unit) || "license_elements_nc_sa" in DefinitionsFor(unit)
             <==> "sa" in Split(unit, '-'))
  {
    ByNdSetup(unit);
    assert "nc" !in ["by", "nd"] && "nd" in ["by", "nd"] && "sa" !in ["by", "nd"];
    BaseExtras();
    ElementFacts(unit, ["by", "nd"], BaseDefinitions, false, false, false);
  }

  lemma ByNdSetup(unit: string)
    requires unit == "by-nd"
    ensures DefinitionsFor(unit) == BaseDefinitions && Split(unit, '-') == ["by", "nd"]
  {
    assert Join("-", ["by", "nd"]) == "by" + "-" + "nd";
    assert "by-nd"[3] != "by-sa"[3] && "by-nd"[4] != "by-nc"[4];
    assert "by-nd" != "by-nc-nd" && "by-nd" != "by-nc-sa";
    assert DefinitionsFor(unit) == BaseDefinitions;
    UnitElements(["by", "nd"]);
    assert unit == Join("-", ["by", "nd"]);
  }

  lemma ByNcNdElements(unit: string)
    requires unit == "by-nc-nd"
    ensures ("noncommercial" in DefinitionsFor(unit) <==> "nc" in Split(unit, '-'))
    ensures ("adapters_license" in DefinitionsFor(unit) <==> "nd" !in Split(unit, '-'))
    ensures ("license_elements_sa" in DefinitionsFor(unit) || "license_elements_nc_sa" in DefinitionsFor(unit)
             <==> "sa" in Split(unit, '-'))
  {
    ByNcNdSetup(unit);
    ByNcNdExtras();
    assert "nd" in ["by", "nc", "nd"] && "sa" !in ["by", "nc", "nd"];
    ElementFacts(unit, ["by", "nc", "nd"], ByNcNdDefinitions, false, true, false);
  }

  lemma ByNcNdSetup(unit: string)
    requires unit == "by-nc-nd"
    ensures DefinitionsFor(unit) == ByNcNdDefinitions && Split(unit, '-') == ["by", "nc", "nd"]
  {
    assert Join("-", ["nc", "nd"]) == "nc" + "-" + "nd";
    assert Join("-", ["by", "nc", "nd"]) == "by" + "-" + ("nc" + "-" + "nd");
    assert DefinitionsFor(unit) == ByNcNdDefinitions;
    UnitElements(["by", "nc", "nd"]);
    assert unit == Join("-", ["by", "nc", "nd"]);
  }

  lemma ByNcSaElements(unit: string)
    requires unit == "by-nc-sa"
    ensures ("noncommercial" in DefinitionsFor(unit) <==> "nc" in Split(unit, '-'))
    ensures ("adapters_license" in DefinitionsFor(unit) <==> "nd" !in Split(unit, '-'))
    ensures ("license_elements_sa" in DefinitionsFor(unit) || "license_elements_nc_sa" in DefinitionsFor(unit)
             <==> "sa" in Split(unit, '-'))
  {
    ByNcSaSetup(unit);
    assert "nc" in ["by", "nc", "sa"] && "nd" !in ["by", "nc", "sa"] && "sa" in ["by", "nc", "sa"];
    ByNcSaExtras();
    ElementFacts(unit, ["by", "nc", "sa"], ByNcSaDefinitions, true, true, true);
  }

  lemma ByNcSaSetup(unit: string)
    requires unit == "by-nc-sa"
    ensures DefinitionsFor(unit) == ByNcSaDefinitions && Split(unit, '-') == ["by", "nc", "sa"]
  {
    assert Join("-", ["nc", "sa"]) == "nc" + "-" + "sa";
    assert Join("-", ["by", "nc", "sa"]) == "by" + "-" + ("nc" + "-" + "sa");
    assert DefinitionsFor(unit) == ByNcSaDefinitions;
    UnitElements(["by", "nc", "sa"]);
    assert unit == Join("-", ["by", "nc", "sa"]);
  }

  /** One unit's case of the lemma above, from its split and its list. */
  lemma ElementFacts(unit: string, parts: seq<string>, defs: seq<string>, adapters: bool, nc: bool, sa: bool)
    requires Split(unit, '-') == parts && DefinitionsFor(unit) == defs
    requires ("adapters_license" in defs <==> adapters) && ("noncommercial" in defs <==> nc)
    requires ("license_elements_sa" in defs || "license_elements_nc_sa" in defs) <==> sa
    requires (nc <==> "nc" in parts) && (adapters <==> "nd" !in parts) && (sa <==> "sa" in parts)
    ensures ("noncommercial" in DefinitionsFor(unit) <==> "nc" in Split(unit, '-'))
    ensures ("adapters_license" in DefinitionsFor(unit) <==> "nd" !in Split(unit, '-'))
    ensures ("license_elements_sa" in DefinitionsFor(unit) || "license_elements_nc_sa" in DefinitionsFor(unit)
             <==> "sa" in Split(unit, '-'))
  {
  }

  // Which of the extra definitions each written-out list holds.

  lemma BaseExtras()
    ensures "adapters_license" !in BaseDefinitions && "noncommercial" !in BaseDefinitions
    ensures "license_elements_sa" !in BaseDefinitions && "license_elements_nc_sa" !in BaseDefinitions
  {
    assert "adapters_license"[6] != "adapted_material"[6];
  }

  lemma ByExtras()
    ensures "adapters_license" in ByDefinitions && "noncommercial" !in ByDefinitions
    ensures "license_elements_sa" !in ByDefinitions && "license_elements_nc_sa" !in ByDefinitions
  {
    assert ByDefinitions[1] == "adapters_license";
  }

  lemma BySaExtras()
    ensures "adapters_license" in BySaDefinitions && "noncommercial" !in BySaDefinitions
    ensures "license_elements_sa" in BySaDefinitions
  {
    assert BySaDefinitions[1] == "adapters_license" && BySaDefinitions[6] == "license_elements_sa";
  }

  lemma ByNcExtras()
    ensures "adapters_license" in ByNcDefinitions && "noncommercial" in ByNcDefinitions
    ensures "license_elements_sa" !in ByNcDefinitions && "license_elements_nc_sa" !in ByNcDefinitions
  {
    assert ByNcDefinitions[1] == "adapters_license" && ByNcDefinitions[8] == "noncommercial";
  }

  lemma ByNcNdExtras()
    ensures "adapters_license" !in ByNcNdDefinitions && "noncommercial" in ByNcNdDefinitions
    ensures "license_elements_sa" !in ByNcNdDefinitions && "license_elements_nc_sa" !in ByNcNdDefinitions
  {
    assert "adapters_license"[6] != "adapted_material"[6];
    assert ByNcNdDefinitions[7] == "noncommercial";
  }

  lemma ByNcSaExtras()
    ensures "adapters_license" in ByNcSaDefinitions && "noncommercial" in ByNcSaDefinitions
    ensures "license_elements_nc_sa" in ByNcSaDefinitions
  {
    assert ByNcSaDefinitions[1] == "adapters_license" && ByNcSaDefinitions[10] == "noncommercial";
    assert ByNcSaDefinitions[6] == "license_elements_nc_sa";
  }

  // ---------------------------------------------------------- downstreams

  /** Python's `list.insert(i, x)` for an index within the list. */
  function ListInsert(s: seq<string>, i: nat, x: string): (r: seq<string>)
    requires i <= |s|
    ensures |r| == |s| + 1 && r[i] == x && r[..i] == s[..i] && r[i + 1..] == s[i..]
  {
    s[..i] + [x] + s[i..]
  }

  /** The downstream clauses expected in section 2(a)(5): the offer and
      no-restrictions clauses, with the adapted-material clause between
      them exactly for the share-alike units. */
  method ExpectedDownstreams(unit: string) returns (keys: seq<string>)
    ensures |keys| == (if unit == "by-sa" || unit == "by-nc-sa" then 3 else 2)
    ensures "adapted_material" in keys <==> unit == "by-sa" || unit == "by-nc-sa"
    ensures keys[0] == "offer" && keys[|keys| - 1] == "no_restrictions"
  {
    keys := ["offer", "no_restrictions"];
    if unit in ["by-sa", "by-nc-sa"] {
      keys := ListInsert(keys, 1, "adapted_material");
    }
  }
}
