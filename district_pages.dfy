/**
 * The generator `scripts/generate-district-pages.js`: one Markdown page per
 * district, holding its name and its slug, written to a path derived from the
 * slug.
 */
module DistrictPages {
  import opened Wrappers
  import opened Regions
  import Slug
  import Template
  import Files

  /**
   * `features.map(f => ({name: f.properties.JD_NAME, slug: toSlug(...)}))`,
   * where the script's `toSlug` is the three-step chain.
   */
  function Districts(features: seq<Feature>): (r: Result<seq<Entry>, LoadError>)
    ensures r.Success? <==> AllNamed(features, DistrictKey)
    ensures r.Failure? ==> FirstUnnamed(features, DistrictKey, r.error.index)
    ensures r.Success? ==> |r.value| == |features|
    ensures r.Success? ==> forall i :: 0 <= i < |features| ==>
      NameOf(features[i], DistrictKey) == Some(r.value[i].name) && r.value[i].slug == Slug.Slug(r.value[i].name)
  {
    match Names(features, DistrictKey)
    case Failure(e) => Failure(e)
    case Success(names) =>
      Success(seq(|features|, i requires 0 <= i < |features| => Entry(names[i], Slug.Chain(names[i]))))
  }

  // ---------------------------------------------------------------------------
  // The page
  // ---------------------------------------------------------------------------

  /** Where the slug line stands in the page. */
  const SlugLineAt := 8

  /** The line that embeds the slug, which the page's own code looks the district up by. */
  function SlugLine(slug: string): string {
    "const districtSlug = \"" + slug + "\";"
  }

  /**
   * `template(district)`, line by line: the title, the page's code up to the
   * slug line, the slug line and the rest of the page. The `\${district.name}`
   * occurrences are escaped in the script, so they stand in the page literally.
   */
  function Page(d: Entry): (page: seq<string>)
    ensures |page| == 77
    ensures page[0] == "# " + d.name
    ensures page[SlugLineAt] == SlugLine(d.slug)
    ensures page[15] == "## ${district.name}"
  {
    ["# " + d.name] + Intro + [SlugLine(d.slug)] + Lookup + [Heading] + Rest
  }

  /** The lines between the title and the slug line. */
  const Intro: seq<string> := [
    "",
    "```js",
    "// Load all districts data",
    "const allDistricts = FileAttachment(\"../data/districts.json.js\").json();",
    "const districtsGeoJSON = FileAttachment(\"../data/districts.json\").json();",
    "",
    "// Find this district"
  ]

  /** The lines after the slug line that look the district and its feature up. */
  const Lookup: seq<string> := [
    "const district = allDistricts.find(d => d.slug === districtSlug);",
    "const districtFeature = districtsGeoJSON.features.find(f =>",
    "  f.properties.JD_NAME === district.name",
    ");",
    "```",
    ""
  ]

  /** The page's heading, which the page's own code fills in when it runs. */
  const Heading: string := "## ${district.name}"

  /** The lines after the heading: the introduction, the map and the information cards. */
  const Rest: seq<string> := [
    "",
    "<div class=\"district-header\">",
    "  <p class=\"district-intro\">",
    "    The ${district.name} is one of the 94 federal judicial districts in the United States.",
    "  </p>",
    "</div>",
    "",
    "```js",
    "// Create map showing just this district",
    "const width = 600;",
    "const height = 400;",
    "",
    "const projection = d3.geoAlbersUsa()",
    "  .fitSize([width, height], districtFeature);",
    "",
    "const path = d3.geoPath().projection(projection);",
    "",
    "const svg = d3.create(\"svg\")",
    "  .attr(\"width\", width)",
    "  .attr(\"height\", height)",
    "  .attr(\"viewBox\", [0, 0, width, height])",
    "  .attr(\"style\", \"max-width: 100%; height: auto; background: #f9f9f9;\");",
    "",
    "// Add the district boundary",
    "svg.append(\"path\")",
    "  .datum(districtFeature)",
    "  .attr(\"d\", path)",
    "  .attr(\"fill\", \"#e0e0e0\")",
    "  .attr(\"stroke\", \"#4a90e2\")",
    "  .attr(\"stroke-width\", 2);",
    "",
    "display(svg.node());",
    "```",
    "",
    "## Information",
    "",
    "<div class=\"info-grid\">",
    "  <div class=\"info-card\">",
    "    <h3>District Judges</h3>",
    "    <p>Judge information will be added here.</p>",
    "  </div>",
    "",
    "  <div class=\"info-card\">",
    "    <h3>Circuit Court</h3>",
    "    <p>Parent circuit information will be added here.</p>",
    "  </div>",
    "",
    "  <div class=\"info-card\">",
    "    <h3>Court Locations</h3>",
    "    <p>Courthouse location information will be added here.</p>",
    "  </div>",
    "",
    "  <div class=\"info-card\">",
    "    <h3>Caseload Statistics</h3>",
    "    <p>Case statistics will be added here.</p>",
    "  </div>",
    "</div>",
    "",
    "---",
    "",
    "[\U{2190} Back to all districts](./)"

  ]

  /** Apart from the title and the slug line, every district gets the same page. */
  lemma PageConstantElsewhere(d1: Entry, d2: Entry, i: int)
    requires 0 <= i < 77 && i != 0 && i != SlugLineAt
    ensures Page(d1)[i] == Page(d2)[i]
  {
  }

  /** The text written for a district. */
  function Text(d: Entry): string {
    Template.Unlines(Page(d))
  }

  /** The text begins with the title line and holds the slug line on a line of its own. */
  lemma TextShape(d: Entry)
    ensures "# " + d.name + "\n" <= Text(d)
    ensures Template.Occurs("\n" + SlugLine(d.slug) + "\n", Text(d))
  {
    Template.UnlinesFirst(Page(d));
    Template.LineOccurs(Page(d), SlugLineAt);
  }

  // ---------------------------------------------------------------------------
  // The write loop
  // ---------------------------------------------------------------------------

  /** `src/districts/${district.slug}.md` */
  function Path(slug: string): string {
    "src/districts/" + slug + ".md"
  }

  /** Distinct slugs give distinct paths, so only equal slugs collide. */
  lemma PathInjective(s1: string, s2: string)
    ensures Path(s1) == Path(s2) <==> s1 == s2
  {
    Template.AffixInjective("src/districts/", ".md", s1, s2);
  }

  /** The writes the loop makes, in list order. */
  function Writes(districts: seq<Entry>): (ws: seq<Files.Write>)
    ensures |ws| == |districts|
    ensures forall i :: 0 <= i < |districts| ==> ws[i] == Files.Write(Path(districts[i].slug), Text(districts[i]))
  {
    seq(|districts|, i requires 0 <= i < |districts| => Files.Write(Path(districts[i].slug), Text(districts[i])))
  }

  /**
   * The loop writing every page: one write per district, in order. The
   * returned count is the `districts.length` the script reports.
   */
  method Generate(fs: Files.FileSystem, districts: seq<Entry>) returns (count: nat)
    modifies fs
    ensures fs.history == old(fs.history) + Writes(districts)
    ensures fs.files == Files.Applied(old(fs.files), Writes(districts))
    ensures count == |districts|
  {
    var ws := Writes(districts);
    var i := 0;
    while i < |districts|
      invariant 0 <= i <= |districts|
      invariant fs.history == old(fs.history) + ws[..i]
      invariant fs.files == Files.Applied(old(fs.files), ws[..i])
    {
      var d := districts[i];
      fs.WriteFile(Path(d.slug), Text(d));
      Files.AppliedPrefix(old(fs.files), ws, i);
      i := i + 1;
    }
    assert ws[..i] == ws;
    count := |districts|;
  }

  /**
   * The whole script on the features read from `districts.json`: a feature
   * without a string name throws before anything is written.
   */
  method Run(fs: Files.FileSystem, features: seq<Feature>) returns (r: Result<nat, LoadError>)
    modifies fs
    ensures r.Failure? <==> Districts(features).Failure?
    ensures r.Failure? ==> r.error == Districts(features).error
    ensures r.Failure? ==> fs.files == old(fs.files) && fs.history == old(fs.history)
    ensures r.Success? ==> r.value == |features|
    ensures r.Success? ==> fs.history == old(fs.history) + Writes(Districts(features).value)
    ensures r.Success? ==> fs.files == Files.Applied(old(fs.files), Writes(Districts(features).value))
  {
    var ds := Districts(features);
    if ds.Failure? {
      return Failure(ds.error);
    }
    var count := Generate(fs, ds.value);
    return Success(count);
  }

  /**
   * After the loop, each district's path holds the page of the last district
   * with the same slug: districts whose slugs collide overwrite each other.
   */
  lemma GeneratedPage(files: map<string, string>, districts: seq<Entry>, i: int)
    requires 0 <= i < |districts|
    ensures Path(districts[i].slug) in Files.Applied(files, Writes(districts))
    ensures exists j :: i <= j < |districts| && LastWithSlug(districts, districts[i].slug, j) && Files.Applied(files, Writes(districts))[Path(districts[i].slug)] == Text(districts[j])
  {
    var ws := Writes(districts);
    Files.LastWriterWins(files, ws, i);
    var j :| i <= j < |ws| && Files.LastWriteTo(ws, ws[i].path, j) && Files.Applied(files, ws)[ws[i].path] == ws[j].contents;
    PathInjective(districts[j].slug, districts[i].slug);
    forall k | j < k < |districts|
      ensures districts[k].slug != districts[i].slug
    {
      PathInjective(districts[k].slug, districts[i].slug);
    }
    assert LastWithSlug(districts, districts[i].slug, j);
  }

  /** The page at a district's path embeds that district's slug, whichever district wrote it last. */
  lemma GeneratedSlugLine(files: map<string, string>, districts: seq<Entry>, i: int)
    requires 0 <= i < |districts|
    ensures Path(districts[i].slug) in Files.Applied(files, Writes(districts))
    ensures Template.Occurs("\n" + SlugLine(districts[i].slug) + "\n", Files.Applied(files, Writes(districts))[Path(districts[i].slug)])
  {
    GeneratedPage(files, districts, i);
    var j :| i <= j < |districts| && LastWithSlug(districts, districts[i].slug, j)
      && Files.Applied(files, Writes(districts))[Path(districts[i].slug)] == Text(districts[j]);
    TextShape(districts[j]);
  }

  /** A path that is no district's keeps what it held. */
  lemma OtherFilesUntouched(files: map<string, string>, districts: seq<Entry>, p: string)
    requires forall i :: 0 <= i < |districts| ==> p != Path(districts[i].slug)
    ensures p in Files.Applied(files, Writes(districts)) <==> p in files
    ensures p in files ==> Files.Applied(files, Writes(districts))[p] == files[p]
  {
    Files.AppliedUntouched(files, Writes(districts), p);
  }
}
