/**
 * The generator `scripts/generate-district-pages-simple.js`: the same records
 * and the same paths as the full district generator, but a page that holds
 * the district's name only, with no slug in it.
 */
module SimpleDistrictPages {
  import opened Wrappers
  import opened Regions
  import Template
  import Files
  import DistrictPages

  /** The line of the page's own lookup that compares a feature's name with the district's. */
  function LookupLine(name: string): string {
    "  f.properties.JD_NAME === \"" + name + "\""
  }

  /** The line that introduces the district by name. */
  function IntroLine(name: string): string {
    "    The " + name + " is one of the 94 federal judicial districts in the United States."
  }

  /**
   * `template(district)`, line by line. It reads only `district.name`: the
   * name fills a hole in the title, the lookup and the introduction, and the
   * slug is used for nothing but the path.
   */
  function Page(name: string): (page: seq<string>)
    ensures |page| == 69
    ensures page[0] == "# " + name
    ensures page[5] == LookupLine(name)
    ensures page[11] == IntroLine(name)
  {
    ["# " + name] + Load + [LookupLine(name)] + Header + [IntroLine(name)] + Rest
  }

  /** The lines between the title and the lookup line. */
  const Load: seq<string> := [
    "",
    "```js",
    "const districtsGeoJSON = await FileAttachment(\"../data/districts.json\").json();",
    "const districtFeature = districtsGeoJSON.features.find(f =>"
  ]

  /** The lines between the lookup line and the introduction. */
  const Header: seq<string> := [
    ");",
    "```",
    "",
    "<div class=\"district-header\">",
    "  <p class=\"district-intro\">"
  ]

  /** The lines after the introduction: the map and the information cards. */
  const Rest: seq<string> := [
    "  </p>",
    "</div>",
    "",
    "```js",
    "// Create map showing just this district",
    "const width = 600;",
    "const height = 400;",
    "",
    "// Add padding around the feature",
    "const projection = d3.geoAlbersUsa()",
    "  .fitExtent([[20, 20], [width - 20, height - 20]], districtFeature);",
    "",
    "const path = d3.geoPath().projection(projection);",
    "",
    "const svg = d3.create(\"svg\")",
    "  .attr(\"width\", width)",
    "  .attr(\"height\", height)",
    "  .attr(\"viewBox\", [0, 0, width, height])",
    "  .attr(\"style\", \"max-width: 100%; height: auto;\");",
    "",
    "svg.append(\"path\")",
    "  .datum(districtFeature)",
    "  .attr(\"d\", path)",
    "  .attr(\"fill\", \"#e0e0e0\")",
    "  .attr(\"stroke\", \"#4a90e2\")",
    "  .attr(\"stroke-width\", 2);",
    "",
    "display(svg.node());",
    "```",
    "",
    "## Information",
    "",
    "<div class=\"info-grid\">",
    "  <div class=\"info-card\">",
    "    <h3>District Judges</h3>",
    "    <p>Judge information will be added here.</p>",
    "  </div>",
    "",
    "  <div class=\"info-card\">",
    "    <h3>Circuit Court</h3>",
    "    <p>Parent circuit information will be added here.</p>",
    "  </div>",
    "",
    "  <div class=\"info-card\">",
    "    <h3>Court Locations</h3>",
    "    <p>Courthouse location information will be added here.</p>",
    "  </div>",
    "",
    "  <div class=\"info-card\">",
    "    <h3>Caseload Statistics</h3>",
    "    <p>Case statistics will be added here.</p>",
    "  </div>",
    "</div>",
    "",
    "---",
    "",
    "[\U{2190} Back to all districts](./index)"
  ]

  /** The name fills those three holes and nothing else: every other line is the same for every district. */
  lemma PageConstantElsewhere(name1: string, name2: string, i: int)
    requires 0 <= i < 69 && i != 0 && i != 5 && i != 11
    ensures Page(name1)[i] == Page(name2)[i]
  {
  }

  /** The text written for a district, which is the same for any two districts of the same name. */
  function Text(d: Entry): string {
    Template.Unlines(Page(d.name))
  }

  /** The text begins with the title line and holds the lookup and introduction lines on lines of their own. */
  lemma TextShape(d: Entry)
    ensures "# " + d.name + "\n" <= Text(d)
    ensures Template.Occurs("\n" + LookupLine(d.name) + "\n", Text(d))
    ensures Template.Occurs("\n" + IntroLine(d.name) + "\n", Text(d))
  {
    Template.UnlinesFirst(Page(d.name));
    Template.LineOccurs(Page(d.name), 5);
    Template.LineOccurs(Page(d.name), 11);
  }

  // ---------------------------------------------------------------------------
  // The write loop, to `src/districts/${district.slug}.md` as in the full generator
  // ---------------------------------------------------------------------------

  /** The writes the loop makes, in list order. */
  function Writes(districts: seq<Entry>): (ws: seq<Files.Write>)
    ensures |ws| == |districts|
    ensures forall i :: 0 <= i < |districts| ==> ws[i] == Files.Write(DistrictPages.Path(districts[i].slug), Text(districts[i]))
  {
    seq(|districts|, i requires 0 <= i < |districts| => Files.Write(DistrictPages.Path(districts[i].slug), Text(districts[i])))
  }

  /**
   * The loop writing every page: one write per district, in order. The
   * returned count is the `districts.length` the script reports.
   */
  method Generate(fs: Files.FileSystem, districts: seq<Entry>) returns (count: nat)
    modifies fs
    ensures fs.history == old(fs.history) + Writes(districts)
    ensures fs.files == Files.Applied(old(fs.files), Writes(districts))
    ensures count == |districts|
  {
    var ws := Writes(districts);
    var i := 0;
    while i < |districts|
      invariant 0 <= i <= |districts|
      invariant fs.history == old(fs.history) + ws[..i]
      invariant fs.files == Files.Applied(old(fs.files), ws[..i])
    {
      var d := districts[i];
      fs.WriteFile(DistrictPages.Path(d.slug), Text(d));
      Files.AppliedPrefix(old(fs.files), ws, i);
      i := i + 1;
    }
    assert ws[..i] == ws;
    count := |districts|;
  }

  /**
   * The whole script on the features read from `districts.json`, with the
   * same records as the full generator: a feature without a string name
   * throws before anything is written.
   */
  method Run(fs: Files.FileSystem, features: seq<Feature>) returns (r: Result<nat, LoadError>)
    modifies fs
    ensures r.Failure? <==> DistrictPages.Districts(features).Failure?
    ensures r.Failure? ==> r.error == DistrictPages.Districts(features).error
    ensures r.Failure? ==> fs.files == old(fs.files) && fs.history == old(fs.history)
    ensures r.Success? ==> r.value == |features|
    ensures r.Success? ==> fs.history == old(fs.history) + Writes(DistrictPages.Districts(features).value)
    ensures r.Success? ==> fs.files == Files.Applied(old(fs.files), Writes(DistrictPages.Districts(features).value))
  {
    var ds := DistrictPages.Districts(features);
    if ds.Failure? {
      return Failure(ds.error);
    }
    var count := Generate(fs, ds.value);
    return Success(count);
  }

  /**
   * After the loop, each district's path holds the page of the last district
   * with the same slug: districts whose slugs collide overwrite each other.
   */
  lemma GeneratedPage(files: map<string, string>, districts: seq<Entry>, i: int)
    requires 0 <= i < |districts|
    ensures DistrictPages.Path(districts[i].slug) in Files.Applied(files, Writes(districts))
    ensures exists j :: i <= j < |districts| && LastWithSlug(districts, districts[i].slug, j) && Files.Applied(files, Writes(districts))[DistrictPages.Path(districts[i].slug)] == Text(districts[j])
  {
    var ws := Writes(districts);
    Files.LastWriterWins(files, ws, i);
    var j :| i <= j < |ws| && Files.LastWriteTo(ws, ws[i].path, j) && Files.Applied(files, ws)[ws[i].path] == ws[j].contents;
    DistrictPages.PathInjective(districts[j].slug, districts[i].slug);
    forall k | j < k < |districts|
      ensures districts[k].slug != districts[i].slug
    {
      DistrictPages.PathInjective(districts[k].slug, districts[i].slug);
    }
    assert LastWithSlug(districts, districts[i].slug, j);
  }

  /** A path that is no district's keeps what it held. */
  lemma OtherFilesUntouched(files: map<string, string>, districts: seq<Entry>, p: string)
    requires forall i :: 0 <= i < |districts| ==> p != DistrictPages.Path(districts[i].slug)
    ensures p in Files.Applied(files, Writes(districts)) <==> p in files
    ensures p in files ==> Files.Applied(files, Writes(districts))[p] == files[p]
  {
    Files.AppliedUntouched(files, Writes(districts), p);
  }
}
