/**
 * The generator `scripts/generate-circuit-pages-fixed.js`: one Markdown page per
 * circuit, holding its name and its slug, written to a path derived from the
 * slug.
 */
module CircuitPages {
  import opened Wrappers
  import opened Regions
  import Slug
  import Template
  import Files

  /**
   * `features.map(f => ({name: f.properties.Name, slug: toSlug(...)}))`,
   * where the script's `toSlug` is the three-step chain.
   */
  function Circuits(features: seq<Feature>): (r: Result<seq<Entry>, LoadError>)
    ensures r.Success? <==> AllNamed(features, CircuitKey)
    ensures r.Failure? ==> FirstUnnamed(features, CircuitKey, r.error.index)
    ensures r.Success? ==> |r.value| == |features|
    ensures r.Success? ==> forall i :: 0 <= i < |features| ==>
      NameOf(features[i], CircuitKey) == Some(r.value[i].name) && r.value[i].slug == Slug.Slug(r.value[i].name)
  {
    match Names(features, CircuitKey)
    case Failure(e) => Failure(e)
    case Success(names) =>
      Success(seq(|features|, i requires 0 <= i < |features| => Entry(names[i], Slug.Chain(names[i]))))
  }

  // ---------------------------------------------------------------------------
  // The page
  // ---------------------------------------------------------------------------

  /** Where the slug line stands in the page. */
  const SlugLineAt := 10

  /** The line that embeds the slug, which the page's own code looks the circuit up by. */
  function SlugLine(slug: string): string {
    "const circuitSlug = \"" + slug + "\";"
  }

  /**
   * `template(circuit)`, line by line: the title, the page's code up to the
   * slug line, the slug line and the rest of the page. The `\${circuit.name}`
   * occurrences are escaped in the script, so they stand in the page literally.
   */
  function Page(c: Entry): (page: seq<string>)
    ensures |page| == 74
    ensures page[0] == "# " + c.name
    ensures page[SlugLineAt] == SlugLine(c.slug)
    ensures page[17] == "## ${circuit.name}"
    ensures page[56] == "    <h3>Member Districts</h3>"
  {
    ["# " + c.name] + Intro + [SlugLine(c.slug)] + Lookup + [Heading] + Rest
  }

  /** The lines between the title and the slug line. */
  const Intro: seq<string> := [
    "",
    "```js",
    "// Load all circuits data",
    "const allCircuits = await FileAttachment(\"../data/circuits.json.js\").json();",
    "const circuitsGeoJSON = await FileAttachment(\"../data/circuits.json\").json();",
    "```",
    "",
    "```js",
    "// Find this circuit"
  ]

  /** The lines after the slug line that look the circuit and its feature up. */
  const Lookup: seq<string> := [
    "const circuit = allCircuits.find(c => c.slug === circuitSlug);",
    "const circuitFeature = circuitsGeoJSON.features.find(f =>",
    "  f.properties.Name === circuit.name",
    ");",
    "```",
    ""
  ]

  /** The page's heading, which the page's own code fills in when it runs. */
  const Heading: string := "## ${circuit.name}"

  /** The lines after the heading: the introduction, the map and the information cards. */
  const Rest: seq<string> := [
    "",
    "<div class=\"circuit-header\">",
    "  <p class=\"circuit-intro\">",
    "    The ${circuit.name} is one of the thirteen United States Courts of Appeals.",
    "  </p>",
    "</div>",
    "",
    "```js",
    "// Create map showing just this circuit",
    "const width = 600;",
    "const height = 400;",
    "",
    "const projection = d3.geoAlbersUsa()",
    "  .fitSize([width, height], circuitFeature);",
    "",
    "const path = d3.geoPath().projection(projection);",
    "",
    "const svg = d3.create(\"svg\")",
    "  .attr(\"width\", width)",
    "  .attr(\"height\", height)",
    "  .attr(\"viewBox\", [0, 0, width, height])",
    "  .attr(\"style\", \"max-width: 100%; height: auto; background: #f9f9f9;\");",
    "",
    "// Add the circuit boundary",
    "svg.append(\"path\")",
    "  .datum(circuitFeature)",
    "  .attr(\"d\", path)",
    "  .attr(\"fill\", \"#d4e6f1\")",
    "  .attr(\"stroke\", \"#2874a6\")",
    "  .attr(\"stroke-width\", 2);",
    "",
    "display(svg.node());",
    "```",
    "",
    "## Information",
    "",
    "<div class=\"info-grid\">",
    "  <div class=\"info-card\">",
    "    <h3>Member Districts</h3>",
    "    <p>Information about member districts will be added here.</p>",
    "  </div>",
    "",
    "  <div class=\"info-card\">",
    "    <h3>Circuit Judges</h3>",
    "    <p>Judge information will be added here.</p>",
    "  </div>",
    "",
    "  <div class=\"info-card\">",
    "    <h3>Court Locations</h3>",
    "    <p>Court location information will be added here.</p>",
    "  </div>",
    "</div>",
    "",
    "---",
    "",
    "[\U{2190} Back to all circuits](./index)"
  ]

  /** Apart from the title and the slug line, every circuit gets the same page. */
  lemma PageConstantElsewhere(d1: Entry, d2: Entry, i: int)
    requires 0 <= i < 74 && i != 0 && i != SlugLineAt
    ensures Page(d1)[i] == Page(d2)[i]
  {
  }

  /** The text written for a circuit. */
  function Text(c: Entry): string {
    Template.Unlines(Page(c))
  }

  /** The text begins with the title line and holds the slug line on a line of its own. */
  lemma TextShape(c: Entry)
    ensures "# " + c.name + "\n" <= Text(c)
    ensures Template.Occurs("\n" + SlugLine(c.slug) + "\n", Text(c))
  {
    Template.UnlinesFirst(Page(c));
    Template.LineOccurs(Page(c), SlugLineAt);
  }

  // ---------------------------------------------------------------------------
  // The write loop
  // ---------------------------------------------------------------------------

  /** `src/circuits/${circuit.slug}.md` */
  function Path(slug: string): string {
    "src/circuits/" + slug + ".md"
  }

  /** Distinct slugs give distinct paths, so only equal slugs collide. */
  lemma PathInjective(s1: string, s2: string)
    ensures Path(s1) == Path(s2) <==> s1 == s2
  {
    Template.AffixInjective("src/circuits/", ".md", s1, s2);
  }

  /** The writes the loop makes, in list order. */
  function Writes(circuits: seq<Entry>): (ws: seq<Files.Write>)
    ensures |ws| == |circuits|
    ensures forall i :: 0 <= i < |circuits| ==> ws[i] == Files.Write(Path(circuits[i].slug), Text(circuits[i]))
  {
    seq(|circuits|, i requires 0 <= i < |circuits| => Files.Write(Path(circuits[i].slug), Text(circuits[i])))
  }

  /**
   * The loop writing every page: one write per circuit, in order. The
   * returned count is the `circuits.length` the script reports.
   */
  method Generate(fs: Files.FileSystem, circuits: seq<Entry>) returns (count: nat)
    modifies fs
    ensures fs.history == old(fs.history) + Writes(circuits)
    ensures fs.files == Files.Applied(old(fs.files), Writes(circuits))
    ensures count == |circuits|
  {
    var ws := Writes(circuits);
    var i := 0;
    while i < |circuits|
      invariant 0 <= i <= |circuits|
      invariant fs.history == old(fs.history) + ws[..i]
      invariant fs.files == Files.Applied(old(fs.files), ws[..i])
    {
      var c := circuits[i];
      fs.WriteFile(Path(c.slug), Text(c));
      Files.AppliedPrefix(old(fs.files), ws, i);
      i := i + 1;
    }
    assert ws[..i] == ws;
    count := |circuits|;
  }

  /**
   * The whole script on the features read from `circuits.json`: a feature
   * without a string name throws before anything is written.
   */
  method Run(fs: Files.FileSystem, features: seq<Feature>) returns (r: Result<nat, LoadError>)
    modifies fs
    ensures r.Failure? <==> Circuits(features).Failure?
    ensures r.Failure? ==> r.error == Circuits(features).error
    ensures r.Failure? ==> fs.files == old(fs.files) && fs.history == old(fs.history)
    ensures r.Success? ==> r.value == |features|
    ensures r.Success? ==> fs.history == old(fs.history) + Writes(Circuits(features).value)
    ensures r.Success? ==> fs.files == Files.Applied(old(fs.files), Writes(Circuits(features).value))
  {
    var ds := Circuits(features);
    if ds.Failure? {
      return Failure(ds.error);
    }
    var count := Generate(fs, ds.value);
    return Success(count);
  }

  /**
   * After the loop, each circuit's path holds the page of the last circuit
   * with the same slug: circuits whose slugs collide overwrite each other.
   */
  lemma GeneratedPage(files: map<string, string>, circuits: seq<Entry>, i: int)
    requires 0 <= i < |circuits|
    ensures Path(circuits[i].slug) in Files.Applied(files, Writes(circuits))
    ensures exists j :: i <= j < |circuits| && LastWithSlug(circuits, circuits[i].slug, j) && Files.Applied(files, Writes(circuits))[Path(circuits[i].slug)] == Text(circuits[j])
  {
    var ws := Writes(circuits);
    Files.LastWriterWins(files, ws, i);
    var j :| i <= j < |ws| && Files.LastWriteTo(ws, ws[i].path, j) && Files.Applied(files, ws)[ws[i].path] == ws[j].contents;
    PathInjective(circuits[j].slug, circuits[i].slug);
    forall k | j < k < |circuits|
      ensures circuits[k].slug != circuits[i].slug
    {
      PathInjective(circuits[k].slug, circuits[i].slug);
    }
    assert LastWithSlug(circuits, circuits[i].slug, j);
  }

  /** The page at a circuit's path embeds that circuit's slug, whichever circuit wrote it last. */
  lemma GeneratedSlugLine(files: map<string, string>, circuits: seq<Entry>, i: int)
    requires 0 <= i < |circuits|
    ensures Path(circuits[i].slug) in Files.Applied(files, Writes(circuits))
    ensures Template.Occurs("\n" + SlugLine(circuits[i].slug) + "\n", Files.Applied(files, Writes(circuits))[Path(circuits[i].slug)])
  {
    GeneratedPage(files, circuits, i);
    var j :| i <= j < |circuits| && LastWithSlug(circuits, circuits[i].slug, j)
      && Files.Applied(files, Writes(circuits))[Path(circuits[i].slug)] == Text(circuits[j]);
    TextShape(circuits[j]);
  }

  /** A path that is no circuit's keeps what it held. */
  lemma OtherFilesUntouched(files: map<string, string>, circuits: seq<Entry>, p: string)
    requires forall i :: 0 <= i < |circuits| ==> p != Path(circuits[i].slug)
    ensures p in Files.Applied(files, Writes(circuits)) <==> p in files
    ensures p in files ==> Files.Applied(files, Writes(circuits))[p] == files[p]
  {
    Files.AppliedUntouched(files, Writes(circuits), p);
  }
}
