# judicial-map in Dafny

judicial-map is an Observable Framework site about the United States federal
courts: the 94 judicial districts and the 13 courts of appeals (circuits).
This project models the logic behind its data loaders and page generators:

- **URL slugs.** A region's name becomes its slug in three steps: lowercase it,
  turn each run of whitespace into one `-`, then delete every character
  outside `[a-z0-9-]`. `Slug.Slug` is a one-pass reference definition.
  `Slug.Chain` is the three-step chain as the scripts write it, and it is
  proved equal to the reference. The laws are proved about the reference:
  the output alphabet, idempotence, the length bound and how whitespace is
  treated.
- **Region loaders** (`districts.json.js`, `circuits.json.js`). These map the
  GeoJSON feature list to `{name, slug, geometry, properties}` records,
  keeping its order. The name is the `JD_NAME` or `Name` property. A feature
  whose name is not a string makes `toLowerCase` throw. The model returns
  that as the error path, with the index of the first such feature.
- **Page generators** (three scripts). Each one turns every region into a
  Markdown page and writes it to `src/districts/<slug>.md` or
  `src/circuits/<slug>.md`. A page is modelled as its sequence of lines, and
  its text is those lines each followed by a newline.
  - The page is constant apart from its holes: the name, and the slug or the
    lookup by name.
  - The file system is a `Files.FileSystem` object. Its `files` map is
    updated by one `WriteFile` per region, in list order.
  - The loop is proved to leave `Files.Applied`, a fold of the writes, in the
    file system. The lemmas show that each region's path holds the page of
    the last region with that slug, and that other paths are untouched.
- **Case loader** (`circuit-cases.json.js`). For each of the 13 circuits it
  runs two CourtListener searches, recent and most cited. It maps each hit
  to a case record and collects the records.
  - A try/catch around each circuit skips the rest of that circuit's work
    when something throws.
  - Each search's result is an input: a network error, a non-ok response, a
    malformed body, or a parsed JSON value.
  - JSON values are a small model of JavaScript values in module `Js`. It
    covers truthiness, `||`, property access, optional chaining, and
    `String()` in template literals.
  - An `Iteration` is how one circuit's two searches ended. `Iterations`
    gives the loop's iterations for the outcomes. The recent list, the
    most-cited list and the request log are functions of the iterations.
    The lemmas that share the lists out by circuit, or bound which circuits
    appear in them, require `FromOwnCourts`: each iteration's records come
    from its own circuit. `IterationsFromOwnCourts` proves this for the
    loop's own iterations.

## Model

| member | source | states |
|---|---|---|
| Slug.ToLowerLowercases | src/data/districts.json.js:13 | the result holds no uppercase ASCII letter, each one becomes its lowercase letter, every other character stays in place, and lowercasing twice changes nothing |
| Slug.DropSpaces | src/data/districts.json.js:14 | the result is a suffix of the input, everything dropped is whitespace, and it does not start with whitespace |
| Slug.Chain | src/data/districts.json.js:12-15 | lowercase, collapse whitespace runs to `-`, strip unsafe characters: the chain equals the reference slug |
| Slug.ChainIsSlug | src/data/districts.json.js:12-15 | the three-step chain and the one-pass reference give the same string for every name |
| Slug.DropSpacesLower | src/data/districts.json.js:13-14 | skipping leading whitespace commutes with lowercasing |
| Slug.SlugFromAfterSpace | src/data/districts.json.js:14 | inside a whitespace run, further whitespace adds nothing to the slug |
| Slug.StripUnsafeConcat | src/data/districts.json.js:15 | deleting unsafe characters distributes over concatenation |
| Slug.SlugFromAlphabet | src/data/districts.json.js:11-15 | the one-pass slug, from any state, is over `[a-z0-9-]` |
| Slug.SlugAlphabet | src/data/districts.json.js:11-15 | every character of a slug is in `[a-z0-9-]` (URL-safe) |
| Slug.SlugFromLength | src/data/districts.json.js:12-15 | the one-pass slug is never longer than its input |
| Slug.SlugLength | src/data/districts.json.js:12-15 | a slug is never longer than the name |
| Slug.SlugFromOfSlug | src/data/districts.json.js:12-15 | a string over `[a-z0-9-]` passes through the one-pass slug unchanged |
| Slug.SlugOfSlugString | src/data/districts.json.js:12-15 | a string over `[a-z0-9-]` is its own slug |
| Slug.SlugIdempotent | src/data/districts.json.js:12-15 | slugging a slug returns it unchanged |
| Slug.SlugFromConcat | src/data/districts.json.js:12-15 | the slug of a concatenation is the slug of each part, carrying whether the first part ended in whitespace |
| Slug.SlugNotInjective | src/data/districts.json.js:12-15 | two different names ("D.C." and "DC") share the slug "dc" |
| Slug.CollapseSpacesShape | src/data/districts.json.js:14 | after collapsing, no whitespace is left and the string is no longer |
| Slug.CollapseSpacesNoSpace | src/data/districts.json.js:14 | a string without whitespace is unchanged by collapsing |
| Slug.CollapseSpacesRun | src/data/districts.json.js:14 | a whole run of whitespace, of any length, becomes exactly one `-` |
| Slug.DropSpacesAll | src/data/districts.json.js:14 | skipping whitespace over a string that is all whitespace leaves nothing |
| Slug.DropSpacesConcat | src/data/districts.json.js:14 | skipping whitespace stops inside the first part unless it is all whitespace |
| Slug.CollapseSpacesConcat | src/data/districts.json.js:14 | collapsing distributes over a concatenation that does not join two whitespace characters |
| Slug.CollapseSpacesConcatRun | src/data/districts.json.js:14 | the same, when the first part starts with a whitespace run |
| Slug.CollapseSpacesBetween | src/data/districts.json.js:14 | a whitespace run between two words becomes exactly one `-` between their collapsed forms |
| Slug.StripUnsafeKeeps | src/data/districts.json.js:15 | deletion leaves a string over `[a-z0-9-]`, no longer than the input, holding each of the input's safe characters as often as the input does and no other character |
| Slug.StripUnsafeOfSlug | src/data/districts.json.js:15 | deletion keeps a string over `[a-z0-9-]` unchanged |
| Slug.SlugFromAlnum | src/data/districts.json.js:12-15 | an alphanumeric word slugs to its lowercase form |
| Slug.SlugOfWords | src/data/districts.json.js:12-15 | words joined by single spaces slug to the lowercased words joined by `-` |
| Regions.Names | src/data/districts.json.js:9-10 | success exactly when every feature has a string name; then one name per feature in order, each the feature's name property; otherwise the index of the first feature without one |
| DistrictsData.Districts | src/data/districts.json.js:9-18 | one record per feature in order, with `name == JD_NAME`, `slug == Slug(name)`, and geometry and properties unchanged; fails at the first feature without a string `JD_NAME` |
| DistrictsData.DistrictSlugsUrlSafe | src/data/districts.json.js:11-15 | each district slug is over `[a-z0-9-]` and is its own slug |
| DistrictsData.PuertoRicoSlug | src/data/districts.json.js:12-15 | "District of Puerto Rico" slugs to "district-of-puerto-rico" |
| CircuitsData.Circuits | src/data/circuits.json.js:9-18 | the same over the `Name` property |
| CircuitsData.CircuitSlugsUrlSafe | src/data/circuits.json.js:11-15 | each circuit slug is over `[a-z0-9-]` and is its own slug |
| CircuitsData.SingleCircuit | src/data/circuits.json.js:9-18 | a one-feature list gives exactly one record carrying that feature's name, slug, geometry and properties |
| CircuitsData.NinthCircuitSlug | src/data/circuits.json.js:12-15 | "Ninth Circuit" slugs to "ninth-circuit" |
| CircuitsData.NinthCircuit | src/data/circuits.json.js:9-18 | the "Ninth Circuit" feature gives the record named "Ninth Circuit" with slug "ninth-circuit" |
| Files.AppliedUntouched | scripts/generate-district-pages.js:100-104 | a path no write names keeps its presence and its contents |
| Files.AppliedLast | scripts/generate-district-pages.js:100-104 | a path holds the contents of the last write to it |
| Files.LastWriterWins | scripts/generate-district-pages.js:100-104 | after all the writes, a written path holds the contents of its last write at or after any given write to it |
| Files.AppliedSnoc | scripts/generate-district-pages.js:102 | one more write updates just its own path |
| Files.AppliedPrefix | scripts/generate-district-pages.js:100-104 | the writes up to `i` are the writes before `i` followed by write `i` |
| Files.FileSystem.WriteFile | scripts/generate-district-pages.js:102 | `writeFile` sets one path and logs the write; nothing else changes |
| Template.UnlinesConcat | scripts/generate-district-pages.js:20-97 | the text of two line blocks is the text of the first followed by the text of the second |
| Template.UnlinesFirst | scripts/generate-district-pages.js:20 | the text starts with the first line and a newline |
| Template.LineOccurs | scripts/generate-district-pages.js:20-97 | every line after the first occurs in the text, framed by newlines |
| Template.UnlinesPair | scripts/generate-district-pages.js:20-97 | the text of two lines is each line followed by a newline |
| Template.OccursInfix | scripts/generate-district-pages.js:20-97 | the middle of a concatenation occurs in it |
| Template.OccursWithin | scripts/generate-district-pages.js:20-97 | an occurrence inside the middle part is an occurrence in the whole |
| Template.AffixInjective | scripts/generate-district-pages.js:101 | a known prefix and suffix determine the middle |
| DistrictPages.Districts | scripts/generate-district-pages.js:9-18 | `{name, slug}` per feature in order, with `slug == toSlug(name)` and `toSlug` the shared slug; fails at the first feature without a string `JD_NAME` |
| DistrictPages.Page | scripts/generate-district-pages.js:20-97 | the page has 77 lines, with the title `# name` first, the slug line `const districtSlug = "<slug>";` at index 8 and the escaped `## ${district.name}` kept literally at index 15; the other lines are the template's fixed text |
| DistrictPages.PageConstantElsewhere | scripts/generate-district-pages.js:20-97 | every line but the title and the slug line is the same for all districts |
| DistrictPages.TextShape | scripts/generate-district-pages.js:20-28 | the text begins with `# name` and contains the slug line on a line of its own |
| DistrictPages.PathInjective | scripts/generate-district-pages.js:101 | two slugs give the same path exactly when they are equal |
| DistrictPages.Generate | scripts/generate-district-pages.js:100-106 | the loop logs exactly those writes, leaves the file system as their fold, and reports the number of districts |
| DistrictPages.Run | scripts/generate-district-pages.js:15-106 | a bad feature stops the script before any write; otherwise all pages are written and the count is the number of features |
| DistrictPages.GeneratedPage | scripts/generate-district-pages.js:100-104 | each district's path holds the page of the last district with that slug |
| DistrictPages.GeneratedSlugLine | scripts/generate-district-pages.js:100-104 | the page at a district's path has that district's slug line |
| DistrictPages.OtherFilesUntouched | scripts/generate-district-pages.js:100-104 | paths belonging to no district keep their contents |
| CircuitPages.Circuits | scripts/generate-circuit-pages-fixed.js:8-14 | `{name, slug}` per feature in order, with `slug == toSlug(Name)`; fails at the first feature without a string `Name` |
| CircuitPages.Page | scripts/generate-circuit-pages-fixed.js:16-90 | the page has 74 lines, with the title first, the slug line `const circuitSlug = "<slug>";` at index 10, the literal `## ${circuit.name}` at index 17 and the `Member Districts` card heading at index 56; the other lines are the template's fixed text |
| CircuitPages.PageConstantElsewhere | scripts/generate-circuit-pages-fixed.js:16-90 | every line but the title and the slug line is the same for all circuits |
| CircuitPages.TextShape | scripts/generate-circuit-pages-fixed.js:16-26 | the text begins with `# name` and contains the slug line on a line of its own |
| CircuitPages.PathInjective | scripts/generate-circuit-pages-fixed.js:93 | two slugs give the same path exactly when they are equal |
| CircuitPages.Generate | scripts/generate-circuit-pages-fixed.js:92-98 | the loop logs exactly those writes, leaves their fold, and reports the number of circuits |
| CircuitPages.Run | scripts/generate-circuit-pages-fixed.js:11-98 | a bad feature stops the script before any write; otherwise all pages are written and the count is the number of features |
| CircuitPages.GeneratedPage | scripts/generate-circuit-pages-fixed.js:92-96 | each circuit's path holds the page of the last circuit with that slug |
| CircuitPages.GeneratedSlugLine | scripts/generate-circuit-pages-fixed.js:92-96 | the page at a circuit's path has that circuit's slug line |
| CircuitPages.OtherFilesUntouched | scripts/generate-circuit-pages-fixed.js:92-96 | paths belonging to no circuit keep their contents |
| SimpleDistrictPages.Page | scripts/generate-district-pages-simple.js:10-79 | the page has 69 lines and depends on the name alone: the title first, the `JD_NAME === "<name>"` lookup at index 5 and the intro sentence at index 11; the other lines are the template's fixed text |
| SimpleDistrictPages.PageConstantElsewhere | scripts/generate-district-pages-simple.js:10-79 | every line but those three is the same for all names |
| SimpleDistrictPages.TextShape | scripts/generate-district-pages-simple.js:10-21 | the text begins with `# name` and contains the lookup line and the intro line |
| SimpleDistrictPages.Generate | scripts/generate-district-pages-simple.js:81-85 | the loop logs exactly those writes, leaves their fold, and reports the number of districts |
| SimpleDistrictPages.Run | scripts/generate-district-pages-simple.js:3-85 | a bad feature stops the script before any write; otherwise all pages are written and the count is the number of features |
| SimpleDistrictPages.GeneratedPage | scripts/generate-district-pages-simple.js:81-83 | each district's path holds the page of the last district with that slug |
| SimpleDistrictPages.OtherFilesUntouched | scripts/generate-district-pages-simple.js:81-83 | paths belonging to no district keep their contents |
| CircuitCases.CourtIdsDistinct | src/data/circuit-cases.json.js:4-18 | there are 13 circuits and their ids are distinct |
| CircuitCases.ToRecord | src/data/circuit-cases.json.js:50-59 | a nullish hit throws; otherwise the record carries the circuit's name and id, the hit's `caseName`, `dateFiled`, `docketNumber` and `status` as they are, `citeCount` or 0 when falsy, the first opinion's snippet or `""` when falsy, and the site URL followed by `String(absolute_url)` (the string itself when it is one) |
| CircuitCases.MapRecords | src/data/circuit-cases.json.js:50-60 | the mapping succeeds exactly when no hit is nullish, with one record per hit in order (for hits whose `absolute_url` holds no object with an own `toString` field, see "Left out") |
| CircuitCases.Records | src/data/circuit-cases.json.js:48-50 | a `null` body throws, a falsy `results` gives no records, a truthy `results` that is not an array throws, an array of hits gives their records, and every record is from the circuit |
| CircuitCases.StageOf | src/data/circuit-cases.json.js:44-61 | a network error or a malformed body throws, a non-ok response is skipped, an ok parsed response yields exactly its body's records or throws when mapping them throws, and fetched records are all from the circuit |
| CircuitCases.SearchCircuit | src/data/circuit-cases.json.js:33-98 | one circuit's `try` block pushes its first search's records, sends its second search only when the first did not throw, and pushes that search's records |
| CircuitCases.FetchCircuitCases | src/data/circuit-cases.json.js:28-105 | the loop's lists and the requests it sends are the per-circuit contributions concatenated in circuit order |
| CircuitCases.Run | src/data/circuit-cases.json.js:20-118 | no key exits with status 1 before any request; otherwise the output holds both lists, their lengths as totals and the clock's time |
| CircuitCases.IterationsFromOwnCourts | src/data/circuit-cases.json.js:51-52 | every iteration pushes records of its own circuit only |
| CircuitCases.FromListedConcat | src/data/circuit-cases.json.js:61 | pushing one circuit's records keeps every record among the circuits seen so far |
| CircuitCases.ListedUpTo | src/data/circuit-cases.json.js:32-102 | after `n` iterations both lists hold only records of the first `n` circuits |
| CircuitCases.RecordsFromListedCourts | src/data/circuit-cases.json.js:51-52 | each collected record names one of the 13 circuits, with the matching id |
| CircuitCases.WithIdConcat | src/data/circuit-cases.json.js:61 | filtering by circuit id distributes over pushing |
| CircuitCases.WithIdOfCourt | src/data/circuit-cases.json.js:51-52 | one circuit's records, filtered by id, are all or none of them |
| CircuitCases.WithIdPush | src/data/circuit-cases.json.js:61 | pushing one circuit's records adds them to that circuit's share and to no other |
| CircuitCases.IdsDiffer | src/data/circuit-cases.json.js:4-18 | two positions of the court list share an id exactly when they are the same position |
| CircuitCases.RecentShare | src/data/circuit-cases.json.js:32-63 | the recent records with circuit i's id are exactly what circuit i's first search pushed |
| CircuitCases.CitedShare | src/data/circuit-cases.json.js:32-101 | the most-cited records with circuit i's id are exactly what circuit i's second search pushed, and none when its first stage threw |
| CircuitCases.NothingFoundPushesNothing | src/data/circuit-cases.json.js:48-50 | a failed, skipped or result-less search pushes nothing |
| CircuitCases.NothingFoundNoRecords | src/data/circuit-cases.json.js:48-50 | a failed, skipped or result-less search leaves its circuit without records in that list |
| CircuitCases.EveryCircuitRequested | src/data/circuit-cases.json.js:32-101 | each circuit's recent search is sent, and its cited search is sent exactly when the recent stage did not throw |
| CircuitCases.OwnRequests | src/data/circuit-cases.json.js:44-78 | the same, for the requests up to that circuit's own iteration |
| CircuitCases.RequestsPartCited | src/data/circuit-cases.json.js:67-78 | an iteration sends the cited search exactly when its first stage did not throw |
| CircuitCases.LaterRequestsOmit | src/data/circuit-cases.json.js:32-101 | later iterations send no request for an earlier circuit |
| CircuitCases.NoRequestsFor | src/data/circuit-cases.json.js:32-101 | a circuit not yet reached has had no request |
| CircuitCases.OnlyGrow | src/data/circuit-cases.json.js:29-101 | the recent list, the cited list and the request log only grow |
| CircuitCases.SameFirstSameRecent | src/data/circuit-cases.json.js:33-63 | iterations whose first searches ended alike push the same recent records |
| CircuitCases.RecentIgnoresCited | src/data/circuit-cases.json.js:33-101 | the recent list does not depend on the outcomes of the cited searches |

## Left out

- Reading and parsing `districts.json` and `circuits.json`, and pretty-printing the output with `JSON.stringify`, are I/O. Features are given as values, and the outputs are the record lists. Also, `JSON.stringify` drops `undefined` fields, which the model does not show.
- `fetch`, URL and query building, the `Authorization` header, the `setTimeout` delays, `process.exit`, `process.env` and dotenv are left out. Each search is represented only by its outcome, a `Fetch` value, and by a `Request` entry naming the circuit and the kind of search.
- Console logging is left out.
- `new Date().toISOString()` is a clock read; it is the parameter `now`.
- Slug.ToLower: lowercases ASCII only. JavaScript's `toLowerCase` also maps non-ASCII letters, and some of them become ASCII letters (the Kelvin sign U+212A becomes `k`; U+0130 becomes `i` plus a combining dot). The model treats every non-ASCII character as unchanged, so for those characters the slug differs from JavaScript's.
- Whitespace is the exact ECMAScript `\s` list of code points. Dafny characters are Unicode scalar values, so surrogate halves do not arise.
- Js.Value: numbers are integers. Floating-point values, `NaN` and their `String()` forms are not modelled.
- Property lookups see only an object's own fields. Inherited `Object.prototype` names (`constructor`, `toString` and so on) and the `length` of arrays and strings are not modelled; the names the case loader reads are none of these.
- Js.ToStr: gives `"[object Object]"` for every object. `String()` of an object with an own `toString` field throws a TypeError: a parsed JSON field is never a function, so `String()` passes over it, and the inherited `valueOf` returns the object itself, which is not a primitive. So when a hit's `absolute_url` is such an object, or an array holding one, `CircuitCases.ToRecord` and `CircuitCases.MapRecords` give a record where the script throws.
- GeoJSON geometry is opaque text, passed through unchanged.
- The d3 code inside the page templates is constant text.
- A feature without any `properties` object is not modelled: each feature always has a property map. Only a missing or non-string name is modelled; it throws, like a feature without `properties` would.
- A failing `writeFile` (which would reject the promise and stop the script) is not modelled; writes always succeed.
- CircuitCases.FetchCircuitCases: requires exactly one outcome pair per circuit (13). This bookkeeping just supplies the given responses; the source itself places no precondition there.
- CircuitCases.Run: requires the same 13 outcome pairs, for the same reason.
- observablehq.config.js is a static site manifest with no logic.
