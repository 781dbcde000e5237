/** The data loader `src/data/circuits.json.js`: one record per circuit feature. */
module CircuitsData {
  import opened Wrappers
  import opened Regions
  import Slug

  /**
   * `features.map(feature => ({name, slug, geometry, properties}))` with the
   * name read from `Name` and the slug computed by the inline chain.
   */
  function Circuits(features: seq<Feature>): (r: Result<seq<Region>, LoadError>)
    ensures r.Success? <==> AllNamed(features, CircuitKey)
    ensures r.Failure? ==> FirstUnnamed(features, CircuitKey, r.error.index)
    ensures r.Success? ==> |r.value| == |features|
    ensures r.Success? ==> forall i :: 0 <= i < |features| ==>
      && NameOf(features[i], CircuitKey) == Some(r.value[i].name)
      && r.value[i].slug == Slug.Slug(r.value[i].name)
      && r.value[i].geometry == features[i].geometry
      && r.value[i].properties == features[i].properties
  {
    match Names(features, CircuitKey)
    case Failure(e) => Failure(e)
    case Success(names) =>
      Success(seq(|features|, i requires 0 <= i < |features| =>
        Region(names[i], Slug.Chain(names[i]), features[i].geometry, features[i].properties)))
  }

  /** Every record's slug is URL-safe and is its own slug. */
  lemma CircuitSlugsUrlSafe(features: seq<Feature>, i: nat)
    requires Circuits(features).Success? && i < |features|
    ensures Slug.IsSlug(Circuits(features).value[i].slug)
    ensures Slug.Slug(Circuits(features).value[i].slug) == Circuits(features).value[i].slug
  {
    var name := Circuits(features).value[i].name;
    Slug.SlugAlphabet(name);
    Slug.SlugIdempotent(name);
  }

  /** A one-feature collection yields the one record named by its `Name`. */
  lemma SingleCircuit(name: string, properties: map<string, PropValue>, geometry: Geometry)
    requires CircuitKey in properties && properties[CircuitKey] == Str(name)
    ensures Circuits([Feature(properties, geometry)])
         == Success([Region(name, Slug.Slug(name), geometry, properties)])
  {
    var f := Feature(properties, geometry);
    assert NameOf(f, CircuitKey) == Some(name);
    var r := Circuits([f]);
    assert r.Success? && |r.value| == 1;
    assert r.value[0] == Region(name, Slug.Slug(name), geometry, properties);
    assert r.value == [r.value[0]];
  }

  /** "Ninth Circuit" is two words separated by a space, so its slug is the lowercased words joined by a hyphen. */
  lemma NinthCircuitSlug(name: string)
    requires name == "Ninth Circuit"
    ensures Slug.Slug(name) == "ninth-circuit"
  {
    var words := ["Ninth", "Circuit"];
    assert Slug.Joined(words, " ") == name;
    Slug.SlugOfWords(words, false);
    assert Slug.ToLower("Ninth") == "ninth";
    assert Slug.ToLower("Circuit") == "circuit";
    assert Slug.LowerWords(words) == ["ninth", "circuit"];
  }

  /** The feature named "Ninth Circuit" becomes the record with slug "ninth-circuit". */
  lemma NinthCircuit(properties: map<string, PropValue>, geometry: Geometry)
    requires CircuitKey in properties && properties[CircuitKey] == Str("Ninth Circuit")
    ensures Circuits([Feature(properties, geometry)])
         == Success([Region("Ninth Circuit", "ninth-circuit", geometry, properties)])
  {
    SingleCircuit("Ninth Circuit", properties, geometry);
    NinthCircuitSlug("Ninth Circuit");
  }
}
