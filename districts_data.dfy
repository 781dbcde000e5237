/** The data loader `src/data/districts.json.js`: one record per district feature. */
module DistrictsData {
  import opened Wrappers
  import opened Regions
  import Slug

  /**
   * `features.map(feature => ({name, slug, geometry, properties}))` with the
   * name read from `JD_NAME` and the slug computed by the inline chain.
   */
  function Districts(features: seq<Feature>): (r: Result<seq<Region>, LoadError>)
    ensures r.Success? <==> AllNamed(features, DistrictKey)
    ensures r.Failure? ==> FirstUnnamed(features, DistrictKey, r.error.index)
    ensures r.Success? ==> |r.value| == |features|
    ensures r.Success? ==> forall i :: 0 <= i < |features| ==>
      && NameOf(features[i], DistrictKey) == Some(r.value[i].name)
      && r.value[i].slug == Slug.Slug(r.value[i].name)
      && r.value[i].geometry == features[i].geometry
      && r.value[i].properties == features[i].properties
  {
    match Names(features, DistrictKey)
    case Failure(e) => Failure(e)
    case Success(names) =>
      Success(seq(|features|, i requires 0 <= i < |features| =>
        Region(names[i], Slug.Chain(names[i]), features[i].geometry, features[i].properties)))
  }

  /** Every record's slug is URL-safe and is its own slug. */
  lemma DistrictSlugsUrlSafe(features: seq<Feature>, i: nat)
    requires Districts(features).Success? && i < |features|
    ensures Slug.IsSlug(Districts(features).value[i].slug)
    ensures Slug.Slug(Districts(features).value[i].slug) == Districts(features).value[i].slug
  {
    var name := Districts(features).value[i].name;
    Slug.SlugAlphabet(name);
    Slug.SlugIdempotent(name);
  }

  /** "District of Puerto Rico" is four words separated by spaces, so its slug is the lowercased words joined by hyphens. */
  lemma PuertoRicoSlug(name: string, slug: string)
    requires name == "District of Puerto Rico" && slug == "district-of-puerto-rico"
    ensures Slug.Slug(name) == slug
  {
    var words := ["District", "of", "Puerto", "Rico"];
    var lowered := ["district", "of", "puerto", "rico"];
    PuertoRicoAlnum(words);
    PuertoRicoName(words, name);
    PuertoRicoLowered(words, lowered);
    PuertoRicoHyphened(lowered, slug);
    Slug.SlugOfWords(words, false);
  }

  /** The name's four words are runs of letters. */
  lemma PuertoRicoAlnum(words: seq<string>)
    requires words == ["District", "of", "Puerto", "Rico"]
    ensures forall k :: 0 <= k < |words| ==> Slug.IsWord(words[k])
  {
    assert Slug.IsWord("District");
    assert Slug.IsWord("of");
    assert Slug.IsWord("Puerto");
    assert Slug.IsWord("Rico");
  }

  /** Spaces join the name's four words into the name. */
  lemma PuertoRicoName(words: seq<string>, name: string)
    requires words == ["District", "of", "Puerto", "Rico"] && name == "District of Puerto Rico"
    ensures Slug.Joined(words, " ") == name
  {
    Slug.JoinedFour("District", "of", "Puerto", "Rico", " ");
    assert "District" + (" " + ("of" + (" " + ("Puerto" + (" " + "Rico"))))) == name;
  }

  /** Lowercasing the name's words. */
  lemma PuertoRicoLowered(words: seq<string>, lowered: seq<string>)
    requires words == ["District", "of", "Puerto", "Rico"] && lowered == ["district", "of", "puerto", "rico"]
    ensures Slug.LowerWords(words) == lowered
  {
    assert Slug.ToLower("District") == "district";
    assert Slug.ToLower("of") == "of";
    assert Slug.ToLower("Puerto") == "puerto";
    assert Slug.ToLower("Rico") == "rico";
  }

  /** Hyphens join the lowercased words into the slug. */
  lemma PuertoRicoHyphened(lowered: seq<string>, slug: string)
    requires lowered == ["district", "of", "puerto", "rico"] && slug == "district-of-puerto-rico"
    ensures Slug.Joined(lowered, "-") == slug
  {
    Slug.JoinedFour("district", "of", "puerto", "rico", "-");
    assert "district" + ("-" + ("of" + ("-" + ("puerto" + ("-" + "rico"))))) == slug;
  }
}
