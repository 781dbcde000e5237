/**
 * The GeoJSON input shared by the data loaders and the page generators: a
 * feature's properties, its geometry (an opaque payload), and the name that
 * the scripts read from a region-type-specific property key.
 */
module Regions {
  import opened Wrappers

  /** A property value: a string, or any other JSON value, kept as its JSON text. */
  datatype PropValue = Str(s: string) | NonString(json: string)

  /** A GeoJSON geometry, kept as its JSON text: nothing in the core looks inside it. */
  datatype Geometry = Geometry(json: string)

  datatype Feature = Feature(properties: map<string, PropValue>, geometry: Geometry)

  /** The record a page generator keeps per feature: `{name, slug}`. */
  datatype Entry = Entry(name: string, slug: string)

  /** `entries[j]` is the last entry whose slug is `slug`. */
  predicate LastWithSlug(entries: seq<Entry>, slug: string, j: int) {
    0 <= j < |entries| && entries[j].slug == slug
    && forall k :: j < k < |entries| ==> entries[k].slug != slug
  }

  /** The record a data loader emits per feature: `{name, slug, geometry, properties}`. */
  datatype Region = Region(name: string, slug: string, geometry: Geometry, properties: map<string, PropValue>)

  /**
   * The TypeError raised when `toLowerCase` is called on a name that is missing
   * or not a string; `index` is the position of the feature in the list.
   */
  datatype LoadError = NameNotString(index: nat)

  /** The key districts are named by. */
  const DistrictKey: string := "JD_NAME"

  /** The key circuits are named by. */
  const CircuitKey: string := "Name"

  /** `feature.properties[key]` when it is a string. */
  function NameOf(f: Feature, key: string): Option<string> {
    if key in f.properties && f.properties[key].Str? then Some(f.properties[key].s) else None
  }

  predicate HasName(f: Feature, key: string) {
    NameOf(f, key).Some?
  }

  /** Every feature's name is a string, so a map over the list cannot throw. */
  predicate AllNamed(features: seq<Feature>, key: string) {
    forall i :: 0 <= i < |features| ==> HasName(features[i], key)
  }

  /** `index` is the first feature whose name is not a string. */
  predicate FirstUnnamed(features: seq<Feature>, key: string, index: nat) {
    && index < |features|
    && !HasName(features[index], key)
    && forall j :: 0 <= j < index ==> HasName(features[j], key)
  }

  /**
   * The names a `features.map` over the list reads, in order; the map stops with
   * a TypeError at the first feature whose name is not a string.
   */
  function Names(features: seq<Feature>, key: string): (r: Result<seq<string>, LoadError>)
    ensures r.Success? <==> AllNamed(features, key)
    ensures r.Success? ==> |r.value| == |features|
    ensures r.Success? ==> forall i :: 0 <= i < |features| ==> NameOf(features[i], key) == Some(r.value[i])
    ensures r.Failure? ==> FirstUnnamed(features, key, r.error.index)
  {
    if features == [] then Success([])
    else
      match NameOf(features[0], key)
      case None => Failure(NameNotString(0))
      case Some(name) =>
        match Names(features[1..], key)
        case Failure(e) => Failure(NameNotString(e.index + 1))
        case Success(rest) => Success([name] + rest)
  }
}
