/** Optional values: the model's stand-in for a C# reference that may be null. */
module Wrappers {

  datatype Option<+T> = None | Some(value: T)
}

/**
 * The one entity of the system and its transfer object, with the mapping the
 * API's mapper profile declares between them (identically named fields, both ways).
 */
module Models {

  /** A stored animal record; `id` is the primary key of the table. */
  datatype Animal = Animal(id: int, name: string, species: string, poids: int, taille: int)

  /** The wire shape exchanged between the API and the front end. */
  datatype AnimalDto = AnimalDto(id: int, name: string, species: string, poids: int, taille: int)

  /** The mapper's Animal -> AnimalDto direction: a copy of identically named fields. */
  function ToDto(a: Animal): AnimalDto
  {
    AnimalDto(a.id, a.name, a.species, a.poids, a.taille)
  }

  /** The mapper's reverse direction, AnimalDto -> Animal. */
  function FromDto(d: AnimalDto): Animal
  {
    Animal(d.id, d.name, d.species, d.poids, d.taille)
  }

  /** A record and a transfer object agree on every field. */
  predicate SameFields(a: Animal, d: AnimalDto)
  {
    a.id == d.id && a.name == d.name && a.species == d.species && a.poids == d.poids && a.taille == d.taille
  }

  /** Mapping every record of a list, in order (the mapper applied to an enumerable). */
  function ToDtos(s: seq<Animal>): (r: seq<AnimalDto>)
    ensures |r| == |s|
    ensures forall i :: 0 <= i < |s| ==> SameFields(s[i], r[i])
  {
    if s == [] then [] else [ToDto(s[0])] + ToDtos(s[1..])
  }

  /** The two mapping directions are mutually inverse and copy every field. */
  lemma MappingRoundTrip(a: Animal, d: AnimalDto)
    ensures SameFields(a, ToDto(a)) && SameFields(FromDto(d), d)
    ensures FromDto(ToDto(a)) == a && ToDto(FromDto(d)) == d
  {
  }
}
