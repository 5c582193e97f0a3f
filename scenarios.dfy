/**
 * The API's test scenarios (ApiTests/Controllers/AnimalControllerTests.cs)
 * restated over the model: a table seeded with three animals, and what each
 * repository lookup and controller request gives on it.
 */
module Scenarios {

  import opened Wrappers
  import opened Models
  import opened Managers
  import opened Controllers
  import opened Text

  /** The three seeded records, in insertion order. */
  function Seed(): seq<Animal>
  {
    [ Animal(1, "Lion", "Panthera leo", 190, 120),
      Animal(2, "Éléphant", "Loxodonta africana", 6000, 320),
      Animal(3, "Girafe", "Giraffa camelopardalis", 1200, 550) ]
  }

  /** Lookups by id: 1 is the lion, 999 is absent. */
  lemma SeedById()
    ensures UniqueIds(Seed())
    ensures IndexOfId(Seed(), 1) == Some(0) && Seed()[0].name == "Lion"
    ensures IndexOfId(Seed(), 999).None?
  {
    assert Seed()[0].id == 1;
  }

  /** The exact name "Lion" finds the lion. */
  lemma SeedByExactName(key: string)
    requires key == "Lion"
    ensures FirstMatch(Seed(), key) == Some(0)
  {
    ExactNameFound(Seed(), 0);
  }

  /** The lower-case prefix "éléph" skips the lion and finds "Éléphant". */
  lemma SeedByPrefix(key: string)
    requires key == "éléph"
    ensures FirstMatch(Seed(), key) == Some(1)
  {
    var upperKey, name := Upper(key), Upper(Seed()[1].name);
    assert |Upper(Seed()[0].name)| < |upperKey|;
    assert upperKey <= name by {
      assert forall i :: 0 <= i < |upperKey| ==> upperKey[i] == name[i];
      assert upperKey == name[..|upperKey|];
    }
    PrefixFound(Seed(), key, 1);
  }

  /** "Licorne" matches no seeded name. */
  lemma SeedByAbsentName(key: string)
    requires key == "Licorne"
    ensures FirstMatch(Seed(), key).None?
  {
    var upperKey := Upper(key);
    assert |upperKey| == 7 && upperKey[0] == 'L' && upperKey[1] == 'I';
    assert |Upper(Seed()[0].name)| < |upperKey| && |Upper(Seed()[2].name)| < |upperKey|;
    var name := Upper(Seed()[1].name);
    assert |name| == 8 && name[0] == 'É' && name[2] == 'É';
    Mismatch(name, upperKey, 0, 0);
    Mismatch(name, upperKey, 1, 1);
    assert forall i :: OccursAt(name, upperKey, i) ==> i == 0 || i == 1;
    assert !NameMatches(Seed()[1], key);
  }

  /** The key does not occur at position `i` when its `j`-th character differs from the string's. */
  lemma Mismatch(s: string, k: string, i: nat, j: nat)
    requires j < |k| && i + j < |s| && s[i + j] != k[j]
    ensures !OccursAt(s, k, i)
  {
  }

  /** GET all on the seeded table: 200 and three transfer objects. */
  method GetAllScenario()
  {
    SeedById();
    var store := new AnimalManager(Seed());
    var api := new AnimalController(store);
    var all := api.GetAnimaux();
    assert all.StatusCode() == 200 && |all.value| == 3;
  }

  /** GET by id: 1 gives 200 and the lion, 999 gives 404. */
  method GetByIdScenarios()
  {
    SeedById();
    var store := new AnimalManager(Seed());
    var api := new AnimalController(store);
    var one := api.GetAnimalById(1);
    assert one.StatusCode() == 200 && one.value.id == 1 && one.value.name == "Lion";
    var none := api.GetAnimalById(999);
    assert none.StatusCode() == 404;
  }

  /** GET by name "Lion": 200 with the lion. */
  method GetByExactNameScenario(key: string)
    requires key == "Lion"
  {
    var store := new AnimalManager(Seed());
    var api := new AnimalController(store);
    var lion := api.GetAnimalByName(key);
    assert api.repository == store && store.animaux == Seed();
    assert FirstMatch(store.animaux, key) == Some(0) by { SeedByExactName(key); }
    assert lion.StatusCode() == 200 && lion.value.name == "Lion";
  }

  /** GET by name "éléph": 200 with "Éléphant". */
  method GetByPrefixScenario(key: string)
    requires key == "éléph"
  {
    var store := new AnimalManager(Seed());
    var api := new AnimalController(store);
    var elephant := api.GetAnimalByName(key);
    assert api.repository == store && store.animaux == Seed();
    assert FirstMatch(store.animaux, key) == Some(1) by { SeedByPrefix(key); }
    assert elephant.StatusCode() == 200 && elephant.value.name == "Éléphant";
  }

  /** GET by name "Licorne": 404. */
  method GetByAbsentNameScenario(key: string)
    requires key == "Licorne"
  {
    var store := new AnimalManager(Seed());
    var api := new AnimalController(store);
    var unicorn := api.GetAnimalByName(key);
    assert api.repository == store && store.animaux == Seed();
    assert FirstMatch(store.animaux, key).None? by { SeedByAbsentName(key); }
    assert unicorn.StatusCode() == 404;
  }

  /** POST of a new tiger: 201, the tiger comes back, the table holds four records. */
  method PostScenario()
  {
    SeedById();
    var store := new AnimalManager(Seed());
    var api := new AnimalController(store);
    var created := api.PostSoftware(AnimalDto(0, "Tigre", "Panthera tigris", 220, 110), true);
    assert created.StatusCode() == 201 && created.value.name == "Tigre" && |store.animaux| == 4;
  }

  /** PUT of new values for the lion: 204, and the stored lion has them. */
  method PutValidScenario()
  {
    SeedById();
    var store := new AnimalManager(Seed());
    var api := new AnimalController(store);
    var updated := api.PutSoftware(1, Animal(1, "Lion Mis à Jour", "Panthera leo", 200, 125), true);
    assert updated.StatusCode() == 204;
    assert store.animaux[0].name == "Lion Mis à Jour" && store.animaux[0].poids == 200;
  }

  /** PUT whose body id differs from the path id: 400, table untouched. */
  method PutMismatchScenario()
  {
    SeedById();
    var store := new AnimalManager(Seed());
    var api := new AnimalController(store);
    var mismatch := api.PutSoftware(1, Animal(2, "Test", "Test", 100, 100), true);
    assert mismatch.StatusCode() == 400 && store.animaux == Seed();
  }

  /** PUT of an unknown id: 404, no record created. */
  method PutUnknownScenario()
  {
    SeedById();
    var store := new AnimalManager(Seed());
    var api := new AnimalController(store);
    var unknown := api.PutSoftware(999, Animal(999, "Test", "Test", 100, 100), true);
    assert unknown.StatusCode() == 404 && store.animaux == Seed();
  }

  /** DELETE of the lion: 204, one record fewer, the id no longer found. */
  method DeleteKnownScenario()
  {
    SeedById();
    var store := new AnimalManager(Seed());
    var api := new AnimalController(store);
    var deleted := api.DeleteSoftware(1);
    assert deleted.StatusCode() == 204 && |store.animaux| == 2 && !HasId(store.animaux, 1);
  }

  /** DELETE of an unknown id: 404, the table keeps its three records. */
  method DeleteUnknownScenario()
  {
    SeedById();
    var store := new AnimalManager(Seed());
    var api := new AnimalController(store);
    var missing := api.DeleteSoftware(999);
    assert missing.StatusCode() == 404 && |store.animaux| == 3;
  }

  /** GET all on an empty table: 200 and an empty list. */
  method EmptyTableScenario()
  {
    var store := new AnimalManager([]);
    var api := new AnimalController(store);
    var empty := api.GetAnimaux();
    assert empty.StatusCode() == 200 && empty.value == [];
  }
}
