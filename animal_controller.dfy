/**
 * The HTTP handlers of Api/Controllers/AnimalController.cs: each guards its
 * request, delegates to the repository and maps the outcome to a status code.
 */
module Controllers {

  import opened Wrappers
  import opened Models
  import opened Managers

  /** The action results the handlers return, with their HTTP status codes. */
  datatype Reply<T> =
    | Ok(value: T)
    | Created(routeId: int, value: T)
    | NoContent
    | BadRequest
    | NotFound
  {
    function StatusCode(): int
    {
      match this
      case Ok(_) => 200
      case Created(_, _) => 201
      case NoContent => 204
      case BadRequest => 400
      case NotFound => 404
    }
  }

  class AnimalController {
    const repository: AnimalManager

    constructor (repository: AnimalManager)
      ensures this.repository == repository
    {
      this.repository := repository;
    }

    /** GET api/Animal: always 200, one transfer object per stored record, in store order. */
    method GetAnimaux() returns (r: Reply<seq<AnimalDto>>)
      requires repository.Valid()
      modifies repository`log
      ensures r.Ok? && |r.value| == |repository.animaux|
      ensures forall i :: 0 <= i < |r.value| ==> SameFields(repository.animaux[i], r.value[i])
      ensures repository.log == old(repository.log) + [ListAll]
    {
      var animaux := repository.GetAll();
      r := Ok(ToDtos(animaux));
    }

    /** GET api/Animal/GetById/{id}: 404 exactly when no record carries `id`, else 200 with that record. */
    method GetAnimalById(id: int) returns (r: Reply<Animal>)
      requires repository.Valid()
      modifies repository`log
      ensures r.NotFound? <==> !HasId(repository.animaux, id)
      ensures !r.NotFound? ==> r.Ok? && r.value in repository.animaux && r.value.id == id
      ensures repository.log == old(repository.log) + [FindById(id)]
    {
      var animal := repository.GetById(id);
      if animal.None? {
        return NotFound;
      }
      r := Ok(animal.value);
    }

    /**
     * GET api/Animal/GetByName/{name}: 404 exactly when no stored name matches,
     * else 200 with the transfer object of the first matching record.
     */
    method GetAnimalByName(name: string) returns (r: Reply<AnimalDto>)
      requires repository.Valid()
      modifies repository`log
      ensures r.NotFound? <==> FirstMatch(repository.animaux, name).None?
      ensures !r.NotFound? ==> r.Ok? && SameFields(repository.animaux[FirstMatch(repository.animaux, name).value], r.value)
      ensures repository.log == old(repository.log) + [FindByKey(name)]
    {
      var animal := repository.GetByKey(name);
      if animal.None? {
        return NotFound;
      }
      r := Ok(ToDto(animal.value));
    }

    /**
     * PUT api/Animal/{id}. A body whose id differs from the path id, or an
     * invalid model, is rejected with 400 before the store is touched; an
     * unknown id gives 404 after one lookup, with the table unchanged;
     * otherwise the record takes the body's values and the reply is 204.
     */
    method PutSoftware(id: int, animal: Animal, modelValid: bool) returns (r: Reply<()>)
      requires repository.Valid()
      modifies repository
      ensures repository.Valid()
      ensures r.NoContent? || r.BadRequest? || r.NotFound?
      ensures (id != animal.id || !modelValid) <==> r.BadRequest?
      ensures r.BadRequest? ==> unchanged(repository)
      ensures r.NotFound? <==> id == animal.id && modelValid && !HasId(old(repository.animaux), id)
      ensures r.NotFound? ==> repository.animaux == old(repository.animaux)
      ensures r.NotFound? ==> repository.log == old(repository.log) + [FindById(id)]
      ensures r.NoContent? ==> repository.animaux == Overwrite(old(repository.animaux), animal)
      ensures r.NoContent? ==> |repository.animaux| == |old(repository.animaux)|
      ensures r.NoContent? ==> IndexOfId(repository.animaux, id) == IndexOfId(old(repository.animaux), id)
      ensures r.NoContent? ==> repository.animaux[IndexOfId(repository.animaux, id).value] == animal
      ensures r.NoContent? ==> repository.log == old(repository.log) + [FindById(id), SetValues(animal)]
    {
      if id != animal.id {
        return BadRequest;
      }
      if !modelValid {
        return BadRequest;
      }
      var animalToUpdate := repository.GetById(id);
      if animalToUpdate.None? {
        return NotFound;
      }
      OverwriteFound(repository.animaux, animal);
      ghost var before := repository.animaux;
      var ok := repository.Update(animalToUpdate.value, animal);
      assert ok && repository.animaux == Overwrite(before, animal);
      r := NoContent;
    }

    /**
     * POST api/Animal. An invalid model gives 400 and no store access. A valid
     * one is mapped to a record, stored under a fresh id, and answered with 201,
     * the route id and the stored record.
     */
    method PostSoftware(animalDto: AnimalDto, modelValid: bool) returns (r: Reply<Animal>)
      requires repository.Valid()
      requires modelValid ==> animalDto.id == 0
      modifies repository
      ensures repository.Valid()
      ensures r.Created? || r.BadRequest?
      ensures r.BadRequest? <==> !modelValid
      ensures r.BadRequest? ==> unchanged(repository)
      ensures r.Created? ==> r.routeId == r.value.id && r.value.id > 0 && !HasId(old(repository.animaux), r.value.id)
      ensures r.Created? ==> r.value == FromDto(animalDto).(id := r.value.id)
      ensures r.Created? ==> repository.animaux == old(repository.animaux) + [r.value]
      ensures r.Created? ==> |repository.animaux| == |old(repository.animaux)| + 1
      ensures r.Created? ==> repository.log == old(repository.log) + [Insert(r.value)]
    {
      if !modelValid {
        return BadRequest;
      }
      var animal := FromDto(animalDto);
      var newId := repository.Add(animal);
      animal := animal.(id := newId);
      r := Created(animal.id, animal);
    }

    /**
     * DELETE api/Animal/{id}: 404 with the table unchanged when no record
     * carries `id`, after one lookup; otherwise that record is removed and the
     * reply is 204.
     */
    method DeleteSoftware(id: int) returns (r: Reply<()>)
      requires repository.Valid()
      modifies repository
      ensures repository.Valid()
      ensures r.NoContent? || r.NotFound?
      ensures r.NotFound? <==> !HasId(old(repository.animaux), id)
      ensures r.NotFound? ==> repository.animaux == old(repository.animaux)
      ensures r.NotFound? ==> repository.log == old(repository.log) + [FindById(id)]
      ensures r.NoContent? ==> repository.animaux == RemoveId(old(repository.animaux), id)
      ensures r.NoContent? ==> var k := IndexOfId(old(repository.animaux), id).value;
                               repository.animaux == old(repository.animaux)[..k] + old(repository.animaux)[k + 1..]
      ensures r.NoContent? ==> |repository.animaux| == |old(repository.animaux)| - 1 && !HasId(repository.animaux, id)
      ensures r.NoContent? ==> repository.log == old(repository.log) + [FindById(id), Remove(id)]
    {
      var animal := repository.GetById(id);
      if animal.None? {
        return NotFound;
      }
      RemovedGone(repository.animaux, id);
      var ok := repository.Delete(animal.value);
      assert ok;
      r := NoContent;
    }
  }
}
