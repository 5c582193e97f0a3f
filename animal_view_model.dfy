/**
 * The front end's transfer object (Front/Models/AnimalDTO.cs). It is a mutable
 * object in the front end: the edit form writes into it, which is why the
 * view-model edits a copy rather than a displayed record.
 */
module FrontModels {

  import Models

  class AnimalDto {
    var id: int
    var name: string
    var species: string
    var poids: int
    var taille: int

    /** `new AnimalDTO()`: id 0, empty strings, zero measures. */
    constructor Blank()
      ensures Fields() == BlankFields()
    {
      id, name, species, poids, taille := 0, "", "", 0, 0;
    }

    /** An object initialiser giving every field. */
    constructor (id: int, name: string, species: string, poids: int, taille: int)
      ensures Fields() == Models.AnimalDto(id, name, species, poids, taille)
    {
      this.id, this.name, this.species, this.poids, this.taille := id, name, species, poids, taille;
    }

    /** The field values, as the wire shape. */
    function Fields(): Models.AnimalDto
      reads this
    {
      Models.AnimalDto(id, name, species, poids, taille)
    }
  }

  /** The field values of a freshly constructed transfer object. */
  function BlankFields(): Models.AnimalDto
  {
    Models.AnimalDto(0, "", "", 0, 0)
  }
}

/**
 * The view-model's view of the service interface (Front/Services/IAnimalService.cs).
 * The service itself is not modelled: its answers are given to the view-model's
 * operations as inputs, and each request the view-model issues is recorded.
 */
module FrontServices {

  import Models

  /** One request to the service. */
  datatype ServiceRequest =
    | GetAllAnimals
    | GetAnimalByName(name: string)
    | CreateAnimal(animal: Models.AnimalDto)
    | UpdateAnimal(id: int, animal: Models.AnimalDto)
    | DeleteAnimal(id: int)

  /** How an awaited service call ended: with a value, or by throwing an exception with a message. */
  datatype Outcome<T> = Returned(value: T) | Threw(message: string)
}

/**
 * The page's view-model (Front/ViewModels/AnimalViewModel.cs): the loaded
 * list, the filtered list, the search text, the record under edit, the two
 * mode flags and the error message.
 */
module ViewModels {

  import opened Wrappers
  import opened Text
  import opened FrontModels
  import opened FrontServices

  const SaveError := "Erreur lors de la sauvegarde"
  const DeleteError := "Erreur lors de la suppression"
  const LoadErrorPrefix := "Erreur lors du chargement: "
  const SearchErrorPrefix := "Erreur lors de la recherche: "
  const ErrorPrefix := "Erreur: "

  class AnimalViewModel {
    var animals: seq<AnimalDto>
    var filteredAnimals: seq<AnimalDto>
    var searchText: string
    var editAnimal: AnimalDto
    var isEditing: bool
    var isAdding: bool
    var errorMessage: string
    /** Every request made to the service so far, oldest first. */
    ghost var requests: seq<ServiceRequest>

    /** The two modes exclude each other in every state the operations below reach. */
    ghost predicate Valid()
      reads this
    {
      !(isAdding && isEditing)
    }

    /** A view-model over the service: empty lists, empty strings, a blank record, neither mode. */
    constructor ()
      ensures Valid()
      ensures animals == [] && filteredAnimals == [] && searchText == "" && errorMessage == ""
      ensures fresh(editAnimal) && editAnimal.Fields() == BlankFields()
      ensures !isEditing && !isAdding && requests == []
    {
      animals, filteredAnimals, searchText, errorMessage := [], [], "", "";
      editAnimal := new AnimalDto.Blank();
      isEditing, isAdding := false, false;
      requests := [];
    }

    /** The SearchText setter, written by the search box. */
    method SetSearchText(text: string)
      modifies this`searchText
      ensures searchText == text
    {
      searchText := text;
    }

    /**
     * LoadAnimalsAsync, given the answer to the GetAllAnimals request: the
     * fetched list becomes both the loaded and the filtered list and the
     * error is cleared; a thrown exception only sets the loading error.
     */
    method LoadAnimals(fetched: Outcome<seq<AnimalDto>>)
      modifies this
      ensures old(Valid()) ==> Valid()
      ensures requests == old(requests) + [GetAllAnimals]
      ensures fetched.Returned? ==> animals == fetched.value && filteredAnimals == fetched.value && errorMessage == ""
      ensures fetched.Threw? ==> animals == old(animals) && filteredAnimals == old(filteredAnimals)
      ensures fetched.Threw? ==> errorMessage == LoadErrorPrefix + fetched.message
      ensures searchText == old(searchText) && editAnimal == old(editAnimal)
      ensures isEditing == old(isEditing) && isAdding == old(isAdding)
    {
      requests := requests + [GetAllAnimals];
      match fetched
      case Returned(list) =>
        animals := list;
        filteredAnimals := animals;
        errorMessage := "";
      case Threw(message) =>
        errorMessage := LoadErrorPrefix + message;
    }

    /**
     * SearchAnimalsByNameAsync. A blank search text reloads everything (given
     * `reloaded`); otherwise the service is asked by name (answered by
     * `found`) and the filtered list becomes that one record or nothing. Any
     * completed search clears the error, even a reload that failed; a lookup
     * that throws sets the search error and leaves the lists alone.
     */
    method SearchAnimalsByName(found: Outcome<Option<AnimalDto>>, reloaded: Outcome<seq<AnimalDto>>)
      modifies this
      ensures old(Valid()) ==> Valid()
      ensures searchText == old(searchText) && editAnimal == old(editAnimal)
      ensures isEditing == old(isEditing) && isAdding == old(isAdding)
      ensures IsBlank(searchText) ==> requests == old(requests) + [GetAllAnimals]
      ensures IsBlank(searchText) && reloaded.Returned? ==> animals == reloaded.value && filteredAnimals == reloaded.value
      ensures IsBlank(searchText) && reloaded.Threw? ==> animals == old(animals) && filteredAnimals == old(filteredAnimals)
      ensures IsBlank(searchText) ==> errorMessage == ""
      ensures !IsBlank(searchText) ==> requests == old(requests) + [GetAnimalByName(searchText)] && animals == old(animals)
      ensures !IsBlank(searchText) && found.Returned? ==>
                filteredAnimals == (if found.value.Some? then [found.value.value] else []) && errorMessage == ""
      ensures !IsBlank(searchText) && found.Returned? ==> |filteredAnimals| <= 1
      ensures !IsBlank(searchText) && found.Threw? ==>
                filteredAnimals == old(filteredAnimals) && errorMessage == SearchErrorPrefix + found.message
    {
      if IsBlank(searchText) {
        LoadAnimals(reloaded);
      } else {
        requests := requests + [GetAnimalByName(searchText)];
        match found
        case Threw(message) =>
          errorMessage := SearchErrorPrefix + message;
          return;
        case Returned(result) =>
          if result.Some? {
            filteredAnimals := [result.value];
          } else {
            filteredAnimals := [];
          }
      }
      errorMessage := "";
    }

    /** StartAdd: a blank record under edit, in adding mode, from any state. */
    method StartAdd()
      modifies this
      ensures Valid()
      ensures fresh(editAnimal) && editAnimal.Fields() == BlankFields()
      ensures isAdding && !isEditing
      ensures animals == old(animals) && filteredAnimals == old(filteredAnimals)
      ensures searchText == old(searchText) && errorMessage == old(errorMessage) && requests == old(requests)
    {
      editAnimal := new AnimalDto.Blank();
      isAdding := true;
      isEditing := false;
    }

    /**
     * StartEdit: a new object with the fields of `animal` is put under edit,
     * in editing mode, so that editing it cannot alter `animal` or the lists.
     */
    method StartEdit(animal: AnimalDto)
      modifies this
      ensures Valid()
      ensures fresh(editAnimal) && editAnimal != animal && editAnimal.Fields() == animal.Fields()
      ensures isEditing && !isAdding
      ensures animals == old(animals) && filteredAnimals == old(filteredAnimals)
      ensures searchText == old(searchText) && errorMessage == old(errorMessage) && requests == old(requests)
    {
      editAnimal := new AnimalDto(animal.id, animal.name, animal.species, animal.poids, animal.taille);
      isEditing := true;
      isAdding := false;
    }

    /** CancelEdit: neither mode, a blank record under edit, no error, from any state. */
    method CancelEdit()
      modifies this
      ensures Valid()
      ensures !isEditing && !isAdding
      ensures fresh(editAnimal) && editAnimal.Fields() == BlankFields()
      ensures errorMessage == ""
      ensures animals == old(animals) && filteredAnimals == old(filteredAnimals)
      ensures searchText == old(searchText) && requests == old(requests)
    {
      isEditing := false;
      isAdding := false;
      editAnimal := new AnimalDto.Blank();
      errorMessage := "";
    }

    /**
     * SaveAnimalAsync, given the service's answer `saved` and, for the reload
     * that follows a success, `reloaded`. In adding mode the record under edit
     * is sent as a creation, otherwise as an update of its own id. A success
     * reloads, ends the edit and returns true; a refusal or an exception sets
     * the error, keeps the modes, the record under edit and the lists, and
     * returns false.
     */
    method SaveAnimal(saved: Outcome<bool>, reloaded: Outcome<seq<AnimalDto>>) returns (ok: bool)
      modifies this
      ensures old(Valid()) ==> Valid()
      ensures ok <==> saved == Returned(true)
      ensures var sent := old(editAnimal.Fields());
              var request := if old(isAdding) then CreateAnimal(sent) else UpdateAnimal(sent.id, sent);
              requests == old(requests) + [request] + (if ok then [GetAllAnimals] else [])
      ensures searchText == old(searchText)
      ensures ok ==> !isEditing && !isAdding && errorMessage == ""
      ensures ok ==> fresh(editAnimal) && editAnimal.Fields() == BlankFields()
      ensures ok && reloaded.Returned? ==> animals == reloaded.value && filteredAnimals == reloaded.value
      ensures ok && reloaded.Threw? ==> animals == old(animals) && filteredAnimals == old(filteredAnimals)
      ensures !ok ==> isEditing == old(isEditing) && isAdding == old(isAdding) && editAnimal == old(editAnimal)
      ensures !ok ==> animals == old(animals) && filteredAnimals == old(filteredAnimals)
      ensures saved == Returned(false) ==> errorMessage == SaveError
      ensures saved.Threw? ==> errorMessage == ErrorPrefix + saved.message
    {
      var sent := editAnimal.Fields();
      if isAdding {
        requests := requests + [CreateAnimal(sent)];
      } else {
        requests := requests + [UpdateAnimal(editAnimal.id, sent)];
      }
      match saved
      case Threw(message) =>
        errorMessage := ErrorPrefix + message;
        return false;
      case Returned(success) =>
        if success {
          LoadAnimals(reloaded);
          CancelEdit();
          return true;
        } else {
          errorMessage := SaveError;
          return false;
        }
    }

    /**
     * DeleteAnimalAsync, given the service's answer `deleted` and, for the
     * reload that follows a success, `reloaded`. A success reloads and returns
     * true; a refusal or an exception sets the error, keeps the lists and
     * returns false. The modes and the record under edit are never touched.
     */
    method DeleteAnimal(id: int, deleted: Outcome<bool>, reloaded: Outcome<seq<AnimalDto>>) returns (ok: bool)
      modifies this
      ensures old(Valid()) ==> Valid()
      ensures ok <==> deleted == Returned(true)
      ensures requests == old(requests) + [ServiceRequest.DeleteAnimal(id)] + (if ok then [GetAllAnimals] else [])
      ensures searchText == old(searchText) && editAnimal == old(editAnimal)
      ensures isEditing == old(isEditing) && isAdding == old(isAdding)
      ensures ok && reloaded.Returned? ==> animals == reloaded.value && filteredAnimals == reloaded.value && errorMessage == ""
      ensures ok && reloaded.Threw? ==> animals == old(animals) && filteredAnimals == old(filteredAnimals)
      ensures ok && reloaded.Threw? ==> errorMessage == LoadErrorPrefix + reloaded.message
      ensures !ok ==> animals == old(animals) && filteredAnimals == old(filteredAnimals)
      ensures deleted == Returned(false) ==> errorMessage == DeleteError
      ensures deleted.Threw? ==> errorMessage == ErrorPrefix + deleted.message
    {
      requests := requests + [ServiceRequest.DeleteAnimal(id)];
      match deleted
      case Threw(message) =>
        errorMessage := ErrorPrefix + message;
        return false;
      case Returned(success) =>
        if success {
          LoadAnimals(reloaded);
          return true;
        } else {
          errorMessage := DeleteError;
          return false;
        }
    }
  }
}
