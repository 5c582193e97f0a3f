# Animal CRUD: repository, API controller and front-end view-model

This project models the core of a small CRUD system for a single entity,
`Animal`. An animal has an id, a name, a species, a weight (`Poids`) and a
height (`Taille`). The core has three parts:

- **The repository** (`AnimalManager`). The database table is a sequence of
  records in store order, with unique ids (the primary key). The class
  `Managers.AnimalManager` updates that table in place. It lists all records,
  finds a record by id, and finds the first record whose upper-cased name
  contains the upper-cased key. It also adds a record under a fresh id,
  removes a record, and overwrites every field of a matched record. A ghost
  log records each store call, so callers can state which calls a request
  made and in what order.
- **The HTTP controller** (`AnimalController`). Each handler guards its
  request, calls the repository and maps the outcome to a status code
  (200/201/204/400/404). The contracts cover the ordering rules:
  - a path/body id mismatch or an invalid model is rejected before any store
    access, so the repository is `unchanged`;
  - an unknown id is answered 404 after one lookup, with the table unchanged;
  - a successful update or delete does exactly what the repository promises.
- **The front-end view-model** (`AnimalViewModel`). This is a state machine
  over the following fields:
  - the loaded list and the filtered list;
  - the search text;
  - the record under edit;
  - two mode flags;
  - an error message.

  The service it calls is an oracle. Each answer, or the exception message
  it throws, is given to the operation as an input, and a ghost log records
  each request sent. The modelled operations never make both modes true, and
  `StartAdd`, `StartEdit` and `CancelEdit` restore that from any state. `StartEdit` puts a
  **fresh** copy under edit. Save dispatches to create or update according to
  the mode.

Modules: `Wrappers` (Option), `Models` (the record, its transfer object and
the field-by-field mapping between them), `Text` (upper-casing, containment,
white-space test), `Managers`, `Controllers`, `FrontModels` (the front end's
mutable transfer object), `FrontServices` (service requests and outcomes),
`ViewModels`. `Scenarios` restates the API test suite's situations over a
seeded table.

The model follows the code's behaviour in two places that a reader might not
expect:

- A blank search reloads the list and then clears `ErrorMessage`. The
  reload's own error message is therefore lost when the reload fails.
- The same thing happens after a successful save: `CancelEdit` clears any
  error set by the reload.

## Model

| member | source | states |
|---|---|---|
| Models.ToDtos | Api/Mapper/MapperProfile.cs:12-13 | mapping a list gives one transfer object per record, in order, each field-equal to its record |
| Models.MappingRoundTrip | Api/Mapper/MapperProfile.cs:12-13 | the two mapping directions copy every field and are mutually inverse |
| Text.Contains | Api/Managers/AnimalManager.cs:44 | true exactly when the key occurs at some position of the string |
| Text.ContainsPrefix | Api/Managers/AnimalManager.cs:44 | a string contains each of its prefixes (itself included) |
| Managers.IndexOfId | Api/Managers/AnimalManager.cs:39 | none exactly when no record carries the id; otherwise the first position holding a record with that id |
| Managers.IndexOfIdUnique | Api/Managers/AnimalManager.cs:39 | with unique ids, any position holding the id is the one the lookup finds |
| Managers.FirstMatch | Api/Managers/AnimalManager.cs:44 | none exactly when no upper-cased name contains the upper-cased key; otherwise the first matching position in store order |
| Managers.PrefixFound | Api/Managers/AnimalManager.cs:44 | a key whose upper-cased form starts some stored upper-cased name is always found, at that record or earlier |
| Managers.ExactNameFound | Api/Managers/AnimalManager.cs:44 | searching for a stored record's exact name always finds a record, at or before it |
| Managers.MaxId | Api/Managers/AnimalManager.cs:22 | a non-negative bound on every stored id, so one more than it is a fresh positive id |
| Managers.RemoveId | Api/Managers/AnimalManager.cs:28 | the records kept are exactly those not carrying the id, and the table does not grow |
| Managers.RemoveIdAt | Api/Managers/AnimalManager.cs:28 | with unique ids, removing a record's id removes exactly that position; the others keep their order |
| Managers.NoIdNoRemoval | Api/Managers/AnimalManager.cs:28 | removing an id no record carries leaves the table as it is |
| Managers.DropKeepsUnique | Api/Models/EntityFramework/AppDbContext.cs:27 | dropping one record keeps the primary key unique |
| Managers.Overwrite | Api/Managers/AnimalManager.cs:50 | same length and ids position by position; records carrying the incoming id take all its values, all others unchanged |
| Managers.OverwriteFound | Api/Managers/AnimalManager.cs:47-52 | after an overwrite of a stored id, ids stay unique, the size and the record's position are kept, and the record equals the new values |
| Managers.RemovedGone | Api/Managers/AnimalManager.cs:26-30 | after removing a stored id the ids stay unique, the table is one shorter and a lookup of the id finds nothing |
| Managers.AnimalManager.constructor | Api/Managers/AnimalManager.cs:14-18 | a repository over a table already holding unique-id records, with an empty call log |
| Managers.AnimalManager.GetAll | Api/Managers/AnimalManager.cs:32-35 | exactly the stored records in store order (an empty table gives an empty list); the table is untouched |
| Managers.AnimalManager.GetById | Api/Managers/AnimalManager.cs:37-40 | none exactly when no record carries the id; otherwise a stored record with that id |
| Managers.AnimalManager.GetByKey | Api/Managers/AnimalManager.cs:42-45 | none exactly when no upper-cased name contains the upper-cased key; otherwise the first such record in store order |
| Managers.AnimalManager.Add | Api/Managers/AnimalManager.cs:20-24 | ids stay unique; the table grows by exactly the entity under a positive id not previously stored; every other record is unchanged |
| Managers.AnimalManager.Delete | Api/Managers/AnimalManager.cs:26-30 | ids stay unique; the record carrying the entity's id is removed from its position, the others keep their order; an absent id changes nothing and reports failure |
| Managers.AnimalManager.Update | Api/Managers/AnimalManager.cs:47-52 | ids stay unique; when the target is a stored record and the values keep its id, that record takes every field of the values; otherwise nothing changes and failure is reported |
| Controllers.AnimalController.constructor | Api/Controllers/AnimalController.cs:23-33 | the controller works over the given repository |
| Controllers.AnimalController.GetAnimaux | Api/Controllers/AnimalController.cs:45-51 | always 200, with one transfer object per stored record in order, each field-equal to its record; one list-all call |
| Controllers.AnimalController.GetAnimalById | Api/Controllers/AnimalController.cs:68-78 | 404 exactly when no record carries the id; otherwise 200 with a stored record carrying it |
| Controllers.AnimalController.GetAnimalByName | Api/Controllers/AnimalController.cs:95-106 | 404 exactly when the name search finds nothing; otherwise 200 with the transfer object of the first matching record |
| Controllers.AnimalController.PutSoftware | Api/Controllers/AnimalController.cs:124-144 | 400 exactly when the ids differ or the model is invalid, with the repository unchanged; 404 exactly for a valid request for an unknown id, after one lookup and with the table unchanged; else 204, with the record at its unchanged position equal to the body, the size kept and the ids unique |
| Controllers.AnimalController.PostSoftware | Api/Controllers/AnimalController.cs:159-170 | 400 exactly when the model is invalid, with the repository unchanged; else 201 with route id equal to a fresh positive id, the mapped record under that id returned and appended, and the table grown by one |
| Controllers.AnimalController.DeleteSoftware | Api/Controllers/AnimalController.cs:185-196 | 404 exactly when the id is absent, after one lookup and with the table unchanged; else 204, with exactly that record removed, the table one shorter and the id no longer stored |
| FrontModels.AnimalDto.Blank | Front/Models/AnimalDTO.cs:5-9 | a new transfer object has id 0, empty name and species, and zero measures |
| FrontModels.AnimalDto.constructor | Front/ViewModels/AnimalViewModel.cs:147-154 | an object initialiser giving every field yields exactly those fields |
| ViewModels.AnimalViewModel.constructor | Front/ViewModels/AnimalViewModel.cs:10-22 | empty lists and strings, a blank record under edit, neither mode, no request sent |
| ViewModels.AnimalViewModel.SetSearchText | Front/ViewModels/AnimalViewModel.cs:36-44 | the search text takes the new value and nothing else changes |
| ViewModels.AnimalViewModel.LoadAnimals | Front/ViewModels/AnimalViewModel.cs:96-108 | one load-all request; on success both lists become the fetched list and the error is cleared; on an exception the lists are kept and the error is the loading message plus the exception text; modes, search text and record under edit are kept |
| ViewModels.AnimalViewModel.SearchAnimalsByName | Front/ViewModels/AnimalViewModel.cs:110-136 | a blank search text behaves as load-all and then clears the error; otherwise one by-name request, after which the filtered list is the found record or empty (at most one entry) and the error is cleared, or on an exception the lists are kept and the search error is set; the loaded list, modes and record under edit are kept |
| ViewModels.AnimalViewModel.StartAdd | Front/ViewModels/AnimalViewModel.cs:138-143 | a fresh blank record under edit, adding and not editing; lists, search text, error and requests kept |
| ViewModels.AnimalViewModel.StartEdit | Front/ViewModels/AnimalViewModel.cs:145-157 | a fresh object, distinct from the given one and field-equal to it, is under edit; editing and not adding; lists, search text, error and requests kept |
| ViewModels.AnimalViewModel.CancelEdit | Front/ViewModels/AnimalViewModel.cs:159-165 | neither mode, a fresh blank record under edit, error cleared; lists, search text and requests kept |
| ViewModels.AnimalViewModel.SaveAnimal | Front/ViewModels/AnimalViewModel.cs:167-198 | the record under edit is sent as a creation in adding mode, otherwise as an update of its own id; a success reloads, ends the edit, clears the error and returns true; a refusal sets the save error, an exception the generic error, and both keep modes, record under edit and lists and return false |
| ViewModels.AnimalViewModel.DeleteAnimal | Front/ViewModels/AnimalViewModel.cs:200-221 | one delete request; a success reloads and returns true; a refusal sets the delete error, an exception the generic error, and both keep the lists and return false; modes and record under edit never change |
| Scenarios.SeedById | ApiTests/Controllers/AnimalControllerTests.cs:74-104 | in the seeded table, ids are unique, id 1 is found at the lion, and id 999 is absent |
| Scenarios.SeedByExactName | ApiTests/Controllers/AnimalControllerTests.cs:107-122 | "Lion" finds the first seeded record |
| Scenarios.SeedByPrefix | ApiTests/Controllers/AnimalControllerTests.cs:125-140 | the lower-case prefix "éléph" finds "Éléphant", the second seeded record |
| Scenarios.SeedByAbsentName | ApiTests/Controllers/AnimalControllerTests.cs:143-154 | "Licorne" matches no seeded name |

Every repository and controller method that mutates the table keeps the
primary-key invariant `Valid()` (unique ids). Every modelled view-model
operation keeps the invariant that the two modes are never both true, and
`StartAdd`, `StartEdit` and `CancelEdit` establish it from any state. The contract-free
methods in `Scenarios` assert, over the seeded table, the status codes and
sizes that the API test suite expects for each request:

- list-all, and list-all on an empty table;
- by id;
- by exact name, by prefix and by absent name;
- create;
- valid update, mismatched update and unknown update;
- known delete and unknown delete.

## Left out

- Front/Services/AnimalService.cs is not part of this model. It does the HTTP
  calls and the JSON decoding behind the service interface. The view-model
  receives each service answer, or the message of the exception thrown, as
  an input. Its `Id = id` copy in the update call has no effect here, because
  the view-model always sends the record's own id.
- The following are framework configuration with no logic to model:
  - dependency injection, CORS, Swagger and JSON options (Api/Program.cs);
  - the connection string;
  - the migrations.
- The controller constructor's unused `new AppDbContext()` and its mapper
  construction are left out, because neither has an observable effect.
- Entity Framework change tracking, `SaveChangesAsync` and the database
  round trip are left out. Each repository call takes effect on the in-memory
  table at once.
- The `HasDefaultValue(1.0)` on `Name` is left out. It is a schema default
  that never applies to records written through this code.
- Managers.AnimalManager.Add: the contract promises only a positive id not
  already stored, because identity generation belongs to the database. The
  body picks one more than the largest id.
- Managers.AnimalManager.Add: requires an entity with id 0. The behaviour of
  the store when the client supplies a non-zero id is not visible in this
  code.
- Controllers.AnimalController.PostSoftware: requires id 0 in a valid model,
  for the same reason.
- Managers.AnimalManager.Delete: the store's exception for an entity that is
  not stored is modelled as a false result with the table unchanged. The
  controller never reaches that case.
- Managers.AnimalManager.Update: the target must be a record as stored, which
  is how the controller calls it (the record its lookup returned). Attaching a
  detached object that only shares a stored key is not modelled. The store's
  exception for such a target, or for values that would change the key, is
  modelled as a false result with the table unchanged. The controller never
  reaches that case.
- Store exceptions and the resulting 500 responses of the controller are not
  modelled.
- Text.UpperChar: the source calls the culture-sensitive `ToUpper()`, and
  under the PostgreSQL provider the name side of the query runs as SQL
  `upper()` in the database. The model maps only a–z and the Latin-1 letters
  U+00E0–U+00FE (except U+00F7) to their capitals and leaves every other
  character as it is. Culture rules, the database's collation and full
  Unicode case mapping are not modelled.
- Null strings and null records are not modelled: a C# null result is
  `None`. `string.IsNullOrWhiteSpace` becomes "every character is white
  space" on a non-null string.
- The store order of the name search is taken as the table's sequence order.
  The query has no ordering clause, so the database's actual row order is not
  modelled.
- `ModelState.IsValid` is a boolean input. The validation rules behind it are
  not modelled.
- Async execution, `Task` and the property-change notifications of the
  view-model are left out. Each awaited call is one step.
- The `SelectedAnimal` property is left out, because no core operation reads
  or writes it.
- The public setters of `FilteredAnimals`, `EditAnimal`, `IsEditing`,
  `IsAdding` and `ErrorMessage` (Front/ViewModels/AnimalViewModel.cs:26-34,
  56-94) are not modelled as operations; only the `SearchText` setter is. A
  caller such as the page can set both modes through them, so the mode
  exclusion `Valid()` holds for the states the modelled operations reach, not
  for every state of the class. No operation requires it: the load, search,
  save and delete operations keep it, and the three mode-setting operations
  establish it from any state.
- The transfer-object lists of the view-model hold object references. Only
  the loaded and filtered list contents are modelled, not later mutation of
  the objects in them.
- The front-end page tests (FrontTests/Pages/AnimauxPageTests.cs) are left
  out, because they only check rendering.
- The test suite calls the write handlers by the names
  `PutAnimal`/`PostAnimal`/`DeleteAnimal`. The model follows the controller
  as written (`PutSoftware`, `PostSoftware`, `DeleteSoftware`).
