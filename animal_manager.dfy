/**
 * The repository over the animal table (Api/Managers/AnimalManager.cs).
 *
 * The table is a sequence of records in store order whose ids are unique
 * (the primary key). Each repository call is recorded in a ghost log, so that
 * callers can state which store accesses a request made and in what order.
 */
module Managers {

  import opened Wrappers
  import opened Models
  import opened Text

  /** No two records of the table share an id. */
  ghost predicate UniqueIds(s: seq<Animal>)
  {
    forall i, j :: 0 <= i < j < |s| ==> s[i].id != s[j].id
  }

  /** Some record of the table carries `id`. */
  predicate HasId(s: seq<Animal>, id: int)
  {
    exists a :: a in s && a.id == id
  }

  /** The key-lookup: position of the first record carrying `id`, if any. */
  function IndexOfId(s: seq<Animal>, id: int): (r: Option<nat>)
    ensures r.None? <==> !HasId(s, id)
    ensures r.Some? ==> r.value < |s| && s[r.value].id == id
    ensures r.Some? ==> forall j :: 0 <= j < r.value ==> s[j].id != id
  {
    if s == [] then
      None
    else if s[0].id == id then
      Some(0)
    else
      match IndexOfId(s[1..], id)
      case None =>
        assert s == [s[0]] + s[1..];
        None
      case Some(k) =>
        assert s[k + 1] == s[1..][k];
        Some(k + 1)
  }

  /** With unique ids, the position of a record carrying `id` is the one IndexOfId finds. */
  lemma IndexOfIdUnique(s: seq<Animal>, id: int, i: nat)
    requires UniqueIds(s)
    requires i < |s| && s[i].id == id
    ensures IndexOfId(s, id) == Some(i)
  {
  }

  /** The name search's match: the upper-cased name contains the upper-cased key. */
  predicate NameMatches(a: Animal, key: string)
  {
    Contains(Upper(a.name), Upper(key))
  }

  /** Position of the first record, in store order, whose name matches `key`, if any. */
  function FirstMatch(s: seq<Animal>, key: string): (r: Option<nat>)
    ensures r.None? <==> forall i :: 0 <= i < |s| ==> !NameMatches(s[i], key)
    ensures r.Some? ==> r.value < |s| && NameMatches(s[r.value], key)
    ensures r.Some? ==> forall j :: 0 <= j < r.value ==> !NameMatches(s[j], key)
  {
    if s == [] then
      None
    else if NameMatches(s[0], key) then
      Some(0)
    else
      var rest := FirstMatch(s[1..], key);
      forall j | 0 < j < |s| && (rest.None? || j <= rest.value) ensures !NameMatches(s[j], key) {
        assert s[j] == s[1..][j - 1];
      }
      if rest.None? then
        None
      else
        assert s[rest.value + 1] == s[1..][rest.value];
        Some(rest.value + 1)
  }

  /**
   * A key whose upper-cased form starts the upper-cased name of a stored record
   * is found, at that record or at an earlier match.
   */
  lemma PrefixFound(s: seq<Animal>, key: string, i: nat)
    requires i < |s| && Upper(key) <= Upper(s[i].name)
    ensures FirstMatch(s, key).Some? && FirstMatch(s, key).value <= i
  {
    ContainsPrefix(Upper(s[i].name), Upper(key));
  }

  /** Searching for the exact name of a stored record always finds a record. */
  lemma ExactNameFound(s: seq<Animal>, i: nat)
    requires i < |s|
    ensures FirstMatch(s, s[i].name).Some? && FirstMatch(s, s[i].name).value <= i
  {
    PrefixFound(s, s[i].name, i);
  }

  /** An upper bound of every id in the table, never negative. */
  function MaxId(s: seq<Animal>): (m: int)
    ensures m >= 0
    ensures forall i :: 0 <= i < |s| ==> s[i].id <= m
  {
    if s == [] then
      0
    else
      var rest := MaxId(s[1..]);
      assert forall i :: 1 <= i < |s| ==> s[i] == s[1..][i - 1];
      if s[0].id > rest then s[0].id else rest
  }

  /** The table without the records carrying `id`, the others in their order. */
  function RemoveId(s: seq<Animal>, id: int): (r: seq<Animal>)
    ensures forall a :: a in r <==> a in s && a.id != id
    ensures |r| <= |s|
  {
    if s == [] then
      []
    else if s[0].id == id then
      RemoveId(s[1..], id)
    else
      [s[0]] + RemoveId(s[1..], id)
  }

  /** Removing a record by position is removing its id, when ids are unique. */
  lemma {:induction false} RemoveIdAt(s: seq<Animal>, i: nat)
    requires UniqueIds(s)
    requires i < |s|
    ensures RemoveId(s, s[i].id) == s[..i] + s[i + 1..]
    decreases |s|
  {
    if i == 0 {
      NoIdNoRemoval(s[1..], s[0].id);
      assert s[..0] + s[1..] == s[1..];
    } else {
      assert s[1..][i - 1] == s[i];
      RemoveIdAt(s[1..], i - 1);
      assert s[..i] + s[i + 1..] == [s[0]] + (s[1..][..i - 1] + s[1..][i..]);
    }
  }

  /** Removing an id that no record carries leaves the table as it is. */
  lemma {:induction false} NoIdNoRemoval(s: seq<Animal>, id: int)
    requires forall j :: 0 <= j < |s| ==> s[j].id != id
    ensures RemoveId(s, id) == s
    decreases |s|
  {
    if s != [] {
      NoIdNoRemoval(s[1..], id);
      assert [s[0]] + s[1..] == s;
    }
  }

  /** Dropping one position keeps the ids unique. */
  lemma DropKeepsUnique(s: seq<Animal>, i: nat)
    requires UniqueIds(s) && i < |s|
    ensures UniqueIds(s[..i] + s[i + 1..])
  {
    var t := s[..i] + s[i + 1..];
    forall p, q | 0 <= p < q < |t| ensures t[p].id != t[q].id {
      var p' := if p < i then p else p + 1;
      var q' := if q < i then q else q + 1;
      assert t[p] == s[p'] && t[q] == s[q'];
    }
  }

  /**
   * The entry update "set current values from the incoming entity": every
   * record carrying `v.id` takes all of `v`'s fields; the others are untouched.
   */
  function Overwrite(s: seq<Animal>, v: Animal): (r: seq<Animal>)
    ensures |r| == |s|
    ensures forall i :: 0 <= i < |s| ==> r[i].id == s[i].id
    ensures forall i :: 0 <= i < |s| && s[i].id == v.id ==> r[i] == v
    ensures forall i :: 0 <= i < |s| && s[i].id != v.id ==> r[i] == s[i]
  {
    if s == [] then
      []
    else
      [if s[0].id == v.id then v else s[0]] + Overwrite(s[1..], v)
  }

  /** One repository call, as recorded in the manager's log. */
  datatype StoreCall =
    | ListAll
    | FindById(id: int)
    | FindByKey(key: string)
    | Insert(record: Animal)
    | Remove(id: int)
    | SetValues(record: Animal)

  /** The repository: a table of animals updated in place. */
  class AnimalManager {
    /** The table, in store order. */
    var animaux: seq<Animal>
    /** Every repository call made so far, oldest first. */
    ghost var log: seq<StoreCall>

    /** The primary-key invariant. */
    ghost predicate Valid()
      reads this
    {
      UniqueIds(animaux)
    }

    /** A repository over a table that already holds `seed`. */
    constructor (seed: seq<Animal>)
      requires UniqueIds(seed)
      ensures Valid()
      ensures animaux == seed && log == []
    {
      animaux := seed;
      log := [];
    }

    /** GetAllAsync: every stored record, in store order; an empty table gives an empty list. */
    method GetAll() returns (r: seq<Animal>)
      requires Valid()
      modifies this`log
      ensures r == animaux
      ensures log == old(log) + [ListAll]
    {
      r := animaux;
      log := log + [ListAll];
    }

    /** GetByIdAsync: the record with that id, or none when no record carries it. */
    method GetById(id: int) returns (r: Option<Animal>)
      requires Valid()
      modifies this`log
      ensures r.None? <==> !HasId(animaux, id)
      ensures r.Some? ==> r.value in animaux && r.value.id == id
      ensures log == old(log) + [FindById(id)]
    {
      var i := IndexOfId(animaux, id);
      r := if i.Some? then Some(animaux[i.value]) else None;
      log := log + [FindById(id)];
    }

    /**
     * GetByKeyAsync: the first record, in store order, whose upper-cased name
     * contains the upper-cased key; none when no name does.
     */
    method GetByKey(key: string) returns (r: Option<Animal>)
      requires Valid()
      modifies this`log
      ensures r.None? <==> forall i :: 0 <= i < |animaux| ==> !NameMatches(animaux[i], key)
      ensures r.Some? ==> exists i :: 0 <= i < |animaux| && animaux[i] == r.value && NameMatches(r.value, key) &&
                                      forall j :: 0 <= j < i ==> !NameMatches(animaux[j], key)
      // The same result, tied to the specification function, for callers that reason with FirstMatch.
      ensures r.Some? == FirstMatch(animaux, key).Some?
      ensures r.Some? ==> r.value == animaux[FirstMatch(animaux, key).value]
      ensures log == old(log) + [FindByKey(key)]
    {
      var i := FirstMatch(animaux, key);
      r := if i.Some? then Some(animaux[i.value]) else None;
      log := log + [FindByKey(key)];
    }

    /**
     * AddAsync for an entity whose key is unset (0): the store gives it an id
     * no record carries and appends it; every other record stays as it was.
     */
    method Add(entity: Animal) returns (newId: int)
      requires Valid()
      requires entity.id == 0
      modifies this
      ensures Valid()
      ensures newId > 0 && !HasId(old(animaux), newId)
      ensures animaux == old(animaux) + [entity.(id := newId)]
      ensures log == old(log) + [Insert(entity.(id := newId))]
    {
      newId := MaxId(animaux) + 1;
      animaux := animaux + [entity.(id := newId)];
      log := log + [Insert(entity.(id := newId))];
    }

    /**
     * DeleteAsync: removes the record carrying the entity's key. When no
     * record carries it the store reports an error (`ok` false) and nothing changes.
     */
    method Delete(entity: Animal) returns (ok: bool)
      requires Valid()
      modifies this
      ensures Valid()
      ensures ok == HasId(old(animaux), entity.id)
      ensures animaux == RemoveId(old(animaux), entity.id)
      ensures ok ==> var k := IndexOfId(old(animaux), entity.id).value;
                     animaux == old(animaux)[..k] + old(animaux)[k + 1..]
      ensures !ok ==> animaux == old(animaux)
      ensures log == old(log) + [Remove(entity.id)]
    {
      var i := IndexOfId(animaux, entity.id);
      if i.Some? {
        RemoveIdAt(animaux, i.value);
        DropKeepsUnique(animaux, i.value);
        animaux := animaux[..i.value] + animaux[i.value + 1..];
        ok := true;
      } else {
        NoIdNoRemoval(animaux, entity.id);
        ok := false;
      }
      log := log + [Remove(entity.id)];
    }

    /**
     * UpdateAsync: `target`, a record as stored, is attached and takes every
     * field of `values`. It fails (`ok` false, nothing changes) when `target`
     * is not a stored record, or when `values` would change the key.
     */
    method Update(target: Animal, values: Animal) returns (ok: bool)
      requires Valid()
      modifies this
      ensures Valid()
      ensures ok == (target in old(animaux) && values.id == target.id)
      ensures animaux == if ok then Overwrite(old(animaux), values) else old(animaux)
      ensures log == old(log) + [SetValues(values)]
    {
      ok := target in animaux && values.id == target.id;
      if ok {
        animaux := Overwrite(animaux, values);
      }
      log := log + [SetValues(values)];
    }
  }

  /** After an overwrite the key finds the new values; size and every other record are kept. */
  lemma OverwriteFound(s: seq<Animal>, v: Animal)
    requires UniqueIds(s) && HasId(s, v.id)
    ensures UniqueIds(Overwrite(s, v))
    ensures |Overwrite(s, v)| == |s|
    ensures IndexOfId(Overwrite(s, v), v.id) == IndexOfId(s, v.id)
    ensures Overwrite(s, v)[IndexOfId(s, v.id).value] == v
  {
    var i := IndexOfId(s, v.id).value;
    IndexOfIdUnique(Overwrite(s, v), v.id, i);
  }

  /** After a removal the id is gone, the table is one shorter and the ids stay unique. */
  lemma RemovedGone(s: seq<Animal>, id: int)
    requires UniqueIds(s) && HasId(s, id)
    ensures UniqueIds(RemoveId(s, id))
    ensures |RemoveId(s, id)| == |s| - 1
    ensures IndexOfId(RemoveId(s, id), id).None?
  {
    var i := IndexOfId(s, id).value;
    RemoveIdAt(s, i);
    DropKeepsUnique(s, i);
  }
}
