/** Resource metadata, the registry that resolves a resource identifier, the
    permission gate every page runs first, and the table a resource is bound to. */
module Resources {
  import opened Values

  /** How a request ends when it does not succeed: HTTP 403, 404 and 422, or an
      exception the controller does not catch (HTTP 500). */
  datatype Failure = Forbidden | NotFound | Unprocessable(errors: seq<string>) | ServerError

  datatype Result<+T> = Ok(value: T) | Err(failure: Failure)

  /** A user-facing notice: `Messages::send` (flash) or `Messages::notify` (to a user). */
  datatype Notice = Notice(level: string, text: string)

  /** The resource's permission predicates, as they answer for the current user. */
  datatype Permissions = Permissions(
    canViewList: bool,
    canView: bool,
    canCreate: bool,
    canUpdate: bool,
    canDelete: bool,
    canImport: bool,
    globallySearchable: bool)

  /** A field's `options`: its type, the attribute it shows, its label (`caption`) and,
      for `belongsTo`, the related model. */
  datatype FieldSpec = FieldSpec(kind: string, field: string, caption: string, model: string)

  /** A resource definition: identity, labels, permissions, fields, declared filters
      (named; what each filter does is its own code), search columns, lens fields
      and page size. */
  datatype Resource = Resource(
    id: string,
    route: string,
    pluralLabel: string,
    singularLabel: string,
    perms: Permissions,
    fields: seq<FieldSpec>,
    filters: seq<string>,
    search: seq<string>,
    lens: seq<string>,
    perPage: int)

  /** A row of a table: its attributes, `id` among them. */
  type Record = Params

  /** `ResourcesHelpers`: the registered resources by identifier. */
  type Registry = map<string, Resource>

  /** The pages the controller serves, each guarded by its own permission. */
  datatype Action = ViewList | ViewOne | CreateOne | UpdateOne | DeleteOne | ImportRows

  predicate Allows(p: Permissions, a: Action) {
    match a
    case ViewList => p.canViewList
    case ViewOne => p.canView
    case CreateOne => p.canCreate
    case UpdateOne => p.canUpdate
    case DeleteOne => p.canDelete
    case ImportRows => p.canImport && p.canCreate
  }

  /** `ResourcesHelpers::find($resource)` then `if (!$resource->canX()) abort(403)`. */
  function Gate(registry: Registry, ident: string, a: Action): (r: Result<Resource>)
    ensures r == Err(NotFound) <==> ident !in registry
    ensures r == Err(Forbidden) <==> ident in registry && !Allows(registry[ident].perms, a)
    ensures r.Ok? <==> ident in registry && Allows(registry[ident].perms, a)
    ensures r.Ok? ==> r.value == registry[ident]
  {
    if ident !in registry then Err(NotFound)
    else if !Allows(registry[ident].perms, a) then Err(Forbidden)
    else Ok(registry[ident])
  }

  /** Whether a row is the one a primary-key value selects. */
  predicate HasKey(r: Record, key: Value) {
    AsKey(key).Some? && Get(r, "id") == Int(AsKey(key).value)
  }

  /** `findOrFail($key)`: the position of the first row the key selects. */
  function Locate(rows: seq<Record>, key: Value): (r: Option<nat>)
    ensures r.Some? ==> r.value < |rows| && HasKey(rows[r.value], key)
    ensures r.Some? ==> forall j :: 0 <= j < r.value ==> !HasKey(rows[j], key)
    ensures r.None? <==> forall j :: 0 <= j < |rows| ==> !HasKey(rows[j], key)
  {
    if |rows| == 0 then None
    else if HasKey(rows[0], key) then Some(0)
    else match Locate(rows[1..], key)
      case None => None
      case Some(k) => Some(k + 1)
  }

  /** A stored row carries a positive integer key below the next key to hand out. */
  predicate KeyedBelow(r: Record, bound: int) {
    "id" in r && r["id"].Int? && 0 < r["id"].i < bound
  }

  /** `findOrFail` looks only at the keys: two tables whose rows have the same keys,
      position by position, locate every key at the same position. */
  lemma LocateSameKeys(a: seq<Record>, b: seq<Record>, key: Value)
    requires |a| == |b| && forall j :: 0 <= j < |a| ==> Get(a[j], "id") == Get(b[j], "id")
    ensures Locate(a, key) == Locate(b, key)
  {
    assert forall j :: 0 <= j < |a| ==> (HasKey(a[j], key) <==> HasKey(b[j], key));
  }

  /** Every row carries its own key, below `bound`. */
  predicate UniquelyKeyed(rows: seq<Record>, bound: int) {
    && (forall i :: 0 <= i < |rows| ==> KeyedBelow(rows[i], bound))
    && (forall i, j :: 0 <= i < j < |rows| ==> rows[i]["id"] != rows[j]["id"])
  }
  /** Overwriting a row's attributes, but not its key, keeps the table uniquely
      keyed, locates every key where it was, and locates the row by its own key. */
  lemma UpdateKeepsKeys(rows: seq<Record>, bound: int, i: nat, payload: Record, key: Value)
    requires UniquelyKeyed(rows, bound) && i < |rows| && "id" !in payload
    ensures var after := rows[i := rows[i] + payload];
      && UniquelyKeyed(after, bound)
      && Locate(after, key) == Locate(rows, key)
      && Locate(after, rows[i]["id"]) == Some(i)
      && forall f :: f in payload ==> Get(after[i], f) == payload[f]
  {
    var after := rows[i := rows[i] + payload];
    assert forall j :: 0 <= j < |rows| ==> Get(after[j], "id") == Get(rows[j], "id");
    LocateSameKeys(after, rows, key);
    LocateSameKeys(after, rows, rows[i]["id"]);
    assert HasKey(rows[i], rows[i]["id"]);
    assert UniquelyKeyed(after, bound) by {
      forall j | 0 <= j < |after| ensures KeyedBelow(after[j], bound) {
        assert j != i ==> after[j] == rows[j];
      }
    }
  }

  /** Appending a row under the table's next key keeps the table uniquely keyed
      (now below the following key) and locates the new row by that key, written
      as an integer or as digits. */
  lemma CreateUsesFreshKey(rows: seq<Record>, bound: nat, payload: Record)
    requires bound > 0 && UniquelyKeyed(rows, bound) && "id" !in payload
    ensures var after := rows + [payload["id" := Int(bound)]];
      && UniquelyKeyed(after, bound + 1)
      && Locate(after, Int(bound)) == Some(|rows|)
      && Locate(after, Str(NatToString(bound))) == Some(|rows|)
      && forall f :: f in payload ==> Get(after[|rows|], f) == payload[f]
  {
    var row := payload["id" := Int(bound)];
    AsKeyOfRendered(bound);
    LocateFreshKey(rows, bound, row, Int(bound));
    LocateFreshKey(rows, bound, row, Str(NatToString(bound)));
    var after := rows + [row];
    assert forall j :: 0 <= j < |rows| ==> after[j] == rows[j];
  }

  lemma LocateFreshKey(rows: seq<Record>, bound: int, row: Record, key: Value)
    requires UniquelyKeyed(rows, bound) && AsKey(key) == Some(bound) && Get(row, "id") == Int(bound)
    ensures Locate(rows + [row], key) == Some(|rows|)
  {
    var after := rows + [row];
    assert forall j :: 0 <= j < |rows| ==> after[j] == rows[j] && !HasKey(rows[j], key);
    assert HasKey(after[|rows|], key);
  }



  /** The table a resource's model is bound to, in the order the database returns it. */
  class Table {
    var rows: seq<Record>
    var nextId: int

    /** Every row has its own key, below `nextId`. */
    ghost predicate Valid()
      reads this
    {
      nextId > 0 && UniquelyKeyed(rows, nextId)
    }

    constructor ()
      ensures Valid() && rows == [] && nextId == 1
    {
      rows := [];
      nextId := 1;
    }

    /** `$model->create($attributes)` or `save()` of a new model: the database either
        stores the row under a fresh key or rejects it (a constraint violation). */
    method Insert(attrs: Record) returns (ok: bool)
      requires Valid()
      modifies this
      ensures Valid()
      ensures ok ==> rows == old(rows) + [attrs["id" := Int(old(nextId))]] && nextId == old(nextId) + 1
      ensures !ok ==> rows == old(rows) && nextId == old(nextId)
    {
      ok :| true;
      if ok {
        rows := rows + [attrs["id" := Int(nextId)]];
        nextId := nextId + 1;
      }
    }

    /** `fill($payload)` then `save()` on an existing row: the payload's attributes
        overwrite the row's, the key stays. */
    method Update(i: nat, payload: Record)
      requires Valid() && i < |rows| && "id" !in payload
      modifies this
      ensures Valid() && nextId == old(nextId)
      ensures rows == old(rows)[i := old(rows)[i] + payload]
    {
      rows := rows[i := rows[i] + payload];
    }

    /** `$content->delete()`: removes the row, or reports that it did not. */
    method Delete(i: nat) returns (ok: bool)
      requires Valid() && i < |rows|
      modifies this
      ensures Valid() && nextId == old(nextId)
      ensures ok ==> rows == old(rows)[..i] + old(rows)[i + 1..]
      ensures !ok ==> rows == old(rows)
    {
      ok :| true;
      if ok {
        rows := rows[..i] + rows[i + 1..];
      }
    }
  }

  /** Keys are unique, so once the row a key selects is removed the key selects nothing. */
  lemma RemovedKeyIsGone(rows: seq<Record>, key: Value, bound: int)
    requires UniquelyKeyed(rows, bound)
    requires Locate(rows, key).Some?
    ensures Locate(rows[..Locate(rows, key).value] + rows[Locate(rows, key).value + 1..], key).None?
  {
    var i := Locate(rows, key).value;
    var rest := rows[..i] + rows[i + 1..];
    forall j | 0 <= j < |rest| ensures !HasKey(rest[j], key) {
      if j < i {
        assert rest[j] == rows[j];
      } else {
        assert rest[j] == rows[j + 1];
        assert rows[i]["id"] != rows[j + 1]["id"];
      }
    }
  }
}
