/** The controller's record pages: the list (`index`), the create and edit forms
    (`create`, `edit`, `makeCrudData`), the record view (`view`), deletion
    (`destroy`) and saving a form (`store`). Each first resolves the resource and
    runs its permission check. */
module Crud {
  import opened Values
  import opened Resources
  import opened ListQuery
  import opened FieldRendering

  // ---------------------------------------------------------------------------
  // The list page

  /** `index`: 404 or 403 from the gate, otherwise the paginated list query. */
  method Index(registry: Registry, ident: string, data: Params) returns (r: Result<Query>)
    ensures r.Err? <==> Gate(registry, ident, ViewList).Err?
    ensures r.Err? ==> r.failure == Gate(registry, ident, ViewList).failure
    ensures r.Ok? ==> r.value == ListQueryOf(registry[ident], data)
  {
    var gate := Gate(registry, ident, ViewList);
    if gate.Err? {
      return Err(gate.failure);
    }
    var q := GetPaginatedData(gate.value, data);
    r := Ok(q);
  }

  // ---------------------------------------------------------------------------
  // The create and edit forms

  /** `makeCrudData` plus `page_type`: the record's key (null for a new record), the
      field objects and the resource's identifier. */
  datatype CrudData = CrudData(id: Value, fields: seq<FormField>, resourceId: string, pageType: string)

  /** The form's field objects: one fresh object per declared field, in order. */
  ghost predicate FormFieldsFor(fields: seq<FormField>, specs: seq<FieldSpec>) {
    |fields| == |specs| && forall i :: 0 <= i < |fields| ==> fields[i].spec == specs[i]
  }

  /** `create`: needs `canCreate`; the fields carry no value. */
  method CreateForm(registry: Registry, ident: string) returns (r: Result<CrudData>)
    ensures r.Err? <==> Gate(registry, ident, CreateOne).Err?
    ensures r.Err? ==> r.failure == Gate(registry, ident, CreateOne).failure
    ensures r.Ok? ==>
      && r.value == CrudData(Null, r.value.fields, registry[ident].id, "Cadastro")
      && FormFieldsFor(r.value.fields, registry[ident].fields)
      && forall i :: 0 <= i < |r.value.fields| ==> fresh(r.value.fields[i]) && r.value.fields[i].value.None?
  {
    var gate := Gate(registry, ident, CreateOne);
    if gate.Err? {
      return Err(gate.failure);
    }
    var res := gate.value;
    var fields := NewFormFields(res.fields);
    MakeCrudDataFields(None, fields);
    r := Ok(CrudData(Null, fields, res.id, "Cadastro"));
  }

  /** `edit`: needs `canUpdate`, then a row the code selects (404 otherwise); every
      field object holds the row's attribute. */
  method Edit(registry: Registry, ident: string, code: Value, table: Table) returns (r: Result<CrudData>)
    ensures Gate(registry, ident, UpdateOne).Err? ==> r == Err(Gate(registry, ident, UpdateOne).failure)
    ensures Gate(registry, ident, UpdateOne).Ok? && Locate(table.rows, code).None? ==> r == Err(NotFound)
    ensures Gate(registry, ident, UpdateOne).Ok? && Locate(table.rows, code).Some? ==>
      var row := table.rows[Locate(table.rows, code).value];
      && r.Ok?
      && r.value == CrudData(Get(row, "id"), r.value.fields, registry[ident].id, "Edição")
      && FormFieldsFor(r.value.fields, registry[ident].fields)
      && forall i :: 0 <= i < |r.value.fields| ==>
           fresh(r.value.fields[i]) && r.value.fields[i].value == Some(Get(row, r.value.fields[i].spec.field))
  {
    var gate := Gate(registry, ident, UpdateOne);
    if gate.Err? {
      return Err(gate.failure);
    }
    var res := gate.value;
    var found := Locate(table.rows, code);
    if found.None? {
      return Err(NotFound);
    }
    var row := table.rows[found.value];
    var fields := NewFormFields(res.fields);
    MakeCrudDataFields(Some(row), fields);
    r := Ok(CrudData(Get(row, "id"), fields, res.id, "Edição"));
  }

  // ---------------------------------------------------------------------------
  // The record view

  datatype ViewPage = ViewPage(data: ViewData, pageType: string)

  /** `view`: needs `canView`, then a row the code selects; the page is built from
      the row's public `code` and its rendered fields. A field that cannot be shown
      ends the request with its failure: 500 for an unknown related model, 404
      for a missing related row. */
  method ViewRecord(registry: Registry, ident: string, code: Value, rows: seq<Record>, related: Related)
    returns (r: Result<ViewPage>)
    ensures Gate(registry, ident, ViewOne).Err? ==> r == Err(Gate(registry, ident, ViewOne).failure)
    ensures Gate(registry, ident, ViewOne).Ok? && Locate(rows, code).None? ==> r == Err(NotFound)
    ensures Gate(registry, ident, ViewOne).Ok? && Locate(rows, code).Some? ==>
      var res := registry[ident];
      var row := rows[Locate(rows, code).value];
      var rendered := RenderView(Some(row), res.fields, related);
      && (rendered.Err? ==> r == Err(rendered.failure))
      && (rendered.Ok? ==> r == Ok(ViewPage(MakeViewData(ToText(Get(row, "code")), res, rendered.value), "Visualização")))
  {
    var gate := Gate(registry, ident, ViewOne);
    if gate.Err? {
      return Err(gate.failure);
    }
    var res := gate.value;
    var found := Locate(rows, code);
    if found.None? {
      return Err(NotFound);
    }
    var row := rows[found.value];
    var rendered := MakeViewDataFields(Some(row), res.fields, related);
    if rendered.Err? {
      return Err(rendered.failure);
    }
    var data := MakeViewData(ToText(Get(row, "code")), res, rendered.value);
    r := Ok(ViewPage(data, "Visualização"));
  }

  /** A successful view of a found row shows one entry per field label. */
  lemma ViewShowsEveryField(res: Resource, row: Record, related: Related)
    requires RenderView(Some(row), res.fields, related).Ok?
    ensures var v := RenderView(Some(row), res.fields, related).value;
      && v.Rendered?
      && v.values.Keys == set i | 0 <= i < |res.fields| :: res.fields[i].caption
  {
    RenderFailsIff(row, res.fields, related, |res.fields|);
    RenderedKeys(row, res.fields, related, |res.fields|);
  }

  // ---------------------------------------------------------------------------
  // Deletion

  /** The JSON `destroy` answers with. */
  datatype DestroyReply = DestroyReply(success: bool, route: string)

  function DeletedNotice(res: Resource): Notice {
    Notice("success", res.singularLabel + " Excluido com sucesso !!")
  }

  function NotDeletedNotice(res: Resource): Notice {
    Notice("error", " Erro ao excluir com " + res.singularLabel + " !!")
  }

  /** `destroy`: needs `canDelete`, then a row the code selects; after a deletion the
      code selects no row. */
  method Destroy(registry: Registry, ident: string, code: Value, table: Table)
    returns (r: Result<DestroyReply>, notice: Option<Notice>)
    requires table.Valid()
    modifies table
    ensures table.Valid()
    ensures Gate(registry, ident, DeleteOne).Err? ==>
      r == Err(Gate(registry, ident, DeleteOne).failure) && table.rows == old(table.rows) && notice == None
    ensures Gate(registry, ident, DeleteOne).Ok? && Locate(old(table.rows), code).None? ==>
      r == Err(NotFound) && table.rows == old(table.rows) && notice == None
    ensures Gate(registry, ident, DeleteOne).Ok? && Locate(old(table.rows), code).Some? ==>
      var res := registry[ident];
      var i := Locate(old(table.rows), code).value;
      && r.Ok? && r.value.route == res.route
      && (r.value.success ==>
            && table.rows == old(table.rows)[..i] + old(table.rows)[i + 1..]
            && Locate(table.rows, code).None?
            && notice == Some(DeletedNotice(res)))
      && (!r.value.success ==> table.rows == old(table.rows) && notice == Some(NotDeletedNotice(res)))
  {
    var gate := Gate(registry, ident, DeleteOne);
    if gate.Err? {
      return Err(gate.failure), None;
    }
    var res := gate.value;
    var found := Locate(table.rows, code);
    if found.None? {
      return Err(NotFound), None;
    }
    ghost var before := table.rows;
    var ok := table.Delete(found.value);
    if ok {
      RemovedKeyIsGone(before, code, table.nextId);
      return Ok(DestroyReply(true, res.route)), Some(DeletedNotice(res));
    }
    r, notice := Ok(DestroyReply(false, res.route)), Some(NotDeletedNotice(res));
  }

  // ---------------------------------------------------------------------------
  // Saving a form

  /** What `store` goes on to do once every check has passed. */
  datatype StorePlan = CreateRow(res: Resource, payload: Record) | UpdateRow(res: Resource, index: nat, payload: Record)

  /** `$request->except(["resource_id", "id"])`. */
  function Payload(data: Params): (p: Record)
    ensures "id" !in p && "resource_id" !in p
    ensures forall k :: k in p <==> k in data && k != "id" && k != "resource_id"
    ensures forall k :: k in p ==> p[k] == data[k]
  {
    map k | k in data && k != "id" && k != "resource_id" :: data[k]
  }

  /** Whether the form targets an existing row: a truthy `id`. */
  predicate Updating(data: Params) {
    Truthy(Get(data, "id"))
  }

  /** The checks of `store`, in their order: a truthy `resource_id` (404), the
      resource it names, the permission for an update or a creation (403), the
      resource's validation rules (422, `validationErrors` being the validator's
      messages), then for an update a row the `id` selects (404). */
  function PlanStore(registry: Registry, data: Params, validationErrors: seq<string>, rows: seq<Record>): Result<StorePlan> {
    if !Truthy(Get(data, "resource_id")) then Err(NotFound)
    else
      var ident := ToText(data["resource_id"]);
      if ident !in registry then Err(NotFound)
      else
        var res := registry[ident];
        if Updating(data) && !res.perms.canUpdate then Err(Forbidden)
        else if !Updating(data) && !res.perms.canCreate then Err(Forbidden)
        else if validationErrors != [] then Err(Unprocessable(validationErrors))
        else if Updating(data) then
          match Locate(rows, data["id"])
          case None => Err(NotFound)
          case Some(i) => Ok(UpdateRow(res, i, Payload(data)))
        else Ok(CreateRow(res, Payload(data)))
  }

  /** The resource `store` acts on, when the request names one. */
  function StoreResource(registry: Registry, data: Params): Option<Resource> {
    if Truthy(Get(data, "resource_id")) && ToText(data["resource_id"]) in registry
    then Some(registry[ToText(data["resource_id"])])
    else None
  }

  /** The order of the checks: the permission is decided before validation and
      before the table is read, validation before the table is read; a truthy
      `id` always means an update of the row it selects, a falsy one a creation. */
  lemma StoreChecksInOrder(registry: Registry, data: Params, errs: seq<string>, rows: seq<Record>)
    ensures StoreResource(registry, data).None? ==> PlanStore(registry, data, errs, rows) == Err(NotFound)
    ensures StoreResource(registry, data).Some? ==>
      var res := StoreResource(registry, data).value;
      var allowed := if Updating(data) then res.perms.canUpdate else res.perms.canCreate;
      && (!allowed ==> forall e, t :: PlanStore(registry, data, e, t) == Err(Forbidden))
      && (allowed && errs != [] ==> forall t :: PlanStore(registry, data, errs, t) == Err(Unprocessable(errs)))
      && (allowed && errs == [] && !Updating(data) ==> PlanStore(registry, data, errs, rows) == Ok(CreateRow(res, Payload(data))))
      && (allowed && errs == [] && Updating(data) ==>
            match Locate(rows, data["id"])
            case None => PlanStore(registry, data, errs, rows) == Err(NotFound)
            case Some(i) => PlanStore(registry, data, errs, rows) == Ok(UpdateRow(res, i, Payload(data))))
  {
  }

  /** A planned update names a row the `id` selects, and no plan writes the key. */
  lemma PlanTargets(registry: Registry, data: Params, errs: seq<string>, rows: seq<Record>)
    requires PlanStore(registry, data, errs, rows).Ok?
    ensures errs == []
    ensures var plan := PlanStore(registry, data, errs, rows).value;
      && "id" !in plan.payload
      && (plan.UpdateRow? <==> Updating(data))
      && (plan.UpdateRow? ==> plan.index < |rows| && HasKey(rows[plan.index], data["id"]))
  {
  }

  /** The JSON `store` answers with: success, and the list route of `resourceId`. */
  datatype StoreReply = StoreReply(success: bool, resourceId: string)

  function SavedNotice(res: Resource): Notice {
    Notice("success", res.singularLabel + " Salvo com sucesso !!")
  }

  /** `store`: runs the checks, then creates or updates the row with the payload. A
      rejected insertion is an exception the controller does not catch. */
  method Store(registry: Registry, data: Params, validationErrors: seq<string>, table: Table)
    returns (r: Result<StoreReply>, notice: Option<Notice>)
    requires table.Valid()
    modifies table
    ensures table.Valid()
    ensures PlanStore(registry, data, validationErrors, old(table.rows)).Err? ==>
      && r == Err(PlanStore(registry, data, validationErrors, old(table.rows)).failure)
      && table.rows == old(table.rows) && notice == None
    ensures PlanStore(registry, data, validationErrors, old(table.rows)).Ok? ==>
      match PlanStore(registry, data, validationErrors, old(table.rows)).value
      case CreateRow(res, payload) =>
        && (r.Ok? ==> (&& r.value == StoreReply(true, res.id)
                       && notice == Some(SavedNotice(res))
                       && table.rows == old(table.rows) + [payload["id" := Int(old(table.nextId))]]))
        && (r.Err? ==> r == Err(ServerError) && table.rows == old(table.rows) && notice == None)
      case UpdateRow(res, i, payload) =>
        && r == Ok(StoreReply(true, res.id)) && notice == Some(SavedNotice(res))
        && table.rows == old(table.rows)[i := old(table.rows)[i] + payload]
  {
    var plan := PlanStore(registry, data, validationErrors, table.rows);
    if plan.Err? {
      return Err(plan.failure), None;
    }
    PlanTargets(registry, data, validationErrors, table.rows);
    match plan.value
    case CreateRow(res, payload) =>
      var ok := table.Insert(payload);
      if !ok {
        return Err(ServerError), None;
      }
      r, notice := Ok(StoreReply(true, res.id)), Some(SavedNotice(res));
    case UpdateRow(res, i, payload) =>
      table.Update(i, payload);
      r, notice := Ok(StoreReply(true, res.id)), Some(SavedNotice(res));
  }
  /** Saving then editing. After an update, the row keeps its position and its key:
      the same `id`, or the row's own key, opens the edit form of that row. After a
      creation, the new row's key, as an integer or as the digits of a URL, opens
      the edit form of the appended row. Either way the table stays uniquely keyed
      and every attribute the request wrote shows the written value. */
  lemma StoreThenEdit(registry: Registry, data: Params, errs: seq<string>, rows: seq<Record>, bound: nat)
    requires bound > 0 && UniquelyKeyed(rows, bound)
    requires PlanStore(registry, data, errs, rows).Ok?
    ensures match PlanStore(registry, data, errs, rows).value
      case UpdateRow(_, i, payload) =>
        var after := rows[i := rows[i] + payload];
        && UniquelyKeyed(after, bound)
        && Locate(after, data["id"]) == Some(i)
        && Locate(after, rows[i]["id"]) == Some(i)
        && (forall f :: f in data && f != "id" && f != "resource_id" ==> Get(after[i], f) == data[f])
      case CreateRow(_, payload) =>
        var after := rows + [payload["id" := Int(bound)]];
        && UniquelyKeyed(after, bound + 1)
        && Locate(after, Int(bound)) == Some(|rows|)
        && Locate(after, Str(NatToString(bound))) == Some(|rows|)
        && (forall f :: f in data && f != "id" && f != "resource_id" ==> Get(after[|rows|], f) == data[f])
  {
    PlanTargets(registry, data, errs, rows);
    var plan := PlanStore(registry, data, errs, rows).value;
    assert plan.payload == Payload(data);
    match plan
    case UpdateRow(_, i, payload) =>
      UpdateKeepsKeys(rows, bound, i, payload, data["id"]);
      assert Locate(rows, data["id"]) == Some(i);
    case CreateRow(_, payload) =>
      CreateUsesFreshKey(rows, bound, payload);
  }


}
