/** How a record's fields are shown: the read-only view (`makeViewDataFields`,
    `makeViewData`) dispatches on the field's type; the edit form
    (`makeCrudDataFields`) writes the current value into each field object. */
module FieldRendering {
  import opened Values
  import opened Resources

  const YesBadge := "<span class=\"badge badge-success\">Sim</span>"
  const NoBadge := "<span class=\"badge badge-danger\">Não</span>"

  /** `app()->make($model)`: the rows of each related model, by model name. */
  type Related = map<string, seq<Record>>

  /** The raw attribute, `@$content->{$field}`. */
  function Attribute(content: Record, f: FieldSpec): Value {
    Get(content, f.field)
  }

  predicate IsRawKind(kind: string) {
    kind != "check" && kind != "belongsTo"
  }

  /** The value one field shows on the view page. A `belongsTo` field shows the
      related row's `name`: `app()->make` raises for a model class that does not
      exist (HTTP 500), and `findOrFail` ends the page with 404 when the row does
      not exist. */
  function FieldValue(content: Record, f: FieldSpec, related: Related): Result<Value> {
    if f.kind == "text" then Ok(Attribute(content, f))
    else if f.kind == "check" then Ok(Str(if Truthy(Attribute(content, f)) then YesBadge else NoBadge))
    else if f.kind == "belongsTo" then
      if f.model !in related then Err(ServerError)
      else
        var rows := related[f.model];
        match Locate(rows, Attribute(content, f))
        case None => Err(NotFound)
        case Some(i) => Ok(Get(rows[i], "name"))
    else Ok(Attribute(content, f))
  }

  /** The view page's fields: the field list itself when there is no content,
      otherwise the shown values keyed by label. */
  datatype ViewFields = Unrendered(fields: seq<FieldSpec>) | Rendered(values: map<string, Value>)

  /** The values of the first `n` fields, a later label overwriting an earlier one. */
  function RenderPrefix(content: Record, fields: seq<FieldSpec>, related: Related, n: nat): Result<map<string, Value>>
    requires n <= |fields|
  {
    if n == 0 then Ok(map[])
    else match RenderPrefix(content, fields, related, n - 1)
      case Err(e) => Err(e)
      case Ok(m) =>
        match FieldValue(content, fields[n - 1], related)
        case Err(e) => Err(e)
        case Ok(v) => Ok(m[fields[n - 1].caption := v])
  }

  function RenderView(content: Option<Record>, fields: seq<FieldSpec>, related: Related): Result<ViewFields> {
    match content
    case None => Ok(Unrendered(fields))
    case Some(c) =>
      match RenderPrefix(c, fields, related, |fields|)
      case Err(e) => Err(e)
      case Ok(m) => Ok(Rendered(m))
  }

  /** `makeViewDataFields`: a loop that accumulates the values into `$data`. */
  method MakeViewDataFields(content: Option<Record>, fields: seq<FieldSpec>, related: Related)
    returns (r: Result<ViewFields>)
    ensures r == RenderView(content, fields, related)
  {
    if content.None? {
      return Ok(Unrendered(fields));
    }
    var c := content.value;
    var data: map<string, Value> := map[];
    for i := 0 to |fields|
      invariant RenderPrefix(c, fields, related, i) == Ok(data)
    {
      var f := fields[i];
      var value: Value;
      if f.kind == "text" {
        value := Get(c, f.field);
      } else if f.kind == "check" {
        value := if Truthy(Get(c, f.field)) then Str(YesBadge) else Str(NoBadge);
      } else if f.kind == "belongsTo" {
        if f.model !in related {
          FailureStays(c, fields, related, i + 1);
          return Err(ServerError);
        }
        var found := Locate(related[f.model], Get(c, f.field));
        if found.None? {
          FailureStays(c, fields, related, i + 1);
          return Err(NotFound);
        }
        value := Get(related[f.model][found.value], "name");
      } else {
        value := Get(c, f.field);
      }
      data := data[f.caption := value];
    }
    return Ok(Rendered(data));
  }

  /** Why a field cannot be shown: only a `belongsTo` field fails, with 500 for an
      unknown model class and 404 for a missing related row. */
  lemma FieldValueFailure(c: Record, f: FieldSpec, related: Related)
    ensures FieldValue(c, f, related) == Err(ServerError) <==> f.kind == "belongsTo" && f.model !in related
    ensures FieldValue(c, f, related) == Err(NotFound) <==>
      f.kind == "belongsTo" && f.model in related && Locate(related[f.model], Attribute(c, f)).None?
    ensures FieldValue(c, f, related).Err? ==> FieldValue(c, f, related).failure in {ServerError, NotFound}
  {
  }

  /** The first failing field ends the rendering with its own failure: no later
      field can undo or change it. */
  lemma {:induction false} FailureStays(c: Record, fields: seq<FieldSpec>, related: Related, n: nat)
    requires 0 < n <= |fields|
    requires RenderPrefix(c, fields, related, n - 1).Ok?
    requires FieldValue(c, fields[n - 1], related).Err?
    ensures forall m :: n <= m <= |fields| ==>
      RenderPrefix(c, fields, related, m) == Err(FieldValue(c, fields[n - 1], related).failure)
  {
    forall m | n <= m <= |fields|
      ensures RenderPrefix(c, fields, related, m) == Err(FieldValue(c, fields[n - 1], related).failure)
    {
      FailureStaysAt(c, fields, related, n, m);
    }
  }

  lemma {:induction false} FailureStaysAt(c: Record, fields: seq<FieldSpec>, related: Related, n: nat, m: nat)
    requires 0 < n <= m <= |fields|
    requires RenderPrefix(c, fields, related, n - 1).Ok?
    requires FieldValue(c, fields[n - 1], related).Err?
    ensures RenderPrefix(c, fields, related, m) == Err(FieldValue(c, fields[n - 1], related).failure)
    decreases m
  {
    if m > n {
      FailureStaysAt(c, fields, related, n, m - 1);
    }
  }

  /** A failed rendering reports the failure of its first failing field. */
  lemma {:induction false} RenderFailure(c: Record, fields: seq<FieldSpec>, related: Related, n: nat)
    requires n <= |fields|
    requires RenderPrefix(c, fields, related, n).Err?
    ensures exists i :: (&& 0 <= i < n && RenderPrefix(c, fields, related, i).Ok?
                         && FieldValue(c, fields[i], related) == Err(RenderPrefix(c, fields, related, n).failure))
  {
    if n > 0 {
      if RenderPrefix(c, fields, related, n - 1).Err? {
        RenderFailure(c, fields, related, n - 1);
      } else {
        assert FieldValue(c, fields[n - 1], related) == Err(RenderPrefix(c, fields, related, n).failure);
      }
    }
  }

  // ---------------------------------------------------------------------------
  // What the rendered view holds

  /** Field `i` is the last of the first `n` with its label. */
  predicate LastWithLabel(fields: seq<FieldSpec>, i: nat, n: nat)
    requires i < n <= |fields|
  {
    forall j :: i < j < n ==> fields[j].caption != fields[i].caption
  }

  /** The view fails exactly when some field cannot be shown (an unknown related
      model or a missing related row). */
  lemma {:induction false} RenderFailsIff(c: Record, fields: seq<FieldSpec>, related: Related, n: nat)
    requires n <= |fields|
    ensures RenderPrefix(c, fields, related, n).Err? <==>
      exists i :: 0 <= i < n && FieldValue(c, fields[i], related).Err?
  {
    if n > 0 {
      RenderFailsIff(c, fields, related, n - 1);
    }
  }

  /** On success the labels are exactly the fields' labels. */
  lemma {:induction false} RenderedKeys(c: Record, fields: seq<FieldSpec>, related: Related, n: nat)
    requires n <= |fields|
    requires RenderPrefix(c, fields, related, n).Ok?
    ensures RenderPrefix(c, fields, related, n).value.Keys == (set i | 0 <= i < n :: fields[i].caption)
  {
    if n > 0 {
      RenderedKeys(c, fields, related, n - 1);
      var prev := RenderPrefix(c, fields, related, n - 1).value;
      var m := RenderPrefix(c, fields, related, n).value;
      assert m.Keys == prev.Keys + {fields[n - 1].caption};
      var before := set i | 0 <= i < n - 1 :: fields[i].caption;
      var after := set i | 0 <= i < n :: fields[i].caption;
      assert after == before + {fields[n - 1].caption} by {
        forall x | x in after ensures x in before + {fields[n - 1].caption} {
          var i :| 0 <= i < n && fields[i].caption == x;
          if i < n - 1 {
            assert x in before;
          }
        }
      }
    }
  }

  /** On success each label shows the value of the last field carrying it. */
  lemma {:induction false} RenderedLast(c: Record, fields: seq<FieldSpec>, related: Related, n: nat, i: nat)
    requires i < n <= |fields| && LastWithLabel(fields, i, n)
    requires RenderPrefix(c, fields, related, n).Ok?
    ensures fields[i].caption in RenderPrefix(c, fields, related, n).value
    ensures FieldValue(c, fields[i], related) == Ok(RenderPrefix(c, fields, related, n).value[fields[i].caption])
  {
    if i < n - 1 {
      assert LastWithLabel(fields, i, n - 1);
      RenderedLast(c, fields, related, n - 1, i);
    }
  }

  /** The three kinds of field on the rendered view: a `check` shows the Sim badge
      exactly when its attribute is truthy and the Não badge otherwise; `text` and
      every unknown type show the raw attribute; `belongsTo` shows the `name` of the
      related row its attribute selects. */
  lemma RenderedField(c: Record, fields: seq<FieldSpec>, related: Related, i: nat)
    requires i < |fields| && LastWithLabel(fields, i, |fields|)
    requires RenderView(Some(c), fields, related).Ok?
    ensures fields[i].caption in RenderView(Some(c), fields, related).value.values
    ensures var shown := RenderView(Some(c), fields, related).value.values[fields[i].caption];
      && (fields[i].kind == "check" ==>
            (shown == Str(YesBadge) <==> Truthy(Attribute(c, fields[i])))
            && (shown == Str(NoBadge) <==> !Truthy(Attribute(c, fields[i]))))
      && (IsRawKind(fields[i].kind) ==> shown == Attribute(c, fields[i]))
      && (fields[i].kind == "belongsTo" ==>
            fields[i].model in related
            && exists j :: 0 <= j < |related[fields[i].model]|
                 && HasKey(related[fields[i].model][j], Attribute(c, fields[i]))
                 && shown == Get(related[fields[i].model][j], "name"))
  {
    RenderedLast(c, fields, related, |fields|, i);
    var f := fields[i];
    if f.kind == "belongsTo" {
      var j := Locate(related[f.model], Attribute(c, f)).value;
      assert HasKey(related[f.model][j], Attribute(c, f));
    }
  }

  // ---------------------------------------------------------------------------
  // The view page and the edit form

  /** `makeViewData`: the rendered fields, the update and delete permissions and the
      two action routes of the record with public code `code`. */
  datatype ViewData = ViewData(fields: ViewFields, canUpdate: bool, canDelete: bool, updateRoute: string, destroyRoute: string)

  function RecordPath(route: string, code: string): string {
    route + "/" + code
  }

  function MakeViewData(code: string, res: Resource, fields: ViewFields): ViewData {
    ViewData(fields, res.perms.canUpdate, res.perms.canDelete,
             RecordPath(res.route, code) + "/edit", RecordPath(res.route, code) + "/destroy")
  }

  /** Both action routes start with the record's path; under one resource route,
      two records with different codes never share an action route. */
  lemma ViewRoutesIdentifyRecord(code1: string, code2: string, res: Resource, f1: ViewFields, f2: ViewFields)
    ensures var v := MakeViewData(code1, res, f1);
      && v.updateRoute[..|RecordPath(res.route, code1)|] == RecordPath(res.route, code1)
      && v.destroyRoute[..|RecordPath(res.route, code1)|] == RecordPath(res.route, code1)
    ensures MakeViewData(code1, res, f1).updateRoute == MakeViewData(code2, res, f2).updateRoute ==> code1 == code2
    ensures MakeViewData(code1, res, f1).destroyRoute == MakeViewData(code2, res, f2).destroyRoute ==> code1 == code2
  {
    var p1, p2 := RecordPath(res.route, code1), RecordPath(res.route, code2);
    var v1, v2 := MakeViewData(code1, res, f1), MakeViewData(code2, res, f2);
    assert v1.updateRoute[..|p1|] == p1;
    assert v1.destroyRoute[..|p1|] == p1;
    var n := |res.route| + 1;
    if v1.updateRoute == v2.updateRoute {
      assert |code1| == |code2|;
      assert code1 == v1.updateRoute[n..n + |code1|];
      assert code2 == v2.updateRoute[n..n + |code2|];
    }
    if v1.destroyRoute == v2.destroyRoute {
      assert |code1| == |code2|;
      assert code1 == v1.destroyRoute[n..n + |code1|];
      assert code2 == v2.destroyRoute[n..n + |code2|];
    }
  }

  /** A field object of the form; `value` is `options["value"]`, absent until set. */
  class FormField {
    const spec: FieldSpec
    var value: Option<Value>

    constructor (spec: FieldSpec)
      ensures this.spec == spec && value == None
    {
      this.spec := spec;
      value := None;
    }
  }

  /** `$resource->fields()`: a new field object per declared field. */
  method NewFormFields(specs: seq<FieldSpec>) returns (fields: seq<FormField>)
    ensures |fields| == |specs|
    ensures forall i :: 0 <= i < |fields| ==> fresh(fields[i]) && fields[i].spec == specs[i] && fields[i].value == None
  {
    fields := [];
    for i := 0 to |specs|
      invariant |fields| == i
      invariant forall k :: 0 <= k < i ==> fresh(fields[k]) && fields[k].spec == specs[k] && fields[k].value == None
    {
      var f := new FormField(specs[i]);
      fields := fields + [f];
    }
  }

  /** `makeCrudDataFields`: with content, every field object gets the record's
      attribute as its value, in place; without, the objects are left as they are. */
  method MakeCrudDataFields(content: Option<Record>, fields: seq<FormField>)
    modifies fields
    ensures content.None? ==> forall i :: 0 <= i < |fields| ==> fields[i].value == old(fields[i].value)
    ensures content.Some? ==> forall i :: 0 <= i < |fields| ==> fields[i].value == Some(Get(content.value, fields[i].spec.field))
  {
    if content.None? {
      return;
    }
    for i := 0 to |fields|
      invariant forall k :: 0 <= k < i ==> fields[k].value == Some(Get(content.value, fields[k].spec.field))
    {
      fields[i].value := Some(Get(content.value, fields[i].spec.field));
    }
  }
}
