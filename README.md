# LaravelStack resource controller, modelled in Dafny

LaravelStack builds an admin panel from resource definitions. A definition gives a
resource's labels, permissions, fields, filters, search columns, lenses and page
size. One generic controller, `ResourceController`, serves every resource:

- the list page and its query;
- the create and edit forms;
- the record view;
- deletion;
- saving a form;
- CSV import, as a probe of the upload, a submission and the import job;
- the global search across resources.

This project models that controller's decisions and proves what they guarantee.

The collaborators are modelled as values:

- **Registry.** `ResourcesHelpers` is a map from identifier to resource. `ResourcesHelpers` is not part of this model: an unknown identifier is modelled as a 404.
- **Table.** A resource's table is a `Table` object: a sequence of rows with unique positive keys, plus the next key to hand out. `create` can fail, nondeterministically.
- **Queries.** The query builder is a sequence of clauses. `Select` says which rows a query keeps, under SQL `LIKE` semantics (`SqlLike`).
- **Outputs.** Notifications and flash messages are returned as values.
- **Inputs from outside.** The validator's messages, the table's column listing and the decoded import configuration are parameters.

Modules:

- `Values`: PHP values, truthiness, `@$a[$k]`, integer and string conversions, and the keys `findOrFail` accepts.
- `Resources`: definitions, the permission gate, `findOrFail` (`Locate`), and the `Table` class.
- `SqlLike`: the `LIKE` matcher and its relation to substring containment.
- `ListQuery`: `getPaginatedData`, and what its query selects.
- `FieldRendering`: `makeViewDataFields`, `makeViewData` and `makeCrudDataFields`.
- `CsvImport`: `makeImportData`, `checkFileImport`, `importSubmit` and `importCSV`.
- `Crud`: `index`, `create`, `edit`, `view`, `destroy` and `store`.
- `GlobalSearch`: `globalSearch`.

Decisions the code makes that the model follows:

- **List search combines columns with AND.** The code chains one `where` call per search column (ResourceController.php:29-31), so a row is listed only when every column matches; `ListQuery.SelectListQuery` states the AND.
- **Import sends two notices.** The job sends a success notice when some rows were created and a danger notice when some failed (ResourceController.php:136-137); `CsvImport.ImportNoticesSummary` states both.
- **Import size limit.** Uploads are compared against 137072 bytes (ResourceController.php:84 and :98); that constant is `CsvImport.MaxUploadBytes`.
- **Order direction.** Any truthy `order_type` is passed to `orderBy` unchanged (ResourceController.php:25); `ListQuery.OrderDefaults` states it.
- **Field-list keys name row keys.** The job reads `$row[$key]`, and each row is keyed by header names (ResourceController.php:116 and :127). The model reads a field-list key as a row key (`Get(row, key)`), so a key that is not a header name gives null.
- **Failed saves raise.** In `store`, a creation the database rejects raises an exception the controller does not catch (ResourceController.php:243); it is modelled as `ServerError`.

## Model

| member | source | states |
|---|---|---|
| Values.AsKeyOfRendered | app/vStack/Controllers/ResourceController.php:145 | a key given as an integer, or written in decimal as in a URL, selects the row with that key |
| Values.ParseNatToString | app/vStack/Controllers/ResourceController.php:145 | reading back the decimal form of a number gives the number |
| Resources.Gate | app/vStack/Controllers/ResourceController.php:15-16 | 404 exactly when the identifier is unknown; 403 exactly when it is known and the action's permission is false (import needs both `canImport` and `canCreate`); otherwise the registered resource |
| Resources.Locate | app/vStack/Controllers/ResourceController.php:155 | `findOrFail`: the first row the key selects, or none exactly when no row has that key |
| Resources.Table.Insert | app/vStack/Controllers/ResourceController.php:130 | a creation either appends the attributes under the next fresh key, or changes nothing; keys stay unique |
| Resources.Table.Update | app/vStack/Controllers/ResourceController.php:242-243 | `fill` then `save`: the payload overwrites that row's attributes and nothing else; keys stay unique |
| Resources.Table.Delete | app/vStack/Controllers/ResourceController.php:156 | either removes exactly that row, or changes nothing |
| Resources.RemovedKeyIsGone | app/vStack/Controllers/ResourceController.php:155-156 | keys are unique, so after the row is deleted its key selects no row |
| SqlLike.ContainsMatchesWrapped | app/vStack/Controllers/ResourceController.php:30 | every text containing the term matches `%term%` |
| SqlLike.WrappedLiteralIsContains | app/vStack/Controllers/ResourceController.php:30 | for a term free of `%` and `_`: `%term%` matches exactly the texts that contain the term |
| ListQuery.GetPaginatedData | app/vStack/Controllers/ResourceController.php:21-41 | the three loops build exactly the list query `ListQueryOf`, whose shape and selection the lemmas below state |
| ListQuery.OrderDefaults | app/vStack/Controllers/ResourceController.php:24-25 | order column `"id"` and direction `"desc"` exactly when the parameter is absent or falsy; otherwise the parameter, unchanged |
| ListQuery.FilterClausesAt | app/vStack/Controllers/ResourceController.php:28 | one filter clause per declared filter, in declaration order |
| ListQuery.SearchClausesAt | app/vStack/Controllers/ResourceController.php:29-31 | one LIKE clause per search column, in order, all with the same pattern |
| ListQuery.LensClausesMembers | app/vStack/Controllers/ResourceController.php:32-38 | an equality clause on a field exists exactly when a lens names the field and the request sets it, and it carries the request's value |
| ListQuery.LensClausesAt | app/vStack/Controllers/ResourceController.php:32-38 | exactly one clause per lens field the request sets, in lens order: the `j`-th clause is the equality for the `j`-th set field, with the request's value; an absent or null field gives none |
| ListQuery.ActiveLensesConcat | app/vStack/Controllers/ResourceController.php:32-38 | each lens is decided on its own: the set fields of two lens lists in sequence are those of the first, then those of the second |
| ListQuery.ListQueryShape | app/vStack/Controllers/ResourceController.php:27-39 | the query is, in order: the order clause, every filter, one `%term%` LIKE per search column (term `_`, or "" when absent or falsy), the active lenses, then pagination by the page size |
| ListQuery.SelectMembers | app/vStack/Controllers/ResourceController.php:39 | a row is selected exactly when it is in the table and passes every clause |
| ListQuery.AdmitsAllConcat | app/vStack/Controllers/ResourceController.php:28-38 | chained clauses narrow: passing two clause runs in sequence means passing both |
| ListQuery.SqlEqualsCoerces | app/vStack/Controllers/ResourceController.php:36 | SQL `=` never holds against NULL, and an integer column equals the digits the request sends for it, both ways round |
| ListQuery.AdmitsLens | app/vStack/Controllers/ResourceController.php:32-38 | a row passes the lens clauses exactly when, for every lens field the request sets, the column is SQL-equal (`SqlEquals`: not null, same text) to the request's value |
| ListQuery.AdmitsSearch | app/vStack/Controllers/ResourceController.php:29-31 | a row passes the search clauses exactly when every search column is LIKE the pattern |
| ListQuery.SelectListQuery | app/vStack/Controllers/ResourceController.php:27-39 | a row is listed exactly when every filter keeps it, every search column (ANDed) matches `%term%`, and every set lens field is SQL-equal to the request's value |
| ListQuery.SearchIsSubstring | app/vStack/Controllers/ResourceController.php:30 | for a wildcard-free term, a non-null column matches exactly when its text contains the term |
| FieldRendering.MakeViewDataFields | app/vStack/Controllers/ResourceController.php:186-209 | the loop yields the field list unchanged without content; otherwise the label-to-value map, or the first failing field's failure |
| FieldRendering.FieldValueFailure | app/vStack/Controllers/ResourceController.php:198-202 | only a `belongsTo` field fails: 500 exactly when its model class is unknown to `app()->make`, 404 exactly when the model is known and `findOrFail` finds no row |
| FieldRendering.FailureStays | app/vStack/Controllers/ResourceController.php:189-200 | the first failing field ends the rendering with its own failure, whatever follows |
| FieldRendering.RenderFailure | app/vStack/Controllers/ResourceController.php:189-207 | a failed rendering reports the failure of a field before which everything rendered |
| FieldRendering.RenderFailsIff | app/vStack/Controllers/ResourceController.php:190-207 | the view fails exactly when some field cannot be shown |
| FieldRendering.RenderedKeys | app/vStack/Controllers/ResourceController.php:190-207 | the rendered map's keys are exactly the fields' labels |
| FieldRendering.RenderedLast | app/vStack/Controllers/ResourceController.php:190-207 | each label shows the value of the last field with that label |
| FieldRendering.RenderedField | app/vStack/Controllers/ResourceController.php:191-206 | `check` shows the Sim badge exactly when the attribute is truthy, the Não badge otherwise; `text` and unknown types show the raw attribute; `belongsTo` shows the `name` of the related row its attribute selects |
| FieldRendering.ViewRoutesIdentifyRecord | app/vStack/Controllers/ResourceController.php:176-182 | both action routes extend `route/code`; under one route, different codes never share an action route |
| FieldRendering.NewFormFields | app/vStack/Controllers/ResourceController.php:215 | one fresh field object per declared field, in order, without a value |
| FieldRendering.MakeCrudDataFields | app/vStack/Controllers/ResourceController.php:222-229 | with content, every field object holds the content's attribute as its value, set in place; without content, the objects are untouched |
| CsvImport.ChompStripsTerminator | app/vStack/Controllers/ResourceController.php:87 | `str_getcsv` drops only a trailing "\r\n", "\n" or "\r"; a line without one is parsed whole |
| CsvImport.SplitJoin | app/vStack/Controllers/ResourceController.php:87 | splitting a line loses nothing: the fields joined by the delimiter give the line back, and no field holds the delimiter |
| CsvImport.ImportableColumnsMembers | app/vStack/Controllers/ResourceController.php:62-66 | a column is offered exactly when it is listed, not one of the eight hidden columns, and not falsy ("" or "0") |
| CsvImport.ImportPage | app/vStack/Controllers/ResourceController.php:52-75 | the import page needs `canImport` and `canCreate`; its columns are exactly the importable ones |
| CsvImport.ProbeOutcomes | app/vStack/Controllers/ResourceController.php:79-88 | in order: the gate's failure; "Arquivo inválido..." without a file; "Arquivo maior do que o permitido..." above 137072 bytes, whatever the lines; "Arquivo inválido..." for a falsy first line; otherwise the header, which joins back to the first line without its terminator |
| CsvImport.BuildRow | app/vStack/Controllers/ResourceController.php:116 | the inner loop builds exactly `RowOf` over all headers |
| CsvImport.RowOfKeys | app/vStack/Controllers/ResourceController.php:116 | a row's keys are exactly the header names |
| CsvImport.RowOfValue | app/vStack/Controllers/ResourceController.php:116 | header `y` (its last occurrence) gets column `y` of the line, or null past its end |
| CsvImport.BuildDataRows | app/vStack/Controllers/ResourceController.php:110-118 | the outer loop builds exactly `DataRows`, skipping line 0 |
| CsvImport.DataRowsAt | app/vStack/Controllers/ResourceController.php:110-118 | with a non-empty header, each line after the first gives one row, from that line's columns, so there are lines minus 1 rows; with an empty header, none |
| CsvImport.RemapRow | app/vStack/Controllers/ResourceController.php:124-128 | the field-list loop builds exactly `Remap` |
| CsvImport.RemapKeys | app/vStack/Controllers/ResourceController.php:124-128 | the created record's keys are exactly the targets other than `_IGNORE_`; nothing else enters it |
| CsvImport.RemapValue | app/vStack/Controllers/ResourceController.php:127 | each kept target (its last entry) holds the row's value under the entry's key |
| CsvImport.CreatedLength | app/vStack/Controllers/ResourceController.php:122-135 | as many records are created as creations succeeded |
| CsvImport.CreateRows | app/vStack/Controllers/ResourceController.php:119-135 | every row is tried and a failure never stops the batch; `count` is the number of successes, `count + errors` the number of rows; the table gains exactly the successfully remapped rows, in order, under consecutive fresh keys |
| CsvImport.ImportNoticesSummary | app/vStack/Controllers/ResourceController.php:136-137 | at most two notices: a success notice exactly when `count > 0`, a danger notice exactly when `errors > 0`, with the texts as written |
| CsvImport.ImportJob | app/vStack/Controllers/ResourceController.php:109-138 | the job builds the data rows, creates them as `CreateRows` states, and sends exactly `ImportNotices(count, errors)` |
| CsvImport.ImportAccounting | app/vStack/Controllers/ResourceController.php:112-135 | with a non-empty header, created plus failed rows is the number of lines minus 1 |
| CsvImport.ImportSubmit | app/vStack/Controllers/ResourceController.php:93-103 | the gate; 500 when the request has no `file` entry; the same upload guards as the probe; 500 when it has no `config` entry; each refusal leaving the table untouched; otherwise the job runs and the reply is success |
| CsvImport.SuccessTextDisagrees | app/vStack/Controllers/ResourceController.php:136 | as written, no success notice agrees in number with its count |
| CsvImport.DangerTextDisagrees | app/vStack/Controllers/ResourceController.php:137 | as written, no danger notice agrees in number with its count |
| CsvImport.IntendedTextsAgree | app/vStack/Controllers/ResourceController.php:136-137 | the corrected notices agree in number for every count |
| Crud.Index | app/vStack/Controllers/ResourceController.php:13-19 | the gate's 404 or 403 when `canViewList` fails, before any query; otherwise exactly the list query |
| Crud.CreateForm | app/vStack/Controllers/ResourceController.php:43-50 | needs `canCreate`; the form has a null key, one empty field object per declared field, the resource id and page type "Cadastro" |
| Crud.Edit | app/vStack/Controllers/ResourceController.php:141-149 | needs `canUpdate`, then 404 unless the code selects a row; the form carries that row's key and attributes, page type "Edição" |
| Crud.ViewRecord | app/vStack/Controllers/ResourceController.php:164-172 | needs `canView`, then 404 unless the code selects a row; the page holds the rendered fields and the routes of the row's public `code`, or the rendering's failure (500 for an unknown related model, 404 for a missing related row) |
| Crud.ViewShowsEveryField | app/vStack/Controllers/ResourceController.php:186-208 | a rendered view shows exactly the resource's field labels |
| Crud.Destroy | app/vStack/Controllers/ResourceController.php:151-162 | needs `canDelete`, then 404 unless the code selects a row; the reply reports whether the delete happened, removes exactly that row when it did, and sends the matching notice |
| Crud.Payload | app/vStack/Controllers/ResourceController.php:241 | the fill payload is the request without `resource_id` and `id`, every other parameter unchanged |
| Crud.StoreChecksInOrder | app/vStack/Controllers/ResourceController.php:234-240 | 404 without a truthy, known `resource_id`; the permission (`canUpdate` with a truthy `id`, `canCreate` otherwise) is decided whatever the validation and the table hold; validation before the table is read; a truthy `id` means an update of the row it selects |
| Crud.PlanTargets | app/vStack/Controllers/ResourceController.php:236-241 | a planned save passed validation, never writes `id`, and updates exactly when `id` is truthy, a row that `id` selects |
| Crud.Store | app/vStack/Controllers/ResourceController.php:231-246 | every refusal leaves the table untouched; a creation appends the payload under a fresh key, an update overwrites only that row; each success returns `success == true` and the saved notice |
| Crud.StoreThenEdit | app/vStack/Controllers/ResourceController.php:141-149 | after a save, the edit form opens the saved row: the same `id` (or the row's own key) after an update, the fresh key (integer or digits) after a creation; the table stays uniquely keyed and every attribute written shows the request's value |
| Resources.UpdateKeepsKeys | app/vStack/Controllers/ResourceController.php:242-243 | overwriting a row's attributes but not its key keeps keys unique, locates every key where it was, and locates the row by its own key |
| Resources.CreateUsesFreshKey | app/vStack/Controllers/ResourceController.php:242-243 | a row appended under the next key keeps keys unique and is located by that key, as an integer or as digits |
| Resources.LocateSameKeys | app/vStack/Controllers/ResourceController.php:145 | `findOrFail` depends only on the rows' keys, position by position |
| GlobalSearch.Search | app/vStack/Controllers/ResourceController.php:254-276 | the nested loops build exactly `SearchAll` |
| GlobalSearch.EntriesAt | app/vStack/Controllers/ResourceController.php:266-272 | one entry per matched row, in order, with its name and the link `route + "/" + code` |
| GlobalSearch.HitsMembers | app/vStack/Controllers/ResourceController.php:263-264 | a row matches exactly when its key is a positive integer and every search column (ANDed) is LIKE `%filter%` |
| GlobalSearch.HitsAreSubstringMatches | app/vStack/Controllers/ResourceController.php:263-264 | for a wildcard-free filter: a positive key, and every search column's text contains the filter |
| GlobalSearch.SearchAllSound | app/vStack/Controllers/ResourceController.php:258-273 | every entry comes from a match of a resource that is globally searchable and viewable |
| GlobalSearch.SearchAllComplete | app/vStack/Controllers/ResourceController.php:258-273 | every match of such a resource gives an entry; nothing is dropped |
| GlobalSearch.SearchAllLength | app/vStack/Controllers/ResourceController.php:258-273 | the number of entries is the total number of matches of the contributing resources; nothing is deduplicated |

## Left out

- **Blade views and `page_type`.** The views are not part of this model. The view, create and edit pages carry their `page_type` strings.
- **URLs.** `route('resource.store')` and `route('resource.index', ...)` build URLs from routing tables that are not part of this model. `StoreReply` carries the resource id whose list route the reply links to.
- **Where inputs come from.** The resource identifier and the record code are given inputs; routing and hashids decoding are not modelled.
- **The validator.** `$this->validate` is a parameter: the messages the validator would return. A non-empty list means 422.
- **Queries beyond their clauses.** The database applies order, pagination (the page number is taken from the request) and the declared filters. Each filter's own code is a parameter, `FilterSemantics`. `Select` models what the rows must satisfy; it does not model their order or the page window.
- **LIKE details.** Case-insensitive collations and the `\` escape character are not modelled; `LikeMatch` compares characters exactly.
- **CsvImport.Split.** It is a plain split on the delimiter. `str_getcsv` also handles quoting and escapes; that is not modelled, as those rules are foreign code. A trailing line terminator is dropped before splitting (`Chomp`).
- **CsvImport.Column.** A line shorter than the header gives null for the missing columns. Likewise a field-list key that is not a row key gives null (`Get`). Under Laravel, the "undefined array key" warning becomes an exception that ends the job; that abort is not modelled.
- **Asynchrony.** `dispatch(...)` is modelled as running the job synchronously inside `ImportSubmit`. The reply, success, does not depend on the job's outcome.
- **Notification recipients.** `Auth::user()` and the user id in `Messages::notify` are not modelled.
- **Config decoding.** `json_decode` of the import configuration is not modelled: `ImportConfig` is the decoded value. A missing `config` entry is modelled (500). A malformed one, which decodes to null and makes the queued job fail, is not.
- **CsvImport.ImportSubmit: the file entry.** A missing `file` entry (500) and a falsy one ("Arquivo inválido...") are modelled. A truthy entry that is not an uploaded file, on which `getSize()` raises, is not.
- **Resources.Table.Insert, Resources.Table.Update: mass assignment.** Both store every attribute they are given. Eloquent's mass-assignment guard (`fillable`) is not part of this model.
- **Resources.Table.Insert: assigned keys.** It always assigns the fresh key, even when an import's field list maps a column to `id`.
- **Why creation fails.** It fails nondeterministically; the database constraints that cause failures are not modelled.
- **Crud.Store: failed updates.** `ServerError` is modelled for creations only. `Resources.Table.Update` always succeeds, so a database error during an update is not modelled.
- **Crud.Store: `save()` returning false.** The source ignores the result of `$target->save()` and answers success with the saved notice. A save an Eloquent event cancels therefore still reports success; the model's `Insert` and `Update` never return false without raising.
- **`option_list`.** It is a container lookup plus a query, with nothing to state.
- **Class lookup.** `app()->make($model)` in the view is the `Related` map of each model's rows; a model absent from the map is a class the container cannot build (500).
- **BelongsTo.php.** app/vStack/Fields/BelongsTo.php sets its field's type to `"text"`. Fields built by that class therefore take the raw-value branch. The `belongsTo` branch is modelled for any field whose type is `belongsTo`.
- **FieldRendering.RenderPrefix: label order.** The rendered view is a map from label to value, so it does not keep the order in which PHP's array first received each label.
- **CsvImport.ImportableColumns: array keys.** `array_filter` keeps the original positions as keys; the model returns the kept columns as a sequence, renumbered.
- **ListQuery.SqlEquals: numeric coercion.** `=` compares values by their text. A database comparing an integer column numerically also equals, for example, `"07"` to 7; that is not modelled.
- **Integer widths.** Counters and keys are unbounded integers. PHP's integer overflow to float is not modelled.

## Findings

| source | as written | input that shows it | evidently intended | confidence | as-written member | corrected member |
|---|---|---|---|---|---|---|
| app/vStack/Controllers/ResourceController.php:136 | `count > 1 ? label() . " importado" : singularLabel() . " importados"` | a batch with one created row gives "1 <singular> importados com sucesso !!"; a batch with two gives "2 <plural> importado com sucesso !!" | the participle agrees with the count: "importados" for more than one row, "importado" for one | high, not executed | CsvImport.SuccessTextDisagrees | CsvImport.IntendedTextsAgree |
| app/vStack/Controllers/ResourceController.php:137 | `errors > 1 ? label() . " não pode" : singularLabel() . " não puderam"`, then `" ser importados !!"` | one failed row gives "1 <singular> não puderam ser importados !!"; two give "2 <plural> não pode ser importados !!" | "não puderam ser importados" for more than one row, "não pôde ser importado" for one | high, not executed | CsvImport.DangerTextDisagrees | CsvImport.IntendedTextsAgree |

Both lemmas are stated over `Agrees`, the predicate that a notice ends with the plural ending when the count is above 1 and with the singular ending otherwise. The corrected texts are `IntendedSuccessText` and `IntendedDangerText`. The import job itself, `ImportNotices`, sends the texts as written, because those are what users receive.
