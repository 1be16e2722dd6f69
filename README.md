# REBUILD form builder, record list and image sizing, in Dafny

This project models three parts of the REBUILD business-data platform and
proves properties of them.

- **The form/view model builder** (`FormsBuilder`). Given an entity, a user,
  an optional record id and a view flag, `buildModel` does five things in
  order:
  - checks the permission that fits the mode;
  - loads the stored form layout;
  - fetches the record through a projection query (`findRecord`);
  - walks the layout elements, dropping dividers (in forms) and unknown
    fields and filling in each field's label, type, nullability, readonly
    flag, extension config, options, date formats and value
    (`wrapFieldValue`, default options, system values, expression defaults);
  - attaches the master/slave flags, `lastModified` and a null id.

  Every failure is an `{error}` object (`formatModelError`). The master id a
  new slave record will belong to is held in one slot of the builder
  (`setCurrentMasterId`).
- **The record list** (`RbList` and `RbListPagination` in `rb-list.jsx`).
  It covers:
  - the column sort markers (`fieldSort`);
  - the sort token and field list of the list query (`fetchList`);
  - the `[id, checked]` flags of the loaded rows (`fetchList`, `clickRow`,
    `toggleAllRow`);
  - the selection and the enabled buttons derived from it
    (`componentDidUpdate`);
  - the paging guards (`setPageNo`, `setPageSize`, `prev`, `next`, `goto`).
- **The image-size decision** of `FileDownloader.viewImg`:
  - external URLs are redirected;
  - only `imageView2` queries are honoured;
  - the width comes from `parseWidth`;
  - the choice between the original file and a thumbnail, and the
    thumbnail's sizing and output format.

Everything the builder consults is a function-valued field of one value,
`FormsMeta.Env`:
- the metadata lookups and the user store;
- the security manager's permission checks;
- the layout store and the query factory;
- the pick-list and classification managers;
- the expression defaults and the generic value formatter.

A Java exception that the builder lets escape is the explicit outcome
`Aborted(fault)`, not a precondition. The imperative parts keep their form:
- the layout walk, the extension-config overlay, the default-option search
  and the query buffer are methods with loops;
- the builder is a class whose master-id slot `buildModel` consumes;
- the list is a class over arrays of columns and rows that its methods
  update in place.

Each method is proved equal to a specification function. The properties are
proved about those functions.

Modules and files:
- `wrappers.dfy`: `Option`.
- `text.dfy`: the string, case, blank and integer-text helpers of the Java
  and JavaScript libraries used.
- `json.dfy`: JSON values.
- `forms_meta.dfy`: schema, records, users, layouts, faults, the
  environment, and `formatModelError`.
- `forms_values.dfy`: `wrapFieldValue`.
- `forms_query.dfy`: `findRecord`.
- `forms_model.dfy`: `buildModel` and the `FormsBuilder` class.
- `forms_properties.dfy`: the properties of `buildModel`.
- `data_list.dfy`: `rb-list.jsx`.
- `file_downloader.dfy`: `viewImg` and `parseWidth`.

## Model

| member | source | states |
|---|---|---|
| FormsMeta.FormatModelError | src/main/java/com/rebuild/server/configuration/portals/FormsBuilder.java:284-288 | the error object has exactly one key, `error`, holding the message |
| FormsMeta.GetString | src/main/java/com/rebuild/server/configuration/portals/FormsBuilder.java:154 | reading a JSON value as text gives null exactly for a JSON null, and a string as itself |
| FormsMeta.StringOf | src/main/java/com/rebuild/server/configuration/portals/FormsBuilder.java:154 | `getString(key)` is null exactly when the key is missing or holds null |
| FormsValues.WrapFieldValue | src/main/java/com/rebuild/server/configuration/portals/FormsBuilder.java:351-391 | the result is null exactly when the record holds no value for the field; it fails exactly when a pick-list or classification value is not an id, and then with a cast error |
| FormsValues.IdLabel | src/main/java/com/rebuild/server/configuration/portals/FormsBuilder.java:373-376 | an id's label is its own label, or else its literal upper-cased inside square brackets |
| FormsValues.PickListValue | src/main/java/com/rebuild/server/configuration/portals/FormsBuilder.java:356-364 | a pick-list value is its label in a view (the missing-reference text when the label is blank) and its literal id in a form |
| FormsValues.ClassificationValue | src/main/java/com/rebuild/server/configuration/portals/FormsBuilder.java:365-370 | a classification value is its name (or the missing-reference text) in a view and the pair of literal and name in a form |
| FormsValues.OtherIdValue | src/main/java/com/rebuild/server/configuration/portals/FormsBuilder.java:371-380 | any other id value is the triple of literal, label (or bracketed upper-cased literal) and entity name, in both modes |
| FormsValues.FormattedValue | src/main/java/com/rebuild/server/configuration/portals/FormsBuilder.java:381-388 | other values are the formatter's text; for a number or decimal in a form that text loses every comma and nothing else: the result is `RemoveChar(text, ',')`, which keeps every other character in order, and text without a comma is unchanged |
| Text.RemoveCharAppend | src/main/java/com/rebuild/server/configuration/portals/FormsBuilder.java:385 | removing a character from joined text is removing it from each part, so the other characters keep their order and count |
| Text.RemoveCharAbsent | src/main/java/com/rebuild/server/configuration/portals/FormsBuilder.java:385 | text without the character is unchanged |
| FormsValues.BoolForEdit | src/main/java/com/rebuild/server/configuration/portals/FormsBuilder.java:218-220 | a yes/no value in a form becomes "T" exactly when it equals 是, and "F" otherwise |
| FormsQuery.FindRecord | src/main/java/com/rebuild/server/configuration/portals/FormsBuilder.java:296-337 | the method's result is the record lookup below, with the query built in a buffer |
| FormsQuery.RecordLookup | src/main/java/com/rebuild/server/configuration/portals/FormsBuilder.java:296-301 | no record for an empty layout; an unknown entity code of the id fails |
| FormsQuery.ProjectionQuery | src/main/java/com/rebuild/server/configuration/portals/FormsBuilder.java:302-334 | the buffer loop yields exactly the query text over the elements' columns, or the null-pointer fault of the first element without a field name |
| FormsQuery.AppendElement | src/main/java/com/rebuild/server/configuration/portals/FormsBuilder.java:303-324 | one loop turn extends the buffer by the element's columns, each followed by a comma |
| FormsQuery.AppendFieldColumns | src/main/java/com/rebuild/server/configuration/portals/FormsBuilder.java:313-323 | the buffer grows by the field's columns, each followed by a comma |
| FormsQuery.CloseProjection | src/main/java/com/rebuild/server/configuration/portals/FormsBuilder.java:326-334 | the end of the buffer becomes the modification time, or loses its last character, and then gets the condition on the id |
| FormsQuery.NullFieldAborts | src/main/java/com/rebuild/server/configuration/portals/FormsBuilder.java:305-306 | an element without a field name makes the whole query fail with a null-pointer fault |
| FormsQuery.ProjectedStep | src/main/java/com/rebuild/server/configuration/portals/FormsBuilder.java:303-324 | the columns of one more element are those of the prefix followed by that element's columns |
| FormsQuery.PrefixAbortStays | src/main/java/com/rebuild/server/configuration/portals/FormsBuilder.java:303-324 | once a prefix of the elements fails, the whole list fails with the same fault |
| FormsQuery.ColumnsComeFromElements | src/main/java/com/rebuild/server/configuration/portals/FormsBuilder.java:303-324 | a column is in the query exactly when some element contributes it, and every element names a field |
| FormsQuery.FieldColumnsRule | src/main/java/com/rebuild/server/configuration/portals/FormsBuilder.java:306-323 | `$`-prefixed and unknown fields add nothing; a known field adds itself; `&field` is added exactly when the field references an entity other than pick-list items and classification data |
| FormsQuery.QueryEndsWithIdCondition | src/main/java/com/rebuild/server/configuration/portals/FormsBuilder.java:332-334 | the query starts with `select` and ends with ` from <entity> where <primary field> = '<id>'` |
| FormsQuery.JoinAfterSuffixed | src/main/java/com/rebuild/server/configuration/portals/FormsBuilder.java:323-327 | appending the modification time to the comma-terminated columns is the comma-joined list with that column at the end |
| FormsQuery.SuffixedEndsWithComma | src/main/java/com/rebuild/server/configuration/portals/FormsBuilder.java:323-329 | dropping the last character of a non-empty comma-terminated list leaves the comma-joined list |
| FormsQuery.SuffixedAppend | src/main/java/com/rebuild/server/configuration/portals/FormsBuilder.java:323 | appending column by column is appending the whole concatenated list |
| FormsModel.FormsBuilder.constructor | src/main/java/com/rebuild/server/configuration/portals/FormsBuilder.java:395 | no master id is pending at first |
| FormsModel.FormsBuilder.SetCurrentMasterId | src/main/java/com/rebuild/server/configuration/portals/FormsBuilder.java:401-403 | the pending master id becomes the one given |
| FormsModel.FormsBuilder.BuildModel | src/main/java/com/rebuild/server/configuration/portals/FormsBuilder.java:103-278 | the result is the specification `BuildSpec` for the pending master id, and the slot afterwards is `SlotAfter`; a new slave record takes the id; the record is fetched as the caller's id |
| FormsModel.FormsBuilder.BuildFromLayout | src/main/java/com/rebuild/server/configuration/portals/FormsBuilder.java:143-277 | the part after the layout check yields the specification `FromLayout`, which fetches the record as the calling user's id |
| FormsModel.ResolveElements | src/main/java/com/rebuild/server/configuration/portals/FormsBuilder.java:152-258 | the loop that drops and fills elements yields the specification `ResolveAll` |
| FormsModel.ResolveElement | src/main/java/com/rebuild/server/configuration/portals/FormsBuilder.java:153-257 | one loop body yields the specification `ResolveStep` |
| FormsModel.ResolveAllStep | src/main/java/com/rebuild/server/configuration/portals/FormsBuilder.java:152-258 | the walk over one more element is the walk over the prefix followed by that element's step |
| FormsModel.ResolveAbortStays | src/main/java/com/rebuild/server/configuration/portals/FormsBuilder.java:152-258 | once a prefix of the walk fails, the whole walk fails with the same fault |
| FormsModel.MergeExtConfig | src/main/java/com/rebuild/server/configuration/portals/FormsBuilder.java:185-188 | the put loop yields the element overlaid by the extension config |
| FormsModel.OverlayWins | src/main/java/com/rebuild/server/configuration/portals/FormsBuilder.java:185-188 | after the overlay every key of the element and of the config is present, the config's entries win, and the element's other entries stay |
| FormsModel.ApplyTypeAttributes | src/main/java/com/rebuild/server/configuration/portals/FormsBuilder.java:192-212 | the type branch yields `WithTypeAttributes`: options for a pick list, the date or datetime format and its length, the open level |
| FormsModel.ApplyCreateValues | src/main/java/com/rebuild/server/configuration/portals/FormsBuilder.java:225-257 | the create branch yields `WithCreateValues` |
| FormsModel.FindDefaultOption | src/main/java/com/rebuild/server/configuration/portals/FormsBuilder.java:237-245 | the option loop finds the first option flagged as default, or none |
| FormsModel.FirstDefault | src/main/java/com/rebuild/server/configuration/portals/FormsBuilder.java:239-244 | the index found is flagged as default and no earlier option is; none means no option is flagged |
| FormsModel.FirstDefaultIsFirst | src/main/java/com/rebuild/server/configuration/portals/FormsBuilder.java:239-244 | the first default option is found once the options before it are checked |
| FormsProperties.PermissionGateByMode | src/main/java/com/rebuild/server/configuration/portals/FormsBuilder.java:112-135 | a new slave record needs a pending master id and update permission on it; another new record needs create permission; a view needs read permission and an edit update permission; a denial is an object with only `error` |
| FormsProperties.SlaveCreationConsumesMasterId | src/main/java/com/rebuild/server/configuration/portals/FormsBuilder.java:113-116 | creating a slave record clears the pending master id, so a second creation fails on the missing id |
| FormsProperties.OtherCallsKeepMasterId | src/main/java/com/rebuild/server/configuration/portals/FormsBuilder.java:112-135 | edits, views and new records of other entities leave the pending master id in place |
| FormsProperties.MissingLayoutIsNotConfigured | src/main/java/com/rebuild/server/configuration/portals/FormsBuilder.java:137-141 | a layout with no element list or an empty one gives the "not configured" error |
| FormsProperties.MissingRecordIsUnavailable | src/main/java/com/rebuild/server/configuration/portals/FormsBuilder.java:143-148 | a record id whose fetch gives nothing yields the "record unavailable" error, with no elements |
| FormsProperties.RecordFetchedAsCaller | src/main/java/com/rebuild/server/configuration/portals/FormsBuilder.java:143-148 | the record is fetched with the id of the calling user, whatever the user store holds for it; when that fetch finds nothing the result is the "record unavailable" error |
| FormsProperties.EmptyAfterFilteringIsNotConfigured | src/main/java/com/rebuild/server/configuration/portals/FormsBuilder.java:260-262 | a layout whose every element is dropped gives the "not configured" error |
| FormsProperties.DroppedElements | src/main/java/com/rebuild/server/configuration/portals/FormsBuilder.java:156-168 | an element is dropped exactly when it is a divider (any letter case) in a form or names no field of the entity; a divider is kept unchanged in a view |
| FormsProperties.NamelessElementAborts | src/main/java/com/rebuild/server/configuration/portals/FormsBuilder.java:154-157 | an element without a field name fails with a null-pointer fault |
| FormsProperties.KeptIndicesBounded | src/main/java/com/rebuild/server/configuration/portals/FormsBuilder.java:152-168 | the positions of the surviving elements lie inside the layout |
| FormsProperties.SurvivorsKeepLayoutOrder | src/main/java/com/rebuild/server/configuration/portals/FormsBuilder.java:152-168 | the output elements are an order-preserving subsequence of the layout: the j-th comes from layout position `KeptIndices[j]`, those positions increase, and every other element was dropped |
| FormsProperties.KeptElementsMatch | src/main/java/com/rebuild/server/configuration/portals/FormsBuilder.java:152-168 | there is one kept position per output element, and each output element is what its layout element became |
| FormsProperties.KeptIndicesIncrease | src/main/java/com/rebuild/server/configuration/portals/FormsBuilder.java:152-168 | the kept positions increase strictly |
| FormsProperties.OthersAreDropped | src/main/java/com/rebuild/server/configuration/portals/FormsBuilder.java:152-168 | every layout position not kept was dropped by its step |
| FormsProperties.TypeAttributesKeep | src/main/java/com/rebuild/server/configuration/portals/FormsBuilder.java:192-212 | the type branch only adds or sets options, the date formats and the open level |
| FormsProperties.LoadedValueKeeps | src/main/java/com/rebuild/server/configuration/portals/FormsBuilder.java:215-223 | the edit/view branch changes only `value` |
| FormsProperties.CreateValuesKeep | src/main/java/com/rebuild/server/configuration/portals/FormsBuilder.java:225-257 | the create branch changes only `readonly` and `value` |
| FormsProperties.ReadonlyRule | src/main/java/com/rebuild/server/configuration/portals/FormsBuilder.java:176-227 | without an overlay entry, readonly holds exactly for a loaded record's field that cannot be updated or a new record's field that cannot be set on creation; an overlay entry wins, except that a new record's field that cannot be set on creation is always readonly |
| FormsProperties.DescriptiveAttributes | src/main/java/com/rebuild/server/configuration/portals/FormsBuilder.java:172-188 | label, type name and nullability come from the field's metadata unless the overlay gives them |
| FormsProperties.LoadedValueRule | src/main/java/com/rebuild/server/configuration/portals/FormsBuilder.java:215-223 | a loaded field's value is the wrapped value (yes/no as "T"/"F" in a form); without a stored value the element's value is exactly the one it had, the overlay's winning over the layout's |
| FormsProperties.CreatePickListAndSeries | src/main/java/com/rebuild/server/configuration/portals/FormsBuilder.java:226-247 | a new record's pick-list field takes the id of the first default option, and without one keeps exactly the value it had (its system value when it cannot be set on creation); a series field takes the placeholder |
| FormsProperties.CreateExpressionDefault | src/main/java/com/rebuild/server/configuration/portals/FormsBuilder.java:198-256 | other fields take their expression default, cut to the length of the date or datetime format the element ends up with (its own or the overlay's, else 10 or 19 characters); a default shorter than that format fails with an index fault, and a null format with a null-pointer fault |
| FormsProperties.CreateSystemValues | src/main/java/com/rebuild/server/configuration/portals/FormsBuilder.java:224-255 | when a field of a new record that is not a pick list or series has no expression default, its value is its system value if it cannot be set on creation (the time for the creation and modification times, the user's triple for creator, modifier and owner, the department's triple for the owning department, a null-pointer fault without a department) and otherwise the value it had; a pick-list default, the series placeholder or an expression default would overwrite it |
| FormsProperties.FinalFields | src/main/java/com/rebuild/server/configuration/portals/FormsBuilder.java:264-277 | the model holds the surviving elements and a null id; a slave entity gets `isSlave`, otherwise a master entity gets `isMaster` and `slaveMeta`; every flag not set this way, including all three for an entity with neither master nor slave, is only what the layout config already held; `lastModified` is the record's modification time when it has one and otherwise what the config held |
| FormsProperties.FinalFieldsAbort | src/main/java/com/rebuild/server/configuration/portals/FormsBuilder.java:272-274 | the final step fails exactly when the stored modification time is not a date |
| DataList.RbList.constructor | src/main/webapp/assets/js/rb-list.jsx:3-15 | the list starts on page 1 with page size 5, with no rows, nothing checked and no data flag |
| DataList.RbList.FieldSort | src/main/webapp/assets/js/rb-list.jsx:225-234 | the loop leaves the columns as `SortedBy` of the old ones |
| DataList.SortedByMarksExactlyField | src/main/webapp/assets/js/rb-list.jsx:225-234 | after sorting by f the sorted columns are exactly those named f; f's marker becomes "sort-desc" after "sort-asc" and "sort-asc" otherwise; fields are unchanged |
| DataList.SortAlternates | src/main/webapp/assets/js/rb-list.jsx:229-230 | clicking a column again switches between ascending and descending |
| DataList.RbList.BuildListQuery | src/main/webapp/assets/js/rb-list.jsx:92-107 | the query lists every column's field in order and the sort token of the last sorted column, with the list's page and size |
| DataList.LastSortTokenIsLast | src/main/webapp/assets/js/rb-list.jsx:95-98 | the token is null exactly when no column is sorted, and otherwise is the token of the last sorted column |
| DataList.TokenOfOnlySorted | src/main/webapp/assets/js/rb-list.jsx:95-98 | with a single sorted column, the token is that column's |
| DataList.TokenAfterFieldSort | src/main/webapp/assets/js/rb-list.jsx:97 | after `fieldSort(f)` the token is `f:desc` when f was ascending and `f:asc` otherwise |
| DataList.RbList.ApplyListResponse | src/main/webapp/assets/js/rb-list.jsx:110-125 | on success the rows become the wrapped data, which fit the columns, and the total is stored, and an empty result sets the no-data flag; on an error nothing changes |
| DataList.LoadedRowsStartUnchecked | src/main/webapp/assets/js/rb-list.jsx:112-122 | every loaded row starts unchecked, keeps its data cells and takes its id from its last cell, so nothing is selected |
| DataList.LoadedRowsFit | src/main/webapp/assets/js/rb-list.jsx:112-122 | rows answered with one cell per requested field plus the id fit the columns |
| DataList.CheckingKeepsCells | src/main/webapp/assets/js/rb-list.jsx:157-180 | toggling all rows and clicking a row change only the checked flags, so the rows keep fitting the columns |
| DataList.RbList.ToggleAllRow | src/main/webapp/assets/js/rb-list.jsx:157-166 | `checkedAll` flips and every row takes the new flag; nothing else changes |
| DataList.ToggleAllSelection | src/main/webapp/assets/js/rb-list.jsx:157-164 | checking all selects every id in row order; unchecking all selects none |
| DataList.RbList.ClickRow | src/main/webapp/assets/js/rb-list.jsx:167-186 | a click on the label span changes nothing; a checkbox click flips that row only; a row click leaves exactly that row checked |
| DataList.FlipChangesOneRow | src/main/webapp/assets/js/rb-list.jsx:174-177 | a checkbox click adds the row to, or removes it from, the checked rows and leaves every other row unchanged |
| DataList.ClickSelectsOnlyThatRow | src/main/webapp/assets/js/rb-list.jsx:178-183 | after a row click the selection is exactly that row's id |
| DataList.RbList.SelectedRows | src/main/webapp/assets/js/rb-list.jsx:81-85 | the loop collects `CheckedIds` of the rows |
| DataList.RbList.ComponentDidUpdate | src/main/webapp/assets/js/rb-list.jsx:79-90 | for rows holding one cell per column, so that the pair at `fields.length` is the id pair, the stored selection is the checked ids; delete is enabled iff one or more is selected, view iff exactly one |
| DataList.CheckedIdsAreCheckedRows | src/main/webapp/assets/js/rb-list.jsx:81-85 | an id is selected exactly when some checked row has it, with one selected id per checked row |
| DataList.NoCheckedNoIds | src/main/webapp/assets/js/rb-list.jsx:81-85 | with no row checked nothing is selected |
| DataList.OneCheckedOneId | src/main/webapp/assets/js/rb-list.jsx:81-85 | with exactly one row checked the selection is its id |
| DataList.AllCheckedAllIds | src/main/webapp/assets/js/rb-list.jsx:81-85 | with every row checked the selection is every id in row order |
| DataList.SelectionEnablesButtons | src/main/webapp/assets/js/rb-list.jsx:86-88 | delete is enabled exactly when some row is checked, view exactly when one row and no other is |
| DataList.RbList.SetPageNo | src/main/webapp/assets/js/rb-list.jsx:194-200 | the page becomes the one given, or 1 for an absent or zero page |
| DataList.PageNoOrDefault | src/main/webapp/assets/js/rb-list.jsx:197 | an absent or zero page number means 1, any other means itself |
| DataList.RbList.SetPageSize | src/main/webapp/assets/js/rb-list.jsx:201-207 | the list goes back to page 1 and the size becomes the one given, or 20 for an absent or zero size |
| DataList.PageSizeOrDefault | src/main/webapp/assets/js/rb-list.jsx:204 | an absent or zero page size means 20, any other means itself |
| DataList.RbListPagination.constructor | src/main/webapp/assets/js/rb-list.jsx:248-253 | the bar refers to its list and holds the page total it was given |
| DataList.PrevTarget | src/main/webapp/assets/js/rb-list.jsx:281-284 | `prev` asks for nothing exactly on page 1, and otherwise for the page before |
| DataList.NextTarget | src/main/webapp/assets/js/rb-list.jsx:286-289 | `next` asks for nothing exactly on the last page, and otherwise for the page after; an unknown total never stops it |
| DataList.GotoTarget | src/main/webapp/assets/js/rb-list.jsx:291-294 | `goto` asks for nothing exactly for the current page, and otherwise for the page given |
| DataList.RbListPagination.Prev | src/main/webapp/assets/js/rb-list.jsx:281-284 | the list's page is unchanged on page 1 and otherwise goes one back |
| DataList.RbListPagination.Next | src/main/webapp/assets/js/rb-list.jsx:286-289 | the list's page is unchanged on the last page and otherwise goes one forward |
| DataList.RbListPagination.Goto | src/main/webapp/assets/js/rb-list.jsx:291-294 | the list's page is unchanged for the current page and otherwise becomes the page given |
| DataList.PagingStaysInRange | src/main/webapp/assets/js/rb-list.jsx:281-289 | from a page within 1..total, `prev` and `next` ask only for pages within 1..total |
| DataList.NextUndoesPrev | src/main/webapp/assets/js/rb-list.jsx:281-289 | going back and then forward returns to the page left |
| Text.ReplaceLeadingPattern | src/main/webapp/assets/js/rb-list.jsx:97 | replacing a pattern that starts the text leaves the replacement followed by the rest, so `"sort-asc".replace("sort-", "")` is `"asc"` |
| FileDownloader.ParseWidth | src/main/java/com/rebuild/web/common/FileDownloader.java:117-124 | 1000 without `/w/`; otherwise the integer between the first `/w/` and the next `/`; no width exactly where the source throws on ASCII text (other Unicode digits are left out, see below) |
| FileDownloader.ParseWidthReadsWrittenWidth | src/main/java/com/rebuild/web/common/FileDownloader.java:117-124 | a width written as `/w/<n>` after a prefix with no `/w/`, followed by nothing or a `/`, is read back as n |
| Text.JavaParseInt | src/main/java/com/rebuild/web/common/FileDownloader.java:123 | what `Integer.parseInt` reads from text of ASCII digits it accepts is a 32-bit integer |
| Text.IntTextParses | src/main/java/com/rebuild/web/common/FileDownloader.java:123 | the decimal text of a 32-bit integer parses back to it |
| FileDownloader.HonouredQuery | src/main/java/com/rebuild/web/common/FileDownloader.java:62-65 | a query is kept exactly when it starts with `imageView2` |
| FileDownloader.ThumbnailFormat | src/main/java/com/rebuild/web/common/FileDownloader.java:97 | the thumbnail format is png or jpg |
| FileDownloader.ViewImg | src/main/java/com/rebuild/web/common/FileDownloader.java:50-109 | external URLs are redirected to themselves; otherwise a width that cannot be read fails; local or temporary files are served locally with their mime type; everything else goes to cloud storage |
| FileDownloader.IgnoredQueryServesOriginal | src/main/java/com/rebuild/web/common/FileDownloader.java:62-79 | a missing query, or one not starting with `imageView2`, serves the original file |
| FileDownloader.NoWidthServesOriginal | src/main/java/com/rebuild/web/common/FileDownloader.java:75-80 | an `imageView2` query without `/w/` serves the original file |
| FileDownloader.ThumbnailRule | src/main/java/com/rebuild/web/common/FileDownloader.java:75-98 | a thumbnail is made exactly when 0 < width < 1000 and the file exists; it is fitted into width x width exactly when the image is wider, else kept at scale 1.0; png exactly when the mime type mentions png |
| FileDownloader.CloudKeyCarriesQuery | src/main/java/com/rebuild/web/common/FileDownloader.java:101-108 | with cloud storage the honoured query is appended to the storage key after `?` |
| FileDownloader.TypicalPrefixHasNoMarker | src/main/java/com/rebuild/web/common/FileDownloader.java:118-122 | the usual prefix `imageView2/2/w` holds no `/w/` of its own |
| FileDownloader.ThumbnailOfWidth | src/main/java/com/rebuild/web/common/FileDownloader.java:75-98 | a query that reads as width n, with 0 < n < 1000, gives an n x n thumbnail of a wider local image |
| FileDownloader.ResizeRequestMakesThumbnail | src/main/java/com/rebuild/web/common/FileDownloader.java:75-124 | a request `imageView2.../w/<n>...` with 0 < n < 1000 gives an n x n thumbnail of a wider local image |

## Left out

- I/O:
  - The servlet I/O of `viewImg`: cache headers, `sendRedirect`, reading the file, ImageIO and Thumbnailator, and the signed Qiniu URL, which is named by its storage key. `writeLocalFile`, `download` and `setDownloadHeaders` are not modelled. The file's existence and width are parameters.
  - The JSX rendering, the jQuery calls, the draggable column widths, the `$.post` round trip and the notice shown on a failed load. The list's answer is a parameter of `ApplyListResponse`, and the re-fetch that follows a page change or `fieldSort` (rb-list.jsx:236-238) is not modelled.
- The collaborators of `buildModel` are uninterpreted fields of `Env`, because their code is not part of this model:
  - metadata and users: `MetadataHelper`/`EasyMeta`, the user store and the security manager;
  - stores and queries: the layout store and the query factory;
  - value helpers: the pick-list and classification managers, `FormDefaultValue`, and the generic `FieldValueWrapper`.

  `FormDefaultValue` and the generic `FieldValueWrapper` are taken to return text.
- The current time is an already formatted string, because `CalendarUtils` is not part of this model.
- The master id is one slot of the builder object. The per-thread storage of `ThreadLocal` is not modelled.
- Parts of rb-list.jsx not modelled:
  - The page-total computation in `RbListPagination.render` (rb-list.jsx:256-257). The bar takes its page total as given, with `None` for a total that is not a number.
  - `calcPages`, which is not part of this model.
  - `clickView`, `search`, `reload` and `getSelectedId`, which only forward.
- FormsModel.IsDefaultOption: only a JSON `true` counts as a default option. fastjson's coercion of strings and numbers in `getBooleanValue` is not modelled.
- FormsModel.ResolveElements: layout elements are JSON objects by type, so the class-cast failure on a non-object element is not modelled.
- The model is a JSON object value. Key order, `ConfigEntry.set` versus `put`, and `toJSON` are not distinguished: a null is stored as JSON null.
- Matching rules:
  - `containsField` is an exact key lookup in the entity's field map.
  - Letter case (`toUpperCase`, `equalsIgnoreCase`) and `Character.isWhitespace` follow the ASCII range only, and `Integer.parseInt` accepts ASCII digits only.
- The shape of the list's answer:
  - DataList.RbList.ApplyListResponse: the answer's rows are taken to hold one cell per requested field plus the id, as the list endpoint answers; that endpoint is not part of this model.
  - ComponentDidUpdate: reads the pair at index `fields.length`, while `toggleAllRow` and `clickRow` use the last cell. The model covers rows that fit the columns, where the two are the same; rows of another width are not modelled.
- Constants: the default formats "yyyy-MM-dd" and "yyyy-MM-dd HH:mm:ss" and the system field names (`createdOn` and the rest) are written in as constants, because `DisplayType` and `EntityHelper` are not part of this model.
- ViewImg: its `path` parameter is the part of the request URI after "/filex/img/". The index fault of `split("/filex/img/")[1]` on a URI ending in "/filex/img/" (FileDownloader.java:52) is not modelled. Neither is `CodecUtils.urlDecode` (FileDownloader.java:83) before the thumbnail's file lookup: `imageWidth` is the width of the file found under the decoded path.
- FileDownloader.ParseWidth / Text.JavaParseInt: `Integer.parseInt` reads any Unicode decimal digit through `Character.digit`, so a width such as `٣٠٠` or `１００` is a number in the source. The model reads only '0' to '9', so such a width is unreadable and `ViewImg` answers `WidthUnreadable`.
- The `Assert.notNull` checks on the entity name and the user (FormsBuilder.java:104-105) are not outcomes: Dafny's `string` and `RecId` values are never null, so those faults cannot arise in the model.
- FileDownloader.ParseWidth: the exception `parseWidth` throws on a malformed width is the outcome `WidthUnreadable` of `ViewImg`. It is not a precondition.
