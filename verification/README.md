# FormDetails tool — a Dafny model of the normalizer and the field merger

The FormDetails tool reshapes JSON exports of form definitions ("FormDetail"
documents). Each document holds `forms`, each form holds `formFields`, and each
field is a dict of settings. The tool has two pure stages, and this project
models both of them:

- **The document normalizer** (`optimized_process_json.py`) rebuilds every
  field into the canonical C# `FormField` shape:
  - eight required keys, copied from the source or defaulted;
  - eight optional keys, kept only when a per-key "not null" or "truthy"
    test passes;
  - an `extensionData` bucket holding the non-null `colSpan` / `translation`
    entries;
  - nothing else.

  It then lifts this over forms (`formId`, `formName`, `description`,
  `formFields`, `fieldGroups`) and documents (`forms` only).
- **The field merger** (`merge_json.py`) does three things:
  - It loads an appendix of extra form fields. The file text is trimmed, one
    trailing comma is stripped, the parser tries `"[" + content + "]"`, and
    only if that fails does it try the content on its own.
  - It appends the appendix to the `formFields` list of every form of every
    document.
  - It skips documents without `forms`.

JSON values are the datatype `JsonModel.Json`:
- numbers are integers;
- objects are association lists, so key emission order is part of every
  statement;
- `Truthy` follows Python (null, false, 0, "", [] and {} are falsy).

The text grammar behind `json.loads` is not modelled. It enters as a parameter
`parse: string -> Option<Json>`, where `None` stands for `JSONDecodeError`.
A file is given by its reading outcome (`Missing`, `Unreadable` or its text).
Wherever the Python code raises and its broad handler catches the exception,
the model returns `None`.

Modules:
- `Wrappers` (wrappers.dfy): `Option`.
- `Sequences` (sequences.dfy): distinctness, subsequences, element-wise map.
- `JsonModel` (json.dfy): the JSON datatype, Python truthiness, `len` and `in`,
  and dict lookup and item assignment on association lists.
- `ProcessJson` (process_json.dfy): the normalizer. The field policy is a
  pair of tables, and `SchemaValue` is an independent key-by-key reading of
  the policy that the emitted field is proved to agree with.
- `MergeJson` (merge_json.dfy): the appendix loader, the merge, and the run
  over all documents.
- `Scenarios` (scenarios.dfy): the documents of the repository's test suite
  and small fields, stated as lemmas about the model.

## Model

| member | source | states |
|---|---|---|
| ProcessJson.ProcessField | optimized_process_json.py:36-83 | A processed field has at least eight keys. The eight required keys come first, in the fixed order. All its keys are distinct and follow the policy's emission order, so no key outside the policy appears. |
| ProcessJson.FieldMatchesPolicy | optimized_process_json.py:36-83 | For every key, the processed field holds exactly what the independent key-by-key policy reading `SchemaValue` gives. |
| ProcessJson.RequiredKeyDefaulted | optimized_process_json.py:39-46 | Each required key is copied verbatim when present (a stored null included) and defaulted when absent. |
| ProcessJson.IdentityKeysDefaulted | optimized_process_json.py:39-46 | `formFieldId`, `fieldName`, `fieldType` and `specialFieldCode` are always present: copied verbatim, a stored null included, or `""`. |
| ProcessJson.FlagKeysDefaulted | optimized_process_json.py:42-45 | `isReadonly`, `isVisible` and `infoDisplayCondition` are always present, copied or `false`. `sort` is always present, copied or `0`. |
| ProcessJson.OptionalKeyValue | optimized_process_json.py:49-71 | Each optional key appears, with its source value, exactly when its keep test passes on `field.get(k)`. |
| ProcessJson.NotNullKeysKept | optimized_process_json.py:49-65 | `defaultValue`, `relatedSource` and `displayCondition` appear iff present and not null. Falsy non-null values survive. |
| ProcessJson.FieldOptionsKept | optimized_process_json.py:55-56 | `fieldOptions` appears iff its source value is truthy. The extra `len > 0` test agrees with truthiness, so an empty list yields no key. |
| ProcessJson.GroupKeysKept | optimized_process_json.py:58-62 | `fieldGroup` and `parentField` appear iff truthy, unchanged. |
| ProcessJson.LinkKeysKept | optimized_process_json.py:67-71 | `relatedFormsExtend` and `flowNodeCode` appear iff truthy, unchanged. |
| ProcessJson.UnknownKeysDropped | optimized_process_json.py:36-83 | A key outside the required, optional and `extensionData` keys never appears in a processed field. |
| ProcessJson.ExtensionEntries | optimized_process_json.py:74-79 | The reference filter: the extension entries are exactly the source entries with an allow-listed key and a non-null value, in source order. They have distinct keys when the source does. |
| ProcessJson.BucketIsExtensionEntries | optimized_process_json.py:74-79 | The loop `ExtensionBucket`, with its `key not in processed_field` test, equals the reference filter `ExtensionEntries`. The test never fires, because no allow-listed key is ever emitted before the loop. |
| ProcessJson.ExtensionDataCollected | optimized_process_json.py:73-81 | `extensionData` holds exactly the non-null `colSpan` / `translation` entries in source order, and is absent when there are none. |
| ProcessJson.ProcessFieldItem | optimized_process_json.py:108-111 | One element of the comprehension is a field in canonical shape: the eight required keys first, distinct keys, in the policy's emission order. |
| ProcessJson.ProcessFields | optimized_process_json.py:108-111 | The comprehension over `formFields` has the same length and order, element-wise `process_form_field`. |
| ProcessJson.FormFieldsOut | optimized_process_json.py:107-113 | A form's processed `formFields` is element-wise over a truthy source list, and `[]` otherwise. |
| ProcessJson.ProcessForm | optimized_process_json.py:99-121 | A processed form has exactly the keys `formId`, `formName`, `description`, `formFields`, `fieldGroups`, in that order. |
| ProcessJson.FormIdentityKeys | optimized_process_json.py:102-104 | `formId`, `formName` and `description` are copied verbatim or defaulted to `""`. |
| ProcessJson.FormFieldsProcessed | optimized_process_json.py:106-113 | The processed form's `formFields` is the element-wise processed source list, or `[]`. |
| ProcessJson.FormGroupsPassed | optimized_process_json.py:115-119 | A truthy `fieldGroups` passes through unchanged. Otherwise the form holds `[]`. |
| ProcessJson.ProcessForms | optimized_process_json.py:153-157 | The comprehension over `forms` has the same length and order, element-wise `process_form`. |
| ProcessJson.ProcessFormDetail | optimized_process_json.py:150-161 | The result's only key is `forms`. It holds the element-wise processed source forms when `forms` is truthy, and `[]` otherwise. |
| ProcessJson.FormCanonical | optimized_process_json.py:99-121 | Every processed form is in canonical shape: exactly the five form keys, and a `formFields` list of canonical fields. |
| ProcessJson.DocumentCanonical | optimized_process_json.py:150-161 | Every normalized document is in canonical shape: only `forms`, holding canonical forms whose fields are all canonical. |
| ProcessJson.NormalizeFile | optimized_process_json.py:173-189 | A parsed document yields a result iff `process_form_detail` does not raise on it. The result is `process_form_detail(data)`, which is in canonical shape. A dict without truthy `forms` yields `{"forms": []}`. So does a list or string not containing `"forms"`. A null, boolean or number document yields `None`. |
| MergeJson.TrimLeft | merge_json.py:57 | Only a whitespace prefix is removed, and the result does not start with whitespace. |
| MergeJson.TrimRight | merge_json.py:57 | Only a whitespace suffix is removed, and the result does not end with whitespace. |
| MergeJson.Trim | merge_json.py:57 | `str.strip` leaves neither end whitespace, and removes only whitespace. |
| MergeJson.StripTrailingComma | merge_json.py:60-61 | Exactly one trailing comma is removed when present. Otherwise the text is unchanged. |
| MergeJson.TrailingCommaTolerated | merge_json.py:57-61 | A body followed by `,` and a newline loads from the same content as the bare body. |
| MergeJson.LoadAppendix | merge_json.py:43-80 | A missing or unreadable file gives `None`. A successful bracketed parse gives its items. Otherwise the content's own parse is kept when it is a list and wrapped in a one-element list when it is not, and `None` when both attempts fail. |
| MergeJson.FallbackNotConsulted | merge_json.py:63-70 | The strategy is ordered: once the bracketed text parses, the content's own parse is never consulted. |
| MergeJson.LoneObjectLoads | merge_json.py:63-65 | A file holding one object loads as a one-element list, through the bracketed attempt `[content]`. |
| MergeJson.ArrayAppendixNested | merge_json.py:63-70 | As written: a file holding a JSON array loads as a single appendix element, the whole array. For any other length than one, this is not the array's elements. |
| MergeJson.LoadAppendixIntended | merge_json.py:63-70 | Corrected loader. A file holding an array loads as its elements. A file holding another value loads as a one-element list. A file that does not parse on its own loads as `load_append_data` loads it. Missing and unreadable files give `None`. |
| MergeJson.MergeFormFields | merge_json.py:94-102 | The merged list has length `|o| + |a|`. The originals come first, in order, followed by the appended fields in order. |
| MergeJson.ExtendCopy | merge_json.py:94-98 | Copying the original and extending it element by element yields the concatenation. |
| MergeJson.MergeForm | merge_json.py:127-133 | A form gives a result iff the loop does not raise on it. Its `formFields` becomes `original ++ appendix` for a truthy list, and the appendix for a missing or empty one. |
| MergeJson.MergeFormKeepsRest | merge_json.py:127-133 | Every other key of the form keeps its value. Keys keep their order, and a new `formFields` goes last. |
| MergeJson.MergeForms | merge_json.py:127-133 | The loop raises iff some form is not mergeable. Otherwise the forms are merged element-wise, with the same number and order. |
| MergeJson.MergeDocument | merge_json.py:115-135 | A document gives a result iff it is mergeable. A dict without truthy `forms` gives `None`. Otherwise `forms` holds each form merged, with the same number and order. |
| MergeJson.MergeDocumentKeepsRest | merge_json.py:127-135 | The merged document keeps its keys, in order, and every value other than `forms`. |
| MergeJson.MergeDocumentFile | merge_json.py:115-142 | A document file gives a result iff it reads, parses and is mergeable. That result is the merge of the parsed document with the appendix. |
| MergeJson.MergeRun | merge_json.py:163-197 | Nothing is processed when `load_append_data` (as written) gives no appendix. Otherwise each document file is merged independently with the loaded appendix, in order. |
| MergeJson.MergeEach | merge_json.py:190-195 | Every document file is merged with the same appendix, independently, with the same number and order of results. |
| MergeJson.MergeRunIntended | merge_json.py:163-197 | The run with the corrected loader: nothing is processed when it gives no appendix, and otherwise each document is merged with it, in order. |
| MergeJson.ArrayAppendixRunsDiffer | merge_json.py:63-70 | For an appendix file holding an array, the run as written merges the whole array as one element, and the corrected run merges its elements. |
| MergeJson.MergedFieldsTwice | merge_json.py:127-133 | Two successive merges leave the `formFields` that one merge of both appendices leaves. |
| MergeJson.MergeFormTwice | merge_json.py:127-133 | Merging a form with `a` and then `b` equals merging it with `a + b`. |
| MergeJson.MergeFormsTwice | merge_json.py:127-133 | Merging all forms with `a` and then `b` equals merging them with `a + b`. |
| MergeJson.MergeDocumentTwice | merge_json.py:115-135 | Merging a document with `a` and then `b` equals merging it with `a + b`. |
| Scenarios.NameOnlyIdentityKeys | optimized_process_json.py:39-46 | A field holding only `fieldName` keeps its name and gets `""` for `formFieldId`, `fieldType` and `specialFieldCode`. |
| Scenarios.NameOnlyFlagKeys | optimized_process_json.py:42-45 | A field holding only `fieldName` gets `false` for the three flags and `0` for `sort`. |
| Scenarios.NameOnlyOptionalAbsent | optimized_process_json.py:49-71 | A field holding only `fieldName` carries no given optional key. |
| Scenarios.NameOnlyNoOptionalKey | optimized_process_json.py:49-71 | A field holding only `fieldName` carries none of the eight optional keys. |
| Scenarios.NameOnlyNoExtension | optimized_process_json.py:73-81 | A field holding only `fieldName` has no `extensionData`. |
| Scenarios.EmptyOptionsDropped | optimized_process_json.py:55-56 | An empty `fieldOptions` list leaves no `fieldOptions` key. |
| Scenarios.NullDefaultDropped | optimized_process_json.py:40-50 | A null `defaultValue` is dropped, while a null `fieldName` is copied. |
| Scenarios.DocumentWithoutForms | tests/test_merge_json.py:143-160 | A document without `forms` is skipped by the merger and normalized to `{"forms": []}`. |
| Scenarios.OneFormMerged | tests/test_merge_json.py:108-141 | One form with one field, merged with a one-field appendix, ends with both fields in order. |

## Left out

- Logging (`optimized_process_json.py:13-20`, `merge_json.py:15-22`) and every log message: these are side effects only.
- File and directory plumbing is not modelled: `mkdir`, `glob`, `open`, `json.dump`, `save_processed_file`, `process_all_files`, the input-directory check, the "no JSON files" branch and the counting in `merge_all_files`. `MergeJson.MergeRun` takes the already-listed document files instead.
- The JSON text grammar of `json.loads` and `json.load`: it is a library call, so it is the parameter `parse`.
- Floating-point JSON numbers: numbers are integers.
- Python aliasing: the `.copy()` calls at `merge_json.py:95,133` are shallow. Model values are immutable, so the arguments of `MergeJson.MergeFormFields` are never changed, and no deep-copy independence is claimed.
- The in-place mutation of the parsed document before a later form raises: the handler returns `None`, so the partly mutated document is never observed.
- Duplicate keys in a parsed object: `json.load` keeps the last one. Lookups in the model read the first entry with a key, so the model agrees on objects with distinct keys, which is what `json.load` produces.
- `ProcessJson.ProcessField`, `ProcessJson.ProcessForm` and `ProcessJson.ProcessFormDetail` require the inputs on which the Python code does not raise (`FieldOk`, `FormOk`, `DocumentOk`). The raising inputs are handled by `ProcessJson.NormalizeFile`, which returns `None` for them, as the file-level handler does.
- Idempotence of normalization is not claimed, because it does not hold: a second pass drops `extensionData`, which is not on the allow-list.
- `MergeJson.LoadAppendix` requires that a successful bracketed parse is a list. This is a fact about `json.loads` that an abstract parser cannot supply. Likewise `MergeJson.LoneObjectLoads`, `MergeJson.ArrayAppendixNested` and `MergeJson.ArrayAppendixRunsDiffer` assume that `json.loads`, given a value it can parse put in brackets, returns the one-element array holding it (`ParserWrapsValues`).
- `__main__.py` (argument dispatch), `setup_dev.py` (environment bootstrap) and `src/__init__.py` (package metadata) are not part of this model.

## Findings

| source | as written | input that shows it | evidently intended | confidence | as-written member | corrected member |
|---|---|---|---|---|---|---|
| merge_json.py:63-70 | The bracketed parse `json.loads(f"[{content}]")` is tried first. For any content that is a JSON value on its own, it succeeds, so the fallback and its list test are never reached with a parsable content. | An appendix file `[{"fieldName": "a"}, {"fieldName": "b"}]` loads as one appendix element, the whole array. Every form then receives a nested list as a single field. | A file holding an array loads as its elements, as the fallback's `isinstance(append_data, list)` test expects. | medium, not executed | MergeJson.ArrayAppendixNested | MergeJson.LoadAppendixIntended |
