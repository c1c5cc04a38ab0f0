/**
  Concrete situations stated about the model: the ones the repository's own
  test suite describes for the merger, and small fields for the normalizer.
  Each input is a parameter constrained by `requires`.
*/
module Scenarios {
  import opened Wrappers
  import opened Sequences
  import opened JsonModel
  import opened ProcessJson
  import opened MergeJson

  /** A source field holding `fieldName` and no other key. */
  ghost predicate NameOnly(src: Fields, name: Json) {
    && Get(src, "fieldName") == Some(name)
    && forall k :: k != "fieldName" ==> Get(src, k).None?
  }

  /** A name-only field keeps its name and gets `""` for the other identity keys. */
  lemma NameOnlyIdentityKeys(src: Fields, name: Json)
    requires NameOnly(src, name)
    ensures OptionsLenDefined(src)
    ensures var out := ProcessField(src);
      && Get(out, "fieldName") == Some(name)
      && Get(out, "formFieldId") == Some(Str(""))
      && Get(out, "fieldType") == Some(Str(""))
      && Get(out, "specialFieldCode") == Some(Str(""))
  {
    assert Get(src, "fieldOptions").None?;
    IdentityKeysDefaulted(src);
    assert Get(src, "formFieldId").None? && Get(src, "fieldType").None? && Get(src, "specialFieldCode").None?;
  }

  /** A name-only field gets `false` for the three flags and `0` for `sort`. */
  lemma NameOnlyFlagKeys(src: Fields, name: Json)
    requires NameOnly(src, name)
    ensures OptionsLenDefined(src)
    ensures var out := ProcessField(src);
      && Get(out, "isReadonly") == Some(Bool(false))
      && Get(out, "isVisible") == Some(Bool(false))
      && Get(out, "infoDisplayCondition") == Some(Bool(false))
      && Get(out, "sort") == Some(Num(0))
  {
    assert Get(src, "fieldOptions").None?;
    FlagKeysDefaulted(src);
    assert Get(src, "isReadonly").None? && Get(src, "isVisible").None?;
    assert Get(src, "infoDisplayCondition").None? && Get(src, "sort").None?;
  }

  /** One optional key of the field policy is absent from a processed name-only field. */
  lemma NameOnlyOptionalAbsent(src: Fields, name: Json, i: nat)
    requires NameOnly(src, name) && i < |OptionalTable|
    ensures OptionsLenDefined(src)
    ensures Get(ProcessField(src), OptionalTable[i].0).None?
  {
    var k := OptionalTable[i].0;
    OptionalTableKeys();
    OptionalNotRequired(k);
    assert Get(RequiredTable, "fieldName").Some?;
    assert Get(src, k).None?;
    OptionalKeyValue(src, i);
  }

  /** A name-only field carries none of the eight optional keys. */
  lemma NameOnlyNoOptionalKey(src: Fields, name: Json)
    requires NameOnly(src, name)
    ensures OptionsLenDefined(src)
    ensures forall i :: 0 <= i < |OptionalTable| ==> Get(ProcessField(src), OptionalTable[i].0).None?
  {
    assert Get(src, "fieldOptions").None?;
    forall i | 0 <= i < |OptionalTable|
      ensures Get(ProcessField(src), OptionalTable[i].0).None?
    {
      NameOnlyOptionalAbsent(src, name, i);
    }
  }

  /** A name-only field has no `extensionData`. */
  lemma NameOnlyNoExtension(src: Fields, name: Json)
    requires NameOnly(src, name)
    ensures OptionsLenDefined(src)
    ensures Get(ProcessField(src), ExtensionDataKey).None?
  {
    assert Get(src, "fieldOptions").None?;
    forall p | p in src
      ensures p.0 !in ExtensionAllowList
    {
      EntryFound(src, p);
    }
    var ext := ExtensionEntries(src);
    EmptyWithoutMembers(ext);
    ExtensionDataCollected(src);
  }

  /** An empty `fieldOptions` list leaves no `fieldOptions` key at all. */
  lemma EmptyOptionsDropped(src: Fields, options: Json)
    requires Get(src, "fieldOptions") == Some(options) && options.Arr? && |options.items| == 0
    ensures OptionsLenDefined(src)
    ensures Get(ProcessField(src), "fieldOptions").None?
  {
    FieldOptionsKept(src);
  }

  /** A stored null `defaultValue` is dropped, while a stored null `fieldName` is copied. */
  lemma NullDefaultDropped(src: Fields)
    requires Get(src, "defaultValue") == Some(Null) && Get(src, "fieldName") == Some(Null)
    requires Get(src, "fieldOptions").None?
    ensures OptionsLenDefined(src)
    ensures var out := ProcessField(src);
      Get(out, "defaultValue").None? && Get(out, "fieldName") == Some(Null)
  {
    NotNullKeysKept(src);
    IdentityKeysDefaulted(src);
  }

  /** A document without `forms` is skipped by the merger but normalized to an empty `forms` list. */
  lemma DocumentWithoutForms(data: Json, appendix: seq<Json>)
    requires data == Obj([("otherData", Str("test"))])
    ensures MergeDocument(data, appendix).None?
    ensures NormalizeFile(data) == Some(Obj([("forms", Arr([]))]))
  {
    assert Get(data.fields, "forms").None?;
  }

  /** One form with one field, merged with a one-field appendix, ends with both fields in order. */
  lemma OneFormMerged(field: Json, extra: Json, form: Json)
    requires form == Obj([("formId", Str("test_form")), ("formFields", Arr([field]))])
    ensures MergeForm(form, [extra]).Some?
    ensures Get(MergeForm(form, [extra]).value.fields, "formFields") == Some(Arr([field, extra]))
  {
    assert Get(form.fields, "formFields") == Some(Arr([field]));
    assert MergedFields(form, [extra]) == [field, extra];
  }
}
