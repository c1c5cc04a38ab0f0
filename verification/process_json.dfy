/**
  The document normalizer: rebuilds every field, form and document into the
  canonical FormDetail shape (`FormFieldProcessor.process_form_field`,
  `FormProcessor.process_form`, `FormDetailProcessor.process_form_detail`).

  The field-key policy is a table: required keys with their defaults, optional
  keys with their keep rule, and a fixed allow-list of extension keys.
  `ProcessField` emits from the tables; `SchemaValue` states, key by key, what
  the policy demands; `AssembledLookup` proves the two agree.

  The Python functions raise on inputs of the wrong shape (a form that is not a
  dict, a truthy `fieldOptions` without a length, ...); `FieldOk`, `FormOk` and
  `DocumentOk` describe exactly the inputs on which they do not raise, and
  `NormalizeFile` turns the rest into `None` as the file-level handler does.
*/
module ProcessJson {
  import opened Wrappers
  import opened Sequences
  import opened JsonModel

  /** How an optional key of a field is kept. */
  datatype Keep =
    | IfNotNull            // kept when `field.get(k) is not None`
    | IfTruthy             // kept when `field.get(k)` is truthy
    | IfTruthyAndNonEmpty  // kept when `field.get(k)` is truthy and its `len` is positive

  /** Required field keys with their defaults, in emission order. */
  const RequiredTable: seq<(string, Json)> := [
    ("formFieldId", Str("")),
    ("fieldName", Str("")),
    ("fieldType", Str("")),
    ("isReadonly", Bool(false)),
    ("isVisible", Bool(false)),
    ("infoDisplayCondition", Bool(false)),
    ("sort", Num(0)),
    ("specialFieldCode", Str(""))
  ]

  /** Optional field keys with their keep rules, in emission order. */
  const OptionalTable: seq<(string, Keep)> := [
    ("defaultValue", IfNotNull),
    ("relatedSource", IfNotNull),
    ("fieldOptions", IfTruthyAndNonEmpty),
    ("fieldGroup", IfTruthy),
    ("parentField", IfTruthy),
    ("displayCondition", IfNotNull),
    ("relatedFormsExtend", IfTruthy),
    ("flowNodeCode", IfTruthy)
  ]

  /** Source keys collected into the extension bucket. */
  const ExtensionAllowList: seq<string> := ["colSpan", "translation"]

  const ExtensionDataKey: string := "extensionData"

  /** The required keys, in emission order: the key column of `RequiredTable` (`RequiredTableKeys`). */
  const RequiredKeys: seq<string> := [
    "formFieldId", "fieldName", "fieldType", "isReadonly",
    "isVisible", "infoDisplayCondition", "sort", "specialFieldCode"
  ]

  /** The optional keys, in emission order: the key column of `OptionalTable` (`OptionalTableKeys`). */
  const OptionalKeys: seq<string> := [
    "defaultValue", "relatedSource", "fieldOptions", "fieldGroup",
    "parentField", "displayCondition", "relatedFormsExtend", "flowNodeCode"
  ]

  /** Every key a processed field may carry, in emission order. */
  const FieldKeyOrder: seq<string> := RequiredKeys + OptionalKeys + [ExtensionDataKey]

  lemma RequiredTableKeys()
    ensures Keys(RequiredTable) == RequiredKeys
  {
  }

  lemma OptionalTableKeys()
    ensures Keys(OptionalTable) == OptionalKeys
  {
  }

  lemma KeyOrderDistinct()
    ensures Distinct(FieldKeyOrder)
  {
  }

  lemma TablesDistinct()
    ensures DistinctKeys(RequiredTable) && DistinctKeys(OptionalTable)
  {
    RequiredTableKeys();
    OptionalTableKeys();
    KeyOrderDistinct();
    DistinctParts(RequiredKeys, OptionalKeys, [ExtensionDataKey]);
  }

  /** The extension keys are outside both tables and differ from `extensionData`. */
  lemma AllowListOutsideTables()
    ensures forall k :: k in ExtensionAllowList ==> k !in RequiredKeys && k !in OptionalKeys && k != ExtensionDataKey
  {
  }

  /** No optional key is also required. */
  lemma OptionalNotRequired(k: string)
    requires k in OptionalKeys
    ensures Get(RequiredTable, k).None?
  {
    RequiredTableKeys();
    KeyOrderDistinct();
    DistinctParts(RequiredKeys, OptionalKeys, [ExtensionDataKey]);
  }

  /** `extensionData` is neither a required nor an optional key. */
  lemma ExtensionDataOutsideTables()
    ensures Get(RequiredTable, ExtensionDataKey).None? && Get(OptionalTable, ExtensionDataKey).None?
  {
    RequiredTableKeys();
    OptionalTableKeys();
    KeyOrderDistinct();
    DistinctParts(RequiredKeys, OptionalKeys, [ExtensionDataKey]);
  }

  /** The keep test of an optional key, applied to `field.get(k)`. */
  predicate Kept(rule: Keep, v: Option<Json>) {
    match v
    case None => false
    case Some(x) =>
      match rule
      case IfNotNull => x != Null
      case IfTruthy => Truthy(x)
      case IfTruthyAndNonEmpty => Truthy(x) && PyLen(x).Some? && PyLen(x).value > 0
  }

  /** `len(field["fieldOptions"])` is only evaluated on a truthy value, and must not raise there. */
  predicate OptionsLenDefined(src: Fields) {
    match Get(src, "fieldOptions")
    case Some(v) => Truthy(v) ==> PyLen(v).Some?
    case None => true
  }

  // ---------------------------------------------------------------------------
  // The field policy, key by key (the reference the emission is checked against)
  // ---------------------------------------------------------------------------

  /** The non-null `colSpan` / `translation` entries of a source field, in source order. */
  function ExtensionEntries(src: Fields): (r: Fields)
    ensures forall p :: p in r <==> p in src && p.0 in ExtensionAllowList && p.1 != Null
    ensures IsSubsequence(r, src)
    ensures DistinctKeys(src) ==> DistinctKeys(r)
  {
    var r := (
      if |src| == 0 then []
      else
        var rest := ExtensionEntries(src[1..]);
        assert src == [src[0]] + src[1..];
        SubsequenceExtend(rest, src[1..], [src[0]]);
        if src[0].0 in ExtensionAllowList && src[0].1 != Null then
          assert ([src[0]] + rest)[1..] == rest;
          [src[0]] + rest
        else
          rest);
    KeysSubsequence(r, src);
    if DistinctKeys(src) then SubsequenceDistinct(Keys(r), Keys(src)); r else r
  }

  /**
    What a key policy says `out[k]` is, for any key `k`: the source value or
    the default for a required key; the source value, when its keep test
    passes, for an optional key; the extension entries, when there are any,
    under `extensionData`; and nothing for every other key.
  */
  function SchemaValue(req: seq<(string, Json)>, opt: seq<(string, Keep)>, src: Fields, k: string): Option<Json> {
    match Get(req, k)
    case Some(d) => Some(GetOr(src, k, d))
    case None =>
      match Get(opt, k)
      case Some(rule) => if Kept(rule, Get(src, k)) then Get(src, k) else None
      case None =>
        var ext := ExtensionEntries(src);
        if k == ExtensionDataKey && |ext| > 0 then Some(Obj(ext)) else None
  }

  /** The conditions under which a pair of tables describes a policy: every key named once, none of them an extension key. */
  predicate WellFormedTables(req: seq<(string, Json)>, opt: seq<(string, Keep)>) {
    && Distinct(Keys(req) + Keys(opt) + [ExtensionDataKey])
    && forall k :: k in ExtensionAllowList ==> k !in Keys(req) && k !in Keys(opt)
  }

  // ---------------------------------------------------------------------------
  // Emission, in the order of optimized_process_json.py
  // ---------------------------------------------------------------------------

  /** Required keys, each `field.get(k, default)`, in table order. */
  function RequiredPart(req: seq<(string, Json)>, src: Fields): (out: Fields)
    ensures Keys(out) == Keys(req)
    ensures forall i :: 0 <= i < |req| ==> out[i].1 == GetOr(src, req[i].0, req[i].1)
  {
    var out := seq(|req|, i requires 0 <= i < |req| => (req[i].0, GetOr(src, req[i].0, req[i].1)));
    assert Keys(out) == Keys(req);
    out
  }

  /** Optional keys whose keep test passes, in table order, each with its source value. */
  function OptionalPart(opt: seq<(string, Keep)>, src: Fields): (out: Fields)
    ensures IsSubsequence(Keys(out), Keys(opt))
  {
    if |opt| == 0 then []
    else
      var k := opt[0].0;
      var head: Fields := if Kept(opt[0].1, Get(src, k)) then [(k, Get(src, k).value)] else [];
      var rest := OptionalPart(opt[1..], src);
      KeysAppend(head, rest);
      KeysAppend([opt[0]], opt[1..]);
      assert [opt[0]] + opt[1..] == opt;
      if |head| == 0 then
        assert head + rest == rest;
        SubsequenceExtend(Keys(rest), Keys(opt[1..]), Keys([opt[0]]));
        head + rest
      else
        SubsequenceRefl(Keys(head));
        SubsequenceConcat(Keys(head), Keys([opt[0]]), Keys(rest), Keys(opt[1..]));
        head + rest
  }

  /** The Python loop over `field.items()` that fills the extension bucket, with its `not in processed_field` test. */
  function ExtensionBucket(src: Fields, emitted: seq<string>): Fields {
    if |src| == 0 then []
    else
      var (k, v) := src[0];
      (if k !in emitted && v != Null && k in ExtensionAllowList then [(k, v)] else [])
        + ExtensionBucket(src[1..], emitted)
  }

  /** Required then optional keys, as emitted before the extension loop runs. */
  function Emitted(req: seq<(string, Json)>, opt: seq<(string, Keep)>, src: Fields): Fields {
    RequiredPart(req, src) + OptionalPart(opt, src)
  }

  /** The emitted keys followed by the `extensionData` entry, present only when the bucket is non-empty. */
  function Assemble(req: seq<(string, Json)>, opt: seq<(string, Keep)>, src: Fields): Fields {
    var emitted := Emitted(req, opt, src);
    var bucket := ExtensionBucket(src, Keys(emitted));
    emitted + if |bucket| > 0 then [(ExtensionDataKey, Obj(bucket))] else []
  }

  // ---------------------------------------------------------------------------
  // Lemmas tying the emission to the policy
  // ---------------------------------------------------------------------------

  /** The `not in processed_field` test never fires on an allow-listed key: the bucket is the reference filter. */
  lemma {:induction false} BucketIsExtensionEntries(src: Fields, emitted: seq<string>)
    requires forall k :: k in ExtensionAllowList ==> k !in emitted
    ensures ExtensionBucket(src, emitted) == ExtensionEntries(src)
    decreases |src|
  {
    if |src| > 0 {
      BucketIsExtensionEntries(src[1..], emitted);
    }
  }

  lemma DistinctParts(a: seq<string>, b: seq<string>, c: seq<string>)
    requires Distinct(a + b + c)
    ensures Distinct(a) && Distinct(b)
    ensures forall k :: k in a ==> k !in b && k !in c
    ensures forall k :: k in b ==> k !in c
  {
    var s := a + b + c;
    forall i, j | 0 <= i < j < |a| ensures a[i] != a[j] {
      assert s[i] == a[i] && s[j] == a[j];
    }
    forall i, j | 0 <= i < j < |b| ensures b[i] != b[j] {
      assert s[|a| + i] == b[i] && s[|a| + j] == b[j];
    }
    forall i, j | 0 <= i < |a| && 0 <= j < |b| ensures a[i] != b[j] {
      assert s[i] == a[i] && s[|a| + j] == b[j];
    }
    forall i, j | 0 <= i < |a| && 0 <= j < |c| ensures a[i] != c[j] {
      assert s[i] == a[i] && s[|a| + |b| + j] == c[j];
    }
    forall i, j | 0 <= i < |b| && 0 <= j < |c| ensures b[i] != c[j] {
      assert s[|a| + i] == b[i] && s[|a| + |b| + j] == c[j];
    }
  }

  /** A required key reads the `get`-with-default value; any other key is absent from the required part. */
  lemma RequiredLookup(req: seq<(string, Json)>, src: Fields, k: string)
    requires DistinctKeys(req)
    ensures Get(RequiredPart(req, src), k) == match Get(req, k) case Some(d) => Some(GetOr(src, k, d)) case None => None
  {
    var out := RequiredPart(req, src);
    if k in Keys(req) {
      var i :| 0 <= i < |req| && Keys(req)[i] == k;
      GetAt(req, i);
      GetAt(out, i);
    }
  }

  /** An optional key reads its source value exactly when its keep test passes. */
  lemma {:induction false} OptionalLookup(opt: seq<(string, Keep)>, src: Fields, k: string)
    requires DistinctKeys(opt)
    ensures Get(OptionalPart(opt, src), k) ==
      match Get(opt, k)
      case Some(rule) => if Kept(rule, Get(src, k)) then Get(src, k) else None
      case None => None
    decreases |opt|
  {
    if |opt| > 0 {
      assert DistinctKeys(opt[1..]) by {
        forall i, j | 0 <= i < j < |opt| - 1 ensures Keys(opt[1..])[i] != Keys(opt[1..])[j] {
          assert Keys(opt)[i + 1] != Keys(opt)[j + 1];
        }
      }
      OptionalLookup(opt[1..], src, k);
      var head: Fields := if Kept(opt[0].1, Get(src, opt[0].0)) then [(opt[0].0, Get(src, opt[0].0).value)] else [];
      GetAppend(head, OptionalPart(opt[1..], src), k);
      if opt[0].0 == k {
        assert k !in Keys(opt[1..]) by {
          forall i | 0 <= i < |opt| - 1 ensures Keys(opt[1..])[i] != k {
            assert Keys(opt)[0] != Keys(opt)[i + 1];
          }
        }
      }
    }
  }

  /** Every key of the assembled field reads what the policy says. */
  lemma AssembledLookup(req: seq<(string, Json)>, opt: seq<(string, Keep)>, src: Fields, k: string)
    requires WellFormedTables(req, opt)
    ensures Get(Assemble(req, opt, src), k) == SchemaValue(req, opt, src, k)
  {
    DistinctParts(Keys(req), Keys(opt), [ExtensionDataKey]);
    var r := RequiredPart(req, src);
    var o := OptionalPart(opt, src);
    var emitted := Emitted(req, opt, src);
    var bucket := ExtensionBucket(src, Keys(emitted));
    var ext: Fields := if |bucket| > 0 then [(ExtensionDataKey, Obj(bucket))] else [];
    RequiredLookup(req, src, k);
    OptionalLookup(opt, src, k);
    GetAppend(r + o, ext, k);
    GetAppend(r, o, k);
    KeysAppend(r, o);
    SubsequenceMembers(Keys(o), Keys(opt));
    BucketIsExtensionEntries(src, Keys(emitted));
    if Get(req, k).None? && Get(opt, k).Some? {
      assert k in Keys(opt);
      assert k != ExtensionDataKey;
    }
  }

  /** The assembled field's keys: the required keys first, then a subsequence of the policy's key order. */
  lemma AssembledKeys(req: seq<(string, Json)>, opt: seq<(string, Keep)>, src: Fields)
    requires WellFormedTables(req, opt)
    ensures |Assemble(req, opt, src)| >= |req|
    ensures Keys(Assemble(req, opt, src))[..|req|] == Keys(req)
    ensures IsSubsequence(Keys(Assemble(req, opt, src)), Keys(req) + Keys(opt) + [ExtensionDataKey])
    ensures DistinctKeys(Assemble(req, opt, src))
  {
    var r := RequiredPart(req, src);
    var o := OptionalPart(opt, src);
    var emitted := Emitted(req, opt, src);
    var bucket := ExtensionBucket(src, Keys(emitted));
    var ext: Fields := if |bucket| > 0 then [(ExtensionDataKey, Obj(bucket))] else [];
    KeysAppend(r + o, ext);
    KeysAppend(r, o);
    var ks := Keys(r + o + ext);
    assert ks == Keys(req) + Keys(o) + Keys(ext);
    SubsequenceRefl(Keys(req));
    SubsequenceConcat(Keys(req), Keys(req), Keys(o), Keys(opt));
    assert IsSubsequence(Keys(ext), [ExtensionDataKey]) by {
      if |ext| > 0 {
        assert Keys(ext) == [ExtensionDataKey];
        SubsequenceRefl(Keys(ext));
      }
    }
    SubsequenceConcat(Keys(req) + Keys(o), Keys(req) + Keys(opt), Keys(ext), [ExtensionDataKey]);
    SubsequenceDistinct(ks, Keys(req) + Keys(opt) + [ExtensionDataKey]);
  }

  /** The field policy of optimized_process_json.py is well formed. */
  lemma FieldTablesWellFormed()
    ensures WellFormedTables(RequiredTable, OptionalTable)
    ensures Keys(RequiredTable) + Keys(OptionalTable) + [ExtensionDataKey] == FieldKeyOrder
  {
    RequiredTableKeys();
    OptionalTableKeys();
    KeyOrderDistinct();
    TablesDistinct();
    AllowListOutsideTables();
  }

  // ---------------------------------------------------------------------------
  // The three processors
  // ---------------------------------------------------------------------------

  /** `out[k]` is `src[k]` verbatim when present, a stored null included, and `d` when absent. */
  predicate CopiedOrDefaulted(out: Fields, src: Fields, k: string, d: Json) {
    Get(out, k) == Some(match Get(src, k) case Some(v) => v case None => d)
  }

  /** `out[k]` exists exactly when `src[k]` exists and is not null, and then it is `src[k]`. */
  predicate KeptIfNotNull(out: Fields, src: Fields, k: string) {
    Get(out, k) == if Get(src, k).Some? && Get(src, k).value != Null then Get(src, k) else None
  }

  /** `out[k]` exists exactly when `src[k]` exists and is truthy, and then it is `src[k]`. */
  predicate KeptIfTruthy(out: Fields, src: Fields, k: string) {
    Get(out, k) == if Get(src, k).Some? && Truthy(Get(src, k).value) then Get(src, k) else None
  }

  /**
    `FormFieldProcessor.process_form_field` on a dict: every key of the result
    reads what the field policy says, the eight required keys come first, and
    the keys follow the policy's emission order.
  */
  function ProcessField(src: Fields): (out: Fields)
    requires OptionsLenDefined(src)
    ensures |out| >= 8 && Keys(out)[..8] == RequiredKeys
    ensures IsSubsequence(Keys(out), FieldKeyOrder)
    ensures DistinctKeys(out)
  {
    FieldTablesWellFormed();
    RequiredTableKeys();
    AssembledKeys(RequiredTable, OptionalTable, src);
    assert |RequiredTable| == 8;
    Assemble(RequiredTable, OptionalTable, src)
  }

  /** Every key of a processed field reads what the field policy says. */
  lemma FieldMatchesPolicy(src: Fields, k: string)
    requires OptionsLenDefined(src)
    ensures Get(ProcessField(src), k) == SchemaValue(RequiredTable, OptionalTable, src, k)
  {
    FieldTablesWellFormed();
    AssembledLookup(RequiredTable, OptionalTable, src, k);
  }

  /** A required key of the field policy is copied when present and defaulted when absent. */
  lemma RequiredKeyDefaulted(src: Fields, i: nat)
    requires OptionsLenDefined(src) && i < |RequiredTable|
    ensures CopiedOrDefaulted(ProcessField(src), src, RequiredTable[i].0, RequiredTable[i].1)
  {
    TablesDistinct();
    GetAt(RequiredTable, i);
    FieldMatchesPolicy(src, RequiredTable[i].0);
  }

  /** The identity keys are always present, copied verbatim (a stored null included) or defaulted to `""`. */
  lemma IdentityKeysDefaulted(src: Fields)
    requires OptionsLenDefined(src)
    ensures var out := ProcessField(src);
      && CopiedOrDefaulted(out, src, "formFieldId", Str(""))
      && CopiedOrDefaulted(out, src, "fieldName", Str(""))
      && CopiedOrDefaulted(out, src, "fieldType", Str(""))
      && CopiedOrDefaulted(out, src, "specialFieldCode", Str(""))
  {
    RequiredKeyDefaulted(src, 0);
    RequiredKeyDefaulted(src, 1);
    RequiredKeyDefaulted(src, 2);
    RequiredKeyDefaulted(src, 7);
  }

  /** The flag keys and `sort` are always present, copied verbatim (a stored null included) or defaulted to `false` / `0`. */
  lemma FlagKeysDefaulted(src: Fields)
    requires OptionsLenDefined(src)
    ensures var out := ProcessField(src);
      && CopiedOrDefaulted(out, src, "isReadonly", Bool(false))
      && CopiedOrDefaulted(out, src, "isVisible", Bool(false))
      && CopiedOrDefaulted(out, src, "infoDisplayCondition", Bool(false))
      && CopiedOrDefaulted(out, src, "sort", Num(0))
  {
    RequiredKeyDefaulted(src, 3);
    RequiredKeyDefaulted(src, 4);
    RequiredKeyDefaulted(src, 5);
    RequiredKeyDefaulted(src, 6);
  }

  /** An optional key of the field policy reads its source value exactly when its keep rule passes. */
  lemma OptionalKeyValue(src: Fields, i: nat)
    requires OptionsLenDefined(src) && i < |OptionalTable|
    ensures var (k, rule) := OptionalTable[i];
      Get(ProcessField(src), k) == if Kept(rule, Get(src, k)) then Get(src, k) else None
  {
    TablesDistinct();
    OptionalTableKeys();
    GetAt(OptionalTable, i);
    assert OptionalTable[i].0 == OptionalKeys[i];
    OptionalNotRequired(OptionalTable[i].0);
    FieldMatchesPolicy(src, OptionalTable[i].0);
  }

  /** An optional key whose rule is "not null" survives exactly when present and not null. */
  lemma NotNullRuleKept(src: Fields, i: nat)
    requires OptionsLenDefined(src) && i < |OptionalTable| && OptionalTable[i].1 == IfNotNull
    ensures KeptIfNotNull(ProcessField(src), src, OptionalTable[i].0)
  {
    OptionalKeyValue(src, i);
  }

  /** An optional key whose rule is "truthy" survives exactly when present and truthy. */
  lemma TruthyRuleKept(src: Fields, i: nat)
    requires OptionsLenDefined(src) && i < |OptionalTable| && OptionalTable[i].1 == IfTruthy
    ensures KeptIfTruthy(ProcessField(src), src, OptionalTable[i].0)
  {
    OptionalKeyValue(src, i);
  }

  /** `defaultValue`, `relatedSource` and `displayCondition` survive exactly when present and not null; `""`, `false` and `0` survive. */
  lemma NotNullKeysKept(src: Fields)
    requires OptionsLenDefined(src)
    ensures var out := ProcessField(src);
      && KeptIfNotNull(out, src, "defaultValue")
      && KeptIfNotNull(out, src, "relatedSource")
      && KeptIfNotNull(out, src, "displayCondition")
  {
    NotNullRuleKept(src, 0);
    NotNullRuleKept(src, 1);
    NotNullRuleKept(src, 5);
  }

  /** On a value whose length is defined whenever it is truthy, "truthy and non-empty" is just "truthy". */
  lemma NonEmptyMeansTruthy(v: Option<Json>)
    requires v.Some? && Truthy(v.value) ==> PyLen(v.value).Some?
    ensures Kept(IfTruthyAndNonEmpty, v) <==> v.Some? && Truthy(v.value)
  {
  }

  /**
    `fieldOptions` survives exactly when truthy: on the values `len` accepts,
    the extra `len(...) > 0` test agrees with truthiness, so an empty list
    yields no key at all.
  */
  lemma FieldOptionsKept(src: Fields)
    requires OptionsLenDefined(src)
    ensures KeptIfTruthy(ProcessField(src), src, "fieldOptions")
  {
    OptionalKeyValue(src, 2);
    NonEmptyMeansTruthy(Get(src, "fieldOptions"));
  }

  /** `fieldGroup` and `parentField` survive exactly when truthy. */
  lemma GroupKeysKept(src: Fields)
    requires OptionsLenDefined(src)
    ensures var out := ProcessField(src);
      && KeptIfTruthy(out, src, "fieldGroup")
      && KeptIfTruthy(out, src, "parentField")
  {
    TruthyRuleKept(src, 3);
    TruthyRuleKept(src, 4);
  }

  /** `relatedFormsExtend` and `flowNodeCode` survive exactly when truthy. */
  lemma LinkKeysKept(src: Fields)
    requires OptionsLenDefined(src)
    ensures var out := ProcessField(src);
      && KeptIfTruthy(out, src, "relatedFormsExtend")
      && KeptIfTruthy(out, src, "flowNodeCode")
  {
    TruthyRuleKept(src, 6);
    TruthyRuleKept(src, 7);
  }

  /** Every key outside the field policy is dropped. */
  lemma UnknownKeysDropped(src: Fields, k: string)
    requires OptionsLenDefined(src) && k !in FieldKeyOrder
    ensures Get(ProcessField(src), k).None?
  {
    var out := ProcessField(src);
    SubsequenceMembers(Keys(out), FieldKeyOrder);
  }

  /** `extensionData` holds exactly the non-null `colSpan` / `translation` entries, in source order, and only when there are some. */
  lemma ExtensionDataCollected(src: Fields)
    requires OptionsLenDefined(src)
    ensures var out := ProcessField(src);
      var ext := ExtensionEntries(src);
      && Get(out, ExtensionDataKey) == (if |ext| > 0 then Some(Obj(ext)) else None)
      && (forall p :: p in ext <==> p in src && p.0 in ExtensionAllowList && p.1 != Null)
      && IsSubsequence(ext, src)
  {
    ExtensionDataOutsideTables();
    FieldMatchesPolicy(src, ExtensionDataKey);
  }

  // ---------------------------------------------------------------------------
  // Forms and documents
  // ---------------------------------------------------------------------------

  /** A field `process_form_field` accepts without raising: a dict whose truthy `fieldOptions` has a length. */
  predicate FieldOk(field: Json) {
    field.Obj? && OptionsLenDefined(field.fields)
  }

  /** A form `process_form` accepts without raising: a dict whose truthy `formFields` is a list of such fields. */
  predicate FormOk(form: Json) {
    && form.Obj?
    && (HasTruthy(form.fields, "formFields") ==>
          var v := Get(form.fields, "formFields").value;
          v.Arr? && forall i {:trigger v.items[i]} :: 0 <= i < |v.items| ==> FieldOk(v.items[i]))
  }

  /**
    A document `process_form_detail` accepts without raising. The guard
    `"forms" in data` is Python's `in`, so a list or string document that does
    not contain `"forms"` is accepted as well (and yields no forms); when the
    guard holds, `data["forms"]` must be a dict entry whose truthy value is a
    list of acceptable forms.
  */
  predicate DocumentOk(data: Json) {
    match PyIn("forms", data)
    case None => false
    case Some(found) =>
      found ==>
        && data.Obj?
        && (HasTruthy(data.fields, "forms") ==>
              var v := Get(data.fields, "forms").value;
              v.Arr? && forall i {:trigger v.items[i]} :: 0 <= i < |v.items| ==> FormOk(v.items[i]))
  }

  /** `process_form_field` on one list element, which an accepted form guarantees to be a dict. */
  function ProcessFieldItem(item: Json): (r: Json)
    requires FieldOk(item)
    ensures CanonicalField(r)
  {
    Obj(ProcessField(item.fields))
  }

  /** The list comprehension over `formFields`: element-wise `process_form_field`, same length and order. */
  function ProcessFields(items: seq<Json>): (out: seq<Json>)
    requires forall i {:trigger items[i]} :: 0 <= i < |items| ==> FieldOk(items[i])
    ensures |out| == |items|
    ensures forall i :: 0 <= i < |items| ==> out[i] == ProcessFieldItem(items[i])
  {
    MapSeq(ProcessFieldItem, items)
  }

  /** The five keys of a processed form, in emission order. */
  const FormKeys: seq<string> := ["formId", "formName", "description", "formFields", "fieldGroups"]

  /** The processed `formFields` list: element-wise over a truthy source list, otherwise empty. */
  function FormFieldsOut(src: Fields): (r: seq<Json>)
    requires FormOk(Obj(src))
    ensures !HasTruthy(src, "formFields") ==> r == []
    ensures HasTruthy(src, "formFields") ==>
      var items := Get(src, "formFields").value.items;
      |r| == |items| && forall i :: 0 <= i < |items| ==> r[i] == ProcessFieldItem(items[i])
  {
    if HasTruthy(src, "formFields") then ProcessFields(Get(src, "formFields").value.items) else []
  }

  /**
    `FormProcessor.process_form`: exactly the five form keys, in order, with
    the identity keys copied or defaulted to `""`, the processed `formFields`
    list, and `fieldGroups` passed through when truthy or `[]` otherwise.
  */
  function ProcessForm(form: Json): (r: Json)
    requires FormOk(form)
    ensures r.Obj? && Keys(r.fields) == FormKeys
  {
    var src := form.fields;
    Obj([
      ("formId", GetOr(src, "formId", Str(""))),
      ("formName", GetOr(src, "formName", Str(""))),
      ("description", GetOr(src, "description", Str(""))),
      ("formFields", Arr(FormFieldsOut(src))),
      ("fieldGroups", if HasTruthy(src, "fieldGroups") then Get(src, "fieldGroups").value else Arr([]))
    ])
  }

  lemma FormKeysDistinct()
    ensures Distinct(FormKeys)
  {
  }

  /** Each entry of a processed form is what a lookup of its key finds. */
  lemma FormEntryAt(form: Json, i: nat)
    requires FormOk(form) && i < |FormKeys|
    ensures Get(ProcessForm(form).fields, FormKeys[i]) == Some(ProcessForm(form).fields[i].1)
  {
    FormKeysDistinct();
    GetAt(ProcessForm(form).fields, i);
  }

  /** The identity keys of a processed form are copied from the source form, or defaulted to `""`. */
  lemma FormIdentityKeys(form: Json)
    requires FormOk(form)
    ensures var out := ProcessForm(form).fields;
      && CopiedOrDefaulted(out, form.fields, "formId", Str(""))
      && CopiedOrDefaulted(out, form.fields, "formName", Str(""))
      && CopiedOrDefaulted(out, form.fields, "description", Str(""))
  {
    FormEntryAt(form, 0);
    FormEntryAt(form, 1);
    FormEntryAt(form, 2);
  }

  /** The processed form's `formFields` holds the element-wise processed source fields, or `[]` when the source has no truthy list. */
  lemma FormFieldsProcessed(form: Json)
    requires FormOk(form)
    ensures Get(ProcessForm(form).fields, "formFields") == Some(Arr(FormFieldsOut(form.fields)))
  {
    FormEntryAt(form, 3);
  }

  /** A truthy `fieldGroups` passes through unchanged; otherwise the processed form holds `[]`. */
  lemma FormGroupsPassed(form: Json)
    requires FormOk(form)
    ensures HasTruthy(form.fields, "fieldGroups") ==> Get(ProcessForm(form).fields, "fieldGroups") == Get(form.fields, "fieldGroups")
    ensures !HasTruthy(form.fields, "fieldGroups") ==> Get(ProcessForm(form).fields, "fieldGroups") == Some(Arr([]))
  {
    FormEntryAt(form, 4);
  }

  /** The list comprehension over `forms`: element-wise `process_form`, same length and order. */
  function ProcessForms(forms: seq<Json>): (out: seq<Json>)
    requires forall i {:trigger forms[i]} :: 0 <= i < |forms| ==> FormOk(forms[i])
    ensures |out| == |forms|
    ensures forall i :: 0 <= i < |forms| ==> out[i] == ProcessForm(forms[i])
  {
    MapSeq(ProcessForm, forms)
  }

  /**
    `FormDetailProcessor.process_form_detail`: an object whose only key is
    `forms`, holding the element-wise processed source forms, or `[]` when the
    source has no truthy `forms`.
  */
  function ProcessFormDetail(data: Json): (r: Json)
    requires DocumentOk(data)
    ensures r.Obj? && Keys(r.fields) == ["forms"]
    ensures r.fields[0].1.Arr?
    ensures var out := r.fields[0].1.items;
      if data.Obj? && HasTruthy(data.fields, "forms") then
        var src := Get(data.fields, "forms").value.items;
        |out| == |src| && forall i :: 0 <= i < |src| ==> out[i] == ProcessForm(src[i])
      else out == []
  {
    // On an accepted document, `"forms" in data` can only hold for a dict.
    if data.Obj? && HasTruthy(data.fields, "forms") then
      Obj([("forms", Arr(ProcessForms(Get(data.fields, "forms").value.items)))])
    else
      Obj([("forms", Arr([]))])
  }

  // ---------------------------------------------------------------------------
  // The canonical shape of the output
  // ---------------------------------------------------------------------------

  /** A field in canonical shape: the eight required keys first, distinct keys, in the policy's emission order. */
  predicate CanonicalField(j: Json) {
    && j.Obj?
    && |j.fields| >= 8
    && Keys(j.fields)[..8] == RequiredKeys
    && IsSubsequence(Keys(j.fields), FieldKeyOrder)
    && DistinctKeys(j.fields)
  }

  /** A form in canonical shape: exactly the five form keys, and a `formFields` list of canonical fields. */
  predicate CanonicalForm(j: Json) {
    && j.Obj?
    && Keys(j.fields) == FormKeys
    && j.fields[3].1.Arr?
    && forall i :: 0 <= i < |j.fields[3].1.items| ==> CanonicalField(j.fields[3].1.items[i])
  }

  /** A document in canonical shape: only the key `forms`, holding a list of canonical forms. */
  predicate CanonicalDocument(j: Json) {
    && j.Obj?
    && Keys(j.fields) == ["forms"]
    && j.fields[0].1.Arr?
    && forall i :: 0 <= i < |j.fields[0].1.items| ==> CanonicalForm(j.fields[0].1.items[i])
  }

  /** Every processed form is in canonical shape, down to each of its fields. */
  lemma FormCanonical(form: Json)
    requires FormOk(form)
    ensures CanonicalForm(ProcessForm(form))
  {
  }

  /** Every normalized document is in canonical shape, down to each form and field. */
  lemma DocumentCanonical(data: Json)
    requires DocumentOk(data)
    ensures CanonicalDocument(ProcessFormDetail(data))
  {
    var out := ProcessFormDetail(data);
    var forms := out.fields[0].1.items;
    forall i | 0 <= i < |forms|
      ensures CanonicalForm(forms[i])
    {
      var src := Get(data.fields, "forms").value.items;
      FormCanonical(src[i]);
    }
  }

  /**
    The normalizing part of `process_json_file`: the processed document, or
    `None` when `process_form_detail` raises and the broad handler catches it.
  */
  function NormalizeFile(data: Json): (r: Option<Json>)
    ensures r.Some? <==> DocumentOk(data)
    ensures r.Some? ==> r.value == ProcessFormDetail(data) && CanonicalDocument(r.value)
    ensures data.Obj? && !HasTruthy(data.fields, "forms") ==> r == Some(Obj([("forms", Arr([]))]))
    ensures data.Str? && !HasSubstring(data.s, "forms") ==> r == Some(Obj([("forms", Arr([]))]))
    ensures data.Arr? && Str("forms") !in data.items ==> r == Some(Obj([("forms", Arr([]))]))
    ensures data.Null? || data.Bool? || data.Num? ==> r.None?
  {
    if DocumentOk(data) then DocumentCanonical(data); Some(ProcessFormDetail(data)) else None
  }
}
