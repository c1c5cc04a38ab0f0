/**
  The field merger of `merge_json.py`: loading the appendix of extra form
  fields with its tolerant parse strategy, list concatenation of `formFields`,
  and the per-form merge loop of `JSONMerger.process_json_file`.

  JSON text parsing is the library call `json.loads`; it enters the model as
  the parameter `parse`, a function from text to the parsed value, or `None`
  where `json.loads` raises `JSONDecodeError`. Files are given by their
  reading outcome. Every exception the Python code catches becomes `None`.
*/
module MergeJson {
  import opened Wrappers
  import opened Sequences
  import opened JsonModel

  /** What reading a text file yields: it does not exist, reading it raises, or its decoded content. */
  datatype TextFile = Missing | Unreadable | Text(content: string)

  // ---------------------------------------------------------------------------
  // Loading the appendix
  // ---------------------------------------------------------------------------

  /** The characters Python's `str.strip()` removes (those for which `str.isspace()` holds). */
  predicate IsPyWhitespace(c: char) {
    || ('\t' <= c <= '\r')                       // \t \n \v \f \r
    || ('\U{001C}' <= c <= '\U{001F}')           // file, group, record and unit separators
    || c == ' ' || c == '\U{0085}' || c == '\U{00A0}' || c == '\U{1680}'
    || ('\U{2000}' <= c <= '\U{200A}')
    || c == '\U{2028}' || c == '\U{2029}' || c == '\U{202F}' || c == '\U{205F}' || c == '\U{3000}'
  }

  /** Every character of `s` is whitespace. */
  predicate AllWhitespace(s: string) {
    forall i :: 0 <= i < |s| ==> IsPyWhitespace(s[i])
  }

  /** Joining two all-whitespace strings gives an all-whitespace string. */
  lemma AllWhitespaceConcat(a: string, b: string)
    requires AllWhitespace(a) && AllWhitespace(b)
    ensures AllWhitespace(a + b)
  {
    forall i | 0 <= i < |a + b| ensures IsPyWhitespace((a + b)[i]) {
      if i < |a| {
        assert (a + b)[i] == a[i];
      } else {
        assert (a + b)[i] == b[i - |a|];
      }
    }
  }

  /** `s.lstrip()`: the longest suffix of `s` that does not start with whitespace. */
  function TrimLeft(s: string): (r: string)
    ensures |r| <= |s| && r == s[|s| - |r|..]
    ensures AllWhitespace(s[..|s| - |r|])
    ensures |r| > 0 ==> !IsPyWhitespace(r[0])
    decreases |s|
  {
    if |s| > 0 && IsPyWhitespace(s[0]) then
      var r := TrimLeft(s[1..]);
      var cut := |s| - |r|;
      assert s[1..][cut - 1..] == s[cut..];
      assert s[1..][..cut - 1] == s[1..cut];
      assert s[..cut] == [s[0]] + s[1..cut];
      AllWhitespaceConcat([s[0]], s[1..cut]);
      r
    else s
  }

  /** `s.rstrip()`: the longest prefix of `s` that does not end with whitespace. */
  function TrimRight(s: string): (r: string)
    ensures |r| <= |s| && r == s[..|r|]
    ensures AllWhitespace(s[|r|..])
    ensures |r| > 0 ==> !IsPyWhitespace(r[|r| - 1])
    decreases |s|
  {
    if |s| > 0 && IsPyWhitespace(s[|s| - 1]) then
      var r := TrimRight(s[..|s| - 1]);
      assert s[..|s| - 1][..|r|] == s[..|r|];
      assert s[|r|..] == s[..|s| - 1][|r|..] + [s[|s| - 1]];
      AllWhitespaceConcat(s[..|s| - 1][|r|..], [s[|s| - 1]]);
      r
    else s
  }

  /**
    `s.strip()`: what `TrimLeft` leaves, cut before its trailing whitespace,
    so that it neither starts nor ends with whitespace.
  */
  function Trim(s: string): (r: string)
    ensures |r| > 0 ==> !IsPyWhitespace(r[0]) && !IsPyWhitespace(r[|r| - 1])
    ensures |r| <= |TrimLeft(s)| && r == TrimLeft(s)[..|r|]
    ensures AllWhitespace(TrimLeft(s)[|r|..])
  {
    TrimRight(TrimLeft(s))
  }

  /** The one trailing comma the loader removes, if there is one. */
  function StripTrailingComma(s: string): (r: string)
    ensures |s| > 0 && s[|s| - 1] == ',' ==> r + [','] == s
    ensures !(|s| > 0 && s[|s| - 1] == ',') ==> r == s
  {
    if |s| > 0 && s[|s| - 1] == ',' then s[..|s| - 1] else s
  }

  /** The appendix text the loader parses: trimmed, then one trailing comma dropped. */
  function Content(text: string): string {
    StripTrailingComma(Trim(text))
  }

  /** The content wrapped in brackets, the loader's first parse attempt. */
  function Bracketed(content: string): string {
    "[" + content + "]"
  }

  /**
    What `json.loads` promises of the bracketed text: when it parses at all,
    it parses to a list. This is the one fact about the parser the loader
    relies on.
  */
  predicate BracketParsesToList(file: TextFile, parse: string -> Option<Json>) {
    file.Text? ==>
      var attempt := parse(Bracketed(Content(file.content)));
      attempt.Some? ==> attempt.value.Arr?
  }

  /**
    `JSONMerger.load_append_data`: `None` for a missing or unreadable file
    and when both parse attempts fail; the bracketed parse's items when it
    succeeds; otherwise the content's own parse, kept when it is a list and
    wrapped in a one-element list when it is not.
  */
  function LoadAppendix(file: TextFile, parse: string -> Option<Json>): (r: Option<seq<Json>>)
    requires BracketParsesToList(file, parse)
    ensures file.Missing? || file.Unreadable? ==> r.None?
    ensures file.Text? ==>
      var content := Content(file.content);
      var attempt := parse(Bracketed(content));
      if attempt.Some? then r == Some(attempt.value.items)
      else match parse(content)
        case None => r.None?
        case Some(Arr(items)) => r == Some(items)
        case Some(v) => r == Some([v])
  {
    match file
    case Missing => None
    case Unreadable => None
    case Text(text) =>
      var content := Content(text);
      match parse(Bracketed(content))
      case Some(list) => Some(list.items)
      case None =>
        match parse(content)
        case None => None
        case Some(v) => if v.Arr? then Some(v.items) else Some([v])
  }

  /**
    The strategy is ordered: once the bracketed text parses, how the content
    alone would parse is never consulted, so two parsers that agree on the
    bracketed text load the same appendix.
  */
  lemma FallbackNotConsulted(text: string, p1: string -> Option<Json>, p2: string -> Option<Json>)
    requires BracketParsesToList(Text(text), p1) && BracketParsesToList(Text(text), p2)
    requires p1(Bracketed(Content(text))).Some?
    requires p1(Bracketed(Content(text))) == p2(Bracketed(Content(text)))
    ensures LoadAppendix(Text(text), p1) == LoadAppendix(Text(text), p2)
    ensures LoadAppendix(Text(text), p1).Some?
  {
  }

  /**
    A file holding one object loads as a one-element appendix, by the
    bracketed attempt: `[content]` is the one-element array holding it.
  */
  lemma LoneObjectLoads(text: string, parse: string -> Option<Json>, fields: Fields)
    requires ParserWrapsValues(parse, Content(text))
    requires parse(Content(text)) == Some(Obj(fields))
    ensures BracketParsesToList(Text(text), parse)
    ensures LoadAppendix(Text(text), parse) == Some([Obj(fields)])
  {
  }

  /**
    Trailing whitespace and one trailing comma after comma-joined records are
    dropped: such a file body loads exactly as the body alone would.
  */
  lemma TrailingCommaTolerated(body: string)
    requires |body| > 0 && !IsPyWhitespace(body[0]) && !IsPyWhitespace(body[|body| - 1]) && body[|body| - 1] != ','
    ensures Content(body + ",\n") == body
    ensures Content(body) == body
  {
    var text := body + ",\n";
    assert text[0] == body[0];
    assert TrimLeft(text) == text;
    assert text[..|text| - 1] == body + ",";
    assert TrimRight(body + ",") == body + ",";
    assert Trim(text) == body + ",";
    assert (body + ",")[..|body|] == body;
    assert TrimLeft(body) == body;
    assert TrimRight(body) == body;
  }

  /**
    What `json.loads` does with a bracketed value: when `content` is a JSON
    value on its own, `[content]` is the one-element array holding it.
  */
  predicate ParserWrapsValues(parse: string -> Option<Json>, content: string) {
    parse(content).Some? ==> parse(Bracketed(content)) == Some(Arr([parse(content).value]))
  }

  /**
    The loader as written never reaches its fallback with a parsable
    content: the bracketed attempt succeeds first. A file holding a JSON
    array therefore loads as a one-element appendix whose element is the
    whole array, not as the array's elements.
  */
  lemma ArrayAppendixNested(text: string, parse: string -> Option<Json>, items: seq<Json>)
    requires ParserWrapsValues(parse, Content(text))
    requires parse(Content(text)) == Some(Arr(items))
    ensures BracketParsesToList(Text(text), parse)
    ensures LoadAppendix(Text(text), parse) == Some([Arr(items)])
    ensures |items| != 1 ==> LoadAppendix(Text(text), parse) != Some(items)
  {
  }

  /**
    The loader with the array case handled as the fallback's list test
    intends: a file that parses as an array loads as its elements; every other
    file loads as `load_append_data` loads it.
  */
  function LoadAppendixIntended(file: TextFile, parse: string -> Option<Json>): (r: Option<seq<Json>>)
    requires BracketParsesToList(file, parse)
    ensures file.Missing? || file.Unreadable? ==> r.None?
    ensures file.Text? && parse(Content(file.content)).Some? && parse(Content(file.content)).value.Arr? ==>
      r == Some(parse(Content(file.content)).value.items)
    ensures file.Text? && ParserWrapsValues(parse, Content(file.content)) ==>
      match parse(Content(file.content))
      case Some(Arr(items)) => r == Some(items)
      case Some(v) => r == Some([v])
      case None => r == LoadAppendix(file, parse)
  {
    match file
    case Text(text) =>
      (match parse(Content(text))
       case Some(Arr(items)) => Some(items)
       case _ => LoadAppendix(file, parse))
    case _ => None
  }

  // ---------------------------------------------------------------------------
  // Merging
  // ---------------------------------------------------------------------------

  /**
    `JSONMerger.merge_form_fields`: the original fields, then the appended
    ones, each part in its own order.
  */
  function MergeFormFields(original: seq<Json>, appended: seq<Json>): (r: seq<Json>)
    ensures |r| == |original| + |appended|
    ensures r[..|original|] == original && r[|original|..] == appended
  {
    original + appended
  }

  /**
    The body of `merge_form_fields` as written: a copy of the original list
    extended element by element with the appended list. The arguments are
    values, so neither can change.
  */
  method ExtendCopy(original: seq<Json>, appended: seq<Json>) returns (merged: seq<Json>)
    ensures merged == MergeFormFields(original, appended)
  {
    merged := original;
    var i := 0;
    while i < |appended|
      invariant 0 <= i <= |appended|
      invariant merged == original + appended[..i]
    {
      merged := merged + [appended[i]];
      i := i + 1;
      assert appended[..i] == appended[..i - 1] + [appended[i - 1]];
    }
    assert appended[..i] == appended;
  }

  /**
    A form the merge loop handles without raising: a dict whose `formFields`
    is missing, falsy, or a list. A truthy non-list `formFields` has no
    `extend`, and any non-dict form rejects the item assignment.
  */
  predicate MergeableForm(form: Json) {
    form.Obj? && (HasTruthy(form.fields, "formFields") ==> Get(form.fields, "formFields").value.Arr?)
  }

  /** The `formFields` list a mergeable form ends with. */
  function MergedFields(form: Json, appendix: seq<Json>): seq<Json>
    requires MergeableForm(form)
  {
    if HasTruthy(form.fields, "formFields")
    then MergeFormFields(Get(form.fields, "formFields").value.items, appendix)
    else appendix
  }

  /**
    One pass of the loop over `data["forms"]`: `formFields` becomes
    `original ++ appendix` when the original is a non-empty list and a copy
    of the appendix when it is missing or empty; `None` where the loop raises.
  */
  function MergeForm(form: Json, appendix: seq<Json>): (r: Option<Json>)
    ensures r.Some? <==> MergeableForm(form)
    ensures r.Some? ==> r.value.Obj? && Get(r.value.fields, "formFields") == Some(Arr(MergedFields(form, appendix)))
  {
    if !MergeableForm(form) then None
    else Some(Obj(Set(form.fields, "formFields", Arr(MergedFields(form, appendix)))))
  }

  /**
    Merging touches nothing but `formFields`: every other key keeps its value,
    and the keys keep their order, a new `formFields` going last.
  */
  lemma MergeFormKeepsRest(form: Json, appendix: seq<Json>)
    requires MergeableForm(form)
    ensures var merged := MergeForm(form, appendix).value.fields;
      && (forall k :: k != "formFields" ==> Get(merged, k) == Get(form.fields, k))
      && ("formFields" in Keys(form.fields) ==> Keys(merged) == Keys(form.fields))
      && ("formFields" !in Keys(form.fields) ==> Keys(merged) == Keys(form.fields) + ["formFields"])
  {
    SetNewKey(form.fields, "formFields", Arr(MergedFields(form, appendix)));
  }

  /** The loop over all forms: `None` as soon as one form raises, otherwise the merged forms in order. */
  function MergeForms(forms: seq<Json>, appendix: seq<Json>): (r: Option<seq<Json>>)
    ensures r.Some? <==> forall i :: 0 <= i < |forms| ==> MergeableForm(forms[i])
    ensures r.Some? ==>
      |r.value| == |forms| && forall i :: 0 <= i < |forms| ==> Some(r.value[i]) == MergeForm(forms[i], appendix)
    decreases |forms|
  {
    if |forms| == 0 then Some([])
    else
      match MergeForm(forms[0], appendix)
      case None => None
      case Some(first) =>
        match MergeForms(forms[1..], appendix)
        case None => None
        case Some(rest) => Some([first] + rest)
  }

  /**
    A document the merger processes: a dict with a truthy `forms` list of
    mergeable forms. A document without `forms`, or with an empty one, is
    not applicable; any other shape raises inside the handler.
  */
  predicate MergeableDocument(data: Json) {
    && data.Obj?
    && HasTruthy(data.fields, "forms")
    && Get(data.fields, "forms").value.Arr?
    && forall i :: 0 <= i < |Get(data.fields, "forms").value.items| ==>
         MergeableForm(Get(data.fields, "forms").value.items[i])
  }

  /**
    The merging part of `JSONMerger.process_json_file`: `None` for a document
    that is not mergeable (in particular one whose `forms` is missing or
    empty), and otherwise the document whose `forms` holds each form merged,
    in the same number and order.
  */
  function MergeDocument(data: Json, appendix: seq<Json>): (r: Option<Json>)
    ensures r.Some? <==> MergeableDocument(data)
    ensures data.Obj? && !HasTruthy(data.fields, "forms") ==> r.None?
    ensures r.Some? ==>
      var forms := Get(data.fields, "forms").value.items;
      && r.value.Obj?
      && Get(r.value.fields, "forms").Some? && Get(r.value.fields, "forms").value.Arr?
      && |Get(r.value.fields, "forms").value.items| == |forms|
      && forall i :: 0 <= i < |forms| ==>
           Some(Get(r.value.fields, "forms").value.items[i]) == MergeForm(forms[i], appendix)
  {
    if !(data.Obj? && HasTruthy(data.fields, "forms")) then None
    else
      var forms := Get(data.fields, "forms").value;
      if !forms.Arr? then None
      else
        match MergeForms(forms.items, appendix)
        case None => None
        case Some(merged) => Some(Obj(Set(data.fields, "forms", Arr(merged))))
  }

  /** Merging touches nothing but `forms`: the document keeps its keys, in order, and every other value. */
  lemma MergeDocumentKeepsRest(data: Json, appendix: seq<Json>)
    requires MergeableDocument(data)
    ensures var merged := MergeDocument(data, appendix).value.fields;
      && Keys(merged) == Keys(data.fields)
      && forall k :: k != "forms" ==> Get(merged, k) == Get(data.fields, k)
  {
  }

  /**
    `JSONMerger.merge_all_files` over already-listed document files: nothing
    is processed when the appendix does not load; otherwise each document is
    read, parsed and merged independently, `None` marking the ones skipped.
  */
  function MergeRun(appendixFile: TextFile, parse: string -> Option<Json>, documents: seq<TextFile>): (r: Option<seq<Option<Json>>>)
    requires BracketParsesToList(appendixFile, parse)
    ensures r.None? <==> LoadAppendix(appendixFile, parse).None?
    ensures r.Some? ==>
      && |r.value| == |documents|
      && forall i :: 0 <= i < |documents| ==>
           r.value[i] == MergeDocumentFile(documents[i], parse, LoadAppendix(appendixFile, parse).value)
  {
    match LoadAppendix(appendixFile, parse)
    case None => None
    case Some(appendix) => Some(MergeEach(documents, parse, appendix))
  }

  /** The run with the corrected loader: an array appendix file contributes its elements. */
  function MergeRunIntended(appendixFile: TextFile, parse: string -> Option<Json>, documents: seq<TextFile>): (r: Option<seq<Option<Json>>>)
    requires BracketParsesToList(appendixFile, parse)
    ensures r.None? <==> LoadAppendixIntended(appendixFile, parse).None?
    ensures r.Some? ==>
      && |r.value| == |documents|
      && forall i :: 0 <= i < |documents| ==>
           r.value[i] == MergeDocumentFile(documents[i], parse, LoadAppendixIntended(appendixFile, parse).value)
  {
    match LoadAppendixIntended(appendixFile, parse)
    case None => None
    case Some(appendix) => Some(MergeEach(documents, parse, appendix))
  }

  /** Every document file merged with one appendix, independently and in order. */
  function MergeEach(documents: seq<TextFile>, parse: string -> Option<Json>, appendix: seq<Json>): (r: seq<Option<Json>>)
    ensures |r| == |documents|
    ensures forall i :: 0 <= i < |documents| ==> r[i] == MergeDocumentFile(documents[i], parse, appendix)
  {
    MapSeq((file: TextFile) => MergeDocumentFile(file, parse, appendix), documents)
  }

  /**
    The two runs differ exactly where the loaders do: an appendix file that
    parses as an array is merged as one nested element as written, and
    element by element as intended.
  */
  lemma ArrayAppendixRunsDiffer(text: string, parse: string -> Option<Json>, items: seq<Json>, documents: seq<TextFile>)
    requires ParserWrapsValues(parse, Content(text))
    requires parse(Content(text)) == Some(Arr(items))
    ensures BracketParsesToList(Text(text), parse)
    ensures MergeRun(Text(text), parse, documents) == Some(MergeEach(documents, parse, [Arr(items)]))
    ensures MergeRunIntended(Text(text), parse, documents) == Some(MergeEach(documents, parse, items))
  {
  }

  /** One document file: `None` when it cannot be read or parsed, otherwise its merge. */
  function MergeDocumentFile(file: TextFile, parse: string -> Option<Json>, appendix: seq<Json>): (r: Option<Json>)
    ensures r.Some? <==> file.Text? && parse(file.content).Some? && MergeableDocument(parse(file.content).value)
    ensures r.Some? ==> r == MergeDocument(parse(file.content).value, appendix)
  {
    match file
    case Text(text) =>
      (match parse(text)
       case Some(data) => MergeDocument(data, appendix)
       case None => None)
    case _ => None
  }

  // ---------------------------------------------------------------------------
  // Merging in two steps
  // ---------------------------------------------------------------------------

  /** The `formFields` list after two merges is the one a single merge of both appendices leaves. */
  lemma MergedFieldsTwice(form: Json, a: seq<Json>, b: seq<Json>)
    requires MergeableForm(form)
    ensures MergeForm(form, a).Some?
    ensures var once := MergeForm(form, a).value;
      MergeableForm(once) && MergedFields(once, b) == MergedFields(form, a + b)
  {
    var first := MergedFields(form, a);
    var once := Obj(Set(form.fields, "formFields", Arr(first)));
    assert MergeForm(form, a) == Some(once);
    assert Get(once.fields, "formFields") == Some(Arr(first));
    assert HasTruthy(once.fields, "formFields") <==> |first| > 0;
    if HasTruthy(form.fields, "formFields") {
      var original := Get(form.fields, "formFields").value.items;
      assert first == original + a && |original| > 0;
      assert MergedFields(once, b) == original + a + b;
      assert original + a + b == original + (a + b);
    } else {
      assert first == a;
      if |a| == 0 {
        assert a + b == b;
      }
    }
  }

  /**
    Merging appendix `a` and then appendix `b` into a form gives what merging
    `a ++ b` at once gives.
  */
  lemma MergeFormTwice(form: Json, a: seq<Json>, b: seq<Json>)
    requires MergeableForm(form)
    ensures MergeForm(form, a).Some?
    ensures MergeForm(MergeForm(form, a).value, b) == MergeForm(form, a + b)
  {
    MergedFieldsTwice(form, a, b);
    SetTwice(form.fields, "formFields", Arr(MergedFields(form, a)), Arr(MergedFields(form, a + b)));
  }

  /** Merging two appendices one after the other into every form of a list is merging their concatenation once. */
  lemma {:induction false} MergeFormsTwice(forms: seq<Json>, a: seq<Json>, b: seq<Json>)
    requires forall i :: 0 <= i < |forms| ==> MergeableForm(forms[i])
    ensures MergeForms(forms, a).Some?
    ensures MergeForms(MergeForms(forms, a).value, b) == MergeForms(forms, a + b)
    decreases |forms|
  {
    if |forms| > 0 {
      MergeFormTwice(forms[0], a, b);
      MergeFormsTwice(forms[1..], a, b);
      var first := MergeForm(forms[0], a).value;
      var rest := MergeForms(forms[1..], a).value;
      assert MergeForms(forms, a) == Some([first] + rest);
      assert ([first] + rest)[0] == first && ([first] + rest)[1..] == rest;
    }
  }

  /**
    Merging appendix `a` and then appendix `b` into a mergeable document gives
    what merging `a ++ b` at once gives.
  */
  lemma MergeDocumentTwice(data: Json, a: seq<Json>, b: seq<Json>)
    requires MergeableDocument(data)
    ensures MergeDocument(data, a).Some?
    ensures MergeDocument(MergeDocument(data, a).value, b) == MergeDocument(data, a + b)
  {
    var forms := Get(data.fields, "forms").value.items;
    MergeFormsTwice(forms, a, b);
    var once := MergeForms(forms, a).value;
    var both := MergeForms(forms, a + b).value;
    var merged := Obj(Set(data.fields, "forms", Arr(once)));
    assert MergeDocument(data, a) == Some(merged);
    assert Get(merged.fields, "forms") == Some(Arr(once));
    assert |once| == |forms| > 0;
    assert MergeForms(once, b) == Some(both);
    assert MergeableDocument(merged);
    assert MergeDocument(merged, b) == Some(Obj(Set(merged.fields, "forms", Arr(both))));
    assert MergeDocument(data, a + b) == Some(Obj(Set(data.fields, "forms", Arr(both))));
    SetTwice(data.fields, "forms", Arr(once), Arr(both));
  }
}
