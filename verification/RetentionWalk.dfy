/** The walk over one cached JSON document (redactCachedRetentionCopy) and the loop over
    stored conclusions (redactRuntimeConclusions). */
module RetentionWalk {
  import opened Substrings
  import opened Redaction

  datatype Json =
    | Null
    | Bool(b: bool)
    | Number(n: real)
    | Text(s: string)
    | Array(items: seq<Json>)
    | Object(fields: map<string, Json>)

  const BLANKED := {"body", "content", "quote"}
  const TEXT_FIELDS := {"body", "content", "quote", "title", "result", "instructions", "result_summary",
                        "summary", "output", "payload"}

  function StringAt(fields: map<string, Json>, key: string): string {
    if key in fields && fields[key].Text? then fields[key].s else ""
  }

  /** The source an object speaks about; an `id` counts only next to `fragments`. */
  function SourceOf(fields: map<string, Json>): string {
    if StringAt(fields, "source_id") != "" then StringAt(fields, "source_id")
    else if "fragments" in fields then StringAt(fields, "id") else ""
  }

  function ExpiredBelow(fields: map<string, Json>, expired: bool, gone: set<string>): bool {
    expired || (SourceOf(fields) != "" && SourceOf(fields) in gone)
  }

  function Walk(node: Json, expired: bool, textField: bool, gone: set<string>, texts: seq<Original>): Json {
    match node
    case Object(fields) =>
      var below := ExpiredBelow(fields, expired, gone);
      Object(map key | key in fields ::
        if below && key in BLANKED then Text("") else Walk(fields[key], below, key in TEXT_FIELDS, gone, texts))
    case Array(items) =>
      Array(seq(|items|, i requires 0 <= i < |items| => Walk(items[i], expired, textField, gone, texts)))
    case Text(s) => if textField then Text(Redact(s, texts)) else node
    case _ => node
  }

  /** `u` is readable nowhere it must not be: in no text field, and nothing at all is left
      in a blanked field below an expired source. */
  ghost predicate Hidden(node: Json, expired: bool, textField: bool, gone: set<string>, u: string) {
    match node
    case Object(fields) =>
      var below := ExpiredBelow(fields, expired, gone);
      forall key :: key in fields ==>
        if below && key in BLANKED then fields[key] == Text("")
        else Hidden(fields[key], below, key in TEXT_FIELDS, gone, u)
    case Array(items) => forall i :: 0 <= i < |items| ==> Hidden(items[i], expired, textField, gone, u)
    case Text(s) => textField ==> !Occurs(u, s)
    case _ => true
  }

  /** The walk changes none of the fields from which expiry is decided. */
  lemma SourceKept(fields: map<string, Json>, expired: bool, gone: set<string>, texts: seq<Original>)
    ensures var after := Walk(Object(fields), expired, false, gone, texts).fields;
            SourceOf(after) == SourceOf(fields) && ExpiredBelow(after, expired, gone) == ExpiredBelow(fields, expired, gone)
  {
    var below := ExpiredBelow(fields, expired, gone);
    var after := Walk(Object(fields), expired, false, gone, texts).fields;
    forall key | key in {"source_id", "id"} ensures StringAt(after, key) == StringAt(fields, key) {
      if key in fields {
        assert key !in BLANKED && key !in TEXT_FIELDS;
        assert after[key] == Walk(fields[key], below, false, gone, texts);
      }
    }
  }

  /** Every document is clean after the walk, judged by its own content. */
  lemma {:induction false} WalkHides(node: Json, expired: bool, textField: bool, gone: set<string>, texts: seq<Original>, u: Original)
    requires NulFreeTexts(texts) && u in texts && !Touches(u, PLACEHOLDER) && forall t :: t in texts ==> !Exposes(t, u)
    ensures Hidden(Walk(node, expired, textField, gone, texts), expired, textField, gone, u)
  {
    match node
    case Object(fields) =>
      var below := ExpiredBelow(fields, expired, gone);
      SourceKept(fields, expired, gone, texts);
      forall key | key in fields && !(below && key in BLANKED)
        ensures Hidden(Walk(fields[key], below, key in TEXT_FIELDS, gone, texts), below, key in TEXT_FIELDS, gone, u)
      {
        WalkHides(fields[key], below, key in TEXT_FIELDS, gone, texts, u);
      }
    case Array(items) =>
      forall i | 0 <= i < |items| ensures Hidden(Walk(items[i], expired, textField, gone, texts), expired, textField, gone, u) {
        WalkHides(items[i], expired, textField, gone, texts, u);
      }
    case Text(s) => if textField { RedactCleans(s, texts, u); }
    case _ =>
  }

  /** A document that mentions no text and no gone source comes back as it was. */
  ghost predicate Untouched(node: Json, gone: set<string>, texts: seq<Original>) {
    match node
    case Object(fields) =>
      (SourceOf(fields) == "" || SourceOf(fields) !in gone) &&
      forall key :: key in fields ==> Untouched(fields[key], gone, texts)
    case Array(items) => forall i :: 0 <= i < |items| ==> Untouched(items[i], gone, texts)
    case Text(s) => CleanOf(s, texts) && !Occurs(Marker(), s)
    case _ => true
  }

  lemma {:induction false} WalkKeepsUntouched(node: Json, textField: bool, gone: set<string>, texts: seq<Original>)
    requires Untouched(node, gone, texts)
    ensures Walk(node, false, textField, gone, texts) == node
  {
    match node
    case Object(fields) =>
      forall key | key in fields ensures Walk(fields[key], false, key in TEXT_FIELDS, gone, texts) == fields[key] {
        WalkKeepsUntouched(fields[key], key in TEXT_FIELDS, gone, texts);
      }
    case Array(items) =>
      forall i | 0 <= i < |items| ensures Walk(items[i], false, textField, gone, texts) == items[i] {
        WalkKeepsUntouched(items[i], textField, gone, texts);
      }
    case Text(s) => MarkAbsent(s, texts); ReplaceAbsent(s, Marker(), PLACEHOLDER);
    case _ =>
  }

  /** One stored text: the loop that reassigns it text by text, then the placeholder. */
  method RedactText(body: string, texts: seq<Original>) returns (redacted: string)
    ensures redacted == Redact(body, texts)
  {
    redacted := body;
    for i := 0 to |texts|
      invariant Mark(redacted, texts[i..]) == Mark(body, texts)
    {
      redacted := ReplaceAll(redacted, texts[i], Marker());
    }
    redacted := ReplaceAll(redacted, Marker(), PLACEHOLDER);
  }

  /** The entries of one map, each overwritten in turn. */
  method WalkFields(ghost node: Json, fields: map<string, Json>, expired: bool, gone: set<string>, texts: seq<Original>)
    returns (item: map<string, Json>)
    requires node == Object(fields)
    ensures Object(item) == Walk(node, expired, false, gone, texts)
    decreases node, 0
  {
    var below := ExpiredBelow(fields, expired, gone);
    ghost var after := Walk(node, expired, false, gone, texts).fields;
    item := fields;
    var todo := fields.Keys;
    while todo != {}
      invariant todo <= fields.Keys == item.Keys
      invariant forall key :: key in fields ==> item[key] == if key in todo then fields[key] else after[key]
      decreases |todo|
    {
      var key :| key in todo;
      todo := todo - {key};
      if below && key in BLANKED {
        item := item[key := Text("")];
      } else {
        var child := WalkInPlace(fields[key], below, key in TEXT_FIELDS, gone, texts);
        item := item[key := child];
      }
    }
    assert item == after;
  }

  /** The recursive walk, which overwrites the entries of each map and list in turn. */
  method WalkInPlace(node: Json, expired: bool, textField: bool, gone: set<string>, texts: seq<Original>) returns (next: Json)
    ensures next == Walk(node, expired, textField, gone, texts)
    decreases node, 1
  {
    match node
    case Object(fields) =>
      var item := WalkFields(node, fields, expired, gone, texts);
      next := Object(item);
    case Array(items) =>
      var item := items;
      for i := 0 to |items|
        invariant |item| == |items|
        invariant forall k :: 0 <= k < i ==> item[k] == Walk(items[k], expired, textField, gone, texts)
        invariant forall k :: i <= k < |items| ==> item[k] == items[k]
      {
        var child := WalkInPlace(items[i], expired, textField, gone, texts);
        item := item[i := child];
      }
      next := Array(item);
    case Text(s) =>
      next := node;
      if textField {
        var redacted := RedactText(s, texts);
        next := Text(redacted);
      }
    case _ => next := node;
  }
}
