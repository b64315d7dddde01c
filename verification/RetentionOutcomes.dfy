/** What the walk leaves at each place of a document. A place is told by the turns that lead to
    it: the key of each map and the index of each list on the way. */
module RetentionOutcomes {
  import opened Options
  import opened Substrings
  import opened Redaction
  import opened RetentionWalk

  datatype Turn = Field(key: string) | Item(index: nat)

  function Child(node: Json, turn: Turn): Option<Json> {
    match turn
    case Field(key) => if node.Object? && key in node.fields then Some(node.fields[key]) else None
    case Item(i) => if node.Array? && i < |node.items| then Some(node.items[i]) else None
  }

  function At(node: Json, turns: seq<Turn>): Option<Json>
    decreases |turns|
  {
    if turns == [] then Some(node)
    else if Child(node, turns[0]).None? then None
    else At(Child(node, turns[0]).value, turns[1..])
  }

  /** The object names an expired source: by `source_id`, or, if that is no text or empty and it
      carries fragments, by its own `id`. */
  predicate NamesGone(fields: map<string, Json>, gone: set<string>) {
    if "source_id" in fields && fields["source_id"].Text? && fields["source_id"].s != ""
    then fields["source_id"].s in gone
    else "fragments" in fields && "id" in fields && fields["id"].Text? && fields["id"].s != "" && fields["id"].s in gone
  }

  lemma SourceDecides(fields: map<string, Json>, expired: bool, gone: set<string>)
    ensures ExpiredBelow(fields, expired, gone) <==> expired || NamesGone(fields, gone)
  {
  }

  /** Some object from here to the last turn names an expired source. */
  predicate GoneOnTheWay(node: Json, turns: seq<Turn>, gone: set<string>)
    decreases |turns|
  {
    || (node.Object? && NamesGone(node.fields, gone))
    || (turns != [] && Child(node, turns[0]).Some? && GoneOnTheWay(Child(node, turns[0]).value, turns[1..], gone))
  }

  /** The last turn goes to a quoted text of an expired source. */
  predicate IsBlanked(node: Json, expired: bool, turns: seq<Turn>, gone: set<string>) {
    && turns != [] && var last := turns[|turns| - 1];
    && last.Field? && last.key in {"body", "content", "quote"}
    && (expired || GoneOnTheWay(node, turns[..|turns| - 1], gone))
  }

  predicate BlankFree(node: Json, expired: bool, turns: seq<Turn>, gone: set<string>) {
    forall k :: 0 < k <= |turns| ==> !IsBlanked(node, expired, turns[..k], gone)
  }

  /** The last key on the way is one of those that hold text for people; the items of a list go by
      the key of the list. */
  predicate EndsInText(turns: seq<Turn>, before: bool)
    decreases |turns|
  {
    if turns == [] then before
    else
      match turns[0]
      case Item(_) => EndsInText(turns[1..], before)
      case Field(key) =>
        EndsInText(turns[1..], key in {"body", "content", "quote", "title", "result", "instructions", "result_summary", "summary", "output", "payload"})
  }

  /** The first turn decides what holds for the rest. */
  lemma BlankedBelow(node: Json, expired: bool, turns: seq<Turn>, gone: set<string>)
    requires |turns| > 1 && Child(node, turns[0]).Some?
    ensures var below := expired || (node.Object? && NamesGone(node.fields, gone));
            IsBlanked(node, expired, turns, gone) <==> IsBlanked(Child(node, turns[0]).value, below, turns[1..], gone)
  {
    assert turns[..|turns| - 1][1..] == turns[1..][..|turns| - 2];
    assert turns[..|turns| - 1][0] == turns[0];
  }

  lemma BlankFreeBelow(node: Json, expired: bool, turns: seq<Turn>, gone: set<string>)
    requires turns != [] && Child(node, turns[0]).Some? && BlankFree(node, expired, turns, gone)
    ensures !IsBlanked(node, expired, [turns[0]], gone)
    ensures BlankFree(Child(node, turns[0]).value, expired || (node.Object? && NamesGone(node.fields, gone)), turns[1..], gone)
  {
    assert turns[..1] == [turns[0]];
    forall k | 0 < k <= |turns[1..]|
      ensures !IsBlanked(Child(node, turns[0]).value, expired || (node.Object? && NamesGone(node.fields, gone)), turns[1..][..k], gone)
    {
      BlankedBelow(node, expired, turns[..k + 1], gone);
      assert turns[..k + 1][1..] == turns[1..][..k];
    }
  }

  lemma ChildWalked(node: Json, expired: bool, textField: bool, gone: set<string>, texts: seq<Original>, turn: Turn)
    requires Child(node, turn).Some? && !IsBlanked(node, expired, [turn], gone)
    ensures var below := expired || (node.Object? && NamesGone(node.fields, gone));
            Child(Walk(node, expired, textField, gone, texts), turn)
            == Some(Walk(Child(node, turn).value, below, EndsInText([turn], textField), gone, texts))
  {
    assert [turn][..0] == [] && [turn][1..] == [];
    if turn.Field? { SourceDecides(node.fields, expired, gone); }
  }

  /** What nothing blanks keeps its place; a text is redacted under a key for people, and every
      other text, number or truth value stays. */
  lemma {:induction false} PlaceOutcome(node: Json, expired: bool, textField: bool, gone: set<string>, texts: seq<Original>, turns: seq<Turn>)
    requires BlankFree(node, expired, turns, gone)
    ensures var was, after := At(node, turns), At(Walk(node, expired, textField, gone, texts), turns);
            match was
            case None => after == None
            case Some(Object(_)) => after.Some? && after.value.Object? && after.value.fields.Keys == was.value.fields.Keys
            case Some(Array(_)) => after.Some? && after.value.Array? && |after.value.items| == |was.value.items|
            case Some(Text(s)) => after == Some(Text(if EndsInText(turns, textField) then Redact(s, texts) else s))
            case _ => after == was
    decreases |turns|
  {
    if turns != [] && Child(node, turns[0]).Some? {
      BlankFreeBelow(node, expired, turns, gone);
      ChildWalked(node, expired, textField, gone, texts, turns[0]);
      assert [turns[0]][1..] == [];
      PlaceOutcome(Child(node, turns[0]).value, expired || (node.Object? && NamesGone(node.fields, gone)),
                   EndsInText([turns[0]], textField), gone, texts, turns[1..]);
    }
  }

  /** A quoted text of an expired source is empty afterwards, at whatever depth, and only the
      objects on the way to it decide that. */
  lemma {:induction false} BlankOutcome(node: Json, expired: bool, textField: bool, gone: set<string>, texts: seq<Original>, turns: seq<Turn>)
    requires At(node, turns).Some? && IsBlanked(node, expired, turns, gone) && BlankFree(node, expired, turns[..|turns| - 1], gone)
    ensures At(Walk(node, expired, textField, gone, texts), turns) == Some(Text(""))
    decreases |turns|
  {
    var below := expired || (node.Object? && NamesGone(node.fields, gone));
    if |turns| == 1 {
      assert turns[..0] == [] && turns[1..] == [];
      SourceDecides(node.fields, expired, gone);
    } else {
      var init := turns[..|turns| - 1];
      BlankFreeBelow(node, expired, init, gone);
      BlankedBelow(node, expired, turns, gone);
      ChildWalked(node, expired, textField, gone, texts, turns[0]);
      assert init[1..] == turns[1..][..|turns| - 2];
      BlankOutcome(Child(node, turns[0]).value, below, EndsInText([turns[0]], textField), gone, texts, turns[1..]);
    }
  }
}
