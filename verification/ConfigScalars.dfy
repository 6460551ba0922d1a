/**
 Where the two readings type a plain scalar differently: the projection compares the
 lowered text with the spellings of null, the tree knows three spellings of the word.
 */
module ConfigScalars {
  import opened Wrappers
  import opened ConfigFile
  import opened ConfigProjection

  function LowerChar(c: char): char {
    if 'A' <= c <= 'Z' then c - 'A' + 'a' else c
  }

  function Lower(text: string): string {
    seq(|text|, i requires 0 <= i < |text| => LowerChar(text[i]))
  }

  /** What the tree makes of a plain scalar; `other` types every text that is not null there. */
  function TreePlain(other: string -> Value, text: string): Value {
    if text in {"", "~", "null", "Null", "NULL"} then Null else other(text)
  }

  /** What the projection makes of it: null in any case, and the tree's type otherwise. */
  function HttpPlain(other: string -> Value, text: string): Value {
    if Lower(text) in {"", "null", "~"} then Null else TreePlain(other, text)
  }

  /** The word null in a spelling that only the projection takes for null, such as `nULL`. */
  predicate OddNull(text: string) {
    Lower(text) == "null" && text !in {"null", "Null", "NULL"}
  }

  lemma LowerShort(text: string)
    ensures Lower(text) == "" <==> text == ""
    ensures Lower(text) == "~" <==> text == "~"
    ensures text in {"null", "Null", "NULL"} ==> Lower(text) == "null"
  {
    if Lower(text) == "~" {
      assert LowerChar(text[0]) == Lower(text)[0] == '~';
    }
    if text == "~" {
      assert Lower(text) == ['~'];
    }
    if text in {"null", "Null", "NULL"} {
      assert Lower(text) == ['n', 'u', 'l', 'l'];
    }
  }

  /** The two types of a plain scalar are equal unless it is such a spelling. */
  lemma PlainTypes(other: string -> Value, text: string)
    requires other(text) != Null
    ensures HttpPlain(other, text) == TreePlain(other, text) <==> !OddNull(text)
  {
    LowerShort(text);
  }

  /**
   A setting of the HTTP service that is not set yet gets the same from both readings
   exactly unless it is such a spelling; then only the tree sets it.
   */
  lemma SettingTypes(table: Table, path: string, other: string -> Value, text: string, out: Settings, events: seq<Event>, at: nat)
    requires path in table.http && path in table.env && table.env[path] !in out
    requires other(text) != Null && at <= |events|
    ensures var projected := ProjectValue(table, events, at, path, ScalarEvent(text, HttpPlain(other, text)), out);
      var walked := Walk(table, path, Scalar(text, TreePlain(other, text)), out);
      && projected.Ok? && walked.Ok?
      && (projected.value.out == walked.value <==> !OddNull(text))
      && (OddNull(text) ==> projected.value.out == out && walked.value == out[table.env[path] := Scalar(text, other(text))])
  {
    LowerShort(text);
    PlainTypes(other, text);
    var walked := Walk(table, path, Scalar(text, TreePlain(other, text)), out);
    if OddNull(text) {
      assert table.env[path] in walked.value;
    }
  }

  /** One of those spellings. */
  lemma OddNullExists()
    ensures OddNull("nULL")
  {
    assert Lower("nULL") == ['n', 'u', 'l', 'l'];
  }

  // ----- whole documents ------------------------------------------------------------------

  /** The document with its plain scalars typed. */
  function Typed(typing: string -> Value, node: Node): Node
    decreases node
  {
    match node
    case Scalar(text, _) => Scalar(text, typing(text))
    case Sequence(items) => Sequence(seq(|items|, i requires 0 <= i < |items| => Typed(typing, items[i])))
    case Mapping(entries) =>
      Mapping(seq(|entries|, i requires 0 <= i < |entries| =>
        Entry(Typed(typing, entries[i].key), Typed(typing, entries[i].value))))
  }

  /** No scalar of the document is null in the projection alone. */
  predicate NoOddNull(node: Node)
    decreases node
  {
    match node
    case Scalar(text, _) => !OddNull(text)
    case Sequence(items) => forall i | 0 <= i < |items| :: NoOddNull(items[i])
    case Mapping(entries) => forall i | 0 <= i < |entries| :: NoOddNull(entries[i].key) && NoOddNull(entries[i].value)
  }

  lemma {:induction false} TypedAlike(other: string -> Value, node: Node)
    requires (forall text :: other(text) != Null) && NoOddNull(node)
    ensures Typed(text => HttpPlain(other, text), node) == Typed(text => TreePlain(other, text), node)
    decreases node
  {
    var http, tree := text => HttpPlain(other, text), text => TreePlain(other, text);
    match node
    case Scalar(text, _) => PlainTypes(other, text);
    case Sequence(items) =>
      forall i | 0 <= i < |items|
        ensures Typed(http, items[i]) == Typed(tree, items[i])
      {
        TypedAlike(other, items[i]);
      }
      assert Typed(http, node).items == Typed(tree, node).items;
    case Mapping(entries) =>
      forall i | 0 <= i < |entries|
        ensures Typed(http, entries[i].key) == Typed(tree, entries[i].key)
        ensures Typed(http, entries[i].value) == Typed(tree, entries[i].value)
      {
        TypedAlike(other, entries[i].key);
        TypedAlike(other, entries[i].value);
      }
      assert Typed(http, node).entries == Typed(tree, node).entries;
  }

  /**
   So for a document of plain scalars without such a spelling, each reading with its own
   types, the projection is still the walk restricted to the HTTP settings.
   */
  lemma TypedProjection(table: Table, other: string -> Value, root: Node)
    requires TableOk(table) && (forall text :: other(text) != Null) && NoOddNull(root)
    ensures var projected := LoadHttp(table, Stream(Some(Typed(text => HttpPlain(other, text), root))));
      var walked := LoadTree(table, Some(Typed(text => TreePlain(other, text), root)));
      projected.Ok? && walked.Ok? ==> projected.value == Http(table, walked.value)
  {
    TypedAlike(other, root);
    var typed := Typed(text => TreePlain(other, text), root);
    if LoadHttp(table, Stream(Some(typed))).Ok? && LoadTree(table, Some(typed)).Ok? {
      ProjectionIsRestriction(table, Some(typed));
    }
  }
}
