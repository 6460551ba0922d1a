/** The annotations the compiler writes consist of proper names and closed literals. */
module UsageForms {
  import opened PythonText
  import opened UsageSchema
  import opened UsageMeaning
  import opened UsageSyntax
  import opened UsageExpressions
  import opened UsageScan

  lemma {:induction false} ChainFormed(first: Union, second: Union)
    requires FormedUnion(first) && FormedUnion(second) && Branches(first) && Branches(second)
    ensures FormedUnion(Chain(first, second)) && Branches(Chain(first, second))
    decreases first
  {
    if first.More? {
      ChainFormed(first.rest, second);
    }
  }

  predicate AllFormed(unions: seq<Union>) {
    forall i | 0 <= i < |unions| :: FormedUnion(unions[i])
  }

  lemma {:induction false} ArgsFormed(unions: seq<Union>)
    requires unions != [] && AllFormed(unions)
    ensures FormedArgs(ArgsOf(unions))
  {
    if |unions| > 1 {
      ArgsFormed(unions[1..]);
    }
  }

  lemma QuotedFormed(t: Text)
    ensures FormedItem(Quoted(t))
  {
    EscapedIsRaw(t);
  }

  lemma BoundFormed(name: string, n: nat)
    requires IsWord(name)
    ensures FormedUnion(Bound(name, n))
  {
    DecimalBack(n);
    assert FormedItem(Name(Decimal(n)));
  }

  lemma CallFormed(head: string, item: Item)
    requires IsWord(head) && |head| >= 2 && FormedItem(item)
    ensures FormedItem(Call(head, Last(One(item)))) && FormedUnion(One(Call(head, Last(One(item)))))
  {
    assert FormedUnion(One(item));
    assert FormedArgs(Last(One(item)));
  }

  lemma ConstraintsFormed(node: Node)
    requires node.Dict?
    ensures AllFormed(ConstraintsOf(node))
  {
    if Has(node, "pattern") && Get(node, "pattern").value.Str? {
      QuotedFormed(Get(node, "pattern").value.text);
      assert FormedItem(Keyword("pattern", Quoted(Get(node, "pattern").value.text)));
    }
    BoundFormed("min_length", NumberAt(node, "minLength"));
    BoundFormed("max_length", NumberAt(node, "maxLength"));
    assert AllFormed(PatternOf(node)) && AllFormed(BoundOf(node, "minLength", "min_length")) && AllFormed(BoundOf(node, "maxLength", "max_length"));
  }

  lemma ValidatorsFormed(node: Node)
    requires node.Dict?
    ensures AllFormed(ValidatorsOf(node))
  {
    DecimalBack(NumberAt(node, "x-utf8-max-bytes"));
    var limit := Name(Decimal(NumberAt(node, "x-utf8-max-bytes")));
    CallFormed("_utf8_limit", limit);
    CallFormed("AfterValidator", Call("_utf8_limit", Last(One(limit))));
    CallFormed("AfterValidator", Name("_decimal_limit"));
    CallFormed("AfterValidator", Name("_calendar"));
    assert AllFormed(LimitOf(node));
  }

  lemma {:induction false} LiteralsOnly(unions: seq<Union>)
    requires unions != [] && forall i | 0 <= i < |unions| :: unions[i].One? && unions[i].item.Literal?
    ensures LiteralArgs(ArgsOf(unions))
  {
    if |unions| > 1 {
      LiteralsOnly(unions[1..]);
    }
  }

  predicate AllCalls(unions: seq<Union>) {
    forall i | 0 <= i < |unions| :: unions[i].One? && unions[i].item.Call?
  }

  lemma {:induction false} CallsOnly(unions: seq<Union>)
    requires unions != [] && AllCalls(unions)
    ensures CallArgs(ArgsOf(unions))
  {
    if |unions| > 1 {
      CallsOnly(unions[1..]);
    }
  }

  lemma LiteralFormed(values: seq<Node>)
    requires values != [] && forall i | 0 <= i < |values| :: values[i].Str?
    ensures FormedUnion(LiteralUnion(values)) && Branches(LiteralUnion(values))
  {
    var unions := seq(|values|, i requires 0 <= i < |values| => One(Quoted(values[i].text)));
    forall i | 0 <= i < |unions| ensures FormedUnion(unions[i]) {
      QuotedFormed(values[i].text);
    }
    ArgsFormed(unions);
    LiteralsOnly(unions);
    assert FormedItem(Index("Literal", ArgsOf(unions))) && Branch(Index("Literal", ArgsOf(unions)));
  }

  lemma MetadataFormed(node: Node)
    requires node.Dict?
    ensures AllFormed(Metadata(node)) && AllCalls(Metadata(node))
  {
    ConstraintsFormed(node);
    ValidatorsFormed(node);
    if ConstraintsOf(node) != [] {
      ArgsFormed(ConstraintsOf(node));
      assert FormedItem(Call("Field", ArgsOf(ConstraintsOf(node))));
    }
  }

  lemma AnnotatedFormed(first: Union, others: Args)
    requires FormedUnion(first) && FormedArgs(others)
    requires CallArgs(others) && first.One? && (first.item.Name? || IsList(first.item))
    ensures FormedUnion(One(Index("Annotated", Comma(first, others)))) && Branches(One(Index("Annotated", Comma(first, others))))
  {
    assert Branch(Index("Annotated", Comma(first, others)));
    assert FormedArgs(Comma(first, others));
    assert FormedItem(Index("Annotated", Comma(first, others)));
  }

  lemma TextFormed(metadata: seq<Union>)
    requires metadata != [] && AllFormed(metadata) && AllCalls(metadata)
    ensures var union := One(Index("Annotated", Comma(One(Name("str")), ArgsOf(metadata))));
      FormedUnion(union) && Branches(union)
  {
    ArgsFormed(metadata);
    CallsOnly(metadata);
    assert FormedItem(Name("str"));
    AnnotatedFormed(One(Name("str")), ArgsOf(metadata));
  }

  lemma StringFormed(node: Node)
    requires node.Dict?
    ensures FormedUnion(StringUnion(node)) && Branches(StringUnion(node))
  {
    var only, several := Get(node, "const"), Get(node, "enum");
    if only.Some? && only.value.Str? {
      LiteralFormed([only.value]);
    } else if several.Some? && several.value.Items? && several.value.items != [] && DistinctTexts(several.value.items) {
      LiteralFormed(several.value.items);
    } else if Metadata(node) != [] {
      MetadataFormed(node);
      TextFormed(Metadata(node));
    } else {
      assert FormedItem(Name("str"));
    }
  }

  lemma PlainFormed()
    ensures FormedUnion(One(Name("None"))) && FormedUnion(One(Name("bool")))
  {
    assert IsWord("None") && IsWord("bool");
  }

  lemma {:induction false} UnionFormed(lang: Language, node: Node, defined: set<string>)
    requires node.Dict? && Annotation(lang, node, defined).Some? && forall name | name in defined :: IsWord(name)
    ensures FormedUnion(UnionOf(node)) && Branches(UnionOf(node))
    decreases Size(node)
  {
    PlainFormed();
    if Has(node, "$ref") {
    } else if Has(node, "anyOf") {
      UnionsFormed(lang, Get(node, "anyOf").value.items, defined);
    } else if IsText(Get(node, "type"), "array") {
      UnionFormed(lang, Get(node, "items").value, defined);
      ListFormed(UnionOf(Get(node, "items").value), NumberAt(node, "maxItems"));
    } else if IsText(Get(node, "type"), "string") {
      StringFormed(node);
    }
  }

  lemma ListFormed(item: Union, maximum: nat)
    requires FormedUnion(item) && Branches(item)
    ensures FormedUnion(ListOf(item, maximum)) && Branches(ListOf(item, maximum))
  {
    assert IsList(Index("list", Last(item)));
    BoundFormed("max_length", maximum);
    assert FormedArgs(Last(item)) && FormedArgs(Last(Bound("max_length", maximum)));
    assert FormedItem(Index("list", Last(item))) && FormedItem(Call("Field", Last(Bound("max_length", maximum))));
    assert FormedUnion(One(Call("Field", Last(Bound("max_length", maximum)))));
    assert FormedArgs(Last(One(Call("Field", Last(Bound("max_length", maximum))))));
    AnnotatedFormed(One(Index("list", Last(item))), Last(One(Call("Field", Last(Bound("max_length", maximum))))));
  }

  lemma {:induction false} UnionsFormed(lang: Language, branches: seq<Node>, defined: set<string>)
    requires branches != [] && Annotations(lang, branches, defined).Some? && forall name | name in defined :: IsWord(name)
    ensures FormedUnion(UnionOfAll(branches)) && Branches(UnionOfAll(branches))
    decreases SizeOfItems(branches)
  {
    UnionFormed(lang, branches[0], defined);
    if |branches| > 1 {
      UnionsFormed(lang, branches[1..], defined);
      ChainFormed(UnionOf(branches[0]), UnionOfAll(branches[1..]));
    }
  }
}
