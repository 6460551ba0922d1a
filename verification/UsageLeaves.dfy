/**
 What the annotations of single nodes accept, whatever names are taken, and exactly when that is
 what the node allows.
 */
module UsageLeaves {
  import opened Wrappers
  import opened PythonText
  import opened UsageSchema
  import opened UsageMeaning
  import opened UsagePython
  import opened UsageEvaluation
  import opened UsageExpressions

  // ----- constraints -------------------------------------------------------------------------------

  predicate AllConstraints(lang: Language, unions: seq<Union>, v: Node) {
    forall i | 0 <= i < |unions| :: ConstraintHolds(lang, unions[i], v)
  }

  lemma {:induction false} FieldMeans(lang: Language, unions: seq<Union>, v: Node)
    requires unions != []
    ensures FieldHolds(lang, ArgsOf(unions), v) <==> AllConstraints(lang, unions, v)
  {
    if |unions| > 1 {
      FieldMeans(lang, unions[1..], v);
      assert forall i | 0 <= i < |unions| :: unions[i] == if i == 0 then unions[0] else unions[1..][i - 1];
    }
  }

  lemma AllConstraintsAppend(lang: Language, a: seq<Union>, b: seq<Union>, v: Node)
    ensures AllConstraints(lang, a + b, v) <==> AllConstraints(lang, a, v) && AllConstraints(lang, b, v)
  {
    if AllConstraints(lang, a + b, v) {
      forall i | 0 <= i < |a| ensures ConstraintHolds(lang, a[i], v) {
        assert (a + b)[i] == a[i];
      }
      forall i | 0 <= i < |b| ensures ConstraintHolds(lang, b[i], v) {
        assert (a + b)[|a| + i] == b[i];
      }
    }
  }

  /** Python reads the pattern as its UTF-16 units. */
  predicate PatternRead(lang: Language, node: Node, v: Node)
    requires node.Dict?
  {
    var p := Get(node, "pattern");
    p.Some? && p.value.Str? ==> v.Str? && lang.matches(Utf16(p.value.text), v.text)
  }

  predicate LengthRead(node: Node, v: Node)
    requires node.Dict?
  {
    && (Has(node, "minLength") ==> LengthOf(v).Some? && NumberAt(node, "minLength") <= LengthOf(v).value)
    && (Has(node, "maxLength") ==> LengthOf(v).Some? && LengthOf(v).value <= NumberAt(node, "maxLength"))
  }

  lemma PatternReads(lang: Language, node: Node, v: Node)
    requires node.Dict?
    ensures AllConstraints(lang, PatternOf(node), v) <==> PatternRead(lang, node, v)
  {
    var p := Get(node, "pattern");
    if p.Some? && p.value.Str? {
      LiteralValue(p.value.text);
      var constraint := PatternOf(node)[0];
      assert AllConstraints(lang, PatternOf(node), v) <==> ConstraintHolds(lang, constraint, v);
    }
  }

  lemma BoundReads(lang: Language, name: string, n: nat, v: Node)
    requires name == "min_length" || name == "max_length"
    ensures ConstraintHolds(lang, Bound(name, n), v) <==>
      LengthOf(v).Some? && if name == "min_length" then n <= LengthOf(v).value else LengthOf(v).value <= n
  {
    DecimalBack(n);
  }

  lemma LengthReads(lang: Language, node: Node, v: Node)
    requires node.Dict?
    ensures AllConstraints(lang, BoundOf(node, "minLength", "min_length") + BoundOf(node, "maxLength", "max_length"), v) <==> LengthRead(node, v)
  {
    var low, high := BoundOf(node, "minLength", "min_length"), BoundOf(node, "maxLength", "max_length");
    AllConstraintsAppend(lang, low, high, v);
    BoundReads(lang, "min_length", NumberAt(node, "minLength"), v);
    BoundReads(lang, "max_length", NumberAt(node, "maxLength"), v);
    assert Has(node, "minLength") ==> low[0] == Bound("min_length", NumberAt(node, "minLength"));
    assert Has(node, "maxLength") ==> high[0] == Bound("max_length", NumberAt(node, "maxLength"));
  }

  lemma ConstraintsRead(lang: Language, node: Node, v: Node)
    requires node.Dict?
    ensures AllConstraints(lang, ConstraintsOf(node), v) <==> PatternRead(lang, node, v) && LengthRead(node, v)
  {
    var low, high := BoundOf(node, "minLength", "min_length"), BoundOf(node, "maxLength", "max_length");
    assert ConstraintsOf(node) == PatternOf(node) + (low + high);
    AllConstraintsAppend(lang, PatternOf(node), low + high, v);
    PatternReads(lang, node, v);
    LengthReads(lang, node, v);
  }

  // ----- metadata ----------------------------------------------------------------------------------

  predicate AllMetadata(w: World, unions: seq<Union>, v: Node) {
    forall i | 0 <= i < |unions| :: MetaAllows(w, unions[i], v)
  }

  predicate AllEvaluate(lang: Language, scope: Scope, unions: seq<Union>) {
    forall i | 0 <= i < |unions| :: EvalMeta(lang, scope, [], unions[i]).Some?
  }

  lemma {:induction false} MetadataMeans(w: World, unions: seq<Union>, v: Node)
    requires unions != []
    ensures MetasAllow(w, ArgsOf(unions), v) <==> AllMetadata(w, unions, v)
    ensures EvaluableMetas(w.lang, w.scope, ArgsOf(unions)) <==> AllEvaluate(w.lang, w.scope, unions)
  {
    if |unions| > 1 {
      MetadataMeans(w, unions[1..], v);
      assert forall i | 0 <= i < |unions| :: unions[i] == if i == 0 then unions[0] else unions[1..][i - 1];
    }
  }

  lemma AllMetadataAppend(w: World, a: seq<Union>, b: seq<Union>, v: Node)
    ensures AllMetadata(w, a + b, v) <==> AllMetadata(w, a, v) && AllMetadata(w, b, v)
    ensures AllEvaluate(w.lang, w.scope, a + b) <==> AllEvaluate(w.lang, w.scope, a) && AllEvaluate(w.lang, w.scope, b)
  {
    forall i | 0 <= i < |a| ensures a[i] == (a + b)[i] {
    }
    forall i | 0 <= i < |b| ensures b[i] == (a + b)[|a| + i] {
    }
  }

  /** With `AfterValidator` taken, a check that evaluates has no effect. */
  lemma AfterReads(w: World, validator: Item, v: Node)
    requires EvalMeta(w.lang, w.scope, [], After(validator)).Some?
    ensures AllMetadata(w, [After(validator)], v) <==> (Find(w.scope, "AfterValidator").None? ==> CheckHolds(w.lang, w.globals, validator, v))
  {
    assert AllMetadata(w, [After(validator)], v) <==> MetaAllows(w, [After(validator)][0], v);
  }

  predicate LimitRead(globals: Bindings, node: Node, v: Node)
    requires node.Dict?
  {
    Has(node, "x-utf8-max-bytes") ==> v.Str? && LimitHolds(globals, NumberAt(node, "x-utf8-max-bytes"), v.text)
  }

  predicate ChecksRead(lang: Language, globals: Bindings, node: Node, v: Node)
    requires node.Dict?
  {
    && LimitRead(globals, node, v)
    && (Has(node, "x-max-decimal") ==> DecimalHolds(lang, globals, v))
    && (Has(node, "x-calendar-valid") ==> CalendarHolds(lang, globals, v))
  }

  lemma LimitReads(w: World, node: Node, v: Node)
    requires node.Dict? && AllEvaluate(w.lang, w.scope, LimitOf(node))
    ensures AllMetadata(w, LimitOf(node), v) <==> (Find(w.scope, "AfterValidator").None? ==> LimitRead(w.globals, node, v))
  {
    if Has(node, "x-utf8-max-bytes") {
      var n := NumberAt(node, "x-utf8-max-bytes");
      var validator := Call("_utf8_limit", Last(One(Name(Decimal(n)))));
      DecimalBack(n);
      assert LimitOf(node)[0] == After(validator);
      AfterReads(w, validator, v);
    }
  }

  lemma MarkerReads(w: World, marked: bool, name: string, v: Node)
    requires name == "_decimal_limit" || name == "_calendar"
    requires AllEvaluate(w.lang, w.scope, if marked then [After(Name(name))] else [])
    ensures AllMetadata(w, if marked then [After(Name(name))] else [], v) <==> (marked && Find(w.scope, "AfterValidator").None? ==>
      if name == "_decimal_limit" then DecimalHolds(w.lang, w.globals, v) else CalendarHolds(w.lang, w.globals, v))
  {
    if marked {
      assert EvalMeta(w.lang, w.scope, [], [After(Name(name))][0]).Some?;
      AfterReads(w, Name(name), v);
    }
  }

  lemma ChecksAgree(w: World, node: Node, v: Node)
    requires node.Dict? && AllEvaluate(w.lang, w.scope, ValidatorsOf(node))
    ensures AllMetadata(w, ValidatorsOf(node), v) <==> (Find(w.scope, "AfterValidator").None? ==> ChecksRead(w.lang, w.globals, node, v))
  {
    var decimal := if Has(node, "x-max-decimal") then [After(Name("_decimal_limit"))] else [];
    var calendar := if Has(node, "x-calendar-valid") then [After(Name("_calendar"))] else [];
    AllMetadataAppend(w, LimitOf(node) + decimal, calendar, v);
    AllMetadataAppend(w, LimitOf(node), decimal, v);
    LimitReads(w, node, v);
    MarkerReads(w, Has(node, "x-max-decimal"), "_decimal_limit", v);
    MarkerReads(w, Has(node, "x-calendar-valid"), "_calendar", v);
  }

  lemma FieldReads(w: World, unions: seq<Union>, v: Node)
    requires unions != [] && EvalMeta(w.lang, w.scope, [], One(Call("Field", ArgsOf(unions)))).Some?
    ensures AllMetadata(w, [One(Call("Field", ArgsOf(unions)))], v) <==> (Find(w.scope, "Field").None? ==> AllConstraints(w.lang, unions, v))
  {
    FieldMeans(w.lang, unions, v);
    assert AllMetadata(w, [One(Call("Field", ArgsOf(unions)))], v) <==> MetaAllows(w, [One(Call("Field", ArgsOf(unions)))][0], v);
  }

  // ----- strings --------------------------------------------------------------------------------------

  /** What the annotation of a string node accepts, with the names as they are taken. */
  predicate TextRead(w: World, node: Node, v: Node)
    requires node.Dict?
  {
    && AllowsName(w, "str", v)
    && (Find(w.scope, "Field").None? ==> PatternRead(w.lang, node, v) && LengthRead(node, v))
    && (Find(w.scope, "AfterValidator").None? ==> ChecksRead(w.lang, w.globals, node, v))
  }

  lemma MetadataReads(w: World, node: Node, v: Node)
    requires node.Dict? && AllEvaluate(w.lang, w.scope, Metadata(node))
    ensures AllMetadata(w, Metadata(node), v) <==>
      && (Find(w.scope, "Field").None? ==> PatternRead(w.lang, node, v) && LengthRead(node, v))
      && (Find(w.scope, "AfterValidator").None? ==> ChecksRead(w.lang, w.globals, node, v))
  {
    var field := if ConstraintsOf(node) == [] then [] else [One(Call("Field", ArgsOf(ConstraintsOf(node))))];
    AllMetadataAppend(w, field, ValidatorsOf(node), v);
    ConstraintsRead(w.lang, node, v);
    ChecksAgree(w, node, v);
    if ConstraintsOf(node) != [] {
      assert EvalMeta(w.lang, w.scope, [], field[0]).Some?;
      FieldReads(w, ConstraintsOf(node), v);
    }
  }

  predicate IsPlainText(node: Node) {
    node.Dict? && !Has(node, "const") && !Has(node, "enum")
  }

  lemma TextReads(w: World, node: Node, v: Node)
    requires IsPlainText(node) && EvaluableItems(w.lang, w.scope, StringUnion(node))
    ensures AllowsUnion(w, StringUnion(node), v) <==> TextRead(w, node, v)
  {
    if Metadata(node) != [] {
      MetadataMeans(w, Metadata(node), v);
      assert EvaluableItem(w.lang, w.scope, StringUnion(node).item);
    }
    MetadataReads(w, node, v);
    assert AllowsUnion(w, One(Name("str")), v) <==> AllowsName(w, "str", v);
  }

  /** The annotation accepts exactly the strings that the node allows. */
  ghost predicate TextKept(w: World, node: Node)
    requires node.Dict?
  {
    forall v :: TextRead(w, node, v) <==> v.Str? && TextHolds(w.lang, node, v)
  }

  // ----- literals -------------------------------------------------------------------------------------

  predicate SomeLiteral(values: seq<Node>, t: Text)
    requires forall i | 0 <= i < |values| :: values[i].Str?
  {
    exists i | 0 <= i < |values| :: PythonString(EscapeAll(values[i].text)) == Some(t)
  }

  lemma {:induction false} LiteralMeans(values: seq<Node>, t: Text)
    requires values != [] && forall i | 0 <= i < |values| :: values[i].Str?
    ensures LiteralHolds(LiteralUnion(values).item.args, t) <==> SomeLiteral(values, t)
  {
    var unions := seq(|values|, i requires 0 <= i < |values| => One(Quoted(values[i].text)));
    if |values| > 1 {
      LiteralMeans(values[1..], t);
      assert unions[1..] == seq(|values[1..]|, i requires 0 <= i < |values[1..]| => One(Quoted(values[1..][i].text)));
      assert LiteralUnion(values).item.args == Comma(unions[0], LiteralUnion(values[1..]).item.args);
      if SomeLiteral(values[1..], t) {
        var i :| 0 <= i < |values[1..]| && PythonString(EscapeAll(values[1..][i].text)) == Some(t);
        assert PythonString(EscapeAll(values[i + 1].text)) == Some(t);
      }
      if SomeLiteral(values, t) {
        var i :| 0 <= i < |values| && PythonString(EscapeAll(values[i].text)) == Some(t);
        assert i > 0 ==> PythonString(EscapeAll(values[1..][i - 1].text)) == Some(t);
      }
    }
  }

  predicate AllNoAstral(values: seq<Node>)
    requires DistinctTexts(values)
  {
    forall i | 0 <= i < |values| :: NoAstral(values[i].text)
  }

  lemma LiteralsRead(w: World, values: seq<Node>, v: Node)
    requires values != [] && DistinctTexts(values) && Find(w.scope, "Literal").None?
    ensures AllowsUnion(w, LiteralUnion(values), v) <==> v.Str? && SomeLiteral(values, v.text)
  {
    if v.Str? {
      LiteralMeans(values, v.text);
    }
  }

  /** A compiled literal accepts its own values, and only these, exactly when none has an astral character. */
  lemma LiteralsFaithful(w: World, values: seq<Node>)
    requires values != [] && DistinctTexts(values) && Find(w.scope, "Literal").None?
    ensures (forall v :: AllowsUnion(w, LiteralUnion(values), v) <==> v in values) <==> AllNoAstral(values)
  {
    if AllNoAstral(values) {
      forall v ensures AllowsUnion(w, LiteralUnion(values), v) <==> v in values {
        LiteralsRead(w, values, v);
        forall i | 0 <= i < |values| ensures PythonString(EscapeAll(values[i].text)) == Some(values[i].text) {
          LiteralFaithful(values[i].text);
        }
      }
    } else {
      var i :| 0 <= i < |values| && !NoAstral(values[i].text);
      AstralRefused(w, values, i);
      assert values[i] in values;
    }
  }

  lemma AstralRefused(w: World, values: seq<Node>, i: nat)
    requires values != [] && DistinctTexts(values) && i < |values| && !NoAstral(values[i].text)
    ensures !AllowsUnion(w, LiteralUnion(values), values[i])
  {
    var t := values[i].text;
    if Find(w.scope, "Literal").None? {
      LiteralsRead(w, values, values[i]);
      if SomeLiteral(values, t) {
        var j :| 0 <= j < |values| && PythonString(EscapeAll(values[j].text)) == Some(t);
        LiteralValue(values[j].text);
        NoUnitsOfAstral(values[j].text);
        assert false;
      }
    }
  }

  /** UTF-16 units are never astral. */
  lemma {:induction false} NoUnitsOfAstral(s: Text)
    ensures NoAstral(Utf16(s))
  {
    if s != [] {
      NoUnitsOfAstral(s[1..]);
    }
  }

  // ----- booleans ---------------------------------------------------------------------------------------

  /** What `bool` stands for accepts exactly the truth values. */
  ghost predicate BoolKept(w: World) {
    forall v :: AllowsName(w, "bool", v) <==> v.Flag?
  }
}
