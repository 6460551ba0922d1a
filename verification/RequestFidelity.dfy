/** What the canonical request binding promises: it is valid, complete and tells requests apart. */
module RequestFidelity {
  import opened Wrappers
  import opened Ordering
  import opened PythonText
  import opened RequestBinding

  // ----- sorting by UTF-8 bytes --------------------------------------------------------------

  lemma IntLessTotal()
    ensures StrictTotal(IntLess)
  {
  }

  lemma {:induction false} LexAt(x: seq<int>, y: seq<int>, k: nat)
    requires k < |x| && k < |y| && x[..k] == y[..k] && x[k] < y[k]
    ensures IntLex(x, y)
  {
    if k > 0 {
      assert x[0] == x[..k][0] == y[..k][0] == y[0];
      assert x[1..][..k - 1] == x[..k][1..] == y[..k][1..] == y[1..][..k - 1];
      LexAt(x[1..], y[1..], k - 1);
    }
  }

  lemma Digits(c: nat, d: nat)
    requires c <= d
    ensures c / 0x40 < d / 0x40 || (c / 0x40 == d / 0x40 && c % 0x40 - d % 0x40 == c - d)
  {
  }

  lemma LongestDiffer(c: CodePoint, d: CodePoint) returns (k: nat)
    requires 0x1_0000 <= c < d
    ensures k < 4 && EncodePoint(c)[..k] == EncodePoint(d)[..k] && EncodePoint(c)[k] < EncodePoint(d)[k]
  {
    Digits(c, d);
    Digits(c / 0x40, d / 0x40);
    Digits(c / 0x40 / 0x40, d / 0x40 / 0x40);
    k := if c / 0x40 == d / 0x40 then 3 else if c / 0x40 / 0x40 == d / 0x40 / 0x40 then 2
      else if c / 0x40 / 0x40 / 0x40 == d / 0x40 / 0x40 / 0x40 then 1 else 0;
  }

  lemma LongDiffer(c: CodePoint, d: CodePoint) returns (k: nat)
    requires 0x800 <= c < d < 0x1_0000
    ensures k < 3 && EncodePoint(c)[..k] == EncodePoint(d)[..k] && EncodePoint(c)[k] < EncodePoint(d)[k]
  {
    Digits(c, d);
    Digits(c / 0x40, d / 0x40);
    k := if c / 0x40 == d / 0x40 then 2 else if c / 0x40 / 0x40 == d / 0x40 / 0x40 then 1 else 0;
  }

  /** Of two code points the smaller has the smaller byte where their encodings first differ. */
  lemma EncodingsDiffer(c: CodePoint, d: CodePoint) returns (k: nat)
    requires c < d
    ensures k < |EncodePoint(c)| && k < |EncodePoint(d)|
    ensures EncodePoint(c)[..k] == EncodePoint(d)[..k] && EncodePoint(c)[k] < EncodePoint(d)[k]
  {
    k := 0;
    if 0x1_0000 <= c {
      k := LongestDiffer(c, d);
    } else if 0x800 <= c && d < 0x1_0000 {
      k := LongDiffer(c, d);
    } else if 0x80 <= c && d < 0x800 {
      Digits(c, d);
      k := if c / 0x40 == d / 0x40 then 1 else 0;
    }
  }

  lemma EncodeOrder(c: CodePoint, d: CodePoint, x: seq<int>, y: seq<int>)
    requires c < d
    ensures IntLex(EncodePoint(c) + x, EncodePoint(d) + y)
  {
    var k := EncodingsDiffer(c, d);
    var e, f := EncodePoint(c), EncodePoint(d);
    assert (e + x)[..k] == e[..k] && (f + y)[..k] == f[..k];
    LexAt(e + x, f + y, k);
  }

  lemma {:induction false} LexCommonPrefix(p: seq<int>, x: seq<int>, y: seq<int>)
    ensures IntLex(p + x, p + y) <==> IntLex(x, y)
  {
    if p == [] {
      assert p + x == x && p + y == y;
    } else {
      assert (p + x)[1..] == p[1..] + x && (p + y)[1..] == p[1..] + y;
      LexCommonPrefix(p[1..], x, y);
    }
  }

  lemma LexAsymmetric(x: seq<int>, y: seq<int>)
    requires IntLex(x, y)
    ensures !IntLex(y, x)
  {
    if IntLex(y, x) {
      LexTransitive(IntLess, x, y, x);
      LexIrreflexive(IntLess, x);
    }
  }

  lemma IntConnected(x: seq<int>, y: seq<int>)
    ensures x == y || IntLex(x, y) || IntLex(y, x)
  {
    IntLessTotal();
    LexConnected(IntLess, x, y);
  }

  /** Comparing UTF-8 bytes is comparing code points. */
  lemma {:induction false} Utf8Order(a: Text, b: Text)
    ensures Utf8Less(a, b) <==> IntLex(a, b)
  {
    if a == [] || b == [] {
    } else if a[0] == b[0] {
      Utf8Order(a[1..], b[1..]);
      LexCommonPrefix(EncodePoint(a[0]), Utf8(a[1..]), Utf8(b[1..]));
    } else if a[0] < b[0] {
      EncodeOrder(a[0], b[0], Utf8(a[1..]), Utf8(b[1..]));
    } else {
      EncodeOrder(b[0], a[0], Utf8(b[1..]), Utf8(a[1..]));
      LexAsymmetric(Utf8(b), Utf8(a));
    }
  }

  lemma Utf8LessTotal()
    ensures StrictTotal(Utf8Less)
  {
    IntLessTotal();
    forall a: Text ensures !Utf8Less(a, a) {
      LexIrreflexive(IntLess, Utf8(a));
    }
    forall a: Text, b: Text, c: Text | Utf8Less(a, b) && Utf8Less(b, c) ensures Utf8Less(a, c) {
      LexTransitive(IntLess, Utf8(a), Utf8(b), Utf8(c));
    }
    forall a: Text, b: Text | a != b ensures Utf8Less(a, b) || Utf8Less(b, a) {
      IntConnected(a, b);
      Utf8Order(a, b);
      Utf8Order(b, a);
    }
  }

  lemma TailMultiset<T>(a: seq<T>)
    requires a != []
    ensures multiset(a[1..]) == multiset(a) - multiset{a[0]}
  {
    assert a == [a[0]] + a[1..];
  }

  /** A sorted sequence is determined by its elements. */
  lemma {:induction false} SortedUnique<T(!new)>(less: (T, T) -> bool, a: seq<T>, b: seq<T>)
    requires StrictTotal(less) && SortedBy(less, a) && SortedBy(less, b)
    requires multiset(a) == multiset(b)
    ensures a == b
  {
    if a == [] {
      assert |multiset(b)| == 0;
    } else {
      assert |multiset(a)| == |multiset(b)|;
      assert a[0] in multiset(b) && b[0] in multiset(a);
      assert a[0] == b[0];
      TailMultiset(a);
      TailMultiset(b);
      SortedUnique(less, a[1..], b[1..]);
    }
  }

  lemma SortsAgree(a: seq<Text>, b: seq<Text>)
    ensures Sort(Utf8Less, a) == Sort(Utf8Less, b) <==> multiset(a) == multiset(b)
  {
    Utf8LessTotal();
    SortSorted(Utf8Less, a);
    SortSorted(Utf8Less, b);
    if multiset(a) == multiset(b) {
      SortedUnique(Utf8Less, Sort(Utf8Less, a), Sort(Utf8Less, b));
    }
  }

  // ----- one member ----------------------------------------------------------------------------

  predicate SomeDigest(sha: seq<int> -> Text, b: seq<int>) {
    IsHex64(sha(b))
  }

  /** The digest function returns 64 lowercase hexadecimal digits. */
  ghost predicate IsDigest(sha: seq<int> -> Text) {
    forall b :: SomeDigest(sha, b)
  }

  lemma {:induction false} TextsMean(items: seq<Value>)
    ensures Texts(items).Some? <==> forall i | 0 <= i < |items| :: items[i].Chars? && IsUnicode(items[i].text)
    ensures Texts(items).Some? ==> |Texts(items).value| == |items|
    ensures Texts(items).Some? ==> forall i | 0 <= i < |items| :: items[i] == Chars(Texts(items).value[i])
  {
    if items != [] {
      TextsMean(items[1..]);
      assert forall i | 0 <= i < |items| :: items[i] == if i == 0 then items[0] else items[1..][i - 1];
    }
  }

  lemma ArrayIsValid(v: Value)
    requires ProjectArray(v).Some?
    ensures Valid(Array, ProjectArray(v).value)
  {
    TextsMean(v.items);
    var texts := Texts(v.items).value;
    forall i | 0 <= i < |texts| ensures IsUnicode(TextList(texts).items[i].text) {
      assert v.items[i] == Chars(texts[i]);
    }
  }

  lemma ListOfTexts(texts: seq<Text>)
    ensures ValidTexts(TextList(texts)) && ListTexts(TextList(texts)) == texts
  {
  }

  lemma SortedAgain(texts: seq<Text>)
    ensures Sort(Utf8Less, Sort(Utf8Less, texts)) == Sort(Utf8Less, texts)
  {
    SortsAgree(Sort(Utf8Less, texts), texts);
  }

  lemma DistinctFromRest(texts: seq<Text>)
    requires texts != []
    ensures AllDistinct(texts) <==> AllDistinct(texts[1..]) && texts[0] !in texts[1..]
  {
    var rest := texts[1..];
    if AllDistinct(texts) {
      forall i, j | 0 <= i < j < |rest| ensures rest[i] != rest[j] {
        assert texts[i + 1] != texts[j + 1];
      }
    }
    if AllDistinct(rest) && texts[0] !in rest {
      forall i, j | 0 <= i < j < |texts| ensures texts[i] != texts[j] {
        assert texts[j] == rest[j - 1];
      }
    }
  }

  predicate OnceEach(texts: seq<Text>) {
    forall t | t in texts :: multiset(texts)[t] == 1
  }

  lemma {:induction false} DistinctMeans(texts: seq<Text>)
    ensures AllDistinct(texts) <==> OnceEach(texts)
  {
    if texts != [] {
      var rest := texts[1..];
      DistinctMeans(rest);
      DistinctFromRest(texts);
      assert texts == [texts[0]] + rest;
      assert multiset(texts) == multiset{texts[0]} + multiset(rest);
      if OnceEach(texts) {
        assert multiset(texts)[texts[0]] == 1;
        forall t | t in rest ensures multiset(rest)[t] == 1 {
          assert t in texts;
        }
      }
    }
  }

  lemma SameElementsDistinct(a: seq<Text>, b: seq<Text>)
    requires multiset(a) == multiset(b)
    ensures SetOk(a) <==> SetOk(b)
  {
    DistinctMeans(a);
    DistinctMeans(b);
    assert forall t :: t in a <==> t in multiset(a);
    assert forall t :: t in b <==> t in multiset(b);
    assert (forall t | t in a :: !IsBlank(t)) <==> (forall i | 0 <= i < |a| :: !IsBlank(a[i]));
    assert (forall t | t in b :: !IsBlank(t)) <==> (forall i | 0 <= i < |b| :: !IsBlank(b[i]));
  }

  lemma SortedSetIsValid(texts: seq<Text>)
    requires SetOk(texts) && texts == Sort(Utf8Less, texts) && forall t | t in texts :: IsUnicode(t)
    ensures ValidSet(TextList(texts))
  {
    ListOfTexts(texts);
    forall i | 0 <= i < |texts| ensures texts[i] != [] && IsUnicode(texts[i]) {
      assert !IsBlank(texts[i]) && texts[i] in texts;
    }
  }

  lemma SetIsValid(v: Value)
    requires ProjectSet(v).Some?
    ensures Valid(Set, ProjectSet(v).value)
  {
    TextsMean(v.items);
    var texts := Texts(v.items).value;
    SameElementsDistinct(texts, Sort(Utf8Less, texts));
    SortMembers(Utf8Less, texts);
    SortedAgain(texts);
    forall t | t in texts ensures IsUnicode(t) {
      var i :| 0 <= i < |texts| && texts[i] == t;
      assert v.items[i] == Chars(t);
    }
    SortedSetIsValid(Sort(Utf8Less, texts));
  }

  lemma PageIsValid(v: Value)
    requires ProjectPage(v).Some?
    ensures Valid(Page, ProjectPage(v).value)
  {
    if !v.Nothing? {
      var cursor := ProjectOptional(v.cursor, ProjectString).value;
      assert ValidPresence(cursor, String);
      assert ValidNamed(PageRequest, Both(ProjectInteger(v.limit), Some(cursor), "limit", "cursor").value);
    }
  }

  lemma ScopeIsValid(v: Value)
    requires ProjectScope(v).Some?
    ensures Valid(Msg(OwnerScope), ProjectScope(v).value)
  {
  }

  lemma CommandIsValid(v: Value)
    requires ProjectCommand(v).Some?
    ensures Valid(Command, ProjectCommand(v).value)
  {
  }

  lemma IdentityIsValid(w: Wrapper, v: Value)
    requires ProjectIdentity(w, v).Some?
    ensures Valid(Id(w), ProjectIdentity(w, v).value)
  {
    if !v.Nothing? {
      assert Valid(Wrapped(w), JText(v.value.text));
    }
  }

  /** Each projected member passes the validator for its kind. */
  lemma ProjectedIsValid(sha: seq<int> -> Text, k: Kind, v: Value)
    requires Supported(k) && IsDigest(sha)
    requires Project(sha, k, v).Some?
    ensures Valid(k, Project(sha, k, v).value)
  {
    match k
    case Array => ArrayIsValid(v);
    case Set => SetIsValid(v);
    case Page => PageIsValid(v);
    case Command => CommandIsValid(v);
    case Msg(_) => ScopeIsValid(v);
    case Id(w) => IdentityIsValid(w, v);
    case Hex64 => assert SomeDigest(sha, v.octets);
    case _ =>
  }

  // ----- what is projected exactly ---------------------------------------------------------------

  /** What the validator leaves open: strings that are no UTF-8, and blank elements of a set. */
  predicate Clean(k: Kind, j: Json)
    requires Supported(k) && Valid(k, j)
  {
    match k
    case Set => forall i | 0 <= i < |j.items| :: !IsBlank(j.items[i].text)
    case Msg(_) => j.members["present"].flag ==> CleanScope(j.members["value"])
    case Command => j.members["present"].flag ==> IsUnicode(j.members["value"].members["command_id"].text)
    case _ => true
  }

  predicate CleanScope(j: Json)
    requires ValidNamed(OwnerScope, j)
  {
    IsUnicode(j.members["kind"].text) && IsUnicode(j.members["id"].text)
  }

  predicate IsOptional(k: Kind) {
    k.Id? || k.Msg? || k.Opt? || k.Command? || k.Page?
  }

  /** What the presence of an optional member holds. */
  function Inside(k: Kind): Kind
    requires IsOptional(k)
  {
    match k
    case Id(w) => Wrapped(w)
    case Msg(shape) => Named(shape)
    case Command => Named(CommandIdentity)
    case Page => Named(PageRequest)
    case Opt(inner) => inner
  }

  lemma ValidOptional(k: Kind, j: Json)
    requires IsOptional(k)
    ensures Valid(k, j) <==> ValidPresence(j, Inside(k))
  {
  }

  /** The field that projects to a given member. */
  function Restore(k: Kind, j: Json): Value
    requires Supported(k) && !k.Hex64? && Valid(k, j)
  {
    if IsOptional(k) then
      ValidOptional(k, j);
      if j.members["present"].flag then RestoreInside(k, j.members["value"]) else Nothing
    else if k.String? then Chars(j.text)
    else if k.Boolean? then Flag(j.flag)
    else if k.Enum? then Number(j.number)
    else RestoreItems(j)
  }

  function RestoreItems(j: Json): Value
    requires ValidTexts(j)
  {
    Many(seq(|j.items|, i requires 0 <= i < |j.items| => Chars(j.items[i].text)))
  }

  function RestoreInside(k: Kind, j: Json): Value
    requires Supported(k) && IsOptional(k) && Valid(Inside(k), j)
  {
    match k
    case Id(w) => IdOf(w, Chars(j.text))
    case Opt(inner) => if inner.String? then Chars(j.text) else Flag(j.flag)
    case Msg(_) => ScopeOf(Chars(j.members["kind"].text), Chars(j.members["id"].text))
    case Command => CommandOf(Chars(j.members["command_id"].text), Chars(j.members["request_digest"].text))
    case Page =>
      assert ValidNamed(PageRequest, j);
      assert Valid(SafeInteger, j.members["limit"]);
      PageOf(Number(j.members["limit"].number), RestoreOptional(j.members["cursor"]))
  }

  function RestoreOptional(j: Json): Value
    requires ValidPresence(j, String)
  {
    if j.members["present"].flag then Chars(j.members["value"].text) else Nothing
  }

  lemma MapOfTwo(m: map<string, Json>, first: string, second: string)
    requires m.Keys == {first, second}
    ensures m == map[first := m[first], second := m[second]]
  {
  }

  lemma MapOfOne(m: map<string, Json>, key: string)
    requires m.Keys == {key}
    ensures m == map[key := m[key]]
  {
  }

  lemma PresenceRestored(j: Json, k: Kind)
    requires ValidPresence(j, k)
    ensures j == if j.members["present"].flag then Present(j.members["value"]) else Absent()
  {
    if j.members["present"].flag {
      MapOfTwo(j.members, "present", "value");
    } else {
      MapOfOne(j.members, "present");
    }
  }

  lemma OptionalRestored(j: Json)
    requires ValidPresence(j, String)
    ensures ProjectOptional(RestoreOptional(j), ProjectString) == Some(j)
  {
    PresenceRestored(j, String);
  }

  lemma PageRestored(j: Json)
    requires Valid(Named(PageRequest), j)
    ensures ProjectPage(RestoreInside(Page, j)) == Some(Present(j))
  {
    assert ValidNamed(PageRequest, j) && Valid(SafeInteger, j.members["limit"]);
    OptionalRestored(j.members["cursor"]);
    MapOfTwo(j.members, "limit", "cursor");
  }

  lemma ScopeRestored(j: Json)
    requires Valid(Named(OwnerScope), j)
    requires CleanScope(j)
    ensures ProjectScope(RestoreInside(Msg(OwnerScope), j)) == Some(Present(j))
  {
    MapOfTwo(j.members, "kind", "id");
  }

  lemma CommandRestored(j: Json)
    requires Valid(Named(CommandIdentity), j)
    requires IsUnicode(j.members["command_id"].text)
    ensures ProjectCommand(RestoreInside(Command, j)) == Some(Present(j))
  {
    MapOfTwo(j.members, "command_id", "request_digest");
  }

  lemma ItemsRestored(j: Json)
    requires ValidTexts(j) && forall i | 0 <= i < |j.items| :: IsUnicode(j.items[i].text)
    ensures Texts(RestoreItems(j).items) == Some(ListTexts(j)) && TextList(ListTexts(j)) == j
  {
    var v := RestoreItems(j);
    TextsMean(v.items);
    var texts := Texts(v.items).value;
    assert texts == ListTexts(j) by {
      forall i | 0 <= i < |texts| ensures texts[i] == ListTexts(j)[i] {
        assert v.items[i] == Chars(texts[i]);
      }
    }
    assert TextList(ListTexts(j)).items == j.items;
  }

  lemma SetRestored(j: Json)
    requires Valid(Set, j) && Clean(Set, j)
    ensures ProjectSet(Restore(Set, j)) == Some(j)
  {
    ItemsRestored(j);
    forall i | 0 <= i < |ListTexts(j)| ensures !IsBlank(ListTexts(j)[i]) {
      assert !IsBlank(j.items[i].text);
    }
  }

  lemma InsideRestored(sha: seq<int> -> Text, k: Kind, j: Json)
    requires Supported(k) && IsOptional(k) && Valid(k, j) && Clean(k, j)
    requires ValidPresence(j, Inside(k)) && j.members["present"].flag
    ensures Project(sha, k, RestoreInside(k, j.members["value"])) == Some(j)
  {
    PresenceRestored(j, Inside(k));
    var value := j.members["value"];
    match k
    case Page => PageRestored(value);
    case Msg(_) => ScopeRestored(value);
    case Command => CommandRestored(value);
    case _ =>
  }

  /** A valid clean member is the projection of the field restored from it. */
  lemma RestoredProjects(sha: seq<int> -> Text, k: Kind, j: Json)
    requires Supported(k) && !k.Hex64? && Valid(k, j) && Clean(k, j)
    ensures Project(sha, k, Restore(k, j)) == Some(j)
  {
    if IsOptional(k) {
      ValidOptional(k, j);
      PresenceRestored(j, Inside(k));
      if j.members["present"].flag {
        InsideRestored(sha, k, j);
      }
    } else if k.Set? {
      SetRestored(j);
    } else if k.Array? {
      ItemsRestored(j);
    }
  }

  lemma ProjectedIsClean(sha: seq<int> -> Text, k: Kind, v: Value)
    requires Supported(k) && IsDigest(sha)
    requires Project(sha, k, v).Some? && Valid(k, Project(sha, k, v).value)
    ensures Clean(k, Project(sha, k, v).value)
  {
    if k.Set? {
      var texts := Texts(v.items).value;
      SameElementsDistinct(texts, Sort(Utf8Less, texts));
    }
  }

  ghost predicate IsProjection(sha: seq<int> -> Text, k: Kind, j: Json)
    requires Supported(k)
  {
    exists v :: Project(sha, k, v) == Some(j)
  }

  /** Exactly the valid clean members are projections of some field. */
  lemma ProjectionsAreTheValidOnes(sha: seq<int> -> Text, k: Kind, j: Json)
    requires Supported(k) && !k.Hex64? && IsDigest(sha)
    ensures IsProjection(sha, k, j) <==> Valid(k, j) && Clean(k, j)
  {
    if IsProjection(sha, k, j) {
      var v :| Project(sha, k, v) == Some(j);
      ProjectedIsValid(sha, k, v);
      ProjectedIsClean(sha, k, v);
    }
    if Valid(k, j) && Clean(k, j) {
      RestoredProjects(sha, k, j);
    }
  }

  // ----- telling requests apart --------------------------------------------------------------------

  /** Two fields stand for the same request: equal, or a set in another order. */
  predicate Same(k: Kind, a: Value, b: Value) {
    if k.Set? then a.Many? && b.Many? && multiset(a.items) == multiset(b.items) else a == b
  }

  ghost predicate Injective(sha: seq<int> -> Text) {
    forall a, b | sha(a) == sha(b) :: a == b
  }

  lemma {:induction false} TextsKeepCounts(items: seq<Value>)
    requires Texts(items).Some?
    ensures forall t: Text :: multiset(items)[Chars(t)] == multiset(Texts(items).value)[t]
  {
    if items != [] {
      TextsKeepCounts(items[1..]);
      assert items == [items[0]] + items[1..];
    }
  }

  lemma TextsSameCounts(a: seq<Value>, b: seq<Value>)
    requires Texts(a).Some? && Texts(b).Some?
    ensures multiset(a) == multiset(b) <==> multiset(Texts(a).value) == multiset(Texts(b).value)
  {
    TextsKeepCounts(a);
    TextsKeepCounts(b);
    if multiset(a) == multiset(b) {
      forall t: Text ensures multiset(Texts(a).value)[t] == multiset(Texts(b).value)[t] {
        assert multiset(a)[Chars(t)] == multiset(b)[Chars(t)];
      }
    }
    if multiset(Texts(a).value) == multiset(Texts(b).value) {
      TextsMean(a);
      TextsMean(b);
      forall v: Value ensures multiset(a)[v] == multiset(b)[v] {
        if v.Chars? {
          assert v == Chars(v.text);
        } else {
          assert v !in a && v !in b;
        }
      }
    }
  }

  lemma TextsOfSame(a: seq<Value>, b: seq<Value>)
    requires multiset(a) == multiset(b)
    ensures Texts(a).Some? <==> Texts(b).Some?
  {
    TextsMean(a);
    TextsMean(b);
    forall v: Value ensures v in a <==> v in b {
      assert v in multiset(a) <==> v in multiset(b);
    }
    assert (forall i | 0 <= i < |a| :: a[i].Chars? && IsUnicode(a[i].text)) <==> (forall v | v in a :: v.Chars? && IsUnicode(v.text));
    assert (forall i | 0 <= i < |b| :: b[i].Chars? && IsUnicode(b[i].text)) <==> (forall v | v in b :: v.Chars? && IsUnicode(v.text));
  }

  /** Permuting a set changes nothing, also not whether it is refused. */
  lemma PermutedSet(a: seq<Value>, b: seq<Value>)
    requires multiset(a) == multiset(b)
    ensures ProjectSet(Many(a)) == ProjectSet(Many(b))
  {
    TextsOfSame(a, b);
    if Texts(a).Some? {
      TextsSameCounts(a, b);
      SameElementsDistinct(Texts(a).value, Texts(b).value);
      SortsAgree(Texts(a).value, Texts(b).value);
    }
  }

  lemma ListsAgree(a: seq<Text>, b: seq<Text>)
    ensures TextList(a) == TextList(b) <==> a == b
  {
    ListOfTexts(a);
    ListOfTexts(b);
  }

  lemma ArraysAgree(a: Value, b: Value)
    requires ProjectArray(a).Some? && ProjectArray(b).Some?
    ensures ProjectArray(a) == ProjectArray(b) <==> a == b
  {
    ListsAgree(Texts(a.items).value, Texts(b.items).value);
    TextsMean(a.items);
    TextsMean(b.items);
    if Texts(a.items) == Texts(b.items) {
      assert a.items == b.items;
    }
  }

  lemma SetsAgree(a: Value, b: Value)
    requires ProjectSet(a).Some? && ProjectSet(b).Some?
    ensures ProjectSet(a) == ProjectSet(b) <==> multiset(a.items) == multiset(b.items)
  {
    ListsAgree(Sort(Utf8Less, Texts(a.items).value), Sort(Utf8Less, Texts(b.items).value));
    SortsAgree(Texts(a.items).value, Texts(b.items).value);
    TextsSameCounts(a.items, b.items);
  }

  lemma PresentInjective(a: Json, b: Json)
    ensures Present(a) == Present(b) <==> a == b
    ensures Present(a) != Absent()
  {
    assert Present(a).members["value"] == a && Present(b).members["value"] == b;
    assert "value" !in Absent().members;
  }

  lemma BothInjective(a: Json, b: Json, c: Json, d: Json, first: string, second: string)
    requires first != second
    ensures JObject(map[first := a, second := b]) == JObject(map[first := c, second := d]) <==> a == c && b == d
  {
    var m, n := map[first := a, second := b], map[first := c, second := d];
    assert m[first] == a && m[second] == b && n[first] == c && n[second] == d;
  }

  lemma ScopesAgree(a: Value, b: Value)
    requires ProjectScope(a).Some? && ProjectScope(b).Some?
    ensures ProjectScope(a) == ProjectScope(b) <==> a == b
  {
    if a.ScopeOf? {
      var pa := Both(ProjectNonempty(a.kind), ProjectNonempty(a.id), "kind", "id").value;
      PresentInjective(pa, pa);
      if b.ScopeOf? {
        PresentInjective(pa, Both(ProjectNonempty(b.kind), ProjectNonempty(b.id), "kind", "id").value);
        BothInjective(JText(a.kind.text), JText(a.id.text), JText(b.kind.text), JText(b.id.text), "kind", "id");
      }
    } else if b.ScopeOf? {
      var pb := Both(ProjectNonempty(b.kind), ProjectNonempty(b.id), "kind", "id").value;
      PresentInjective(pb, pb);
    }
  }

  lemma CommandsAgree(a: Value, b: Value)
    requires ProjectCommand(a).Some? && ProjectCommand(b).Some?
    ensures ProjectCommand(a) == ProjectCommand(b) <==> a == b
  {
    if a.CommandOf? {
      var pa := Both(ProjectNonempty(a.commandId), ProjectString(a.digest), "command_id", "request_digest").value;
      PresentInjective(pa, pa);
      if b.CommandOf? {
        PresentInjective(pa, Both(ProjectNonempty(b.commandId), ProjectString(b.digest), "command_id", "request_digest").value);
        BothInjective(JText(a.commandId.text), JText(a.digest.text), JText(b.commandId.text), JText(b.digest.text), "command_id", "request_digest");
      }
    } else if b.CommandOf? {
      var pb := Both(ProjectNonempty(b.commandId), ProjectString(b.digest), "command_id", "request_digest").value;
      PresentInjective(pb, pb);
    }
  }

  lemma OptionalsAgree(a: Value, b: Value, text: bool)
    requires ProjectOptional(a, if text then ProjectString else ProjectBoolean).Some?
    requires ProjectOptional(b, if text then ProjectString else ProjectBoolean).Some?
    ensures ProjectOptional(a, if text then ProjectString else ProjectBoolean) == ProjectOptional(b, if text then ProjectString else ProjectBoolean)
      <==> a == b
  {
    var project := if text then ProjectString else ProjectBoolean;
    if !a.Nothing? {
      PresentInjective(project(a).value, project(if b.Nothing? then a else b).value);
    } else if !b.Nothing? {
      PresentInjective(project(b).value, project(b).value);
    }
  }

  lemma PagesAgree(a: Value, b: Value)
    requires ProjectPage(a).Some? && ProjectPage(b).Some?
    ensures ProjectPage(a) == ProjectPage(b) <==> a == b
  {
    var inside := (v: Value) requires v.PageOf? =>
      Both(ProjectInteger(v.limit), ProjectOptional(v.cursor, ProjectString), "limit", "cursor");
    if a.PageOf? {
      PresentInjective(inside(a).value, inside(if b.PageOf? then b else a).value);
      if b.PageOf? {
        OptionalsAgree(a.cursor, b.cursor, true);
        BothInjective(JNumber(a.limit.number), ProjectOptional(a.cursor, ProjectString).value,
                      JNumber(b.limit.number), ProjectOptional(b.cursor, ProjectString).value, "limit", "cursor");
      }
    } else if b.PageOf? {
      PresentInjective(inside(b).value, inside(b).value);
    }
  }

  lemma IdentitiesAgree(w: Wrapper, a: Value, b: Value)
    requires ProjectIdentity(w, a).Some? && ProjectIdentity(w, b).Some?
    ensures ProjectIdentity(w, a) == ProjectIdentity(w, b) <==> a == b
  {
    if a.IdOf? {
      PresentInjective(JText(a.value.text), JText(if b.IdOf? then b.value.text else a.value.text));
    } else if b.IdOf? {
      PresentInjective(JText(b.value.text), JText(b.value.text));
    }
  }

  /** Two fields have the same projection exactly when they are the same field of a request. */
  lemma ProjectionDistinguishes(sha: seq<int> -> Text, k: Kind, a: Value, b: Value)
    requires Supported(k) && Injective(sha)
    requires Project(sha, k, a).Some? && Project(sha, k, b).Some?
    ensures Project(sha, k, a) == Project(sha, k, b) <==> Same(k, a, b)
  {
    match k
    case String => assert a == Chars(a.text) && b == Chars(b.text);
    case Boolean => assert a == Flag(a.flag) && b == Flag(b.flag);
    case Enum => assert a == Number(a.number) && b == Number(b.number);
    case Array => ArraysAgree(a, b);
    case Set => SetsAgree(a, b);
    case Command => CommandsAgree(a, b);
    case Page => PagesAgree(a, b);
    case Msg(_) => ScopesAgree(a, b);
    case Id(w) => IdentitiesAgree(w, a, b);
    case Opt(inner) => OptionalsAgree(a, b, inner.String?);
    case Hex64 => assert a == Octets(a.octets) && b == Octets(b.octets);
  }

  // ----- whole requests ------------------------------------------------------------------------------

  predicate MembersProject(sha: seq<int> -> Text, members: seq<(string, Kind)>, r: Request)
    requires forall i | 0 <= i < |members| :: Supported(members[i].1)
  {
    forall i | 0 <= i < |members| :: Project(sha, members[i].1, FieldOf(r, members[i])).Some?
  }

  lemma {:induction false} MembersMean(sha: seq<int> -> Text, members: seq<(string, Kind)>, r: Request)
    requires WellFormed(Binding([], members))
    ensures ProjectMembers(sha, members, r).Some? <==> MembersProject(sha, members, r)
    ensures ProjectMembers(sha, members, r).Some? ==>
      var j := ProjectMembers(sha, members, r).value;
      && j.Keys == (set i | 0 <= i < |members| :: members[i].0)
      && forall i | 0 <= i < |members| :: Project(sha, members[i].1, FieldOf(r, members[i])) == Some(j[members[i].0])
  {
    if members != [] {
      var init := members[..|members| - 1];
      MembersMean(sha, init, r);
      if MembersProject(sha, members, r) {
        forall i | 0 <= i < |init| ensures Project(sha, init[i].1, FieldOf(r, init[i])).Some? {
          assert init[i] == members[i];
        }
      }
      if ProjectMembers(sha, members, r).Some? {
        var j := ProjectMembers(sha, members, r).value;
        forall i | 0 <= i < |members|
          ensures members[i].0 in j && Project(sha, members[i].1, FieldOf(r, members[i])) == Some(j[members[i].0])
        {
          if i < |init| {
            assert init[i] == members[i];
          }
        }
        forall name ensures name in j <==> name in (set i | 0 <= i < |members| :: members[i].0) {
          if name in j && name != members[|members| - 1].0 {
            var i :| 0 <= i < |init| && init[i].0 == name;
            assert members[i].0 == name;
          }
        }
      }
    }
  }

  lemma RequestProjects(sha: seq<int> -> Text, b: Binding, tenant: Value, r: Request)
    requires WellFormed(b)
    ensures ProjectRequest(sha, b, tenant, r).Some? <==>
      && r.rpc == b.rpc && ProjectNonempty(tenant).Some? && ProjectNonempty(r.id).Some?
      && MembersProject(sha, b.members, r)
  {
    MembersMean(sha, b.members, r);
  }

  /** Whatever is projected passes the validator of the contract. */
  lemma RequestIsValid(sha: seq<int> -> Text, b: Binding, tenant: Value, r: Request)
    requires WellFormed(b) && IsDigest(sha)
    requires ProjectRequest(sha, b, tenant, r).Some?
    ensures ValidRequest(b, ProjectRequest(sha, b, tenant, r).value)
  {
    MembersMean(sha, b.members, r);
    var members := ProjectMembers(sha, b.members, r).value;
    forall i | 0 <= i < |b.members| ensures Valid(b.members[i].1, members[b.members[i].0]) {
      ProjectedIsValid(sha, b.members[i].1, FieldOf(r, b.members[i]));
    }
    assert ValidMembers(b.members, JObject(members));
    RootParts(sha, b, tenant, r);
  }

  predicate SameRequest(b: Binding, r: Request, q: Request) {
    && r.rpc == q.rpc && r.id == q.id
    && forall i | 0 <= i < |b.members| :: Same(b.members[i].1, FieldOf(r, b.members[i]), FieldOf(q, b.members[i]))
  }

  lemma RootParts(sha: seq<int> -> Text, b: Binding, tenant: Value, r: Request)
    requires WellFormed(b) && ProjectRequest(sha, b, tenant, r).Some?
    ensures ProjectRequest(sha, b, tenant, r).value.JObject?
    ensures var m := ProjectRequest(sha, b, tenant, r).value.members;
      && "request" in m && m["request"] == JObject(ProjectMembers(sha, b.members, r).value)
      && "tenant_ref" in m && m["tenant_ref"] == JText(tenant.text)
      && "request_id" in m && m["request_id"] == JText(r.id.text)
      && "fq_method" in m && m["fq_method"] == JText(b.rpc)
  {
  }

  lemma MembersAgree(sha: seq<int> -> Text, b: Binding, r: Request, q: Request)
    requires WellFormed(b) && Injective(sha)
    requires ProjectMembers(sha, b.members, r).Some? && ProjectMembers(sha, b.members, q).Some?
    ensures ProjectMembers(sha, b.members, r) == ProjectMembers(sha, b.members, q) <==>
      forall i | 0 <= i < |b.members| :: Same(b.members[i].1, FieldOf(r, b.members[i]), FieldOf(q, b.members[i]))
  {
    MembersMean(sha, b.members, r);
    MembersMean(sha, b.members, q);
    var m, n := ProjectMembers(sha, b.members, r).value, ProjectMembers(sha, b.members, q).value;
    forall i | 0 <= i < |b.members|
      ensures m[b.members[i].0] == n[b.members[i].0] <==> Same(b.members[i].1, FieldOf(r, b.members[i]), FieldOf(q, b.members[i]))
    {
      ProjectionDistinguishes(sha, b.members[i].1, FieldOf(r, b.members[i]), FieldOf(q, b.members[i]));
    }
    if forall i | 0 <= i < |b.members| :: Same(b.members[i].1, FieldOf(r, b.members[i]), FieldOf(q, b.members[i])) {
      forall name | name in m ensures m[name] == n[name] {
        var i :| 0 <= i < |b.members| && b.members[i].0 == name;
      }
      assert m == n;
    }
  }

  /** Two requests for the same tenant and method share a binding exactly when they agree up to the order of sets. */
  lemma RequestsDistinguished(sha: seq<int> -> Text, b: Binding, tenant: Value, r: Request, q: Request)
    requires WellFormed(b) && Injective(sha)
    requires ProjectRequest(sha, b, tenant, r).Some? && ProjectRequest(sha, b, tenant, q).Some?
    ensures ProjectRequest(sha, b, tenant, r) == ProjectRequest(sha, b, tenant, q) <==> SameRequest(b, r, q)
  {
    RootParts(sha, b, tenant, r);
    RootParts(sha, b, tenant, q);
    MembersAgree(sha, b, r, q);
    assert r.id == Chars(r.id.text) && q.id == Chars(q.id.text);
  }

  /** Bindings of different methods or tenants never coincide. */
  lemma MethodsDistinguished(sha: seq<int> -> Text, b: Binding, c: Binding, tenant: Value, other: Value, r: Request, q: Request)
    requires WellFormed(b) && WellFormed(c)
    requires ProjectRequest(sha, b, tenant, r).Some? && ProjectRequest(sha, c, other, q).Some?
    requires ProjectRequest(sha, b, tenant, r) == ProjectRequest(sha, c, other, q)
    ensures b.rpc == c.rpc && tenant == other && r.rpc == q.rpc && r.id == q.id
  {
    RootParts(sha, b, tenant, r);
    RootParts(sha, c, other, q);
  }
}
