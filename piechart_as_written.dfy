/** The category breakdown as the handler writes it: the accumulator is a
    plain JavaScript object, so looking up a category also sees the members
    every object inherits from Object.prototype. */
module PieChartAsWritten {
  import opened Store
  import opened PieChart

  /** The JavaScript values a lookup in the accumulator can give. */
  datatype JsValue =
    | Undefined
    | Number(n: int)
    | NaN
    | Inherited  // a function or object inherited from Object.prototype

  /** Names an empty object already answers to, through Object.prototype. */
  const PrototypeMembers: set<string> := {
    "constructor", "hasOwnProperty", "isPrototypeOf", "propertyIsEnumerable",
    "toLocaleString", "toString", "valueOf", "__defineGetter__",
    "__defineSetter__", "__lookupGetter__", "__lookupSetter__", "__proto__"}

  /** `acc[key]`: an own property, else an inherited member, else undefined. */
  function Get(acc: map<string, JsValue>, key: string): JsValue
  {
    if key in acc then acc[key] else if key in PrototypeMembers then Inherited else Undefined
  }

  predicate Truthy(v: JsValue)
  {
    match v
    case Undefined => false
    case Number(n) => n != 0
    case NaN => false
    case Inherited => true
  }

  /** `acc[key] = v` for a number `v`: assigning a number to `__proto__`
      changes nothing. */
  function Put(acc: map<string, JsValue>, key: string, v: JsValue): map<string, JsValue>
  {
    if key == "__proto__" then acc else acc[key := v]
  }

  /** The value `acc[key]++` stores: one more for a number, NaN otherwise. */
  function Incremented(v: JsValue): JsValue
  {
    match v
    case Number(n) => Number(n + 1)
    case _ => NaN
  }

  /** The reducer's step for one record of category `category`. */
  function JsTally(acc: map<string, JsValue>, category: string): (next: map<string, JsValue>)
    ensures forall c :: c in next <==> c in acc || (c == category && c != "__proto__")
    ensures forall c :: c in acc && c != category ==> next[c] == acc[c]
    ensures category != "__proto__" && !Truthy(Get(acc, category)) ==> next[category] == Number(1)
    ensures category != "__proto__" && Truthy(Get(acc, category)) ==>
      next[category] == Incremented(Get(acc, category))
  {
    if !Truthy(Get(acc, category)) then Put(acc, category, Number(1))
    else Put(acc, category, Incremented(Get(acc, category)))
  }

  /** The reduction of the handler, record by record from the left. */
  function CategoryCountsAsWritten(s: seq<Transaction>): (acc: map<string, JsValue>)
    ensures forall c :: c in acc ==> c in Categories(s) && c != "__proto__"
  {
    if s == [] then map[]
    else JsTally(CategoryCountsAsWritten(s[..|s| - 1]), s[|s| - 1].category)
  }

  /** `acc` holds the counts of `m` as numbers, under the same keys. */
  predicate Mirrors(acc: map<string, JsValue>, m: map<string, nat>)
  {
    && acc.Keys == m.Keys
    && forall c :: c in m ==> acc[c] == Number(m[c])
  }

  /** Off Object.prototype's names, the reducer's step is the intended one. */
  lemma JsTallyMirrorsTally(acc: map<string, JsValue>, m: map<string, nat>, category: string)
    requires Mirrors(acc, m) && category !in PrototypeMembers
    requires forall c :: c in m ==> m[c] >= 1
    ensures Mirrors(JsTally(acc, category), Tally(m, category))
  {
  }

  /** One record of category "constructor" is counted NaN and two are
      counted 1, where the intended breakdown counts 1 and 2. */
  lemma ConstructorCategoryMiscounted(t: Transaction)
    requires t.category == "constructor"
    ensures CategoryCountsAsWritten([t]) == map["constructor" := NaN]
    ensures CategoryCountsAsWritten([t, t]) == map["constructor" := Number(1)]
    ensures CategoryCounts([t]) == map["constructor" := 1]
    ensures CategoryCounts([t, t]) == map["constructor" := 2]
  {
    assert [t, t][..1] == [t];
    assert [t][..0] == [];
    assert CategoryCount([t], "constructor") == 1;
    assert Categories([t]) == {"constructor"};
    assert Categories([t, t]) == {"constructor"};
    assert CategoryCount([t, t], "constructor") == 2;
  }

  /** Under any other name Object.prototype answers to, the handler's
      reduction holds nothing before the first record of that category, NaN
      after the first, and one less than the true count from the second on. */
  lemma {:induction false} PrototypeNameMiscounted(s: seq<Transaction>, p: string)
    requires p in PrototypeMembers && p != "__proto__"
    ensures Miscounted(CategoryCountsAsWritten(s), p, CategoryCount(s, p))
  {
    if s != [] {
      var init, last := s[..|s| - 1], s[|s| - 1];
      PrototypeNameMiscounted(init, p);
      var acc := CategoryCountsAsWritten(init);
      MiscountStep(acc, p, CategoryCount(init, p), last.category);
      assert CategoryCountsAsWritten(s) == JsTally(acc, last.category);
      assert CategoryCount(s, p) == CategoryCount(init, p) + (if last.category == p then 1 else 0);
    }
  }

  /** `acc` holds under `p` what the handler leaves after `k` records of
      category `p`: nothing, then NaN, then k - 1. */
  predicate Miscounted(acc: map<string, JsValue>, p: string, k: nat)
  {
    && (p in acc <==> k >= 1)
    && (k == 1 ==> acc[p] == NaN)
    && (k >= 2 ==> acc[p] == Number(k - 1))
  }

  lemma MiscountStep(acc: map<string, JsValue>, p: string, k: nat, category: string)
    requires p in PrototypeMembers && p != "__proto__"
    requires Miscounted(acc, p, k)
    ensures Miscounted(JsTally(acc, category), p, k + (if category == p then 1 else 0))
  {
    if category == p {
      if k == 0 {
        assert Get(acc, p) == Inherited;
      } else if k == 1 {
        assert Get(acc, p) == NaN;
      } else {
        assert Get(acc, p) == Number(k - 1);
      }
    }
  }

  /** A record of category "__proto__" never appears in the breakdown. */
  lemma ProtoCategoryDropped(s: seq<Transaction>)
    ensures "__proto__" !in CategoryCountsAsWritten(s)
  {
  }

  /** Where no category is named like a member of Object.prototype, the
      handler's reduction gives exactly the intended breakdown. */
  lemma {:induction false} AsWrittenAgreesOffPrototype(s: seq<Transaction>)
    requires forall t :: t in s ==> t.category !in PrototypeMembers
    ensures Mirrors(CategoryCountsAsWritten(s), CategoryCounts(s))
  {
    if s == [] {
      assert CategoryCounts(s) == map[];
    } else {
      var init, last := s[..|s| - 1], s[|s| - 1];
      assert s == init + [last];
      assert forall t :: t in init ==> t in s;
      AsWrittenAgreesOffPrototype(init);
      AsWrittenStep(init, last);
    }
  }

  /** One record off Object.prototype's names keeps the reduction in step
      with the intended breakdown. */
  lemma AsWrittenStep(init: seq<Transaction>, last: Transaction)
    requires Mirrors(CategoryCountsAsWritten(init), CategoryCounts(init))
    requires last.category !in PrototypeMembers
    ensures Mirrors(CategoryCountsAsWritten(init + [last]), CategoryCounts(init + [last]))
  {
    var acc, m := CategoryCountsAsWritten(init), CategoryCounts(init);
    CategoryCountsAppend(init, last);
    JsTallyMirrorsTally(acc, m, last.category);
    assert (init + [last])[..|init|] == init;
    assert CategoryCountsAsWritten(init + [last]) == JsTally(acc, last.category);
  }
}
