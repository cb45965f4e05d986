/** The canonical form of a JSON schema. */
module CanonicalJsons {
  import opened StringSorts

  /** A parsed JSON value; an object lists its fields in the order of its keys. */
  datatype Json =
    | Null
    | Bool(flag: bool)
    | Number(number: real)
    | String(text: string)
    | Array(items: seq<Json>)
    | Object(fields: seq<Field>)

  datatype Field = Field(key: string, value: Json)

  function Keys(fields: seq<Field>): (ks: seq<string>)
    ensures |ks| == |fields| && forall i | 0 <= i < |ks| :: ks[i] == fields[i].key
  {
    seq(|fields|, i requires 0 <= i < |fields| => fields[i].key)
  }

  ghost predicate DistinctKeys(fields: seq<Field>) {
    forall i, j | 0 <= i < j < |fields| :: fields[i].key != fields[j].key
  }

  /** No object, at any depth, has a key twice. */
  ghost predicate WellFormed(v: Json) {
    match v
    case Array(items) => forall i | 0 <= i < |items| :: WellFormed(items[i])
    case Object(fields) => DistinctKeys(fields) && forall i | 0 <= i < |fields| :: WellFormed(fields[i].value)
    case _ => true
  }

  predicate AllStrings(items: seq<Json>) { forall i | 0 <= i < |items| :: items[i].String? }

  function Texts(items: seq<Json>): (ts: seq<string>)
    requires AllStrings(items)
    ensures |ts| == |items| && forall i | 0 <= i < |ts| :: ts[i] == items[i].text
  {
    seq(|items|, i requires 0 <= i < |items| => items[i].text)
  }

  function Strings(texts: seq<string>): (items: seq<Json>)
    ensures |items| == |texts| && AllStrings(items)
    ensures forall i | 0 <= i < |texts| :: items[i] == String(texts[i])
  {
    seq(|texts|, i requires 0 <= i < |texts| => String(texts[i]))
  }

  function IndexOf(fields: seq<Field>, key: string): (i: nat)
    requires key in Keys(fields)
    ensures i < |fields| && fields[i].key == key
  {
    if fields[0].key == key then 0
    else
      assert Keys(fields)[1..] == Keys(fields[1..]);
      1 + IndexOf(fields[1..], key)
  }

  const REQUIRED := "required"

  /** `required` says that the value stands under the key `required`. */
  function Canonical(v: Json, required: bool): Json
    decreases v
  {
    match v
    case Array(items) =>
      var canonical := seq(|items|, i requires 0 <= i < |items| => Canonical(items[i], false));
      Array(if required && AllStrings(canonical) then Strings(Sort(Texts(canonical))) else canonical)
    case Object(fields) =>
      var keys := Sort(Keys(fields));
      Object(seq(|keys|, i requires 0 <= i < |keys| =>
        KeyFound(fields, i);
        Field(keys[i], Canonical(fields[IndexOf(fields, keys[i])].value, keys[i] == REQUIRED))))
    case _ => v
  }

  lemma KeyFound(fields: seq<Field>, i: nat)
    requires i < |Sort(Keys(fields))|
    ensures Sort(Keys(fields))[i] in Keys(fields)
  {
    var keys := Sort(Keys(fields));
    assert keys[i] in multiset(keys);
  }

  /**
   The equivalence the canonical form is for, said without sorting: objects agree field by field
   whatever the order of their keys, lists of strings under `required` hold the same strings, and
   everything else is alike.
   */
  ghost predicate Same(a: Json, b: Json, required: bool)
    decreases a
  {
    match (a, b)
    case (Array(x), Array(y)) =>
      if required && AllStrings(x) && AllStrings(y) then multiset(Texts(x)) == multiset(Texts(y))
      else |x| == |y| && forall i | 0 <= i < |x| :: Same(x[i], y[i], false)
    case (Object(f), Object(g)) =>
      && multiset(Keys(f)) == multiset(Keys(g))
      && forall i, j | 0 <= i < |f| && 0 <= j < |g| && f[i].key == g[j].key ::
           Same(f[i].value, g[j].value, f[i].key == REQUIRED)
    case _ => a == b
  }

  lemma StringsStay(items: seq<Json>)
    ensures AllStrings(seq(|items|, i requires 0 <= i < |items| => Canonical(items[i], false))) <==> AllStrings(items)
    ensures AllStrings(items) ==> seq(|items|, i requires 0 <= i < |items| => Canonical(items[i], false)) == items
  {
    var canonical := seq(|items|, i requires 0 <= i < |items| => Canonical(items[i], false));
    assert forall i | 0 <= i < |items| :: canonical[i].String? <==> items[i].String?;
  }

  lemma StringsInjective(a: seq<string>, b: seq<string>)
    ensures Strings(a) == Strings(b) <==> a == b
  {
    if Strings(a) == Strings(b) {
      assert |a| == |b|;
      forall i | 0 <= i < |a|
        ensures a[i] == b[i]
      {
        assert Strings(a)[i] == Strings(b)[i];
      }
    }
  }

  /** Canonical forms are equal exactly for values that differ only in the order of keys and of `required`. */
  lemma {:induction false} CanonicalDecidesSame(a: Json, b: Json, required: bool)
    requires WellFormed(a) && WellFormed(b)
    ensures Canonical(a, required) == Canonical(b, required) <==> Same(a, b, required)
    decreases a
  {
    if a.Array? && b.Array? {
      var x, y := a.items, b.items;
      StringsStay(x);
      StringsStay(y);
      forall i | 0 <= i < |x| && i < |y|
        ensures Canonical(x[i], false) == Canonical(y[i], false) <==> Same(x[i], y[i], false)
      {
        CanonicalDecidesSame(x[i], y[i], false);
      }
      ArraysCase(x, y, required);
    } else if a.Object? && b.Object? {
      var f, g := a.fields, b.fields;
      forall i, j | 0 <= i < |f| && 0 <= j < |g| && f[i].key == g[j].key
        ensures Canonical(f[i].value, f[i].key == REQUIRED) == Canonical(g[j].value, f[i].key == REQUIRED)
           <==> Same(f[i].value, g[j].value, f[i].key == REQUIRED)
      {
        CanonicalDecidesSame(f[i].value, g[j].value, f[i].key == REQUIRED);
      }
      ObjectsCase(f, g, required);
    }
  }

  lemma ItemsCase(x: seq<Json>, y: seq<Json>, cx: seq<Json>, cy: seq<Json>)
    requires |cx| == |x| && forall i | 0 <= i < |x| :: cx[i] == Canonical(x[i], false)
    requires |cy| == |y| && forall i | 0 <= i < |y| :: cy[i] == Canonical(y[i], false)
    requires forall i | 0 <= i < |x| && i < |y| ::
      Canonical(x[i], false) == Canonical(y[i], false) <==> Same(x[i], y[i], false)
    ensures cx == cy <==> |x| == |y| && forall i | 0 <= i < |x| :: Same(x[i], y[i], false)
  {
    hide Canonical, Same;
    if cx == cy {
      forall i | 0 <= i < |x|
        ensures Same(x[i], y[i], false)
      {
        assert cx[i] == cy[i];
      }
    }
  }

  lemma ArraysCase(x: seq<Json>, y: seq<Json>, required: bool)
    requires forall i | 0 <= i < |x| && i < |y| ::
      Canonical(x[i], false) == Canonical(y[i], false) <==> Same(x[i], y[i], false)
    ensures Canonical(Array(x), required) == Canonical(Array(y), required) <==> Same(Array(x), Array(y), required)
  {
    hide Sort;
    StringsStay(x);
    StringsStay(y);
    var cx := seq(|x|, i requires 0 <= i < |x| => Canonical(x[i], false));
    var cy := seq(|y|, i requires 0 <= i < |y| => Canonical(y[i], false));
    ItemsCase(x, y, cx, cy);
    if required && AllStrings(x) && AllStrings(y) {
      SortDecidesPermutation(Texts(x), Texts(y));
      StringsInjective(Sort(Texts(x)), Sort(Texts(y)));
    } else if required && (AllStrings(x) || AllStrings(y)) {
      MixedArraysDiffer(x, y);
      assert Canonical(Array(x), required) != Canonical(Array(y), required);
    }
  }

  lemma MixedArraysDiffer(x: seq<Json>, y: seq<Json>)
    requires AllStrings(x) != AllStrings(y)
    ensures !(|x| == |y| && forall i | 0 <= i < |x| :: Same(x[i], y[i], false))
  {
    if |x| == |y| {
      var i :| 0 <= i < |x| && x[i].String? != y[i].String?;
      assert !Same(x[i], y[i], false);
    }
  }

  /** The canonical object, field by field. */
  lemma CanonicalFieldsAre(fields: seq<Field>, i: nat)
    requires i < |fields|
    ensures Canonical(Object(fields), false).Object? && |Canonical(Object(fields), false).fields| == |fields|
    ensures var k := Sort(Keys(fields))[i];
      && k in Keys(fields)
      && Canonical(Object(fields), false).fields[i]
         == Field(k, Canonical(fields[IndexOf(fields, k)].value, k == REQUIRED))
  {
    KeyFound(fields, i);
  }

  lemma SameObjectsAgree(f: seq<Field>, g: seq<Field>, required: bool)
    requires forall i, j | 0 <= i < |f| && 0 <= j < |g| && f[i].key == g[j].key ::
      Canonical(f[i].value, f[i].key == REQUIRED) == Canonical(g[j].value, f[i].key == REQUIRED)
      <==> Same(f[i].value, g[j].value, f[i].key == REQUIRED)
    ensures Same(Object(f), Object(g), required) <==> multiset(Keys(f)) == multiset(Keys(g)) && Agree(f, g)
  {
    hide Canonical;
  }

  lemma ObjectsCase(f: seq<Field>, g: seq<Field>, required: bool)
    requires DistinctKeys(f) && DistinctKeys(g)
    requires forall i, j | 0 <= i < |f| && 0 <= j < |g| && f[i].key == g[j].key ::
      Canonical(f[i].value, f[i].key == REQUIRED) == Canonical(g[j].value, f[i].key == REQUIRED)
      <==> Same(f[i].value, g[j].value, f[i].key == REQUIRED)
    ensures Canonical(Object(f), required) == Canonical(Object(g), required) <==> Same(Object(f), Object(g), required)
  {
    hide Canonical, Same;
    RequiredIgnored(f, required);
    RequiredIgnored(g, required);
    SortDecidesPermutation(Keys(f), Keys(g));
    SameObjectsAgree(f, g, required);
    if Canonical(Object(f), false) == Canonical(Object(g), false) {
      EqualObjectsAgree(f, g);
    }
    if Same(Object(f), Object(g), required) {
      AgreeingObjectsEqual(f, g);
    }
  }

  lemma RequiredIgnored(f: seq<Field>, required: bool)
    ensures Canonical(Object(f), required) == Canonical(Object(f), false) && Canonical(Object(f), false).Object?
    ensures |Canonical(Object(f), false).fields| == |f|
  {
  }

  ghost predicate Agree(f: seq<Field>, g: seq<Field>) {
    forall i, j | 0 <= i < |f| && 0 <= j < |g| && f[i].key == g[j].key ::
      Canonical(f[i].value, f[i].key == REQUIRED) == Canonical(g[j].value, f[i].key == REQUIRED)
  }

  lemma EqualObjectsAgree(f: seq<Field>, g: seq<Field>)
    requires DistinctKeys(f) && DistinctKeys(g)
    requires Canonical(Object(f), false) == Canonical(Object(g), false)
    ensures Sort(Keys(f)) == Sort(Keys(g)) && Agree(f, g)
  {
    hide Canonical;
    var kf, kg := Sort(Keys(f)), Sort(Keys(g));
    RequiredIgnored(f, false);
    RequiredIgnored(g, false);
    forall i | 0 <= i < |kf|
      ensures kf[i] == kg[i]
    {
      CanonicalFieldsAre(f, i);
      CanonicalFieldsAre(g, i);
    }
    forall i, j | 0 <= i < |f| && 0 <= j < |g| && f[i].key == g[j].key
      ensures Canonical(f[i].value, f[i].key == REQUIRED) == Canonical(g[j].value, f[i].key == REQUIRED)
    {
      assert f[i].key == Keys(f)[i] && f[i].key in multiset(Keys(f)) && f[i].key in multiset(kf);
      var n :| 0 <= n < |kf| && kf[n] == f[i].key;
      CanonicalFieldsAre(f, n);
      CanonicalFieldsAre(g, n);
      OnlyIndex(f, i);
      OnlyIndex(g, j);
    }
  }

  lemma AgreeingObjectsEqual(f: seq<Field>, g: seq<Field>)
    requires Sort(Keys(f)) == Sort(Keys(g)) && Agree(f, g)
    ensures Canonical(Object(f), false) == Canonical(Object(g), false)
  {
    hide Canonical;
    RequiredIgnored(f, false);
    RequiredIgnored(g, false);
    var cf, cg := Canonical(Object(f), false).fields, Canonical(Object(g), false).fields;
    assert |Sort(Keys(f))| == |f| && |Sort(Keys(g))| == |g|;
    forall i | 0 <= i < |cf|
      ensures cf[i] == cg[i]
    {
      CanonicalFieldsAre(f, i);
      CanonicalFieldsAre(g, i);
    }
    assert cf == cg;
  }

  lemma OnlyIndex(fields: seq<Field>, i: nat)
    requires DistinctKeys(fields) && i < |fields|
    ensures fields[i].key in Keys(fields) && IndexOf(fields, fields[i].key) == i
  {
    assert Keys(fields)[i] == fields[i].key;
  }

  // ----- idempotence

  /** The canonical form is a well-formed value that is the same as the one it was made from. */
  lemma {:induction false} CanonicalIsSame(v: Json, required: bool)
    requires WellFormed(v)
    ensures WellFormed(Canonical(v, required)) && Same(Canonical(v, required), v, required)
    decreases v
  {
    match v
    case Array(items) =>
      forall i | 0 <= i < |items|
        ensures WellFormed(Canonical(items[i], false)) && Same(Canonical(items[i], false), items[i], false)
      {
        CanonicalIsSame(items[i], false);
      }
      CanonicalArrayIsSame(items, required);
    case Object(fields) =>
      forall i | 0 <= i < |fields|
        ensures var r := fields[i].key == REQUIRED;
          WellFormed(Canonical(fields[i].value, r)) && Same(Canonical(fields[i].value, r), fields[i].value, r)
      {
        CanonicalIsSame(fields[i].value, fields[i].key == REQUIRED);
      }
      CanonicalObjectIsSame(fields, required);
    case _ =>
  }

  lemma CanonicalArrayIsSame(items: seq<Json>, required: bool)
    requires forall i | 0 <= i < |items| ::
      WellFormed(Canonical(items[i], false)) && Same(Canonical(items[i], false), items[i], false)
    ensures WellFormed(Canonical(Array(items), required))
    ensures Same(Canonical(Array(items), required), Array(items), required)
  {
    StringsStay(items);
    if required && AllStrings(items) {
      var texts := Texts(items);
      var sorted := Strings(Sort(texts));
      assert Canonical(Array(items), required) == Array(sorted);
      assert Texts(sorted) == Sort(texts);
    }
  }

  lemma CanonicalObjectIsSame(fields: seq<Field>, required: bool)
    requires DistinctKeys(fields)
    requires forall i | 0 <= i < |fields| ::
      var r := fields[i].key == REQUIRED;
      WellFormed(Canonical(fields[i].value, r)) && Same(Canonical(fields[i].value, r), fields[i].value, r)
    ensures WellFormed(Canonical(Object(fields), required))
    ensures Same(Canonical(Object(fields), required), Object(fields), required)
  {
    hide Canonical;
    RequiredIgnored(fields, required);
    var canonical, keys := Canonical(Object(fields), false).fields, Sort(Keys(fields));
    forall i | 0 <= i < |canonical|
      ensures keys[i] in Keys(fields) && canonical[i].key == keys[i]
      ensures canonical[i].value
           == Canonical(fields[IndexOf(fields, keys[i])].value, keys[i] == REQUIRED)
    {
      CanonicalFieldsAre(fields, i);
    }
    assert Keys(canonical) == keys;
    PermutationStaysDistinct(fields, canonical);
    forall i, j | 0 <= i < |canonical| && 0 <= j < |fields| && canonical[i].key == fields[j].key
      ensures Same(canonical[i].value, fields[j].value, canonical[i].key == REQUIRED)
    {
      OnlyIndex(fields, j);
    }
  }

  lemma PermutationStaysDistinct(f: seq<Field>, g: seq<Field>)
    requires DistinctKeys(f) && multiset(Keys(f)) == multiset(Keys(g))
    ensures DistinctKeys(g)
  {
    forall i, j | 0 <= i < j < |g|
      ensures g[i].key != g[j].key
    {
      var kf, kg := Keys(f), Keys(g);
      assert kg == kg[..i] + [kg[i]] + kg[i + 1..j] + [kg[j]] + kg[j + 1..];
      if kg[i] == kg[j] {
        assert multiset(kg)[kg[i]] >= 2;
        OnceIn(f, kg[i]);
        assert false;
      }
    }
  }

  lemma {:induction false} OnceIn(f: seq<Field>, key: string)
    requires DistinctKeys(f)
    ensures multiset(Keys(f))[key] <= 1
  {
    if f != [] {
      var keys := Keys(f);
      assert keys == [keys[0]] + keys[1..] && keys[1..] == Keys(f[1..]);
      OnceIn(f[1..], key);
      if keys[0] == key {
        assert key !in keys[1..];
      }
    }
  }

  /** Canonicalizing twice is canonicalizing once. */
  lemma CanonicalIsIdempotent(v: Json, required: bool)
    requires WellFormed(v)
    ensures Canonical(Canonical(v, required), required) == Canonical(v, required)
  {
    CanonicalIsSame(v, required);
    CanonicalDecidesSame(Canonical(v, required), v, required);
  }
}
