/** Merging a platform's INI file into a base file: dictionaries keep the order in which their
    keys were first set, and a section's items start with the file's default section. */
module IniModel {
  import opened Common

  type Dict<V> = seq<(string, V)>

  predicate Has<V>(d: Dict<V>, key: string) {
    exists i :: 0 <= i < |d| && d[i].0 == key
  }

  function Get<V>(d: Dict<V>, key: string): Option<V> {
    if d == [] then None else if d[|d| - 1].0 == key then Some(d[|d| - 1].1) else Get(d[..|d| - 1], key)
  }

  /** Each key once, as in any dictionary. */
  predicate Distinct<V>(d: Dict<V>) {
    forall i, j :: 0 <= i < j < |d| ==> d[i].0 != d[j].0
  }

  /** Setting a key keeps its place; a new key goes to the end. */
  function Put<V>(d: Dict<V>, key: string, value: V): Dict<V> {
    if d == [] then [(key, value)]
    else
      var n := |d| - 1;
      if d[n].0 == key then d[..n] + [(key, value)]
      else if Has(d[..n], key) then Put(d[..n], key, value) + [d[n]]
      else d + [(key, value)]
  }

  function Keys<V>(d: Dict<V>): seq<string> {
    if d == [] then [] else Keys(d[..|d| - 1]) + [d[|d| - 1].0]
  }

  /** How the value of a key is made from the one it had, if any, and the one that comes in. */
  type Combine<!V> = (Option<V>, V) -> V

  /** Every entry of `e` combined into `d`, in order. */
  function Combined<V>(d: Dict<V>, e: Dict<V>, op: Combine<V>): Dict<V> {
    if e == [] then d
    else
      var n := |e| - 1;
      var before := Combined(d, e[..n], op);
      Put(before, e[n].0, op(Get(before, e[n].0), e[n].1))
  }

  type Items = Dict<string>

  function Replace(was: Option<string>, value: string): string {
    value
  }

  /** Setting every item of `more`. */
  function Overlay(items: Items, more: Items): Items {
    Combined(items, more, Replace)
  }

  function OrNothing(was: Option<Items>): Items {
    if was.Some? then was.value else []
  }

  function OverlaySection(was: Option<Items>, items: Items): Items {
    Overlay(OrNothing(was), items)
  }

  function ItemsOf(sections: Dict<Items>, section: string): Items {
    OrNothing(Get(sections, section))
  }

  /** A parsed file. */
  datatype Config = Config(defaults: Items, sections: Dict<Items>)

  ghost predicate WellFormed(c: Config) {
    Distinct(c.defaults) && Distinct(c.sections) && forall i :: 0 <= i < |c.sections| ==> Distinct(c.sections[i].1)
  }

  /** What `items` gives for the sections: their defaults under their own items. */
  function Flat(c: Config): (r: Dict<Items>)
    ensures |r| == |c.sections|
    ensures forall i :: 0 <= i < |r| ==> r[i] == (c.sections[i].0, Overlay(c.defaults, c.sections[i].1))
  {
    seq(|c.sections|, i requires 0 <= i < |c.sections| => (c.sections[i].0, Overlay(c.defaults, c.sections[i].1)))
  }

  function MergeSections(base: Dict<Items>, platform: Dict<Items>): Dict<Items> {
    Combined(base, platform, OverlaySection)
  }

  /** `merge_ini`; without a platform file the base is copied. */
  function Merge(base: Config, platform: Option<Config>): Config {
    if platform.None? then base else base.(sections := MergeSections(base.sections, Flat(platform.value)))
  }

  /** The value of a key of a section. */
  function Value(sections: Dict<Items>, section: string, key: string): Option<string> {
    var s := Get(sections, section);
    if s.Some? then Get(s.value, key) else None
  }

  // ---------------------------------------------------------------- dictionaries

  lemma {:induction false} GetIff<V>(d: Dict<V>, key: string)
    ensures Get(d, key).Some? <==> Has(d, key)
  {
    if d == [] {
    } else {
      GetIff(d[..|d| - 1], key);
      assert Has(d[..|d| - 1], key) ==> Has(d, key);
      if i :| 0 <= i < |d| && d[i].0 == key {
        assert i < |d| - 1 ==> d[..|d| - 1][i].0 == key;
      }
    }
  }

  lemma {:induction false} GetPut<V>(d: Dict<V>, key: string, value: V, other: string)
    ensures Get(Put(d, key, value), other) == if other == key then Some(value) else Get(d, other)
  {
    if d == [] {
      assert [(key, value)][..0] == [];
    } else {
      var n := |d| - 1;
      if d[n].0 == key {
        assert (d[..n] + [(key, value)])[..n] == d[..n];
      } else if Has(d[..n], key) {
        var before := Put(d[..n], key, value);
        GetPut(d[..n], key, value, other);
        assert (before + [d[n]])[..|before|] == before;
      } else {
        assert (d + [(key, value)])[..|d|] == d;
      }
    }
  }

  lemma {:induction false} KeysAre<V>(d: Dict<V>)
    ensures |Keys(d)| == |d| && forall i :: 0 <= i < |d| ==> Keys(d)[i] == d[i].0
  {
    if d == [] {
    } else {
      KeysAre(d[..|d| - 1]);
    }
  }

  lemma {:induction false} KeysPut<V>(d: Dict<V>, key: string, value: V)
    ensures Keys(Put(d, key, value)) == if Has(d, key) then Keys(d) else Keys(d) + [key]
  {
    if d == [] {
      assert [(key, value)][..0] == [];
    } else {
      var n := |d| - 1;
      assert Has(d, key) <==> d[n].0 == key || Has(d[..n], key) by {
        if i :| 0 <= i < |d| && d[i].0 == key {
          assert i < n ==> d[..n][i].0 == key;
        }
      }
      if d[n].0 == key {
        assert (d[..n] + [(key, value)])[..n] == d[..n];
      } else if Has(d[..n], key) {
        var before := Put(d[..n], key, value);
        KeysPut(d[..n], key, value);
        assert (before + [d[n]])[..|before|] == before;
      } else {
        assert (d + [(key, value)])[..|d|] == d;
      }
    }
  }

  /** A dictionary is its keys, in order, and their values. */
  lemma {:induction false} SameDict<V>(a: Dict<V>, b: Dict<V>)
    requires Distinct(a) && Keys(a) == Keys(b)
    requires forall key :: Get(a, key) == Get(b, key)
    ensures a == b
  {
    KeysAre(a);
    KeysAre(b);
    forall i | 0 <= i < |a| ensures a[i] == b[i] {
      assert Keys(a)[i] == Keys(b)[i];
      GetAt(a, i);
      GetAt(b, i);
      assert Get(a, a[i].0) == Get(b, a[i].0);
    }
  }

  lemma {:induction false} GetAt<V>(d: Dict<V>, i: nat)
    requires Distinct(d) && i < |d|
    ensures Get(d, d[i].0) == Some(d[i].1)
  {
    if i == |d| - 1 {
    } else {
      GetAt(d[..|d| - 1], i);
    }
  }

  lemma DistinctKeys<V, W>(a: Dict<V>, b: Dict<W>)
    requires Keys(a) == Keys(b) && Distinct(a)
    ensures Distinct(b)
  {
    KeysAre(a);
    KeysAre(b);
    forall i, j | 0 <= i < j < |b| ensures b[i].0 != b[j].0 {
      assert Keys(a)[i] == Keys(b)[i] && Keys(a)[j] == Keys(b)[j];
    }
  }

  // ---------------------------------------------------------------- combining

  /** The keys of `e` that `d` does not have, in order. */
  function NewKeys<V>(d: Dict<V>, e: Dict<V>): seq<string> {
    if e == [] then []
    else
      var n := |e| - 1;
      NewKeys(d, e[..n]) + if Has(d, e[n].0) then [] else [e[n].0]
  }

  lemma HasKeys<V>(d: Dict<V>, key: string)
    ensures Has(d, key) <==> key in Keys(d)
  {
    KeysAre(d);
    if Has(d, key) {
      var i :| 0 <= i < |d| && d[i].0 == key;
      assert Keys(d)[i] == key;
    }
  }

  lemma {:induction false} NewKeysAre<V>(d: Dict<V>, e: Dict<V>, key: string)
    ensures key in NewKeys(d, e) <==> Has(e, key) && !Has(d, key)
  {
    if e == [] {
    } else {
      var n := |e| - 1;
      NewKeysAre(d, e[..n], key);
      HasKeys(e, key);
      HasKeys(e[..n], key);
    }
  }

  lemma KeysGrow<V>(d: Dict<V>, added: seq<string>, before: Dict<V>, key: string, value: V)
    requires Keys(before) == Keys(d) + added && key !in added
    ensures Keys(Put(before, key, value)) == Keys(d) + (added + if Has(d, key) then [] else [key])
  {
    KeysPut(before, key, value);
    HasKeys(before, key);
    HasKeys(d, key);
  }

  /** Combining keeps the order of `d`; the new keys follow in the order of `e`. */
  lemma {:induction false} KeysCombined<V>(d: Dict<V>, e: Dict<V>, op: Combine<V>)
    requires Distinct(e)
    ensures Keys(Combined(d, e, op)) == Keys(d) + NewKeys(d, e)
  {
    if e == [] {
      assert Keys(d) + [] == Keys(d);
    } else {
      var n := |e| - 1;
      var before := Combined(d, e[..n], op);
      KeysCombined(d, e[..n], op);
      NewKeysAre(d, e[..n], e[n].0);
      assert !Has(e[..n], e[n].0);
      KeysGrow(d, NewKeys(d, e[..n]), before, e[n].0, op(Get(before, e[n].0), e[n].1));
    }
  }

  lemma {:induction false} GetCombined<V>(d: Dict<V>, e: Dict<V>, op: Combine<V>, key: string)
    requires Distinct(e)
    ensures Get(Combined(d, e, op), key) ==
      if Get(e, key).Some? then Some(op(Get(d, key), Get(e, key).value)) else Get(d, key)
  {
    if e == [] {
    } else {
      var n := |e| - 1;
      var before := Combined(d, e[..n], op);
      GetCombined(d, e[..n], op, key);
      GetPut(before, e[n].0, op(Get(before, e[n].0), e[n].1), key);
      if key == e[n].0 {
        GetIff(e[..n], key);
        assert !Has(e[..n], key);
      }
    }
  }

  lemma {:induction false} DistinctCombined<V>(d: Dict<V>, e: Dict<V>, op: Combine<V>)
    requires Distinct(d)
    ensures Distinct(Combined(d, e, op))
  {
    if e == [] {
    } else {
      var n := |e| - 1;
      DistinctCombined(d, e[..n], op);
      var before := Combined(d, e[..n], op);
      DistinctPut(before, e[n].0, op(Get(before, e[n].0), e[n].1));
    }
  }

  lemma DistinctPut<V>(d: Dict<V>, key: string, value: V)
    requires Distinct(d)
    ensures Distinct(Put(d, key, value))
  {
    var r := Put(d, key, value);
    KeysPut(d, key, value);
    KeysAre(d);
    KeysAre(r);
    forall i, j | 0 <= i < j < |r| ensures r[i].0 != r[j].0 {
      assert Keys(r)[i] == r[i].0 && Keys(r)[j] == r[j].0;
    }
  }

  /** The new keys do not depend on how they are reached. */
  lemma {:induction false} NewKeysCompose<V>(a: Dict<V>, b: Dict<V>, c: Dict<V>, op: Combine<V>)
    requires Distinct(b) && Distinct(c)
    ensures Keys(Combined(Combined(a, b, op), c, op)) == Keys(Combined(a, Combined(b, c, op), op))
  {
    if c == [] {
    } else {
      var n := |c| - 1;
      var key := c[n].0;
      NewKeysCompose(a, b, c[..n], op);
      var l, r := Combined(Combined(a, b, op), c[..n], op), Combined(b, c[..n], op);
      DistinctCombined(b, c[..n], op);
      var value := op(Get(r, key), c[n].1);
      KeysPut(l, key, op(Get(l, key), c[n].1));
      KeysAfterPut(a, r, key, value, op);
      HasCombined(a, b, op, key);
      HasCombined(Combined(a, b, op), c[..n], op, key);
      HasCombined(b, c[..n], op, key);
      HasCombined(a, r, op, key);
    }
  }

  lemma HasCombined<V>(d: Dict<V>, e: Dict<V>, op: Combine<V>, key: string)
    requires Distinct(e)
    ensures Has(Combined(d, e, op), key) <==> Has(d, key) || Has(e, key)
  {
    GetCombined(d, e, op, key);
    GetIff(Combined(d, e, op), key);
    GetIff(d, key);
    GetIff(e, key);
  }

  lemma KeysAfterPut<V>(a: Dict<V>, r: Dict<V>, key: string, value: V, op: Combine<V>)
    requires Distinct(r)
    ensures Keys(Combined(a, Put(r, key, value), op)) ==
      if Has(a, key) || Has(r, key) then Keys(Combined(a, r, op)) else Keys(Combined(a, r, op)) + [key]
  {
    var p := Put(r, key, value);
    DistinctPut(r, key, value);
    KeysCombined(a, p, op);
    KeysCombined(a, r, op);
    KeysPut(r, key, value);
    NewKeysByKeys(a, p);
    NewKeysByKeys(a, r);
    if !Has(r, key) {
      MissingOneMore(a, Keys(r), key);
    }
  }

  function Missing<V>(d: Dict<V>, keys: seq<string>): seq<string> {
    if keys == [] then []
    else Missing(d, keys[..|keys| - 1]) + if Has(d, keys[|keys| - 1]) then [] else [keys[|keys| - 1]]
  }

  lemma MissingOneMore<V>(d: Dict<V>, keys: seq<string>, key: string)
    ensures Missing(d, keys + [key]) == if Has(d, key) then Missing(d, keys) else Missing(d, keys) + [key]
  {
    assert (keys + [key])[..|keys|] == keys;
  }

  lemma {:induction false} NewKeysByKeys<V>(d: Dict<V>, e: Dict<V>)
    ensures NewKeys(d, e) == Missing(d, Keys(e))
  {
    if e == [] {
    } else {
      NewKeysByKeys(d, e[..|e| - 1]);
      assert Keys(e)[..|e| - 1] == Keys(e[..|e| - 1]) && |Keys(e)| == |e| by {
        KeysAre(e);
        KeysAre(e[..|e| - 1]);
      }
    }
  }

  predicate AssociatesAt<V(==)>(op: Combine<V>, x: Option<V>, y: V, z: V) {
    op(Some(op(x, y)), z) == op(x, op(Some(y), z))
  }

  /** Combining is associative when the operation on values is and the values of `c` stand
      for themselves. */
  lemma CombiningAssociates<V>(a: Dict<V>, b: Dict<V>, c: Dict<V>, op: Combine<V>)
    requires Distinct(a) && Distinct(b) && Distinct(c)
    requires forall i, j, key :: 0 <= i < |b| && 0 <= j < |c| ==> AssociatesAt(op, Get(a, key), b[i].1, c[j].1)
    requires forall j :: 0 <= j < |c| ==> op(None, c[j].1) == c[j].1
    ensures Combined(Combined(a, b, op), c, op) == Combined(a, Combined(b, c, op), op)
  {
    var l, r := Combined(Combined(a, b, op), c, op), Combined(a, Combined(b, c, op), op);
    DistinctCombined(b, c, op);
    DistinctCombined(a, b, op);
    DistinctCombined(Combined(a, b, op), c, op);
    NewKeysCompose(a, b, c, op);
    forall key ensures Get(l, key) == Get(r, key) {
      GetCombined(a, b, op, key);
      GetCombined(Combined(a, b, op), c, op, key);
      GetCombined(b, c, op, key);
      GetCombined(a, Combined(b, c, op), op, key);
      ValueFrom(b, key);
      ValueFrom(c, key);
      if Get(b, key).Some? && Get(c, key).Some? {
        assert AssociatesAt(op, Get(a, key), Get(b, key).value, Get(c, key).value);
      }
    }
    SameDict(l, r);
  }

  lemma {:induction false} ValueFrom<V>(d: Dict<V>, key: string)
    ensures Get(d, key).Some? ==> exists i :: 0 <= i < |d| && d[i].1 == Get(d, key).value
  {
    if d != [] && d[|d| - 1].0 != key {
      ValueFrom(d[..|d| - 1], key);
      if Get(d, key).Some? {
        var i :| 0 <= i < |d| - 1 && d[..|d| - 1][i].1 == Get(d, key).value;
        assert d[i].1 == Get(d, key).value;
      }
    } else if d != [] {
      assert d[|d| - 1].1 == Get(d, key).value;
    }
  }

  /** Combining into nothing gives the entries themselves. */
  lemma CombinedIntoNothing<V>(e: Dict<V>, op: Combine<V>)
    requires Distinct(e) && forall i :: 0 <= i < |e| ==> op(None, e[i].1) == e[i].1
    ensures Combined([], e, op) == e
  {
    var r := Combined([], e, op);
    KeysCombined([], e, op);
    DistinctCombined([], e, op);
    NothingToSkip(e);
    forall key ensures Get(r, key) == Get(e, key) {
      GetCombined([], e, op, key);
      ValueFrom(e, key);
    }
    SameDict(r, e);
  }

  lemma {:induction false} NothingToSkip<V>(e: Dict<V>)
    ensures NewKeys([], e) == Keys(e)
  {
    if e == [] {
    } else {
      NothingToSkip(e[..|e| - 1]);
    }
  }

  lemma EmptyOrMember<T>(xs: seq<T>)
    ensures xs == [] || exists x :: x in xs
  {
    if xs != [] {
      assert xs[0] in xs;
    }
  }

  /** Combining the same entries twice is combining them once. */
  lemma CombiningTwice<V>(d: Dict<V>, e: Dict<V>, op: Combine<V>)
    requires Distinct(d) && Distinct(e)
    requires forall i, key :: 0 <= i < |e| ==> TwiceAt(op, Get(d, key), e[i].1)
    ensures Combined(Combined(d, e, op), e, op) == Combined(d, e, op)
  {
    var once := Combined(d, e, op);
    var twice := Combined(once, e, op);
    DistinctCombined(d, e, op);
    DistinctCombined(once, e, op);
    KeysCombined(once, e, op);
    forall key ensures Get(twice, key) == Get(once, key) && key !in NewKeys(once, e) {
      GetCombined(d, e, op, key);
      GetCombined(once, e, op, key);
      HasCombined(d, e, op, key);
      NewKeysAre(once, e, key);
      ValueFrom(e, key);
      if Get(e, key).Some? {
        assert TwiceAt(op, Get(d, key), Get(e, key).value);
      }
    }
    EmptyOrMember(NewKeys(once, e));
    SameDict(twice, once);
  }

  predicate TwiceAt<V(==)>(op: Combine<V>, x: Option<V>, y: V) {
    op(Some(op(x, y)), y) == op(x, y)
  }

  // ---------------------------------------------------------------- items and sections

  ghost predicate DistinctItems(sections: Dict<Items>) {
    Distinct(sections) && forall i :: 0 <= i < |sections| ==> Distinct(sections[i].1)
  }

  lemma OverlayAssociates(x: Items, y: Items, z: Items)
    requires Distinct(x) && Distinct(y) && Distinct(z)
    ensures Overlay(Overlay(x, y), z) == Overlay(x, Overlay(y, z))
  {
    CombiningAssociates(x, y, z, Replace);
  }

  lemma OverlayTwice(x: Items, y: Items)
    requires Distinct(x) && Distinct(y)
    ensures Overlay(Overlay(x, y), y) == Overlay(x, y)
  {
    CombiningTwice(x, y, Replace);
  }

  lemma OverlayNothing(x: Items)
    requires Distinct(x)
    ensures Overlay([], x) == x
  {
    CombinedIntoNothing(x, Replace);
  }

  lemma SectionItems(sections: Dict<Items>, name: string)
    requires DistinctItems(sections)
    ensures Get(sections, name).Some? ==> Distinct(Get(sections, name).value)
  {
    ValueFrom(sections, name);
  }

  lemma MergingAssociates(a: Dict<Items>, b: Dict<Items>, c: Dict<Items>)
    requires DistinctItems(a) && DistinctItems(b) && DistinctItems(c)
    ensures MergeSections(MergeSections(a, b), c) == MergeSections(a, MergeSections(b, c))
  {
    forall i, j, name | 0 <= i < |b| && 0 <= j < |c|
      ensures AssociatesAt(OverlaySection, Get(a, name), b[i].1, c[j].1)
    {
      SectionItems(a, name);
      OverlayAssociates(ItemsOf(a, name), b[i].1, c[j].1);
    }
    forall j | 0 <= j < |c| ensures OverlaySection(None, c[j].1) == c[j].1 {
      OverlayNothing(c[j].1);
    }
    CombiningAssociates(a, b, c, OverlaySection);
  }

  lemma FlatKeys(c: Config)
    ensures Keys(Flat(c)) == Keys(c.sections)
  {
    KeysAre(Flat(c));
    KeysAre(c.sections);
  }

  lemma FlatDistinct(c: Config)
    requires WellFormed(c)
    ensures DistinctItems(Flat(c))
  {
    FlatKeys(c);
    DistinctKeys(c.sections, Flat(c));
    forall i | 0 <= i < |c.sections| ensures Distinct(Flat(c)[i].1) {
      DistinctCombined(c.defaults, c.sections[i].1, Replace);
    }
  }

  lemma {:induction false} GetFlat(c: Config, name: string)
    ensures Get(Flat(c), name) ==
      if Get(c.sections, name).Some? then Some(Overlay(c.defaults, Get(c.sections, name).value)) else None
    decreases |c.sections|
  {
    if c.sections == [] {
    } else {
      var shorter := c.(sections := c.sections[..|c.sections| - 1]);
      GetFlat(shorter, name);
      assert Flat(c)[..|c.sections| - 1] == Flat(shorter);
    }
  }

  lemma MergeWellFormed(base: Config, platform: Config)
    requires WellFormed(base) && WellFormed(platform)
    ensures WellFormed(Merge(base, Some(platform)))
  {
    var p := Flat(platform);
    var r := MergeSections(base.sections, p);
    FlatDistinct(platform);
    DistinctCombined(base.sections, p, OverlaySection);
    forall i | 0 <= i < |r| ensures Distinct(r[i].1) {
      GetAt(r, i);
      GetCombined(base.sections, p, OverlaySection, r[i].0);
      SectionItems(base.sections, r[i].0);
      SectionItems(p, r[i].0);
      if Get(p, r[i].0).Some? {
        var was := Get(base.sections, r[i].0);
        DistinctCombined(OrNothing(was), Get(p, r[i].0).value, Replace);
      }
    }
  }

  // ---------------------------------------------------------------- the promises

  /** Every key reads as the platform says, or as the base says where the platform is silent. */
  lemma PlatformPrecedence(base: Config, platform: Config, section: string, key: string)
    requires WellFormed(platform)
    ensures
      var ours, theirs := Value(base.sections, section, key), Value(Flat(platform), section, key);
      Value(Merge(base, Some(platform)).sections, section, key) == if theirs.Some? then theirs else ours
  {
    FlatDistinct(platform);
    GetCombined(base.sections, Flat(platform), OverlaySection, section);
    var s := Get(Flat(platform), section);
    if s.Some? {
      var was := Get(base.sections, section);
      SectionItems(Flat(platform), section);
      GetCombined(OrNothing(was), s.value, Replace, key);
    }
  }

  /** A platform section gives its own value of a key, or else its file's default. */
  lemma PlatformValue(platform: Config, section: string, key: string)
    requires WellFormed(platform)
    ensures Value(Flat(platform), section, key) ==
      if !Has(platform.sections, section) then None
      else if Value(platform.sections, section, key).Some? then Value(platform.sections, section, key)
      else Get(platform.defaults, key)
  {
    GetFlat(platform, section);
    GetIff(platform.sections, section);
    SectionItems(platform.sections, section);
    if Get(platform.sections, section).Some? {
      GetCombined(platform.defaults, Get(platform.sections, section).value, Replace, key);
    }
  }

  /** Sections and keys of the base stay where they are; new ones follow in platform order. */
  lemma OrderIsKept(base: Config, platform: Config, section: string)
    requires WellFormed(platform) && Has(platform.sections, section)
    ensures
      var r, items := Merge(base, Some(platform)).sections, Get(Flat(platform), section);
      var was := Get(base.sections, section);
      && Keys(r) == Keys(base.sections) + Missing(base.sections, Keys(platform.sections))
      && items.Some? && Get(r, section).Some?
      && Keys(Get(r, section).value) ==
         if was.Some? then Keys(was.value) + Missing(was.value, Keys(items.value)) else Keys(items.value)
  {
    var p := Flat(platform);
    FlatDistinct(platform);
    FlatKeys(platform);
    KeysCombined(base.sections, p, OverlaySection);
    NewKeysByKeys(base.sections, p);
    GetFlat(platform, section);
    GetIff(platform.sections, section);
    GetCombined(base.sections, p, OverlaySection, section);
    SectionItems(p, section);
    var items := Get(p, section).value;
    var was := Get(base.sections, section);
    if was.Some? {
      KeysCombined(was.value, items, Replace);
      NewKeysByKeys(was.value, items);
    } else {
      OverlayNothing(items);
    }
  }

  /** What the platform does not mention is left as it was. */
  lemma OtherSectionsStay(base: Config, platform: Config, section: string)
    requires WellFormed(platform) && !Has(platform.sections, section)
    ensures Get(Merge(base, Some(platform)).sections, section) == Get(base.sections, section)
    ensures Merge(base, Some(platform)).defaults == base.defaults
  {
    FlatDistinct(platform);
    GetFlat(platform, section);
    GetIff(platform.sections, section);
    GetCombined(base.sections, Flat(platform), OverlaySection, section);
  }

  /** Merging the same platform again changes nothing. */
  lemma MergeIsIdempotent(base: Config, platform: Config)
    requires WellFormed(base) && WellFormed(platform)
    ensures Merge(Merge(base, Some(platform)), Some(platform)) == Merge(base, Some(platform))
  {
    var p := Flat(platform);
    FlatDistinct(platform);
    forall i, name | 0 <= i < |p| ensures TwiceAt(OverlaySection, Get(base.sections, name), p[i].1) {
      SectionItems(base.sections, name);
      OverlayTwice(ItemsOf(base.sections, name), p[i].1);
    }
    CombiningTwice(base.sections, p, OverlaySection);
  }

  // ---------------------------------------------------------------- when merging associates

  /** The items of each section that only the last file has begin with the middle file's
      default keys, in their order; so it is when the middle file has none. */
  ghost predicate DefaultsAbsorbed(middle: Config, last: Config) {
    forall name :: Get(last.sections, name).Some? && Get(middle.sections, name).None? ==>
      AbsorbedBy(middle.defaults, Overlay(last.defaults, Get(last.sections, name).value))
  }

  predicate AbsorbedBy(defaults: Items, items: Items) {
    Keys(defaults) <= Keys(items)
  }

  lemma {:induction false} MissingAfterPrefix<V>(d: Dict<V>, keys: seq<string>)
    requires Keys(d) <= keys && forall i, j :: 0 <= i < j < |keys| ==> keys[i] != keys[j]
    ensures Keys(d) + Missing(d, keys) == keys
    decreases |keys|
  {
    var n := |keys| - 1;
    if |keys| == |Keys(d)| {
      NoneMissing(d, keys);
    } else {
      MissingAfterPrefix(d, keys[..n]);
      HasKeys(d, keys[n]);
      assert keys == keys[..n] + [keys[n]];
    }
  }

  lemma {:induction false} NoneMissing<V>(d: Dict<V>, keys: seq<string>)
    requires forall key :: key in keys ==> key in Keys(d)
    ensures Missing(d, keys) == []
  {
    if keys == [] {
    } else {
      NoneMissing(d, keys[..|keys| - 1]);
      HasKeys(d, keys[|keys| - 1]);
    }
  }

  lemma AbsorbedIff(defaults: Items, items: Items)
    requires Distinct(defaults) && Distinct(items)
    ensures AbsorbedBy(defaults, items) <==> Overlay(defaults, items) == items
  {
    var r := Overlay(defaults, items);
    KeysCombined(defaults, items, Replace);
    DistinctCombined(defaults, items, Replace);
    if AbsorbedBy(defaults, items) {
      KeysAre(items);
      NewKeysByKeys(defaults, items);
      MissingAfterPrefix(defaults, Keys(items));
      forall key ensures Get(r, key) == Get(items, key) {
        GetCombined(defaults, items, Replace, key);
        GetIff(defaults, key);
        GetIff(items, key);
        HasKeys(defaults, key);
        HasKeys(items, key);
      }
      SameDict(r, items);
    }
  }

  lemma FlatOfMerge(middle: Config, last: Config, name: string)
    requires WellFormed(middle) && WellFormed(last)
    ensures
      var x, y := Get(Flat(Merge(middle, Some(last))), name), Get(MergeSections(Flat(middle), Flat(last)), name);
      if Get(last.sections, name).Some? && Get(middle.sections, name).None? then
        x.Some? && y.Some? && y.value == Overlay(last.defaults, Get(last.sections, name).value)
        && x.value == Overlay(middle.defaults, y.value)
      else x == y
  {
    var m, l := Get(middle.sections, name), Get(last.sections, name);
    FlatDistinct(middle);
    FlatDistinct(last);
    GetFlat(Merge(middle, Some(last)), name);
    GetFlat(middle, name);
    GetFlat(last, name);
    GetCombined(middle.sections, Flat(last), OverlaySection, name);
    GetCombined(Flat(middle), Flat(last), OverlaySection, name);
    SectionItems(Flat(last), name);
    SectionItems(middle.sections, name);
    if l.Some? {
      var items := Overlay(last.defaults, l.value);
      if m.Some? {
        OverlayAssociates(middle.defaults, m.value, items);
      } else {
        OverlayNothing(items);
      }
    }
  }

  lemma FlatKeysOfMerge(middle: Config, last: Config)
    requires WellFormed(middle) && WellFormed(last)
    ensures Keys(Flat(Merge(middle, Some(last)))) == Keys(MergeSections(Flat(middle), Flat(last)))
  {
    var l := Flat(last);
    FlatDistinct(last);
    FlatKeys(Merge(middle, Some(last)));
    FlatKeys(middle);
    KeysCombined(middle.sections, l, OverlaySection);
    KeysCombined(Flat(middle), l, OverlaySection);
    NewKeysSame(middle.sections, Flat(middle), l);
  }

  lemma {:induction false} NewKeysSame<V>(d: Dict<V>, other: Dict<V>, e: Dict<V>)
    requires Keys(d) == Keys(other)
    ensures NewKeys(d, e) == NewKeys(other, e)
  {
    if e == [] {
    } else {
      NewKeysSame(d, other, e[..|e| - 1]);
      HasKeys(d, e[|e| - 1].0);
      HasKeys(other, e[|e| - 1].0);
    }
  }

  lemma NewSectionItems(middle: Config, last: Config, name: string)
    requires WellFormed(middle) && WellFormed(last)
    ensures Get(last.sections, name).Some? ==>
      var items := Overlay(last.defaults, Get(last.sections, name).value);
      (AbsorbedBy(middle.defaults, items) <==> Overlay(middle.defaults, items) == items)
  {
    SectionItems(last.sections, name);
    if Get(last.sections, name).Some? {
      var value := Get(last.sections, name).value;
      DistinctCombined(last.defaults, value, Replace);
      AbsorbedIff(middle.defaults, Overlay(last.defaults, value));
    }
  }

  lemma FlatAgreesIff(middle: Config, last: Config)
    requires WellFormed(middle) && WellFormed(last)
    ensures Flat(Merge(middle, Some(last))) == MergeSections(Flat(middle), Flat(last))
      <==> DefaultsAbsorbed(middle, last)
  {
    var x, y := Flat(Merge(middle, Some(last))), MergeSections(Flat(middle), Flat(last));
    if DefaultsAbsorbed(middle, last) {
      forall name ensures Get(x, name) == Get(y, name) {
        FlatOfMerge(middle, last, name);
        NewSectionItems(middle, last, name);
      }
      FlatKeysOfMerge(middle, last);
      MergeWellFormed(middle, last);
      FlatDistinct(Merge(middle, Some(last)));
      SameDict(x, y);
    } else if x == y {
      forall name | Get(last.sections, name).Some? && Get(middle.sections, name).None?
        ensures AbsorbedBy(middle.defaults, Overlay(last.defaults, Get(last.sections, name).value))
      {
        FlatOfMerge(middle, last, name);
        NewSectionItems(middle, last, name);
      }
    }
  }

  lemma MergedTogether(base: Config, middle: Config, last: Config)
    requires WellFormed(base) && WellFormed(middle) && WellFormed(last)
    ensures Merge(Merge(base, Some(middle)), Some(last)).sections ==
      MergeSections(base.sections, MergeSections(Flat(middle), Flat(last)))
  {
    FlatDistinct(middle);
    FlatDistinct(last);
    MergingAssociates(base.sections, Flat(middle), Flat(last));
  }

  ghost predicate Associates(middle: Config, last: Config) {
    forall base: Config :: WellFormed(base) ==> AssociatesOver(base, middle, last)
  }

  predicate AssociatesOver(base: Config, middle: Config, last: Config) {
    Merge(Merge(base, Some(middle)), Some(last)) == Merge(base, Some(Merge(middle, Some(last))))
  }

  /** Merging two platforms one after the other is merging their merge, into every base, if
      and only if the middle one's defaults are absorbed. */
  lemma MergeAssociatesIff(middle: Config, last: Config)
    requires WellFormed(middle) && WellFormed(last)
    ensures Associates(middle, last) <==> DefaultsAbsorbed(middle, last)
  {
    FlatAgreesIff(middle, last);
    if DefaultsAbsorbed(middle, last) {
      forall base: Config | WellFormed(base) ensures AssociatesOver(base, middle, last) {
        MergedTogether(base, middle, last);
      }
    }
    if Associates(middle, last) {
      var nothing := Config([], []);
      assert AssociatesOver(nothing, middle, last);
      MergedTogether(nothing, middle, last);
      MergeWellFormed(middle, last);
      FlatDistinct(Merge(middle, Some(last)));
      FlatDistinct(middle);
      FlatDistinct(last);
      MergedDistinct(Flat(middle), Flat(last));
      IntoNothing(Flat(Merge(middle, Some(last))));
      IntoNothing(MergeSections(Flat(middle), Flat(last)));
    }
  }

  lemma IntoNothing(sections: Dict<Items>)
    requires DistinctItems(sections)
    ensures MergeSections([], sections) == sections
  {
    forall i | 0 <= i < |sections| ensures OverlaySection(None, sections[i].1) == sections[i].1 {
      OverlayNothing(sections[i].1);
    }
    CombinedIntoNothing(sections, OverlaySection);
  }

  lemma MergedDistinct(a: Dict<Items>, b: Dict<Items>)
    requires DistinctItems(a) && DistinctItems(b)
    ensures DistinctItems(MergeSections(a, b))
  {
    var r := MergeSections(a, b);
    DistinctCombined(a, b, OverlaySection);
    forall i | 0 <= i < |r| ensures Distinct(r[i].1) {
      GetAt(r, i);
      GetCombined(a, b, OverlaySection, r[i].0);
      SectionItems(a, r[i].0);
      SectionItems(b, r[i].0);
      if Get(b, r[i].0).Some? {
        DistinctCombined(ItemsOf(a, r[i].0), Get(b, r[i].0).value, Replace);
      }
    }
  }

  /** In particular when the middle file has no default section. */
  lemma MergeAssociates(base: Config, middle: Config, last: Config)
    requires WellFormed(base) && WellFormed(middle) && WellFormed(last) && middle.defaults == []
    ensures Merge(Merge(base, Some(middle)), Some(last)) == Merge(base, Some(Merge(middle, Some(last))))
  {
    MergeAssociatesIff(middle, last);
    assert AssociatesOver(base, middle, last);
  }
}

/** The parser object that is changed in place, and the loops over the platform's sections. */
module IniHandlers {
  import opened Common
  import opened IniModel

  class ConfigParser {
    var defaults: Items
    var sections: Dict<Items>

    function Contents(): Config
      reads this
    {
      Config(defaults, sections)
    }

    constructor (c: Config)
      ensures Contents() == c
    {
      defaults, sections := c.defaults, c.sections;
    }

    predicate HasSection(section: string)
      reads this
    {
      Has(sections, section)
    }

    /** A section that is already there is an error. */
    method AddSection(section: string) returns (added: bool)
      modifies this`sections
      ensures added <==> !Has(old(sections), section)
      ensures sections == if added then old(sections) + [(section, [])] else old(sections)
    {
      if HasSection(section) {
        return false;
      }
      sections := sections + [(section, [])];
      return true;
    }

    /** Setting a key of a section that is not there is an error. */
    method Set(section: string, key: string, value: string) returns (done: bool)
      modifies this`sections
      ensures done <==> Has(old(sections), section)
      ensures sections ==
        if done then Put(old(sections), section, Put(ItemsOf(old(sections), section), key, value)) else old(sections)
    {
      GetIff(sections, section);
      var items := Get(sections, section);
      if items.None? {
        return false;
      }
      sections := Put(sections, section, Put(items.value, key, value));
      return true;
    }

    /** One platform section: `items` are set one after the other. */
    method SetAll(section: string, items: Items)
      modifies this`sections
      ensures sections == Put(old(sections), section, OverlaySection(Get(old(sections), section), items))
    {
      if !HasSection(section) {
        var _ := AddSection(section);
        AppendIsPut(old(sections), section, []);
      } else {
        PutSame(sections, section);
      }
      GetIff(old(sections), section);
      ghost var was := ItemsOf(old(sections), section);
      for i := 0 to |items|
        invariant sections == Put(old(sections), section, Overlay(was, items[..i]))
      {
        assert items[..i + 1][..i] == items[..i];
        GetPut(old(sections), section, Overlay(was, items[..i]), section);
        GetIff(sections, section);
        var _ := Set(section, items[i].0, items[i].1);
        PutTwice(old(sections), section, Overlay(was, items[..i]), Overlay(was, items[..i + 1]));
      }
      assert items[..|items|] == items;
    }

    method MergeIni(platform: Option<ConfigParser>)
      requires platform.Some? ==> platform.value != this
      modifies this`sections
      ensures Contents() == Merge(old(Contents()), if platform.Some? then Some(platform.value.Contents()) else None)
    {
      if platform.None? {
        return;
      }
      var plat := Flat(platform.value.Contents());
      for i := 0 to |plat|
        invariant sections == MergeSections(old(sections), plat[..i])
      {
        assert plat[..i + 1][..i] == plat[..i];
        SetAll(plat[i].0, plat[i].1);
      }
      assert plat[..|plat|] == plat;
    }
  }

  lemma AppendIsPut<V>(d: Dict<V>, key: string, value: V)
    requires !Has(d, key)
    ensures d + [(key, value)] == Put(d, key, value)
  {
    if d != [] {
      assert d[|d| - 1].0 != key;
      assert forall i :: 0 <= i < |d| - 1 ==> d[..|d| - 1][i] == d[i];
    }
  }

  lemma {:induction false} PutSame<V>(d: Dict<V>, key: string)
    requires Has(d, key)
    ensures Get(d, key).Some? && Put(d, key, Get(d, key).value) == d
  {
    var n := |d| - 1;
    GetIff(d, key);
    if d[n].0 == key {
      assert d == d[..n] + [d[n]];
    } else {
      var i :| 0 <= i < |d| && d[i].0 == key;
      assert d[..n][i].0 == key;
      PutSame(d[..n], key);
      assert d == d[..n] + [d[n]];
    }
  }

  lemma {:induction false} PutTwice<V>(d: Dict<V>, key: string, first: V, second: V)
    ensures Put(Put(d, key, first), key, second) == Put(d, key, second)
  {
    if d == [] {
      assert [(key, first)][..0] == [];
    } else {
      var n := |d| - 1;
      if d[n].0 == key {
        assert (d[..n] + [(key, first)])[..n] == d[..n];
      } else if Has(d[..n], key) {
        var before := Put(d[..n], key, first);
        PutTwice(d[..n], key, first, second);
        assert (before + [d[n]])[..|before|] == before;
        GetPut(d[..n], key, first, key);
        GetIff(before, key);
      } else {
        assert (d + [(key, first)])[..|d|] == d;
      }
    }
  }
}
