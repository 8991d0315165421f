// The index that a new application gets in the desktop menu (update_pg_menu.py).

module Menu {
  import opened Wrappers
  import opened Text

  function LowerChar(c: char): char {
    if 'A' <= c <= 'Z' then c - 'A' + 'a' else c
  }

  // Option names are compared, and stored, in lower case.
  function Lower(s: string): string {
    if s == [] then [] else [LowerChar(s[0])] + Lower(s[1..])
  }

  lemma {:induction false} LowerAt(s: string)
    ensures |Lower(s)| == |s| && forall k :: 0 <= k < |s| ==> Lower(s)[k] == LowerChar(s[k])
  {
    if s != [] {
      LowerAt(s[1..]);
    }
  }

  // Two names are the same key exactly when they differ in the case of ASCII letters only, and a key is its
  // name without capital letters.
  lemma LowerExactly(s: string, t: string)
    ensures Lower(s) == Lower(t) <==> SameSpelling(s, t)
    ensures SameSpelling(s, Lower(s)) && forall k :: 0 <= k < |Lower(s)| ==> !('A' <= Lower(s)[k] <= 'Z')
  {
    LowerAt(s);
    LowerAt(t);
    forall k | 0 <= k < |s| ensures SameLetter(s[k], Lower(s)[k]) && !('A' <= Lower(s)[k] <= 'Z') {
      LowerChars(s[k], s[k]);
    }
    if |s| == |t| {
      forall k | 0 <= k < |s| ensures Lower(s)[k] == Lower(t)[k] <==> SameLetter(s[k], t[k]) {
        LowerChars(s[k], t[k]);
      }
    }
  }

  lemma LowerChars(a: char, b: char)
    ensures LowerChar(a) == LowerChar(b) <==> SameLetter(a, b)
    ensures SameLetter(a, LowerChar(a)) && !('A' <= LowerChar(a) <= 'Z')
  {
  }

  type Section = map<string, int>

  // `m` is the greatest index in the section, or 0 when none is positive.
  ghost predicate IsMax(section: Section, m: int) {
    && m >= 0
    && (forall key :: key in section ==> section[key] <= m)
    && (m > 0 ==> exists key :: key in section && section[key] == m)
  }

  lemma MaxIsUnique(section: Section, a: int, b: int)
    requires IsMax(section, a) && IsMax(section, b)
    ensures a == b
  {
  }

  // One run of the script.
  ghost predicate Updated(before: Section, icon: string, after: Section) {
    if Lower(icon) in before then after == before
    else exists m :: IsMax(before, m) && after == before[Lower(icon) := m + 1]
  }

  method UpdateMenuIniFile(icon: string, section: Section) returns (after: Section)
    ensures Updated(section, icon, after)
  {
    if Lower(icon) in section {
      return section;
    }
    var max := 0;
    var rest := section.Keys;
    while rest != {}
      invariant rest <= section.Keys && max >= 0
      invariant forall key :: key in section && key !in rest ==> section[key] <= max
      invariant max > 0 ==> exists key :: key in section && section[key] == max
      decreases rest
    {
      ghost var any := SomeElement(rest);
      var key :| key in rest;
      if section[key] > max {
        max := section[key];
      }
      rest := rest - {key};
    }
    max := max + 1;
    assert IsMax(section, max - 1);
    after := section[Lower(icon) := max];
  }

  // A batch of runs, one for each icon file.
  ghost predicate Batch(states: seq<Section>, icons: seq<string>) {
    |states| == |icons| + 1 && forall k :: 0 <= k < |icons| ==> Updated(states[k], icons[k], states[k + 1])
  }

  ghost predicate Injective(section: Section) {
    forall a, b :: a in section && b in section && a != b ==> section[a] != section[b]
  }

  // `after` keeps every entry of `before`, and each entry it adds is above all of them.
  ghost predicate Extends(before: Section, after: Section) {
    && (forall key :: key in before ==> key in after && after[key] == before[key])
    && (forall key, held :: key in after && key !in before && held in before ==> after[key] > before[held])
    && (forall key :: key in after && key !in before ==> after[key] > 0)
  }

  lemma RunExtends(before: Section, icon: string, after: Section)
    requires Updated(before, icon, after)
    ensures Extends(before, after)
    ensures Injective(before) ==> Injective(after)
  {
    if Lower(icon) !in before {
      var m :| IsMax(before, m) && after == before[Lower(icon) := m + 1];
      forall key | key in after && key !in before ensures key == Lower(icon) {
      }
    }
  }

  // Entries never change, each one added in a run is greater than all there were before it, and an
  // injective section stays so.
  lemma {:induction false} BatchOnlyAdds(states: seq<Section>, icons: seq<string>, j: nat, k: nat)
    requires Batch(states, icons) && j <= k <= |icons|
    ensures Extends(states[j], states[k])
    ensures Injective(states[j]) ==> Injective(states[k])
    decreases k - j
  {
    if j < k {
      BatchOnlyAdds(states, icons, j, k - 1);
      RunExtends(states[k - 1], icons[k - 1], states[k]);
    }
  }

  // After a batch every icon of it has an entry.
  lemma {:induction false} BatchCoversIcons(states: seq<Section>, icons: seq<string>, i: nat)
    requires Batch(states, icons) && i < |icons|
    ensures Lower(icons[i]) in states[|icons|]
  {
    assert Updated(states[i], icons[i], states[i + 1]);
    assert Lower(icons[i]) in states[i + 1];
    BatchOnlyAdds(states, icons, i + 1, |icons|);
  }

  // Every name of `icons'` is one of `icons`, up to case.
  ghost predicate Covered(icons: seq<string>, icons': seq<string>) {
    forall icon' :: icon' in icons' ==> exists icon :: icon in icons && SameSpelling(icon, icon')
  }

  // Running a batch again changes nothing, in whatever order and case its icons come.
  lemma {:induction false} RepeatIsIdle(states: seq<Section>, icons: seq<string>,
                                              again: seq<Section>, icons': seq<string>)
    requires Batch(states, icons) && Batch(again, icons') && again[0] == states[|icons|]
    requires Covered(icons, icons')
    ensures forall k :: 0 <= k < |again| ==> again[k] == states[|icons|]
  {
    forall k | 0 <= k < |again| ensures again[k] == states[|icons|] {
      RepeatStep(states, icons, again, icons', k);
    }
  }

  lemma {:induction false} RepeatStep(states: seq<Section>, icons: seq<string>,
                                            again: seq<Section>, icons': seq<string>, k: nat)
    requires Batch(states, icons) && Batch(again, icons') && again[0] == states[|icons|] && k < |again|
    requires Covered(icons, icons')
    ensures again[k] == states[|icons|]
    decreases k
  {
    if k > 0 {
      RepeatStep(states, icons, again, icons', k - 1);
      assert Updated(again[k - 1], icons'[k - 1], again[k]);
      assert icons'[k - 1] in icons';
      var icon :| icon in icons && SameSpelling(icon, icons'[k - 1]);
      LowerExactly(icon, icons'[k - 1]);
      var i :| 0 <= i < |icons| && icons[i] == icon;
      BatchCoversIcons(states, icons, i);
    }
  }

  // The names of a batch in lower case, each where it is first seen.
  function FirstSeen(icons: seq<string>): seq<string> {
    if icons == [] then []
    else
      var names := FirstSeen(icons[..|icons| - 1]);
      var name := Lower(icons[|icons| - 1]);
      if name in names then names else names + [name]
  }

  // The section numbers exactly these names, in order, from 1.
  ghost predicate Numbers(names: seq<string>, section: Section) {
    && (forall i :: 0 <= i < |names| ==> names[i] in section && section[names[i]] == i + 1)
    && (forall key :: key in section ==> key in names)
  }

  lemma NumbersIsMax(names: seq<string>, section: Section)
    requires Numbers(names, section)
    ensures IsMax(section, |names|)
  {
    if names != [] {
      assert section[names[|names| - 1]] == |names|;
    }
  }

  lemma NumbersStep(names: seq<string>, before: Section, icon: string, after: Section)
    requires Numbers(names, before) && Updated(before, icon, after)
    ensures Numbers(if Lower(icon) in names then names else names + [Lower(icon)], after)
  {
    if Lower(icon) !in names {
      var m :| IsMax(before, m) && after == before[Lower(icon) := m + 1];
      NumbersIsMax(names, before);
      MaxIsUnique(before, m, |names|);
    }
  }

  // From an empty section the names get 1, 2, 3, ... in the order in which they are first seen.
  lemma {:induction false} FreshBatchNumbers(states: seq<Section>, icons: seq<string>, k: nat)
    requires Batch(states, icons) && states[0] == map[] && k <= |icons|
    ensures Numbers(FirstSeen(icons[..k]), states[k])
    decreases k
  {
    if k > 0 {
      FreshBatchNumbers(states, icons, k - 1);
      assert icons[..k][..k - 1] == icons[..k - 1];
      assert Updated(states[k - 1], icons[k - 1], states[k]);
      NumbersStep(FirstSeen(icons[..k - 1]), states[k - 1], icons[k - 1], states[k]);
    }
  }
}
