/** The combo string the event handler builds when a non-modifier key ends a
    chord: the canonical names of the held modifiers, sorted and without
    repeats, then the final key, joined by '+'. */
module Combo {
  import opened Strings
  import opened Keybindings

  /** The tokens the key logger writes for modifier keys that start a chord. */
  predicate IsModifierToken(t: string) {
    t == "[CtrlL]" || t == "[CtrlR]" || t == "[AltL]" || t == "[AltR]"
    || t == "[ShiftL]" || t == "[ShiftR]" || t == "[SuperL]"
  }

  /** `get_canonical_modifier`: left and right variants share one name;
      anything else has the empty name. */
  function CanonicalModifier(m: string): (r: string)
    ensures r == [] <==> !IsModifierToken(m)
    ensures r == [] || r == "Alt" || r == "Ctrl" || r == "Shift" || r == "Super"
  {
    if m == "[CtrlL]" || m == "[CtrlR]" then "Ctrl"
    else if m == "[AltL]" || m == "[AltR]" then "Alt"
    else if m == "[ShiftL]" || m == "[ShiftR]" then "Shift"
    else if m == "[SuperL]" then "Super"
    else ""
  }

  /** The non-empty canonical names of the held modifiers, in order. */
  function CanonicalNames(mods: seq<string>): (r: seq<string>)
    ensures forall x :: x in r <==> x != [] && exists m :: m in mods && CanonicalModifier(m) == x
  {
    if mods == [] then []
    else
      var c := CanonicalModifier(mods[0]);
      var rest := CanonicalNames(mods[1..]);
      assert forall m :: m in mods <==> m == mods[0] || m in mods[1..];
      if c == [] then rest else [c] + rest
  }

  /** `Vec::dedup`: drops every element equal to the one before it. */
  function Dedup(s: seq<string>): (r: seq<string>)
    ensures forall x :: x in r <==> x in s
    ensures s != [] ==> r != [] && r[0] == s[0]
  {
    if |s| <= 1 then s
    else if s[0] == s[1] then
      assert forall x :: x in s <==> x in s[1..] by {
        forall x | x in s ensures x in s[1..] {
          var i :| 0 <= i < |s| && s[i] == x;
          assert i == 0 ==> s[1] == x;
        }
      }
      Dedup(s[1..])
    else
      assert forall x :: x in s <==> x == s[0] || x in s[1..];
      [s[0]] + Dedup(s[1..])
  }

  /** In order with no two adjacent elements equal. */
  ghost predicate StrictlySorted(s: seq<string>) {
    forall i :: 0 <= i < |s| - 1 ==> StrLe(s[i], s[i + 1]) && s[i] != s[i + 1]
  }

  lemma {:induction false} DedupSorted(s: seq<string>)
    requires SortedBy(s, Identity)
    ensures StrictlySorted(Dedup(s))
  {
    if |s| > 1 {
      DedupSorted(s[1..]);
    }
  }

  /** The modifier parts of a combo. */
  function ComboParts(mods: seq<string>): seq<string> {
    Dedup(SortBy(CanonicalNames(mods), Identity))
  }

  /** The key that ends a combo: Enter and Space by name, anything else with
      every leading "shift+" removed. */
  function FinalKey(t: string): (k: string)
    ensures t == "[Enter]" ==> k == "Enter"
    ensures t == "[Space]" ==> k == "Space"
    ensures t != "[Enter]" && t != "[Space]" ==> k == TrimStartMatches(t, "shift+")
  {
    if t == "[Enter]" then "Enter"
    else if t == "[Space]" then "Space"
    else TrimStartMatches(t, "shift+")
  }

  /** `str::trim_start_matches` with a string pattern. */
  function TrimStartMatches(s: string, prefix: string): (r: string)
    ensures |r| <= |s| && r == s[|s| - |r|..]
    ensures prefix != [] ==> !StartsWith(r, prefix)
    decreases |s|
  {
    if prefix != [] && StartsWith(s, prefix) then TrimStartMatches(s[|prefix|..], prefix)
    else s
  }

  /** What `trim_start_matches` removes is a whole number of copies of the
      pattern. */
  lemma TrimStartMatchesRemovesCopies(s: string, prefix: string)
    ensures exists n: nat :: s == Repeat(prefix, n) + TrimStartMatches(s, prefix)
  {
    var n := CopiesRemoved(s, prefix);
  }

  /** How many copies `trim_start_matches` removes. */
  lemma {:induction false} CopiesRemoved(s: string, prefix: string) returns (n: nat)
    ensures s == Repeat(prefix, n) + TrimStartMatches(s, prefix)
    decreases |s|
  {
    if prefix != [] && StartsWith(s, prefix) {
      var rest := s[|prefix|..];
      var m := CopiesRemoved(rest, prefix);
      var tail := TrimStartMatches(rest, prefix);
      assert TrimStartMatches(s, prefix) == tail;
      calc {
        s;
        prefix + rest;
        prefix + (Repeat(prefix, m) + tail);
        (prefix + Repeat(prefix, m)) + tail;
        Repeat(prefix, m + 1) + tail;
      }
      n := m + 1;
    } else {
      n := 0;
      assert s == Repeat(prefix, 0) + TrimStartMatches(s, prefix);
    }
  }

  /** Apart from Enter and Space, the final key is the typed text after every
      leading "shift+", and it no longer starts with one. */
  lemma FinalKeyDropsShifts(t: string)
    requires t != "[Enter]" && t != "[Space]"
    ensures !StartsWith(FinalKey(t), "shift+")
    ensures exists n: nat :: t == Repeat("shift+", n) + FinalKey(t)
  {
    TrimStartMatchesRemovesCopies(t, "shift+");
  }

  /** The combo string compared with the bindings. */
  function ComboString(mods: seq<string>, t: string): string {
    Join(ComboParts(mods) + [FinalKey(t)], '+')
  }

  /** The modifier parts name exactly the held modifiers, sorted and each
      once. */
  lemma ComboPartsSpec(mods: seq<string>)
    ensures StrictlySorted(ComboParts(mods))
    ensures forall x :: x in ComboParts(mods) <==>
                        x != [] && exists m :: m in mods && CanonicalModifier(m) == x
  {
    var names := CanonicalNames(mods);
    var sorted := SortBy(names, Identity);
    SortBySorted(names, Identity);
    DedupSorted(sorted);
    forall x ensures x in sorted <==> x in names {
      assert x in sorted <==> x in multiset(sorted);
      assert x in names <==> x in multiset(names);
    }
  }

  /** A combo splits back into its parts. */
  lemma ComboStringParts(mods: seq<string>, t: string)
    requires '+' !in FinalKey(t)
    ensures Split(ComboString(mods, t), '+') == ComboParts(mods) + [FinalKey(t)]
  {
    var parts := ComboParts(mods) + [FinalKey(t)];
    ComboPartsSpec(mods);
    forall k | 0 <= k < |parts| ensures '+' !in parts[k] {
      if k < |parts| - 1 {
        assert parts[k] in ComboParts(mods);
      }
    }
    SplitJoin(parts, '+');
  }

  /** The first element of a strictly sorted sequence is below every other. */
  lemma {:induction false} SortedHeadLeast(s: seq<string>, x: string)
    requires StrictlySorted(s) && x in s
    ensures StrLe(s[0], x)
  {
    if x != s[0] {
      assert x in s[1..];
      SortedHeadLeast(s[1..], x);
      StrLeTransitive(s[0], s[1], x);
    } else {
      StrLeTotal(x, x);
    }
  }

  /** Strictly sorted sequences with the same elements are equal. */
  lemma {:induction false} StrictlySortedUnique(a: seq<string>, b: seq<string>)
    requires StrictlySorted(a) && StrictlySorted(b)
    requires forall x :: x in a <==> x in b
    ensures a == b
    decreases |a|
  {
    assert a != [] ==> a[0] in b;
    assert b != [] ==> b[0] in a;
    if a != [] && b != [] {
      SortedHeadLeast(a, b[0]);
      SortedHeadLeast(b, a[0]);
      StrLeAntisymmetric(a[0], b[0]);
      forall x ensures x in a[1..] <==> x in b[1..] {
        TailElements(a, x);
        TailElements(b, x);
      }
      StrictlySortedUnique(a[1..], b[1..]);
      assert a == [a[0]] + a[1..] && b == [b[0]] + b[1..];
    }
  }

  /** The tail of a strictly sorted sequence holds everything but its head. */
  lemma TailElements(s: seq<string>, x: string)
    requires StrictlySorted(s) && s != []
    ensures x in s[1..] <==> x in s && x != s[0]
  {
    if x in s[1..] && |s| > 1 {
      SortedHeadLeast(s[1..], x);
      if x == s[0] {
        StrLeAntisymmetric(s[0], s[1]);
      }
    }
    assert forall y :: y in s <==> y == s[0] || y in s[1..];
  }

  /** Only the names of the held modifiers count: which of a side's two keys
      was held, the order of pressing and repeats do not change the combo. */
  lemma ComboIgnoresOrder(m1: seq<string>, m2: seq<string>, t: string)
    requires forall x :: x in CanonicalNames(m1) <==> x in CanonicalNames(m2)
    ensures ComboString(m1, t) == ComboString(m2, t)
  {
    ComboPartsSpec(m1);
    ComboPartsSpec(m2);
    forall x ensures x in ComboParts(m1) <==> x in ComboParts(m2) {
      assert x in CanonicalNames(m1) <==> x in CanonicalNames(m2);
    }
    StrictlySortedUnique(ComboParts(m1), ComboParts(m2));
  }

  /* ---------------- matching a binding against the combo ---------------- */

  /** The four modifier names. */
  predicate IsModifierName(x: string) {
    x == "Alt" || x == "Ctrl" || x == "Shift" || x == "Super"
  }

  /** An upper-case letter followed by lower-case letters. */
  predicate Capitalized(x: string) {
    |x| >= 1 && 'A' <= x[0] <= 'Z' && forall i :: 1 <= i < |x| ==> 'a' <= x[i] <= 'z'
  }

  lemma ModifierNameCapitalized(x: string)
    requires IsModifierName(x)
    ensures Capitalized(x)
  {
  }

  /** Lower-casing a capitalized word changes only its first letter. */
  lemma LowerCapitalized(x: string)
    requires Capitalized(x)
    ensures ToAsciiLower(x) == [LowerChar(x[0])] + x[1..]
  {
    var l := ToAsciiLower(x);
    assert forall i :: 1 <= i < |x| ==> l[i] == x[i];
  }

  /** Capitalized words sort the same way with and without case, as the
      first letters all shift by the same amount. */
  lemma NameOrderIgnoresCase(a: string, b: string)
    requires Capitalized(a) && Capitalized(b) && StrLe(a, b)
    ensures StrLe(ToAsciiLower(a), ToAsciiLower(b))
  {
    LowerCapitalized(a);
    LowerCapitalized(b);
    var la, lb := ToAsciiLower(a), ToAsciiLower(b);
    assert la[1..] == a[1..] && lb[1..] == b[1..];
  }

  /** The lower-cased modifier parts of a combo are in order. */
  lemma LowerPartsSorted(mods: seq<string>)
    ensures SortedBy(LowerAll(ComboParts(mods)), Identity)
  {
    var parts := ComboParts(mods);
    ComboPartsSpec(mods);
    forall i | 0 <= i < |parts| - 1
      ensures StrLe(LowerAll(parts)[i], LowerAll(parts)[i + 1])
    {
      assert parts[i] in parts && parts[i + 1] in parts;
      ModifierNameCapitalized(parts[i]);
      ModifierNameCapitalized(parts[i + 1]);
      NameOrderIgnoresCase(parts[i], parts[i + 1]);
    }
  }

  /** Under the corrected canonical form a binding naming the combo's
      modifiers in any order and any ASCII case, followed by its final key
      in any case, matches the combo. */
  lemma FoldedBindingMatches(kb: string, mods: seq<string>, t: string)
    requires '+' !in FinalKey(t)
    requires var parts := Split(kb, '+');
             |parts| == |ComboParts(mods)| + 1 >= 2
             && multiset(LowerAll(parts[..|parts| - 1])) == multiset(LowerAll(ComboParts(mods)))
             && EqIgnoreAsciiCase(parts[|parts| - 1], FinalKey(t))
    ensures EqIgnoreAsciiCase(CanonicalizeFolded(kb), ComboString(mods, t))
  {
    var parts := Split(kb, '+');
    var n := |parts|;
    var front := parts[..n - 1];
    var cparts := ComboParts(mods);
    var fk := FinalKey(t);
    JoinSplit(kb, '+');
    JoinHasSep(parts, '+');
    LowerHasSep(kb);
    LowerCanonicalizeFolded(kb);
    LowerSplit(kb);
    LowerAllTake(parts, n - 1);
    var lowered := LowerAll(parts);
    assert Canonicalize(ToAsciiLower(kb))
           == Join(SortBy(LowerAll(front), Identity) + [ToAsciiLower(parts[n - 1])], '+');
    SortBySorted(LowerAll(front), Identity);
    LowerPartsSorted(mods);
    SortedUnique(SortBy(LowerAll(front), Identity), LowerAll(cparts));
    LowerJoin(cparts + [fk]);
    LowerAllAppend(cparts, fk);
  }

  lemma AltCtrlNames(mods: seq<string>)
    requires mods == ["[AltL]", "[CtrlL]"]
    ensures CanonicalNames(mods) == ["Alt", "Ctrl"]
  {
    assert mods[1..] == ["[CtrlL]"] && mods[1..][1..] == [];
    assert CanonicalModifier(mods[1]) == "Ctrl";
    assert CanonicalModifier(mods[0]) == "Alt";
    assert CanonicalNames(mods[1..][1..]) == [];
    assert CanonicalNames(mods[1..]) == ["Ctrl"];
  }

  lemma AltCtrlParts(mods: seq<string>)
    requires mods == ["[AltL]", "[CtrlL]"]
    ensures ComboParts(mods) == ["Alt", "Ctrl"]
  {
    AltCtrlNames(mods);
    var names := CanonicalNames(mods);
    assert StrLe(names[0], names[1]);
    assert SortedBy(names, Identity);
    SortBySortedInput(names, Identity);
    assert names[0] != names[1];
    assert Dedup(names) == [names[0]] + Dedup(names[1..]);
  }

  /** The combo for Alt and Ctrl held before "x". */
  lemma AltCtrlCombo(mods: seq<string>, t: string)
    requires mods == ["[AltL]", "[CtrlL]"] && t == "x"
    ensures ComboString(mods, t) == "Alt+Ctrl+x"
  {
    AltCtrlParts(mods);
    assert FinalKey(t) == "x";
    AltCtrlJoin(ComboParts(mods) + [FinalKey(t)]);
  }

  lemma AltCtrlJoin(parts: seq<string>)
    requires parts == ["Alt", "Ctrl", "x"]
    ensures Join(parts, '+') == "Alt+Ctrl+x"
  {
    assert Join(parts[1..][1..], '+') == "x";
    assert Join(parts[1..], '+') == "Ctrl" + "+" + "x";
    assert Join(parts, '+') == "Alt" + "+" + ("Ctrl" + "+" + "x");
    assert "Alt" + "+" + ("Ctrl" + "+" + "x") == "Alt+Ctrl+x";
  }

  /** A mixed-case binding whose parts are given by a join. */
  lemma MixedBindingParts(kb: string)
    requires kb == "alt+Ctrl+x"
    ensures Split(kb, '+') == ["alt", "Ctrl", "x"]
  {
    var parts := ["alt", "Ctrl", "x"];
    assert Join(parts[1..], '+') == "Ctrl+x";
    assert Join(parts, '+') == kb;
    assert forall k :: 0 <= k < |parts| ==> '+' !in parts[k];
    SplitJoin(parts, '+');
  }

  /** As written, "alt+Ctrl+x" canonicalizes to "Ctrl+alt+x". */
  lemma MixedBindingCanonical(kb: string)
    requires kb == "alt+Ctrl+x"
    ensures Canonicalize(kb) == "Ctrl+alt+x"
  {
    MixedBindingParts(kb);
    assert kb[3] == '+';
    var front := Split(kb, '+')[..2];
    assert front == ["alt", "Ctrl"];
    assert !StrLe(front[0], front[1]);
    assert SortBy(front[1..], Identity) == front[1..];
    assert SortBy(front, Identity) == [front[1], front[0]];
    var out := SortBy(front, Identity) + ["x"];
    assert out == ["Ctrl", "alt", "x"];
    assert Join(out[1..], '+') == "alt+x";
  }

  /** The corrected form keeps "alt+Ctrl+x" as it is. */
  lemma MixedBindingFolded(kb: string)
    requires kb == "alt+Ctrl+x"
    ensures CanonicalizeFolded(kb) == kb
  {
    MixedBindingParts(kb);
    assert kb[3] == '+';
    var parts := Split(kb, '+');
    var front := parts[..2];
    assert front == ["alt", "Ctrl"];
    assert ToAsciiLower(front[0])[0] == 'a' && ToAsciiLower(front[1])[0] == 'c';
    assert StrLe(ToAsciiLower(front[0]), ToAsciiLower(front[1]));
    assert SortedBy(front, ToAsciiLower);
    SortBySortedInput(front, ToAsciiLower);
    assert front + [parts[2]] == parts;
    JoinSplit(kb, '+');
  }

  /** "alt+Ctrl+x" and "Alt+Ctrl+x" differ only in case. */
  lemma MixedBindingSameCase(kb: string, combo: string)
    requires kb == "alt+Ctrl+x" && combo == "Alt+Ctrl+x"
    ensures EqIgnoreAsciiCase(kb, combo)
  {
    var l1, l2 := ToAsciiLower(kb), ToAsciiLower(combo);
    forall i | 0 <= i < |l1| ensures l1[i] == l2[i] {
      assert LowerChar(kb[i]) == LowerChar(combo[i]);
    }
  }

  /** The canonical form as written sorts case-sensitively, so a binding
      that mixes cases can put its parts in another order than the combo:
      "alt+Ctrl+x" names the modifiers of the combo "Alt+Ctrl+x", in the
      combo's own order, yet canonicalizes to "Ctrl+alt+x", which does not
      match it, while the corrected form does. */
  lemma CaseSensitiveSortMisses(kb: string, mods: seq<string>, t: string)
    requires kb == "alt+Ctrl+x" && mods == ["[AltL]", "[CtrlL]"] && t == "x"
    ensures EqIgnoreAsciiCase(kb, ComboString(mods, t))
    ensures !EqIgnoreAsciiCase(Canonicalize(kb), ComboString(mods, t))
    ensures EqIgnoreAsciiCase(CanonicalizeFolded(kb), ComboString(mods, t))
  {
    var combo := ComboString(mods, t);
    AltCtrlCombo(mods, t);
    MixedBindingCanonical(kb);
    MixedBindingFolded(kb);
    MixedBindingSameCase(kb, combo);
    assert ToAsciiLower(Canonicalize(kb))[0] == 'c';
    assert ToAsciiLower(combo)[0] == 'a';
  }
}
