/** Ordering of keybinding parts, and `canonicalize_keybinding`: a binding
    "m1+m2+...+key" is rewritten with its modifier parts sorted so that it can
    be compared with the combo string built from the pressed modifiers. */
module Keybindings {
  import opened Strings

  /* ---------------- ordering of strings ---------------- */

  /** `str` ordering: lexicographic by character (UTF-8 byte order agrees
      with code-point order). */
  predicate StrLe(a: string, b: string)
    decreases |a|
  {
    a == [] || (b != [] && (a[0] < b[0] || (a[0] == b[0] && StrLe(a[1..], b[1..]))))
  }

  lemma {:induction false} StrLeTotal(a: string, b: string)
    ensures StrLe(a, b) || StrLe(b, a)
    decreases |a|
  {
    if a != [] && b != [] && a[0] == b[0] {
      StrLeTotal(a[1..], b[1..]);
    }
  }

  lemma {:induction false} StrLeAntisymmetric(a: string, b: string)
    requires StrLe(a, b) && StrLe(b, a)
    ensures a == b
    decreases |a|
  {
    if a != [] {
      StrLeAntisymmetric(a[1..], b[1..]);
      assert a == [a[0]] + a[1..] && b == [b[0]] + b[1..];
    }
  }

  lemma {:induction false} StrLeTransitive(a: string, b: string, c: string)
    requires StrLe(a, b) && StrLe(b, c)
    ensures StrLe(a, c)
    decreases |a|
  {
    if a != [] && a[0] == b[0] && b[0] == c[0] {
      StrLeTransitive(a[1..], b[1..], c[1..]);
    }
  }

  /* ---------------- sorting by a key ---------------- */

  function Identity(s: string): string {
    s
  }

  /** Adjacent parts are in order of their keys. */
  ghost predicate SortedBy(s: seq<string>, key: string -> string) {
    forall i :: 0 <= i < |s| - 1 ==> StrLe(key(s[i]), key(s[i + 1]))
  }

  /** Places `x` before the first part whose key is not smaller. */
  function InsertBy(x: string, s: seq<string>, key: string -> string): (r: seq<string>)
    ensures |r| == |s| + 1
    ensures multiset(r) == multiset(s) + multiset{x}
  {
    if s == [] || StrLe(key(x), key(s[0])) then [x] + s
    else
      assert s == [s[0]] + s[1..];
      [s[0]] + InsertBy(x, s[1..], key)
  }

  /** `sort_unstable` (by `key`): an insertion sort. */
  function SortBy(s: seq<string>, key: string -> string): (r: seq<string>)
    ensures |r| == |s|
    ensures multiset(r) == multiset(s)
  {
    if s == [] then []
    else
      assert s == [s[0]] + s[1..];
      InsertBy(s[0], SortBy(s[1..], key), key)
  }

  lemma {:induction false} InsertBySorted(x: string, s: seq<string>, key: string -> string)
    requires SortedBy(s, key)
    ensures SortedBy(InsertBy(x, s, key), key)
    ensures s != [] ==> InsertBy(x, s, key)[0] == x || InsertBy(x, s, key)[0] == s[0]
  {
    if s != [] && !StrLe(key(x), key(s[0])) {
      StrLeTotal(key(x), key(s[0]));
      InsertBySorted(x, s[1..], key);
    }
  }

  /** What `sort_unstable` promises: the result is ordered and holds the
      same parts. */
  lemma {:induction false} SortBySorted(s: seq<string>, key: string -> string)
    ensures SortedBy(SortBy(s, key), key)
    ensures multiset(SortBy(s, key)) == multiset(s)
  {
    if s != [] {
      SortBySorted(s[1..], key);
      InsertBySorted(s[0], SortBy(s[1..], key), key);
    }
  }

  /** Sorting what is already sorted changes nothing. */
  lemma {:induction false} SortBySortedInput(s: seq<string>, key: string -> string)
    requires SortedBy(s, key)
    ensures SortBy(s, key) == s
  {
    if s != [] {
      SortBySortedInput(s[1..], key);
      assert s == [s[0]] + s[1..];
    }
  }

  /** The head of an ordered sequence is below each of its parts. */
  lemma {:induction false} SortedHeadLe(s: seq<string>, x: string)
    requires SortedBy(s, Identity) && x in s
    ensures StrLe(s[0], x)
  {
    if x == s[0] {
      StrLeTotal(x, x);
    } else {
      assert x in s[1..];
      SortedHeadLe(s[1..], x);
      StrLeTransitive(s[0], s[1], x);
    }
  }

  /** An ordering of a multiset is unique. */
  lemma {:induction false} SortedUnique(a: seq<string>, b: seq<string>)
    requires SortedBy(a, Identity) && SortedBy(b, Identity)
    requires multiset(a) == multiset(b)
    ensures a == b
    decreases |a|
  {
    assert |a| == |multiset(a)| == |b|;
    if a != [] {
      assert a[0] in multiset(b) && b[0] in multiset(a);
      SortedHeadLe(a, b[0]);
      SortedHeadLe(b, a[0]);
      StrLeAntisymmetric(a[0], b[0]);
      MultisetTail(a, b);
      SortedUnique(a[1..], b[1..]);
      assert a == [a[0]] + a[1..] && b == [b[0]] + b[1..];
    }
  }

  lemma MultisetTail(a: seq<string>, b: seq<string>)
    requires a != [] && b != [] && a[0] == b[0] && multiset(a) == multiset(b)
    ensures multiset(a[1..]) == multiset(b[1..])
  {
    assert multiset(a) == multiset{a[0]} + multiset(a[1..]) by {
      assert a == [a[0]] + a[1..];
    }
    assert multiset(b) == multiset{b[0]} + multiset(b[1..]) by {
      assert b == [b[0]] + b[1..];
    }
    forall x ensures multiset(a[1..])[x] == multiset(b[1..])[x] {
      assert multiset(a)[x] == multiset(b)[x];
    }
  }

  /* ---------------- canonicalize_keybinding ---------------- */

  /** `canonicalize_keybinding`: without a '+' the binding is kept; otherwise
      its '+'-separated parts but the last are sorted (case-sensitively) and
      the last part is put back at the end. */
  function Canonicalize(kb: string): (r: string)
    ensures '+' !in kb ==> r == kb
  {
    if '+' !in kb then kb
    else
      var parts := Split(kb, '+');
      Join(SortBy(parts[..|parts| - 1], Identity) + [parts[|parts| - 1]], '+')
  }

  /** Canonical form of a binding that has a '+': the same parts, the final
      key still last, the others in order. */
  lemma CanonicalizeShape(kb: string)
    requires '+' in kb
    ensures var parts := Split(kb, '+');
            var out := Split(Canonicalize(kb), '+');
            |out| == |parts| >= 2 && out[|out| - 1] == parts[|parts| - 1]
            && SortedBy(out[..|out| - 1], Identity)
            && multiset(out) == multiset(parts)
  {
    var parts := Split(kb, '+');
    var mods := parts[..|parts| - 1];
    var sorted := SortBy(mods, Identity);
    var joined := sorted + [parts[|parts| - 1]];
    SplitHasSep(kb);
    PartsOfSorted(mods, Identity);
    SplitJoin(joined, '+');
    SortBySorted(mods, Identity);
    AppendLast(sorted, parts[|parts| - 1]);
    ButLast(parts);
  }

  /** A non-empty sequence is its front followed by its last element. */
  lemma ButLast<T>(s: seq<T>)
    requires s != []
    ensures s == s[..|s| - 1] + [s[|s| - 1]]
  {
  }

  lemma AppendLast<T>(s: seq<T>, x: T)
    ensures (s + [x])[..|s|] == s && (s + [x])[|s|] == x
  {
  }

  /** Sorting keeps parts free of the separator. */
  lemma PartsOfSorted(mods: seq<string>, key: string -> string)
    requires forall k :: 0 <= k < |mods| ==> '+' !in mods[k]
    ensures forall k :: 0 <= k < |SortBy(mods, key)| ==> '+' !in SortBy(mods, key)[k]
  {
    var sorted := SortBy(mods, key);
    forall k | 0 <= k < |sorted| ensures '+' !in sorted[k] {
      assert sorted[k] in multiset(sorted);
      assert sorted[k] in multiset(mods);
    }
  }

  /** Canonicalizing a canonical binding gives it back. */
  lemma CanonicalizeIdempotent(kb: string)
    ensures Canonicalize(Canonicalize(kb)) == Canonicalize(kb)
  {
    if '+' in kb {
      var c := Canonicalize(kb);
      CanonicalizeShape(kb);
      var out := Split(c, '+');
      JoinSplit(c, '+');
      JoinHasSep(out, '+');
      assert '+' in c;
      SortBySortedInput(out[..|out| - 1], Identity);
      ButLast(out);
    }
  }

  /** A binding with a '+' has at least two parts. */
  lemma SplitHasSep(s: string)
    requires '+' in s
    ensures |Split(s, '+')| >= 2
  {
    JoinSplit(s, '+');
  }

  /** Joining two or more parts puts the separator in. */
  lemma JoinHasSep(parts: seq<string>, sep: char)
    requires |parts| >= 2
    ensures sep in Join(parts, sep)
  {
    assert Join(parts, sep) == parts[0] + [sep] + Join(parts[1..], sep);
    assert Join(parts, sep)[|parts[0]|] == sep;
  }

  /* ---------------- ignoring ASCII case ---------------- */

  /** Every part lower-cased. */
  function LowerAll(s: seq<string>): (r: seq<string>)
    ensures |r| == |s|
    ensures forall k :: 0 <= k < |s| ==> r[k] == ToAsciiLower(s[k])
  {
    if s == [] then [] else [ToAsciiLower(s[0])] + LowerAll(s[1..])
  }

  /** Binding parts sorted by their lower-cased form, which is the order the
      case-insensitive comparison of bindings needs. */
  function CanonicalizeFolded(kb: string): (r: string)
    ensures '+' !in kb ==> r == kb
  {
    if '+' !in kb then kb
    else
      var parts := Split(kb, '+');
      Join(SortBy(parts[..|parts| - 1], ToAsciiLower) + [parts[|parts| - 1]], '+')
  }

  lemma LowerConcat(a: string, b: string)
    ensures ToAsciiLower(a + b) == ToAsciiLower(a) + ToAsciiLower(b)
  {
    var l := ToAsciiLower(a + b);
    var r := ToAsciiLower(a) + ToAsciiLower(b);
    assert |l| == |r|;
    forall i | 0 <= i < |l| ensures l[i] == r[i] {
      if i < |a| {
        assert (a + b)[i] == a[i];
      } else {
        assert (a + b)[i] == b[i - |a|];
      }
    }
  }

  lemma LowerHasSep(s: string)
    ensures '+' in ToAsciiLower(s) <==> '+' in s
  {
    var l := ToAsciiLower(s);
    if '+' in s {
      var i :| 0 <= i < |s| && s[i] == '+';
      assert l[i] == '+';
    }
    if '+' in l {
      var i :| 0 <= i < |l| && l[i] == '+';
      assert LowerChar(s[i]) == '+';
    }
  }

  lemma {:induction false} LowerSplit(s: string)
    ensures Split(ToAsciiLower(s), '+') == LowerAll(Split(s, '+'))
  {
    if s != [] {
      var l := ToAsciiLower(s);
      assert l[1..] == ToAsciiLower(s[1..]);
      LowerSplit(s[1..]);
      var rest := Split(s[1..], '+');
      assert (s[0] == '+') == (l[0] == '+');
      if s[0] != '+' {
        LowerConcat([s[0]], rest[0]);
        assert ToAsciiLower([s[0]]) == [l[0]];
        assert LowerAll(rest)[1..] == LowerAll(rest[1..]);
        assert LowerAll(Split(s, '+')) == [ToAsciiLower([s[0]] + rest[0])] + LowerAll(rest[1..]);
      } else {
        assert LowerAll(Split(s, '+')) == [ToAsciiLower([])] + LowerAll(rest);
      }
    }
  }

  lemma {:induction false} LowerJoin(parts: seq<string>)
    ensures ToAsciiLower(Join(parts, '+')) == Join(LowerAll(parts), '+')
  {
    if |parts| >= 2 {
      LowerJoin(parts[1..]);
      LowerConcat(parts[0] + ['+'], Join(parts[1..], '+'));
      LowerConcat(parts[0], ['+']);
      assert ToAsciiLower(['+']) == ['+'];
      assert LowerAll(parts)[1..] == LowerAll(parts[1..]);
    }
  }

  lemma {:induction false} LowerInsert(x: string, s: seq<string>)
    ensures LowerAll(InsertBy(x, s, ToAsciiLower)) == InsertBy(ToAsciiLower(x), LowerAll(s), Identity)
  {
    if s != [] && !StrLe(ToAsciiLower(x), ToAsciiLower(s[0])) {
      LowerInsert(x, s[1..]);
      assert LowerAll(s)[1..] == LowerAll(s[1..]);
      assert LowerAll(InsertBy(x, s, ToAsciiLower))
             == [ToAsciiLower(s[0])] + LowerAll(InsertBy(x, s[1..], ToAsciiLower));
    } else if s != [] {
      assert LowerAll([x] + s) == [ToAsciiLower(x)] + LowerAll(s);
    }
  }

  /** Sorting by lower-cased keys and then lower-casing is sorting the
      lower-cased parts. */
  lemma {:induction false} LowerSort(s: seq<string>)
    ensures LowerAll(SortBy(s, ToAsciiLower)) == SortBy(LowerAll(s), Identity)
  {
    if s != [] {
      LowerSort(s[1..]);
      LowerInsert(s[0], SortBy(s[1..], ToAsciiLower));
      assert LowerAll(s)[1..] == LowerAll(s[1..]);
    }
  }

  /** Lower-casing the folded canonical form is canonicalizing the
      lower-cased binding. */
  lemma LowerCanonicalizeFolded(kb: string)
    ensures ToAsciiLower(CanonicalizeFolded(kb)) == Canonicalize(ToAsciiLower(kb))
  {
    LowerHasSep(kb);
    if '+' in kb {
      var parts := Split(kb, '+');
      var n := |parts|;
      var mods := parts[..n - 1];
      var last := parts[n - 1];
      var lowered := LowerAll(parts);
      LowerSplit(kb);
      assert Split(ToAsciiLower(kb), '+') == lowered;
      LowerAllTake(parts, n - 1);
      assert Canonicalize(ToAsciiLower(kb)) == Join(SortBy(LowerAll(mods), Identity) + [ToAsciiLower(last)], '+');
      var folded := SortBy(mods, ToAsciiLower) + [last];
      assert CanonicalizeFolded(kb) == Join(folded, '+');
      LowerJoin(folded);
      LowerSort(mods);
      LowerAllAppend(SortBy(mods, ToAsciiLower), last);
    }
  }

  lemma LowerAllTake(s: seq<string>, n: nat)
    requires n <= |s|
    ensures LowerAll(s)[..n] == LowerAll(s[..n])
  {
  }

  lemma LowerAllAppend(s: seq<string>, x: string)
    ensures LowerAll(s + [x]) == LowerAll(s) + [ToAsciiLower(x)]
  {
  }

  /** The corrected canonical form respects case-insensitive equality:
      bindings that differ only in ASCII case canonicalize to forms that
      differ only in ASCII case. */
  lemma FoldedRespectsCase(a: string, b: string)
    requires EqIgnoreAsciiCase(a, b)
    ensures EqIgnoreAsciiCase(CanonicalizeFolded(a), CanonicalizeFolded(b))
  {
    LowerCanonicalizeFolded(a);
    LowerCanonicalizeFolded(b);
  }

  /* ---------------- the two canonical forms ---------------- */

  /** Inserting by two keys that agree on every part involved gives the same
      sequence. */
  lemma {:induction false} InsertBySameKeys(x: string, s: seq<string>, f: string -> string, g: string -> string)
    requires f(x) == g(x) && forall y :: y in s ==> f(y) == g(y)
    ensures InsertBy(x, s, f) == InsertBy(x, s, g)
  {
    if s != [] && !StrLe(f(x), f(s[0])) {
      InsertBySameKeys(x, s[1..], f, g);
    }
  }

  /** Sorting by two keys that agree on every part gives the same order. */
  lemma {:induction false} SortBySameKeys(s: seq<string>, f: string -> string, g: string -> string)
    requires forall y :: y in s ==> f(y) == g(y)
    ensures SortBy(s, f) == SortBy(s, g)
  {
    if s != [] {
      SortBySameKeys(s[1..], f, g);
      var sorted := SortBy(s[1..], f);
      forall y | y in sorted ensures f(y) == g(y) {
        assert y in multiset(sorted);
      }
      InsertBySameKeys(s[0], sorted, f, g);
    }
  }

  /** A binding written without upper-case letters has the same canonical
      form whether modifiers are ordered case-sensitively or ignoring case. */
  lemma CanonicalFormsAgreeOnLowerCase(kb: string)
    requires NoAsciiUpper(kb)
    ensures Canonicalize(kb) == CanonicalizeFolded(kb)
  {
    if '+' in kb {
      var parts := Split(kb, '+');
      SplitNoAsciiUpper(kb, '+');
      var front := parts[..|parts| - 1];
      forall y | y in front ensures ToAsciiLower(y) == Identity(y) {
        var k :| 0 <= k < |front| && front[k] == y;
        assert NoAsciiUpper(parts[k]);
      }
      SortBySameKeys(front, Identity, ToAsciiLower);
    }
  }
}
