/** The text an alert's labels are hashed from (internal/alerts/rule.go). */
module Fingerprints {
  import opened Text

  const NUL: char := 0 as char

  // ------------------------------------------------------------ sort.Strings

  /** Go's order on strings. */
  predicate LE(a: string, b: string) {
    a == "" || (b != "" && (a[0] < b[0] || (a[0] == b[0] && LE(a[1..], b[1..]))))
  }

  lemma {:induction false} LETotal(a: string, b: string)
    ensures LE(a, b) || LE(b, a)
  {
    if a != "" && b != "" {
      LETotal(a[1..], b[1..]);
    }
  }

  lemma {:induction false} LEAntisymmetric(a: string, b: string)
    requires LE(a, b) && LE(b, a)
    ensures a == b
  {
    if a != "" {
      LEAntisymmetric(a[1..], b[1..]);
      assert a == [a[0]] + a[1..] && b == [b[0]] + b[1..];
    }
  }

  lemma {:induction false} LETransitive(a: string, b: string, c: string)
    requires LE(a, b) && LE(b, c)
    ensures LE(a, c)
  {
    if a != "" && a[0] == b[0] == c[0] {
      LETransitive(a[1..], b[1..], c[1..]);
    }
  }

  ghost predicate Increasing(s: seq<string>) {
    forall i, j :: 0 <= i < j < |s| ==> LE(s[i], s[j]) && s[i] != s[j]
  }

  function Insert(k: string, s: seq<string>): seq<string> {
    if s == [] then [k]
    else if LE(k, s[0]) then [k] + s
    else [s[0]] + Insert(k, s[1..])
  }

  function SortStrings(keys: seq<string>): seq<string> {
    if keys == [] then [] else Insert(keys[|keys| - 1], SortStrings(keys[..|keys| - 1]))
  }

  lemma {:induction false} InsertElements(k: string, s: seq<string>, x: string)
    ensures x in Insert(k, s) <==> x == k || x in s
  {
    if s != [] && !LE(k, s[0]) {
      InsertElements(k, s[1..], x);
      assert x in s <==> x == s[0] || x in s[1..];
    }
  }

  lemma {:induction false} ConsIncreasing(k: string, s: seq<string>)
    requires Increasing(s) && forall x :: x in s ==> LE(k, x) && k != x
    ensures Increasing([k] + s)
  {
    hide LE;
    var all := [k] + s;
    forall i, j | 0 <= i < j < |all| ensures LE(all[i], all[j]) && all[i] != all[j] {
      assert all[j] == s[j - 1] && s[j - 1] in s;
      if i > 0 {
        assert all[i] == s[i - 1];
      }
    }
  }

  lemma {:induction false} HeadIsLeast(s: seq<string>)
    requires s != [] && Increasing(s)
    ensures Increasing(s[1..]) && forall x :: x in s[1..] ==> LE(s[0], x) && s[0] != x
  {
    hide LE;
    forall x | x in s[1..] ensures LE(s[0], x) && s[0] != x {
      var i :| 0 <= i < |s[1..]| && s[1..][i] == x;
      assert s[i + 1] == x;
    }
  }

  lemma {:induction false} InsertIncreasing(k: string, s: seq<string>)
    requires Increasing(s) && k !in s
    ensures Increasing(Insert(k, s))
  {
    hide LE;
    hide Increasing;
    if s == [] {
      ConsIncreasing(k, s) by {
        EmptyIncreases();
      }
      assert [k] + s == [k];
    } else {
      HeadIsLeast(s);
      assert s[0] in s && s == [s[0]] + s[1..];
      assert forall x :: x in s ==> x == s[0] || x in s[1..];
      if LE(k, s[0]) {
        forall x | x in s ensures LE(k, x) && k != x {
          LEAfter(k, s[0], x);
        }
        ConsIncreasing(k, s);
      } else {
        LETotal(k, s[0]);
        assert forall x :: x in s[1..] ==> x in s;
        InsertIncreasing(k, s[1..]);
        forall x | x in Insert(k, s[1..]) ensures LE(s[0], x) && s[0] != x {
          InsertElements(k, s[1..], x);
        }
        ConsIncreasing(s[0], Insert(k, s[1..]));
      }
    }
  }

  lemma {:induction false} EmptyIncreases()
    ensures Increasing([])
  {
  }

  lemma {:induction false} LEAfter(a: string, b: string, c: string)
    requires LE(a, b) && (b == c || LE(b, c))
    ensures LE(a, c)
  {
    hide LE;
    if b != c {
      LETransitive(a, b, c);
    }
  }

  /** Sorting distinct keys yields them in increasing order. */
  lemma {:induction false} SortedIncreasing(keys: seq<string>)
    requires forall i, j :: 0 <= i < j < |keys| ==> keys[i] != keys[j]
    ensures Increasing(SortStrings(keys)) && forall x :: x in SortStrings(keys) <==> x in keys
  {
    if keys != [] {
      var init, last := keys[..|keys| - 1], keys[|keys| - 1];
      SortedIncreasing(init);
      InsertIncreasing(last, SortStrings(init));
      forall x ensures x in SortStrings(keys) <==> x in keys {
        InsertElements(last, SortStrings(init), x);
        assert keys == init + [last];
      }
    }
  }

  /** There is one way to list a set of strings in increasing order. */
  lemma {:induction false} IncreasingIsUnique(s: seq<string>, t: seq<string>)
    requires Increasing(s) && Increasing(t) && forall x :: x in s <==> x in t
    ensures s == t
  {
    assert t != [] ==> t[0] in t;
    if s != [] {
      assert s[0] in s && s[0] in t;
      assert t[0] in t && t[0] in s;
      var i :| 0 <= i < |s| && s[i] == t[0];
      var j :| 0 <= j < |t| && t[j] == s[0];
      if i > 0 && j > 0 {
        LEAntisymmetric(s[0], t[0]);
      }
      assert s[0] == t[0];
      assert s[0] !in s[1..] && t[0] !in t[1..];
      forall x ensures x in s[1..] <==> x in t[1..] {
        assert x in s <==> x == s[0] || x in s[1..];
        assert x in t <==> x == t[0] || x in t[1..];
      }
      IncreasingIsUnique(s[1..], t[1..]);
      assert s == [s[0]] + s[1..] && t == [t[0]] + t[1..];
    }
  }

  // ---------------------------------------------------------------- the encoding

  function LabelOf(labels: map<string, string>, k: string): string {
    if k in labels then labels[k] else ""
  }

  function Pairs(keys: seq<string>, labels: map<string, string>): string {
    if keys == [] then "" else keys[0] + ['='] + LabelOf(labels, keys[0]) + [NUL] + Pairs(keys[1..], labels)
  }

  /** The text hashed: the listed labels in their order, or every label in sorted order. */
  ghost predicate Encodes(listed: seq<string>, labels: map<string, string>, text: string) {
    if listed != [] then text == Pairs(listed, labels)
    else exists keys :: Increasing(keys) && (forall x :: x in keys <==> x in labels) && text == Pairs(keys, labels)
  }

  /** Every label name of the map, in the order the map happens to yield them, then sorted. */
  method SortedNames(labels: map<string, string>) returns (keys: seq<string>)
    ensures Increasing(keys) && forall x :: x in keys <==> x in labels
  {
    hide Increasing;
    keys := [];
    var rest := labels.Keys;
    while rest != {}
      invariant rest <= labels.Keys
      invariant Enumerates(keys, labels.Keys - rest)
    {
      var k :| k in rest;
      keys := keys + [k];
      rest := rest - {k};
    }
    SortedIncreasing(keys);
    keys := SortStrings(keys);
  }

  /** Fingerprint up to the hash; the map is read in any order. */
  method FingerprintText(listed: seq<string>, labels: map<string, string>) returns (text: string)
    ensures Encodes(listed, labels, text)
  {
    hide Increasing;
    hide LE;
    var keys := listed;
    if keys == [] {
      keys := SortedNames(labels);
    }
    text := "";
    for i := 0 to |keys|
      invariant text + Pairs(keys[i..], labels) == Pairs(keys, labels)
    {
      PairsStep(keys, i, labels, text);
      text := text + (keys[i] + ['='] + LabelOf(labels, keys[i]) + [NUL]);
    }
    assert text + "" == text;
  }

  lemma {:induction false} PairsStep(keys: seq<string>, i: nat, labels: map<string, string>, text: string)
    requires i < |keys|
    ensures text + Pairs(keys[i..], labels) ==
            text + (keys[i] + ['='] + LabelOf(labels, keys[i]) + [NUL]) + Pairs(keys[i + 1..], labels)
  {
    hide LabelOf;
    assert keys[i..][1..] == keys[i + 1..];
  }

  /** The text does not depend on the order in which the label map is read. */
  lemma {:induction false} EncodingIsUnique(listed: seq<string>, labels: map<string, string>, t1: string, t2: string)
    requires Encodes(listed, labels, t1) && Encodes(listed, labels, t2)
    ensures t1 == t2
  {
    if listed == [] {
      var k1 :| Increasing(k1) && (forall x :: x in k1 <==> x in labels) && t1 == Pairs(k1, labels);
      var k2 :| Increasing(k2) && (forall x :: x in k2 <==> x in labels) && t2 == Pairs(k2, labels);
      IncreasingIsUnique(k1, k2);
    }
  }

  // ---------------------------------------------------------------- injectivity

  lemma {:induction false} CutAtFirst(a: string, x: string, b: string, y: string, c: char)
    requires c !in a && c !in b && a + [c] + x == b + [c] + y
    ensures a == b && x == y
  {
    IndexOfAppend(a, c, x);
    IndexOfAppend(b, c, y);
    assert (a + [c] + x)[..|a|] == a && (b + [c] + y)[..|b|] == b;
    assert (a + [c] + x)[|a| + 1..] == x && (b + [c] + y)[|b| + 1..] == y;
  }

  /** One pair cut from the front of an encoding. */
  lemma {:induction false} CutPair(k1: string, v1: string, x: string, k2: string, v2: string, y: string)
    requires '=' !in k1 && '=' !in k2 && NUL !in v1 && NUL !in v2
    requires k1 + ['='] + v1 + [NUL] + x == k2 + ['='] + v2 + [NUL] + y
    ensures k1 == k2 && v1 == v2 && x == y
  {
    assert k1 + ['='] + v1 + [NUL] + x == k1 + ['='] + (v1 + [NUL] + x);
    assert k2 + ['='] + v2 + [NUL] + y == k2 + ['='] + (v2 + [NUL] + y);
    CutAtFirst(k1, v1 + [NUL] + x, k2, v2 + [NUL] + y, '=');
    CutAtFirst(v1, x, v2, y, NUL);
  }

  lemma {:induction false} SameKeySameValue(k: string, v1: string, x: string, v2: string, y: string)
    requires NUL !in v1 && NUL !in v2
    requires k + ['='] + v1 + [NUL] + x == k + ['='] + v2 + [NUL] + y
    ensures v1 == v2 && x == y
  {
    assert (k + ['='] + v1 + [NUL] + x)[|k| + 1..] == v1 + [NUL] + x;
    assert (k + ['='] + v2 + [NUL] + y)[|k| + 1..] == v2 + [NUL] + y;
    CutAtFirst(v1, x, v2, y, NUL);
  }

  lemma {:induction false} FixedPairs(keys: seq<string>, l1: map<string, string>, l2: map<string, string>)
    requires forall k :: k in keys ==> NUL !in LabelOf(l1, k) && NUL !in LabelOf(l2, k)
    ensures Pairs(keys, l1) == Pairs(keys, l2) <==> forall k :: k in keys ==> LabelOf(l1, k) == LabelOf(l2, k)
  {
    if keys != [] {
      var k, rest := keys[0], keys[1..];
      assert k in keys && forall q :: q in rest ==> q in keys;
      FixedPairs(rest, l1, l2);
      if Pairs(keys, l1) == Pairs(keys, l2) {
        SameKeySameValue(k, LabelOf(l1, k), Pairs(rest, l1), LabelOf(l2, k), Pairs(rest, l2));
        assert forall q :: q in keys ==> q == k || q in rest;
      }
    }
  }

  /** A label that is missing counts as one with an empty value. */
  lemma {:induction false} MissingIsEmpty(keys: seq<string>, labels: map<string, string>, k: string)
    requires k !in labels
    ensures Pairs(keys, labels) == Pairs(keys, labels[k := ""])
  {
    if keys != [] {
      MissingIsEmpty(keys[1..], labels, k);
    }
  }

  /** With listed labels, two series hash the same text if and only if they agree on every listed
      label, when the values are free of NUL; a missing label counts as an empty one. */
  lemma {:induction false} ListedEncodingInjective(listed: seq<string>, l1: map<string, string>, l2: map<string, string>,
                                                   t1: string, t2: string)
    requires listed != [] && Encodes(listed, l1, t1) && Encodes(listed, l2, t2)
    requires forall k :: k in listed ==> NUL !in LabelOf(l1, k) && NUL !in LabelOf(l2, k)
    ensures t1 == t2 <==> forall k :: k in listed ==> LabelOf(l1, k) == LabelOf(l2, k)
  {
    FixedPairs(listed, l1, l2);
  }

  lemma {:induction false} WholePairs(k1: seq<string>, l1: map<string, string>, k2: seq<string>, l2: map<string, string>)
    requires forall k :: k in k1 ==> '=' !in k && NUL !in LabelOf(l1, k)
    requires forall k :: k in k2 ==> '=' !in k && NUL !in LabelOf(l2, k)
    requires Pairs(k1, l1) == Pairs(k2, l2)
    ensures k1 == k2 && forall k :: k in k1 ==> LabelOf(l1, k) == LabelOf(l2, k)
  {
    if k1 != [] && k2 != [] {
      var a, b := k1[0], k2[0];
      assert a in k1 && b in k2;
      assert (forall k :: k in k1[1..] ==> k in k1) && (forall k :: k in k2[1..] ==> k in k2);
      CutPair(a, LabelOf(l1, a), Pairs(k1[1..], l1), b, LabelOf(l2, b), Pairs(k2[1..], l2));
      WholePairs(k1[1..], l1, k2[1..], l2);
      assert k1 == [a] + k1[1..] && k2 == [b] + k2[1..];
      assert forall k :: k in k1 ==> k == a || k in k1[1..];
    }
  }

  /** With no listed labels, the text determines the whole label set, when names are free of '='
      and values of NUL. */
  lemma {:induction false} WholeEncodingInjective(l1: map<string, string>, l2: map<string, string>, t1: string, t2: string)
    requires Encodes([], l1, t1) && Encodes([], l2, t2)
    requires forall k :: k in l1 ==> '=' !in k && NUL !in l1[k]
    requires forall k :: k in l2 ==> '=' !in k && NUL !in l2[k]
    ensures t1 == t2 <==> l1 == l2
  {
    hide Increasing;
    hide Encodes;
    hide Pairs;
    if t1 == t2 {
      var k1 := EncodedBy(l1, t1);
      var k2 := EncodedBy(l2, t2);
      ValuesOf(l1, k1);
      ValuesOf(l2, k2);
      hide LabelOf;
      WholePairs(k1, l1, k2, l2);
      SameLabels(l1, l2);
    } else if l1 == l2 {
      EncodingIsUnique([], l1, t1, t2);
    }
  }

  lemma {:induction false} ValuesOf(labels: map<string, string>, keys: seq<string>)
    requires (forall x :: x in keys <==> x in labels) && forall k :: k in labels ==> '=' !in k && NUL !in labels[k]
    ensures forall k :: k in keys ==> '=' !in k && NUL !in LabelOf(labels, k)
  {
  }

  lemma {:induction false} SameLabels(l1: map<string, string>, l2: map<string, string>)
    requires l1.Keys == l2.Keys && forall x :: x in l1 ==> LabelOf(l1, x) == LabelOf(l2, x)
    ensures l1 == l2
  {
    forall x | x in l1 ensures l1[x] == l2[x] {
      assert LabelOf(l1, x) == LabelOf(l2, x);
    }
  }

  // ------------------------------------------------- where injectivity ends

  /** The text tells all values of the listed labels apart, NULs or not. */
  ghost predicate TellsValuesApart(listed: seq<string>) {
    forall l1: map<string, string>, l2: map<string, string> ::
      Pairs(listed, l1) == Pairs(listed, l2) ==> forall k :: k in listed ==> LabelOf(l1, k) == LabelOf(l2, k)
  }

  lemma {:induction false} PairsAgree(keys: seq<string>, l1: map<string, string>, l2: map<string, string>)
    requires forall k :: k in keys ==> LabelOf(l1, k) == LabelOf(l2, k)
    ensures Pairs(keys, l1) == Pairs(keys, l2)
  {
    hide LabelOf;
    if keys != [] {
      assert forall k :: k in keys[1..] ==> k in keys;
      PairsAgree(keys[1..], l1, l2);
      assert keys[0] in keys;
    }
  }

  /** Two label sets that share a text: the first label of one swallows the second of the other. */
  function Swallowing(a: string, b: string): map<string, string> {
    map[a := [NUL] + b + ['='], b := ""]
  }

  function Swallowed(a: string, b: string): map<string, string> {
    map[a := "", b := [NUL] + b + ['=']]
  }

  /** For any two listed names a NUL in a value does break injectivity. */
  lemma {:induction false} NulValuesCollide(a: string, b: string, rest: seq<string>)
    requires a != b && a !in rest && b !in rest
    ensures Pairs([a, b] + rest, Swallowing(a, b)) == Pairs([a, b] + rest, Swallowed(a, b))
    ensures LabelOf(Swallowing(a, b), a) != LabelOf(Swallowed(a, b), a)
  {
    hide Pairs;
    var l1, l2 := Swallowing(a, b), Swallowed(a, b);
    var v := [NUL] + b + ['='];
    assert LabelOf(l1, a) == v && LabelOf(l1, b) == "" && LabelOf(l2, a) == "" && LabelOf(l2, b) == v;
    PairsAgree(rest, l1, l2);
    TwoPairs(a, b, rest, l1);
    TwoPairs(a, b, rest, l2);
    hide LabelOf;
    Shift(a + ['='], b + ['='], Pairs(rest, l1));
  }

  lemma {:induction false} Shift(x: string, y: string, tail: string)
    ensures var v := [NUL] + y; x + v + [NUL] + (y + "" + [NUL] + tail) == x + "" + [NUL] + (y + v + [NUL] + tail)
  {
  }

  lemma {:induction false} TwoPairs(a: string, b: string, rest: seq<string>, labels: map<string, string>)
    ensures Pairs([a, b] + rest, labels) ==
            a + ['='] + LabelOf(labels, a) + [NUL] + (b + ['='] + LabelOf(labels, b) + [NUL] + Pairs(rest, labels))
  {
    hide LabelOf;
    var keys := [a, b] + rest;
    assert keys[1..] == [b] + rest && ([b] + rest)[1..] == rest;
  }

  /** With listed labels, the text tells all values apart, NUL included, if and only if one label is
      listed. */
  lemma {:induction false} ListedTellsApartIffOne(listed: seq<string>)
    requires listed != [] && forall i, j :: 0 <= i < j < |listed| ==> listed[i] != listed[j]
    ensures TellsValuesApart(listed) <==> |listed| == 1
  {
    if |listed| == 1 {
      var k := listed[0];
      assert listed == [k];
      forall l1: map<string, string>, l2: map<string, string> | Pairs(listed, l1) == Pairs(listed, l2)
        ensures LabelOf(l1, k) == LabelOf(l2, k)
      {
        OneValue(k, l1, l2);
      }
    } else {
      var a, b, rest := listed[0], listed[1], listed[2..];
      assert listed == [a, b] + rest;
      NulValuesCollide(a, b, rest);
      assert a in listed;
    }
  }

  lemma {:induction false} OneValue(k: string, l1: map<string, string>, l2: map<string, string>)
    requires Pairs([k], l1) == Pairs([k], l2)
    ensures LabelOf(l1, k) == LabelOf(l2, k)
  {
    OnePair(k, l1);
    OnePair(k, l2);
    hide Pairs;
    var t := k + ['='] + LabelOf(l1, k) + [NUL];
    assert t[|k| + 1..|t| - 1] == LabelOf(l1, k) && t[|k| + 1..|t| - 1] == LabelOf(l2, k);
  }

  lemma {:induction false} OnePair(k: string, labels: map<string, string>)
    ensures Pairs([k], labels) == k + ['='] + LabelOf(labels, k) + [NUL]
  {
    hide LabelOf;
    assert [k][1..] == [];
    assert k + ['='] + LabelOf(labels, k) + [NUL] + "" == k + ['='] + LabelOf(labels, k) + [NUL];
  }

  /** Some series with the one label `a` and some series with the one label `b` have one text. */
  ghost predicate ShareText(a: string, b: string) {
    exists v: string, w: string :: Pairs([a], map[a := v]) == Pairs([b], map[b := w])
  }

  /** Over whole label sets of one label, two names are never confused, whatever the values, if and
      only if neither continues the other with an '='. */
  lemma {:induction false} NamesShareTextIffOneContinuesTheOther(a: string, b: string)
    requires a != b
    ensures ShareText(a, b) <==> HasPrefix(b, a + ['=']) || HasPrefix(a, b + ['='])
  {
    if v: string, w: string :| Pairs([a], map[a := v]) == Pairs([b], map[b := w]) {
      OnePair(a, map[a := v]);
      OnePair(b, map[b := w]);
      hide Pairs;
      if |a| <= |b| {
        Continues(a, v, b, w);
      } else {
        Continues(b, w, a, v);
      }
    }
    if HasPrefix(b, a + ['=']) {
      ContinuedSharesText(a, b);
    }
    if HasPrefix(a, b + ['=']) {
      ContinuedSharesText(b, a);
    }
  }

  lemma {:induction false} Continues(a: string, v: string, b: string, w: string)
    requires a != b && |a| <= |b| && a + ['='] + v + [NUL] == b + ['='] + w + [NUL]
    ensures HasPrefix(b, a + ['='])
  {
    var t := a + ['='] + v + [NUL];
    assert t[..|a|] == a && t[..|b|] == b;
    assert |a| < |b|;
    assert t[|a|] == '=' && b[|a|] == '=';
    assert b[..|a|] == t[..|a|];
    assert b[..|a| + 1] == a + ['='];
  }

  lemma {:induction false} ContinuedSharesText(a: string, b: string)
    requires HasPrefix(b, a + ['='])
    ensures ShareText(a, b) && ShareText(b, a)
  {
    var rest := b[|a| + 1..];
    assert b == a + ['='] + rest;
    var v := rest + ['='];
    OnePair(a, map[a := v]);
    OnePair(b, map[b := ""]);
    assert a + ['='] + v + [NUL] == b + ['='] + "" + [NUL];
  }

  predicate PlainNames(labels: map<string, string>) {
    forall k :: k in labels ==> '=' !in k
  }

  /** A whole label set whose text is that of another as well. */
  ghost predicate SharesWholeText(labels: map<string, string>) {
    exists other: map<string, string>, text: string ::
      other != labels && PlainNames(other) && Encodes([], labels, text) && Encodes([], other, text)
  }

  /** The value of the label `a` goes on, after a NUL, like a label that sorts after it. */
  ghost predicate HoldsPair(a: string, value: string) {
    exists b: string, v: string, w: string ::
      a != b && LE(a, b) && '=' !in b && value == v + [NUL] + (b + ['='] + w)
  }

  lemma {:induction false} Listing(labels: map<string, string>) returns (keys: seq<string>)
    ensures Increasing(keys) && forall x :: x in keys <==> x in labels
    decreases |labels|
  {
    hide Increasing;
    if labels == map[] {
      keys := [];
      EmptyIncreases();
    } else {
      var k :| k in labels;
      var rest := Listing(labels - {k});
      InsertIncreasing(k, rest);
      keys := Insert(k, rest);
      forall x ensures x in keys <==> x in labels {
        InsertElements(k, rest, x);
      }
    }
  }

  /** The labels `a` and `b` joined into one. */
  function Joined(labels: map<string, string>, a: string, b: string): map<string, string> {
    (labels - {b})[a := LabelOf(labels, a) + [NUL] + (b + ['='] + LabelOf(labels, b))]
  }

  lemma {:induction false} JoinedPair(a: string, v: string, b: string, w: string, tail: string)
    ensures a + ['='] + (v + [NUL] + (b + ['='] + w)) + [NUL] + tail == a + ['='] + v + [NUL] + (b + ['='] + w + [NUL] + tail)
  {
  }

  lemma {:induction false} RestOfJoined(labels: map<string, string>, a: string, b: string, rest: seq<string>)
    requires Increasing([a, b] + rest)
    ensures Pairs(rest, Joined(labels, a, b)) == Pairs(rest, labels)
  {
    var keys, other := [a, b] + rest, Joined(labels, a, b);
    assert keys[0] == a && keys[1] == b;
    forall k | k in rest ensures LabelOf(labels, k) == LabelOf(other, k) {
      var i :| 0 <= i < |rest| && rest[i] == k;
      assert keys[i + 2] == k;
    }
    PairsAgree(rest, labels, other);
  }

  lemma {:induction false} JoinedText(labels: map<string, string>, a: string, b: string, rest: seq<string>)
    requires Increasing([a, b] + rest)
    ensures Pairs([a] + rest, Joined(labels, a, b)) == Pairs([a, b] + rest, labels)
  {
    hide Increasing;
    var other := Joined(labels, a, b);
    var v, w, tail := LabelOf(labels, a), LabelOf(labels, b), Pairs(rest, labels);
    assert LabelOf(other, a) == v + [NUL] + (b + ['='] + w);
    hide Joined;
    hide LabelOf;
    RestOfJoined(labels, a, b, rest);
    TwoPairs(a, b, rest, labels);
    assert ([a] + rest)[1..] == rest;
    assert Pairs([a] + rest, other) == a + ['='] + LabelOf(other, a) + [NUL] + Pairs(rest, other);
    hide Pairs;
    JoinedPair(a, v, b, w, tail);
  }

  lemma {:induction false} JoinedIncreases(keys: seq<string>)
    requires Increasing(keys) && |keys| >= 2
    ensures Increasing([keys[0]] + keys[2..])
  {
    hide LE;
    var less := [keys[0]] + keys[2..];
    forall i, j | 0 <= i < j < |less| ensures LE(less[i], less[j]) && less[i] != less[j] {
      var from, to := if i == 0 then 0 else i + 1, j + 1;
      assert less[i] == keys[from] && less[j] == keys[to];
    }
  }

  lemma {:induction false} EncodesBy(labels: map<string, string>, keys: seq<string>)
    requires Increasing(keys) && forall x :: x in keys <==> x in labels
    ensures Encodes([], labels, Pairs(keys, labels))
  {
  }

  lemma {:induction false} EncodedBy(labels: map<string, string>, text: string) returns (keys: seq<string>)
    requires Encodes([], labels, text)
    ensures Increasing(keys) && (forall x :: x in keys <==> x in labels) && text == Pairs(keys, labels)
  {
    keys :| Increasing(keys) && (forall x :: x in keys <==> x in labels) && text == Pairs(keys, labels);
  }

  lemma {:induction false} FirstTwo(keys: seq<string>)
    requires Increasing(keys) && |keys| >= 2
    ensures keys == [keys[0], keys[1]] + keys[2..] && keys[0] != keys[1] && keys[1] !in keys[2..]
  {
    assert forall i :: 0 <= i < |keys| - 2 ==> keys[2..][i] == keys[i + 2];
  }

  lemma {:induction false} SharedBy(labels: map<string, string>, other: map<string, string>, text: string)
    requires other != labels && PlainNames(other) && Encodes([], labels, text) && Encodes([], other, text)
    ensures SharesWholeText(labels)
  {
  }

  /** Two labels can always be joined into one. */
  lemma {:induction false} TwoLabelsShareText(labels: map<string, string>)
    requires |labels| >= 2 && PlainNames(labels)
    ensures SharesWholeText(labels)
  {
    hide Increasing;
    hide Pairs;
    hide Encodes;
    hide SharesWholeText;
    hide LabelOf;
    var keys := Listing(labels);
    FewKeys(keys, labels);
    FirstTwo(keys);
    var a, b, rest := keys[0], keys[1], keys[2..];
    var other := Joined(labels, a, b);
    JoinedText(labels, a, b, rest);
    JoinedIncreases(keys);
    assert a in keys && b in keys;
    forall x ensures x in [a] + rest <==> x in other {
      assert x in [a, b] + rest <==> x == a || x == b || x in rest;
    }
    EncodesBy(labels, keys);
    EncodesBy(other, [a] + rest);
    assert b in labels && b !in other;
    SharedBy(labels, other, Pairs(keys, labels));
  }

  lemma {:induction false} FewKeys(keys: seq<string>, labels: map<string, string>)
    requires forall x :: x in keys <==> x in labels
    ensures |keys| <= 1 ==> |labels| <= 1
  {
    if keys == [] {
      assert labels.Keys == {};
    } else if |keys| == 1 {
      assert labels.Keys == {keys[0]};
    }
  }

  lemma {:induction false} OneListing(a: string, labels: map<string, string>, keys: seq<string>)
    requires labels.Keys == {a} && Increasing(keys) && forall x :: x in keys <==> x in labels
    ensures keys == [a]
  {
    assert Increasing([a]);
    IncreasingIsUnique(keys, [a]);
  }

  lemma {:induction false} FirstPairCut(a: string, value: string, keys: seq<string>, other: map<string, string>)
    requires keys != [] && '=' !in a && '=' !in keys[0] && a + ['='] + value + [NUL] == Pairs(keys, other)
    ensures keys[0] == a && value + [NUL] == LabelOf(other, a) + [NUL] + Pairs(keys[1..], other)
  {
    var c, tail := keys[0], Pairs(keys[1..], other);
    var vc := LabelOf(other, c);
    assert Pairs(keys, other) == c + ['='] + vc + [NUL] + tail;
    hide Pairs;
    hide LabelOf;
    assert a + ['='] + value + [NUL] == a + ['='] + (value + [NUL]);
    assert c + ['='] + vc + [NUL] + tail == c + ['='] + (vc + [NUL] + tail);
    CutAtFirst(a, value + [NUL], c, vc + [NUL] + tail, '=');
  }

  /** One label: its text read as that of another set. */
  lemma {:induction false} OneLabelReadAsMore(a: string, value: string, keys: seq<string>, other: map<string, string>)
    requires keys != [] && '=' !in a && Increasing(keys) && (forall x :: x in keys <==> x in other) && PlainNames(other)
    requires a + ['='] + value + [NUL] == Pairs(keys, other) && other != map[a := value]
    ensures HoldsPair(a, value)
  {
    hide Pairs;
    hide LabelOf;
    hide LE;
    assert keys[0] in keys;
    FirstPairCut(a, value, keys, other);
    var v, rest := LabelOf(other, a), keys[1..];
    if rest == [] {
      assert keys == [a];
      OnlyLabel(a, value, other);
    } else {
      var b := keys[1];
      assert rest[0] == b && b in keys && LE(a, b) && a != b;
      hide Increasing;
      NextPair(rest, other);
      var more := LabelOf(other, b) + [NUL] + Pairs(rest[1..], other);
      SecondPair(value, v, b, more);
    }
  }

  lemma {:induction false} NextPair(keys: seq<string>, labels: map<string, string>)
    requires keys != []
    ensures Pairs(keys, labels) == keys[0] + ['='] + (LabelOf(labels, keys[0]) + [NUL] + Pairs(keys[1..], labels))
  {
    hide LabelOf;
    var b, v, tail := keys[0], LabelOf(labels, keys[0]), Pairs(keys[1..], labels);
    assert Pairs(keys, labels) == b + ['='] + v + [NUL] + tail;
    assert b + ['='] + v + [NUL] + tail == b + ['='] + (v + [NUL] + tail);
  }

  lemma {:induction false} OnlyLabel(a: string, value: string, other: map<string, string>)
    requires (forall x :: x in other <==> x in [a]) && value + [NUL] == LabelOf(other, a) + [NUL] + Pairs([], other)
    ensures other == map[a := value]
  {
    var v := LabelOf(other, a);
    assert v + [NUL] + "" == v + [NUL];
    SameEnd(value, v, NUL);
    assert other.Keys == {a};
  }

  lemma {:induction false} SameEnd(x: string, y: string, c: char)
    requires x + [c] == y + [c]
    ensures x == y
  {
    assert (x + [c])[..|x|] == x && (y + [c])[..|y|] == y;
  }

  lemma {:induction false} SecondPair(value: string, v: string, b: string, more: string)
    requires more != "" && value + [NUL] == v + [NUL] + (b + ['='] + more)
    ensures value == v + [NUL] + (b + ['='] + more[..|more| - 1])
  {
    var m := more[..|more| - 1];
    assert v + [NUL] + (b + ['='] + more) == v + [NUL] + (b + ['='] + m) + [more[|more| - 1]];
    assert (value + [NUL])[..|value|] == value;
    assert (v + [NUL] + (b + ['='] + m) + [more[|more| - 1]])[..|value|] == v + [NUL] + (b + ['='] + m);
  }

  lemma {:induction false} HeldPairSharesText(a: string, value: string)
    requires '=' !in a && HoldsPair(a, value)
    ensures SharesWholeText(map[a := value])
  {
    hide SharesWholeText;
    hide Encodes;
    hide Pairs;
    var b, v, w :| a != b && LE(a, b) && '=' !in b && value == v + [NUL] + (b + ['='] + w);
    var two := map[a := v, b := w];
    TwoIncrease(a, b);
    hide LE;
    assert Joined(two, a, b) == map[a := value];
    hide Joined;
    JoinedText(two, a, b, []);
    assert [a] + [] == [a] && [a, b] + [] == [a, b];
    EncodesBy(map[a := value], [a]);
    EncodesBy(two, [a, b]);
    assert b in two && b !in map[a := value];
    SharedBy(map[a := value], two, Pairs([a, b], two));
  }

  lemma {:induction false} TwoIncrease(a: string, b: string)
    requires a != b && LE(a, b)
    ensures Increasing([a]) && Increasing([a, b])
  {
  }

  /** Over whole label sets with names free of '=', a text belongs to a set alone if and only if the set
      has at most one label, and the value of that does not go on, after a NUL, like another label. */
  lemma {:induction false} WholeTextSharedIff(labels: map<string, string>)
    requires PlainNames(labels)
    ensures SharesWholeText(labels) <==> |labels| >= 2 || exists a :: a in labels && HoldsPair(a, labels[a])
  {
    hide HoldsPair;
    if |labels| >= 2 {
      TwoLabelsShareText(labels);
    } else if a :| a in labels {
      assert |labels.Keys - {a}| == |labels.Keys| - 1;
      assert labels.Keys - {a} == {};
      assert labels.Keys == {a};
      assert labels == map[a := labels[a]];
      if HoldsPair(a, labels[a]) {
        HeldPairSharesText(a, labels[a]);
      }
      if SharesWholeText(labels) {
        OneLabelShared(a, labels);
      }
    } else {
      assert labels == map[];
      NoLabelsUnshared();
    }
  }

  lemma {:induction false} EmptyText(labels: map<string, string>, text: string)
    requires Encodes([], labels, text)
    ensures text == "" <==> labels == map[]
  {
    hide Increasing;
    var keys :| Increasing(keys) && (forall x :: x in keys <==> x in labels) && text == Pairs(keys, labels);
    if keys == [] {
      assert labels == map[];
    } else {
      assert keys[0] in keys;
    }
  }

  lemma {:induction false} OneLabelText(a: string, labels: map<string, string>)
    requires a in labels
    ensures Pairs([a], labels) == a + ['='] + labels[a] + [NUL]
  {
    OnePair(a, labels);
  }

  lemma {:induction false} OneLabelShared(a: string, labels: map<string, string>)
    requires labels.Keys == {a} && PlainNames(labels) && SharesWholeText(labels)
    ensures HoldsPair(a, labels[a])
  {
    var other: map<string, string>, text: string :|
      other != labels && PlainNames(other) && Encodes([], labels, text) && Encodes([], other, text);
    hide HoldsPair;
    hide Increasing;
    hide Encodes;
    hide SharesWholeText;
    EmptyText(labels, text);
    EmptyText(other, text);
    var k1 := EncodedBy(labels, text);
    var k2 := EncodedBy(other, text);
    assert a in labels && labels == map[a := labels[a]];
    assert k2 != [];
    hide Pairs;
    hide LabelOf;
    OneListing(a, labels, k1);
    OneLabelText(a, labels);
    OneLabelReadAsMore(a, labels[a], k2, other);
  }

  lemma {:induction false} NoLabelsUnshared()
    ensures !SharesWholeText(map[])
  {
    hide Encodes;
    var none: map<string, string> := map[];
    forall other: map<string, string>, text: string | Encodes([], none, text) && Encodes([], other, text) ensures other == none {
      EmptyText(none, text);
      EmptyText(other, text);
    }
  }
}
