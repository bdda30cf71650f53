/** The string routines of Go's strings and strconv packages that the monitor relies on.
    A Go string is a byte sequence: one char of a `string` stands for one byte. */
module Text {
  datatype Option<+T> = None | Some(value: T)

  // ---------------------------------------------------------------- searching

  /** strings.IndexByte: the first position of `c`, or -1. */
  function IndexOf(s: string, c: char): (r: int)
    ensures -1 <= r < |s|
    ensures r >= 0 ==> s[r] == c && c !in s[..r]
    ensures r < 0 <==> c !in s
  {
    if s == [] then -1
    else if s[0] == c then 0
    else
      var r := IndexOf(s[1..], c);
      assert r >= 0 ==> s[..r + 1] == [s[0]] + s[1..][..r];
      if r < 0 then -1 else r + 1
  }

  /** strings.HasPrefix. */
  predicate HasPrefix(s: string, prefix: string) {
    |prefix| <= |s| && s[..|prefix|] == prefix
  }

  /** strings.Index: the first position where `sub` occurs, or -1. */
  function Find(s: string, sub: string): (r: int)
    ensures -1 <= r <= |s|
    ensures r >= 0 ==> HasPrefix(s[r..], sub)
    ensures forall j :: 0 <= j <= |s| && (r < 0 || j < r) ==> !HasPrefix(s[j..], sub)
  {
    if HasPrefix(s, sub) then
      assert s[0..] == s;
      0
    else if s == [] then -1
    else
      var r := Find(s[1..], sub);
      assert s[0..] == s;
      assert forall j :: 1 <= j <= |s| ==> s[j..] == s[1..][j - 1..];
      if r < 0 then -1 else r + 1
  }

  predicate Contains(s: string, sub: string) {
    Find(s, sub) >= 0
  }

  /** The first occurrence of `c` in `a + [c] + b`, when `a` is free of `c`. */
  lemma {:induction false} IndexOfAppend(a: string, c: char, b: string)
    requires c !in a
    ensures IndexOf(a + [c] + b, c) == |a|
  {
    var s := a + [c] + b;
    assert s[|a|] == c;
    assert forall k :: 0 <= k < |a| ==> s[k] == a[k];
    assert forall r :: |a| < r <= |s| ==> s[..r][|a|] == c;
  }

  // ------------------------------------------------------- splitting, joining

  /** strings.Split on a one-byte separator: never empty. */
  function Split(s: string, sep: char): (parts: seq<string>)
    ensures |parts| >= 1
    ensures forall p :: p in parts ==> sep !in p
    decreases |s|
  {
    var i := IndexOf(s, sep);
    if i < 0 then [s] else [s[..i]] + Split(s[i + 1..], sep)
  }

  /** strings.Join with a one-byte separator. */
  function Join(parts: seq<string>, sep: char): string {
    if |parts| == 0 then ""
    else if |parts| == 1 then parts[0]
    else parts[0] + [sep] + Join(parts[1..], sep)
  }

  lemma {:induction false} JoinCons(part: string, rest: seq<string>, sep: char)
    requires rest != []
    ensures Join([part] + rest, sep) == part + [sep] + Join(rest, sep)
  {
    assert ([part] + rest)[1..] == rest;
  }

  lemma {:induction false} JoinSplit(s: string, sep: char)
    ensures Join(Split(s, sep), sep) == s
    decreases |s|
  {
    var i := IndexOf(s, sep);
    if i >= 0 {
      var rest := Split(s[i + 1..], sep);
      JoinSplit(s[i + 1..], sep);
      JoinCons(s[..i], rest, sep);
      assert s == s[..i] + [sep] + s[i + 1..];
    }
  }

  lemma {:induction false} SplitCons(a: string, sep: char, rest: string)
    requires sep !in a
    ensures Split(a + [sep] + rest, sep) == [a] + Split(rest, sep)
  {
    IndexOfAppend(a, sep, rest);
    var s := a + [sep] + rest;
    assert s[..|a|] == a;
    assert s[|a| + 1..] == rest;
  }

  lemma {:induction false} SplitJoin(parts: seq<string>, sep: char)
    requires |parts| >= 1
    requires forall p :: p in parts ==> sep !in p
    ensures Split(Join(parts, sep), sep) == parts
  {
    if |parts| > 1 {
      SplitCons(parts[0], sep, Join(parts[1..], sep));
      SplitJoin(parts[1..], sep);
      assert parts == [parts[0]] + parts[1..];
    }
  }

  // ---------------------------------------------------------------- trimming

  predicate IsSpace(c: char) {
    c == ' ' || c == '\t' || c == '\n' || c == '\r' || c as int == 11 || c as int == 12
  }

  function TrimLeftSpace(s: string): string {
    if s != [] && IsSpace(s[0]) then TrimLeftSpace(s[1..]) else s
  }

  function TrimRightSpace(s: string): string {
    if s != [] && IsSpace(s[|s| - 1]) then TrimRightSpace(s[..|s| - 1]) else s
  }

  /** strings.TrimSpace, for the ASCII white space. */
  function TrimSpace(s: string): string {
    TrimRightSpace(TrimLeftSpace(s))
  }

  lemma {:induction false} TrimSpaceIdentity(s: string)
    requires s == [] || (!IsSpace(s[0]) && !IsSpace(s[|s| - 1]))
    ensures TrimSpace(s) == s
  {
  }

  predicate AllSpace(s: string) {
    forall i :: 0 <= i < |s| ==> IsSpace(s[i])
  }

  predicate Trimmed(s: string) {
    s == "" || (!IsSpace(s[0]) && !IsSpace(s[|s| - 1]))
  }

  lemma {:induction false} TrimLeftOver(a: string, s: string)
    requires AllSpace(a) && (s == "" || !IsSpace(s[0]))
    ensures TrimLeftSpace(a + s) == s
  {
    if a == "" {
      assert a + s == s;
    } else {
      assert (a + s)[1..] == a[1..] + s;
      TrimLeftOver(a[1..], s);
    }
  }

  lemma {:induction false} TrimRightOver(s: string, b: string)
    requires AllSpace(b) && (s == "" || !IsSpace(s[|s| - 1]))
    ensures TrimRightSpace(s + b) == s
  {
    if b == "" {
      assert s + b == s;
    } else {
      assert (s + b)[..|s + b| - 1] == s + b[..|b| - 1];
      TrimRightOver(s, b[..|b| - 1]);
    }
  }

  /** TrimSpace takes off all white space around a trimmed text. */
  lemma {:induction false} TrimSpaceOf(a: string, t: string, b: string)
    requires AllSpace(a) && AllSpace(b) && Trimmed(t)
    ensures TrimSpace(a + t + b) == t
  {
    if t == "" {
      assert a + t + b == a + b + "";
      TrimLeftOver(a + b, "");
    } else {
      assert a + t + b == a + (t + b);
      TrimLeftOver(a, t + b);
      TrimRightOver(t, b);
    }
  }

  lemma {:induction false} TrimsLeft(s: string) returns (a: string)
    ensures AllSpace(a) && s == a + TrimLeftSpace(s) && (TrimLeftSpace(s) == "" || !IsSpace(TrimLeftSpace(s)[0]))
  {
    if s != "" && IsSpace(s[0]) {
      a := TrimsLeft(s[1..]);
      assert s == [s[0]] + s[1..];
      a := [s[0]] + a;
    } else {
      a := "";
    }
  }

  lemma {:induction false} TrimsRight(s: string) returns (b: string)
    ensures AllSpace(b) && s == TrimRightSpace(s) + b && (TrimRightSpace(s) == "" || !IsSpace(TrimRightSpace(s)[|TrimRightSpace(s)| - 1]))
  {
    if s != "" && IsSpace(s[|s| - 1]) {
      b := TrimsRight(s[..|s| - 1]);
      assert s == s[..|s| - 1] + [s[|s| - 1]];
      b := b + [s[|s| - 1]];
    } else {
      b := "";
    }
  }

  /** Every text is a trimmed one with white space around. */
  lemma {:induction false} TrimSpaceTrims(s: string) returns (a: string, b: string)
    ensures AllSpace(a) && AllSpace(b) && Trimmed(TrimSpace(s)) && s == a + TrimSpace(s) + b
  {
    a := TrimsLeft(s);
    b := TrimsRight(TrimLeftSpace(s));
    var left, t := TrimLeftSpace(s), TrimSpace(s);
    assert left == t + b;
    assert t != "" ==> t[0] == left[0];
    assert a + (t + b) == a + t + b;
  }

  /** strings.TrimRight(s, "\r"): every trailing CR goes. */
  function TrimCRs(s: string): (r: string)
    ensures r <= s
    ensures r == [] || r[|r| - 1] != '\r'
    ensures forall c :: c in r ==> c in s
  {
    if s != [] && s[|s| - 1] == '\r' then TrimCRs(s[..|s| - 1]) else s
  }

  // ----------------------------------------------------------------- numbers

  predicate IsDigit(c: char) { '0' <= c <= '9' }

  predicate AllDigits(s: string) { forall i :: 0 <= i < |s| ==> IsDigit(s[i]) }

  function NatText(n: nat): (r: string)
    ensures |r| >= 1 && AllDigits(r)
  {
    var last := ['0' + (n % 10) as char];
    if n < 10 then last else NatText(n / 10) + last
  }

  /** strconv.FormatInt(n, 10). */
  function IntText(n: int): string {
    if n < 0 then "-" + NatText(-n) else NatText(n)
  }

  function DigitsValue(s: string): (v: int)
    requires AllDigits(s)
    ensures v >= 0
  {
    if s == [] then 0
    else 10 * DigitsValue(s[..|s| - 1]) + (s[|s| - 1] - '0') as int
  }

  const INT64_MAX := 0x7fff_ffff_ffff_ffff

  /** strconv.ParseInt(s, 10, 64): None is its error. */
  function ParseInt64(s: string): (r: Option<int>)
    ensures r.Some? ==> -INT64_MAX - 1 <= r.value <= INT64_MAX
  {
    var signed := s != [] && (s[0] == '-' || s[0] == '+');
    var digits := if signed then s[1..] else s;
    if digits == [] || !AllDigits(digits) then None
    else
      var v := if signed && s[0] == '-' then -DigitsValue(digits) else DigitsValue(digits);
      if -INT64_MAX - 1 <= v <= INT64_MAX then Some(v) else None
  }

  lemma {:induction false} NatTextValue(n: nat)
    ensures DigitsValue(NatText(n)) == n
  {
    var r := NatText(n);
    if n < 10 {
      assert r[..|r| - 1] == [];
    } else {
      NatTextValue(n / 10);
      assert r[..|r| - 1] == NatText(n / 10);
    }
  }

  lemma {:induction false} ParseNatural(n: nat)
    ensures ParseInt64(NatText(n)) == if n <= INT64_MAX then Some(n as int) else None
  {
    NatTextValue(n);
    hide NatText;
    hide DigitsValue;
    assert IsDigit(NatText(n)[0]);
  }

  lemma {:induction false} ParseNegative(n: nat)
    ensures ParseInt64("-" + NatText(n)) == if n <= INT64_MAX + 1 then Some(-(n as int)) else None
  {
    NatTextValue(n);
    hide NatText;
    hide DigitsValue;
    var text := "-" + NatText(n);
    assert text[0] == '-' && text[1..] == NatText(n);
  }

  /** strconv.ParseInt undoes strconv.FormatInt on every int64. */
  lemma {:induction false} ParseIntText(n: int)
    ensures ParseInt64(IntText(n)) == if -INT64_MAX - 1 <= n <= INT64_MAX then Some(n) else None
  {
    hide ParseInt64;
    hide NatText;
    if n < 0 {
      ParseNegative(-n);
    } else {
      ParseNatural(n);
    }
  }

  lemma {:induction false} NoLeadingZero(n: nat)
    ensures NatText(n)[0] == '0' <==> n == 0
  {
    if n >= 10 {
      NoLeadingZero(n / 10);
      assert NatText(n)[0] == NatText(n / 10)[0];
    }
  }

  /** strconv.FormatInt writes digits without a leading zero, after a minus sign if the number is negative. */
  lemma {:induction false} IntTextIs(n: int)
    ensures n >= 0 ==> AllDigits(IntText(n)) && (IntText(n)[0] == '0' <==> n == 0)
    ensures n == 0 ==> IntText(n) == "0"
    ensures n < 0 ==> IntText(n) == "-" + IntText(-n)
  {
    NoLeadingZero(if n < 0 then -n else n);
  }

  lemma {:induction false} IntTextChars(n: int)
    ensures |IntText(n)| >= 1
    ensures forall c :: c in IntText(n) ==> IsDigit(c) || c == '-'
  {
  }

  // ------------------------------------------------------------ byte filtering

  /** `s` with every occurrence of `c` deleted. */
  function Without(s: string, c: char): string {
    if s == [] then "" else (if s[0] == c then "" else [s[0]]) + Without(s[1..], c)
  }

  function Concat(parts: seq<string>): string {
    if parts == [] then "" else parts[0] + Concat(parts[1..])
  }

  lemma {:induction false} WithoutAppend(a: string, b: string, c: char)
    ensures Without(a + b, c) == Without(a, c) + Without(b, c)
  {
    if a == [] {
      assert a + b == b;
    } else {
      assert (a + b)[1..] == a[1..] + b;
      WithoutAppend(a[1..], b, c);
    }
  }

  lemma {:induction false} WithoutNone(s: string, c: char)
    requires c !in s
    ensures Without(s, c) == s
  {
    if s != [] {
      assert forall d :: d in s[1..] ==> d in s;
      WithoutNone(s[1..], c);
      assert s == [s[0]] + s[1..];
    }
  }

  lemma {:induction false} ConcatAppend(a: seq<string>, b: seq<string>)
    ensures Concat(a + b) == Concat(a) + Concat(b)
  {
    if a == [] {
      assert a + b == b;
    } else {
      assert (a + b)[1..] == a[1..] + b;
      ConcatAppend(a[1..], b);
    }
  }

  // --------------------------------------------------------- iteration orders

  /** `order` visits every element of `all` once: one order in which a range loop may walk a map. */
  ghost predicate Enumerates<T(!new)>(order: seq<T>, all: set<T>) {
    && (forall i, j :: 0 <= i < j < |order| ==> order[i] != order[j])
    && (forall x :: x in order <==> x in all)
  }

  lemma {:induction false} SomeOrder<T>(all: set<T>) returns (order: seq<T>)
    ensures forall i, j :: 0 <= i < j < |order| ==> order[i] != order[j]
    ensures forall x :: x in order <==> x in all
  {
    if all == {} {
      order := [];
    } else {
      var x :| x in all;
      var rest := SomeOrder(all - {x});
      order := rest + [x];
    }
  }
}
