/** String operations the Swift client relies on, stated over `seq<char>`:
    ASCII case mapping, prefix and substring search, splitting on a
    separator (empty pieces omitted, as Swift's `split` does by default),
    trimming, joining, and decimal rendering of integers as string
    interpolation produces it. */
module Text {

  datatype Option<T> = None | Some(value: T)

  // ---------------------------------------------------------------------
  // Case mapping (ASCII letters only)

  function LowerChar(c: char): char {
    if 'A' <= c <= 'Z' then (c as int + 32) as char else c
  }

  function Lower(s: string): (r: string)
    ensures |r| == |s|
    ensures forall k :: 0 <= k < |s| ==> r[k] == LowerChar(s[k])
  {
    seq(|s|, k requires 0 <= k < |s| => LowerChar(s[k]))
  }

  lemma LowerAppend(a: string, b: string)
    ensures Lower(a + b) == Lower(a) + Lower(b)
  {
    assert Lower(a + b) == Lower(a) + Lower(b);
  }

  lemma LowerPrefix(s: string, n: nat)
    requires n <= |s|
    ensures Lower(s)[..n] == Lower(s[..n])
  {
    assert Lower(s)[..n] == Lower(s[..n]);
  }

  // ---------------------------------------------------------------------
  // Prefixes and substring search

  predicate HasPrefix(s: string, p: string) {
    |p| <= |s| && s[..|p|] == p
  }

  lemma AppendPrefix(a: string, b: string)
    ensures HasPrefix(a + b, a)
  {
    assert (a + b)[..|a|] == a;
  }

  /** A prefix test on the lowercased text looks only at as many leading
      characters as the prefix has. */
  lemma LowerHasPrefix(s: string, p: string)
    ensures HasPrefix(Lower(s), p) <==> |p| <= |s| && Lower(s[..|p|]) == p
  {
    if |p| <= |s| {
      LowerPrefix(s, |p|);
    }
  }

  /** `pat` occurs in `s` starting at index `i`. */
  predicate OccursAt(s: string, pat: string, i: int) {
    0 <= i && i + |pat| <= |s| && s[i..i + |pat|] == pat
  }

  /** The first occurrence of `pat` in `s` at or after index `i`. */
  function IndexFrom(s: string, pat: string, i: nat): (r: Option<nat>)
    decreases |s| - i
    ensures r.Some? ==> i <= r.value && OccursAt(s, pat, r.value)
    ensures r.Some? ==> forall j :: i <= j < r.value ==> !OccursAt(s, pat, j)
    ensures r.None? ==> forall j :: i <= j ==> !OccursAt(s, pat, j)
  {
    if i + |pat| > |s| then None
    else if s[i..i + |pat|] == pat then Some(i)
    else IndexFrom(s, pat, i + 1)
  }

  /** Swift's `range(of:)`: the start of the first occurrence, if any. */
  function IndexOf(s: string, pat: string): Option<nat> {
    IndexFrom(s, pat, 0)
  }

  /** Swift's `contains` on strings: substring containment. */
  predicate Contains(s: string, pat: string) {
    IndexOf(s, pat).Some?
  }

  lemma ContainsIff(s: string, pat: string)
    ensures Contains(s, pat) <==> exists i :: OccursAt(s, pat, i)
  {
    if !Contains(s, pat) {
      forall i ensures !OccursAt(s, pat, i) {
        if 0 <= i {
          var j: nat := i;
          assert !OccursAt(s, pat, j);
        }
      }
    }
  }

  /** A first occurrence is the occurrence `IndexOf` reports. */
  lemma IndexOfFirst(s: string, pat: string, k: nat)
    requires OccursAt(s, pat, k)
    requires forall j :: 0 <= j < k ==> !OccursAt(s, pat, j)
    ensures IndexOf(s, pat) == Some(k)
  {
  }

  // ---------------------------------------------------------------------
  // Prefixes of a given length and first positions

  /** Swift's `prefix(n)`: the first `n` elements, or all of them. */
  function Take(s: string, n: nat): (r: string)
    ensures |r| <= n && |r| <= |s| && r == s[..|r|]
    ensures |s| <= n ==> r == s
    ensures |s| > n ==> |r| == n
  {
    if |s| <= n then s else s[..n]
  }

  /** Swift's `firstIndex(of:)`. */
  function FirstIndex<T(==)>(xs: seq<T>, x: T): (r: Option<nat>)
    ensures r.Some? ==> r.value < |xs| && xs[r.value] == x
    ensures r.Some? ==> forall j :: 0 <= j < r.value ==> xs[j] != x
    ensures r.None? <==> x !in xs
  {
    if xs == [] then None
    else if xs[0] == x then Some(0)
    else match FirstIndex(xs[1..], x)
      case None => None
      case Some(i) => Some(i + 1)
  }

  // ---------------------------------------------------------------------
  // Splitting and joining

  /** Index of the first `c` in `s`, or `|s|` when there is none. */
  function CharIndex(s: string, c: char): (r: nat)
    ensures r <= |s|
    ensures r < |s| ==> s[r] == c
    ensures forall j :: 0 <= j < r ==> s[j] != c
  {
    if s == [] then 0 else if s[0] == c then 0 else 1 + CharIndex(s[1..], c)
  }

  /** Swift's `split(separator:)`: the maximal pieces between separators,
      with empty pieces left out. */
  function Split(s: string, sep: char): (r: seq<string>)
    decreases |s|
    ensures forall k :: 0 <= k < |r| ==> r[k] != [] && sep !in r[k]
  {
    var i := CharIndex(s, sep);
    var rest := if i < |s| then Split(s[i + 1..], sep) else [];
    if i == 0 then rest else [s[..i]] + rest
  }

  /** Swift's `joined(separator:)`. */
  function Join(xs: seq<string>, sep: string): string {
    if |xs| == 0 then "" else if |xs| == 1 then xs[0] else xs[0] + sep + Join(xs[1..], sep)
  }

  lemma {:induction false} SplitPiece(a: string, b: string, sep: char)
    requires a != [] && sep !in a
    ensures Split(a + [sep] + b, sep) == [a] + Split(b, sep)
  {
    var s := a + [sep] + b;
    var i := CharIndex(s, sep);
    assert forall j :: 0 <= j < |a| ==> s[j] == a[j];
    assert s[|a|] == sep;
    assert i == |a|;
    assert s[..i] == a;
    assert s[i + 1..] == b;
  }

  lemma {:induction false} SplitWhole(a: string, sep: char)
    requires a != [] && sep !in a
    ensures Split(a, sep) == [a]
  {
    var i := CharIndex(a, sep);
    assert i == |a|;
    assert a[..i] == a;
  }

  /** Splitting a joined list gives the list back, provided no piece is
      empty or holds the separator. */
  lemma {:induction false} SplitJoin(ys: seq<string>, sep: char)
    requires forall k :: 0 <= k < |ys| ==> ys[k] != [] && sep !in ys[k]
    ensures Split(Join(ys, [sep]), sep) == ys
  {
    if |ys| == 0 {
    } else if |ys| == 1 {
      SplitWhole(ys[0], sep);
    } else {
      var tail := Join(ys[1..], [sep]);
      assert Join(ys, [sep]) == ys[0] + [sep] + tail;
      SplitJoin(ys[1..], sep);
      SplitPiece(ys[0], tail, sep);
      assert [ys[0]] + ys[1..] == ys;
    }
  }

  // ---------------------------------------------------------------------
  // Trimming

  /** Swift's `CharacterSet.whitespaces` and `.whitespacesAndNewlines`,
      restricted to their ASCII members and the no-break space. */
  datatype CharClass = Whitespaces | WhitespacesAndNewlines

  predicate InClass(c: char, cls: CharClass) {
    c == ' ' || c == '\t' || c == '\U{A0}' ||
    (cls == WhitespacesAndNewlines &&
     (c == '\n' || c == '\r' || c == '\U{B}' || c == '\U{C}' || c == '\U{85}'))
  }

  function TrimStart(s: string, cls: CharClass): (r: string)
    ensures |r| <= |s| && r == s[|s| - |r|..]
    ensures forall k :: 0 <= k < |s| - |r| ==> InClass(s[k], cls)
    ensures r != [] ==> !InClass(r[0], cls)
  {
    if s != [] && InClass(s[0], cls) then TrimStart(s[1..], cls) else s
  }

  function TrimEnd(s: string, cls: CharClass): (r: string)
    ensures |r| <= |s| && r == s[..|r|]
    ensures forall k :: |r| <= k < |s| ==> InClass(s[k], cls)
    ensures r != [] ==> !InClass(r[|r| - 1], cls)
  {
    if s != [] && InClass(s[|s| - 1], cls) then TrimEnd(s[..|s| - 1], cls) else s
  }

  /** Swift's `trimmingCharacters(in:)`. */
  function Trim(s: string, cls: CharClass): string {
    TrimEnd(TrimStart(s, cls), cls)
  }

  /** Trimming leaves nothing exactly when every character is blank. */
  lemma TrimEmptyIff(s: string, cls: CharClass)
    ensures Trim(s, cls) == [] <==> forall k :: 0 <= k < |s| ==> InClass(s[k], cls)
  {
    var t := TrimStart(s, cls);
    if Trim(s, cls) == [] {
      forall k | 0 <= k < |s| ensures InClass(s[k], cls) {
        if k >= |s| - |t| {
          assert s[k] == t[k - (|s| - |t|)];
        }
      }
    } else {
      var r := Trim(s, cls);
      assert r[0] == t[0] == s[|s| - |t|];
    }
  }

  /** What trimming leaves starts and ends with a non-blank and is a slice
      of the input. */
  lemma TrimEnds(s: string, cls: CharClass)
    ensures var r := Trim(s, cls);
      && |r| <= |s|
      && (r != [] ==> !InClass(r[0], cls) && !InClass(r[|r| - 1], cls))
      && exists i :: OccursAt(s, r, i)
  {
    var t := TrimStart(s, cls);
    var r := TrimEnd(t, cls);
    if r != [] {
      assert r[0] == t[0];
    }
    PrefixOfSuffix(s, t, r);
  }

  /** A prefix of a suffix of `s` occurs in `s`. */
  lemma PrefixOfSuffix(s: string, t: string, r: string)
    requires |t| <= |s| && t == s[|s| - |t|..]
    requires |r| <= |t| && r == t[..|r|]
    ensures OccursAt(s, r, |s| - |t|)
  {
    var i := |s| - |t|;
    assert s[i..i + |r|] == r;
  }

  /** A string with no blank at either end is its own trim. */
  lemma TrimNoop(s: string, cls: CharClass)
    requires s != [] ==> !InClass(s[0], cls) && !InClass(s[|s| - 1], cls)
    ensures Trim(s, cls) == s
  {
  }

  /** Leading blanks are dropped by trimming. */
  lemma {:induction false} TrimLeading(blank: string, s: string, cls: CharClass)
    requires forall k :: 0 <= k < |blank| ==> InClass(blank[k], cls)
    requires s != [] ==> !InClass(s[0], cls) && !InClass(s[|s| - 1], cls)
    ensures Trim(blank + s, cls) == s
  {
    if blank == [] {
      assert blank + s == s;
    } else {
      assert (blank + s)[1..] == blank[1..] + s;
      TrimLeading(blank[1..], s, cls);
    }
  }

  // ---------------------------------------------------------------------
  // Decimal rendering, as string interpolation of an integer

  predicate IsDigit(c: char) {
    '0' <= c <= '9'
  }

  function DigitChar(d: nat): (c: char)
    requires d < 10
    ensures IsDigit(c)
  {
    (48 + d) as char
  }

  function DigitValue(c: char): (d: nat)
    requires IsDigit(c)
    ensures d < 10 && DigitChar(d) == c
  {
    c as int - 48
  }

  predicate AllDigits(s: string) {
    forall k :: 0 <= k < |s| ==> IsDigit(s[k])
  }

  /** Decimal digits of `n`, most significant first, no leading zero. */
  function NatToString(n: nat): (r: string)
    ensures r != [] && AllDigits(r)
    ensures |r| > 1 ==> r[0] != '0'
  {
    if n < 10 then [DigitChar(n)] else NatToString(n / 10) + [DigitChar(n % 10)]
  }

  function ParseNat(s: string): nat
    requires AllDigits(s)
  {
    if s == [] then 0 else 10 * ParseNat(s[..|s| - 1]) + DigitValue(s[|s| - 1])
  }

  /** Reading the digits back gives the number: the rendering is injective. */
  lemma {:induction false} ParseNatToString(n: nat)
    ensures ParseNat(NatToString(n)) == n
  {
    var s := NatToString(n);
    if n < 10 {
      assert s[..|s| - 1] == [];
    } else {
      ParseNatToString(n / 10);
      assert s[..|s| - 1] == NatToString(n / 10);
    }
  }

  lemma NatToStringInjective(m: nat, n: nat)
    requires NatToString(m) == NatToString(n)
    ensures m == n
  {
    ParseNatToString(m);
    ParseNatToString(n);
  }

  /** Swift's interpolation of an `Int`: a minus sign for negatives. */
  function IntToString(i: int): (r: string)
    ensures r != []
    ensures i >= 0 ==> r == NatToString(i)
    ensures i < 0 ==> r == "-" + NatToString(-i)
  {
    if i < 0 then "-" + NatToString(-i) else NatToString(i)
  }

  // ---------------------------------------------------------------------
  // Integer division as Swift and JavaScript perform it: truncating
  // toward zero, the remainder taking the sign of the dividend.

  function TruncDiv(a: int, b: int): (q: int)
    requires b > 0
    ensures a >= 0 ==> q == a / b
    ensures q * b + TruncMod(a, b) == a
  {
    if a >= 0 then a / b else -((-a) / b)
  }

  function TruncMod(a: int, b: int): (r: int)
    requires b > 0
    ensures a >= 0 ==> 0 <= r < b
    ensures a < 0 ==> -b < r <= 0
  {
    if a >= 0 then a % b else -((-a) % b)
  }
}
