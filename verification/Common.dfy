/** Small building blocks shared by every component model: an optional value,
    sequence filtering, JavaScript-style upper-casing and whitespace. */
module Common {

  /** A value that may be absent: JavaScript's `null` / `undefined`. */
  datatype Option<+T> = None | Some(value: T)

  /** JavaScript truthiness of an optional string: present and non-empty. */
  predicate Truthy(s: Option<string>) {
    s.Some? && s.value != ""
  }

  /** The elements of `s` that satisfy `p`; `FilterAppend` shows that their order is kept. */
  function Filter<T(!new)>(s: seq<T>, p: T -> bool): (r: seq<T>)
    ensures |r| <= |s|
    ensures forall x :: x in r <==> x in s && p(x)
    ensures forall i :: 0 <= i < |r| ==> p(r[i])
  {
    if |s| == 0 then []
    else (if p(s[0]) then [s[0]] else []) + Filter(s[1..], p)
  }

  /** Filtering distributes over concatenation. */
  lemma {:induction false} FilterAppend<T(!new)>(a: seq<T>, b: seq<T>, p: T -> bool)
    ensures Filter(a + b, p) == Filter(a, p) + Filter(b, p)
  {
    if |a| == 0 {
      assert a + b == b;
    } else {
      assert (a + b)[1..] == a[1..] + b;
      FilterAppend(a[1..], b, p);
    }
  }

  /** When exactly the element at index `i` satisfies `p`, filtering keeps just that element. */
  lemma {:induction false} FilterSingle<T(!new)>(s: seq<T>, p: T -> bool, i: int)
    requires 0 <= i < |s| && p(s[i])
    requires forall j :: 0 <= j < |s| && j != i ==> !p(s[j])
    ensures Filter(s, p) == [s[i]]
  {
    if i == 0 {
      FilterNone(s[1..], p);
    } else {
      FilterSingle(s[1..], p, i - 1);
    }
  }

  /** When no element satisfies `p`, filtering keeps nothing. */
  lemma {:induction false} FilterNone<T(!new)>(s: seq<T>, p: T -> bool)
    requires forall j :: 0 <= j < |s| ==> !p(s[j])
    ensures Filter(s, p) == []
  {
    if |s| > 0 {
      FilterNone(s[1..], p);
    }
  }

  /** A one-element filter result comes from exactly one position of the input. */
  lemma {:induction false} FilterSingleSource<T(!new)>(s: seq<T>, p: T -> bool) returns (i: int)
    requires |Filter(s, p)| == 1
    ensures 0 <= i < |s| && s[i] == Filter(s, p)[0] && p(s[i])
    ensures forall j :: 0 <= j < |s| && j != i ==> !p(s[j])
  {
    if p(s[0]) {
      i := 0;
      assert |Filter(s[1..], p)| == 0;
      forall j | 0 < j < |s|
        ensures !p(s[j])
      {
        assert s[1..][j - 1] == s[j];
      }
    } else {
      var k := FilterSingleSource(s[1..], p);
      i := k + 1;
    }
  }

  /** Filtering with two predicates that agree everywhere gives the same result. */
  lemma {:induction false} FilterSamePredicate<T(!new)>(s: seq<T>, p: T -> bool, q: T -> bool)
    requires forall x :: p(x) == q(x)
    ensures Filter(s, p) == Filter(s, q)
  {
    if |s| > 0 {
      FilterSamePredicate(s[1..], p, q);
    }
  }

  /** The position of the first occurrence of `c` in `s` (`indexOf`). */
  function FirstIndexOf(s: string, c: char): (r: Option<nat>)
    ensures r.Some? ==> r.value < |s| && s[r.value] == c
    ensures r.Some? ==> forall k :: 0 <= k < r.value ==> s[k] != c
    ensures r.None? ==> forall k :: 0 <= k < |s| ==> s[k] != c
  {
    if |s| == 0 then None
    else if s[0] == c then Some(0)
    else match FirstIndexOf(s[1..], c)
      case None => None
      case Some(k) => Some(k + 1)
  }

  /** The first occurrence is found after a prefix free of `c`. */
  lemma FirstIndexAfterPrefix(pre: string, c: char, rest: string)
    requires c !in pre
    ensures FirstIndexOf(pre + [c] + rest, c) == Some(|pre|)
  {
    var s := pre + [c] + rest;
    assert s[|pre|] == c;
    assert forall k :: 0 <= k < |pre| ==> s[k] == pre[k];
  }

  /** `ls.join(sep)` for a one-character separator. */
  function Join(ls: seq<string>, sep: char): string {
    if |ls| == 0 then ""
    else if |ls| == 1 then ls[0]
    else ls[0] + [sep] + Join(ls[1..], sep)
  }

  /** `s.split(sep)` for a one-character separator: at least one piece, none holding `sep`. */
  function Split(s: string, sep: char): (r: seq<string>)
    ensures |r| >= 1
    ensures forall i :: 0 <= i < |r| ==> sep !in r[i]
    decreases |s|
  {
    match FirstIndexOf(s, sep)
    case None => [s]
    case Some(i) => [s[..i]] + Split(s[i + 1..], sep)
  }

  /** Splitting the joined text gives the pieces back, provided there is at least one and
      none contains the separator. */
  lemma {:induction false} SplitJoin(ls: seq<string>, sep: char)
    requires |ls| >= 1
    requires forall i :: 0 <= i < |ls| ==> sep !in ls[i]
    ensures Split(Join(ls, sep), sep) == ls
  {
    if |ls| > 1 {
      var l, rest := ls[0], Join(ls[1..], sep);
      FirstIndexAfterPrefix(l, sep, rest);
      assert (l + [sep] + rest)[..|l|] == l;
      assert (l + [sep] + rest)[|l| + 1..] == rest;
      SplitJoin(ls[1..], sep);
    }
  }

  /** Upper-casing of one character as JavaScript's `toUpperCase` does for ASCII letters. */
  function UpperChar(c: char): char {
    if 'a' <= c <= 'z' then (c as int - 32) as char else c
  }

  /** Character-wise upper-casing of a string. */
  function ToUpper(s: string): (r: string)
    ensures |r| == |s|
    ensures forall i :: 0 <= i < |s| ==> r[i] == UpperChar(s[i])
  {
    seq(|s|, i requires 0 <= i < |s| => UpperChar(s[i]))
  }

  /** A string with no lower-case ASCII letter. */
  predicate IsUpper(s: string) {
    forall i :: 0 <= i < |s| ==> !('a' <= s[i] <= 'z')
  }

  /** Upper-casing yields upper-case text, and upper-casing twice is upper-casing once. */
  lemma ToUpperIdempotent(s: string)
    ensures IsUpper(ToUpper(s))
    ensures ToUpper(ToUpper(s)) == ToUpper(s)
  {
  }

  /** Upper-case text is left exactly as it is. */
  lemma ToUpperFixesUpper(s: string)
    requires IsUpper(s)
    ensures ToUpper(s) == s
  {
  }

  /** Characters JavaScript's `String.prototype.trim` removes: white space and line terminators. */
  predicate IsJsSpace(c: char) {
    || c == ' ' || c == '\t' || c == '\n' || c == '\r' || c == '\U{B}' || c == '\U{C}'
    || c == '\U{A0}' || c == '\U{1680}' || ('\U{2000}' <= c <= '\U{200A}')
    || c == '\U{2028}' || c == '\U{2029}' || c == '\U{202F}' || c == '\U{205F}'
    || c == '\U{3000}' || c == '\U{FEFF}'
  }

  /** `s.trim()` is empty: every character is white space. */
  predicate IsBlank(s: string) {
    forall i :: 0 <= i < |s| ==> IsJsSpace(s[i])
  }
}
