/** The PHP string built-ins that the mailer relies on, over Dafny strings.
    A PHP variable that the mailer leaves unset holds `null`; every other value
    it handles is a string, so a variable is modelled as `PhpString`. */
module PhpStrings {

  /** A PHP variable holding `null` or a string. */
  datatype PhpString = Null | Str(s: string)

  /** PHP's conversion to string: `null` becomes the empty string. */
  function AsString(v: PhpString): string
  {
    match v
    case Null => ""
    case Str(s) => s
  }

  /** PHP's `empty()` on a null-or-string value: `null`, `""` and `"0"` are empty. */
  predicate IsEmpty(v: PhpString)
    ensures IsEmpty(v) <==> AsString(v) == "" || AsString(v) == "0"
    ensures v.Str? && |v.s| >= 2 ==> !IsEmpty(v)
  {
    v == Null || v.s == "" || v.s == "0"
  }

  /** The `.=` operator: the old value, as a string, followed by the new one.
      The result is a string even when both sides are `null`. */
  function Concat(v: PhpString, w: PhpString): (r: PhpString)
    ensures r.Str?
    ensures AsString(v) <= r.s
    ensures r.s[|AsString(v)|..] == AsString(w)
  {
    Str(AsString(v) + AsString(w))
  }

  /** Number of occurrences of `c` in `s`. */
  function Count(s: string, c: char): (n: nat)
    ensures n <= |s|
    ensures n == 0 <==> c !in s
  {
    if s == [] then 0 else (if s[0] == c then 1 else 0) + Count(s[1..], c)
  }

  lemma {:induction false} CountAppend(a: string, b: string, c: char)
    ensures Count(a + b, c) == Count(a, c) + Count(b, c)
  {
    if a != [] {
      assert (a + b)[1..] == a[1..] + b;
      CountAppend(a[1..], b, c);
    } else {
      assert a + b == b;
    }
  }

  /** `str_replace(c, '', s)` for a one-character search string: `s` with every `c` removed. */
  function RemoveAll(s: string, c: char): (r: string)
    ensures c !in r
    ensures |r| == |s| - Count(s, c)
    ensures forall x :: x in r ==> x in s
  {
    if s == [] then ""
    else if s[0] == c then RemoveAll(s[1..], c)
    else [s[0]] + RemoveAll(s[1..], c)
  }

  /** Removing `c` leaves a string without `c` untouched. */
  lemma {:induction false} RemoveAllKeepsCleanString(s: string, c: char)
    requires c !in s
    ensures RemoveAll(s, c) == s
  {
    if s != [] {
      RemoveAllKeepsCleanString(s[1..], c);
    }
  }

  /** Removal works piecewise, so the characters other than `c` keep their order. */
  lemma {:induction false} RemoveAllAppend(a: string, b: string, c: char)
    ensures RemoveAll(a + b, c) == RemoveAll(a, c) + RemoveAll(b, c)
  {
    if a == [] {
      assert a + b == b;
    } else {
      assert (a + b)[1..] == a[1..] + b;
      RemoveAllAppend(a[1..], b, c);
    }
  }

  /** Length of the run of `c` at the start of `s`. */
  function LeadingRun(s: string, c: char): (k: nat)
    ensures k <= |s|
    ensures forall i :: 0 <= i < k ==> s[i] == c
    ensures k < |s| ==> s[k] != c
  {
    if s == [] || s[0] != c then 0 else 1 + LeadingRun(s[1..], c)
  }

  /** Length of the run of `c` at the end of `s`. */
  function TrailingRun(s: string, c: char): (k: nat)
    ensures k <= |s|
    ensures forall i :: |s| - k <= i < |s| ==> s[i] == c
    ensures k < |s| ==> s[|s| - 1 - k] != c
  {
    if s == [] || s[|s| - 1] != c then 0 else 1 + TrailingRun(s[..|s| - 1], c)
  }

  /** `s[a..b]` is what is left of `s` once only copies of `c` are cut from its two ends. */
  ghost predicate CutsOnly(s: string, c: char, a: nat, b: nat)
  {
    a <= b <= |s| &&
    (forall i :: 0 <= i < a ==> s[i] == c) &&
    (forall i :: b <= i < |s| ==> s[i] == c)
  }

  /** `trim(s, c)` with a one-character mask: the longest middle part of `s`
      obtained by cutting copies of `c` from both ends. */
  function Trim(s: string, c: char): (r: string)
    ensures r == [] || (r[0] != c && r[|r| - 1] != c)
    ensures exists a: nat, b: nat :: CutsOnly(s, c, a, b) && r == s[a..b]
  {
    var a := LeadingRun(s, c);
    if a == |s| then
      assert CutsOnly(s, c, a, a) && s[a..a] == "";
      ""
    else
      var b := |s| - TrailingRun(s, c);
      assert s[a] != c;
      assert a < b;
      assert CutsOnly(s, c, a, b);
      s[a..b]
  }

  /** A string that neither starts nor ends with `c` is left as it is by `trim`. */
  lemma TrimKeepsUnframed(s: string, c: char)
    requires s == [] || (s[0] != c && s[|s| - 1] != c)
    ensures Trim(s, c) == s
  {
    assert LeadingRun(s, c) == 0;
    if s != [] {
      assert TrailingRun(s, c) == 0;
    }
  }

  /** A string with exactly one `c` at its end, and none at its start, loses just that one. */
  lemma TrimDropsFinal(s: string, c: char)
    requires |s| >= 2 && s[0] != c && s[|s| - 1] == c && s[|s| - 2] != c
    ensures Trim(s, c) == s[..|s| - 1]
  {
    assert LeadingRun(s, c) == 0;
    var t := s[..|s| - 1];
    assert t[|t| - 1] == s[|s| - 2];
    assert TrailingRun(t, c) == 0;
    assert TrailingRun(s, c) == 1;
  }

  /** `explode(sep, s)` for a one-character separator: the pieces between separators,
      one more than there are separators; `explode` of `""` is `[""]`. */
  function Explode(s: string, sep: char): (r: seq<string>)
    ensures |r| == Count(s, sep) + 1
    ensures forall p :: p in r ==> sep !in p
  {
    if s == [] then [""]
    else
      var rest := Explode(s[1..], sep);
      if s[0] == sep then [""] + rest
      else [[s[0]] + rest[0]] + rest[1..]
  }

  /** `implode(sep, ps)`: the pieces with `sep` between neighbours. */
  function Implode(ps: seq<string>, sep: char): string
    requires |ps| >= 1
  {
    if |ps| == 1 then ps[0] else ps[0] + [sep] + Implode(ps[1..], sep)
  }

  /** Exploding loses nothing: joining the pieces back gives the original string. */
  lemma {:induction false} ImplodeExplode(s: string, sep: char)
    ensures Implode(Explode(s, sep), sep) == s
  {
    if s != [] {
      var rest := Explode(s[1..], sep);
      ImplodeExplode(s[1..], sep);
      if s[0] == sep {
        var r := [""] + rest;
        assert Explode(s, sep) == r;
        assert r[1..] == rest;
        assert Implode(r, sep) == "" + [sep] + Implode(rest, sep);
        assert s == [sep] + s[1..];
      } else {
        assert Explode(s, sep) == [[s[0]] + rest[0]] + rest[1..];
        ImplodeExtendsHead([s[0]], rest, sep);
        assert s == [s[0]] + s[1..];
      }
    }
  }

  /** Prefixing the first piece prefixes the joined string. */
  lemma ImplodeExtendsHead(x: string, ps: seq<string>, sep: char)
    requires |ps| >= 1
    ensures Implode([x + ps[0]] + ps[1..], sep) == x + Implode(ps, sep)
  {
    var qs := [x + ps[0]] + ps[1..];
    assert qs[0] == x + ps[0];
    if |ps| > 1 {
      assert qs[1..] == ps[1..];
    }
  }

  /** A string is one piece under `explode` exactly when it holds no separator. */
  lemma SinglePieceIffNoSeparator(s: string, sep: char)
    ensures |Explode(s, sep)| == 1 <==> sep !in s
  {
  }

  /** `n` occurs in `h` at index `i`. */
  predicate OccursAt(h: string, n: string, i: nat)
  {
    i + |n| <= |h| && h[i..i + |n|] == n
  }

  /** Where `strpos` found the needle, or that it did not (`false` in PHP). */
  datatype Position = NotFound | At(index: nat)

  /** `strpos(h, n, from)`: the first occurrence of `n` in `h` at or after `from`. */
  function StrposFrom(h: string, n: string, from: nat): (r: Position)
    decreases |h| - from
    ensures r.At? ==> from <= r.index && OccursAt(h, n, r.index)
    ensures r.At? ==> forall j :: from <= j < r.index ==> !OccursAt(h, n, j)
    ensures r.NotFound? ==> forall j :: from <= j ==> !OccursAt(h, n, j)
  {
    if from + |n| > |h| then NotFound
    else if OccursAt(h, n, from) then At(from)
    else StrposFrom(h, n, from + 1)
  }

  /** `strpos(h, n)` as in PHP 8: the first occurrence of `n` in `h`; an empty needle is found at 0. */
  function Strpos(h: string, n: string): (r: Position)
    ensures r.At? ==> OccursAt(h, n, r.index) && forall j: nat :: j < r.index ==> !OccursAt(h, n, j)
    ensures r.NotFound? <==> forall j: nat :: !OccursAt(h, n, j)
  {
    StrposFrom(h, n, 0)
  }

  /** `n` occurs somewhere in `h`. */
  ghost predicate Contains(h: string, n: string)
  {
    exists j: nat :: OccursAt(h, n, j)
  }

  /** `strpos(h, n) !== false` holds exactly when `h` contains `n`. */
  lemma StrposFindsIffContains(h: string, n: string)
    ensures Strpos(h, n).At? <==> Contains(h, n)
  {
  }
}
