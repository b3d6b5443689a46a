/** The string operations the routes borrow from Node and SQLite:
    `path.extname`, `String.prototype.toLowerCase`, `RegExp.prototype.test`
    for an unanchored alternation of plain words, the BINARY collation that
    `ORDER BY` uses on TEXT, and the decimal rendering of an integer id. */
module Text {
  import opened Common

  // ---------------------------------------------------------------------------
  // Substring search and the regular expressions /w1|w2|.../

  /** `w` occurs in `s` starting at position `i`. */
  predicate OccursAt(s: string, w: string, i: nat)
  {
    i + |w| <= |s| && s[i..i + |w|] == w
  }

  /** Substring search: the test of a regular expression made of one plain word. */
  function Contains(s: string, w: string): (r: bool)
    ensures r <==> exists i: nat :: OccursAt(s, w, i)
    decreases |s|
  {
    if |s| < |w| then
      false
    else if s[..|w|] == w then
      assert OccursAt(s, w, 0);
      true
    else
      var r := Contains(s[1..], w);
      OccursShift(s, w);
      if r then
        var i: nat :| OccursAt(s[1..], w, i);
        assert OccursAt(s, w, i + 1);
        true
      else
        assert !OccursAt(s, w, 0);
        false
  }

  /** An occurrence after the first position of `s` is an occurrence in `s[1..]`. */
  lemma OccursShift(s: string, w: string)
    requires |s| >= 1
    ensures forall i: nat :: 1 <= i ==> (OccursAt(s, w, i) <==> OccursAt(s[1..], w, i - 1))
  {
    forall i: nat | 1 <= i
      ensures OccursAt(s, w, i) <==> OccursAt(s[1..], w, i - 1)
    {
      if i + |w| <= |s| {
        assert s[1..][i - 1..i - 1 + |w|] == s[i..i + |w|];
      }
    }
  }

  /** `RegExp.test` for the unanchored alternation of plain words
      `/words[0]|words[1]|.../`: some word occurs somewhere in `s`. */
  function MatchesAny(s: string, words: seq<string>): (r: bool)
    ensures r <==> exists k :: 0 <= k < |words| && Contains(s, words[k])
  {
    if words == [] then
      false
    else if Contains(s, words[0]) then
      true
    else
      var r := MatchesAny(s, words[1..]);
      assert forall k :: 1 <= k < |words| ==> words[k] == words[1..][k - 1];
      r
  }

  // ---------------------------------------------------------------------------
  // toLowerCase and path.extname

  /** The lower-case mapping restricted to ASCII letters. */
  function LowerChar(c: char): char
  {
    if 'A' <= c <= 'Z' then (c as int + 32) as char else c
  }

  /** `s.toLowerCase()` on the ASCII letters. */
  function ToLower(s: string): (r: string)
    ensures |r| == |s|
    ensures forall i :: 0 <= i < |s| ==> r[i] == LowerChar(s[i]) && !('A' <= r[i] <= 'Z')
  {
    if s == [] then [] else [LowerChar(s[0])] + ToLower(s[1..])
  }

  /** The position of the last occurrence of `c` in `s`. */
  function LastIndexOf(s: string, c: char): (r: Option<nat>)
    ensures r.Some? ==> r.value < |s| && s[r.value] == c
                        && forall j :: r.value < j < |s| ==> s[j] != c
    ensures r.None? ==> forall j :: 0 <= j < |s| ==> s[j] != c
  {
    if s == [] then None
    else if s[|s| - 1] == c then Some(|s| - 1)
    else LastIndexOf(s[..|s| - 1], c)
  }

  /** A path with its trailing separators removed. */
  function TrimTrailingSlashes(p: string): (r: string)
    ensures |r| <= |p| && r == p[..|r|]
    ensures r == [] || r[|r| - 1] != '/'
  {
    if p != [] && p[|p| - 1] == '/' then TrimTrailingSlashes(p[..|p| - 1]) else p
  }

  /** The last component of a POSIX path, as `path.extname` scans it. */
  function BaseName(p: string): (r: string)
    ensures forall j :: 0 <= j < |r| ==> r[j] != '/'
  {
    var t := TrimTrailingSlashes(p);
    match LastIndexOf(t, '/')
    case None => t
    case Some(k) => t[k + 1..]
  }

  /** `path.extname(p)`: from the last '.' of the last component to its end;
      empty when that component has no '.', when its only '.' is its first
      character, and for the component "..". */
  function ExtName(p: string): (r: string)
    ensures r == [] || r[0] == '.'
    ensures forall j :: 1 <= j < |r| ==> r[j] != '.' && r[j] != '/'
    ensures r != [] ==> var b := BaseName(p); |r| < |b| && r == b[|b| - |r|..]
  {
    var b := BaseName(p);
    if b == ".." then
      ""
    else
      match LastIndexOf(b, '.')
      case None => ""
      case Some(d) => if d == 0 then "" else b[d..]
  }

  /** A name without directories whose last '.' starts "." + ext has
      extension "." + ext (".." aside). */
  lemma ExtNameOfFileName(stem: string, ext: string)
    requires stem != [] && (ext != [] || stem != ".")
    requires forall j :: 0 <= j < |stem| ==> stem[j] != '/'
    requires forall j :: 0 <= j < |ext| ==> ext[j] != '/' && ext[j] != '.'
    ensures ExtName(stem + "." + ext) == "." + ext
  {
    var p := stem + "." + ext;
    assert p[|p| - 1] != '/' by {
      if ext != [] { assert p[|p| - 1] == ext[|ext| - 1]; }
    }
    assert TrimTrailingSlashes(p) == p;
    assert forall j :: 0 <= j < |p| ==> p[j] != '/' by {
      forall j | 0 <= j < |p| ensures p[j] != '/' {
        if j < |stem| { assert p[j] == stem[j]; }
        else if j > |stem| { assert p[j] == ext[j - |stem| - 1]; }
      }
    }
    assert BaseName(p) == p;
    assert p[|stem|] == '.';
    assert LastIndexOf(p, '.') == Some(|stem|) by {
      forall j | |stem| < j < |p| ensures p[j] != '.' {
        assert p[j] == ext[j - |stem| - 1];
      }
    }
    assert p != ".." by {
      if |p| == 2 { assert ext == [] && p[0] == stem[0]; }
    }
    assert p[|stem|..] == "." + ext;
  }

  /** A name with neither '.' nor '/' has no extension. */
  lemma ExtNameWithoutDot(p: string)
    requires forall j :: 0 <= j < |p| ==> p[j] != '/' && p[j] != '.'
    ensures ExtName(p) == ""
  {
    assert TrimTrailingSlashes(p) == p;
    assert BaseName(p) == p;
  }

  // ---------------------------------------------------------------------------
  // SQLite's BINARY collation on TEXT

  /** `a <= b` in code-point order, a proper prefix sorting first. */
  predicate StrLe(a: string, b: string)
    decreases |a|
  {
    if a == [] then true
    else if b == [] then false
    else if a[0] != b[0] then a[0] < b[0]
    else StrLe(a[1..], b[1..])
  }

  lemma {:induction false} StrLeTotal(a: string, b: string)
    ensures StrLe(a, b) || StrLe(b, a)
    decreases |a|
  {
    if a != [] && b != [] && a[0] == b[0] {
      StrLeTotal(a[1..], b[1..]);
    }
  }

  lemma {:induction false} StrLeTransitive(a: string, b: string, c: string)
    requires StrLe(a, b) && StrLe(b, c)
    ensures StrLe(a, c)
    decreases |a|
  {
    if a != [] && b != [] && c != [] && a[0] == b[0] == c[0] {
      StrLeTransitive(a[1..], b[1..], c[1..]);
    }
  }

  // ---------------------------------------------------------------------------
  // Integer to string, as JavaScript's `'temp-' + id` renders a non-negative id

  function DigitChar(d: nat): (c: char)
    requires d < 10
    ensures '0' <= c <= '9'
  {
    ('0' as int + d) as char
  }

  function DigitValue(c: char): nat
  {
    if '0' <= c <= '9' then c as int - '0' as int else 0
  }

  /** The decimal digits of `n`, without leading zeros. */
  function Decimal(n: nat): (r: string)
    ensures |r| >= 1 && (r[0] == '0' ==> n == 0)
    ensures forall i :: 0 <= i < |r| ==> '0' <= r[i] <= '9'
  {
    if n < 10 then [DigitChar(n)] else Decimal(n / 10) + [DigitChar(n % 10)]
  }

  /** The value of a string of decimal digits. */
  function DecimalValue(s: string): nat
  {
    if s == [] then 0 else DecimalValue(s[..|s| - 1]) * 10 + DigitValue(s[|s| - 1])
  }

  /** Reading the digits back gives the number: distinct ids render differently. */
  lemma {:induction false} DecimalRoundTrip(n: nat)
    ensures DecimalValue(Decimal(n)) == n
  {
    if n >= 10 {
      DecimalRoundTrip(n / 10);
      var s := Decimal(n);
      assert s[..|s| - 1] == Decimal(n / 10);
    }
  }
}
