/**
 * The string primitives the source relies on, restricted to ASCII:
 * `toLowerCase`/`lower()`, `trim()`/`strip()`, `split` on one character,
 * `join`, `includes`/`in`, and the code-point order behind `ORDER BY name`.
 */
module Text {

  /** ASCII lower-casing of one character; every other character is unchanged. */
  function LowerChar(c: char): char {
    if 'A' <= c <= 'Z' then (c as int + 32) as char else c
  }

  /** `s.toLowerCase()` in JavaScript, `s.lower()` in Python, restricted to ASCII. */
  function Lower(s: string): (r: string)
    ensures |r| == |s|
    ensures forall k :: 0 <= k < |s| ==> r[k] == LowerChar(s[k])
  {
    seq(|s|, k requires 0 <= k < |s| => LowerChar(s[k]))
  }

  lemma LowerConcat(a: string, b: string)
    ensures Lower(a + b) == Lower(a) + Lower(b)
  {
    assert forall k :: 0 <= k < |a + b| ==> Lower(a + b)[k] == (Lower(a) + Lower(b))[k];
  }

  /** Lower-casing commutes with slicing. */
  lemma LowerSlice(s: string, i: nat, j: nat)
    requires i <= j <= |s|
    ensures Lower(s)[i..j] == Lower(s[i..j])
  {
    assert forall k :: 0 <= k < j - i ==> Lower(s)[i..j][k] == Lower(s[i..j])[k];
  }

  /** A slice, lower-cased, occurs in the lower-cased string. */
  lemma LowerSliceOccurs(s: string, i: nat, j: nat)
    requires i <= j <= |s|
    ensures IsSubstring(Lower(s[i..j]), Lower(s))
  {
    LowerSlice(s, i, j);
    assert OccursAt(Lower(s[i..j]), Lower(s), i);
  }

  /** JavaScript `trim()` whitespace, ASCII part: space, tab, LF, VT, FF, CR. */
  predicate IsJsSpace(c: char) {
    c == ' ' || 9 <= c as int <= 13
  }

  /** Python `str.strip()` and regular-expression `\s` whitespace, ASCII part: adds the separators 0x1C-0x1F. */
  predicate IsPySpace(c: char) {
    c == ' ' || 9 <= c as int <= 13 || 28 <= c as int <= 31
  }

  /** `s` neither starts nor ends with a character of `ws`. */
  predicate NoEdgeSpace(s: string, ws: char -> bool) {
    |s| == 0 || (!ws(s[0]) && !ws(s[|s| - 1]))
  }

  /** Drops the leading characters that satisfy `ws`. */
  function TrimLeft(s: string, ws: char -> bool): (r: string)
    ensures |r| <= |s| && r == s[|s| - |r|..]
    ensures forall k :: 0 <= k < |s| - |r| ==> ws(s[k])
    ensures |r| > 0 ==> !ws(r[0])
    decreases |s|
  {
    if |s| > 0 && ws(s[0]) then TrimLeft(s[1..], ws) else s
  }

  /** Drops the trailing characters that satisfy `ws`. */
  function TrimRight(s: string, ws: char -> bool): (r: string)
    ensures |r| <= |s| && r == s[..|r|]
    ensures forall k :: |r| <= k < |s| ==> ws(s[k])
    ensures |r| > 0 ==> !ws(r[|r| - 1])
    decreases |s|
  {
    if |s| > 0 && ws(s[|s| - 1]) then TrimRight(s[..|s| - 1], ws) else s
  }

  /** Removes leading and trailing `ws` characters: the middle slice of `s` is kept intact. */
  function TrimBy(s: string, ws: char -> bool): (r: string)
    ensures NoEdgeSpace(r, ws)
    ensures |r| <= |s|
    ensures (forall k :: 0 <= k < |s| ==> !ws(s[k])) ==> r == s
  {
    var l := TrimLeft(s, ws);
    var r := TrimRight(l, ws);
    assert |r| > 0 ==> r[0] == l[0];
    r
  }

  /** JavaScript `String.prototype.trim`. */
  function Trim(s: string): (r: string)
    ensures NoEdgeSpace(r, IsJsSpace)
  {
    TrimBy(s, IsJsSpace)
  }

  /** Python `str.strip()` with no argument. */
  function Strip(s: string): (r: string)
    ensures NoEdgeSpace(r, IsPySpace)
  {
    TrimBy(s, IsPySpace)
  }

  lemma TrimOfTrimmed(s: string, ws: char -> bool)
    requires NoEdgeSpace(s, ws)
    ensures TrimBy(s, ws) == s
  {
  }

  /** Trimming keeps one contiguous slice of the string, starting at `i`. */
  lemma TrimBySlice(s: string, ws: char -> bool) returns (i: nat)
    ensures i + |TrimBy(s, ws)| <= |s| && TrimBy(s, ws) == s[i..i + |TrimBy(s, ws)|]
  {
    var l := TrimLeft(s, ws);
    var r := TrimRight(l, ws);
    i := |s| - |l|;
    calc {
      TrimBy(s, ws);
      r;
      l[..|r|];
      s[i..][..|r|];
      s[i..i + |r|];
    }
  }

  /** Stripping keeps only characters of the original string. */
  lemma StripWithin(s: string)
    ensures forall c :: c in Strip(s) ==> c in s
  {
    var w := Strip(s);
    assert w == TrimBy(s, IsPySpace);
    var i := TrimBySlice(s, IsPySpace);
    forall c | c in w
      ensures c in s
    {
      var j :| 0 <= j < |w| && w[j] == c;
      assert w[j] == s[i + j];
    }
  }

  /** The stripped text, lower-cased, occurs in the lower-cased text. */
  lemma StripInside(x: string)
    ensures IsSubstring(Lower(Strip(x)), Lower(x))
  {
    var w := Strip(x);
    assert w == TrimBy(x, IsPySpace);
    var i := TrimBySlice(x, IsPySpace);
    var j := i + |w|;
    assert x[i..j] == w;
    LowerSliceOccurs(x, i, j);
  }

  /** The position of the first `c` in `s`. */
  function IndexOf(s: string, c: char): (i: nat)
    requires c in s
    ensures i < |s| && s[i] == c && c !in s[..i]
  {
    if s[0] == c then 0
    else
      assert c in s[1..] by {
        var k :| 0 <= k < |s| && s[k] == c;
        assert s[1..][k - 1] == c;
      }
      var j := IndexOf(s[1..], c);
      assert s[..j + 1] == [s[0]] + s[1..][..j];
      j + 1
  }

  /** Trimming never brings in a character that was not there. */
  lemma TrimKeeps(s: string, c: char)
    requires c !in s
    ensures c !in Trim(s)
  {
    var l := TrimLeft(s, IsJsSpace);
    var r := TrimRight(l, IsJsSpace);
    assert forall k :: 0 <= k < |r| ==> r[k] == l[k] == s[|s| - |l| + k];
  }

  /** `s.split(c)` for a one-character separator: never empty, and no piece contains `c`. */
  function Split(s: string, c: char): (parts: seq<string>)
    ensures |parts| >= 1
    ensures forall k :: 0 <= k < |parts| ==> c !in parts[k]
    decreases |s|
  {
    if c in s then
      var i := IndexOf(s, c);
      [s[..i]] + Split(s[i + 1..], c)
    else
      [s]
  }

  /** `parts.join(sep)`. */
  function Join(parts: seq<string>, sep: string): string
    decreases |parts|
  {
    if |parts| == 0 then ""
    else if |parts| == 1 then parts[0]
    else parts[0] + sep + Join(parts[1..], sep)
  }

  /** Splitting on `c` and joining with `c` gives back the original string. */
  lemma {:induction false} JoinSplit(s: string, c: char)
    ensures Join(Split(s, c), [c]) == s
    decreases |s|
  {
    if c in s {
      var i := IndexOf(s, c);
      var rest := Split(s[i + 1..], c);
      JoinSplit(s[i + 1..], c);
      assert Split(s, c) == [s[..i]] + rest;
      assert ([s[..i]] + rest)[1..] == rest;
      assert s == s[..i] + [c] + s[i + 1..];
    }
  }

  /** The first `c` in `s` is the one at `j` when `s[..j]` holds no `c`. */
  lemma IndexOfIsFirst(s: string, c: char, j: int)
    requires 0 <= j < |s| && s[j] == c && c !in s[..j]
    ensures IndexOf(s, c) == j
  {
    var i := IndexOf(s, c);
    assert forall k :: 0 <= k < j ==> s[k] != c by {
      forall k | 0 <= k < j
        ensures s[k] != c
      {
        assert s[..j][k] == s[k];
      }
    }
    assert forall k :: 0 <= k < i ==> s[k] != c by {
      forall k | 0 <= k < i
        ensures s[k] != c
      {
        assert s[..i][k] == s[k];
      }
    }
  }

  /** Splitting `a + c + b` where `a` has no `c` yields `a` followed by the pieces of `b`. */
  lemma SplitAfterFirst(a: string, c: char, b: string)
    requires c !in a
    ensures Split(a + [c] + b, c) == [a] + Split(b, c)
  {
    var s := a + [c] + b;
    assert s[..|a|] == a;
    IndexOfIsFirst(s, c, |a|);
    assert s[|a| + 1..] == b;
  }

  /** Joining pieces free of `c` with `c` and splitting on `c` gives back the pieces. */
  lemma {:induction false} SplitJoin(parts: seq<string>, c: char)
    requires |parts| >= 1
    requires forall k :: 0 <= k < |parts| ==> c !in parts[k]
    ensures Split(Join(parts, [c]), c) == parts
    decreases |parts|
  {
    if |parts| > 1 {
      SplitJoin(parts[1..], c);
      SplitAfterFirst(parts[0], c, Join(parts[1..], [c]));
      assert parts == [parts[0]] + parts[1..];
    }
  }

  /** The first piece of a split is a prefix of the string. */
  lemma SplitFirstPrefix(s: string, c: char)
    ensures |Split(s, c)[0]| <= |s| && Split(s, c)[0] == s[..|Split(s, c)[0]|]
  {
  }

  /** A character absent from `s` is absent from the first piece of its split. */
  lemma SplitFirstKeeps(s: string, c: char, d: char)
    requires d !in s
    ensures d !in Split(s, c)[0]
  {
    SplitFirstPrefix(s, c);
    var p := Split(s, c)[0];
    assert forall k :: 0 <= k < |p| ==> p[k] == s[k];
  }

  /** Each piece after the first, with the space that follows the separator put back. */
  function Spaced(parts: seq<string>): seq<string> {
    seq(|parts|, k requires 0 <= k < |parts| => " " + parts[k])
  }

  /**
   * Splitting `pre + parts.join("; ")` on `;` gives `pre + parts[0]` and then
   * every later part with its leading space, when no part holds a `;`.
   */
  lemma {:induction false} SplitJoinSpaced(pre: string, parts: seq<string>)
    requires |parts| >= 1
    requires ';' !in pre
    requires forall k :: 0 <= k < |parts| ==> ';' !in parts[k]
    ensures Split(pre + Join(parts, "; "), ';') == [pre + parts[0]] + Spaced(parts[1..])
    decreases |parts|
  {
    if |parts| == 1 {
      assert Join(parts, "; ") == parts[0];
      assert ';' !in pre + parts[0] by {
        assert ';' !in parts[0];
      }
      assert Spaced(parts[1..]) == [];
    } else {
      var later := parts[1..];
      assert Split(" " + Join(later, "; "), ';') == Spaced(later) by {
        assert forall k :: 0 <= k < |later| ==> ';' !in later[k];
        SplitJoinSpaced(" ", later);
        SpacedCons(later);
      }
      assert ';' !in parts[0];
      SplitJoinStep(pre, parts);
    }
  }

  lemma SpacedCons(parts: seq<string>)
    requires |parts| > 0
    ensures Spaced(parts) == [" " + parts[0]] + Spaced(parts[1..])
  {
    var r := [" " + parts[0]] + Spaced(parts[1..]);
    assert |Spaced(parts)| == |r|;
    forall k | 0 <= k < |r|
      ensures Spaced(parts)[k] == r[k]
    {
      if k > 0 {
        assert r[k] == Spaced(parts[1..])[k - 1];
      }
    }
  }

  /** The step of `SplitJoinSpaced`: the first `;` ends the first piece, and the rest splits as before. */
  lemma SplitJoinStep(pre: string, parts: seq<string>)
    requires |parts| >= 2 && ';' !in pre && ';' !in parts[0]
    ensures Split(pre + Join(parts, "; "), ';') == [pre + parts[0]] + Split(" " + Join(parts[1..], "; "), ';')
  {
    var a := pre + parts[0];
    var rest := Join(parts[1..], "; ");
    assert pre + Join(parts, "; ") == a + [';'] + (" " + rest) by {
      assert Join(parts, "; ") == parts[0] + "; " + rest;
      assert "; " == [';'] + " ";
    }
    SplitAfterFirst(a, ';', " " + rest);
  }

  /** `sub` occurs in `s` starting at position `i`. */
  ghost predicate OccursAt(sub: string, s: string, i: int) {
    0 <= i && i + |sub| <= |s| && s[i..i + |sub|] == sub
  }

  /** `sub` is a contiguous part of `s`. */
  ghost predicate IsSubstring(sub: string, s: string) {
    exists i :: OccursAt(sub, s, i)
  }

  lemma OccursShift(sub: string, s: string, i: int)
    requires |s| > 0 && 0 <= i
    ensures OccursAt(sub, s[1..], i) <==> OccursAt(sub, s, i + 1)
  {
    if 0 <= i && i + |sub| <= |s| - 1 {
      assert s[1..][i..i + |sub|] == s[i + 1..i + 1 + |sub|];
    }
  }

  /** `s.includes(sub)` (JavaScript) and `sub in s` (Python), computed by scanning every start position. */
  function Includes(s: string, sub: string): (b: bool)
    ensures b <==> IsSubstring(sub, s)
    decreases |s|
  {
    var here := |sub| <= |s| && s[..|sub|] == sub;
    var later := |s| > 0 && Includes(s[1..], sub);
    IncludesStep(s, sub, here, later);
    here || later
  }

  lemma IncludesStep(s: string, sub: string, here: bool, later: bool)
    requires here <==> (|sub| <= |s| && s[..|sub|] == sub)
    requires later <==> (|s| > 0 && IsSubstring(sub, s[1..]))
    ensures here || later <==> IsSubstring(sub, s)
  {
    if here {
      assert OccursAt(sub, s, 0);
    }
    if later {
      var i :| OccursAt(sub, s[1..], i);
      OccursShift(sub, s, i);
    }
    if IsSubstring(sub, s) {
      var i :| OccursAt(sub, s, i);
      if i > 0 {
        OccursShift(sub, s, i - 1);
      }
    }
  }

  lemma EmptyIsSubstring(s: string)
    ensures IsSubstring("", s)
  {
    assert OccursAt("", s, 0);
  }

  /** Code-point (lexicographic) order on strings, the "C" collation. */
  predicate LessEq(a: string, b: string)
    decreases |a|
  {
    |a| == 0 || (|b| > 0 && (a[0] < b[0] || (a[0] == b[0] && LessEq(a[1..], b[1..]))))
  }

  lemma LessEqTotal(a: string, b: string)
    ensures LessEq(a, b) || LessEq(b, a)
    decreases |a|
  {
    if |a| > 0 && |b| > 0 && a[0] == b[0] {
      LessEqTotal(a[1..], b[1..]);
    }
  }

  lemma LessEqTrans(a: string, b: string, c: string)
    requires LessEq(a, b) && LessEq(b, c)
    ensures LessEq(a, c)
    decreases |a|
  {
    if |a| > 0 && a[0] == b[0] && b[0] == c[0] {
      LessEqTrans(a[1..], b[1..], c[1..]);
    }
  }
}
