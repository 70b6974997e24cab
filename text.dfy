/** Python string operations the scripts rely on, restricted to ASCII:
    strip/lstrip/rstrip (with and without a character set), lower/upper/title,
    startswith/endswith, split, splitlines, replace and join. */
module Text {

  /** The characters Python's str.strip() removes, restricted to ASCII. */
  const Whitespace: set<char> := {' ', '\t', '\n', '\U{0B}', '\U{0C}', '\r', '\U{1C}', '\U{1D}', '\U{1E}', '\U{1F}'}

  predicate IsUpperChar(c: char) { 'A' <= c <= 'Z' }
  predicate IsLowerChar(c: char) { 'a' <= c <= 'z' }
  predicate IsLetter(c: char) { IsUpperChar(c) || IsLowerChar(c) }
  predicate IsDigit(c: char) { '0' <= c <= '9' }

  function LowerChar(c: char): (r: char)
    ensures !IsUpperChar(r)
    ensures IsUpperChar(c) || r == c
    ensures IsUpperChar(c) ==> IsLowerChar(r)
  {
    if IsUpperChar(c) then (c as int + 32) as char else c
  }

  function UpperChar(c: char): (r: char)
    ensures !IsLowerChar(r)
    ensures IsLowerChar(c) || r == c
    ensures IsLowerChar(c) ==> IsUpperChar(r)
  {
    if IsLowerChar(c) then (c as int - 32) as char else c
  }

  /** str.lower() */
  function Lower(s: string): (r: string)
    ensures |r| == |s|
    ensures forall i :: 0 <= i < |s| ==> r[i] == LowerChar(s[i])
  {
    if s == [] then [] else [LowerChar(s[0])] + Lower(s[1..])
  }

  /** str.upper() */
  function Upper(s: string): (r: string)
    ensures |r| == |s|
    ensures forall i :: 0 <= i < |s| ==> r[i] == UpperChar(s[i])
  {
    if s == [] then [] else [UpperChar(s[0])] + Upper(s[1..])
  }

  lemma LowerIdempotent(s: string)
    ensures Lower(Lower(s)) == Lower(s)
  {
  }

  /** Lower-casing forgets an earlier upper-casing. */
  lemma LowerUpper(s: string)
    ensures Lower(Upper(s)) == Lower(s)
  {
    assert forall i :: 0 <= i < |s| ==> LowerChar(UpperChar(s[i])) == LowerChar(s[i]);
  }

  /** A string with no upper-case letter is its own lower-casing. */
  lemma LowerOfLower(s: string)
    requires forall i :: 0 <= i < |s| ==> !IsUpperChar(s[i])
    ensures Lower(s) == s
  {
  }

  /** Lower-casing never introduces a character that is not a lower-case letter. */
  lemma LowerAbsent(s: string, c: char)
    requires !IsLowerChar(c) && c !in s
    ensures c !in Lower(s)
  {
    forall i | 0 <= i < |s| ensures Lower(s)[i] != c {
      assert s[i] != c;
    }
  }

  lemma LowerAppend(a: string, b: string)
    ensures Lower(a + b) == Lower(a) + Lower(b)
  {
  }

  /** str.title(): a letter is upper-cased when the character before it is not a
      letter, and lower-cased otherwise. */
  function Title(s: string): (r: string)
    ensures |r| == |s|
    ensures forall i :: 0 <= i < |s| && (i == 0 || !IsLetter(s[i - 1])) ==> r[i] == UpperChar(s[i])
    ensures forall i :: 0 < i < |s| && IsLetter(s[i - 1]) ==> r[i] == LowerChar(s[i])
  {
    TitleFrom(s, false)
  }

  function TitleFrom(s: string, afterLetter: bool): (r: string)
    ensures |r| == |s|
    ensures |s| > 0 ==> r[0] == if afterLetter then LowerChar(s[0]) else UpperChar(s[0])
    ensures forall i :: 0 < i < |s| && !IsLetter(s[i - 1]) ==> r[i] == UpperChar(s[i])
    ensures forall i :: 0 < i < |s| && IsLetter(s[i - 1]) ==> r[i] == LowerChar(s[i])
  {
    if s == [] then []
    else [if afterLetter then LowerChar(s[0]) else UpperChar(s[0])] + TitleFrom(s[1..], IsLetter(s[0]))
  }

  /** Title case never produces a character that has no case and was not there. */
  lemma TitleKeeps(s: string, c: char)
    requires !IsLetter(c) && c !in s
    ensures c !in Title(s)
  {
    var r := Title(s);
    forall i | 0 <= i < |r| ensures r[i] != c {
      if i > 0 && IsLetter(s[i - 1]) {
        assert r[i] == LowerChar(s[i]);
      } else {
        assert r[i] == UpperChar(s[i]);
      }
    }
  }

  // ---------------------------------------------------------------- stripping

  /** str.lstrip(chars): drops the longest prefix made of characters in cs. */
  function LStripAny(s: string, cs: set<char>): (r: string)
    ensures |r| <= |s| && r == s[|s| - |r|..]
    ensures forall i :: 0 <= i < |s| - |r| ==> s[i] in cs
    ensures r != [] ==> r[0] !in cs
  {
    if s != [] && s[0] in cs then LStripAny(s[1..], cs) else s
  }

  /** str.rstrip(chars): drops the longest suffix made of characters in cs. */
  function RStripAny(s: string, cs: set<char>): (r: string)
    ensures |r| <= |s| && r == s[..|r|]
    ensures forall i :: |r| <= i < |s| ==> s[i] in cs
    ensures r != [] ==> r[|r| - 1] !in cs
  {
    if s != [] && s[|s| - 1] in cs then RStripAny(s[..|s| - 1], cs) else s
  }

  /** str.strip(chars) */
  function StripAny(s: string, cs: set<char>): string
  {
    LStripAny(RStripAny(s, cs), cs)
  }

  /** str.strip() */
  function Strip(s: string): string
  {
    StripAny(s, Whitespace)
  }

  /** The result of str.strip(chars) neither starts nor ends with a character of cs. */
  lemma StripAnyShape(s: string, cs: set<char>)
    ensures var r := StripAny(s, cs);
            |r| <= |s| && (r != [] ==> r[0] !in cs && r[|r| - 1] !in cs)
  {
    var t := RStripAny(s, cs);
    var r := LStripAny(t, cs);
    if r != [] {
      assert r[|r| - 1] == t[|t| - 1];
    }
  }

  /** Stripping only removes characters: what is left is a piece of s. */
  lemma StripAnyKeeps(s: string, cs: set<char>, c: char)
    requires c in StripAny(s, cs)
    ensures c in s
  {
    var t := RStripAny(s, cs);
    var r := LStripAny(t, cs);
    var i :| 0 <= i < |r| && r[i] == c;
    assert r[i] == t[|t| - |r| + i];
    assert t[|t| - |r| + i] == s[|t| - |r| + i];
  }

  /** Stripping what is already stripped changes nothing. */
  lemma StripAnyIdempotent(s: string, cs: set<char>)
    ensures StripAny(StripAny(s, cs), cs) == StripAny(s, cs)
  {
    var r := StripAny(s, cs);
    StripAnyShape(s, cs);
    StripAnyOfClean(r, cs);
  }

  /** A string whose first character is not in cs keeps that character first. */
  lemma StripAnyFirst(s: string, cs: set<char>)
    requires s != [] && s[0] !in cs
    ensures StripAny(s, cs) != [] && StripAny(s, cs)[0] == s[0]
  {
    var t := RStripAny(s, cs);
    assert t != [] && t[0] == s[0];
  }

  /** A string that neither starts nor ends with a character of cs is its own strip. */
  lemma StripAnyOfClean(s: string, cs: set<char>)
    requires s != [] ==> s[0] !in cs && s[|s| - 1] !in cs
    ensures StripAny(s, cs) == s
  {
  }

  /** Characters of cs wrapped around a clean string are exactly what strip removes. */
  lemma StripAnyWrapped(pre: string, mid: string, post: string, cs: set<char>)
    requires forall c :: c in pre ==> c in cs
    requires forall c :: c in post ==> c in cs
    requires mid != [] ==> mid[0] !in cs && mid[|mid| - 1] !in cs
    ensures StripAny(pre + mid + post, cs) == mid
  {
    if mid == [] {
      var s := pre + mid + post;
      forall i | 0 <= i < |s| ensures s[i] in cs {
        assert s[i] in pre || s[i] in post;
      }
    } else {
      RStripWrapped(pre + mid, post, cs);
      LStripWrapped(pre, mid, cs);
    }
  }

  /** Characters of cs before a clean string are exactly what strip removes. */
  lemma StripAnyLeading(pre: string, mid: string, cs: set<char>)
    requires forall c :: c in pre ==> c in cs
    requires mid != [] && mid[0] !in cs && mid[|mid| - 1] !in cs
    ensures StripAny(pre + mid, cs) == mid
  {
    StripAnyWrapped(pre, mid, [], cs);
    assert pre + mid + [] == pre + mid;
  }

  /** Characters of cs after a clean string are exactly what strip removes. */
  lemma StripAnyTrailing(mid: string, post: string, cs: set<char>)
    requires forall c :: c in post ==> c in cs
    requires mid != [] && mid[0] !in cs && mid[|mid| - 1] !in cs
    ensures StripAny(mid + post, cs) == mid
  {
    StripAnyWrapped([], mid, post, cs);
    assert [] + mid + post == mid + post;
  }

  lemma {:induction false} RStripWrapped(a: string, post: string, cs: set<char>)
    requires forall c :: c in post ==> c in cs
    requires a != [] ==> a[|a| - 1] !in cs
    ensures RStripAny(a + post, cs) == a
    decreases |post|
  {
    if post != [] {
      var p := post[..|post| - 1];
      assert (a + post)[..|a + post| - 1] == a + p;
      assert post[|post| - 1] in post;
      RStripWrapped(a, p, cs);
    } else {
      assert a + post == a;
    }
  }

  lemma {:induction false} LStripWrapped(pre: string, b: string, cs: set<char>)
    requires forall c :: c in pre ==> c in cs
    requires b != [] ==> b[0] !in cs
    ensures LStripAny(pre + b, cs) == b
    decreases |pre|
  {
    if pre != [] {
      assert (pre + b)[1..] == pre[1..] + b;
      assert pre[0] in pre;
      LStripWrapped(pre[1..], b, cs);
    } else {
      assert pre + b == b;
    }
  }

  // ---------------------------------------------------------------- prefixes, searching

  predicate StartsWith(s: string, p: string) { |p| <= |s| && s[..|p|] == p }

  predicate EndsWith(s: string, p: string) { |p| <= |s| && s[|s| - |p|..] == p }

  /** `pat in s` for a substring pattern. */
  predicate Contains(s: string, pat: string)
  {
    StartsWith(s, pat) || (s != [] && Contains(s[1..], pat))
  }

  /** s.split(pat)[0]: everything before the first occurrence of pat. */
  function Before(s: string, pat: string): (r: string)
    requires pat != []
    ensures StartsWith(s, r)
    ensures r == s || StartsWith(s[|r|..], pat)
    ensures Contains(s, pat) <==> r != s
  {
    if StartsWith(s, pat) then []
    else if s == [] then []
    else [s[0]] + Before(s[1..], pat)
  }

  /** Index of the first occurrence of character c. */
  function IndexOf(s: string, c: char): (k: nat)
    requires c in s
    ensures k < |s| && s[k] == c && c !in s[..k]
  {
    if s[0] == c then 0 else 1 + IndexOf(s[1..], c)
  }

  /** s.split(c, 1) for a character c that occurs in s. */
  function SplitOnce(s: string, c: char): (r: (string, string))
    requires c in s
    ensures c !in r.0
    ensures s == r.0 + [c] + r.1
  {
    var k := IndexOf(s, c);
    assert s == s[..k] + [c] + s[k + 1..];
    (s[..k], s[k + 1..])
  }

  /** Splitting at the first c finds the c that follows a c-free prefix. */
  lemma SplitOnceAt(a: string, c: char, b: string)
    requires c !in a
    ensures SplitOnce(a + [c] + b, c) == (a, b)
  {
    var s := a + [c] + b;
    var k := IndexOf(s, c);
    assert s[|a|] == c;
    assert forall i :: 0 <= i < |a| ==> s[i] == a[i];
    assert forall i :: 0 <= i < k ==> s[..k][i] == s[i];
    assert k == |a|;
    assert s[..k] == a;
    assert s[k + 1..] == b;
  }

  /** The piece of s after its first c, for a character c that occurs in s. */
  function After(s: string, c: char): (r: string)
    requires c in s
    ensures |r| < |s| && r == s[|s| - |r|..]
  {
    s[IndexOf(s, c) + 1..]
  }

  /** s.split(c) for a single character separator. */
  function Split(s: string, c: char): (r: seq<string>)
    ensures |r| >= 1
    ensures forall i :: 0 <= i < |r| ==> c !in r[i]
    ensures Join(r, [c]) == s
  {
    if c in s then
      var (a, b) := SplitOnce(s, c);
      [a] + Split(b, c)
    else [s]
  }

  /** Splitting a joined list at a separator that occurs in no part gives the parts back. */
  lemma {:induction false} JoinSplit(parts: seq<string>, c: char)
    requires |parts| >= 1
    requires forall i :: 0 <= i < |parts| ==> c !in parts[i]
    ensures Split(Join(parts, [c]), c) == parts
  {
    if |parts| > 1 {
      var rest := Join(parts[1..], [c]);
      JoinSplit(parts[1..], c);
      assert Join(parts, [c]) == parts[0] + [c] + rest;
      SplitOnceAt(parts[0], c, rest);
      assert parts == [parts[0]] + parts[1..];
    }
  }

  /** A part that strip() leaves alone and that holds no comma. */
  predicate CleanField(t: string)
  {
    t != [] && ',' !in t && t[0] !in Whitespace && t[|t| - 1] !in Whitespace
  }

  /** [s.strip() for s in parts] */
  function StripEach(parts: seq<string>): (r: seq<string>)
    ensures |r| == |parts| && forall i :: 0 <= i < |parts| ==> r[i] == Strip(parts[i])
  {
    seq(|parts|, i requires 0 <= i < |parts| => Strip(parts[i]))
  }

  /** Each part after the first, with the blank that ", " puts before it. */
  function Spaced(parts: seq<string>): (r: seq<string>)
    ensures |r| == |parts| && forall i :: 0 <= i < |parts| ==> r[i] == " " + parts[i]
  {
    seq(|parts|, i requires 0 <= i < |parts| => " " + parts[i])
  }

  /** Joining with ", " is joining with "," parts that carry a leading blank. */
  lemma {:induction false} JoinCommaSpace(ps: seq<string>)
    requires ps != []
    ensures " " + Join(ps, ", ") == Join(Spaced(ps), ",")
  {
    if |ps| > 1 {
      JoinCommaSpace(ps[1..]);
      assert Spaced(ps)[1..] == Spaced(ps[1..]);
      assert " " + Join(ps, ", ") == (" " + ps[0]) + "," + (" " + Join(ps[1..], ", "));
    }
  }

  lemma StripClean(t: string)
    requires CleanField(t)
    ensures Strip(t) == t
  {
    StripAnyOfClean(t, Whitespace);
  }

  /** The blank ", " leaves before a clean part is all that strip() removes. */
  lemma StripSpaced(t: string)
    requires CleanField(t)
    ensures Strip(" " + t) == t && ',' !in " " + t
  {
    StripAnyLeading(" ", t, Whitespace);
  }

  /** A list joined with ", " is its first part and the blank-prefixed rest joined with ",". */
  lemma JoinAsSpaced(ps: seq<string>)
    requires |ps| > 1
    ensures Join(ps, ", ") == Join([ps[0]] + Spaced(ps[1..]), ",")
  {
    var parts := [ps[0]] + Spaced(ps[1..]);
    JoinCommaSpace(ps[1..]);
    assert parts[1..] == Spaced(ps[1..]);
    assert Join(parts, ",") == ps[0] + "," + Join(Spaced(ps[1..]), ",");
  }

  /** A ", "-joined list of clean parts reads back by splitting at ',' and
      stripping each piece. */
  lemma ReadBackCommaList(ps: seq<string>)
    requires ps != []
    requires forall i :: 0 <= i < |ps| ==> CleanField(ps[i])
    ensures StripEach(Split(Join(ps, ", "), ',')) == ps
  {
    if |ps| == 1 {
      assert Join(ps, ", ") == ps[0];
      JoinSplit(ps, ',');
      StripClean(ps[0]);
    } else {
      var parts := [ps[0]] + Spaced(ps[1..]);
      JoinAsSpaced(ps);
      SpacedParts(ps);
      JoinSplit(parts, ',');
    }
  }

  lemma SpacedParts(ps: seq<string>)
    requires |ps| > 1
    requires forall i :: 0 <= i < |ps| ==> CleanField(ps[i])
    ensures var parts := [ps[0]] + Spaced(ps[1..]);
      |parts| == |ps| && StripEach(parts) == ps &&
      forall i :: 0 <= i < |parts| ==> ',' !in parts[i]
  {
    var parts := [ps[0]] + Spaced(ps[1..]);
    forall i | 0 <= i < |parts| ensures ',' !in parts[i] && Strip(parts[i]) == ps[i] {
      SpacedPart(ps, i);
    }
    assert StripEach(parts) == ps;
  }

  lemma SpacedPart(ps: seq<string>, i: int)
    requires 0 <= i < |ps| && CleanField(ps[i])
    ensures var parts := [ps[0]] + Spaced(ps[1..]);
      ',' !in parts[i] && Strip(parts[i]) == ps[i]
  {
    if i == 0 {
      StripClean(ps[0]);
    } else {
      assert ([ps[0]] + Spaced(ps[1..]))[i] == " " + ps[i];
      StripSpaced(ps[i]);
    }
  }

  /** The characters at which str.splitlines() breaks a line ("\r\n" counts as one
      break). */
  predicate IsLineBreak(c: char)
  {
    c == '\n' || c == '\r' || c == '\U{0B}' || c == '\U{0C}' || c == '\U{1C}' || c == '\U{1D}' || c == '\U{1E}'
    || c == '\U{85}' || c == '\U{2028}' || c == '\U{2029}'
  }

  /** The length of the first line of s: the index of its first line break, or |s|. */
  function LineEnd(s: string): (k: nat)
    ensures k <= |s|
  {
    if s == [] || IsLineBreak(s[0]) then 0 else 1 + LineEnd(s[1..])
  }

  /** What follows the first line break of s ("\r\n" being one break). */
  function AfterBreak(s: string): (r: string)
    requires LineEnd(s) < |s|
    ensures |r| < |s|
  {
    var k := LineEnd(s);
    if s[k] == '\r' && k + 1 < |s| && s[k + 1] == '\n' then s[k + 2..] else s[k + 1..]
  }

  /** str.splitlines(): the lines of s without their breaks; a break at the very
      end opens no further line, and the empty string has no lines. */
  function SplitLines(s: string): seq<string>
    decreases |s|
  {
    if s == [] then []
    else if LineEnd(s) == |s| then [s]
    else [s[..LineEnd(s)]] + SplitLines(AfterBreak(s))
  }

  /** Lines without breaks, joined by '\n', are split back into themselves, as long
      as the last one is not empty (a trailing '\n' opens no line). */
  lemma {:induction false} SplitLinesJoin(lines: seq<string>)
    requires lines != [] && lines[|lines| - 1] != []
    requires forall i, j :: 0 <= i < |lines| && 0 <= j < |lines[i]| ==> !IsLineBreak(lines[i][j])
    ensures SplitLines(Join(lines, "\n")) == lines
  {
    var first := lines[0];
    if |lines| == 1 {
      FirstLineEnd(first, []);
      assert first + [] == first;
    } else {
      var rest := Join(lines[1..], "\n");
      var s := first + ("\n" + rest);
      assert Join(lines, "\n") == s;
      FirstLineEnd(first, "\n" + rest);
      assert s[|first|] == '\n' && s[..|first|] == first;
      assert s[|first| + 1..] == rest;
      SplitLinesJoin(lines[1..]);
      assert lines == [first] + lines[1..];
    }
  }

  /** The first line of a text is the run before its first break. */
  lemma {:induction false} FirstLineEnd(first: string, tail: string)
    requires forall j :: 0 <= j < |first| ==> !IsLineBreak(first[j])
    requires tail != [] ==> IsLineBreak(tail[0])
    ensures LineEnd(first + tail) == |first|
    decreases |first|
  {
    if first != [] {
      assert (first + tail)[1..] == first[1..] + tail;
      FirstLineEnd(first[1..], tail);
    } else {
      assert first + tail == tail;
    }
  }

  /** sep.join(parts) */
  function Join(parts: seq<string>, sep: string): string
  {
    if parts == [] then []
    else if |parts| == 1 then parts[0]
    else parts[0] + sep + Join(parts[1..], sep)
  }

  /** s.replace(pat, rep): every non-overlapping occurrence of pat, scanned left
      to right, is replaced by rep. */
  function Replace(s: string, pat: string, rep: string): string
    requires pat != []
    decreases |s|
  {
    if s == [] then []
    else if StartsWith(s, pat) then rep + Replace(s[|pat|..], pat, rep)
    else [s[0]] + Replace(s[1..], pat, rep)
  }

  /** Replacing a single character, one character at a time. */
  lemma ReplaceCharCons(s: string, c: char, rep: string)
    requires s != []
    ensures Replace(s, [c], rep) == (if s[0] == c then rep else [s[0]]) + Replace(s[1..], [c], rep)
  {
    assert StartsWith(s, [c]) <==> s[0] == c by {
      assert s[..1] == [s[0]];
    }
  }

  /** Replacing a single character distributes over concatenation. */
  lemma {:induction false} ReplaceCharAppend(a: string, b: string, c: char, rep: string)
    ensures Replace(a + b, [c], rep) == Replace(a, [c], rep) + Replace(b, [c], rep)
    decreases |a|
  {
    if a == [] {
      assert a + b == b;
    } else {
      var t := a[1..];
      var head := if a[0] == c then rep else [a[0]];
      ReplaceCharAppend(t, b, c, rep);
      assert (a + b)[0] == a[0];
      assert (a + b)[1..] == t + b;
      ReplaceCharCons(a + b, c, rep);
      ReplaceCharCons(a, c, rep);
      assert Replace(a + b, [c], rep) == head + (Replace(t, [c], rep) + Replace(b, [c], rep));
    }
  }

  /** Replacing a character that does not occur changes nothing. */
  lemma {:induction false} ReplaceAbsentChar(s: string, c: char, rep: string)
    requires c !in s
    ensures Replace(s, [c], rep) == s
    decreases |s|
  {
    if s != [] {
      ReplaceCharCons(s, c, rep);
      ReplaceAbsentChar(s[1..], c, rep);
      assert s == [s[0]] + s[1..];
    }
  }

  /** After replacing character c by a text without c, no c is left; and no
      character other than those of s and rep appears. */
  lemma {:induction false} ReplaceCharRemoves(s: string, c: char, rep: string, d: char)
    ensures c !in rep ==> c !in Replace(s, [c], rep)
    ensures d in Replace(s, [c], rep) ==> d in s || d in rep
    decreases |s|
  {
    if s != [] {
      ReplaceCharRemoves(s[1..], c, rep, d);
    }
  }

  /** Lower-casing commutes with replacing a character that has no case by a text without case. */
  lemma {:induction false} LowerReplaceChar(s: string, c: char, rep: string)
    requires !IsLetter(c)
    requires Lower(rep) == rep
    ensures Lower(Replace(s, [c], rep)) == Replace(Lower(s), [c], rep)
    decreases |s|
  {
    if s != [] {
      LowerReplaceChar(s[1..], c, rep);
      if s[0] == c {
        LowerAppend(rep, Replace(s[1..], [c], rep));
      } else {
        LowerAppend([s[0]], Replace(s[1..], [c], rep));
      }
    }
  }

  // ---------------------------------------------------------------- digits and numbers

  /** str.isdigit() on ASCII: non-empty and every character a digit. */
  predicate IsDigits(s: string)
  {
    s != [] && forall i :: 0 <= i < |s| ==> IsDigit(s[i])
  }

  function DigitValue(c: char): nat
    requires IsDigit(c)
  {
    c as int - '0' as int
  }

  /** int(s) for a string of ASCII digits. */
  function DigitsValue(s: string): nat
    requires forall i :: 0 <= i < |s| ==> IsDigit(s[i])
  {
    if s == [] then 0 else DigitsValue(s[..|s| - 1]) * 10 + DigitValue(s[|s| - 1])
  }

  /** str(n) for a natural number. */
  function NatText(n: nat): (r: string)
    ensures IsDigits(r)
    ensures DigitsValue(r) == n
  {
    var d := ['0' + (n % 10) as char];
    if n < 10 then d
    else
      var r := NatText(n / 10) + d;
      assert r[..|r| - 1] == NatText(n / 10);
      r
  }

  /** str(i) for an integer. */
  function IntText(i: int): string
  {
    if i < 0 then "-" + NatText(-i) else NatText(i)
  }
}
