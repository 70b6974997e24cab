/** language_getter.py, the text helpers: key normalisation, the split of a key
    into its base and trailing number, the matching template of an English
    text, and the parse of one `.strings` line. Regular expressions are written
    out as scanners over ASCII. */
module LanguageKeys {
  import opened Text
  import opened Values

  /** The tags kept through the cleanup (TAGS_TO_PRESERVE). */
  const PreservedTag: string := "new-game-plus"

  const Separators: set<char> := {'-', '_'}

  // ---------------------------------------------------------------- norm_key

  /** re.sub(r"[-_]+", "_", s): every maximal run of '-' and '_' becomes one '_'. */
  function CollapseSeparators(s: string): (r: string)
    ensures r == [] <==> s == []
    ensures r != [] ==> r[0] == s[0] || (r[0] == '_' && s[0] in Separators)
    decreases |s|
  {
    if s == [] then []
    else if s[0] in Separators then "_" + CollapseSeparators(LStripAny(s[1..], Separators))
    else [s[0]] + CollapseSeparators(s[1..])
  }

  /** What lstrip leaves ends as the input does; when it leaves nothing, every
      character was stripped. */
  lemma LStripTail(s: string, cs: set<char>)
    ensures var r := LStripAny(s, cs);
      && (r == [] ==> forall i :: 0 <= i < |s| ==> s[i] in cs)
      && (r != [] ==> r[|r| - 1] == s[|s| - 1])
  {
  }

  /** No '-' and no two '_' in a row: what CollapseSeparators produces. */
  predicate Collapsed(s: string)
  {
    '-' !in s && forall i :: 0 <= i < |s| - 1 ==> !(s[i] == '_' && s[i + 1] == '_')
  }

  lemma {:induction false} CollapseResult(s: string)
    ensures Collapsed(CollapseSeparators(s))
    decreases |s|
  {
    if s != [] {
      var r := CollapseSeparators(s);
      if s[0] in Separators {
        var rest := LStripAny(s[1..], Separators);
        CollapseResult(rest);
        var t := CollapseSeparators(rest);
        assert r == "_" + t;
        assert t != [] ==> t[0] != '_';
        forall i | 0 <= i < |r| - 1 ensures !(r[i] == '_' && r[i + 1] == '_') {
          if i > 0 {
            assert r[i] == t[i - 1] && r[i + 1] == t[i];
          }
        }
      } else {
        CollapseResult(s[1..]);
        var t := CollapseSeparators(s[1..]);
        assert r == [s[0]] + t;
        forall i | 0 <= i < |r| - 1 ensures !(r[i] == '_' && r[i + 1] == '_') {
          if i > 0 {
            assert r[i] == t[i - 1] && r[i + 1] == t[i];
          }
        }
      }
    }
  }

  /** The collapse brings in no character but '_'. */
  lemma {:induction false} CollapseChars(s: string)
    ensures forall i :: 0 <= i < |CollapseSeparators(s)| ==> CollapseSeparators(s)[i] == '_' || CollapseSeparators(s)[i] in s
    decreases |s|
  {
    if s != [] {
      var r := CollapseSeparators(s);
      if s[0] in Separators {
        var rest := LStripAny(s[1..], Separators);
        CollapseChars(rest);
        forall c | c in rest ensures c in s {
          var j :| 0 <= j < |rest| && rest[j] == c;
          assert rest[j] == s[1..][|s[1..]| - |rest| + j];
        }
      } else {
        CollapseChars(s[1..]);
      }
    }
  }

  /** The collapse ends as its input does, or with the '_' of a final run. */
  lemma {:induction false} CollapseLast(s: string)
    ensures var r := CollapseSeparators(s);
      r != [] ==> r[|r| - 1] == s[|s| - 1] || (r[|r| - 1] == '_' && s[|s| - 1] in Separators)
    decreases |s|
  {
    if s != [] {
      if s[0] in Separators {
        var rest := LStripAny(s[1..], Separators);
        LStripTail(s[1..], Separators);
        CollapseLast(rest);
      } else {
        CollapseLast(s[1..]);
      }
    }
  }

  /** A string changes under the collapse exactly when it has a '-' or a doubled '_'. */
  lemma CollapseFixpoint(s: string)
    ensures CollapseSeparators(s) == s <==> Collapsed(s)
  {
    CollapseResult(s);
    if Collapsed(s) {
      CollapseOfCollapsed(s);
    }
  }

  lemma {:induction false} CollapseOfCollapsed(s: string)
    requires Collapsed(s)
    ensures CollapseSeparators(s) == s
    decreases |s|
  {
    if s != [] {
      var tail := s[1..];
      assert Collapsed(tail) by {
        forall i | 0 <= i < |tail| - 1 ensures !(tail[i] == '_' && tail[i + 1] == '_') {
          assert tail[i] == s[i + 1] && tail[i + 1] == s[i + 2];
        }
      }
      CollapseOfCollapsed(tail);
      if s[0] in Separators {
        assert tail == [] || tail[0] !in Separators by {
          assert s[0] == '_';
          if tail != [] {
            assert tail[0] == s[1];
          }
        }
        assert LStripAny(tail, Separators) == tail;
      }
      assert s == [s[0]] + tail;
    }
  }

  /** norm_key */
  function NormKey(k: string): string
  {
    if k == [] then [] else CollapseSeparators(Lower(Strip(k)))
  }

  /** Neither starts nor ends with whitespace. */
  predicate Trimmed(s: string)
  {
    s != [] ==> s[0] !in Whitespace && s[|s| - 1] !in Whitespace
  }

  /** What norm_key returns is trimmed... */
  lemma NormKeyTrimmed(k: string)
    ensures Trimmed(NormKey(k))
  {
    if k != [] {
      var l := Lower(Strip(k));
      LowerStripClean(k);
      assert forall i :: 0 <= i < |l| ==> !IsUpperChar(l[i]);
      CollapseClean(l);
      assert NormKey(k) == CollapseSeparators(l);
    }
  }

  /** ... has no upper-case letter... */
  lemma NormKeyLowerCase(k: string)
    ensures forall i :: 0 <= i < |NormKey(k)| ==> !IsUpperChar(NormKey(k)[i])
  {
    if k != [] {
      LowerStripClean(k);
      CollapseClean(Lower(Strip(k)));
    }
  }

  /** ... and has no '-' and no doubled '_'. */
  lemma NormKeyCollapsed(k: string)
    ensures Collapsed(NormKey(k))
  {
    if k != [] {
      CollapseResult(Lower(Strip(k)));
    }
  }

  lemma LowerStripClean(k: string)
    ensures Trimmed(Lower(Strip(k)))
  {
    var t := Strip(k);
    var l := Lower(t);
    StripAnyShape(k, Whitespace);
    if t != [] {
      assert l[0] == LowerChar(t[0]);
      assert l[|l| - 1] == LowerChar(t[|t| - 1]);
      LowerKeepsNonSpace(t[0]);
      LowerKeepsNonSpace(t[|t| - 1]);
    }
  }

  lemma CollapseClean(l: string)
    requires Trimmed(l)
    requires forall i :: 0 <= i < |l| ==> !IsUpperChar(l[i])
    ensures Trimmed(CollapseSeparators(l))
    ensures forall i :: 0 <= i < |CollapseSeparators(l)| ==> !IsUpperChar(CollapseSeparators(l)[i])
  {
    var n := CollapseSeparators(l);
    assert '_' !in Whitespace;
    CollapseChars(l);
    CollapseLast(l);
    forall i | 0 <= i < |n| ensures !IsUpperChar(n[i]) {
      if n[i] != '_' {
        var j :| 0 <= j < |l| && l[j] == n[i];
      }
    }
  }

  lemma LowerKeepsNonSpace(c: char)
    requires c !in Whitespace
    ensures LowerChar(c) !in Whitespace
  {
    if IsUpperChar(c) {
      assert IsLowerChar(LowerChar(c));
    }
  }

  /** A normalised key is its own normal form. */
  lemma NormKeyIdempotent(k: string)
    ensures NormKey(NormKey(k)) == NormKey(k)
  {
    var n := NormKey(k);
    if n != [] {
      NormKeyTrimmed(k);
      NormKeyLowerCase(k);
      NormKeyCollapsed(k);
      StripAnyOfClean(n, Whitespace);
      LowerOfLower(n);
      CollapseFixpoint(n);
    }
  }

  // ---------------------------------------------------------------- key_base_and_num

  /** The length of the longest run of digits at the end of s. */
  function TrailingDigitCount(s: string): (n: nat)
    ensures n <= |s|
    ensures forall i :: |s| - n <= i < |s| ==> IsDigit(s[i])
    ensures n < |s| ==> !IsDigit(s[|s| - n - 1])
  {
    if s != [] && IsDigit(s[|s| - 1]) then TrailingDigitCount(s[..|s| - 1]) + 1 else 0
  }

  datatype KeyParts = KeyParts(base: string, digits: Option<string>)

  /** re.match(r"^(.*?)(\d+)$", nk). The lazy base takes the shortest prefix, so
      the digits are the whole trailing run; '.' does not cross a line break, so a
      base holding '\n' is no match and nk comes back whole. */
  function SplitTrailingDigits(nk: string): (r: KeyParts)
    ensures r.digits.Some? ==>
      && r.base + r.digits.value == nk
      && IsDigits(r.digits.value)
      && (r.base == [] || !IsDigit(r.base[|r.base| - 1]))
    ensures r.digits.None? ==> r.base == nk
    ensures r.digits.None? <==> TrailingDigitCount(nk) == 0 || '\n' in nk[..|nk| - TrailingDigitCount(nk)]
  {
    var n := TrailingDigitCount(nk);
    var base := nk[..|nk| - n];
    assert nk == base + nk[|nk| - n..];
    if n > 0 && '\n' !in base then KeyParts(base, Some(nk[|nk| - n..])) else KeyParts(nk, None)
  }

  /** key_base_and_num */
  function KeyBaseAndNum(k: string): KeyParts
  {
    SplitTrailingDigits(NormKey(k))
  }

  /** 'mage19' splits into its base and its number. */
  lemma KeyBaseAndNumExample()
    ensures SplitTrailingDigits("mage19") == KeyParts("mage", Some("19"))
  {
    var s := "mage19";
    assert s[..|s| - 1] == "mage1";
    assert "mage1"[..4] == "mage";
    assert TrailingDigitCount("mage") == 0;
    assert TrailingDigitCount(s) == 2;
    assert s[..4] == "mage" && s[4..] == "19";
  }

  // ---------------------------------------------------------------- normalize_string

  predicate IsNumChar(c: char) { IsDigit(c) || c == '.' }

  /** The length of the run [\d\.]+ at the start of s. */
  function NumberRun(s: string): (n: nat)
    ensures n <= |s|
    ensures forall i :: 0 <= i < n ==> IsNumChar(s[i])
    ensures n < |s| ==> !IsNumChar(s[n])
  {
    if s != [] && IsNumChar(s[0]) then NumberRun(s[1..]) + 1 else 0
  }

  /** The length of the tag <[^>]+> at the start of s, if one starts there: a '<',
      one or more characters other than '>', then the first '>'. */
  function TagAt(s: string): (r: Option<nat>)
    ensures r.Some? ==> 3 <= r.value <= |s| && s[0] == '<' && s[r.value - 1] == '>'
    ensures r.Some? ==> forall i :: 1 <= i < r.value - 1 ==> s[i] != '>'
  {
    if s != [] && s[0] == '<' && '>' in s[1..] then
      var j := IndexOf(s[1..], '>') + 1;
      assert forall i :: 1 <= i < j ==> s[i] == s[1..][..j - 1][i - 1];
      if j >= 2 then Some(j + 1) else None
    else None
  }

  /** tag.strip("<>") */
  function TagContent(tag: string): string
  {
    StripAny(tag, {'<', '>'})
  }

  /** The replacer's answer for a tag: a placeholder for number tags and the
      preserved tag, nothing for the others. */
  function TagReplacement(tag: string): string
  {
    var content := TagContent(tag);
    if StartsWith(content, "number") || content == PreservedTag then "<ph>" else ""
  }

  /** re.sub(r"([\d\.]+)|(<[^>]+>)", replacer, s), scanning left to right. */
  function Template(s: string): (r: string)
    ensures forall i :: 0 <= i < |r| ==> !IsNumChar(r[i])
    decreases |s|
  {
    if s == [] then []
    else if IsNumChar(s[0]) then
      var n := NumberRun(s);
      "<ph>" + Template(s[n..])
    else
      match TagAt(s)
      case Some(n) => TagReplacement(s[..n]) + Template(s[n..])
      case None => [s[0]] + Template(s[1..])
  }

  /** normalize_string */
  function NormalizeString(text: string): string
  {
    Template(Replace(RStripAny(Strip(Lower(text)), {'.', ';'}), "\\%", "%"))
  }

  /** A text without numerals and without '<' is its own template. */
  lemma {:induction false} TemplatePlain(s: string)
    requires forall i :: 0 <= i < |s| ==> !IsNumChar(s[i]) && s[i] != '<'
    ensures Template(s) == s
    decreases |s|
  {
    if s != [] {
      TemplatePlain(s[1..]);
    }
  }

  /** A run of digits and dots, however long, becomes one placeholder. */
  lemma NumberIsPlaceholder(run: string, rest: string)
    requires run != [] && forall i :: 0 <= i < |run| ==> IsNumChar(run[i])
    requires rest == [] || !IsNumChar(rest[0])
    ensures Template(run + rest) == "<ph>" + Template(rest)
  {
    var s := run + rest;
    assert NumberRun(s) == |run| by {
      NumberRunOf(run, rest);
    }
    assert s[|run|..] == rest;
  }

  lemma {:induction false} NumberRunOf(run: string, rest: string)
    requires forall i :: 0 <= i < |run| ==> IsNumChar(run[i])
    requires rest == [] || !IsNumChar(rest[0])
    ensures NumberRun(run + rest) == |run|
  {
    if run != [] {
      assert (run + rest)[1..] == run[1..] + rest;
      NumberRunOf(run[1..], rest);
    } else {
      assert run + rest == rest;
    }
  }

  /** A tag is replaced by its placeholder, or dropped, as one piece. */
  lemma TagIsReplaced(content: string, rest: string)
    requires content != [] && '>' !in content
    ensures Template("<" + content + ">" + rest) == TagReplacement("<" + content + ">") + Template(rest)
  {
    var tag := "<" + content + ">";
    var s := tag + rest;
    assert TagAt(s) == Some(|tag|) by {
      assert s[1..] == content + ">" + rest;
      assert IndexOf(s[1..], '>') == |content| by {
        assert s[1..][|content|] == '>';
        assert s[1..][..|content|] == content;
      }
    }
    assert !IsNumChar(s[0]);
    assert s[..|tag|] == tag && s[|tag|..] == rest;
  }

  // ---------------------------------------------------------------- parse_line

  const Quotes: set<char> := {'\'', '"'}
  const ValueTrim: set<char> := {';', '\'', '"'}

  /** parse_line: no '=' or a comment gives None; otherwise the key and value on
      either side of the first '=', trimmed, and stripped of quotes (and of ';'
      for the value). */
  function ParseLine(line: string): Option<(string, string)>
  {
    if '=' !in line || StartsWith(Strip(line), "#") then None
    else
      var (k, v) := SplitOnce(line, '=');
      Some((StripAny(Strip(k), Quotes), StripAny(Strip(v), ValueTrim)))
  }

  /** The key never holds '=': the split is at the first one. */
  lemma ParseLineKey(line: string)
    ensures ParseLine(line).Some? ==> '=' !in ParseLine(line).value.0
  {
    if ParseLine(line).Some? && '=' in ParseLine(line).value.0 {
      var k := SplitOnce(line, '=').0;
      StripAnyKeeps(Strip(k), Quotes, '=');
      StripAnyKeeps(k, Whitespace, '=');
    }
  }

  /** A key and value that need no trimming come back from their own line. */
  lemma ParseLineRoundTrip(k: string, v: string)
    requires '=' !in k
    requires k != [] ==> k[0] !in Whitespace && k[0] !in Quotes && k[0] != '#'
    requires k != [] ==> k[|k| - 1] !in Whitespace && k[|k| - 1] !in Quotes
    requires v != [] ==> v[0] !in Whitespace && v[0] !in ValueTrim
    requires v != [] ==> v[|v| - 1] !in Whitespace && v[|v| - 1] !in ValueTrim
    ensures ParseLine(k + "=" + v) == Some((k, v))
  {
    var line := k + "=" + v;
    assert line[|k|] == '=';
    SplitOnceAt(k, '=', v);
    StripAnyOfClean(k, Whitespace);
    StripAnyOfClean(k, Quotes);
    StripAnyOfClean(v, Whitespace);
    StripAnyOfClean(v, ValueTrim);
    StripAnyFirst(line, Whitespace);
    var stripped := Strip(line);
    assert stripped[0] != '#';
    assert !StartsWith(stripped, "#") by {
      assert stripped[..1][0] == stripped[0];
    }
    assert '=' in line;
  }
}
