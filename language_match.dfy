/** language_getter.py, the matching pass of main(): for every string of
    strings.xml, find an English anchor, look a translation up in each target
    language through four fallbacks, put the original numbers back into the
    translated template, clean it and escape it for an Android resource file;
    strings no language translates go, escaped, to the unmatched file. */
module LanguageMatch {
  import opened Text
  import opened Values
  import opened Sorting
  import opened LanguageKeys
  import opened LanguageDb

  // ---------------------------------------------------------------- xml_data

  /** The tag the xml text keeps for re-injection. */
  const PreservedTagText: string := "<new-game-plus>"

  /** A string of strings.xml, as xml_data holds it: its name, its text, and the
      numbers and tags to put back into a translation. */
  datatype XmlString = XmlString(name: string, text: string, inject: seq<string>)

  /** re.findall(r"[\d\.]+|<new-game-plus>", text): the number runs and the
      preserved tags, in order. */
  function Injects(s: string): (r: seq<string>)
    decreases |s|
  {
    if s == [] then []
    else if IsNumChar(s[0]) then
      var n := NumberRun(s);
      [s[..n]] + Injects(s[n..])
    else if s[0] == '<' && StartsWith(s, PreservedTagText) then [PreservedTagText] + Injects(s[|PreservedTagText|..])
    else Injects(s[1..])
  }

  /** The same scan with the capturing group the source writes,
      r"[\d\.]+|(<new-game-plus>)": findall then returns the group, which is
      empty for every number. */
  function InjectsAsWritten(s: string): (r: seq<string>)
    decreases |s|
  {
    if s == [] then []
    else if IsNumChar(s[0]) then
      var n := NumberRun(s);
      [""] + InjectsAsWritten(s[n..])
    else if s[0] == '<' && StartsWith(s, PreservedTagText) then [PreservedTagText] + InjectsAsWritten(s[|PreservedTagText|..])
    else InjectsAsWritten(s[1..])
  }

  /** A number run of the text, or the preserved tag. */
  predicate Injectable(x: string)
  {
    x == PreservedTagText || (x != [] && forall i :: 0 <= i < |x| ==> IsNumChar(x[i]))
  }

  /** The entry of xml_data for one <string name=...> element. */
  function MakeXmlString(name: string, raw: string): (r: XmlString)
    ensures r.name == name
    ensures forall j :: 0 <= j < |r.inject| ==> Injectable(r.inject[j])
  {
    var text := Replace(Strip(raw), "\\'", "'");
    InjectsAreInjectable(text);
    XmlString(name, text, Injects(text))
  }

  /** What is found is a number run or the preserved tag. */
  lemma {:induction false} InjectsAreInjectable(s: string)
    ensures forall j :: 0 <= j < |Injects(s)| ==> Injectable(Injects(s)[j])
    decreases |s|
  {
    if s != [] {
      if IsNumChar(s[0]) {
        InjectsAreInjectable(s[NumberRun(s)..]);
      } else if s[0] == '<' && StartsWith(s, PreservedTagText) {
        InjectsAreInjectable(s[|PreservedTagText|..]);
      } else {
        InjectsAreInjectable(s[1..]);
      }
    }
  }

  /** The group the source captures keeps the tags and blanks every number: the
      as-written scan is the intended one with each number replaced by "". */
  lemma {:induction false} InjectsAsWrittenBlanksNumbers(s: string)
    ensures |InjectsAsWritten(s)| == |Injects(s)|
    ensures forall j :: 0 <= j < |Injects(s)| ==>
      InjectsAsWritten(s)[j] == if Injects(s)[j] == PreservedTagText then PreservedTagText else ""
    decreases |s|
  {
    if s != [] {
      if IsNumChar(s[0]) {
        var n := NumberRun(s);
        InjectsAsWrittenBlanksNumbers(s[n..]);
        assert s[..n] != PreservedTagText by {
          assert IsNumChar(s[..n][0]);
        }
      } else if s[0] == '<' && StartsWith(s, PreservedTagText) {
        InjectsAsWrittenBlanksNumbers(s[|PreservedTagText|..]);
      } else {
        InjectsAsWrittenBlanksNumbers(s[1..]);
      }
    }
  }

  /** Text without digits, dots or '<' holds nothing to capture. */
  lemma {:induction false} InjectsPlainPrefix(a: string, b: string)
    requires forall i :: 0 <= i < |a| ==> !IsNumChar(a[i]) && a[i] != '<'
    ensures Injects(a + b) == Injects(b)
    ensures InjectsAsWritten(a + b) == InjectsAsWritten(b)
    decreases |a|
  {
    if a == [] {
      assert a + b == b;
    } else {
      assert (a + b)[0] == a[0];
      assert (a + b)[1..] == a[1..] + b;
      assert !StartsWith(a + b, PreservedTagText) by {
        if |PreservedTagText| <= |a + b| {
          assert (a + b)[..|PreservedTagText|][0] == a[0];
          assert PreservedTagText[0] == '<';
        }
      }
      forall i | 0 <= i < |a[1..]| ensures !IsNumChar(a[1..][i]) && a[1..][i] != '<' {
        assert a[1..][i] == a[i + 1];
      }
      InjectsPlainPrefix(a[1..], b);
    }
  }

  /** A number followed by plain text: the intended scan finds the number, the
      as-written one finds "". */
  lemma InjectsNumberThenPlain(num: string, post: string)
    requires forall i :: 0 <= i < |post| ==> !IsNumChar(post[i]) && post[i] != '<'
    requires num != [] && forall i :: 0 <= i < |num| ==> IsNumChar(num[i])
    ensures Injects(num + " " + post) == [num]
    ensures InjectsAsWritten(num + " " + post) == [""]
  {
    var rest := num + " " + post;
    var tail := " " + post;
    assert rest[..|num|] == num;
    assert rest[|num|..] == tail;
    assert tail + [] == tail;
    forall i | 0 <= i < |tail| ensures !IsNumChar(tail[i]) && tail[i] != '<' {
      if i > 0 {
        assert tail[i] == post[i - 1];
      }
    }
    InjectsPlainPrefix(tail, []);
    NumberRunOfSpaced(num, post);
  }

  /** "Deals 10 damage": the number the comment means to capture comes back as "". */
  lemma InjectsAsWrittenLosesNumber()
    ensures InjectsAsWritten("Deals 10 damage") == [""]
    ensures Injects("Deals 10 damage") == ["10"]
  {
    var rest := "10" + " " + "damage";
    assert "Deals " + rest == "Deals 10 damage";
    InjectsNumberThenPlain("10", "damage");
    InjectsPlainPrefix("Deals ", rest);
  }

  /** A run of numbers separated by spaces is found back whole and in order. */
  lemma {:induction false} InjectsOfNumbers(nums: seq<string>)
    requires forall j :: 0 <= j < |nums| ==> nums[j] != [] && forall i :: 0 <= i < |nums[j]| ==> IsNumChar(nums[j][i])
    ensures Injects(Spaced(nums)) == nums
  {
    if nums != [] {
      var x := nums[0];
      var rest := Spaced(nums[1..]);
      InjectsOfNumbers(nums[1..]);
      var s := x + " " + rest;
      NumberRunOfSpaced(x, rest);
      assert s[..|x|] == x;
      assert s[|x|..] == " " + rest;
      assert (" " + rest)[1..] == rest;
    }
  }

  /** The numbers, each followed by a space. */
  function Spaced(nums: seq<string>): string
  {
    if nums == [] then [] else nums[0] + " " + Spaced(nums[1..])
  }

  lemma {:induction false} NumberRunOfSpaced(x: string, rest: string)
    requires x != [] && forall i :: 0 <= i < |x| ==> IsNumChar(x[i])
    ensures NumberRun(x + " " + rest) == |x|
    decreases |x|
  {
    if |x| > 1 {
      NumberRunOfSpaced(x[1..], rest);
      assert (x + " " + rest)[1..] == x[1..] + " " + rest;
    } else {
      assert (x + " " + rest)[1..] == " " + rest;
    }
  }

  /** A <string> element of strings.xml: its name attribute and its text, each
      read as "" when the element has none. */
  datatype XmlElement = XmlElement(name: string, raw: string)

  /** The names of the entries, in order. */
  function Names(data: seq<XmlString>): seq<string>
  {
    seq(|data|, j requires 0 <= j < |data| => data[j].name)
  }

  /** The position of the entry called name, or |data| when there is none. */
  function NameIndex(data: seq<XmlString>, name: string): (k: nat)
    ensures k <= |data|
    ensures k < |data| ==> data[k].name == name
    ensures forall j :: 0 <= j < k ==> data[j].name != name
  {
    if data == [] then 0
    else if data[0].name == name then 0
    else 1 + NameIndex(data[1..], name)
  }

  /** xml_data[name] = entry: a name already present keeps its place and takes
      the new entry; a new name goes last. */
  function Put(data: seq<XmlString>, x: XmlString): seq<XmlString>
  {
    var k := NameIndex(data, x.name);
    if k < |data| then data[k := x] else data + [x]
  }

  /** xml_data after the loop over root.findall("string"): an element without a
      name is skipped, every other one is stored under its name. */
  function XmlData(elems: seq<XmlElement>): seq<XmlString>
  {
    if elems == [] then []
    else
      var e := elems[|elems| - 1];
      var data := XmlData(elems[..|elems| - 1]);
      if e.name == "" then data else Put(data, MakeXmlString(e.name, e.raw))
  }

  /** The loop over root.findall("string") that fills xml_data. */
  method LoadXmlData(elems: seq<XmlElement>) returns (data: seq<XmlString>)
    ensures data == XmlData(elems)
  {
    data := [];
    var i := 0;
    while i < |elems|
      invariant 0 <= i <= |elems|
      invariant data == XmlData(elems[..i])
    {
      assert elems[..i + 1][..i] == elems[..i];
      var e := elems[i];
      if e.name != "" {
        data := Put(data, MakeXmlString(e.name, e.raw));
      }
      i := i + 1;
    }
    WholePrefix(elems);
  }

  /** The keys of a dict: non-empty here, and each held once. */
  predicate KeyedByName(data: seq<XmlString>)
  {
    (forall j :: 0 <= j < |data| ==> data[j].name != "") &&
    (forall i, j :: 0 <= i < j < |data| ==> data[i].name != data[j].name)
  }

  /** The raw text of the last element called name, if any. */
  function LastRaw(elems: seq<XmlElement>, name: string): Option<string>
  {
    if elems == [] then None
    else if elems[|elems| - 1].name == name then Some(elems[|elems| - 1].raw)
    else LastRaw(elems[..|elems| - 1], name)
  }

  /** The non-empty names of the elements, each at its first occurrence. */
  function FirstNames(elems: seq<XmlElement>): seq<string>
  {
    if elems == [] then []
    else
      var e := elems[|elems| - 1];
      var names := FirstNames(elems[..|elems| - 1]);
      if e.name == "" || e.name in names then names else names + [e.name]
  }

  /** Storing under a name keeps the keys distinct and non-empty. */
  lemma PutKeyed(data: seq<XmlString>, x: XmlString)
    requires KeyedByName(data) && x.name != ""
    ensures KeyedByName(Put(data, x))
    ensures Names(Put(data, x)) == if x.name in Names(data) then Names(data) else Names(data) + [x.name]
  {
    var k := NameIndex(data, x.name);
    assert k < |data| <==> x.name in Names(data) by {
      if k < |data| {
        assert Names(data)[k] == x.name;
      }
      if x.name in Names(data) {
        var j :| 0 <= j < |data| && Names(data)[j] == x.name;
        assert data[j].name == x.name;
      }
    }
  }

  /** Storing x changes the entry of x's name only. */
  lemma PutLookup(data: seq<XmlString>, x: XmlString, name: string)
    requires KeyedByName(data)
    ensures var r := Put(data, x);
      NameIndex(r, name) < |r| <==> name == x.name || NameIndex(data, name) < |data|
    ensures var r := Put(data, x);
      NameIndex(r, name) < |r| ==>
        r[NameIndex(r, name)] == if name == x.name then x else data[NameIndex(data, name)]
  {
    var r := Put(data, x);
    var k := NameIndex(data, x.name);
    var m := NameIndex(data, name);
    var n := if k < |data| then k else |data|;
    assert r[n] == x;
    if name == x.name {
      assert NameIndex(r, name) <= n;
    }
    if name != x.name && m < |data| {
      assert r[m] == data[m];
      assert NameIndex(r, name) == m;
    }
    if name != x.name && m == |data| {
      forall j | 0 <= j < |r|
        ensures r[j].name != name
      {
        if j != n {
          assert r[j] == data[j];
        }
      }
    }
  }

  /** xml_data is a dict keyed by the non-empty names: its keys are distinct and
      non-empty, and they come in the order of their first occurrence. */
  lemma {:induction false} XmlDataKeys(elems: seq<XmlElement>)
    ensures KeyedByName(XmlData(elems))
    ensures Names(XmlData(elems)) == FirstNames(elems)
  {
    if elems != [] {
      var e := elems[|elems| - 1];
      XmlDataKeys(elems[..|elems| - 1]);
      if e.name != "" {
        PutKeyed(XmlData(elems[..|elems| - 1]), MakeXmlString(e.name, e.raw));
      }
    }
  }

  /** Every non-empty name of strings.xml has an entry, built from the text of
      the last element of that name; no other name has one. */
  lemma {:induction false} XmlDataLastWins(elems: seq<XmlElement>, name: string)
    requires name != ""
    ensures var data := XmlData(elems);
      NameIndex(data, name) < |data| <==> LastRaw(elems, name).Some?
    ensures var data := XmlData(elems);
      NameIndex(data, name) < |data| ==>
        data[NameIndex(data, name)] == MakeXmlString(name, LastRaw(elems, name).value)
  {
    if elems != [] {
      var e := elems[|elems| - 1];
      var init := elems[..|elems| - 1];
      XmlDataLastWins(init, name);
      XmlDataKeys(init);
      if e.name != "" {
        PutLookup(XmlData(init), MakeXmlString(e.name, e.raw), name);
      }
    }
  }

  // ---------------------------------------------------------------- re-injection

  /** re.sub(r"<[^>]+>", lambda m: next(it, m.group()), template): each tag of the
      template takes the next inject, in order; once they run out the tags stay. */
  function Reinject(s: string, inject: seq<string>): string
    decreases |s|
  {
    if s == [] then []
    else
      match TagAt(s)
      case Some(n) =>
        if inject != [] then inject[0] + Reinject(s[n..], inject[1..])
        else s[..n] + Reinject(s[n..], [])
      case None => [s[0]] + Reinject(s[1..], inject)
  }

  /** A character c absent from a text is absent from its tail. */
  lemma NotInTail(a: string, c: char)
    requires a != [] && c !in a
    ensures a[0] != c && c !in a[1..]
  {
    assert a[0] in a;
    forall i | 0 <= i < |a[1..]| ensures a[1..][i] != c {
      assert a[1..][i] == a[i + 1];
      assert a[i + 1] in a;
    }
  }

  lemma ReinjectPlainChar(s: string, inject: seq<string>)
    requires s != [] && s[0] != '<'
    ensures Reinject(s, inject) == [s[0]] + Reinject(s[1..], inject)
  {
    assert TagAt(s) == None;
  }

  /** Text before the first '<' is copied unchanged. */
  lemma {:induction false} ReinjectPlainPrefix(a: string, b: string, inject: seq<string>)
    requires '<' !in a
    ensures Reinject(a + b, inject) == a + Reinject(b, inject)
    decreases |a|
  {
    if a == [] {
      assert a + b == b;
    } else {
      NotInTail(a, '<');
      assert (a + b)[0] == a[0];
      assert (a + b)[1..] == a[1..] + b;
      ReinjectPlainChar(a + b, inject);
      ReinjectPlainPrefix(a[1..], b, inject);
      assert [a[0]] + (a[1..] + Reinject(b, inject)) == a + Reinject(b, inject);
    }
  }

  /** With nothing to inject the template comes back unchanged. */
  lemma {:induction false} ReinjectNothing(s: string)
    ensures Reinject(s, []) == s
    decreases |s|
  {
    if s != [] {
      match TagAt(s)
      case Some(n) =>
        ReinjectNothing(s[n..]);
        assert s == s[..n] + s[n..];
      case None =>
        ReinjectNothing(s[1..]);
    }
  }

  /** A tag at the start takes the next inject. */
  lemma ReinjectTag(tag: string, b: string, inject: seq<string>)
    requires TagAt(tag + b) == Some(|tag|)
    requires inject != []
    ensures Reinject(tag + b, inject) == inject[0] + Reinject(b, inject[1..])
  {
    assert (tag + b)[|tag|..] == b;
  }

  // ---------------------------------------------------------------- final cleanup

  /** re.sub(r"<[^>]+>", final_cleanup_replacer, s): tags whose content is a
      preserved tag stay, every other tag goes. */
  function DropDecorations(s: string): string
    decreases |s|
  {
    if s == [] then []
    else
      match TagAt(s)
      case Some(n) => (if TagContent(s[..n]) == PreservedTag then s[..n] else []) + DropDecorations(s[n..])
      case None => [s[0]] + DropDecorations(s[1..])
  }

  lemma DropPlainChar(s: string)
    requires s != [] && s[0] != '<'
    ensures DropDecorations(s) == [s[0]] + DropDecorations(s[1..])
  {
    assert TagAt(s) == None;
  }

  /** Text before the first '<' is kept. */
  lemma {:induction false} DropPlainPrefix(a: string, b: string)
    requires '<' !in a
    ensures DropDecorations(a + b) == a + DropDecorations(b)
    decreases |a|
  {
    if a == [] {
      assert a + b == b;
    } else {
      NotInTail(a, '<');
      assert (a + b)[0] == a[0];
      assert (a + b)[1..] == a[1..] + b;
      DropPlainChar(a + b);
      DropPlainPrefix(a[1..], b);
      assert [a[0]] + (a[1..] + DropDecorations(b)) == a + DropDecorations(b);
    }
  }

  /** A tag at the start stays exactly when its content is a preserved tag. */
  lemma DropTagAtStart(tag: string, b: string)
    requires TagAt(tag + b) == Some(|tag|)
    ensures DropDecorations(tag + b) == (if TagContent(tag) == PreservedTag then tag else []) + DropDecorations(b)
  {
    assert (tag + b)[..|tag|] == tag;
    assert (tag + b)[|tag|..] == b;
  }

  /** The first '>' after a '>'-free text. */
  lemma {:induction false} IndexOfAfter(a: string, c: char, b: string)
    requires c !in a
    ensures c in a + [c] + b && IndexOf(a + [c] + b, c) == |a|
    decreases |a|
  {
    var s := a + [c] + b;
    assert s[|a|] == c;
    if a != [] {
      assert a[0] in a;
      assert s[1..] == a[1..] + [c] + b;
      assert c !in a[1..] by {
        forall i | 0 <= i < |a[1..]| ensures a[1..][i] != c {
          assert a[1..][i] == a[i + 1];
          assert a[i + 1] in a;
        }
      }
      IndexOfAfter(a[1..], c, b);
    }
  }

  /** A '<', a non-empty text without '>', and a '>' make a tag. */
  lemma TagAtOf(content: string, b: string)
    requires content != [] && '>' !in content
    ensures TagAt("<" + content + ">" + b) == Some(|content| + 2)
  {
    var s := "<" + content + ">" + b;
    assert s[1..] == content + ['>'] + b;
    IndexOfAfter(content, '>', b);
  }

  /** The preserved tag survives the cleanup. */
  lemma DropKeepsPreserved(b: string)
    ensures DropDecorations(PreservedTagText + b) == PreservedTagText + DropDecorations(b)
  {
    assert PreservedTagText == "<" + PreservedTag + ">";
    assert '>' !in PreservedTag by {
      forall i | 0 <= i < |PreservedTag| ensures PreservedTag[i] != '>' {
      }
    }
    TagAtOf(PreservedTag, b);
    assert TagContent(PreservedTagText) == PreservedTag by {
      StripAnyWrapped("<", PreservedTag, ">", {'<', '>'});
    }
    DropTagAtStart(PreservedTagText, b);
  }

  // ---------------------------------------------------------------- escaping

  /** The escape of one character for a translation line: & first, then the
      quote, then the percent sign. */
  function EscapeChar(c: char): string
  {
    if c == '&' then "&amp;" else if c == '\'' then "\\'" else if c == '%' then "\\%" else [c]
  }

  /** .replace("&", "&amp;").replace("'", "\\'").replace("%", "\\%") */
  function Escape(s: string): string
  {
    Replace(Replace(Replace(s, "&", "&amp;"), "'", "\\'"), "%", "\\%")
  }

  /** The escape of one character for the unmatched file: &, <, >, then the quote. */
  function EscapeUnmatchedChar(c: char): string
  {
    if c == '&' then "&amp;" else if c == '<' then "&lt;" else if c == '>' then "&gt;"
    else if c == '\'' then "\\'" else [c]
  }

  /** .replace("&", "&amp;").replace("<", "&lt;").replace(">", "&gt;").replace("'", "\\'") */
  function EscapeUnmatched(s: string): string
  {
    Replace(Replace(Replace(Replace(s, "&", "&amp;"), "<", "&lt;"), ">", "&gt;"), "'", "\\'")
  }

  /** "&amp;", "&lt;" or "&gt;" at the start of s, by the letters between '&' and ';'. */
  predicate Entity(s: string, x: char, y: char, z: char)
  {
    |s| >= 4 && s[0] == '&' && s[1] == x && s[2] == y && (if z == ';' then s[3] == ';' else |s| >= 5 && s[3] == z && s[4] == ';')
  }

  /** A backslash escape of c at the start of s. */
  predicate Backslashed(s: string, c: char)
  {
    |s| >= 2 && s[0] == '\\' && s[1] == c
  }

  /** The text a translation line stands for: its three escapes read back, left
      to right. */
  function Unescape(s: string): string
    decreases |s|
  {
    if s == [] then []
    else if Entity(s, 'a', 'm', 'p') then "&" + Unescape(s[5..])
    else if Backslashed(s, '\'') then "'" + Unescape(s[2..])
    else if Backslashed(s, '%') then "%" + Unescape(s[2..])
    else [s[0]] + Unescape(s[1..])
  }

  /** The text an unmatched line stands for: its four escapes read back, left
      to right. */
  function UnescapeUnmatched(s: string): string
    decreases |s|
  {
    if s == [] then []
    else if Entity(s, 'a', 'm', 'p') then "&" + UnescapeUnmatched(s[5..])
    else if Entity(s, 'l', 't', ';') then "<" + UnescapeUnmatched(s[4..])
    else if Entity(s, 'g', 't', ';') then ">" + UnescapeUnmatched(s[4..])
    else if Backslashed(s, '\'') then "'" + UnescapeUnmatched(s[2..])
    else [s[0]] + UnescapeUnmatched(s[1..])
  }

  /** Replacing one character is the character-wise map. */
  lemma {:induction false} ReplaceCharIsMap(s: string, c: char, rep: string)
    ensures Replace(s, [c], rep) == Concat(s, (x: char) => if x == c then rep else [x])
    decreases |s|
  {
    var f := (x: char) => if x == c then rep else [x];
    if s != [] {
      var init := s[..|s| - 1];
      var last := s[|s| - 1];
      ReplaceCharIsMap(init, c, rep);
      assert s == init + [last];
      ReplaceCharAppend(init, [last], c, rep);
      assert Replace([last], [c], rep) == f(last) by {
        assert StartsWith([last], [c]) <==> last == c;
      }
    }
  }

  /** Replacing a character in a character-wise map replaces it in each piece. */
  lemma {:induction false} ReplaceCharOfMap(s: string, f: char -> string, c: char, rep: string)
    ensures Replace(Concat(s, f), [c], rep) == Concat(s, (x: char) => Replace(f(x), [c], rep))
    decreases |s|
  {
    if s != [] {
      var init := s[..|s| - 1];
      ReplaceCharOfMap(init, f, c, rep);
      ReplaceCharAppend(Concat(init, f), f(s[|s| - 1]), c, rep);
    }
  }

  /** The three replaces are the character-wise escape: no replacement text
      contains a character a later replace looks for. */
  lemma EscapeIsCharwise(s: string)
    ensures Escape(s) == Concat(s, EscapeChar)
  {
    var f1 := (x: char) => if x == '&' then "&amp;" else [x];
    ReplaceCharIsMap(s, '&', "&amp;");
    ReplaceCharOfMap(s, f1, '\'', "\\'");
    var f2 := (x: char) => Replace(f1(x), "'", "\\'");
    ReplaceCharOfMap(s, f2, '%', "\\%");
    var f3 := (x: char) => Replace(f2(x), "%", "\\%");
    forall x: char ensures f3(x) == EscapeChar(x) {
      EscapePieces(x);
    }
    ConcatSame(s, f3, EscapeChar);
  }

  lemma EscapePieces(x: char)
    ensures Replace(Replace(if x == '&' then "&amp;" else [x], "'", "\\'"), "%", "\\%") == EscapeChar(x)
  {
    if x == '&' {
      assert Replace("&amp;", "'", "\\'") == "&amp;" by { ReplaceAbsent("&amp;", '\'', "\\'"); }
      ReplaceAbsent("&amp;", '%', "\\%");
    } else if x == '\'' {
      assert Replace([x], "'", "\\'") == "\\'" by { assert StartsWith([x], "'"); }
      ReplaceAbsent("\\'", '%', "\\%");
    } else {
      ReplaceAbsent([x], '\'', "\\'");
      if x == '%' {
        assert StartsWith([x], "%");
      } else {
        ReplaceAbsent([x], '%', "\\%");
      }
    }
  }

  lemma EscapeUnmatchedIsCharwise(s: string)
    ensures EscapeUnmatched(s) == Concat(s, EscapeUnmatchedChar)
  {
    var f1 := (x: char) => if x == '&' then "&amp;" else [x];
    ReplaceCharIsMap(s, '&', "&amp;");
    ReplaceCharOfMap(s, f1, '<', "&lt;");
    var f2 := (x: char) => Replace(f1(x), "<", "&lt;");
    ReplaceCharOfMap(s, f2, '>', "&gt;");
    var f3 := (x: char) => Replace(f2(x), ">", "&gt;");
    ReplaceCharOfMap(s, f3, '\'', "\\'");
    var f4 := (x: char) => Replace(f3(x), "'", "\\'");
    forall x: char ensures f4(x) == EscapeUnmatchedChar(x) {
      EscapeUnmatchedPieces(x);
    }
    ConcatSame(s, f4, EscapeUnmatchedChar);
  }

  lemma EscapeUnmatchedPieces(x: char)
    ensures Replace(Replace(Replace(if x == '&' then "&amp;" else [x], "<", "&lt;"), ">", "&gt;"), "'", "\\'")
         == EscapeUnmatchedChar(x)
  {
    if x == '&' {
      EscapeAmpPiece();
    } else if x == '<' || x == '>' {
      EscapeAnglePiece(x);
    } else {
      EscapeOtherPiece(x);
    }
  }

  lemma EscapeAmpPiece()
    ensures Replace(Replace(Replace("&amp;", "<", "&lt;"), ">", "&gt;"), "'", "\\'") == "&amp;"
  {
    ReplaceAbsent("&amp;", '<', "&lt;");
    ReplaceAbsent("&amp;", '>', "&gt;");
    ReplaceAbsent("&amp;", '\'', "\\'");
  }

  lemma EscapeOtherPiece(x: char)
    requires x != '&' && x != '<' && x != '>'
    ensures Replace(Replace(Replace([x], "<", "&lt;"), ">", "&gt;"), "'", "\\'") == EscapeUnmatchedChar(x)
  {
    ReplaceAbsent([x], '<', "&lt;");
    ReplaceAbsent([x], '>', "&gt;");
    if x == '\'' {
      assert StartsWith([x], "'");
    } else {
      ReplaceAbsent([x], '\'', "\\'");
    }
  }

  lemma EscapeAnglePiece(x: char)
    requires x == '<' || x == '>'
    ensures Replace(Replace(Replace([x], "<", "&lt;"), ">", "&gt;"), "'", "\\'") == EscapeUnmatchedChar(x)
  {
    if x == '<' {
      assert Replace([x], "<", "&lt;") == "&lt;" by { assert StartsWith([x], "<"); }
      ReplaceAbsent("&lt;", '>', "&gt;");
      ReplaceAbsent("&lt;", '\'', "\\'");
    } else {
      ReplaceAbsent([x], '<', "&lt;");
      assert Replace([x], ">", "&gt;") == "&gt;" by { assert StartsWith([x], ">"); }
      ReplaceAbsent("&gt;", '\'', "\\'");
    }
  }

  /** Replacing a character that does not occur changes nothing. */
  lemma {:induction false} ReplaceAbsent(s: string, c: char, rep: string)
    requires c !in s
    ensures Replace(s, [c], rep) == s
    decreases |s|
  {
    if s != [] {
      NotInTail(s, c);
      ReplaceAbsent(s[1..], c, rep);
      assert s[..1] == [s[0]];
      assert Replace(s, [c], rep) == [s[0]] + Replace(s[1..], [c], rep);
      assert s == [s[0]] + s[1..];
    }
  }

  lemma {:induction false} ConcatSame(s: string, f: char -> string, g: char -> string)
    requires forall x :: f(x) == g(x)
    ensures Concat(s, f) == Concat(s, g)
    decreases |s|
  {
    if s != [] {
      ConcatSame(s[..|s| - 1], f, g);
    }
  }

  lemma ConcatFront<T, U>(t: seq<T>, f: T -> seq<U>)
    requires t != []
    ensures Concat(t, f) == f(t[0]) + Concat(t[1..], f)
  {
    assert t == [t[0]] + t[1..];
    ConcatAppend([t[0]], t[1..], f);
    ConcatOne(t[0], f);
  }

  /** Reading back one escaped character, then the rest. */
  lemma UnescapeChar(c: char, rest: string)
    requires rest == [] || (rest[0] != '\'' && rest[0] != '%')
    ensures Unescape(EscapeChar(c) + rest) == [c] + Unescape(rest)
  {
    if c == '&' {
      UnescapeAmp(rest);
    } else if c == '\'' || c == '%' {
      UnescapeBackslash(c, rest);
    } else {
      UnescapeOther(c, rest);
    }
  }

  lemma UnescapeAmp(rest: string)
    ensures Unescape("&amp;" + rest) == "&" + Unescape(rest)
    ensures UnescapeUnmatched("&amp;" + rest) == "&" + UnescapeUnmatched(rest)
  {
    assert ("&amp;" + rest)[5..] == rest;
  }

  lemma UnescapeBackslash(c: char, rest: string)
    requires c == '\'' || c == '%'
    ensures Unescape(['\\', c] + rest) == [c] + Unescape(rest)
    ensures c == '\'' ==> UnescapeUnmatched(['\\', c] + rest) == [c] + UnescapeUnmatched(rest)
  {
    assert (['\\', c] + rest)[2..] == rest;
  }

  lemma UnescapeOther(c: char, rest: string)
    requires c != '&' && c != '\'' && c != '%'
    requires rest == [] || (rest[0] != '\'' && rest[0] != '%')
    ensures Unescape([c] + rest) == [c] + Unescape(rest)
  {
    assert ([c] + rest)[1..] == rest;
  }

  lemma UnescapeUnmatchedChar(c: char, rest: string)
    requires rest == [] || rest[0] != '\''
    ensures UnescapeUnmatched(EscapeUnmatchedChar(c) + rest) == [c] + UnescapeUnmatched(rest)
  {
    if c == '&' {
      UnescapeAmp(rest);
    } else if c == '<' || c == '>' {
      UnescapeAngle(c, rest);
    } else if c == '\'' {
      UnescapeBackslash(c, rest);
    } else {
      UnescapeUnmatchedOther(c, rest);
    }
  }

  lemma UnescapeAngle(c: char, rest: string)
    requires c == '<' || c == '>'
    ensures UnescapeUnmatched(EscapeUnmatchedChar(c) + rest) == [c] + UnescapeUnmatched(rest)
  {
    assert (EscapeUnmatchedChar(c) + rest)[4..] == rest;
  }

  lemma UnescapeUnmatchedOther(c: char, rest: string)
    requires c != '&' && c != '<' && c != '>' && c != '\''
    requires rest == [] || rest[0] != '\''
    ensures UnescapeUnmatched([c] + rest) == [c] + UnescapeUnmatched(rest)
  {
    assert ([c] + rest)[1..] == rest;
  }

  lemma {:induction false} EscapeRoundTripCharwise(s: string)
    ensures Unescape(Concat(s, EscapeChar)) == s
    ensures Concat(s, EscapeChar) == [] || (Concat(s, EscapeChar)[0] != '\'' && Concat(s, EscapeChar)[0] != '%')
    decreases |s|
  {
    if s != [] {
      ConcatFront(s, EscapeChar);
      EscapeRoundTripCharwise(s[1..]);
      UnescapeChar(s[0], Concat(s[1..], EscapeChar));
      assert s == [s[0]] + s[1..];
    }
  }

  lemma {:induction false} EscapeUnmatchedRoundTripCharwise(s: string)
    ensures UnescapeUnmatched(Concat(s, EscapeUnmatchedChar)) == s
    ensures Concat(s, EscapeUnmatchedChar) == [] || Concat(s, EscapeUnmatchedChar)[0] != '\''
    decreases |s|
  {
    if s != [] {
      ConcatFront(s, EscapeUnmatchedChar);
      EscapeUnmatchedRoundTripCharwise(s[1..]);
      UnescapeUnmatchedChar(s[0], Concat(s[1..], EscapeUnmatchedChar));
      assert s == [s[0]] + s[1..];
    }
  }

  /** The escaping of a translation line loses nothing: reading the escapes back
      gives the text. */
  lemma EscapeRoundTrip(s: string)
    ensures Unescape(Escape(s)) == s
  {
    EscapeIsCharwise(s);
    EscapeRoundTripCharwise(s);
  }

  /** The escaping of an unmatched line loses nothing, and leaves no angle
      bracket that could open or close markup. */
  lemma EscapeUnmatchedRoundTrip(s: string)
    ensures UnescapeUnmatched(EscapeUnmatched(s)) == s
    ensures '<' !in EscapeUnmatched(s) && '>' !in EscapeUnmatched(s)
  {
    EscapeUnmatchedIsCharwise(s);
    EscapeUnmatchedRoundTripCharwise(s);
    var t1 := Replace(s, "&", "&amp;");
    var t2 := Replace(t1, "<", "&lt;");
    var t3 := Replace(t2, ">", "&gt;");
    ReplaceCharRemoves(t1, '<', "&lt;", '>');
    ReplaceCharRemoves(t2, '>', "&gt;", '<');
    ReplaceCharRemoves(t3, '\'', "\\'", '<');
    ReplaceCharRemoves(t3, '\'', "\\'", '>');
  }

  // ---------------------------------------------------------------- the lookup

  /** The dictionaries main() builds before matching. */
  datatype Databases = Databases(
    keyLocations: map<string, (string, string)>,
    englishText: map<string, (string, string)>,
    db: map<(string, string, string), string>,
    index: map<(string, string), (string, string)>,
    byBase: map<(string, string), Family>)

  /** (source_key_orig, source_filename): the English key and file the string is
      anchored to, by its normalised name first and by its normalised text second. */
  function Anchor(dbs: Databases, x: XmlString): (r: Option<(string, string)>)
    ensures NormKey(x.name) in dbs.keyLocations ==> r == Some(dbs.keyLocations[NormKey(x.name)])
    ensures r.None? <==> NormKey(x.name) !in dbs.keyLocations && NormalizeString(x.text) !in dbs.englishText
  {
    var target := NormKey(x.name);
    if target in dbs.keyLocations then Some(dbs.keyLocations[target])
    else
      var normalized := NormalizeString(x.text);
      if normalized in dbs.englishText then Some(dbs.englishText[normalized]) else None
  }

  /** The anchor's key, when there is a non-empty one. */
  function SourceKey(anchor: Option<(string, string)>): Option<string>
  {
    if anchor.Some? && anchor.value.0 != [] then Some(anchor.value.0) else None
  }

  /** candidate_keys: the string's own normalised name, then the anchor's normalised key. */
  function Candidates(target: string, anchor: Option<(string, string)>): (r: seq<string>)
    ensures |r| >= 1 && r[0] == target
  {
    [target] + (if SourceKey(anchor).Some? then [NormKey(SourceKey(anchor).value)] else [])
  }

  /** translations_index[lang][key], the value part, if present. */
  function Indexed(index: map<(string, string), (string, string)>, lang: string, key: string): (r: Option<string>)
    ensures r.Some? <==> (lang, key) in index
  {
    if (lang, key) in index then Some(index[(lang, key)].0) else None
  }

  /** Step A: the value of the first candidate the index holds for the language. */
  function FirstIndexed(index: map<(string, string), (string, string)>, lang: string, cks: seq<string>): Option<string>
  {
    if cks == [] then None
    else if (lang, cks[0]) in index then Some(index[(lang, cks[0])].0)
    else FirstIndexed(index, lang, cks[1..])
  }

  /** A number string's value, int(d); numbers in a family are always digits. */
  function NumberValue(d: string): nat
  {
    if forall i :: 0 <= i < |d| ==> IsDigit(d[i]) then DigitsValue(d) else 0
  }

  /** The sort key of a family member: int of its number. */
  function NumberKey(m: (string, (string, string))): Key
  {
    Num(NumberValue(m.0) as real)
  }

  /** family[digits] for a number the family holds. */
  function FamilyGet(family: Family, d: string): (r: (string, string))
    requires HasDigits(family, d)
    ensures exists j :: 0 <= j < |family| && family[j] == (d, r)
  {
    if family[0].0 == d then family[0].1
    else
      assert HasDigits(family[1..], d) by {
        var j :| 0 <= j < |family| && family[j].0 == d;
        assert family[1..][j - 1] == family[j];
      }
      var r := FamilyGet(family[1..], d);
      ghost var j :| 0 <= j < |family[1..]| && family[1..][j] == (d, r);
      assert family[j + 1] == (d, r);
      r
  }

  /** Step D: the same number in the family of the name's base when it is there,
      otherwise the member with the smallest number. */
  function FamilyPick(byBase: map<(string, string), Family>, lang: string, parts: KeyParts): Option<string>
  {
    var slot := (lang, parts.base);
    if slot !in byBase then None
    else
      var family := byBase[slot];
      if parts.digits.Some? && parts.digits.value != [] && HasDigits(family, parts.digits.value)
      then Some(FamilyGet(family, parts.digits.value).0)
      else if family == [] then None
      else Some(SortBy(family, NumberKey)[0].1.0)
  }

  /** The translation template for a string in a language, through steps A to D. */
  function Lookup(dbs: Databases, lang: string, x: XmlString): Option<string>
  {
    var target := NormKey(x.name);
    var anchor := Anchor(dbs, x);
    var a := FirstIndexed(dbs.index, lang, Candidates(target, anchor));
    if a.Some? then a
    else if SourceKey(anchor).Some? && anchor.value.1 != []
         && (lang, anchor.value.1, NormKey(anchor.value.0)) in dbs.db
    then Some(dbs.db[(lang, anchor.value.1, NormKey(anchor.value.0))])
    else if SourceKey(anchor).Some? && Indexed(dbs.index, lang, NormKey(anchor.value.0)).Some?
    then Indexed(dbs.index, lang, NormKey(anchor.value.0))
    else FamilyPick(dbs.byBase, lang, KeyBaseAndNum(target))
  }

  /** The lookup as main() runs it: the candidate loop, then the three fallbacks. */
  method FindTranslation(dbs: Databases, lang: string, x: XmlString) returns (template: Option<string>)
    ensures template == Lookup(dbs, lang, x)
  {
    var target := NormKey(x.name);
    var anchor := Anchor(dbs, x);
    var cks := Candidates(target, anchor);
    template := None;
    var k := 0;
    while k < |cks|
      invariant 0 <= k <= |cks|
      invariant template.None? ==> FirstIndexed(dbs.index, lang, cks) == FirstIndexed(dbs.index, lang, cks[k..])
      invariant template.Some? ==> template == FirstIndexed(dbs.index, lang, cks)
    {
      assert cks[k..][1..] == cks[k + 1..];
      if (lang, cks[k]) in dbs.index {
        template := Some(dbs.index[(lang, cks[k])].0);
        break;
      }
      k := k + 1;
    }
    if template.None? && SourceKey(anchor).Some? && anchor.value.1 != [] {
      var skn := NormKey(anchor.value.0);
      if (lang, anchor.value.1, skn) in dbs.db {
        template := Some(dbs.db[(lang, anchor.value.1, skn)]);
      }
    }
    if template.None? && SourceKey(anchor).Some? {
      template := Indexed(dbs.index, lang, NormKey(anchor.value.0));
    }
    if template.None? {
      template := FamilyPick(dbs.byBase, lang, KeyBaseAndNum(target));
    }
  }

  /** Step A finds a candidate exactly when the index holds one, and then the
      first candidate it holds. */
  lemma {:induction false} FirstIndexedFinds(index: map<(string, string), (string, string)>, lang: string, cks: seq<string>)
    ensures FirstIndexed(index, lang, cks).None? <==> forall j :: 0 <= j < |cks| ==> (lang, cks[j]) !in index
    ensures FirstIndexed(index, lang, cks).Some? ==>
      exists j :: (&& 0 <= j < |cks| && (lang, cks[j]) in index
                   && FirstIndexed(index, lang, cks).value == index[(lang, cks[j])].0
                   && forall i :: 0 <= i < j ==> (lang, cks[i]) !in index)
  {
    if cks != [] {
      FirstIndexedFinds(index, lang, cks[1..]);
      if (lang, cks[0]) !in index && FirstIndexed(index, lang, cks).Some? {
        var j :| 0 <= j < |cks[1..]| && (lang, cks[1..][j]) in index
          && FirstIndexed(index, lang, cks[1..]).value == index[(lang, cks[1..][j])].0
          && forall i :: 0 <= i < j ==> (lang, cks[1..][i]) !in index;
        assert cks[j + 1] == cks[1..][j];
        forall i | 0 <= i < j + 1 ensures (lang, cks[i]) !in index {
          if i > 0 {
            assert cks[i] == cks[1..][i - 1];
          }
        }
      }
      if forall j :: 0 <= j < |cks[1..]| ==> (lang, cks[1..][j]) !in index {
        forall j | 1 <= j < |cks| ensures (lang, cks[j]) !in index {
          assert cks[j] == cks[1..][j - 1];
        }
      }
    }
  }

  /** The string's own name wins: when the index holds it for the language, its
      value is the template. */
  lemma LookupPrefersName(dbs: Databases, lang: string, x: XmlString)
    requires (lang, NormKey(x.name)) in dbs.index
    ensures Lookup(dbs, lang, x) == Some(dbs.index[(lang, NormKey(x.name))].0)
  {
  }

  /** Step C never answers: the anchor's key was already a candidate of step A. */
  lemma StepCIsSubsumed(dbs: Databases, lang: string, x: XmlString)
    requires SourceKey(Anchor(dbs, x)).Some?
    requires FirstIndexed(dbs.index, lang, Candidates(NormKey(x.name), Anchor(dbs, x))).None?
    ensures (lang, NormKey(Anchor(dbs, x).value.0)) !in dbs.index
  {
    var cks := Candidates(NormKey(x.name), Anchor(dbs, x));
    FirstIndexedFinds(dbs.index, lang, cks);
    assert cks[1] == NormKey(Anchor(dbs, x).value.0);
  }

  /** Without a translated name, an anchored file entry or a family for the
      name's base, a language has no translation; and with one of them it has. */
  lemma LookupNoneIff(dbs: Databases, lang: string, x: XmlString)
    ensures Lookup(dbs, lang, x).None? <==>
      && (forall j :: 0 <= j < |Candidates(NormKey(x.name), Anchor(dbs, x))| ==>
            (lang, Candidates(NormKey(x.name), Anchor(dbs, x))[j]) !in dbs.index)
      && !(SourceKey(Anchor(dbs, x)).Some? && Anchor(dbs, x).value.1 != []
           && (lang, Anchor(dbs, x).value.1, NormKey(Anchor(dbs, x).value.0)) in dbs.db)
      && FamilyPick(dbs.byBase, lang, KeyBaseAndNum(NormKey(x.name))).None?
  {
    var cks := Candidates(NormKey(x.name), Anchor(dbs, x));
    FirstIndexedFinds(dbs.index, lang, cks);
    if SourceKey(Anchor(dbs, x)).Some? && FirstIndexed(dbs.index, lang, cks).None? {
      StepCIsSubsumed(dbs, lang, x);
    }
  }

  /** When the exact number is missing, step D takes the member with the
      smallest number. */
  lemma FamilyPickSmallest(family: Family, v: string)
    requires FamilyWellFormed(family)
    requires family != []
    requires v == SortBy(family, NumberKey)[0].1.0
    ensures exists j :: (&& 0 <= j < |family| && family[j].1.0 == v
                         && forall k :: 0 <= k < |family| ==> NumberValue(family[j].0) <= NumberValue(family[k].0))
  {
    var sorted := SortBy(family, NumberKey);
    SortBySorted(family, NumberKey);
    SortByPermutation(family, NumberKey);
    SortByElements(family, NumberKey, 0);
    var j :| 0 <= j < |family| && family[j] == sorted[0];
    forall k | 0 <= k < |family| ensures NumberValue(family[j].0) <= NumberValue(family[k].0) {
      assert family[k] in multiset(sorted);
      var m :| 0 <= m < |sorted| && sorted[m] == family[k];
      if m > 0 {
        assert !Less(NumberKey(sorted[m]), NumberKey(sorted[0]));
      }
    }
  }

  // ---------------------------------------------------------------- the line written

  /** The translation as written: injects put back, decoration tags dropped,
      " ." turned into " ", stripped and escaped. */
  function Render(template: string, inject: seq<string>): string
  {
    Escape(Strip(Replace(DropDecorations(Reinject(template, inject)), " .", " ")))
  }

  /** A template without tags is only cleaned and escaped, and its escape reads back. */
  lemma RenderPlain(template: string, inject: seq<string>)
    requires '<' !in template
    ensures Unescape(Render(template, inject)) == Strip(Replace(template, " .", " "))
  {
    ReinjectPlainPrefix(template, [], inject);
    DropPlainPrefix(template, []);
    assert template + [] == template;
    EscapeRoundTrip(Strip(Replace(template, " .", " ")));
  }

  /** <string name="...">...</string> as one line of a resource file. */
  function EntryLine(name: string, text: string): string
  {
    "    <string name=\"" + name + "\">" + text + "</string>\n"
  }

  // ---------------------------------------------------------------- the matching pass

  /** What one string adds to a language's file: its line, when the language
      translates it. */
  function Line(dbs: Databases, lang: string, x: XmlString): seq<string>
  {
    match Lookup(dbs, lang, x)
    case Some(t) => [EntryLine(x.name, Render(t, x.inject))]
    case None => []
  }

  /** Line, per string, for one language. */
  function LineFor(dbs: Databases, lang: string): XmlString -> seq<string>
  {
    x => Line(dbs, lang, x)
  }

  /** Line, per language, for one string. */
  function LinesOf(dbs: Databases, x: XmlString): string -> seq<string>
  {
    lang => Line(dbs, lang, x)
  }

  /** The lines of values-<lang>/strings.xml between its header and footer. */
  function LanguageFile(dbs: Databases, strings: seq<XmlString>, lang: string): seq<string>
  {
    Concat(strings, LineFor(dbs, lang))
  }

  /** The languages that translate one string. */
  function Translates(dbs: Databases, x: XmlString): string -> bool
  {
    lang => Lookup(dbs, lang, x).Some?
  }

  /** found_any_lang: some target language translates the string. */
  predicate FoundAny(dbs: Databases, x: XmlString)
  {
    AnyOf(TargetLanguages, Translates(dbs, x))
  }

  function Found(dbs: Databases): XmlString -> bool
  {
    x => FoundAny(dbs, x)
  }

  function NameOf(x: XmlString): string
  {
    x.name
  }

  /** processed_strings: the names of the strings some language translates. */
  function ProcessedNames(dbs: Databases, strings: seq<XmlString>): set<string>
  {
    KeysWhere(strings, NameOf, Found(dbs))
  }

  lemma TargetLanguagesDistinct()
    ensures forall i, j :: 0 <= i < j < |TargetLanguages| ==> TargetLanguages[i] != TargetLanguages[j]
  {
  }

  /** A string is found exactly when one of the target languages has a template for it. */
  lemma FoundAnyIff(dbs: Databases, x: XmlString)
    ensures FoundAny(dbs, x) <==> exists lang :: lang in TargetLanguages && Lookup(dbs, lang, x).Some?
  {
    AnyOfIff(TargetLanguages, Translates(dbs, x));
    if FoundAny(dbs, x) {
      var i :| 0 <= i < |TargetLanguages| && Translates(dbs, x)(TargetLanguages[i]);
      assert TargetLanguages[i] in TargetLanguages;
    }
  }

  /** One language's turn for one string: the line it writes, if any, and
      whether it translated the string. */
  method MatchLanguage(dbs: Databases, lang: string, x: XmlString) returns (lines: seq<string>, translated: bool)
    ensures lines == Line(dbs, lang, x)
    ensures translated == Lookup(dbs, lang, x).Some?
  {
    var template := FindTranslation(dbs, lang, x);
    if template.Some? {
      lines := [EntryLine(x.name, Render(template.value, x.inject))];
      translated := true;
    } else {
      lines := [];
      translated := false;
    }
  }

  /** The k-th language's turn within MatchOne. */
  method MatchOneNext(dbs: Databases, x: XmlString, files: map<string, seq<string>>, k: int,
                      updated: map<string, seq<string>>, found: bool)
    returns (updated': map<string, seq<string>>, found': bool)
    requires forall lang :: lang in files <==> lang in TargetLanguages
    requires 0 <= k < |TargetLanguages|
    requires updated == AppendEach(files, TargetLanguages[..k], LinesOf(dbs, x))
    requires found == AnyOf(TargetLanguages[..k], Translates(dbs, x))
    ensures updated' == AppendEach(files, TargetLanguages[..k + 1], LinesOf(dbs, x))
    ensures found' == AnyOf(TargetLanguages[..k + 1], Translates(dbs, x))
  {
    var lang := TargetLanguages[k];
    AppendEachStep(files, TargetLanguages, k, LinesOf(dbs, x));
    AnyOfStep(TargetLanguages, k, Translates(dbs, x));
    assert LinesOf(dbs, x)(lang) == Line(dbs, lang, x);
    assert Translates(dbs, x)(lang) == Lookup(dbs, lang, x).Some?;
    var lines, translated := MatchLanguage(dbs, lang, x);
    updated' := updated[lang := updated[lang] + lines];
    found' := found || translated;
  }

  /** One string through every language: each language's file gets the string's
      line, and found says whether any language translated it. */
  method MatchOne(dbs: Databases, x: XmlString, files: map<string, seq<string>>)
    returns (updated: map<string, seq<string>>, found: bool)
    requires forall lang :: lang in files <==> lang in TargetLanguages
    ensures updated == AppendEach(files, TargetLanguages, LinesOf(dbs, x))
    ensures found == FoundAny(dbs, x)
  {
    updated := files;
    found := false;
    var k := 0;
    while k < |TargetLanguages|
      invariant 0 <= k <= |TargetLanguages|
      invariant updated == AppendEach(files, TargetLanguages[..k], LinesOf(dbs, x))
      invariant found == AnyOf(TargetLanguages[..k], Translates(dbs, x))
    {
      updated, found := MatchOneNext(dbs, x, files, k, updated, found);
      k := k + 1;
    }
    assert TargetLanguages[..k] == TargetLanguages;
  }

  /** The files after one more string: each target language's file grows by
      that string's line. */
  lemma FilesStep(dbs: Databases, strings: seq<XmlString>, i: int,
                  before: map<string, seq<string>>, after: map<string, seq<string>>)
    requires 0 <= i < |strings|
    requires forall lang :: lang in before <==> lang in TargetLanguages
    requires forall lang :: lang in before ==> before[lang] == LanguageFile(dbs, strings[..i], lang)
    requires after == AppendEach(before, TargetLanguages, LinesOf(dbs, strings[i]))
    ensures forall lang :: lang in after <==> lang in TargetLanguages
    ensures forall lang :: lang in after ==> after[lang] == LanguageFile(dbs, strings[..i + 1], lang)
  {
    TargetLanguagesDistinct();
    AppendEachResult(before, TargetLanguages, LinesOf(dbs, strings[i]));
    forall lang | lang in after ensures after[lang] == LanguageFile(dbs, strings[..i + 1], lang) {
      ConcatStep(strings, i, LineFor(dbs, lang));
      assert LineFor(dbs, lang)(strings[i]) == LinesOf(dbs, strings[i])(lang);
    }
  }

  /** processed_strings after one more string. */
  lemma ProcessedStep(dbs: Databases, strings: seq<XmlString>, i: int)
    requires 0 <= i < |strings|
    ensures ProcessedNames(dbs, strings[..i + 1])
         == ProcessedNames(dbs, strings[..i]) + (if FoundAny(dbs, strings[i]) then {strings[i].name} else {})
  {
    KeysWhereStep(strings, i, NameOf, Found(dbs));
    assert Found(dbs)(strings[i]) == FoundAny(dbs, strings[i]);
  }

  /** One pass of the loop over xml_data: the i-th string through every
      language, and whether one translated it. */
  method MatchNext(dbs: Databases, strings: seq<XmlString>, i: int, files: map<string, seq<string>>)
    returns (files': map<string, seq<string>>, found: bool)
    requires 0 <= i < |strings|
    requires forall lang :: lang in files <==> lang in TargetLanguages
    requires forall lang :: lang in files ==> files[lang] == LanguageFile(dbs, strings[..i], lang)
    ensures forall lang :: lang in files' <==> lang in TargetLanguages
    ensures forall lang :: lang in files' ==> files'[lang] == LanguageFile(dbs, strings[..i + 1], lang)
    ensures found == FoundAny(dbs, strings[i])
  {
    files', found := MatchOne(dbs, strings[i], files);
    FilesStep(dbs, strings, i, files, files');
  }

  /** The loop over xml_data: every language file gets the lines of the strings
      it translates, in xml order, and processed_strings holds the names some
      language translates. */
  method MatchStrings(dbs: Databases, strings: seq<XmlString>)
    returns (files: map<string, seq<string>>, processed: set<string>)
    ensures forall lang :: lang in files <==> lang in TargetLanguages
    ensures forall lang :: lang in files ==> files[lang] == LanguageFile(dbs, strings, lang)
    ensures processed == ProcessedNames(dbs, strings)
  {
    files := map lang | lang in TargetLanguages :: [];
    processed := {};
    var i := 0;
    assert strings[..0] == [];
    while i < |strings|
      invariant 0 <= i <= |strings|
      invariant forall lang :: lang in files <==> lang in TargetLanguages
      invariant forall lang :: lang in files ==> files[lang] == LanguageFile(dbs, strings[..i], lang)
      invariant processed == ProcessedNames(dbs, strings[..i])
    {
      var found;
      files, found := MatchNext(dbs, strings, i, files);
      ProcessedStep(dbs, strings, i);
      if found {
        processed := processed + {strings[i].name};
      }
      i := i + 1;
    }
    WholePrefix(strings);
  }

  // ---------------------------------------------------------------- the unmatched file

  /** The strings whose names were not processed, in name order. */
  function UnmatchedStrings(strings: seq<XmlString>, processed: set<string>): seq<XmlString>
  {
    SortBy(Filter(strings, (x: XmlString) => x.name !in processed), (x: XmlString) => Txt(x.name))
  }

  /** The line of the unmatched file for one string: its text, escaped. */
  function UnmatchedLine(x: XmlString): seq<string>
  {
    [EntryLine(x.name, EscapeUnmatched(x.text))]
  }

  /** The loop over sorted(unmatched_names). */
  method WriteUnmatched(strings: seq<XmlString>, processed: set<string>) returns (lines: seq<string>)
    ensures lines == Concat(UnmatchedStrings(strings, processed), UnmatchedLine)
  {
    var unmatched := UnmatchedStrings(strings, processed);
    lines := [];
    var i := 0;
    while i < |unmatched|
      invariant 0 <= i <= |unmatched|
      invariant lines == Concat(unmatched[..i], UnmatchedLine)
    {
      ConcatStep(unmatched, i, UnmatchedLine);
      lines := lines + [EntryLine(unmatched[i].name, EscapeUnmatched(unmatched[i].text))];
      i := i + 1;
    }
    WholePrefix(unmatched);
  }

  /** With distinct names, a string's name is processed exactly when the string
      itself is found. */
  lemma ProcessedNameOf(dbs: Databases, strings: seq<XmlString>, i: int)
    requires 0 <= i < |strings|
    requires forall i, j :: 0 <= i < j < |strings| ==> strings[i].name != strings[j].name
    ensures strings[i].name in ProcessedNames(dbs, strings) <==> FoundAny(dbs, strings[i])
  {
    KeysWhereIff(strings, NameOf, Found(dbs), strings[i].name);
    assert NameOf(strings[i]) == strings[i].name;
    assert Found(dbs)(strings[i]) == FoundAny(dbs, strings[i]);
  }

  /** The unmatched file lists exactly the strings no language translates, once
      each, in ascending name order. */
  lemma UnmatchedExactly(dbs: Databases, strings: seq<XmlString>, x: XmlString)
    requires forall i, j :: 0 <= i < j < |strings| ==> strings[i].name != strings[j].name
    ensures x in UnmatchedStrings(strings, ProcessedNames(dbs, strings))
        <==> x in strings && !FoundAny(dbs, x)
    ensures SortedBy(UnmatchedStrings(strings, ProcessedNames(dbs, strings)), (y: XmlString) => Txt(y.name))
  {
    var processed := ProcessedNames(dbs, strings);
    var keep := (y: XmlString) => y.name !in processed;
    var kept := Filter(strings, keep);
    SortByPermutation(kept, (y: XmlString) => Txt(y.name));
    SortBySorted(kept, (y: XmlString) => Txt(y.name));
    assert x in UnmatchedStrings(strings, processed) <==> x in kept by {
      assert x in UnmatchedStrings(strings, processed) <==> x in multiset(UnmatchedStrings(strings, processed));
    }
    if x in strings {
      var i :| 0 <= i < |strings| && strings[i] == x;
      ProcessedNameOf(dbs, strings, i);
      if !FoundAny(dbs, x) {
        FilterComplete(strings, keep, i);
      }
    }
    if x in kept {
      FilterMember(strings, keep, x);
    }
  }

  /** On xml_data as the loop over strings.xml builds it, the unmatched file
      lists exactly the entries no language translates. */
  lemma XmlDataUnmatched(dbs: Databases, elems: seq<XmlElement>, x: XmlString)
    ensures var data := XmlData(elems);
      x in UnmatchedStrings(data, ProcessedNames(dbs, data)) <==> x in data && !FoundAny(dbs, x)
  {
    XmlDataKeys(elems);
    UnmatchedExactly(dbs, XmlData(elems), x);
  }
}
