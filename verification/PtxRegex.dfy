/** What the prototype parser looks for in a line: `.entry`, and its two regular expressions. */
module PtxRegex {
  import opened Wrappers

  // ---------- matching ----------

  predicate IsWord(c: char) {
    'a' <= c <= 'z' || 'A' <= c <= 'Z' || '0' <= c <= '9' || c == '_'
  }

  predicate IsSpace(c: char) {
    c == ' ' || '\t' <= c <= '\r'
  }

  predicate StartsAt(s: string, at: nat, literal: string) {
    at + |literal| <= |s| && s[at..at + |literal|] == literal
  }

  predicate IsHeader(line: string) {
    exists at :: 0 <= at <= |line| && StartsAt(line, at, ".entry")
  }

  function WordEnd(s: string, at: nat): (end: nat)
    requires at <= |s|
    ensures at <= end <= |s|
    decreases |s| - at
  {
    if at < |s| && IsWord(s[at]) then WordEnd(s, at + 1) else at
  }

  function SpaceEnd(s: string, at: nat): (end: nat)
    requires at <= |s|
    ensures at <= end <= |s|
    decreases |s| - at
  {
    if at < |s| && IsSpace(s[at]) then SpaceEnd(s, at + 1) else at
  }

  /** `\.entry (\w+)\(` matched at one position. */
  function EntryAt(s: string, at: nat): Option<string> {
    if !StartsAt(s, at, ".entry ") then None
    else
      var end := WordEnd(s, at + 7);
      if end > at + 7 && end < |s| && s[end] == '(' then Some(s[at + 7..end]) else None
  }

  /** `\.param\s+(\.\w+)` matched at one position. */
  function ParamAt(s: string, at: nat): Option<string> {
    if !StartsAt(s, at, ".param") then None
    else
      var dot := SpaceEnd(s, at + 6);
      if dot == at + 6 || dot == |s| || s[dot] != '.' then None
      else
        var end := WordEnd(s, dot + 1);
        if end > dot + 1 then Some(s[dot..end]) else None
  }

  /** The leftmost match from a position on; the kernel name is empty when there is none. */
  function EntryFrom(s: string, start: nat): string
    decreases |s| - start
  {
    if start >= |s| then ""
    else
      match EntryAt(s, start)
      case Some(name) => name
      case None => EntryFrom(s, start + 1)
  }

  function ParamFrom(s: string, start: nat): Option<string>
    decreases |s| - start
  {
    if start >= |s| then None
    else if ParamAt(s, start).Some? then ParamAt(s, start)
    else ParamFrom(s, start + 1)
  }

  function EntryName(s: string): string {
    EntryFrom(s, 0)
  }

  function ParamType(s: string): Option<string> {
    ParamFrom(s, 0)
  }

  // ---------- what is matched ----------

  /** `\w`, by the code of the character: a digit, a letter or the underscore. */
  predicate WordCode(c: char) {
    48 <= c as int <= 57 || 65 <= c as int <= 90 || 97 <= c as int <= 122 || c as int == 95
  }

  /** `\s`, by the code of the character: tab, line feed, vertical tab, form feed, carriage return or blank. */
  predicate BlankCode(c: char) {
    9 <= c as int <= 13 || c as int == 32
  }

  predicate AllWord(s: string) {
    forall i :: 0 <= i < |s| ==> WordCode(s[i])
  }

  predicate AllBlank(s: string) {
    forall i :: 0 <= i < |s| ==> BlankCode(s[i])
  }

  /** `\.entry (\w+)\(` matches from `at` on, with the group `name`. */
  predicate MatchesEntry(s: string, at: nat, name: string) {
    name != "" && AllWord(name) && at <= |s| && ".entry " + name + "(" <= s[at..]
  }

  /** `\.param\s+(\.\w+)` matches from `at` on, with these blanks and this word, which goes as far as it can. */
  predicate MatchesParam(s: string, at: nat, blanks: string, word: string) {
    && blanks != "" && AllBlank(blanks) && word != "" && AllWord(word)
    && at <= |s| && ".param" + blanks + "." + word <= s[at..]
    && var end := at + 7 + |blanks| + |word|;
       end < |s| ==> !WordCode(s[end])
  }

  /** A header is a line with `.entry` anywhere in it. */
  lemma HeaderIff(line: string)
    ensures IsHeader(line) <==> exists a, b :: line == a + ".entry" + b
  {
    if IsHeader(line) {
      var at :| 0 <= at <= |line| && StartsAt(line, at, ".entry");
      assert line == line[..at] + ".entry" + line[at + 6..];
    }
    if a, b :| line == a + ".entry" + b {
      assert line[|a|..|a| + 6] == ".entry";
      assert StartsAt(line, |a|, ".entry");
    }
  }

  /** The greedy word from a position on: all word characters, and none behind it. */
  lemma {:induction false} WordEndIff(s: string, at: nat, end: nat)
    requires at <= end <= |s|
    ensures WordEnd(s, at) == end
       <==> AllWord(s[at..end]) && (end < |s| ==> !WordCode(s[end]))
    decreases |s| - at
  {
    if at < |s| && IsWord(s[at]) {
      if at < end {
        WordEndIff(s, at + 1, end);
        assert s[at..end] == [s[at]] + s[at + 1..end];
      }
    } else if at < end {
      assert s[at..end][0] == s[at];
    }
  }

  lemma {:induction false} SpaceEndIff(s: string, at: nat, end: nat)
    requires at <= end <= |s|
    ensures SpaceEnd(s, at) == end
       <==> AllBlank(s[at..end]) && (end < |s| ==> !BlankCode(s[end]))
    decreases |s| - at
  {
    if at < |s| && IsSpace(s[at]) {
      if at < end {
        SpaceEndIff(s, at + 1, end);
        assert s[at..end] == [s[at]] + s[at + 1..end];
      }
    } else if at < end {
      assert s[at..end][0] == s[at];
    }
  }

  /** Four texts, one behind the other, at a position of a line. */
  lemma TextsAt(s: string, at: nat, a: string, b: string, c: string, d: string)
    requires at <= |s| && a + b + c + d <= s[at..]
    ensures at + |a| + |b| + |c| + |d| <= |s| && s[at..at + |a|] == a
    ensures s[at + |a|..at + |a| + |b|] == b && s[at + |a| + |b|..at + |a| + |b| + |c|] == c
    ensures s[at + |a| + |b| + |c|..at + |a| + |b| + |c| + |d|] == d
  {
    var text := a + b + c + d;
    assert s[at..][..|text|] == text;
    assert text[..|a|] == a && text[|a|..|a| + |b|] == b && text[|a| + |b|..|a| + |b| + |c|] == c;
    assert text[|a| + |b| + |c|..] == d;
  }

  lemma EntryAtIff(s: string, at: nat, name: string)
    ensures EntryAt(s, at) == Some(name) <==> MatchesEntry(s, at, name)
  {
    if EntryAt(s, at) == Some(name) {
      var end := WordEnd(s, at + 7);
      WordEndIff(s, at + 7, end);
      assert s[at..][..8 + |name|] == s[at..at + 7] + s[at + 7..end] + [s[end]];
    }
    if MatchesEntry(s, at, name) {
      EntryMatched(s, at, name);
    }
  }

  lemma EntryMatched(s: string, at: nat, name: string)
    requires MatchesEntry(s, at, name)
    ensures EntryAt(s, at) == Some(name)
  {
    var end := at + 7 + |name|;
    assert ".entry " + name + "(" + "" == ".entry " + name + "(";
    TextsAt(s, at, ".entry ", name, "(", "");
    assert s[end] == s[end..end + 1][0] == '(';
    WordEndIff(s, at + 7, end);
  }

  lemma ParamAtIff(s: string, at: nat, ty: string)
    ensures ParamAt(s, at) == Some(ty)
       <==> exists blanks, word :: ty == "." + word && MatchesParam(s, at, blanks, word)
  {
    hide MatchesParam;
    if ParamAt(s, at) == Some(ty) {
      ParamFound(s, at);
    }
    if blanks, word :| ty == "." + word && MatchesParam(s, at, blanks, word) {
      ParamMatched(s, at, blanks, word);
    }
  }

  lemma ParamFound(s: string, at: nat)
    requires ParamAt(s, at).Some?
    ensures exists blanks, word :: ParamAt(s, at).value == "." + word && MatchesParam(s, at, blanks, word)
  {
    hide IsWord, IsSpace, WordCode, BlankCode;
    var dot := SpaceEnd(s, at + 6);
    var end := WordEnd(s, dot + 1);
    SpaceEndIff(s, at + 6, dot);
    WordEndIff(s, dot + 1, end);
    var blanks, word := s[at + 6..dot], s[dot + 1..end];
    assert s[at..][..|".param" + blanks + "." + word|] == s[at..at + 6] + blanks + [s[dot]] + word;
    assert s[dot..end] == "." + word;
    assert MatchesParam(s, at, blanks, word);
  }

  lemma ParamMatched(s: string, at: nat, blanks: string, word: string)
    requires MatchesParam(s, at, blanks, word)
    ensures ParamAt(s, at) == Some("." + word)
  {
    hide IsWord, IsSpace, WordEnd, SpaceEnd, WordCode;
    var dot := at + 6 + |blanks|;
    var end := dot + 1 + |word|;
    TextsAt(s, at, ".param", blanks, ".", word);
    assert s[dot] == s[dot..dot + 1][0] == '.';
    SpaceEndIff(s, at + 6, dot);
    WordEndIff(s, dot + 1, end);
    assert s[dot..end] == s[dot..dot + 1] + s[dot + 1..end];
  }

  /** No match starts between these positions. */
  ghost predicate NoEntry(s: string, lo: nat, hi: nat) {
    forall at: nat, name :: lo <= at < hi ==> !MatchesEntry(s, at, name)
  }

  ghost predicate NoParam(s: string, lo: nat, hi: nat) {
    forall at: nat, blanks, word :: lo <= at < hi ==> !MatchesParam(s, at, blanks, word)
  }

  /** The name is the group of the leftmost match, and empty if and only if there is no match. */
  lemma EntryNameIsLeftmost(s: string)
    ensures EntryName(s) != "" ==> exists at: nat :: MatchesEntry(s, at, EntryName(s)) && NoEntry(s, 0, at)
    ensures EntryName(s) == "" <==> forall at: nat, name :: !MatchesEntry(s, at, name)
  {
    hide MatchesEntry;
    EntryFromIsLeftmost(s, 0);
    NoMatchAtEnd(s);
  }

  lemma NoMatchAtEnd(s: string)
    ensures forall at: nat, name :: at >= |s| ==> !MatchesEntry(s, at, name)
    ensures forall at: nat, blanks, word :: at >= |s| ==> !MatchesParam(s, at, blanks, word)
  {
  }

  lemma {:induction false} EntryFromIsLeftmost(s: string, start: nat)
    ensures var name := EntryFrom(s, start);
            if name == "" then NoEntry(s, start, |s|)
            else exists at: nat :: start <= at < |s| && MatchesEntry(s, at, name) && NoEntry(s, start, at)
    decreases |s| - start
  {
    hide EntryAt, MatchesEntry;
    if start < |s| {
      var here := EntryAt(s, start);
      if here.Some? {
        EntryAtIff(s, start, here.value);
        NamedMatch(s, start, here.value);
      } else {
        EntryFromIsLeftmost(s, start + 1);
        forall name
          ensures !MatchesEntry(s, start, name)
        {
          EntryAtIff(s, start, name);
        }
      }
    }
  }

  lemma NamedMatch(s: string, at: nat, name: string)
    requires MatchesEntry(s, at, name)
    ensures name != "" && at < |s|
  {
  }

  /** The type is the group of the leftmost match, and there is one if and only if there is a match. */
  lemma ParamTypeIsLeftmost(s: string)
    ensures ParamType(s).Some? ==> exists at: nat, blanks, word ::
              ParamType(s).value == "." + word && MatchesParam(s, at, blanks, word) && NoParam(s, 0, at)
    ensures ParamType(s).None? <==> forall at: nat, blanks, word :: !MatchesParam(s, at, blanks, word)
  {
    hide MatchesParam;
    ParamFromIsLeftmost(s, 0);
    NoMatchAtEnd(s);
  }

  lemma {:induction false} ParamFromIsLeftmost(s: string, start: nat)
    ensures var ty := ParamFrom(s, start);
            if ty.None? then NoParam(s, start, |s|)
            else exists at: nat, blanks, word :: start <= at && ty.value == "." + word
                   && MatchesParam(s, at, blanks, word) && NoParam(s, start, at)
    decreases |s| - start
  {
    hide ParamAt, MatchesParam;
    if start < |s| {
      var here := ParamAt(s, start);
      if here.Some? {
        ParamAtIff(s, start, here.value);
        var blanks, word :| here.value == "." + word && MatchesParam(s, start, blanks, word);
        assert NoParam(s, start, start);
      } else {
        ParamFromIsLeftmost(s, start + 1);
        forall blanks, word
          ensures !MatchesParam(s, start, blanks, word)
        {
          ParamAtIff(s, start, "." + word);
        }
      }
    }
  }
}
