/** The kernel prototypes of a PTX module: the line-by-line parser `CUFuncProto`. */
module PtxPrototype {
  import opened Wrappers
  import opened PtxRegex

  type Prototypes = map<string, seq<string>>

  // ---------- the parser ----------

  function Params(m: Prototypes, name: string): seq<string> {
    if name in m then m[name] else []
  }

  function Push(m: Prototypes, name: string, line: string): Prototypes {
    match ParamType(line)
    case Some(ty) => m[name := Params(m, name) + [ty]]
    case None => m
  }

  datatype Block = Closed(m: Prototypes, rest: seq<string>) | Unending
  datatype Outcome = Parsed(m: Prototypes) | Hangs

  /** The lines of one header up to its `)`; without one the source's loop never ends. */
  function ConvertLines(lines: seq<string>, name: string, m: Prototypes): (b: Block)
    ensures b.Closed? ==> |b.rest| < |lines|
    decreases |lines|
  {
    if lines == [] then Unending
    else if lines[0] == ")" then Closed(Push(m, name, lines[0]), lines[1..])
    else ConvertLines(lines[1..], name, Push(m, name, lines[0]))
  }

  function Parse(lines: seq<string>, m: Prototypes): Outcome
    decreases |lines|
  {
    if lines == [] then Parsed(m)
    else if IsHeader(lines[0]) then
      match ConvertLines(lines[1..], EntryName(lines[0]), m)
      case Unending => Hangs
      case Closed(next, rest) => Parse(rest, next)
    else Parse(lines[1..], m)
  }

  // ---------- when parsing ends ----------

  /** Some header has no line `)` after it. */
  ghost predicate HasUnclosedHeader(lines: seq<string>) {
    exists j :: 0 <= j < |lines| && IsHeader(lines[j]) && ")" !in lines[j + 1..]
  }

  lemma CloseIsNoHeader()
    ensures !IsHeader(")")
  {
  }

  lemma {:induction false} ConvertEndsIffClosed(lines: seq<string>, name: string, m: Prototypes)
    ensures ConvertLines(lines, name, m).Closed? <==> ")" in lines
    ensures var b := ConvertLines(lines, name, m);
            b.Closed? ==> var k := |lines| - |b.rest|;
                          && lines[k - 1] == ")" && ")" !in lines[..k - 1] && b.rest == lines[k..]
    decreases |lines|
  {
    if lines != [] && lines[0] != ")" {
      ConvertEndsIffClosed(lines[1..], name, Push(m, name, lines[0]));
      var b := ConvertLines(lines, name, m);
      if b.Closed? {
        var k := |lines| - |b.rest|;
        assert lines[..k - 1] == [lines[0]] + lines[1..][..k - 2];
      }
    }
  }

  /** The parser hangs exactly when some header line is followed by no line that is just `)`. */
  lemma {:induction false} HangsIffUnclosed(lines: seq<string>, m: Prototypes)
    ensures Parse(lines, m).Hangs? <==> HasUnclosedHeader(lines)
    decreases |lines|
  {
    if lines == [] {
    } else {
      var rest, next := lines[1..], m;
      if IsHeader(lines[0]) {
        ConvertEndsIffClosed(rest, EntryName(lines[0]), m);
        var b := ConvertLines(rest, EntryName(lines[0]), m);
        if b.Unending? {
          assert HasUnclosedHeader(lines);
          return;
        }
        rest, next := b.rest, b.m;
      }
      HangsIffUnclosed(rest, next);
      var k := |lines| - |rest|;
      assert rest == lines[k..];
      UnclosedInRest(lines, k);
    }
  }

  /** Skipping a plain line, or a whole closed block, skips no unclosed header. */
  lemma UnclosedInRest(lines: seq<string>, k: nat)
    requires 1 <= k <= |lines| && (IsHeader(lines[0]) ==> k >= 2 && lines[k - 1] == ")")
    requires !IsHeader(lines[0]) ==> k == 1
    ensures HasUnclosedHeader(lines) <==> HasUnclosedHeader(lines[k..])
  {
    CloseIsNoHeader();
    forall j | 0 <= j < k && IsHeader(lines[j])
      ensures ")" in lines[j + 1..]
    {
      assert lines[j + 1..][k - 2 - j] == ")";
    }
    if HasUnclosedHeader(lines) {
      var j :| 0 <= j < |lines| && IsHeader(lines[j]) && ")" !in lines[j + 1..];
      assert lines[k..][j - k] == lines[j] && lines[k..][j - k + 1..] == lines[j + 1..];
    }
    if HasUnclosedHeader(lines[k..]) {
      var j :| 0 <= j < |lines[k..]| && IsHeader(lines[k..][j]) && ")" !in lines[k..][j + 1..];
      assert lines[j + k] == lines[k..][j] && lines[j + k + 1..] == lines[k..][j + 1..];
    }
  }

  // ---------- a fold over modules ----------

  /** `m` with the lists of `more` appended name by name. */
  ghost predicate Appended(m: Prototypes, more: Prototypes, r: Prototypes) {
    && r.Keys == m.Keys + more.Keys
    && forall name :: Params(r, name) == Params(m, name) + Params(more, name)
  }

  lemma AppendedTrans(a: Prototypes, b: Prototypes, ab: Prototypes, c: Prototypes, bc: Prototypes, abc: Prototypes)
    requires Appended(a, b, ab) && Appended(ab, c, abc) && Appended(b, c, bc)
    ensures Appended(a, bc, abc)
  {
  }

  lemma {:induction false} ConvertAppends(lines: seq<string>, name: string, m: Prototypes)
    requires ")" in lines
    ensures var b, fresh0 := ConvertLines(lines, name, m), ConvertLines(lines, name, map[]);
            b.Closed? && fresh0.Closed? && b.rest == fresh0.rest && Appended(m, fresh0.m, b.m)
    decreases |lines|
  {
    ConvertEndsIffClosed(lines, name, m);
    ConvertEndsIffClosed(lines, name, map[]);
    if lines[0] != ")" {
      var one, next := Push(map[], name, lines[0]), Push(m, name, lines[0]);
      assert Appended(m, one, next);
      ConvertAppends(lines[1..], name, one);
      ConvertAppends(lines[1..], name, next);
      var tail := ConvertLines(lines[1..], name, map[]);
      AppendedTrans(m, one, next, tail.m, ConvertLines(lines, name, map[]).m, ConvertLines(lines, name, m).m);
    }
  }

  /** Adding a module appends its own lists to what is known, whatever was known before. */
  lemma {:induction false} ParseAppends(lines: seq<string>, m: Prototypes)
    requires !HasUnclosedHeader(lines)
    ensures Parse(lines, m).Parsed? && Parse(lines, map[]).Parsed?
    ensures Appended(m, Parse(lines, map[]).m, Parse(lines, m).m)
    decreases |lines|
  {
    HangsIffUnclosed(lines, m);
    HangsIffUnclosed(lines, map[]);
    if lines == [] {
    } else if IsHeader(lines[0]) {
      var name := EntryName(lines[0]);
      ConvertEndsIffClosed(lines[1..], name, m);
      ConvertAppends(lines[1..], name, m);
      var one, next := ConvertLines(lines[1..], name, map[]), ConvertLines(lines[1..], name, m);
      HangsIffUnclosed(one.rest, map[]);
      HangsIffUnclosed(one.rest, one.m);
      ParseAppends(one.rest, one.m);
      ParseAppends(one.rest, next.m);
      AppendedTrans(m, one.m, next.m, Parse(one.rest, map[]).m, Parse(lines, map[]).m, Parse(lines, m).m);
    } else {
      HangsIffUnclosed(lines[1..], m);
      ParseAppends(lines[1..], m);
    }
  }

  /** Loading two modules gives every kernel its lists in load order; the order of loading is all that matters. */
  lemma LoadTwo(a: seq<string>, b: seq<string>, name: string)
    requires !HasUnclosedHeader(a) && !HasUnclosedHeader(b)
    ensures Parse(a, map[]).Parsed? && Parse(b, map[]).Parsed? && Parse(b, Parse(a, map[]).m).Parsed?
    ensures Params(Parse(b, Parse(a, map[]).m).m, name)
         == Params(Parse(a, map[]).m, name) + Params(Parse(b, map[]).m, name)
  {
    ParseAppends(a, map[]);
    ParseAppends(b, Parse(a, map[]).m);
  }

  /** Appending either of two tables with no common name to the other gives the same table. */
  lemma AppendedCommute(a: Prototypes, b: Prototypes, ab: Prototypes, ba: Prototypes)
    requires Appended(a, b, ab) && Appended(b, a, ba) && a.Keys !! b.Keys
    ensures ab == ba
  {
    assert ab.Keys == ba.Keys;
    forall name | name in ab.Keys
      ensures ab[name] == ba[name]
    {
      assert Params(ab, name) == Params(a, name) + Params(b, name);
      assert Params(ba, name) == Params(b, name) + Params(a, name);
    }
  }

  /** Modules that share no kernel name can be loaded in either order. */
  lemma DisjointModulesCommute(a: seq<string>, b: seq<string>)
    requires !HasUnclosedHeader(a) && !HasUnclosedHeader(b)
    requires Parse(a, map[]).Parsed? && Parse(b, map[]).Parsed?
    requires Parse(a, map[]).m.Keys !! Parse(b, map[]).m.Keys
    ensures Parse(b, Parse(a, map[]).m) == Parse(a, Parse(b, map[]).m)
  {
    hide Parse, HasUnclosedHeader, Appended;
    var ma, mb := Parse(a, map[]).m, Parse(b, map[]).m;
    ParseAppends(b, ma);
    ParseAppends(a, mb);
    AppendedCommute(ma, mb, Parse(b, ma).m, Parse(a, mb).m);
  }

  /** Loading a module again doubles its lists: the reason a module may be loaded once only. */
  lemma ReloadDoubles(a: seq<string>, name: string)
    requires !HasUnclosedHeader(a)
    ensures Parse(a, map[]).Parsed? && Parse(a, Parse(a, map[]).m).Parsed?
    ensures Params(Parse(a, Parse(a, map[]).m).m, name)
         == Params(Parse(a, map[]).m, name) + Params(Parse(a, map[]).m, name)
  {
    LoadTwo(a, a, name);
  }

  // ---------- parsing undoes printing ----------

  datatype Param = Param(ty: string, ident: string)
  datatype Kernel = Kernel(name: string, params: seq<Param>)
  /** A kernel header with the lines since the previous one. */
  datatype Section = Section(before: seq<string>, kernel: Kernel)
  datatype Module = Module(sections: seq<Section>, after: seq<string>)

  predicate WellNamed(k: Kernel) {
    && k.name != "" && AllWord(k.name)
    && forall i :: 0 <= i < |k.params| ==>
         var ty := k.params[i].ty; |ty| >= 2 && ty[0] == '.' && AllWord(ty[1..])
  }

  predicate Plain(lines: seq<string>) {
    forall i :: 0 <= i < |lines| ==> !IsHeader(lines[i])
  }

  predicate WellFormed(sections: seq<Section>) {
    forall i :: 0 <= i < |sections| ==> Plain(sections[i].before) && WellNamed(sections[i].kernel)
  }

  function PrintHeader(name: string): string {
    ".visible .entry " + name + "("
  }

  function PrintParam(p: Param, last: bool): string {
    "\t.param " + p.ty + " " + p.ident + (if last then "" else ",")
  }

  function PrintParams(params: seq<Param>): seq<string> {
    if params == [] then []
    else [PrintParam(params[0], |params| == 1)] + PrintParams(params[1..])
  }

  function PrintKernel(k: Kernel): seq<string> {
    [PrintHeader(k.name)] + (PrintParams(k.params) + [")"])
  }

  function PrintModule(sections: seq<Section>, after: seq<string>): seq<string> {
    if sections == [] then after
    else sections[0].before + (PrintKernel(sections[0].kernel) + PrintModule(sections[1..], after))
  }

  /** What the compiler prints for a kernel: without parameters, the header closes on its own line. */
  function PrintEntry(k: Kernel): seq<string> {
    if k.params == [] then [PrintHeader(k.name) + ")"] else PrintKernel(k)
  }

  function PrintCompiled(sections: seq<Section>, after: seq<string>): seq<string> {
    if sections == [] then after
    else sections[0].before + (PrintEntry(sections[0].kernel) + PrintCompiled(sections[1..], after))
  }

  function Print(m: Module): seq<string> {
    PrintCompiled(m.sections, m.after)
  }

  predicate HaveParams(sections: seq<Section>) {
    forall i :: 0 <= i < |sections| ==> sections[i].kernel.params != []
  }

  function Types(params: seq<Param>): seq<string> {
    if params == [] then [] else [params[0].ty] + Types(params[1..])
  }

  /** The types a module declares for one name. */
  function Declared(sections: seq<Section>, name: string): seq<string> {
    if sections == [] then []
    else (if sections[0].kernel.name == name then Types(sections[0].kernel.params) else [])
         + Declared(sections[1..], name)
  }

  lemma {:induction false} WordEndFound(s: string, at: nat, word: string)
    requires StartsAt(s, at, word) && AllWord(word)
    requires at + |word| < |s| && !IsWord(s[at + |word|])
    ensures WordEnd(s, at) == at + |word|
    decreases |word|
  {
    if word != "" {
      assert s[at..at + |word|][0] == word[0];
      assert s[at + 1..at + |word|] == word[1..];
      WordEndFound(s, at + 1, word[1..]);
    }
  }

  lemma {:induction false} EntrySkips(s: string, start: nat, end: nat)
    requires start <= end <= |s| && forall at :: start <= at < end ==> !StartsAt(s, at, ".entry ")
    ensures EntryFrom(s, start) == EntryFrom(s, end)
    decreases |s| - start
  {
    if start < end { EntrySkips(s, start + 1, end); }
  }

  /** A literal found at a position shows its first two characters there. */
  lemma StartsWith(s: string, at: nat, literal: string)
    requires |literal| >= 2
    ensures StartsAt(s, at, literal) ==> s[at] == literal[0] && s[at + 1] == literal[1]
  {
    assert StartsAt(s, at, literal) ==> s[at..at + |literal|][0] == s[at] && s[at..at + |literal|][1] == s[at + 1];
  }

  /** The parts of a header line, whatever follows its opening parenthesis. */
  lemma HeaderParts(name: string, rest: string)
    ensures var s := PrintHeader(name) + rest;
            && StartsAt(s, 9, ".entry ") && StartsAt(s, 9, ".entry") && StartsAt(s, 16, name)
            && |s| > 16 + |name| && s[16 + |name|] == '('
            && s[0] == '.' && s[1] == 'v' && forall at :: 1 <= at < 9 ==> s[at] != '.'
  {
    var s, head := PrintHeader(name) + rest, ".visible .entry ";
    assert |head| == 16 && s == head + (name + ("(" + rest));
    assert s[..16] == head && s[16..] == name + ("(" + rest);
    assert head[9..16] == ".entry " && s[9..16] == s[..16][9..16];
    assert s[9..15] == head[9..15] == ".entry";
    assert forall at :: 0 <= at < 16 ==> s[at] == head[at];
    assert s[16..16 + |name|] == s[16..][..|name|] == name;
    assert s[16 + |name|] == s[16..][|name|] == '(';
  }

  /** The regular expression finds the name in a header line, whatever follows its opening parenthesis. */
  lemma HeaderFound(name: string, rest: string)
    requires name != "" && AllWord(name)
    ensures IsHeader(PrintHeader(name) + rest) && EntryName(PrintHeader(name) + rest) == name
  {
    hide PrintHeader;
    var s := PrintHeader(name) + rest;
    HeaderParts(name, rest);
    forall at | 0 <= at < 9
      ensures !StartsAt(s, at, ".entry ")
    {
      StartsWith(s, at, ".entry ");
    }
    EntrySkips(s, 0, 9);
    WordEndFound(s, 16, name);
    assert EntryAt(s, 9) == Some(name);
  }

  lemma HeaderParsed(name: string)
    requires name != "" && AllWord(name)
    ensures IsHeader(PrintHeader(name)) && EntryName(PrintHeader(name)) == name
  {
    HeaderFound(name, "");
    assert PrintHeader(name) + "" == PrintHeader(name);
  }

  /** The characters of a printed parameter line that the regular expression passes over. */
  lemma ParamLineStarts(p: Param, last: bool)
    requires |p.ty| >= 2 && p.ty[0] == '.'
    ensures var s := PrintParam(p, last);
            && |s| > 8 + |p.ty| && s[0] == '\t' && s[8 + |p.ty|] == ' ' && StartsAt(s, 8, p.ty)
            && StartsAt(s, 1, ".param") && s[7] == ' ' && s[8] == '.'
  {
    var s, head := PrintParam(p, last), "\t.param ";
    var rest := " " + p.ident + (if last then "" else ",");
    assert |head| == 8 && s == head + (p.ty + rest);
    assert s[..8] == head && s[8..] == p.ty + rest;
    assert head[1..7] == ".param" && s[1..7] == s[..8][1..7];
    assert s[8] == (p.ty + rest)[0] && s[8 + |p.ty|] == (p.ty + rest)[|p.ty|] == rest[0];
    assert s[8..8 + |p.ty|] == (p.ty + rest)[..|p.ty|];
  }

  /** The type is matched right behind the blank, as far as its word goes. */
  lemma TypeMatched(s: string, ty: string)
    requires |ty| >= 2 && ty[0] == '.' && AllWord(ty[1..])
    requires |s| > 8 + |ty| && s[8 + |ty|] == ' ' && StartsAt(s, 8, ty)
    requires StartsAt(s, 1, ".param") && s[7] == ' ' && s[8] == '.'
    ensures ParamAt(s, 1) == Some(ty)
  {
    hide StartsAt;
    SpaceEndsAt(s, 7);
    assert s[8..8 + |ty|] == ty by { TypeThere(s, ty); }
    assert s[9..8 + |ty|] == s[8..8 + |ty|][1..] == ty[1..];
    WordEndThere(s, 9, ty[1..]);
  }

  lemma TypeThere(s: string, ty: string)
    requires StartsAt(s, 8, ty)
    ensures |s| >= 8 + |ty| && s[8..8 + |ty|] == ty
  {
  }

  lemma SpaceEndsAt(s: string, at: nat)
    requires at + 1 < |s| && s[at] == ' ' && !IsSpace(s[at + 1])
    ensures SpaceEnd(s, at) == at + 1
  {
    assert SpaceEnd(s, at + 1) == at + 1;
  }

  lemma WordEndThere(s: string, at: nat, word: string)
    requires at + |word| < |s| && s[at..at + |word|] == word && AllWord(word) && !IsWord(s[at + |word|])
    ensures WordEnd(s, at) == at + |word|
  {
    WordEndFound(s, at, word);
  }

  lemma ParamParsed(p: Param, last: bool)
    requires |p.ty| >= 2 && p.ty[0] == '.' && AllWord(p.ty[1..])
    ensures ParamType(PrintParam(p, last)) == Some(p.ty)
    ensures PrintParam(p, last) != ")"
  {
    var s := PrintParam(p, last);
    ParamLineStarts(p, last);
    TypeMatched(s, p.ty);
    StartsWith(s, 0, ".param");
    assert ParamAt(s, 0).None?;
    assert ParamFrom(s, 1) == Some(p.ty);
  }

  function Extend(m: Prototypes, name: string, types: seq<string>): Prototypes {
    if types == [] then m else m[name := Params(m, name) + types]
  }

  lemma ExtendTwice(m: Prototypes, name: string, ty: string, types: seq<string>)
    ensures Extend(Extend(m, name, [ty]), name, types) == Extend(m, name, [ty] + types)
  {
    assert Params(m, name) + [ty] + types == Params(m, name) + ([ty] + types);
    assert [ty] + [] == [ty];
  }

  lemma {:induction false} ParamsParsed(params: seq<Param>, rest: seq<string>, name: string, m: Prototypes)
    requires WellNamed(Kernel(name, params))
    ensures ConvertLines(PrintParams(params) + [")"] + rest, name, m)
         == Closed(Extend(m, name, Types(params)), rest)
    decreases |params|
  {
    var lines := PrintParams(params) + [")"] + rest;
    if params == [] {
      assert lines == [")"] + rest;
      CloseHasNoParam();
    } else {
      var line, tail := PrintParam(params[0], |params| == 1), PrintParams(params[1..]) + [")"] + rest;
      assert lines == [line] + tail;
      assert lines[0] == line && lines[1..] == tail;
      ParamParsed(params[0], |params| == 1);
      assert Push(m, name, line) == Extend(m, name, [params[0].ty]);
      assert WellNamed(Kernel(name, params[1..]));
      ParamsParsed(params[1..], rest, name, Push(m, name, line));
      ExtendTwice(m, name, params[0].ty, Types(params[1..]));
    }
  }

  lemma CloseHasNoParam()
    ensures ParamType(")").None?
  {
    assert ParamAt(")", 0).None? && ParamFrom(")", 1).None?;
  }

  /** A header line hands the lines after it to the inner loop. */
  lemma HeaderOpens(line: string, body: seq<string>, name: string, m: Prototypes, next: Prototypes, rest: seq<string>)
    requires IsHeader(line) && EntryName(line) == name && ConvertLines(body, name, m) == Closed(next, rest)
    ensures Parse([line] + body, m) == Parse(rest, next)
  {
    assert ([line] + body)[0] == line && ([line] + body)[1..] == body;
  }

  lemma {:induction false} PlainSkipped(before: seq<string>, rest: seq<string>, m: Prototypes)
    requires Plain(before)
    ensures Parse(before + rest, m) == Parse(rest, m)
    decreases |before|
  {
    if before == [] {
      assert before + rest == rest;
    } else {
      assert before + rest == [before[0]] + (before[1..] + rest);
      PlainSkipped(before[1..], rest, m);
    }
  }

  /** A printed header is consumed whole, and adds its types to its kernel. */
  lemma KernelParsed(k: Kernel, rest: seq<string>, m: Prototypes)
    requires WellNamed(k)
    ensures Parse(PrintKernel(k) + rest, m) == Parse(rest, Extend(m, k.name, Types(k.params)))
  {
    hide Parse, ConvertLines, IsHeader, EntryName, PrintHeader, Extend;
    var body := PrintParams(k.params) + [")"] + rest;
    assert PrintKernel(k) + rest == [PrintHeader(k.name)] + body;
    HeaderParsed(k.name);
    ParamsParsed(k.params, rest, k.name, m);
    HeaderOpens(PrintHeader(k.name), body, k.name, m, Extend(m, k.name, Types(k.params)), rest);
  }

  /** The types that a kernel declares for a name: its own, if it is its name. */
  function Own(k: Kernel, name: string): seq<string> {
    if k.name == name then Types(k.params) else []
  }

  lemma ExtendedBy(m: Prototypes, k: Kernel, name: string)
    ensures Params(Extend(m, k.name, Types(k.params)), name) == Params(m, name) + Own(k, name)
  {
  }

  lemma DeclaredFirst(sections: seq<Section>, name: string)
    requires sections != []
    ensures Declared(sections, name) == Own(sections[0].kernel, name) + Declared(sections[1..], name)
  {
  }

  /** What one kernel declares is what its header added. */
  lemma FirstDeclares(sections: seq<Section>, name: string, m: Prototypes)
    requires sections != []
    ensures var k := sections[0].kernel;
            Params(Extend(m, k.name, Types(k.params)), name) + Declared(sections[1..], name)
            == Params(m, name) + Declared(sections, name)
  {
    hide Params, Extend, Declared, Types, Own;
    ExtendedBy(m, sections[0].kernel, name);
    DeclaredFirst(sections, name);
  }

  lemma NothingDeclared(after: seq<string>, m: Prototypes)
    requires Plain(after)
    ensures Parse(after, m) == Parsed(m)
  {
    PlainSkipped(after, [], m);
    assert after + [] == after;
  }

  /** Parsing a printed module appends exactly the declared types, in order, to each name, and nothing else. */
  lemma {:induction false} ParseUndoesPrint(sections: seq<Section>, after: seq<string>, m: Prototypes)
    requires WellFormed(sections) && Plain(after)
    ensures var r := Parse(PrintModule(sections, after), m);
            r.Parsed? && forall name :: Params(r.m, name) == Params(m, name) + Declared(sections, name)
    decreases |sections|
  {
    hide Parse, PrintKernel, Extend, Params, IsHeader;
    if sections == [] {
      NothingDeclared(after, m);
    } else {
      var k, rest := sections[0].kernel, PrintModule(sections[1..], after);
      PlainSkipped(sections[0].before, PrintKernel(k) + rest, m);
      KernelParsed(k, rest, m);
      ParseUndoesPrint(sections[1..], after, Extend(m, k.name, Types(k.params)));
      forall name
        ensures Params(Extend(m, k.name, Types(k.params)), name) + Declared(sections[1..], name)
             == Params(m, name) + Declared(sections, name)
      {
        FirstDeclares(sections, name, m);
      }
    }
  }

  ghost predicate DistinctNames(sections: seq<Section>) {
    forall i, j :: 0 <= i < j < |sections| ==> sections[i].kernel.name != sections[j].kernel.name
  }

  lemma {:induction false} DeclaredOnce(sections: seq<Section>, i: nat)
    requires i < |sections| && DistinctNames(sections)
    ensures Declared(sections, sections[i].kernel.name) == Types(sections[i].kernel.params)
    decreases |sections|
  {
    var name := sections[i].kernel.name;
    if i == 0 {
      NotDeclared(sections[1..], name);
    } else {
      DeclaredOnce(sections[1..], i - 1);
    }
  }

  lemma {:induction false} NotDeclared(sections: seq<Section>, name: string)
    requires forall i :: 0 <= i < |sections| ==> sections[i].kernel.name != name
    ensures Declared(sections, name) == []
  {
    if sections != [] { NotDeclared(sections[1..], name); }
  }

  /** With distinct kernel names, a fresh parse gives each kernel exactly its own parameter types. */
  lemma {:induction false} PrototypesRecovered(sections: seq<Section>, after: seq<string>, i: nat)
    requires WellFormed(sections) && Plain(after) && DistinctNames(sections) && i < |sections|
    ensures var r := Parse(PrintModule(sections, after), map[]);
            r.Parsed? && Params(r.m, sections[i].kernel.name) == Types(sections[i].kernel.params)
  {
    ParseUndoesPrint(sections, after, map[]);
    DeclaredOnce(sections, i);
  }

  // ---------- exactly when a compiled file is parsed right ----------

  /** If every kernel has parameters, every header is closed on a line of its own. */
  lemma {:induction false} CompiledHasBlocks(sections: seq<Section>, after: seq<string>)
    requires HaveParams(sections)
    ensures PrintCompiled(sections, after) == PrintModule(sections, after)
    decreases |sections|
  {
    if sections != [] { CompiledHasBlocks(sections[1..], after); }
  }

  /** The table after parsing has, for every name, what it had before and what the kernels declare. */
  ghost predicate Right(r: Outcome, m: Prototypes, sections: seq<Section>) {
    r.Parsed? && forall name :: Params(r.m, name) == Params(m, name) + Declared(sections, name)
  }

  /** Neither a header nor a closing line: whatever stands between kernels. */
  predicate Quiet(lines: seq<string>) {
    forall i :: 0 <= i < |lines| ==> !IsHeader(lines[i]) && lines[i] != ")"
  }

  /** A name has lost no types, and gained some if told so. */
  predicate Grown(m: Prototypes, next: Prototypes, name: string, strictly: bool) {
    |Params(m, name)| + (if strictly then 1 else 0) <= |Params(next, name)|
  }

  lemma PushGrows(m: Prototypes, name: string, line: string)
    ensures Grown(m, Push(m, name, line), name, false)
  {
  }

  /** The table when the inner loop has gone over lines that do not close it. */
  function PushAll(lines: seq<string>, name: string, m: Prototypes): Prototypes
    decreases |lines|
  {
    if lines == [] then m else PushAll(lines[1..], name, Push(m, name, lines[0]))
  }

  lemma {:induction false} LinesPassed(lines: seq<string>, rest: seq<string>, name: string, m: Prototypes)
    requires ")" !in lines
    ensures ConvertLines(lines + rest, name, m) == ConvertLines(rest, name, PushAll(lines, name, m))
    ensures Grown(m, PushAll(lines, name, m), name, false)
    decreases |lines|
  {
    if lines == [] {
      assert lines + rest == rest;
    } else {
      assert lines + rest == [lines[0]] + (lines[1..] + rest);
      PushGrows(m, name, lines[0]);
      LinesPassed(lines[1..], rest, name, Push(m, name, lines[0]));
    }
  }

  lemma HeaderIsNotClose(name: string, rest: string)
    ensures PrintHeader(name) + rest != ")"
  {
    HeaderParts(name, rest);
  }

  lemma ExtendGrows(m: Prototypes, name: string, params: seq<Param>)
    requires params != []
    ensures Grown(m, Extend(m, name, Types(params)), name, true)
  {
    assert Types(params) != [];
    assert Params(Extend(m, name, Types(params)), name) == Params(m, name) + Types(params);
  }

  /** The inner loop of a header that is still open reaches the end of the file, or takes another kernel's types. */
  ghost predicate Swallows(b: Block, m: Prototypes, name: string) {
    b.Closed? ==> Grown(m, b.m, name, true)
  }

  lemma OpenHeaderMeets(s: Section, rest: seq<string>, name: string, m: Prototypes)
    requires Quiet(s.before) && WellNamed(s.kernel) && name != "" && AllWord(name)
    ensures var next := PushAll(s.before + [PrintEntry(s.kernel)[0]], name, m);
            && Grown(m, next, name, false)
            && ConvertLines(s.before + (PrintEntry(s.kernel) + rest), name, m)
               == if s.kernel.params == [] then ConvertLines(rest, name, next)
                  else Closed(Extend(next, name, Types(s.kernel.params)), rest)
  {
    hide ConvertLines, PushAll, Extend, IsHeader, PrintHeader, Grown;
    var k, lines := s.kernel, s.before + [PrintEntry(s.kernel)[0]];
    HeaderIsNotClose(k.name, "");
    HeaderIsNotClose(k.name, ")");
    assert PrintHeader(k.name) + "" == PrintHeader(k.name);
    if k.params == [] {
      assert s.before + (PrintEntry(k) + rest) == lines + rest;
      LinesPassed(lines, rest, name, m);
    } else {
      var block := PrintParams(k.params) + [")"] + rest;
      assert s.before + (PrintEntry(k) + rest) == lines + block;
      LinesPassed(lines, block, name, m);
      assert WellNamed(Kernel(name, k.params));
      ParamsParsed(k.params, rest, name, PushAll(lines, name, m));
    }
  }

  lemma {:induction false} OpenHeaderSwallows(sections: seq<Section>, after: seq<string>, name: string, m: Prototypes)
    requires forall i :: 0 <= i < |sections| ==> Quiet(sections[i].before) && WellNamed(sections[i].kernel)
    requires Quiet(after) && name != "" && AllWord(name)
    ensures Swallows(ConvertLines(PrintCompiled(sections, after), name, m), m, name)
    decreases |sections|
  {
    hide ConvertLines, PushAll, Extend, PrintHeader, IsHeader, Types;
    if sections == [] {
      ConvertEndsIffClosed(after, name, m);
      assert ")" !in after;
    } else {
      var s, rest := sections[0], PrintCompiled(sections[1..], after);
      var next := PushAll(s.before + [PrintEntry(s.kernel)[0]], name, m);
      OpenHeaderMeets(s, rest, name, m);
      if s.kernel.params == [] {
        OpenHeaderSwallows(sections[1..], after, name, next);
      } else {
        ExtendGrows(next, name, s.kernel.params);
      }
    }
  }

  /** What a name has been given stays. */
  lemma ParseKeeps(lines: seq<string>, m: Prototypes, name: string)
    ensures var r := Parse(lines, m);
            r.Parsed? ==> Grown(m, r.m, name, false)
  {
    hide Parse;
    HangsIffUnclosed(lines, m);
    if Parse(lines, m).Parsed? { ParseAppends(lines, m); }
  }

  lemma HeaderHands(line: string, body: seq<string>, m: Prototypes)
    requires IsHeader(line)
    ensures var b := ConvertLines(body, EntryName(line), m);
            Parse([line] + body, m) == if b.Unending? then Hangs else Parse(b.rest, b.m)
  {
    assert ([line] + body)[0] == line && ([line] + body)[1..] == body;
  }

  /** A kernel without parameters ends up with some, or the parse does not end. */
  lemma BareHeaderMisread(sections: seq<Section>, after: seq<string>, m: Prototypes)
    requires sections != [] && sections[0].kernel.params == []
    requires forall i :: 0 <= i < |sections| ==> Quiet(sections[i].before) && WellNamed(sections[i].kernel)
    requires Quiet(after)
    ensures var r := Parse(PrintCompiled(sections, after), m);
            r.Parsed? ==> Grown(m, r.m, sections[0].kernel.name, true)
  {
    hide Parse, ConvertLines, IsHeader, EntryName, PrintHeader, HasUnclosedHeader;
    var s, rest := sections[0], PrintCompiled(sections[1..], after);
    var line := PrintHeader(s.kernel.name) + ")";
    HeaderFound(s.kernel.name, ")");
    QuietIsPlain(s.before);
    PlainSkipped(s.before, PrintEntry(s.kernel) + rest, m);
    HeaderHands(line, rest, m);
    OpenHeaderSwallows(sections[1..], after, s.kernel.name, m);
    var b := ConvertLines(rest, s.kernel.name, m);
    if b.Closed? { ParseKeeps(b.rest, b.m, s.kernel.name); }
  }

  lemma QuietIsPlain(lines: seq<string>)
    requires Quiet(lines)
    ensures Plain(lines)
  {
  }

  /** Behind a kernel with parameters the question is the same one, for the rest of the file. */
  lemma RightBehindBlock(sections: seq<Section>, after: seq<string>, m: Prototypes)
    requires sections != [] && Plain(sections[0].before) && WellNamed(sections[0].kernel)
    requires sections[0].kernel.params != []
    ensures var k := sections[0].kernel;
            Right(Parse(PrintCompiled(sections, after), m), m, sections)
            <==> Right(Parse(PrintCompiled(sections[1..], after), Extend(m, k.name, Types(k.params))),
                       Extend(m, k.name, Types(k.params)), sections[1..])
  {
    hide Parse, PrintKernel, Extend, Params, IsHeader, Types, Declared;
    var k, rest := sections[0].kernel, PrintCompiled(sections[1..], after);
    PlainSkipped(sections[0].before, PrintKernel(k) + rest, m);
    KernelParsed(k, rest, m);
    forall name
      ensures Params(Extend(m, k.name, Types(k.params)), name) + Declared(sections[1..], name)
           == Params(m, name) + Declared(sections, name)
    {
      FirstDeclares(sections, name, m);
    }
  }

  lemma {:induction false} MisreadIfBare(sections: seq<Section>, after: seq<string>, m: Prototypes)
    requires forall i :: 0 <= i < |sections| ==> Quiet(sections[i].before) && WellNamed(sections[i].kernel)
    requires Quiet(after) && DistinctNames(sections) && !HaveParams(sections)
    ensures !Right(Parse(PrintCompiled(sections, after), m), m, sections)
    decreases |sections|
  {
    hide Parse, PrintCompiled, Extend, Types, IsHeader, WellNamed;
    var k := sections[0].kernel;
    if k.params == [] {
      BareHeaderMisread(sections, after, m);
      DeclaredOnce(sections, 0);
      NoTypes(k.params);
    } else {
      QuietIsPlain(sections[0].before);
      RightBehindBlock(sections, after, m);
      MisreadIfBare(sections[1..], after, Extend(m, k.name, Types(k.params)));
    }
  }

  lemma NoTypes(params: seq<Param>)
    requires params == []
    ensures Types(params) == []
  {
  }

  /**
   * A file as the compiler prints it is parsed right if and only if every kernel has parameters. The inner loop
   * ends at a line that is just `)`; the header of a kernel without parameters has no such line, so it takes the
   * parameters of a later kernel, or never ends.
   */
  lemma ParsedRightIff(sections: seq<Section>, after: seq<string>, m: Prototypes)
    requires forall i :: 0 <= i < |sections| ==> Quiet(sections[i].before) && WellNamed(sections[i].kernel)
    requires Quiet(after) && DistinctNames(sections)
    ensures Right(Parse(PrintCompiled(sections, after), m), m, sections) <==> HaveParams(sections)
  {
    hide Parse, PrintCompiled, PrintModule, Params, Declared;
    if HaveParams(sections) {
      QuietIsPlain(after);
      forall i | 0 <= i < |sections|
        ensures Plain(sections[i].before)
      {
        QuietIsPlain(sections[i].before);
      }
      CompiledHasBlocks(sections, after);
      ParseUndoesPrint(sections, after, m);
    } else {
      MisreadIfBare(sections, after, m);
    }
  }

  /** A line without a dot is neither a header nor a parameter. */
  lemma DotlessIsQuiet(line: string)
    requires '.' !in line
    ensures !IsHeader(line) && ParamType(line).None?
  {
    forall at | 0 <= at <= |line|
      ensures !StartsAt(line, at, ".entry") && !StartsAt(line, at, ".param")
    {
      StartsWith(line, at, ".entry");
      StartsWith(line, at, ".param");
    }
    NoParamFrom(line, 0);
  }

  lemma {:induction false} NoParamFrom(s: string, start: nat)
    requires forall at :: 0 <= at < |s| ==> !StartsAt(s, at, ".param")
    ensures ParamFrom(s, start).None?
    decreases |s| - start
  {
    if start < |s| { NoParamFrom(s, start + 1); }
  }

  lemma HeaderHasNoParam(name: string)
    requires AllWord(name)
    ensures ParamType(PrintHeader(name)).None?
  {
    var s := PrintHeader(name);
    HeaderParts(name, "");
    assert s + "" == s;
    forall at | 0 <= at < |s|
      ensures !StartsAt(s, at, ".param")
    {
      StartsWith(s, at, ".param");
      if 16 <= at < 16 + |name| {
        assert s[at] == s[16..16 + |name|][at - 16] == name[at - 16];
      }
    }
    NoParamFrom(s, 0);
  }

  lemma {:induction false} NothingPushed(lines: seq<string>, name: string, m: Prototypes)
    requires forall i :: 0 <= i < |lines| ==> ParamType(lines[i]).None?
    ensures PushAll(lines, name, m) == m
    decreases |lines|
  {
    if lines != [] { NothingPushed(lines[1..], name, m); }
  }

  const BODY: seq<string> := ["{", "\tret;", "}"]

  lemma BodyIsQuiet()
    ensures Quiet(BODY) && forall i :: 0 <= i < |BODY| ==> ParamType(BODY[i]).None?
  {
    DotlessIsQuiet("{");
    DotlessIsQuiet("\tret;");
    DotlessIsQuiet("}");
  }

  const SECOND: Kernel := Kernel("second", [Param(".u32", "second_param_0")])

  /** For one: the parameter of `second` is given to `first`, which has none, and `second` is left without. */
  lemma BareHeaderShows()
    ensures var text := [".visible .entry first()"] + (BODY + ([".visible .entry second("] +
                        (["\t.param .u32 second_param_0", ")"] + BODY)));
            var r := Parse(text, map[]);
            r.Parsed? && Params(r.m, "first") == [".u32"] && Params(r.m, "second") == []
  {
    hide Parse, ConvertLines, IsHeader, EntryName, ParamType, PushAll;
    var first, second := ".visible .entry first()", ".visible .entry second(";
    var block := ["\t.param .u32 second_param_0", ")"] + BODY;
    assert first == PrintHeader("first") + ")" && second == PrintHeader("second");
    HeaderFound("first", ")");
    HeaderIsNotClose("second", "");
    assert second + "" == second;
    HeaderHasNoParam("second");
    BodyIsQuiet();
    var lines := BODY + [second];
    assert lines + block == BODY + ([second] + block);
    LinesPassed(lines, block, "first", map[]);
    NothingPushed(lines, "first", map[]);
    SecondParsed(BODY);
    HeaderOpens(first, lines + block, "first", map[], map["first" := [".u32"]], BODY);
    NothingDeclared(BODY, map["first" := [".u32"]]);
  }

  lemma SecondParsed(rest: seq<string>)
    ensures ConvertLines(["\t.param .u32 second_param_0", ")"] + rest, "first", map[])
         == Closed(map["first" := [".u32"]], rest)
  {
    var p := SECOND.params[0];
    assert PrintParam(p, true) == "\t.param .u32 second_param_0";
    assert SECOND.params[1..] == [] && PrintParams([]) == [];
    assert PrintParams(SECOND.params) == [PrintParam(p, true)];
    assert ["\t.param .u32 second_param_0", ")"] + rest == PrintParams(SECOND.params) + [")"] + rest;
    assert Types(SECOND.params) == [".u32"];
    ParamsParsed(SECOND.params, rest, "first", map[]);
    assert [] + [".u32"] == [".u32"];
  }

  // ---------- what the driver reads ----------

  /** The bytes of a fundamental type (section 5.2.1 of the PTX ISA 8.2); 0 for anything else. */
  function TypeWidth(ty: string): nat {
    if ty in {".u64", ".s64", ".b64", ".f64"} then 8
    else if ty in {".u32", ".s32", ".b32", ".f32"} then 4
    else if ty in {".u16", ".s16", ".b16", ".f16"} then 2
    else if ty in {".u8", ".s8", ".b8"} then 1
    else 0
  }

  /** An eighth of the number in the name of the type. */
  lemma TypeWidthInName(kind: char)
    requires kind in {'u', 's', 'b', 'f'}
    ensures TypeWidth(['.', kind, '6', '4']) == 64 / 8 && TypeWidth(['.', kind, '3', '2']) == 32 / 8
    ensures TypeWidth(['.', kind, '1', '6']) == 16 / 8
    ensures kind != 'f' ==> TypeWidth(['.', kind, '8']) == 8 / 8
  {
    assert ".u64" == ['.', 'u', '6', '4'] && ".u32" == ['.', 'u', '3', '2'];
  }

  function WidthsOf(types: seq<string>): (widths: seq<nat>)
    ensures |widths| == |types|
  {
    seq(|types|, i requires 0 <= i < |types| => TypeWidth(types[i]))
  }

  // ---------- the parser object ----------

  class PtxFile {
    var lines: seq<string>    // not read yet

    constructor (lines: seq<string>)
      ensures this.lines == lines
    {
      this.lines := lines;
    }

    method GetLine() returns (line: Option<string>)
      modifies this
      ensures old(lines) == [] ==> line.None? && lines == []
      ensures old(lines) != [] ==> line == Some(old(lines)[0]) && lines == old(lines)[1..]
    {
      if lines == [] {
        line := None;
      } else {
        line := Some(lines[0]);
        lines := lines[1..];
      }
    }
  }

  class CUFuncProto {
    var hashmap: Prototypes

    constructor ()
      ensures hashmap == map[]
    {
      hashmap := map[];
    }

    /** `ends` is false where the source reads past the end of the file forever. */
    method Convert(file: PtxFile, entry: string) returns (ends: bool)
      modifies this, file
      ensures ends <==> ")" in old(file.lines)
      ensures ends ==> ConvertLines(old(file.lines), EntryName(entry), old(hashmap)) == Closed(hashmap, file.lines)
    {
      var name := EntryName(entry);
      ghost var all, known := file.lines, hashmap;
      ConvertEndsIffClosed(all, name, known);
      var line := "";
      while line != ")"
        invariant line != ")" ==> ConvertLines(all, name, known) == ConvertLines(file.lines, name, hashmap)
        invariant line == ")" ==> ConvertLines(all, name, known) == Closed(hashmap, file.lines)
        decreases line != ")", |file.lines|
      {
        var next := file.GetLine();
        if next.None? {
          return false;
        }
        line := next.value;
        hashmap := Push(hashmap, name, line);
      }
      ends := true;
    }

    method AddModule(file: PtxFile) returns (ends: bool)
      modifies this, file
      ensures ends <==> !HasUnclosedHeader(old(file.lines))
      ensures ends ==> Parse(old(file.lines), old(hashmap)) == Parsed(hashmap)
    {
      ghost var all, known := file.lines, hashmap;
      HangsIffUnclosed(all, known);
      while file.lines != []
        invariant Parse(all, known) == Parse(file.lines, hashmap)
        decreases |file.lines|
      {
        var line := file.GetLine();
        if IsHeader(line.value) {
          ghost var body, before := file.lines, hashmap;
          ConvertEndsIffClosed(body, EntryName(line.value), before);
          var closed := Convert(file, line.value);
          if !closed {
            return false;
          }
        }
      }
      ends := true;
    }

    /** Looking up an unknown name adds it with no parameters. */
    method GetParams(name: string) returns (params: seq<string>)
      modifies this
      ensures params == Params(old(hashmap), name)
      ensures hashmap == old(hashmap)[name := params]
    {
      params := Params(hashmap, name);
      hashmap := hashmap[name := params];
    }
  }

  // ---------- the shipped module ----------

  const VECTOR_ADD: Kernel := Kernel("vectorAdd", [
    Param(".u64", "vectorAdd_param_0"), Param(".u64", "vectorAdd_param_1"),
    Param(".u64", "vectorAdd_param_2"), Param(".u32", "vectorAdd_param_3")])

  lemma FourParams(a: Param, b: Param, c: Param, d: Param)
    ensures PrintParams([a, b, c, d])
         == [PrintParam(a, false), PrintParam(b, false), PrintParam(c, false), PrintParam(d, true)]
  {
    assert [d][1..] == [] && [c, d][1..] == [d] && [b, c, d][1..] == [c, d] && [a, b, c, d][1..] == [b, c, d];
    assert PrintParams([d]) == [PrintParam(d, true)];
    assert PrintParams([c, d]) == [PrintParam(c, false), PrintParam(d, true)];
  }

  lemma ShippedHeader()
    ensures PrintHeader("vectorAdd") == ".visible .entry vectorAdd("
  {
  }

  lemma ShippedLine(ident: string)
    ensures PrintParam(Param(".u64", ident), false) == "\t.param .u64 " + ident + ","
    ensures PrintParam(Param(".u32", ident), true) == "\t.param .u32 " + ident
  {
  }

  /** Its header as the shipped file has it, line by line. */
  lemma ShippedText()
    ensures PrintKernel(VECTOR_ADD) == [
              ".visible .entry vectorAdd(",
              "\t.param .u64 " + "vectorAdd_param_0" + ",",
              "\t.param .u64 " + "vectorAdd_param_1" + ",",
              "\t.param .u64 " + "vectorAdd_param_2" + ",",
              "\t.param .u32 " + "vectorAdd_param_3",
              ")"]
  {
    hide PrintParams, PrintParam, PrintHeader;
    var ps := VECTOR_ADD.params;
    FourParams(ps[0], ps[1], ps[2], ps[3]);
    ShippedHeader();
    ShippedLine(ps[0].ident);
    ShippedLine(ps[1].ident);
    ShippedLine(ps[2].ident);
    ShippedLine(ps[3].ident);
  }

  /** The shipped file declares one kernel; whatever plain lines surround the header, its prototype is found. */
  lemma ShippedPrototype(before: seq<string>, after: seq<string>)
    requires Plain(before) && Plain(after)
    ensures var r := Parse(Print(Module([Section(before, VECTOR_ADD)], after)), map[]);
            r.Parsed? && Params(r.m, "vectorAdd") == [".u64", ".u64", ".u64", ".u32"]
    ensures Declared([Section(before, VECTOR_ADD)], "vectorAdd") == [".u64", ".u64", ".u64", ".u32"]
  {
    hide Parse, PrintModule, PrintCompiled;
    var sections := [Section(before, VECTOR_ADD)];
    assert WellNamed(VECTOR_ADD);
    CompiledHasBlocks(sections, after);
    PrototypesRecovered(sections, after, 0);
    DeclaredOnce(sections, 0);
    ShippedTypes();
  }

  lemma ShippedTypes()
    ensures Types(VECTOR_ADD.params) == [".u64", ".u64", ".u64", ".u32"]
    ensures WidthsOf([".u64", ".u64", ".u64", ".u32"]) == [8, 8, 8, 4]
  {
    assert VECTOR_ADD.params[1..][1..][1..][1..] == [];
    assert TypeWidth(".u64") == 8 && TypeWidth(".u32") == 4;
  }
}
