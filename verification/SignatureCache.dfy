/** The signature file of assign3/trace-system-calls.cc: what is written to it
    and what reading it back gives. */
module SignatureCache {
  import opened Decimal
  import opened Text
  import opened Wrappers

  datatype ParamType = Integer | String | Pointer | Unknown

  type Signature = seq<ParamType>

  function TypeName(t: ParamType): (s: string)
    ensures IsWord(s) && TypeNamed(s) == t
  {
    match t
    case Integer => "SYSCALL_INTEGER"
    case String => "SYSCALL_STRING"
    case Pointer => "SYSCALL_POINTER"
    case Unknown => "SYSCALL_UNKNOWN_TYPE"
  }

  function TypeNamed(s: string): ParamType
  {
    if s == "SYSCALL_INTEGER" then Integer
    else if s == "SYSCALL_STRING" then String
    else if s == "SYSCALL_POINTER" then Pointer
    else Unknown
  }

  // ----- words on a stream

  predicate IsWord(s: string) { s != "" && forall i :: 0 <= i < |s| ==> !IsSpace(s[i]) }

  function WordLength(s: string): (n: nat)
    ensures n <= |s|
  {
    if s == "" || IsSpace(s[0]) then 0 else 1 + WordLength(s[1..])
  }

  /** `is >> str` on the bytes still unread: the word, empty when there is none,
      and what is left. */
  function Extract(s: string): (r: (string, string))
    ensures r.0 != "" ==> |r.1| < |s|
    ensures |r.1| <= |s|
  {
    SkipSpaceShortens(s);
    var t := SkipSpace(s);
    var n := WordLength(t);
    (t[..n], t[n..])
  }

  lemma {:induction false} SkipSpaceShortens(s: string)
    ensures |SkipSpace(s)| <= |s|
  {
    if s != "" && IsSpace(s[0]) {
      SkipSpaceShortens(s[1..]);
    }
  }

  predicate StartsApart(rest: string) { rest == "" || IsSpace(rest[0]) }

  lemma {:induction false} WordLengthOf(w: string, rest: string)
    requires (forall i :: 0 <= i < |w| ==> !IsSpace(w[i])) && StartsApart(rest)
    ensures WordLength(w + rest) == |w|
  {
    if w == "" {
      assert w + rest == rest;
    } else {
      assert (w + rest)[1..] == w[1..] + rest;
      WordLengthOf(w[1..], rest);
    }
  }

  lemma ExtractWord(w: string, rest: string)
    requires IsWord(w) && StartsApart(rest)
    ensures Extract(w + rest) == (w, rest)
  {
    WordLengthOf(w, rest);
    assert SkipSpace(w + rest) == w + rest;
  }

  lemma ExtractAfterSpace(c: char, s: string)
    requires IsSpace(c)
    ensures Extract([c] + s) == Extract(s)
  {
    assert ([c] + s)[1..] == s;
  }

  // ----- what is written

  function PrintTypes(types: Signature): string
  {
    if types == [] then "" else " " + TypeName(types[0]) + PrintTypes(types[1..])
  }

  function PrintLine(name: string, types: Signature): string
  {
    name + (" " + (Print(|types|) + (PrintTypes(types) + "\n")))
  }

  function PrintAll(m: map<string, Signature>, names: seq<string>): string
    requires forall i :: 0 <= i < |names| ==> names[i] in m
  {
    if names == [] then "" else PrintLine(names[0], m[names[0]]) + PrintAll(m, names[1..])
  }

  /** Every name once, in some order. */
  ghost predicate Enumerates(names: seq<string>, m: map<string, Signature>)
  {
    && (forall i :: 0 <= i < |names| ==> names[i] in m)
    && (forall name :: name in m ==> name in names)
    && forall i, j :: 0 <= i < j < |names| ==> names[i] != names[j]
  }

  lemma {:induction false} PrintAllAppend(m: map<string, Signature>, names: seq<string>, name: string)
    requires name in m && forall i :: 0 <= i < |names| ==> names[i] in m
    ensures PrintAll(m, names + [name]) == PrintAll(m, names) + PrintLine(name, m[name])
  {
    if names == [] {
      assert names + [name] == [name];
      assert PrintAll(m, [name][1..]) == "";
    } else {
      assert (names + [name])[1..] == names[1..] + [name];
      PrintAllAppend(m, names[1..], name);
    }
  }

  lemma LineIs(name: string, types: Signature)
    ensures PrintLine(name, types) == name + (" " + (Print(|types|) + (PrintTypes(types) + "\n")))
  {
  }

  method WriteTypes(types: Signature) returns (s: string)
    ensures s == PrintTypes(types)
  {
    hide TypeName;
    s := "";
    for i := 0 to |types|
      invariant s + PrintTypes(types[i..]) == PrintTypes(types)
    {
      ghost var before := s;
      s := s + (" " + TypeName(types[i]));
      assert types[i..][1..] == types[i + 1..];
      assert before + PrintTypes(types[i..]) == s + PrintTypes(types[i + 1..]);
    }
  }

  /** The file written, in whatever order the map is traversed. */
  method CacheSignatures(m: map<string, Signature>) returns (file: string)
    ensures exists names :: Enumerates(names, m) && file == PrintAll(m, names)
    ensures Loadable(m) ==> Load(file, map[]) == Ok(m)
  {
    hide PrintTypes, Print, PrintLine, Load, Loadable;
    file := "";
    ghost var names: seq<string> := [];
    var left := m.Keys;
    while left != {}
      invariant left <= m.Keys
      invariant forall name :: name in names <==> name in m && name !in left
      invariant forall i, j :: 0 <= i < j < |names| ==> names[i] != names[j]
      invariant forall i :: 0 <= i < |names| ==> names[i] in m
      invariant file == PrintAll(m, names)
    {
      var name :| name in left;
      var types := WriteTypes(m[name]);
      assert PrintLine(name, m[name]) == name + (" " + (Print(|m[name]|) + (types + "\n"))) by { LineIs(name, m[name]); }
      file := file + (name + (" " + (Print(|m[name]|) + (types + "\n"))));
      PrintAllAppend(m, names, name);
      assert name !in names;
      names, left := names + [name], left - {name};
    }
    assert Enumerates(names, m);
    if Loadable(m) {
      LoadOfCache(m, names);
    }
  }

  // ----- what is read

  /** `stoi` throws on a count that is missing, is no number, or is out of range. */
  datatype Error = BadCount

  /** A type missing at the end of the file reads as unknown. */
  function ReadTypes(s: string, n: int): (r: (Signature, string))
    ensures |r.1| <= |s|
    decreases n
  {
    if n <= 0 then ([], s)
    else
      var (word, rest) := Extract(s);
      var (types, left) := ReadTypes(rest, n - 1);
      ([TypeNamed(word)] + types, left)
  }

  /** Entries are appended to those the map already holds. */
  function Load(s: string, m: map<string, Signature>): Result<map<string, Signature>, Error>
    decreases |s|
  {
    var (name, s1) := Extract(s);
    if name == "" then Ok(m)
    else
      var (count, s2) := Extract(s1);
      var n := Parse(count, INT_MAX);
      if n.None? then Err(BadCount)
      else
        var (types, s3) := ReadTypes(s2, n.value);
        Load(s3, m[name := SoFar(m, name) + types])
  }

  class InputStream {
    var rest: string

    constructor (contents: string)
      ensures rest == contents
    {
      rest := contents;
    }

    method ExtractString() returns (word: string)
      modifies this
      ensures (word, rest) == Extract(old(rest))
    {
      var r := Extract(rest);
      word, rest := r.0, r.1;
    }

    method ExtractType() returns (t: ParamType)
      modifies this
      ensures rest == Extract(old(rest)).1 && t == TypeNamed(Extract(old(rest)).0)
    {
      var word := ExtractString();
      t := TypeNamed(word);
    }

    method ExtractTypes(n: int) returns (types: Signature)
      modifies this
      ensures (types, rest) == ReadTypes(old(rest), n)
    {
      hide Extract, TypeNamed;
      types := [];
      ghost var all := ReadTypes(rest, n);
      assert [] + all.0 == all.0;
      for i := 0 to if n < 0 then 0 else n
        invariant all.0 == types + ReadTypes(rest, n - i).0
        invariant all.1 == ReadTypes(rest, n - i).1
      {
        var t := ExtractType();
        assert types + ([t] + ReadTypes(rest, n - i - 1).0) == (types + [t]) + ReadTypes(rest, n - i - 1).0;
        types := types + [t];
      }
      assert types + [] == types;
    }

    method LoadSignatures(before: map<string, Signature>) returns (r: Result<map<string, Signature>, Error>)
      modifies this
      ensures r == Load(old(rest), before)
    {
      var signatures := before;
      while true
        invariant Load(rest, signatures) == Load(old(rest), before)
        decreases |rest|
      {
        var name := ExtractString();
        if name == "" {
          return Ok(signatures);
        }
        var count := ExtractString();
        var n := Parse(count, INT_MAX);
        if n.None? {
          return Err(BadCount);
        }
        var types := ExtractTypes(n.value);
        signatures := signatures[name := (if name in signatures then signatures[name] else []) + types];
      }
      return Ok(signatures);
    }
  }

  // ----- reading back what was written

  lemma PrintedApart(types: Signature, rest: string)
    requires types != []
    ensures PrintTypes(types) + rest == [' '] + (TypeName(types[0]) + (PrintTypes(types[1..]) + rest))
  {
    hide TypeName;
  }

  lemma {:induction false} TypesReadBack(types: Signature, rest: string)
    requires StartsApart(rest)
    ensures ReadTypes(PrintTypes(types) + rest, |types|) == (types, rest)
    ensures StartsApart(PrintTypes(types) + rest)
  {
    hide Extract, TypeName, TypeNamed, IsWord;
    if types == [] {
      assert PrintTypes(types) + rest == rest;
    } else {
      PrintedApart(types, rest);
      hide PrintTypes;
      var name, more := TypeName(types[0]), PrintTypes(types[1..]) + rest;
      TypesReadBack(types[1..], rest);
      ExtractAfterSpace(' ', name + more);
      ExtractWord(name, more);
      assert [types[0]] + types[1..] == types;
    }
  }

  lemma PrintedIsWord(n: nat)
    ensures IsWord(Print(n))
  {
    assert forall i :: 0 <= i < |Print(n)| ==> IsDigit(Print(n)[i]);
  }

  function SoFar(m: map<string, Signature>, name: string): Signature { if name in m then m[name] else [] }

  /** Reading one printed line, which may follow the end of the line before. */
  lemma LineReadBack(name: string, types: Signature, rest: string, m: map<string, Signature>)
    requires IsWord(name) && |types| <= INT_MAX
    ensures Load(PrintLine(name, types) + rest, m) == Load("\n" + rest, m[name := SoFar(m, name) + types])
  {
    hide PrintTypes, Print, Parse, Extract, ReadTypes;
    var tail := "\n" + rest;
    var s2 := PrintTypes(types) + tail;
    var s1 := " " + (Print(|types|) + s2);
    assert PrintLine(name, types) + rest == name + s1;
    ExtractWord(name, s1);
    TypesReadBack(types, tail);
    PrintedIsWord(|types|);
    ExtractAfterSpace(' ', Print(|types|) + s2);
    ExtractWord(Print(|types|), s2);
    PrintThenParse(|types|, INT_MAX);
  }

  lemma LoadAfterNewline(s: string, m: map<string, Signature>)
    ensures Load("\n" + s, m) == Load(s, m)
  {
    ExtractAfterSpace('\n', s);
  }

  /** The names are words, as they are for system calls. */
  predicate Loadable(m: map<string, Signature>)
  {
    forall name :: name in m ==> IsWord(name) && |m[name]| <= INT_MAX
  }

  function Part(m: map<string, Signature>, names: seq<string>): map<string, Signature>
    requires forall i :: 0 <= i < |names| ==> names[i] in m
  {
    map name | name in names :: m[name]
  }

  lemma PartAfterFirst(m: map<string, Signature>, names: seq<string>, before: map<string, Signature>)
    requires names != [] && forall i :: 0 <= i < |names| ==> names[i] in m
    ensures before[names[0] := m[names[0]]] + Part(m, names[1..]) == before + Part(m, names)
  {
    assert names == [names[0]] + names[1..];
  }

  lemma NothingBefore(m: map<string, Signature>, name: string, types: Signature)
    requires name !in m
    ensures SoFar(m, name) + types == types
  {
  }

  lemma {:induction false} LinesReadBack(m: map<string, Signature>, names: seq<string>, before: map<string, Signature>)
    requires forall i :: 0 <= i < |names| ==> names[i] in m && IsWord(names[i]) && |m[names[i]]| <= INT_MAX && names[i] !in before
    requires forall i, j :: 0 <= i < j < |names| ==> names[i] != names[j]
    ensures Load(PrintAll(m, names), before) == Ok(before + Part(m, names))
  {
    if names == [] {
      assert before + Part(m, names) == before;
    } else {
      var name, rest := names[0], names[1..];
      NothingBefore(before, name, m[name]);
      hide Load, PrintLine, IsWord, Part, SoFar;
      LineReadBack(name, m[name], PrintAll(m, rest), before);
      LoadAfterNewline(PrintAll(m, rest), before[name := m[name]]);
      LinesReadBack(m, rest, before[name := m[name]]);
      PartAfterFirst(m, names, before);
    }
  }

  /** Loading a written file into an empty map gives back the map. */
  lemma LoadOfCache(m: map<string, Signature>, names: seq<string>)
    requires Enumerates(names, m) && Loadable(m)
    ensures Load(PrintAll(m, names), map[]) == Ok(m)
  {
    hide Load, PrintAll;
    LinesReadBack(m, names, map[]);
    assert map[] + Part(m, names) == m;
  }

  // ----- reading other files

  datatype Line = Line(name: string, types: Signature)

  function PrintLines(lines: seq<Line>): string
  {
    if lines == [] then "" else PrintLine(lines[0].name, lines[0].types) + PrintLines(lines[1..])
  }

  /** The types on all lines for the name, one line after the other. */
  function Collected(lines: seq<Line>, name: string): Signature
  {
    if lines == [] then []
    else (if lines[0].name == name then lines[0].types else []) + Collected(lines[1..], name)
  }

  function Names(lines: seq<Line>): set<string>
  {
    if lines == [] then {} else {lines[0].name} + Names(lines[1..])
  }

  /** Whatever the map held before, and however often a name occurs, every entry is
      extended by the types on its lines. */
  lemma {:induction false} LinesAreAppended(lines: seq<Line>, before: map<string, Signature>, name: string)
    requires forall i :: 0 <= i < |lines| ==> IsWord(lines[i].name) && |lines[i].types| <= INT_MAX
    ensures var r := Load(PrintLines(lines), before);
            && r.Ok? && (name in r.value <==> name in before || name in Names(lines))
            && SoFar(r.value, name) == SoFar(before, name) + Collected(lines, name)
  {
    if lines == [] {
      assert SoFar(before, name) + [] == SoFar(before, name);
    } else {
      hide Load, PrintLine, IsWord, SoFar;
      var line := lines[0];
      var next := before[line.name := SoFar(before, line.name) + line.types];
      LineReadBack(line.name, line.types, PrintLines(lines[1..]), before);
      LoadAfterNewline(PrintLines(lines[1..]), next);
      LinesAreAppended(lines[1..], next, name);
      OneLineAppended(line, before, name, Collected(lines[1..], name));
    }
  }

  lemma OneLineAppended(line: Line, before: map<string, Signature>, name: string, more: Signature)
    ensures SoFar(before[line.name := SoFar(before, line.name) + line.types], name) + more
            == SoFar(before, name) + ((if line.name == name then line.types else []) + more)
  {
    assert [] + more == more;
    assert (SoFar(before, name) + line.types) + more == SoFar(before, name) + (line.types + more);
  }

  function Unknowns(n: nat): Signature { if n == 0 then [] else [Unknown] + Unknowns(n - 1) }

  lemma {:induction false} NoTypesLeft(n: nat)
    ensures ReadTypes("", n) == (Unknowns(n), "")
  {
    if n > 0 {
      NoTypesLeft(n - 1);
    }
  }

  lemma FirstTypeRead(types: Signature)
    requires types != []
    ensures Extract(PrintTypes(types)) == (TypeName(types[0]), PrintTypes(types[1..]))
  {
    hide Extract, TypeName, TypeNamed;
    var name, more := TypeName(types[0]), PrintTypes(types[1..]);
    TypesReadBack(types[1..], "");
    assert more + "" == more && PrintTypes(types) == [' '] + (name + more);
    ExtractAfterSpace(' ', name + more);
    ExtractWord(name, more);
  }

  /** A file that ends before all its types does not fail: the missing ones are unknown. */
  lemma {:induction false} MissingTypesAreUnknown(types: Signature, n: nat)
    requires |types| <= n
    ensures ReadTypes(PrintTypes(types), n) == (types + Unknowns(n - |types|), "")
  {
    hide Extract, TypeName, TypeNamed, Unknowns, IsWord;
    if types == [] {
      NoTypesLeft(n);
      assert [] + Unknowns(n) == Unknowns(n);
    } else {
      hide PrintTypes;
      MissingTypesAreUnknown(types[1..], n - 1);
      FirstTypeRead(types);
      assert [types[0]] + (types[1..] + Unknowns(n - |types|)) == types + Unknowns(n - |types|);
    }
  }

  /** A count that is no number ends the reading. */
  lemma BadCountFails(name: string, count: string, rest: string, m: map<string, Signature>)
    requires IsWord(name) && IsWord(count) && Parse(count, INT_MAX).None? && StartsApart(rest)
    ensures Load(name + (" " + (count + rest)), m) == Err(BadCount)
  {
    hide Extract, Parse;
    ExtractWord(name, " " + (count + rest));
    ExtractAfterSpace(' ', count + rest);
    ExtractWord(count, rest);
  }
}
