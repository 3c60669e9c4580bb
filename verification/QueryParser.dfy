/** `convertQuery` of assign1/amazon.cc: lower-casing, filtering, and grouping
    words into search terms by unquoted spaces.  Characters are bytes and the
    classification is that of the C locale. */
module QueryParser {

  type Term = seq<string>

  function ToLower(c: char): char { if 'A' <= c <= 'Z' then c - 'A' + 'a' else c }

  predicate IsAlnum(c: char) { 'a' <= c <= 'z' || 'A' <= c <= 'Z' || '0' <= c <= '9' }

  predicate Kept(c: char) { IsAlnum(c) || c == '"' || c == ' ' || c == '-' }

  /** The first loop: lower-cased, with every other character dropped. */
  function Clean(query: string): string
  {
    if query == "" then ""
    else if Kept(ToLower(query[0])) then [ToLower(query[0])] + Clean(query[1..])
    else Clean(query[1..])
  }

  /** The lower-cased alphanumeric characters, in order. */
  function Letters(query: string): string
  {
    if query == "" then ""
    else if IsAlnum(ToLower(query[0])) then [ToLower(query[0])] + Letters(query[1..])
    else Letters(query[1..])
  }

  // ----- the reference: split at unquoted spaces, then into words

  /** The pieces of q between unquoted spaces. */
  function Chunks(q: string, quoted: bool): (cs: seq<string>)
    ensures |cs| > 0
  {
    if q == "" then [""]
    else if q[0] == ' ' && !quoted then [""] + Chunks(q[1..], false)
    else
      var rest := Chunks(q[1..], if q[0] == '"' then !quoted else quoted);
      [[q[0]] + rest[0]] + rest[1..]
  }

  /** The words of a chunk, some empty: they end at spaces, dashes and closing
      quotes, and an opening quote is no part of a word. */
  function Pieces(chunk: string, quoted: bool): (ps: seq<string>)
    ensures |ps| > 0
  {
    if chunk == "" then [""]
    else if chunk[0] == '"' then
      if quoted then [""] + Pieces(chunk[1..], false) else Pieces(chunk[1..], true)
    else if chunk[0] == ' ' || chunk[0] == '-' then [""] + Pieces(chunk[1..], quoted)
    else
      var rest := Pieces(chunk[1..], quoted);
      [[chunk[0]] + rest[0]] + rest[1..]
  }

  function NonEmpty<T(==)>(xs: seq<seq<T>>): seq<seq<T>>
  {
    if xs == [] then [] else if xs[0] == [] then NonEmpty(xs[1..]) else [xs[0]] + NonEmpty(xs[1..])
  }

  function WordsOf(chunk: string): Term { NonEmpty(Pieces(chunk, false)) }

  function TermsOf(chunks: seq<string>): seq<Term>
  {
    if chunks == [] then []
    else if WordsOf(chunks[0]) == [] then TermsOf(chunks[1..])
    else [WordsOf(chunks[0])] + TermsOf(chunks[1..])
  }

  /** The search terms of a query, by the reference. */
  function Terms(query: string): seq<Term> { TermsOf(Chunks(Clean(query), false)) }

  function Flat(xs: seq<string>): string
  {
    if xs == [] then "" else Flat(xs[..|xs| - 1]) + xs[|xs| - 1]
  }

  function FlatTerms(ts: seq<Term>): string
  {
    if ts == [] then "" else FlatTerms(ts[..|ts| - 1]) + Flat(ts[|ts| - 1])
  }

  predicate NoneEmpty(ts: seq<Term>)
  {
    forall i :: 0 <= i < |ts| ==> ts[i] != [] && forall j :: 0 <= j < |ts[i]| ==> ts[i][j] != ""
  }

  // ----- the loop

  /** Adds the current word, if there is one, to the current term. */
  function Push(words: Term, word: string): Term { if word != "" then words + [word] else words }

  function Glue(word: string, ps: seq<string>): seq<string>
    requires ps != []
  {
    [word + ps[0]] + ps[1..]
  }

  lemma GlueFacts(word: string, ps: seq<string>)
    ensures Glue(word, [""] + ps) == [word] + ps
    ensures ps != [] ==> Glue("", ps) == ps
  {
    assert word + "" == word;
    assert ([""] + ps)[1..] == ps;
    if ps != [] {
      assert "" + ps[0] == ps[0];
    }
  }

  /** What the loop still has to deliver, by the reference. */
  function Rest(words: Term, word: string, quoted: bool, q: string): seq<Term>
  {
    var cs := Chunks(q, quoted);
    var ps := Pieces(cs[0], quoted);
    var first := words + NonEmpty(Glue(word, ps));
    (if first == [] then [] else [first]) + TermsOf(cs[1..])
  }

  lemma NonEmptyCons(x: string, xs: seq<string>)
    ensures NonEmpty([x] + xs) == (if x == "" then [] else [x]) + NonEmpty(xs)
  {
    assert ([x] + xs)[1..] == xs;
  }

  lemma {:induction false} RestStep(words: Term, word: string, quoted: bool, q: string)
    requires q != ""
    ensures var c, r := q[0], q[1..];
            Rest(words, word, quoted, q) ==
            if c == '"' then (if quoted then Rest(Push(words, word), "", false, r) else Rest(words, word, true, r))
            else if c == ' ' && !quoted then
              (if Push(words, word) == [] then [] else [Push(words, word)]) + Rest([], "", false, r)
            else if c == ' ' || c == '-' then Rest(Push(words, word), "", quoted, r)
            else Rest(words, word + [c], quoted, r)
  {
    var c, r := q[0], q[1..];
    if c == ' ' && !quoted {
      RestUnquotedSpace(words, word, r);
    } else if (c == '"' && quoted) || c == ' ' || c == '-' {
      RestSeparator(words, word, quoted, q);
    } else {
      RestOther(words, word, quoted, q);
    }
  }

  lemma RestSeparator(words: Term, word: string, quoted: bool, q: string)
    requires q != "" && ((q[0] == '"' && quoted) || (q[0] == ' ' && quoted) || q[0] == '-')
    ensures Rest(words, word, quoted, q) == Rest(Push(words, word), "", quoted && q[0] != '"', q[1..])
  {
    var quoted' := quoted && q[0] != '"';
    var cs, rs := Chunks(q, quoted), Chunks(q[1..], quoted');
    assert cs[0][1..] == rs[0] && cs[1..] == rs[1..];
    var ps := Pieces(rs[0], quoted');
    assert Pieces(cs[0], quoted) == [""] + ps;
    GlueFacts(word, ps);
    NonEmptyCons(word, ps);
    assert words + ((if word == "" then [] else [word]) + NonEmpty(ps)) == Push(words, word) + NonEmpty(ps);
  }

  lemma RestOther(words: Term, word: string, quoted: bool, q: string)
    requires q != "" && q[0] != ' ' && q[0] != '-' && !(q[0] == '"' && quoted)
    ensures Rest(words, word, quoted, q) ==
            if q[0] == '"' then Rest(words, word, true, q[1..]) else Rest(words, word + [q[0]], quoted, q[1..])
  {
    var c := q[0];
    var quoted' := if c == '"' then true else quoted;
    var cs, rs := Chunks(q, quoted), Chunks(q[1..], quoted');
    assert cs[0][1..] == rs[0] && cs[1..] == rs[1..];
    var ps := Pieces(rs[0], quoted');
    if c != '"' {
      assert word + ([c] + ps[0]) == (word + [c]) + ps[0];
      assert ([[c] + ps[0]] + ps[1..])[1..] == ps[1..];
    }
  }

  lemma RestUnquotedSpace(words: Term, word: string, r: string)
    ensures Rest(words, word, false, [' '] + r) ==
            (if Push(words, word) == [] then [] else [Push(words, word)]) + Rest([], "", false, r)
  {
    var q := [' '] + r;
    assert q[1..] == r;
    var rs := Chunks(r, false);
    assert Chunks(q, false) == [""] + rs && ([""] + rs)[1..] == rs;
    NonEmptyCons(word, []);
    GlueFacts(word, []);
    assert [word] + [] == [word];
    assert words + NonEmpty([word]) == Push(words, word);
    var ps := Pieces(rs[0], false);
    GlueFacts("", ps);
    assert [] + NonEmpty(ps) == WordsOf(rs[0]);
  }

  /** Words grouped so far: none empty, and made of the letters read so far. */
  ghost predicate Grouped(letters: string, terms: seq<Term>, words: Term, word: string)
  {
    && NoneEmpty(terms)
    && (forall j :: 0 <= j < |words| ==> words[j] != "")
    && FlatTerms(terms) + Flat(words) + word == letters
  }

  lemma PushKeepsGrouped(letters: string, terms: seq<Term>, words: Term, word: string)
    requires Grouped(letters, terms, words, word)
    ensures Grouped(letters, terms, Push(words, word), "")
  {
    if word != "" {
      assert (words + [word])[..|words|] == words;
      assert FlatTerms(terms) + (Flat(words) + word) + "" == FlatTerms(terms) + Flat(words) + word;
    } else {
      assert FlatTerms(terms) + Flat(words) + "" == FlatTerms(terms) + Flat(words) + word;
    }
  }

  lemma FinishKeepsGrouped(letters: string, terms: seq<Term>, words: Term)
    requires Grouped(letters, terms, words, "") && words != []
    ensures Grouped(letters, terms + [words], [], "")
  {
    assert (terms + [words])[..|terms|] == terms;
    assert (FlatTerms(terms) + Flat(words)) + "" + "" == FlatTerms(terms) + Flat(words) + "";
  }

  lemma LetterKeepsGrouped(letters: string, terms: seq<Term>, words: Term, word: string, c: char)
    requires Grouped(letters, terms, words, word)
    ensures Grouped(letters + [c], terms, words, word + [c])
  {
    assert FlatTerms(terms) + Flat(words) + (word + [c]) == (FlatTerms(terms) + Flat(words) + word) + [c];
  }

  method CleanQuery(query: string) returns (newStr: string)
    ensures newStr == Clean(query)
  {
    newStr := "";
    for i := 0 to |query|
      invariant newStr + Clean(query[i..]) == Clean(query)
    {
      var c := ToLower(query[i]);
      assert query[i..][1..] == query[i + 1..];
      if IsAlnum(c) || c == '"' || c == ' ' || c == '-' {
        newStr := newStr + [c];
      }
    }
    assert query[|query|..] == "";
  }

  method ConvertQuery(query: string) returns (allSearchTerms: seq<Term>)
    ensures allSearchTerms == Terms(query)
    ensures NoneEmpty(allSearchTerms)
    ensures FlatTerms(allSearchTerms) == Letters(query)
  {
    var newStr := CleanQuery(query);
    allSearchTerms := GroupTerms(query, newStr);
    LettersOfClean(query);
  }

  /** The second loop and what follows it. */
  method GroupTerms(ghost original: string, query: string) returns (allSearchTerms: seq<Term>)
    requires query == Clean(original)
    ensures allSearchTerms == TermsOf(Chunks(query, false))
    ensures NoneEmpty(allSearchTerms) && FlatTerms(allSearchTerms) == Letters(query)
  {
    hide Rest, TermsOf, Chunks, Clean;
    allSearchTerms := [];
    var currentTerms: Term := [];
    var currentTerm := "";
    var quoteFound := false;
    FirstRest(query);
    assert [] + Rest([], "", false, query) == Rest([], "", false, query);
    for i := 0 to |query|
      invariant allSearchTerms + Rest(currentTerms, currentTerm, quoteFound, query[i..]) == TermsOf(Chunks(query, false))
      invariant Grouped(Letters(query[..i]), allSearchTerms, currentTerms, currentTerm)
    {
      CleanIsClean(original, i);
      LettersAppend(query[..i], query[i]);
      assert query[i..][1..] == query[i + 1..] && query[..i + 1] == query[..i] + [query[i]];
      allSearchTerms, currentTerms, currentTerm, quoteFound :=
        Consume(query[i], allSearchTerms, currentTerms, currentTerm, quoteFound, query[i..], Letters(query[..i]));
    }
    assert query[|query|..] == "" && query[..|query|] == query;
    RestOfNothing(currentTerms, currentTerm, quoteFound);
    currentTerms, currentTerm := EndWord(Letters(query), allSearchTerms, currentTerms, currentTerm);
    allSearchTerms, currentTerms := EndTerm(Letters(query), allSearchTerms, currentTerms, []);
    GroupedDone(Letters(query), allSearchTerms);
  }

  lemma GroupedDone(letters: string, terms: seq<Term>)
    requires Grouped(letters, terms, [], "")
    ensures FlatTerms(terms) == letters
  {
    assert FlatTerms(terms) + "" + "" == FlatTerms(terms);
  }

  /** The body of the grouping loop for the character c that begins `ahead`. */
  method Consume(c: char, terms: seq<Term>, words: Term, word: string, quoted: bool, ghost ahead: string, ghost letters: string)
    returns (terms': seq<Term>, words': Term, word': string, quoted': bool)
    requires ahead != "" && ahead[0] == c && Kept(c) && ToLower(c) == c
    requires Grouped(letters, terms, words, word)
    ensures terms' + Rest(words', word', quoted', ahead[1..]) == terms + Rest(words, word, quoted, ahead)
    ensures Grouped(letters + (if IsAlnum(c) then [c] else ""), terms', words', word')
  {
    RestStep(words, word, quoted, ahead);
    assert letters + "" == letters;
    terms', words', word', quoted' := terms, words, word, quoted;
    if c == '"' {
      quoted' := !quoted';
      if !quoted' {
        words', word' := EndWord(letters, terms', words', word');
      }
    } else if c == ' ' {
      words', word' := EndWord(letters, terms', words', word');
      if !quoted' {
        terms', words' := EndTerm(letters, terms', words', Rest([], "", false, ahead[1..]));
      }
    } else if c == '-' {
      words', word' := EndWord(letters, terms', words', word');
    } else {
      LetterKeepsGrouped(letters, terms', words', word', c);
      word' := word' + [c];
    }
  }

  /** `if (currentTerm != "") { currentTerms.push_back(currentTerm); currentTerm = ""; }` */
  method EndWord(ghost letters: string, ghost terms: seq<Term>, words: Term, word: string)
    returns (words': Term, word': string)
    requires Grouped(letters, terms, words, word)
    ensures words' == Push(words, word) && word' == ""
    ensures Grouped(letters, terms, words', word')
  {
    PushKeepsGrouped(letters, terms, words, word);
    words', word' := words, word;
    if word != "" {
      words', word' := words + [word], "";
    }
  }

  /** `if (currentTerms.size() != 0) { ... }`: a non-empty term is delivered. */
  method EndTerm(ghost letters: string, terms: seq<Term>, words: Term, ghost rest: seq<Term>)
    returns (terms': seq<Term>, words': Term)
    requires Grouped(letters, terms, words, "")
    ensures terms' == terms + (if words == [] then [] else [words]) && words' == []
    ensures terms' + rest == terms + ((if words == [] then [] else [words]) + rest)
    ensures Grouped(letters, terms', words', "")
  {
    terms', words' := terms, words;
    if |words| != 0 {
      FinishKeepsGrouped(letters, terms, words);
      terms', words' := terms + [words], [];
    }
  }

  lemma RestOfNothing(words: Term, word: string, quoted: bool)
    ensures Rest(words, word, quoted, "") == if Push(words, word) == [] then [] else [Push(words, word)]
  {
    GlueFacts(word, []);
    NonEmptyCons(word, []);
    assert Pieces("", quoted) == [""] + [] && [word] + [] == [word];
    assert words + NonEmpty([word]) == Push(words, word);
  }

  lemma FirstRest(q: string)
    ensures Rest([], "", false, q) == TermsOf(Chunks(q, false))
  {
    hide Chunks, Pieces;
    var cs := Chunks(q, false);
    var ps := Pieces(cs[0], false);
    GlueFacts("", ps);
    assert [] + NonEmpty(ps) == WordsOf(cs[0]);
  }

  lemma {:induction false} LettersAppend(q: string, c: char)
    ensures Letters(q + [c]) == Letters(q) + (if IsAlnum(ToLower(c)) then [ToLower(c)] else "")
  {
    if q != "" {
      assert (q + [c])[1..] == q[1..] + [c];
      LettersAppend(q[1..], c);
    } else {
      assert q + [c] == [c] && [c][1..] == "";
    }
  }

  lemma {:induction false} CleanIsClean(query: string, i: nat)
    requires i < |Clean(query)|
    ensures Kept(Clean(query)[i]) && ToLower(Clean(query)[i]) == Clean(query)[i]
  {
    if Kept(ToLower(query[0])) {
      if i > 0 {
        CleanIsClean(query[1..], i - 1);
      }
    } else {
      CleanIsClean(query[1..], i);
    }
  }

  lemma {:induction false} LettersOfClean(query: string)
    ensures Letters(Clean(query)) == Letters(query)
  {
    if query != "" {
      LettersOfClean(query[1..]);
      if Kept(ToLower(query[0])) {
        assert Clean(query)[1..] == Clean(query[1..]);
      }
    }
  }

  // ----- quoting is inverted

  predicate IsWord(w: string)
  {
    w != "" && forall i :: 0 <= i < |w| ==> IsAlnum(w[i]) && ToLower(w[i]) == w[i]
  }

  predicate IsTerm(t: Term)
  {
    t != [] && forall i :: 0 <= i < |t| ==> IsWord(t[i])
  }

  function JoinWords(t: Term, separator: char): string
  {
    if t == [] then "" else if |t| == 1 then t[0] else t[0] + ([separator] + JoinWords(t[1..], separator))
  }

  /** A term as a phrase in quotes, or as hyphenated words. */
  datatype Style = Quoted(separator: char) | Hyphenated

  function Write(t: Term, style: Style): string
  {
    match style
    case Quoted(separator) => "\"" + (JoinWords(t, separator) + "\"")
    case Hyphenated => JoinWords(t, '-')
  }

  predicate ValidStyle(style: Style) { style.Quoted? ==> style.separator == ' ' || style.separator == '-' }

  function JoinTerms(ts: seq<Term>, styles: seq<Style>): string
    requires |styles| == |ts|
  {
    if ts == [] then ""
    else if |ts| == 1 then Write(ts[0], styles[0])
    else Write(ts[0], styles[0]) + (" " + JoinTerms(ts[1..], styles[1..]))
  }

  lemma {:induction false} CleanFixed(q: string)
    requires Steady(q)
    ensures Clean(q) == q
  {
    if q != "" {
      CleanFixed(q[1..]);
    }
  }

  /** Characters that stay as they are and neither open nor close a quote. */
  predicate Plain(q: string)
  {
    forall i :: 0 <= i < |q| ==> Kept(q[i]) && ToLower(q[i]) == q[i] && q[i] != '"'
  }

  lemma {:induction false} JoinWordsPlain(t: Term, separator: char)
    requires (forall i :: 0 <= i < |t| ==> IsWord(t[i])) && (separator == ' ' || separator == '-')
    ensures Plain(JoinWords(t, separator))
    ensures separator == '-' ==> forall i :: 0 <= i < |JoinWords(t, separator)| ==> JoinWords(t, separator)[i] != ' '
  {
    if |t| > 1 {
      JoinWordsPlain(t[1..], separator);
    }
  }

  predicate Steady(q: string)
  {
    forall i :: 0 <= i < |q| ==> Kept(q[i]) && ToLower(q[i]) == q[i]
  }

  lemma WriteSteady(t: Term, style: Style)
    requires IsTerm(t) && ValidStyle(style)
    ensures Steady(Write(t, style))
  {
    JoinWordsPlain(t, if style.Quoted? then style.separator else '-');
    hide JoinWords, IsWord;
  }

  lemma {:induction false} JoinTermsSteady(ts: seq<Term>, styles: seq<Style>)
    requires |styles| == |ts| && forall i :: 0 <= i < |ts| ==> IsTerm(ts[i]) && ValidStyle(styles[i])
    ensures Steady(JoinTerms(ts, styles))
  {
    hide Write, IsTerm, ValidStyle, Kept, ToLower;
    if ts != [] {
      WriteSteady(ts[0], styles[0]);
      if |ts| > 1 {
        JoinTermsSteady(ts[1..], styles[1..]);
        assert Kept(' ') && ToLower(' ') == ' ' by { SpaceSteady(); }
      }
    }
  }

  lemma SpaceSteady()
    ensures Kept(' ') && ToLower(' ') == ' '
  {
  }

  /** A stretch without quotes is not split inside quotes, nor outside them if it
      has no spaces. */
  lemma {:induction false} ChunksOfPlain(a: string, b: string, quoted: bool)
    requires Plain(a) && (!quoted ==> forall i :: 0 <= i < |a| ==> a[i] != ' ')
    ensures Chunks(a + b, quoted) == [a + Chunks(b, quoted)[0]] + Chunks(b, quoted)[1..]
  {
    var q := a + b;
    if a == "" {
      assert q == b && a + Chunks(b, quoted)[0] == Chunks(b, quoted)[0];
    } else {
      ChunksOfPlain(a[1..], b, quoted);
      assert q[1..] == a[1..] + b;
      assert [a[0]] + (a[1..] + Chunks(b, quoted)[0]) == a + Chunks(b, quoted)[0];
    }
  }

  lemma PiecesOfLetter(c: char, r: string, quoted: bool)
    requires c != '"' && c != ' ' && c != '-'
    ensures Pieces([c] + r, quoted) == [[c] + Pieces(r, quoted)[0]] + Pieces(r, quoted)[1..]
  {
    assert ([c] + r)[1..] == r;
  }

  lemma {:induction false} PiecesOfWord(w: string, r: string, quoted: bool)
    requires forall i :: 0 <= i < |w| ==> w[i] != '"' && w[i] != ' ' && w[i] != '-'
    ensures Pieces(w + r, quoted) == [w + Pieces(r, quoted)[0]] + Pieces(r, quoted)[1..]
  {
    hide Pieces;
    if w == "" {
      assert w + r == r && "" + Pieces(r, quoted)[0] == Pieces(r, quoted)[0];
    } else {
      PiecesOfWord(w[1..], r, quoted);
      PiecesOfLetter(w[0], w[1..] + r, quoted);
      assert w + r == [w[0]] + (w[1..] + r);
      assert [w[0]] + (w[1..] + Pieces(r, quoted)[0]) == w + Pieces(r, quoted)[0];
    }
  }

  /** What follows the last word: the closing quote, or nothing. */
  function Close(quoted: bool): string { if quoted then "\"" else "" }

  /** The pieces of that: the words, and an empty one after a closing quote. */
  function Closed(t: Term, quoted: bool): seq<string> { if quoted then t + [""] else t }

  lemma PiecesOfLast(w: string, quoted: bool)
    requires IsWord(w)
    ensures Pieces(w + Close(quoted), quoted) == Closed([w], quoted)
  {
    var r := Close(quoted);
    PiecesOfWord(w, r, quoted);
    assert w + "" == w && [w] + [] == [w];
    if quoted {
      assert r[1..] == "" && Pieces("", false) == [""];
      AfterWord(w, [""], Pieces(r, true));
    }
  }

  lemma {:induction false} PiecesOfJoined(t: Term, separator: char, quoted: bool)
    requires IsTerm(t) && (separator == ' ' || separator == '-')
    ensures Pieces(JoinWords(t, separator) + Close(quoted), quoted) == Closed(t, quoted)
  {
    hide Pieces, IsWord, Close;
    if |t| == 1 {
      PiecesOfLast(t[0], quoted);
      assert t == [t[0]];
    } else {
      var rest := JoinWords(t[1..], separator) + Close(quoted);
      PiecesOfJoined(t[1..], separator, quoted);
      PiecesOfFirst(t[0], separator, rest, quoted);
      assert JoinWords(t, separator) + Close(quoted) == t[0] + ([separator] + rest);
      assert [t[0]] + (t[1..] + [""]) == t + [""] && [t[0]] + t[1..] == t;
    }
  }

  lemma PiecesOfFirst(w: string, separator: char, r: string, quoted: bool)
    requires IsWord(w) && (separator == ' ' || separator == '-')
    ensures Pieces(w + ([separator] + r), quoted) == [w] + Pieces(r, quoted)
  {
    var s := [separator] + r;
    PiecesOfWord(w, s, quoted);
    assert s[1..] == r;
    AfterWord(w, Pieces(r, quoted), Pieces(s, quoted));
  }

  lemma AfterWord(w: string, rest: seq<string>, ps: seq<string>)
    requires ps == [""] + rest
    ensures [w + ps[0]] + ps[1..] == [w] + rest
  {
    assert w + "" == w;
  }

  lemma {:induction false} NonEmptyWords(t: Term, quoted: bool)
    requires forall i :: 0 <= i < |t| ==> t[i] != ""
    ensures NonEmpty(Closed(t, quoted)) == t
  {
    if t != [] {
      NonEmptyWords(t[1..], quoted);
      assert (t + [""])[1..] == t[1..] + [""];
    }
  }

  lemma WordsOfWritten(t: Term, style: Style)
    requires IsTerm(t) && ValidStyle(style)
    ensures WordsOf(Write(t, style)) == t
  {
    hide IsAlnum, ToLower, JoinWords, Pieces;
    NonEmptyWords(t, style.Quoted?);
    match style
    case Quoted(separator) =>
      PiecesOfJoined(t, separator, true);
      OpenQuote(JoinWords(t, separator) + "\"");
    case Hyphenated =>
      PiecesOfJoined(t, '-', false);
      assert JoinWords(t, '-') + "" == JoinWords(t, '-');
  }

  lemma OpenQuote(r: string)
    ensures Pieces("\"" + r, false) == Pieces(r, true)
  {
    assert ("\"" + r)[1..] == r;
  }

  /** Splitting a term that ends the query or is followed by a space. */
  lemma ChunksOfTerm(t: Term, style: Style, b: string)
    requires IsTerm(t) && ValidStyle(style) && (b == "" || b[0] == ' ')
    ensures Chunks(Write(t, style) + b, false) == [Write(t, style)] + Chunks(b, false)[1..]
  {
    hide IsAlnum, ToLower, Kept, JoinWords, Chunks, Plain;
    FirstChunkEmpty(b);
    match style
    case Quoted(separator) =>
      var body := JoinWords(t, separator);
      JoinWordsPlain(t, separator);
      ChunksOfPlain(body, "\"" + b, true);
      AroundQuotes(body, b);
    case Hyphenated =>
      JoinWordsPlain(t, '-');
      ChunksOfPlain(JoinWords(t, '-'), b, false);
      assert JoinWords(t, '-') + "" == JoinWords(t, '-');
  }

  lemma FirstChunkEmpty(b: string)
    requires b == "" || b[0] == ' '
    ensures Chunks(b, false)[0] == ""
  {
  }

  lemma AroundQuotes(body: string, b: string)
    requires Chunks(b, false)[0] == ""
    requires Chunks(body + ("\"" + b), true) == [body + Chunks("\"" + b, true)[0]] + Chunks("\"" + b, true)[1..]
    ensures Chunks("\"" + (body + "\"") + b, false) == ["\"" + (body + "\"")] + Chunks(b, false)[1..]
  {
    var q := "\"" + (body + "\"") + b;
    assert q[1..] == body + ("\"" + b) && ("\"" + b)[1..] == b;
    assert ['"'] + "" == "\"" && ['"'] + (body + "\"") == "\"" + (body + "\"");
  }

  lemma {:induction false} TermsOfWritten(ts: seq<Term>, styles: seq<Style>)
    requires |styles| == |ts| && forall i :: 0 <= i < |ts| ==> IsTerm(ts[i]) && ValidStyle(styles[i])
    ensures TermsOf(Chunks(JoinTerms(ts, styles), false)) == ts
  {
    if ts == [] {
      assert WordsOf("") == [];
    } else {
      hide TermsOf, WordsOf, IsTerm, Write;
      var first := Write(ts[0], styles[0]);
      WordsOfWritten(ts[0], styles[0]);
      TermNotEmpty(ts[0]);
      if |ts| == 1 {
        ChunksOfTerm(ts[0], styles[0], "");
        assert first + "" == first && [ts[0]] == ts;
        TermsOfMore(first, []);
      } else {
        var b := " " + JoinTerms(ts[1..], styles[1..]);
        ChunksOfTerm(ts[0], styles[0], b);
        assert b[1..] == JoinTerms(ts[1..], styles[1..]);
        TermsOfWritten(ts[1..], styles[1..]);
        TermsOfMore(first, Chunks(b[1..], false));
      }
    }
  }

  lemma TermNotEmpty(t: Term)
    requires IsTerm(t)
    ensures t != []
  {
  }

  lemma TermsOfMore(chunk: string, chunks: seq<string>)
    requires WordsOf(chunk) != []
    ensures TermsOf([chunk] + chunks) == [WordsOf(chunk)] + TermsOf(chunks)
  {
    assert ([chunk] + chunks)[1..] == chunks;
  }

  /** Any list of non-empty terms of lower-case words comes back unchanged when
      each is written as a quoted phrase, with spaces or dashes, or as hyphenated
      words, and the terms are joined by spaces. */
  lemma WrittenTermsRoundTrip(ts: seq<Term>, styles: seq<Style>)
    requires |styles| == |ts| && forall i :: 0 <= i < |ts| ==> IsTerm(ts[i]) && ValidStyle(styles[i])
    ensures Terms(JoinTerms(ts, styles)) == ts
  {
    JoinTermsSteady(ts, styles);
    CleanFixed(JoinTerms(ts, styles));
    TermsOfWritten(ts, styles);
  }

  // ----- case and punctuation

  const UPPER := "ABCDEFGHIJKLMNOPQRSTUVWXYZ"
  const LOWER := "abcdefghijklmnopqrstuvwxyz"
  const DIGITS := "0123456789"

  lemma InUpper(c: char)
    ensures 'A' <= c <= 'Z' <==> c in UPPER
  {
  }

  lemma InLower(c: char)
    ensures 'a' <= c <= 'z' <==> c in LOWER
  {
  }

  lemma CaseTable(k: nat)
    requires k < 26
    ensures ToLower(UPPER[k]) == LOWER[k] == ToLower(LOWER[k])
  {
  }

  /** The characters kept, by the tables. */
  predicate InTables(c: char) { c in UPPER || c in LOWER || c in DIGITS || c in "\" -" }

  lemma KeptIsInTables(c: char)
    ensures Kept(ToLower(c)) <==> InTables(c)
    ensures c !in UPPER ==> ToLower(c) == c
  {
    InUpper(c);
    InLower(c);
    assert '0' <= c <= '9' <==> c in DIGITS;
    hide UPPER, LOWER, DIGITS;
  }

  lemma {:induction false} CleanJoined(a: string, b: string)
    ensures Clean(a + b) == Clean(a) + Clean(b)
  {
    if a == "" {
      assert a + b == b;
    } else {
      assert (a + b)[1..] == a[1..] + b;
      CleanJoined(a[1..], b);
    }
  }

  /** The case of a letter makes no difference. */
  lemma CaseIsIgnored(a: string, k: nat, b: string)
    requires k < 26
    ensures Terms(a + [UPPER[k]] + b) == Terms(a + [LOWER[k]] + b)
  {
    CaseTable(k);
    var upper, lower := UPPER[k], LOWER[k];
    hide Kept, ToLower, Chunks, TermsOf, UPPER, LOWER;
    OneCleaned(upper);
    OneCleaned(lower);
    forall c | c == upper || c == lower
      ensures Clean(a + [c] + b) == Clean(a) + Clean([c]) + Clean(b)
    {
      CleanJoined(a + [c], b);
      CleanJoined(a, [c]);
    }
  }

  lemma OneCleaned(c: char)
    ensures Clean([c]) == if Kept(ToLower(c)) then [ToLower(c)] else ""
  {
    assert Clean([c][1..]) == "";
  }

  /** A character outside the tables makes no difference: words are not split at it. */
  lemma OthersAreDropped(a: string, c: char, b: string)
    requires !InTables(c)
    ensures Terms(a + [c] + b) == Terms(a + b)
  {
    hide Kept, ToLower, Chunks, TermsOf, UPPER, LOWER, InTables;
    KeptIsInTables(c);
    OneCleaned(c);
    CleanJoined(a + [c], b);
    CleanJoined(a, [c]);
    CleanJoined(a, b);
    assert Clean(a) + "" == Clean(a);
  }
}
