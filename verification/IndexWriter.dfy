/** A writer of the index files that assign1/amazon.cc reads: the file written for
    a corpus indexes it. */
module IndexWriter {
  import opened Lexicographic
  import opened KeywordIndex

  /** A keyword with the places where it occurs. */
  datatype Keyword = Keyword(word: string, places: seq<Place>)

  // ----- writing

  /** Four bytes, the least significant first. */
  function LittleEndian(n: nat): (bytes: seq<Byte>)
    requires n < 0x1_0000_0000
    ensures |bytes| == 4
  {
    [n % 256, n / 256 % 256, n / 256 / 256 % 256, n / 256 / 256 / 256]
  }

  predicate PlaceFits(p: Place) { 0 <= p.review < 0x1_0000_0000 && 0 <= p.portion < 256 && 0 <= p.offset < 16777216 }

  predicate CharsFit(word: string) { forall i :: 0 <= i < |word| ==> 0 < word[i] as int < 256 }

  function CharBytes(word: string): (bytes: seq<Byte>)
    requires CharsFit(word)
    ensures |bytes| == |word|
  {
    seq(|word|, i requires 0 <= i < |word| => word[i] as int)
  }

  /** The keyword ended by a null byte, with a second one if the length is then odd. */
  function KeywordField(word: string): (bytes: seq<Byte>)
    requires CharsFit(word)
  {
    CharBytes(word) + [0] + (if (|word| + 1) % 2 == 1 then [0] else [])
  }

  function PlaceField(p: Place): (bytes: seq<Byte>)
    requires PlaceFits(p)
    ensures |bytes| == 8
  {
    LittleEndian(p.review) + (LittleEndian(p.offset)[..3] + [p.portion])
  }

  function PlaceFields(places: seq<Place>): (bytes: seq<Byte>)
    requires forall i :: 0 <= i < |places| ==> PlaceFits(places[i])
    ensures |bytes| == 8 * |places|
  {
    if places == [] then [] else PlaceField(places[0]) + PlaceFields(places[1..])
  }

  predicate KeywordFits(k: Keyword)
  {
    CharsFit(k.word) && |k.places| < 0x1_0000_0000 && forall i :: 0 <= i < |k.places| ==> PlaceFits(k.places[i])
  }

  function Entry(k: Keyword): seq<Byte>
    requires KeywordFits(k)
  {
    KeywordField(k.word) + (LittleEndian(|k.places|) + PlaceFields(k.places))
  }

  predicate AllFit(ks: seq<Keyword>) { forall i :: 0 <= i < |ks| ==> KeywordFits(ks[i]) }

  function Entries(ks: seq<Keyword>): seq<Byte>
    requires AllFit(ks)
  {
    if ks == [] then [] else Entry(ks[0]) + Entries(ks[1..])
  }

  /** The offsets of the entries, the first of which is at `at`. */
  function Offsets(ks: seq<Keyword>, at: nat): (bytes: seq<Byte>)
    requires AllFit(ks) && at + |Entries(ks)| < 0x1_0000_0000
    ensures |bytes| == 4 * |ks|
  {
    if ks == [] then [] else LittleEndian(at) + Offsets(ks[1..], at + |Entry(ks[0])|)
  }

  function FileSize(ks: seq<Keyword>): nat
    requires AllFit(ks)
  {
    4 + 4 * |ks| + |Entries(ks)|
  }

  /** The number of keywords, the offsets of their entries, and the entries. */
  function WriteIndex(ks: seq<Keyword>): (file: seq<Byte>)
    requires AllFit(ks) && FileSize(ks) < 0x1_0000_0000
    ensures |file| == FileSize(ks)
  {
    LittleEndian(|ks|) + (Offsets(ks, 4 + 4 * |ks|) + Entries(ks))
  }

  // ----- reading back

  /** `part` stands in the file at `at`. */
  predicate Stands(file: seq<Byte>, at: nat, part: seq<Byte>)
  {
    at + |part| <= |file| && file[at..at + |part|] == part
  }

  lemma StandsInParts(file: seq<Byte>, at: nat, a: seq<Byte>, b: seq<Byte>)
    requires Stands(file, at, a + b)
    ensures Stands(file, at, a) && Stands(file, at + |a|, b)
  {
    assert file[at..at + |a|] == (a + b)[..|a|] == a;
    assert file[at + |a|..at + |a| + |b|] == (a + b)[|a|..] == b;
  }

  lemma BytesOf(file: seq<Byte>, at: nat, part: seq<Byte>, i: nat)
    requires Stands(file, at, part) && i < |part|
    ensures file[at + i] == part[i]
  {
    assert file[at..at + |part|][i] == file[at + i];
  }

  lemma DigitsRejoin(n: nat)
    requires n < 0x1_0000_0000
    ensures var b := LittleEndian(n);
            b[0] as int + 0x100 * b[1] as int + 0x1_0000 * b[2] as int + 0x100_0000 * b[3] as int == n
  {
  }

  /** Reading an unsigned int inverts writing it, wherever it stands. */
  lemma U32Inverts(file: seq<Byte>, at: nat, n: nat)
    requires n < 0x1_0000_0000 && Stands(file, at, LittleEndian(n))
    ensures U32(file, at) == n
  {
    DigitsRejoin(n);
    forall i: nat | i < 4 ensures file[at + i] == LittleEndian(n)[i] {
      BytesOf(file, at, LittleEndian(n), i);
    }
  }

  lemma {:induction false} CStringInverts(file: seq<Byte>, at: nat, word: string)
    requires CharsFit(word) && Stands(file, at, CharBytes(word) + [0])
    ensures CString(file, at) == word
    decreases |word|
  {
    var bytes := CharBytes(word) + [0];
    BytesOf(file, at, bytes, 0);
    if word != "" {
      var rest := CharBytes(word[1..]) + [0];
      assert bytes == [bytes[0]] + rest;
      StandsInParts(file, at, [bytes[0]], rest);
      CStringInverts(file, at + 1, word[1..]);
      assert word == [word[0]] + word[1..];
    }
  }

  lemma PlaceInverts(file: seq<Byte>, at: nat, p: Place)
    requires PlaceFits(p) && Stands(file, at, PlaceField(p))
    ensures ParseKeywordInfo(U32(file, at), U32(file, at + 4)) == p
  {
    var low := LittleEndian(p.offset);
    var second := low[..3] + [p.portion];
    StandsInParts(file, at, LittleEndian(p.review), second);
    U32Inverts(file, at, p.review);
    DigitsRejoin(p.offset);
    assert low[3] == 0;
    hide LittleEndian;
    forall i: nat | i < 4 ensures file[at + 4 + i] == second[i] {
      BytesOf(file, at + 4, second, i);
    }
    assert U32(file, at + 4) == 0x100_0000 * p.portion + p.offset;
    hide U32;
  }

  lemma {:induction false} PlacesStand(file: seq<Byte>, at: nat, places: seq<Place>, i: nat)
    requires (forall j :: 0 <= j < |places| ==> PlaceFits(places[j])) && i < |places|
    requires Stands(file, at, PlaceFields(places))
    ensures Stands(file, at + 8 * i, PlaceField(places[i]))
    decreases i
  {
    StandsInParts(file, at, PlaceField(places[0]), PlaceFields(places[1..]));
    if i > 0 {
      PlacesStand(file, at + 8, places[1..], i - 1);
    }
  }

  lemma KeywordInField(file: seq<Byte>, ptr: nat, word: string)
    requires CharsFit(word) && Stands(file, ptr, KeywordField(word))
    ensures CString(file, ptr) == word && |KeywordField(word)| == KeywordBytes(word)
  {
    hide CString, Stands;
    StandsInParts(file, ptr, CharBytes(word) + [0], if (|word| + 1) % 2 == 1 then [0] else []);
    CStringInverts(file, ptr, word);
  }

  /** What is read at an entry: its keyword, its count, and its places in order. */
  lemma EntryInverts(file: seq<Byte>, ptr: nat, k: Keyword)
    requires KeywordFits(k) && Stands(file, ptr, Entry(k))
    ensures CString(file, ptr) == k.word && EntryFits(file, ptr) && NumEntries(file, ptr) == |k.places|
    ensures forall i: nat :: i < |k.places| ==> Occurrence(file, ptr, i) == k.places[i]
  {
    hide CString, LittleEndian, PlaceFields, PlaceField, KeywordField, U32, ParseKeywordInfo;
    var field, rest := KeywordField(k.word), LittleEndian(|k.places|) + PlaceFields(k.places);
    StandsInParts(file, ptr, field, rest);
    KeywordInField(file, ptr, k.word);
    var at := ptr + |field|;
    StandsInParts(file, at, LittleEndian(|k.places|), PlaceFields(k.places));
    U32Inverts(file, at, |k.places|);
    forall i: nat | i < |k.places|
      ensures Occurrence(file, ptr, i) == k.places[i]
    {
      PlacesStand(file, at + 4, k.places, i);
      PlaceInverts(file, at + 4 + 8 * i, k.places[i]);
    }
  }

  function Position(ks: seq<Keyword>, at: nat, k: nat): nat
    requires AllFit(ks) && k < |ks|
  {
    if k == 0 then at else Position(ks[1..], at + |Entry(ks[0])|, k - 1)
  }

  lemma {:induction false} EntriesStand(file: seq<Byte>, at: nat, ks: seq<Keyword>, k: nat)
    requires AllFit(ks) && k < |ks| && Stands(file, at, Entries(ks))
    ensures Stands(file, Position(ks, at, k), Entry(ks[k]))
    decreases k
  {
    hide Entry, Stands, KeywordFits;
    StandsInParts(file, at, Entry(ks[0]), Entries(ks[1..]));
    if k > 0 {
      EntriesStand(file, at + |Entry(ks[0])|, ks[1..], k - 1);
    }
  }

  lemma {:induction false} OffsetsStand(file: seq<Byte>, at: nat, ks: seq<Keyword>, first: nat, k: nat)
    requires AllFit(ks) && k < |ks| && first + |Entries(ks)| < 0x1_0000_0000 && Stands(file, at, Offsets(ks, first))
    ensures Position(ks, first, k) < 0x1_0000_0000 && Stands(file, at + 4 * k, LittleEndian(Position(ks, first, k)))
    decreases k
  {
    hide Entry, Stands, KeywordFits, LittleEndian;
    StandsInParts(file, at, LittleEndian(first), Offsets(ks[1..], first + |Entry(ks[0])|));
    if k > 0 {
      OffsetsStand(file, at + 4, ks[1..], first + |Entry(ks[0])|, k - 1);
    }
  }

  /** What is read of a written file, keyword by keyword. */
  lemma KeywordInverts(ks: seq<Keyword>, k: nat)
    requires AllFit(ks) && FileSize(ks) < 0x1_0000_0000 && k < |ks|
    ensures var file := WriteIndex(ks);
            && NumKeywords(file) == |ks| && 4 + 4 * |ks| <= |file| && EntryFits(file, KeywordPtr(file, k))
            && CString(file, KeywordPtr(file, k)) == ks[k].word
            && NumEntries(file, KeywordPtr(file, k)) == |ks[k].places|
            && forall i: nat :: i < |ks[k].places| ==> Occurrence(file, KeywordPtr(file, k), i) == ks[k].places[i]
  {
    var file, first := WriteIndex(ks), 4 + 4 * |ks|;
    WholeStands(ks);
    U32Inverts(file, 0, |ks|);
    OffsetsStand(file, 4, ks, first, k);
    U32Inverts(file, 4 + 4 * k, Position(ks, first, k));
    EntriesStand(file, first, ks, k);
    EntryInverts(file, Position(ks, first, k), ks[k]);
  }

  lemma WholeStands(ks: seq<Keyword>)
    requires AllFit(ks) && FileSize(ks) < 0x1_0000_0000
    ensures var file := WriteIndex(ks);
            && Stands(file, 0, LittleEndian(|ks|)) && Stands(file, 4, Offsets(ks, 4 + 4 * |ks|)) && Stands(file, 4 + 4 * |ks|, Entries(ks))
  {
    hide LittleEndian, Offsets, Entries;
    var file, offsets, entries := WriteIndex(ks), Offsets(ks, 4 + 4 * |ks|), Entries(ks);
    assert file[0..|file|] == file;
    StandsInParts(file, 0, LittleEndian(|ks|), offsets + entries);
    StandsInParts(file, 4, offsets, entries);
  }

  // ----- a corpus and its keywords

  /** The keywords of the corpus in ascending order, each with its places. */
  ghost predicate Describes(ks: seq<Keyword>, corpus: Corpus)
  {
    && (forall j, k :: 0 <= j < k < |ks| ==> Less(ks[j].word, ks[k].word))
    && (forall k :: 0 <= k < |ks| ==> HasPlaces(corpus, ks[k]))
    && (forall p :: p in corpus ==> IsKeyword(ks, corpus[p]))
  }

  ghost predicate HasPlaces(corpus: Corpus, k: Keyword)
  {
    forall p :: p in k.places <==> p in corpus && corpus[p] == k.word
  }

  ghost predicate IsKeyword(ks: seq<Keyword>, word: string) { exists k :: 0 <= k < |ks| && ks[k].word == word }

  /** The file has the keyword at `ptr`, with the places it has in the corpus. */
  ghost predicate Holding(file: seq<Byte>, ptr: nat, k: Keyword)
  {
    && EntryFits(file, ptr) && CString(file, ptr) == k.word
    && forall p: Place :: Lists(file, ptr, p) <==> p in k.places
  }

  lemma KeywordHeld(ks: seq<Keyword>, k: nat)
    requires AllFit(ks) && FileSize(ks) < 0x1_0000_0000 && k < |ks|
    ensures var file := WriteIndex(ks);
            NumKeywords(file) == |ks| && 4 + 4 * |ks| <= |file| && Holding(file, KeywordPtr(file, k), ks[k])
  {
    KeywordInverts(ks, k);
    hide WriteIndex, KeywordPtr, CString, EntryFits, Lists, NumKeywords, NumEntries, Occurrence;
    ListsPlaces(WriteIndex(ks), KeywordPtr(WriteIndex(ks), k), ks[k].places);
  }

  lemma CountRead(ks: seq<Keyword>)
    requires AllFit(ks) && FileSize(ks) < 0x1_0000_0000
    ensures NumKeywords(WriteIndex(ks)) == |ks| && 4 + 4 * |ks| <= |WriteIndex(ks)|
  {
    WholeStands(ks);
    U32Inverts(WriteIndex(ks), 0, |ks|);
  }

  /** A file that holds exactly the described keywords indexes the corpus. */
  lemma HoldingFileIndexes(file: seq<Byte>, ks: seq<Keyword>, corpus: Corpus)
    requires |file| >= 4 && NumKeywords(file) == |ks| && 4 + 4 * |ks| <= |file| && Describes(ks, corpus)
    requires forall k: nat :: k < |ks| ==> Holding(file, KeywordPtr(file, k), ks[k])
    ensures Indexes(file, corpus)
  {
    hide EntryFits, KeywordPtr, CString, Less, NumKeywords, Lists;
    assert WellFormed(file);
    forall k: nat, p: Place | k < |ks|
      ensures Lists(file, KeywordPtr(file, k), p) <==> p in corpus && corpus[p] == CString(file, KeywordPtr(file, k))
    {
      assert Holding(file, KeywordPtr(file, k), ks[k]) && HasPlaces(corpus, ks[k]);
    }
    forall p: Place | p in corpus
      ensures HasKeyword(file, corpus[p])
    {
      assert IsKeyword(ks, corpus[p]);
      var k :| 0 <= k < |ks| && ks[k].word == corpus[p];
      assert Holding(file, KeywordPtr(file, k), ks[k]);
    }
  }

  /** The file written for a corpus indexes it. */
  lemma WrittenFileIndexes(ks: seq<Keyword>, corpus: Corpus)
    requires AllFit(ks) && FileSize(ks) < 0x1_0000_0000 && Describes(ks, corpus)
    ensures Indexes(WriteIndex(ks), corpus)
  {
    CountRead(ks);
    hide WriteIndex, KeywordPtr, Describes, Indexes, KeywordFits, FileSize, NumKeywords, Holding;
    forall k: nat | k < |ks|
      ensures Holding(WriteIndex(ks), KeywordPtr(WriteIndex(ks), k), ks[k])
    {
      KeywordHeld(ks, k);
    }
    HoldingFileIndexes(WriteIndex(ks), ks, corpus);
  }

  lemma ListsPlaces(file: seq<Byte>, ptr: nat, places: seq<Place>)
    requires EntryFits(file, ptr) && NumEntries(file, ptr) == |places|
    requires forall i: nat :: i < |places| ==> Occurrence(file, ptr, i) == places[i]
    ensures forall p: Place :: Lists(file, ptr, p) <==> p in places
  {
    forall p: Place | p in places
      ensures Lists(file, ptr, p)
    {
      var i: nat :| i < |places| && places[i] == p;
      assert Occurrence(file, ptr, i) == p;
    }
  }

  /** Every corpus has such a description. */
  lemma EveryCorpusIsDescribed(corpus: Corpus) returns (ks: seq<Keyword>)
    ensures Describes(ks, corpus)
    ensures forall k :: 0 <= k < |ks| ==> ks[k].word in corpus.Values
  {
    hide HasPlaces, Less;
    var words := SortedWords(corpus.Values);
    ks := [];
    for i := 0 to |words|
      invariant |ks| == i && forall k :: 0 <= k < i ==> ks[k].word == words[k] && HasPlaces(corpus, ks[k])
    {
      var places := PlacesOf(corpus, words[i]);
      ks := ks + [Keyword(words[i], places)];
    }
    forall p | p in corpus
      ensures IsKeyword(ks, corpus[p])
    {
      assert corpus[p] in corpus.Values;
      var k :| 0 <= k < |words| && words[k] == corpus[p];
      assert ks[k].word == corpus[p];
    }
    assert forall k :: 0 <= k < |ks| ==> words[k] in words;
  }

  lemma PlacesOf(corpus: Corpus, word: string) returns (places: seq<Place>)
    ensures HasPlaces(corpus, Keyword(word, places))
  {
    places := ListOf(set p | p in corpus && corpus[p] == word);
  }

  lemma {:induction false} ListOf(s: set<Place>) returns (places: seq<Place>)
    ensures forall p :: p in places <==> p in s
    decreases s
  {
    if s == {} {
      places := [];
    } else {
      var p :| p in s;
      var rest := ListOf(s - {p});
      places := [p] + rest;
    }
  }

  lemma {:induction false} SortedWords(s: set<string>) returns (words: seq<string>)
    ensures forall w :: w in words <==> w in s
    ensures forall j, k :: 0 <= j < k < |words| ==> Less(words[j], words[k])
    decreases s
  {
    if s == {} {
      words := [];
    } else {
      var least := LeastWord(s);
      var rest := SortedWords(s - {least});
      words := [least] + rest;
      forall k | 0 < k < |words|
        ensures Less(least, words[k])
      {
        assert words[k] in rest;
        Trichotomy(least, words[k]);
      }
    }
  }

  lemma {:induction false} LeastWord(s: set<string>) returns (least: string)
    requires s != {}
    ensures least in s && forall w :: w in s ==> AtMost(least, w)
    decreases s
  {
    var x :| x in s;
    if y :| y in s && y != x {
      assert y in s - {x};
      var m := LeastWord(s - {x});
      Trichotomy(x, m);
      least := if Less(x, m) then x else m;
      forall w | w in s
        ensures AtMost(least, w)
      {
        if w != x {
          AtMostTransitive(least, m, w);
        }
      }
    } else {
      least := x;
    }
  }

  /** Every corpus whose words, places and size fit the format has an index file. */
  lemma EveryCorpusHasAnIndex(corpus: Corpus) returns (ks: seq<Keyword>)
    requires forall p :: p in corpus ==> PlaceFits(p) && CharsFit(corpus[p])
    ensures Describes(ks, corpus)
    ensures (forall k :: 0 <= k < |ks| ==> |ks[k].places| < 0x1_0000_0000) ==>
              AllFit(ks) && (FileSize(ks) < 0x1_0000_0000 ==> Indexes(WriteIndex(ks), corpus))
  {
    ks := EveryCorpusIsDescribed(corpus);
    forall k | 0 <= k < |ks|
      ensures CharsFit(ks[k].word) && forall i :: 0 <= i < |ks[k].places| ==> PlaceFits(ks[k].places[i])
    {
      KeywordOfFits(corpus, ks[k]);
    }
    hide FileSize, WriteIndex, Describes, CharsFit, PlaceFits;
    if (forall k :: 0 <= k < |ks| ==> |ks[k].places| < 0x1_0000_0000) && FileSize(ks) < 0x1_0000_0000 {
      WrittenFileIndexes(ks, corpus);
    }
  }

  lemma KeywordOfFits(corpus: Corpus, k: Keyword)
    requires forall p :: p in corpus ==> PlaceFits(p) && CharsFit(corpus[p])
    requires k.word in corpus.Values && HasPlaces(corpus, k)
    ensures CharsFit(k.word) && forall i :: 0 <= i < |k.places| ==> PlaceFits(k.places[i])
  {
    assert forall i :: 0 <= i < |k.places| ==> k.places[i] in k.places;
  }
}
