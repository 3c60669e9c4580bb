/** The keyword index search of assign1/amazon.cc over the bytes of the index
    file: binary search for a keyword, decoding of its occurrences, the
    word-by-word join of a phrase, and the conjunction of a query's phrases. */
module KeywordIndex {
  import opened Wrappers
  import opened Lexicographic
  import QueryParser

  type Byte = b: int | 0 <= b < 256

  /** Where a word occurs: `struct KeywordInfo`. */
  datatype Place = Place(review: int, portion: int, offset: int)

  /** A review's words, by place. */
  type Corpus = map<Place, string>

  const WORD: int := 0x1_0000_0000
  const OFFSETS: int := 0x100_0000

  // ----- reading the file

  /** The four bytes at `at` as an unsigned int of a little-endian machine. */
  function U32(file: seq<Byte>, at: nat): (r: int)
    requires at + 4 <= |file|
    ensures 0 <= r < WORD
  {
    var b0: int, b1: int, b2: int, b3: int := file[at], file[at + 1], file[at + 2], file[at + 3];
    b0 + 0x100 * b1 + 0x1_0000 * b2 + 0x100_0000 * b3
  }

  /** The C string at `at`, up to its null byte or the end of the file. */
  function CString(file: seq<Byte>, at: nat): string
    decreases |file| - at
  {
    if at >= |file| || file[at] == 0 then "" else [file[at] as char] + CString(file, at + 1)
  }

  /** From the start of a keyword to its entry count: the keyword, its null byte
      and a byte of padding when that makes the length even. */
  function KeywordBytes(keyword: string): nat
  {
    if |keyword| % 2 == 0 then |keyword| + 2 else |keyword| + 1
  }

  /** `parse_keyword_info`: the upper byte of the second word is the portion, the
      lower three are the offset. */
  function ParseKeywordInfo(first: int, second: int): Place
  {
    Place(first, second / OFFSETS, second % OFFSETS)
  }

  /** The i-th occurrence listed after the keyword at `ptr`. */
  function Occurrence(file: seq<Byte>, ptr: nat, i: nat): Place
    requires EntryFits(file, ptr) && i < NumEntries(file, ptr)
  {
    var start := ptr + KeywordBytes(CString(file, ptr)) + 4;
    ParseKeywordInfo(U32(file, start + 8 * i), U32(file, start + 8 * i + 4))
  }

  predicate CountFits(file: seq<Byte>, ptr: nat)
  {
    ptr + KeywordBytes(CString(file, ptr)) + 4 <= |file|
  }

  function NumEntries(file: seq<Byte>, ptr: nat): nat
    requires CountFits(file, ptr)
  {
    U32(file, ptr + KeywordBytes(CString(file, ptr)))
  }

  predicate EntryFits(file: seq<Byte>, ptr: nat)
  {
    && CountFits(file, ptr)
    && ptr + KeywordBytes(CString(file, ptr)) + 4 + 8 * NumEntries(file, ptr) <= |file|
  }

  function NumKeywords(file: seq<Byte>): nat
    requires |file| >= 4
  {
    U32(file, 0)
  }

  function KeywordPtr(file: seq<Byte>, k: nat): nat
    requires |file| >= 4 && 4 + 4 * NumKeywords(file) <= |file| && k < NumKeywords(file)
  {
    U32(file, 4 + 4 * k)
  }

  // ----- what the file must be

  /** A file that the code can read: every offset leads to an entry that fits,
      and the keywords are in strictly ascending order. */
  ghost predicate WellFormed(file: seq<Byte>)
  {
    && |file| >= 4
    && 4 + 4 * NumKeywords(file) <= |file|
    && (forall k: nat :: k < NumKeywords(file) ==> EntryFits(file, KeywordPtr(file, k)))
    && (forall j: nat, k: nat :: j < k < NumKeywords(file) ==>
          Less(CString(file, KeywordPtr(file, j)), CString(file, KeywordPtr(file, k))))
  }

  ghost predicate Lists(file: seq<Byte>, ptr: nat, place: Place)
    requires EntryFits(file, ptr)
  {
    exists i: nat :: i < NumEntries(file, ptr) && Occurrence(file, ptr, i) == place
  }

  /** The file indexes the corpus: each keyword lists exactly its occurrences, and
      every word of the corpus is a keyword. */
  ghost predicate Indexes(file: seq<Byte>, corpus: Corpus)
  {
    && WellFormed(file)
    && (forall k: nat, place: Place :: k < NumKeywords(file) ==>
          var ptr := KeywordPtr(file, k);
          (Lists(file, ptr, place) <==> place in corpus && corpus[place] == CString(file, ptr)))
    && (forall place: Place :: place in corpus ==> HasKeyword(file, corpus[place]))
  }

  ghost predicate HasKeyword(file: seq<Byte>, keyword: string)
    requires WellFormed(file)
  {
    exists k: nat :: k < NumKeywords(file) && CString(file, KeywordPtr(file, k)) == keyword
  }

  /** One keyword, "a", with one occurrence at review 5, portion 2, offset 7. */
  const SMALL_INDEX: seq<Byte> := [1, 0, 0, 0, 8, 0, 0, 0, 97, 0, 1, 0, 0, 0, 5, 0, 0, 0, 7, 0, 0, 2]

  lemma SmallIndexReads()
    ensures NumKeywords(SMALL_INDEX) == 1 && KeywordPtr(SMALL_INDEX, 0) == 8 && CString(SMALL_INDEX, 8) == "a"
    ensures EntryFits(SMALL_INDEX, 8) && NumEntries(SMALL_INDEX, 8) == 1 && Occurrence(SMALL_INDEX, 8, 0) == Place(5, 2, 7)
  {
    assert CString(SMALL_INDEX, 9) == "";
    assert CString(SMALL_INDEX, 8) == ['a'] + CString(SMALL_INDEX, 9);
  }

  lemma SmallIndexIndexes()
    ensures Indexes(SMALL_INDEX, map[Place(5, 2, 7) := "a"])
  {
    hide CString, EntryFits, NumKeywords, NumEntries, KeywordPtr, Occurrence;
    SmallIndexReads();
    assert |SMALL_INDEX| == 22;
    assert Lists(SMALL_INDEX, 8, Place(5, 2, 7));
    assert CString(SMALL_INDEX, KeywordPtr(SMALL_INDEX, 0)) == "a";
  }

  // ----- findKeywordPtr

  /** `std::lower_bound` over the offsets, then the test for equality. */
  method FindKeywordPtr(file: seq<Byte>, keyword: string) returns (ptr: Option<nat>)
    requires WellFormed(file)
    ensures ptr.Some? <==> HasKeyword(file, keyword)
    ensures ptr.Some? ==> exists k: nat :: k < NumKeywords(file) && ptr.value == KeywordPtr(file, k)
    ensures ptr.Some? ==> CString(file, ptr.value) == keyword
  {
    var first: nat, count: nat := 0, NumKeywords(file);
    while count > 0
      invariant first + count <= NumKeywords(file)
      invariant forall k: nat :: k < first ==> Less(CString(file, KeywordPtr(file, k)), keyword)
      invariant forall k: nat :: first + count <= k < NumKeywords(file) ==> !Less(CString(file, KeywordPtr(file, k)), keyword)
      decreases count
    {
      var half := count / 2;
      var middle := first + half;
      var word := CString(file, KeywordPtr(file, middle));
      if Less(word, keyword) {
        forall k: nat | k < middle ensures Less(CString(file, KeywordPtr(file, k)), keyword) {
          Transitive(CString(file, KeywordPtr(file, k)), word, keyword);
        }
        first, count := middle + 1, count - half - 1;
      } else {
        forall k: nat | middle < k < NumKeywords(file) ensures !Less(CString(file, KeywordPtr(file, k)), keyword) {
          var later := CString(file, KeywordPtr(file, k));
          if Less(later, keyword) {
            Transitive(word, later, keyword);
          }
        }
        count := half;
      }
    }
    NotBelow(file, keyword, first);
    if first == NumKeywords(file) {
      return None;
    }
    ptr := Some(KeywordPtr(file, first));
    if CString(file, ptr.value) != keyword {
      return None;
    }
  }

  /** Once everything before `first` is less and nothing from it on is, the
      keyword can only be at `first`. */
  lemma NotBelow(file: seq<Byte>, keyword: string, first: nat)
    requires WellFormed(file) && first <= NumKeywords(file)
    requires forall k: nat :: k < first ==> Less(CString(file, KeywordPtr(file, k)), keyword)
    requires forall k: nat :: first <= k < NumKeywords(file) ==> !Less(CString(file, KeywordPtr(file, k)), keyword)
    ensures HasKeyword(file, keyword) <==> first < NumKeywords(file) && CString(file, KeywordPtr(file, first)) == keyword
  {
    Trichotomy(keyword, keyword);
    if first < NumKeywords(file) {
      var word := CString(file, KeywordPtr(file, first));
      if HasKeyword(file, keyword) {
        var k: nat :| k < NumKeywords(file) && CString(file, KeywordPtr(file, k)) == keyword;
        assert k == first;
      }
    }
  }

  // ----- findReviewsContainingTerm

  /** The words of the term stand at consecutive offsets from `start` on. */
  ghost predicate PhraseAt(corpus: Corpus, term: seq<string>, start: Place)
  {
    forall k: nat :: k < |term| ==> Holds(corpus, start.(offset := start.offset + k), term[k])
  }

  predicate Holds(corpus: Corpus, place: Place, word: string)
  {
    place in corpus && corpus[place] == word
  }

  /** The naive scan: some portion of the review contains the phrase. */
  ghost predicate ReviewContains(corpus: Corpus, term: seq<string>, review: int)
  {
    exists start: Place :: PhraseAt(corpus, term, start) && start.review == review
  }

  /** The phrase so far ends at `last`. */
  ghost predicate EndsAt(corpus: Corpus, term: seq<string>, last: Place)
  {
    PhraseAt(corpus, term, last.(offset := last.offset - (|term| - 1)))
  }

  /** All offsets come from three bytes. */
  lemma OffsetsSmall(file: seq<Byte>, corpus: Corpus, place: Place)
    requires Indexes(file, corpus) && place in corpus
    ensures 0 <= place.offset < OFFSETS
  {
    var word := corpus[place];
    var k: nat :| k < NumKeywords(file) && CString(file, KeywordPtr(file, k)) == word;
    assert Lists(file, KeywordPtr(file, k), place);
  }

  ghost predicate SmallOffsets(corpus: Corpus)
  {
    forall p :: p in corpus ==> 0 <= p.offset < OFFSETS
  }

  /** `prevKeywordInfo.wordOffset -= 1` in unsigned arithmetic. */
  function Previous(place: Place): Place { place.(offset := (place.offset - 1) % WORD) }

  lemma PhraseWord(corpus: Corpus, term: seq<string>, start: Place, k: nat)
    requires PhraseAt(corpus, term, start) && k < |term|
    ensures Holds(corpus, start.(offset := start.offset + k), term[k])
  {
  }

  lemma JoinForward(corpus: Corpus, term: seq<string>, word: string, place: Place)
    requires SmallOffsets(corpus) && term != [] && EndsAt(corpus, term + [word], place)
    ensures Holds(corpus, place, word) && EndsAt(corpus, term, Previous(place))
  {
    var n, longer := |term|, term + [word];
    var start := place.(offset := place.offset - n);
    PhraseWord(corpus, longer, start, n);
    PhraseWord(corpus, longer, start, n - 1);
    forall k: nat | k < n ensures Holds(corpus, start.(offset := start.offset + k), term[k]) {
      PhraseWord(corpus, longer, start, k);
    }
  }

  lemma JoinBackward(corpus: Corpus, term: seq<string>, word: string, place: Place)
    requires SmallOffsets(corpus) && term != [] && Holds(corpus, place, word) && EndsAt(corpus, term, Previous(place))
    ensures EndsAt(corpus, term + [word], place)
  {
    var n, longer := |term|, term + [word];
    var start := Previous(place).(offset := Previous(place).offset - (n - 1));
    PhraseWord(corpus, term, start, n - 1);
    assert start.(offset := start.offset + (n - 1)) == Previous(place);
    assert start == place.(offset := place.offset - n);
    forall k: nat | k < n + 1 ensures Holds(corpus, start.(offset := start.offset + k), longer[k]) {
      if k < n {
        PhraseWord(corpus, term, start, k);
      }
    }
  }

  /** The join: a longer phrase ends here exactly if its last word is here and
      the shorter one ends just before; the wrap at offset 0 finds nothing. */
  lemma JoinStep(file: seq<Byte>, corpus: Corpus, term: seq<string>, word: string, place: Place)
    requires Indexes(file, corpus) && term != []
    ensures EndsAt(corpus, term + [word], place) <==>
            Holds(corpus, place, word) && EndsAt(corpus, term, Previous(place))
  {
    forall p | p in corpus ensures 0 <= p.offset < OFFSETS {
      OffsetsSmall(file, corpus, p);
    }
    if EndsAt(corpus, term + [word], place) {
      JoinForward(corpus, term, word, place);
    } else if Holds(corpus, place, word) && EndsAt(corpus, term, Previous(place)) {
      JoinBackward(corpus, term, word, place);
    }
  }

  lemma SingleWord(corpus: Corpus, word: string, place: Place)
    ensures EndsAt(corpus, [word], place) <==> Holds(corpus, place, word)
  {
    assert place.(offset := place.offset - 0) == place;
    if EndsAt(corpus, [word], place) {
      assert Holds(corpus, place.(offset := place.offset + 0), [word][0]);
    }
  }

  /** Every word of a phrase that occurs is a keyword. */
  lemma PhraseNeedsKeywords(file: seq<Byte>, corpus: Corpus, term: seq<string>, i: nat, r: int)
    requires Indexes(file, corpus) && i < |term| && ReviewContains(corpus, term, r)
    ensures HasKeyword(file, term[i])
  {
    var start: Place :| PhraseAt(corpus, term, start) && start.review == r;
    PhraseWord(corpus, term, start, i);
  }

  method FindReviewsContainingTerm(file: seq<Byte>, term: seq<string>, ghost corpus: Corpus)
    returns (reviewIndices: set<int>)
    requires Indexes(file, corpus)
    ensures term != [] ==> forall r :: r in reviewIndices <==> ReviewContains(corpus, term, r)
    ensures term == [] ==> reviewIndices == {}
  {
    reviewIndices := {};
    var keywordInfoSet: set<Place> := {};
    var isFirst := true;
    for t := 0 to |term|
      invariant isFirst <==> t == 0
      invariant t == 0 ==> keywordInfoSet == {}
      invariant t > 0 ==> forall p :: p in keywordInfoSet <==> EndsAt(corpus, term[..t], p)
    {
      var found := FindKeywordPtr(file, term[t]);
      if found == None {
        forall r ensures !ReviewContains(corpus, term, r) {
          if ReviewContains(corpus, term, r) {
            PhraseNeedsKeywords(file, corpus, term, t, r);
          }
        }
        return {};
      }
      var ptr := found.value;
      var newKeywordInfoSet := Join(file, ptr, isFirst, keywordInfoSet);
      assert term[..t + 1] == term[..t] + [term[t]];
      forall p ensures p in newKeywordInfoSet <==> EndsAt(corpus, term[..t + 1], p) {
        assert Lists(file, ptr, p) <==> Holds(corpus, p, term[t]);
        if t == 0 {
          assert term[..t] + [term[t]] == [term[t]];
          SingleWord(corpus, term[t], p);
        } else {
          JoinStep(file, corpus, term[..t], term[t], p);
        }
      }
      keywordInfoSet := newKeywordInfoSet;
      isFirst := false;
    }
    assert term[..|term|] == term;
    var remaining := keywordInfoSet;
    while remaining != {}
      invariant remaining <= keywordInfoSet
      invariant forall r :: r in reviewIndices <==> exists p :: p in keywordInfoSet - remaining && p.review == r
      decreases remaining
    {
      var element :| element in remaining;
      remaining := remaining - {element};
      reviewIndices := reviewIndices + {element.review};
    }
    if term == [] {
      assert forall r :: r !in reviewIndices;
    } else {
      forall r ensures r in reviewIndices <==> ReviewContains(corpus, term, r) {
        EndsAndStarts(corpus, term, r, keywordInfoSet);
      }
    }
  }

  /** The inner loop: the occurrences of the keyword at `ptr` that continue a
      phrase found so far, or all of them for the first word. */
  method Join(file: seq<Byte>, ptr: nat, isFirst: bool, keywordInfoSet: set<Place>) returns (joined: set<Place>)
    requires EntryFits(file, ptr)
    ensures forall p :: p in joined <==> Lists(file, ptr, p) && (isFirst || Previous(p) in keywordInfoSet)
  {
    joined := {};
    for i := 0 to NumEntries(file, ptr)
      invariant forall p :: p in joined <==>
                  (exists j: nat :: j < i && Occurrence(file, ptr, j) == p) && (isFirst || Previous(p) in keywordInfoSet)
    {
      var keywordInfo := Occurrence(file, ptr, i);
      if isFirst || Previous(keywordInfo) in keywordInfoSet {
        joined := joined + {keywordInfo};
      }
    }
  }

  lemma EndsAndStarts(corpus: Corpus, term: seq<string>, r: int, ends: set<Place>)
    requires term != [] && forall p :: p in ends <==> EndsAt(corpus, term, p)
    ensures (exists p :: p in ends && p.review == r) <==> ReviewContains(corpus, term, r)
  {
    if ReviewContains(corpus, term, r) {
      var start: Place :| PhraseAt(corpus, term, start) && start.review == r;
      var last := start.(offset := start.offset + (|term| - 1));
      assert last.(offset := last.offset - (|term| - 1)) == start;
      assert last in ends;
    }
    if exists p :: p in ends && p.review == r {
      var p :| p in ends && p.review == r;
      assert p.(offset := p.offset - (|term| - 1)).review == r;
    }
  }

  // ----- searchKeywordIndex

  /** The review matches each of the first n terms. */
  ghost predicate MatchesFirst(corpus: Corpus, terms: seq<seq<string>>, n: nat, review: int)
    requires n <= |terms|
  {
    forall i :: 0 <= i < n ==> ReviewContains(corpus, terms[i], review)
  }

  /** The review matches every term of the query. */
  ghost predicate Matches(corpus: Corpus, terms: seq<seq<string>>, review: int)
  {
    MatchesFirst(corpus, terms, |terms|, review)
  }

  predicate StrictlyAscending(xs: seq<int>)
  {
    forall i, j :: 0 <= i < j < |xs| ==> xs[i] < xs[j]
  }

  lemma MatchesOneMore(corpus: Corpus, terms: seq<seq<string>>, t: nat)
    requires t < |terms|
    ensures forall r :: MatchesFirst(corpus, terms, t + 1, r) <==>
                        MatchesFirst(corpus, terms, t, r) && ReviewContains(corpus, terms[t], r)
  {
  }

  /** The loop over the terms: the conjunction of what each term matches. */
  method MatchingReviews(file: seq<Byte>, terms: seq<seq<string>>, ghost corpus: Corpus) returns (reviewIndices: set<int>)
    requires Indexes(file, corpus) && forall i :: 0 <= i < |terms| ==> terms[i] != []
    ensures terms == [] ==> reviewIndices == {}
    ensures terms != [] ==> forall r :: r in reviewIndices <==> Matches(corpus, terms, r)
  {
    reviewIndices := {};
    var isFirst := true;
    for t := 0 to |terms|
      invariant isFirst <==> t == 0
      invariant t == 0 ==> reviewIndices == {}
      invariant t > 0 ==> forall r :: r in reviewIndices <==> MatchesFirst(corpus, terms, t, r)
    {
      var currentTermReviewIndices := FindReviewsContainingTerm(file, terms[t], corpus);
      MatchesOneMore(corpus, terms, t);
      if isFirst {
        isFirst := false;
        reviewIndices := currentTermReviewIndices;
      } else {
        reviewIndices := currentTermReviewIndices * reviewIndices;
      }
    }
  }

  /** The matching reviews are appended in ascending order, each once; the answer
      says whether the vector is then non-empty. */
  method SearchKeywordIndex(file: seq<Byte>, query: string, reviewIndexes: seq<int>, ghost corpus: Corpus)
    returns (found: bool, result: seq<int>)
    requires Indexes(file, corpus)
    ensures reviewIndexes <= result && StrictlyAscending(result[|reviewIndexes|..])
    ensures var terms := QueryParser.Terms(query);
            forall r :: r in result[|reviewIndexes|..] <==> terms != [] && Matches(corpus, terms, r)
    ensures found <==> result != []
  {
    var allSearchTerms := QueryParser.ConvertQuery(query);
    var reviewIndices := MatchingReviews(file, allSearchTerms, corpus);
    var sorted := Ascending(reviewIndices);
    result := reviewIndexes + sorted;
    assert result[|reviewIndexes|..] == sorted;
    found := |result| > 0;
  }

  /** A `std::set` is iterated from its least element on. */
  method Ascending(s: set<int>) returns (xs: seq<int>)
    ensures StrictlyAscending(xs) && forall x :: x in xs <==> x in s
  {
    xs := [];
    var rest := s;
    while rest != {}
      invariant rest <= s && StrictlyAscending(xs)
      invariant forall x :: x in s <==> x in xs || x in rest
      invariant forall x, y :: x in xs && y in rest ==> x < y
      decreases rest
    {
      LeastExists(rest);
      var least :| least in rest && forall y :: y in rest ==> least <= y;
      assert forall i :: 0 <= i < |xs| ==> xs[i] in xs;
      rest := rest - {least};
      xs := xs + [least];
    }
  }

  lemma SomeMember(s: set<int>)
    requires s != {}
    ensures exists x :: x in s
  {
    var none: set<int> := {};
    assert (forall x :: x in s <==> x in none) ==> s == none;
  }

  lemma {:induction false} LeastExists(s: set<int>)
    requires s != {}
    ensures exists x :: x in s && forall y :: y in s ==> x <= y
    decreases s
  {
    SomeMember(s);
    var x: int :| x in s;
    var rest := s - {x};
    if rest == {} {
      assert s == {x};
    } else {
      LeastExists(rest);
      var m :| m in rest && forall y :: y in rest ==> m <= y;
      var least := if x <= m then x else m;
      assert forall y :: y in s ==> y == x || y in rest;
      assert least in s && forall y :: y in s ==> least <= y;
    }
  }
}
