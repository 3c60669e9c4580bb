/** Merging of duplicate articles in assign5/news-aggregator.cc, with
    `updateArticle` as one atomic step. */
module NewsAggregator {
  import opened Lexicographic
  import opened Text
  import opened Wrappers

  datatype Article = Article(url: string, title: string)

  type Tokens = seq<string>

  datatype Info = Info(article: Article, tokens: Tokens)

  /** server -> title -> what is stored for it. */
  type Articles = map<string, map<string, Info>>

  // ----- getURLServer (assign5/utils.cc)

  function UpToSlash(s: string): string
  {
    if s == "" || s[0] == '/' then "" else [s[0]] + UpToSlash(s[1..])
  }

  function GetURLServer(url: string): string
  {
    var start := if Find(url, "http://").Some? then 7 else if Find(url, "https://").Some? then 8 else 0;
    UpToSlash(url[start..])
  }

  predicate IsHost(host: string, path: string) { '/' !in host && (path == "" || path[0] == '/') }

  lemma {:induction false} HostEnds(host: string, path: string)
    requires IsHost(host, path)
    ensures UpToSlash(host + path) == host
  {
    if host == "" {
      assert host + path == path;
    } else {
      assert (host + path)[1..] == host[1..] + path;
      HostEnds(host[1..], path);
    }
  }

  lemma ServerOfHTTP(host: string, path: string)
    requires IsHost(host, path)
    ensures GetURLServer("http://" + (host + path)) == host
  {
    hide Find, UpToSlash;
    var url := "http://" + (host + path);
    assert url[..7] == "http://" && url[7..] == host + path;
    assert OccursAt(url, "http://", 0);
    HostEnds(host, path);
  }

  /** The server of an https URL is recognised exactly as long as "http://" occurs
      nowhere in it; otherwise it comes out empty. */
  lemma ServerOfHTTPS(host: string, path: string)
    requires IsHost(host, path)
    ensures var url := "https://" + (host + path);
            && (GetURLServer(url) == host <==> host == "" || forall i: nat :: !OccursAt(url, "http://", i))
            && (GetURLServer(url) == host || GetURLServer(url) == "")
  {
    hide Find, UpToSlash, OccursAt;
    var url := "https://" + (host + path);
    assert url[7..] == "/" + (host + path) && url[8..] == host + path;
    assert url[..8] == "https://";
    OccursFirst(url, "https://");
    HostEnds(host, path);
    HostEnds("", "/" + (host + path));
    assert "" + ("/" + (host + path)) == "/" + (host + path);
  }

  lemma OccursFirst(s: string, part: string)
    requires part <= s
    ensures OccursAt(s, part, 0)
  {
  }

  lemma ServerOfBareURL(host: string, path: string)
    requires IsHost(host, path)
    requires forall i: nat :: !OccursAt(host + path, "http://", i) && !OccursAt(host + path, "https://", i)
    ensures GetURLServer(host + path) == host
  {
    hide Find, UpToSlash, OccursAt;
    HostEnds(host, path);
  }

  // ----- sorted token lists

  predicate Sorted(xs: Tokens)
  {
    forall i, j :: 0 <= i < j < |xs| ==> AtMost(xs[i], xs[j])
  }

  function Insert(x: string, xs: Tokens): Tokens
  {
    if xs == [] then [x] else if Less(xs[0], x) then [xs[0]] + Insert(x, xs[1..]) else [x] + xs
  }

  function Sort(xs: Tokens): Tokens
  {
    if xs == [] then [] else Insert(xs[0], Sort(xs[1..]))
  }

  lemma {:induction false} InsertAdds(x: string, xs: Tokens)
    ensures multiset(Insert(x, xs)) == multiset(xs) + multiset{x}
  {
    hide Less;
    if xs != [] {
      assert xs == [xs[0]] + xs[1..];
      InsertAdds(x, xs[1..]);
    }
  }

  lemma {:induction false} InsertKeepsSorted(x: string, xs: Tokens)
    requires Sorted(xs)
    ensures Sorted(Insert(x, xs))
  {
    if xs != [] {
      Trichotomy(xs[0], x);
      if Less(xs[0], x) {
        var rest := Insert(x, xs[1..]);
        InsertKeepsSorted(x, xs[1..]);
        InsertAdds(x, xs[1..]);
        forall j | 0 <= j < |rest| ensures AtMost(xs[0], rest[j]) {
          assert rest[j] in multiset(rest);
          assert rest[j] == x || rest[j] in xs[1..];
        }
      } else {
        forall j | 0 <= j < |xs| ensures AtMost(x, xs[j]) {
          AtMostTransitive(x, xs[0], xs[j]);
        }
      }
    }
  }

  lemma {:induction false} SortSorts(xs: Tokens)
    ensures Sorted(Sort(xs)) && multiset(Sort(xs)) == multiset(xs)
  {
    if xs != [] {
      assert xs == [xs[0]] + xs[1..];
      SortSorts(xs[1..]);
      InsertAdds(xs[0], Sort(xs[1..]));
      InsertKeepsSorted(xs[0], Sort(xs[1..]));
    }
  }

  lemma HeadIsLeast(xs: Tokens, x: string)
    requires Sorted(xs) && x in xs
    ensures AtMost(xs[0], x)
  {
  }

  lemma TailMultiset(xs: Tokens)
    requires xs != []
    ensures xs[0] in multiset(xs) && multiset(xs[1..]) == multiset(xs) - multiset{xs[0]}
  {
    assert xs == [xs[0]] + xs[1..];
  }

  lemma SameHead(xs: Tokens, ys: Tokens)
    requires Sorted(xs) && Sorted(ys) && multiset(xs) == multiset(ys) && xs != []
    ensures ys != [] && xs[0] == ys[0]
  {
    TailMultiset(xs);
    assert xs[0] in ys;
    TailMultiset(ys);
    assert ys[0] in xs;
    HeadIsLeast(xs, ys[0]);
    HeadIsLeast(ys, xs[0]);
    hide Sorted, AtMost, Less;
    AtMostAntisymmetric(xs[0], ys[0]);
  }

  /** A sorted list is determined by its multiset. */
  lemma {:induction false} SortedUnique(xs: Tokens, ys: Tokens)
    requires Sorted(xs) && Sorted(ys) && multiset(xs) == multiset(ys)
    ensures xs == ys
  {
    if xs == [] {
      assert |ys| == |multiset(ys)|;
    } else {
      SameHead(xs, ys);
      TailMultiset(xs);
      TailMultiset(ys);
      SortedUnique(xs[1..], ys[1..]);
      assert xs == [xs[0]] + xs[1..] && ys == [ys[0]] + ys[1..];
    }
  }

  // ----- std::set_intersection

  /** What remains to be merged of two sorted lists. */
  function Meet(xs: Tokens, ys: Tokens): Tokens
    decreases |xs| + |ys|
  {
    if xs == [] || ys == [] then []
    else if Less(xs[0], ys[0]) then Meet(xs[1..], ys)
    else if Less(ys[0], xs[0]) then Meet(xs, ys[1..])
    else [xs[0]] + Meet(xs[1..], ys[1..])
  }

  method SetIntersection(xs: Tokens, ys: Tokens) returns (result: Tokens)
    ensures result == Meet(xs, ys)
  {
    var i, j := 0, 0;
    result := [];
    while i < |xs| && j < |ys|
      invariant i <= |xs| && j <= |ys|
      invariant result + Meet(xs[i..], ys[j..]) == Meet(xs, ys)
      decreases |xs| - i + |ys| - j
    {
      assert xs[i..][1..] == xs[i + 1..] && ys[j..][1..] == ys[j + 1..];
      if Less(xs[i], ys[j]) {
        i := i + 1;
      } else {
        if !Less(ys[j], xs[i]) {
          result := result + [xs[i]];
          i := i + 1;
        }
        j := j + 1;
      }
    }
  }

  lemma NotIn(x: string, ys: Tokens)
    requires Sorted(ys) && (ys == [] || Less(x, ys[0]))
    ensures x !in ys
  {
    if x in ys {
      HeadIsLeast(ys, x);
      Trichotomy(x, ys[0]);
    }
  }

  lemma SkipHead(x: string, rest: Tokens, ys: Tokens)
    requires x !in ys
    ensures multiset([x] + rest) * multiset(ys) == multiset(rest) * multiset(ys)
    ensures multiset(ys) * multiset([x] + rest) == multiset(ys) * multiset(rest)
  {
    assert multiset([x] + rest) == multiset{x} + multiset(rest);
    assert multiset(ys)[x] == 0;
  }

  lemma TakeHead(x: string, xs: Tokens, ys: Tokens)
    ensures multiset([x] + xs) * multiset([x] + ys) == multiset{x} + multiset(xs) * multiset(ys)
  {
    assert multiset([x] + xs) == multiset{x} + multiset(xs);
    assert multiset([x] + ys) == multiset{x} + multiset(ys);
  }

  lemma PrependSorted(x: string, xs: Tokens, rest: Tokens)
    requires Sorted([x] + xs) && Sorted(rest) && multiset(rest) <= multiset(xs)
    ensures Sorted([x] + rest) && multiset([x] + rest) == multiset{x} + multiset(rest)
  {
    forall j | 0 <= j < |rest| ensures AtMost(x, rest[j]) {
      assert rest[j] in multiset(rest) && rest[j] in multiset(xs);
      HeadIsLeast([x] + xs, rest[j]);
    }
  }

  /** On sorted lists the merge is the sorted multiset intersection. */
  lemma {:induction false} MeetIsIntersection(xs: Tokens, ys: Tokens)
    requires Sorted(xs) && Sorted(ys)
    ensures Sorted(Meet(xs, ys)) && multiset(Meet(xs, ys)) == multiset(xs) * multiset(ys)
    decreases |xs| + |ys|
  {
    if xs == [] || ys == [] {
      assert multiset(xs) * multiset(ys) == multiset{};
    } else {
      var x, y, xs', ys' := xs[0], ys[0], xs[1..], ys[1..];
      assert xs == [x] + xs' && ys == [y] + ys';
      if Less(x, y) {
        NotIn(x, ys);
        SkipHead(x, xs', ys);
        MeetIsIntersection(xs', ys);
      } else if Less(y, x) {
        NotIn(y, xs);
        SkipHead(y, ys', xs);
        MeetIsIntersection(xs, ys');
      } else {
        Trichotomy(x, y);
        MeetIsIntersection(xs', ys');
        TakeHead(x, xs', ys');
        PrependSorted(x, xs', Meet(xs', ys'));
      }
    }
  }

  // ----- updateArticle

  /** One call of `updateArticle`. */
  datatype Update = Update(article: Article, tokens: Tokens)

  predicate IsFor(u: Update, server: string, title: string)
  {
    GetURLServer(u.article.url) == server && u.article.title == title
  }

  function Lookup(articles: Articles, server: string, title: string): Option<Info>
  {
    if server in articles && title in articles[server] then Some(articles[server][title]) else None
  }

  /** What an update makes of the entry stored so far. */
  function Merge(current: Option<Info>, u: Update): Info
  {
    match current
    case None => Info(u.article, u.tokens)
    case Some(info) =>
      Info(if Less(u.article.url, info.article.url) then u.article else info.article,
           Meet(info.tokens, u.tokens))
  }

  function Store(articles: Articles, server: string, title: string, info: Info): Articles
  {
    articles[server := (if server in articles then articles[server] else map[])[title := info]]
  }

  function Applied(articles: Articles, u: Update): Articles
  {
    var server, title := GetURLServer(u.article.url), u.article.title;
    Store(articles, server, title, Merge(Lookup(articles, server, title), u))
  }

  function Final(us: seq<Update>): Articles
  {
    if us == [] then map[] else Applied(Final(us[..|us| - 1]), us[|us| - 1])
  }

  // ----- what the entries are, without saying in which order they came

  function Count(tokens: Tokens, x: string): nat { multiset(tokens)[x] }

  /** The entry a collection of updates calls for: the article with the least URL
      and, sorted, every token as often as in the list where it is rarest. */
  ghost predicate Merged(us: seq<Update>, server: string, title: string, info: Info)
  {
    && (exists u :: u in us && IsFor(u, server, title) && u.article == info.article)
    && (forall u :: u in us && IsFor(u, server, title) ==> AtMost(info.article.url, u.article.url))
    && Sorted(info.tokens)
    && (forall u, x :: u in us && IsFor(u, server, title) ==> Count(info.tokens, x) <= Count(u.tokens, x))
    && (forall x :: Attained(us, server, title, info.tokens, x))
  }

  ghost predicate Attained(us: seq<Update>, server: string, title: string, tokens: Tokens, x: string)
  {
    exists u :: u in us && IsFor(u, server, title) && Count(u.tokens, x) == Count(tokens, x)
  }

  ghost predicate AnyFor(us: seq<Update>, server: string, title: string)
  {
    exists u :: u in us && IsFor(u, server, title)
  }

  ghost predicate AllSorted(us: seq<Update>)
  {
    forall u :: u in us ==> Sorted(u.tokens)
  }

  lemma MergeFirst(us: seq<Update>, u: Update, server: string, title: string)
    requires IsFor(u, server, title) && !AnyFor(us, server, title) && Sorted(u.tokens)
    ensures Merged(us + [u], server, title, Merge(None, u))
  {
    var all := us + [u];
    assert u in all;
    forall v | v in all && IsFor(v, server, title) ensures v == u {
      assert v in us || v == u;
    }
    forall x ensures Attained(all, server, title, u.tokens, x) {
      assert u in all && IsFor(u, server, title) && Count(u.tokens, x) == Count(u.tokens, x);
    }
  }

  lemma MergeArticle(us: seq<Update>, u: Update, server: string, title: string, info: Info)
    requires IsFor(u, server, title) && Merged(us, server, title, info)
    ensures var all := us + [u]; var merged := Merge(Some(info), u).article;
            && (exists v :: v in all && IsFor(v, server, title) && v.article == merged)
            && (forall v :: v in all && IsFor(v, server, title) ==> AtMost(merged.url, v.article.url))
  {
    var all, merged := us + [u], Merge(Some(info), u).article;
    var w :| w in us && IsFor(w, server, title) && w.article == info.article;
    assert w in all && u in all;
    Trichotomy(u.article.url, info.article.url);
    forall v | v in all && IsFor(v, server, title) ensures AtMost(merged.url, v.article.url) {
      if v in us {
        AtMostTransitive(merged.url, info.article.url, v.article.url);
      }
    }
  }

  lemma MergeTokens(us: seq<Update>, u: Update, server: string, title: string, info: Info, x: string)
    requires IsFor(u, server, title) && Merged(us, server, title, info) && Sorted(u.tokens)
    ensures var all := us + [u]; var merged := Meet(info.tokens, u.tokens);
            && (forall v :: v in all && IsFor(v, server, title) ==> Count(merged, x) <= Count(v.tokens, x))
            && Attained(all, server, title, merged, x)
  {
    var all, merged := us + [u], Meet(info.tokens, u.tokens);
    MeetIsIntersection(info.tokens, u.tokens);
    assert Count(merged, x) == if Count(info.tokens, x) <= Count(u.tokens, x) then Count(info.tokens, x) else Count(u.tokens, x);
    assert Attained(us, server, title, info.tokens, x);
    var w :| w in us && IsFor(w, server, title) && Count(w.tokens, x) == Count(info.tokens, x);
    assert w in all && u in all;
    forall v | v in all && IsFor(v, server, title) ensures Count(merged, x) <= Count(v.tokens, x) {
      if v in us {
        assert Count(info.tokens, x) <= Count(v.tokens, x);
      }
    }
  }

  lemma MergeNext(us: seq<Update>, u: Update, server: string, title: string, info: Info)
    requires IsFor(u, server, title) && Merged(us, server, title, info) && Sorted(u.tokens)
    ensures Merged(us + [u], server, title, Merge(Some(info), u))
  {
    MergeArticle(us, u, server, title, info);
    MeetIsIntersection(info.tokens, u.tokens);
    forall x ensures Attained(us + [u], server, title, Meet(info.tokens, u.tokens), x) {
      MergeTokens(us, u, server, title, info, x);
    }
    forall v, x | v in us + [u] && IsFor(v, server, title)
      ensures Count(Meet(info.tokens, u.tokens), x) <= Count(v.tokens, x)
    {
      MergeTokens(us, u, server, title, info, x);
    }
  }

  /** An update for another server or title changes nothing. */
  lemma MergedOfOthers(us: seq<Update>, u: Update, server: string, title: string)
    requires !IsFor(u, server, title)
    ensures AnyFor(us + [u], server, title) <==> AnyFor(us, server, title)
    ensures forall info :: Merged(us, server, title, info) ==> Merged(us + [u], server, title, info)
  {
    var all := us + [u];
    assert forall v :: v in all && IsFor(v, server, title) <==> v in us && IsFor(v, server, title);
    forall info | Merged(us, server, title, info) ensures Merged(all, server, title, info) {
      forall x ensures Attained(all, server, title, info.tokens, x) {
        assert Attained(us, server, title, info.tokens, x);
      }
    }
  }

  ghost predicate RightEntry(us: seq<Update>, server: string, title: string, entry: Option<Info>)
  {
    && (entry.Some? <==> AnyFor(us, server, title))
    && (entry.Some? ==> Merged(us, server, title, entry.value))
  }

  lemma MergeKeepsRight(us: seq<Update>, u: Update, server: string, title: string, entry: Option<Info>)
    requires RightEntry(us, server, title, entry) && IsFor(u, server, title) && Sorted(u.tokens)
    ensures RightEntry(us + [u], server, title, Some(Merge(entry, u)))
  {
    assert u in us + [u];
    match entry
    case None => MergeFirst(us, u, server, title);
    case Some(info) => MergeNext(us, u, server, title, info);
  }

  lemma AppliedEntry(articles: Articles, u: Update, server: string, title: string)
    ensures Lookup(Applied(articles, u), server, title) ==
            if IsFor(u, server, title) then Some(Merge(Lookup(articles, server, title), u)) else Lookup(articles, server, title)
  {
  }

  /** After any sequence of updates, there is an entry for exactly the servers and
      titles that occur, and it is the one the collection calls for. */
  lemma {:induction false} FinalEntries(us: seq<Update>, server: string, title: string)
    requires AllSorted(us)
    ensures RightEntry(us, server, title, Lookup(Final(us), server, title))
  {
    if us != [] {
      var before, u := us[..|us| - 1], us[|us| - 1];
      FinalEntries(before, server, title);
      AppliedEntry(Final(before), u, server, title);
      assert us == before + [u];
      if IsFor(u, server, title) {
        MergeKeepsRight(before, u, server, title, Lookup(Final(before), server, title));
      } else {
        MergedOfOthers(before, u, server, title);
      }
    }
  }

  /** A collection calls for one entry only. */
  lemma MergedUnique(us: seq<Update>, vs: seq<Update>, server: string, title: string, a: Info, b: Info)
    requires forall u :: u in us <==> u in vs
    requires Merged(us, server, title, a) && Merged(vs, server, title, b)
    ensures a == b
  {
    Trichotomy(a.article.url, b.article.url);
    var ua :| ua in us && IsFor(ua, server, title) && ua.article == a.article;
    var ub :| ub in vs && IsFor(ub, server, title) && ub.article == b.article;
    forall x ensures Count(a.tokens, x) == Count(b.tokens, x) {
      assert Attained(us, server, title, a.tokens, x) && Attained(vs, server, title, b.tokens, x);
    }
    assert multiset(a.tokens) == multiset(b.tokens) by {
      forall x ensures multiset(a.tokens)[x] == multiset(b.tokens)[x] {
        assert Count(a.tokens, x) == Count(b.tokens, x);
      }
    }
    SortedUnique(a.tokens, b.tokens);
  }

  lemma {:induction false} FinalServers(us: seq<Update>, server: string)
    ensures server in Final(us) <==> exists u :: u in us && GetURLServer(u.article.url) == server
  {
    if us != [] {
      var n := |us| - 1;
      FinalServers(us[..n], server);
      assert us == us[..n] + [us[n]];
      assert forall u :: u in us <==> u in us[..n] || u == us[n];
    }
  }

  /** The final map depends only on which updates were made, not on their order
      or on how often each was made. */
  lemma FinalOrderIndependent(us: seq<Update>, vs: seq<Update>)
    requires forall u :: u in us <==> u in vs
    requires AllSorted(us)
    ensures Final(us) == Final(vs)
  {
    forall server ensures server in Final(us) <==> server in Final(vs) {
      FinalServers(us, server);
      FinalServers(vs, server);
    }
    forall server, title ensures Lookup(Final(us), server, title) == Lookup(Final(vs), server, title) {
      SameEntry(us, vs, server, title);
    }
    forall server | server in Final(us) ensures Final(us)[server] == Final(vs)[server] {
      var a, b := Final(us)[server], Final(vs)[server];
      forall title ensures (title in a <==> title in b) && (title in a ==> a[title] == b[title]) {
        assert Lookup(Final(us), server, title) == Lookup(Final(vs), server, title);
      }
    }
  }

  lemma SameEntry(us: seq<Update>, vs: seq<Update>, server: string, title: string)
    requires forall u :: u in us <==> u in vs
    requires AllSorted(us)
    ensures Lookup(Final(us), server, title) == Lookup(Final(vs), server, title)
  {
    FinalEntries(us, server, title);
    FinalEntries(vs, server, title);
    if AnyFor(us, server, title) {
      MergedUnique(us, vs, server, title, Lookup(Final(us), server, title).value, Lookup(Final(vs), server, title).value);
    }
  }

  // ----- the aggregator's fields, updated in place

  class Aggregator {
    var articles: Articles
    var articleUrls: set<string>
    ghost var updates: seq<Update>

    /** The map is what the updates made so far call for. */
    ghost predicate Valid()
      reads this
    {
      articles == Final(updates) && AllSorted(updates)
    }

    constructor ()
      ensures Valid() && updates == [] && articleUrls == {}
    {
      articles, articleUrls, updates := map[], {}, [];
    }

    method UpdateArticle(article: Article, tokens: Tokens)
      requires Valid() && Sorted(tokens)
      modifies this`articles, this`updates
      ensures Valid() && updates == old(updates) + [Update(article, tokens)]
      ensures articles == Applied(old(articles), Update(article, tokens))
    {
      var server, title := GetURLServer(article.url), article.title;
      updates := updates + [Update(article, tokens)];
      assert updates[..|updates| - 1] == old(updates);
      if server !in articles {
        articles := articles[server := map[title := Info(article, tokens)]];
      } else if title !in articles[server] {
        articles := articles[server := articles[server][title := Info(article, tokens)]];
      } else {
        var current := articles[server][title];
        var intersection := SetIntersection(current.tokens, tokens);
        var newArticle := if Less(article.url, current.article.url) then article else current.article;
        articles := articles[server := articles[server][title := Info(newArticle, intersection)]];
      }
    }

    /** A failed download leaves the token list empty and is stored all the same. */
    method ProcessArticle(article: Article, document: Option<Tokens>)
      requires Valid()
      modifies this
      ensures Valid()
      ensures articleUrls == old(articleUrls) + {article.url}
      ensures if article.url in old(articleUrls) then updates == old(updates)
              else updates == old(updates) + [Update(article, if document.Some? then Sort(document.value) else [])]
    {
      if article.url in articleUrls {
        return;
      }
      articleUrls := articleUrls + {article.url};
      var tokens: Tokens := [];
      if document.Some? {
        tokens := document.value;
      }
      SortSorts(tokens);
      tokens := Sort(tokens);
      UpdateArticle(article, tokens);
    }
  }
}
