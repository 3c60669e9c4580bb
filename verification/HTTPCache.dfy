/** The response cache of assign6/cache.cc, as a state machine over the files of
    its directory and the clock. */
module HTTPCacheModel {
  import opened Decimal
  import opened Text
  import opened Wrappers

  const CREATED := "created@"
  const EXPIRES := "expires@"
  const TIME_MAX: int := 0x4000_0000_0000_0000

  type int32 = x: int | -0x8000_0000 <= x < 0x8000_0000

  /** `unset` is what the variable for the max-age holds before it is read. */
  datatype Response = Response(code: int, cacheControl: Option<string>, unset: int32, text: string)

  datatype Request = Request(verb: string, text: string)

  // ----- the Cache-Control header

  function TTL(response: Response): int32
  {
    if response.cacheControl.None? then 0
    else
      var value := response.cacheControl.value;
      var pos := Find(value, "max-age=");
      if pos.None? then 0 else ReadInt(value[pos.value + 8..], response.unset)
  }

  predicate PermitsCaching(response: Response)
  {
    && response.cacheControl.Some?
    && Find(response.cacheControl.value, "private").None?
    && Find(response.cacheControl.value, "no-cache").None?
    && Find(response.cacheControl.value, "no-store").None?
    && TTL(response) > 0
  }

  ghost predicate MaxAgeAt(value: string, before: string, space: string, sign: string, n: nat, rest: string)
  {
    && value == before + ("max-age=" + (space + (sign + (Print(n) + rest))))
    && AllSpace(space) && sign in ["", "+", "-"] && (rest == "" || !IsDigit(rest[0]))
    && forall i: nat :: i < |before| ==> !OccursAt(value, "max-age=", i)
  }

  /** The header gives `age` as its first max-age. */
  ghost predicate GivesMaxAge(value: string, age: int)
  {
    exists before, space, sign, rest, n :: MaxAgeAt(value, before, space, sign, n, rest) && age == if sign == "-" then -(n as int) else n
  }

  function Limited(age: int): int32
  {
    if age > 0x7FFF_FFFF then 0x7FFF_FFFF else if age < -0x8000_0000 then -0x8000_0000 else age
  }

  lemma FirstMaxAge(value: string, before: string, number: string)
    requires value == before + ("max-age=" + number)
    requires forall i: nat :: i < |before| ==> !OccursAt(value, "max-age=", i)
    ensures Find(value, "max-age=") == Some(|before|) && value[|before| + 8..] == number
  {
    hide Find;
    assert value[|before|..|before| + 8] == "max-age=";
    assert OccursAt(value, "max-age=", |before|);
  }

  lemma ReadIntOfPrint(space: string, sign: string, n: int, rest: string, before: int)
    requires AllSpace(space) && n >= 0 && sign in ["", "+", "-"] && (rest == "" || !IsDigit(rest[0]))
    ensures ReadInt(space + (sign + (Print(n) + rest)), before) == Limited(if sign == "-" then -n else n)
  {
    hide Print, AllSpace, SkipSpace, Number, Signed;
    SignedOfPrint(space, sign, n, rest);
  }

  lemma TTLFound(response: Response, before: string, space: string, sign: string, n: nat, rest: string)
    requires response.cacheControl.Some? && MaxAgeAt(response.cacheControl.value, before, space, sign, n, rest)
    ensures TTL(response) == Limited(if sign == "-" then -(n as int) else n)
  {
    hide OccursAt, Find, Print, AllSpace, ReadInt;
    ReadIntOfPrint(space, sign, n, rest, response.unset);
    FirstMaxAge(response.cacheControl.value, before, space + (sign + (Print(n) + rest)));
  }

  /** A max-age in the header is the time to live, limited to an `int`. */
  lemma TTLOfMaxAge(response: Response, age: int)
    requires response.cacheControl.Some? && GivesMaxAge(response.cacheControl.value, age)
    ensures TTL(response) == Limited(age)
  {
    hide MaxAgeAt, TTL;
    var before, space, sign, rest, n :|
      MaxAgeAt(response.cacheControl.value, before, space, sign, n, rest) && age == if sign == "-" then -(n as int) else n;
    TTLFound(response, before, space, sign, n, rest);
  }

  /** Such a response may be stored exactly if the age is positive and none of the
      three words occurs. */
  lemma StorableWithMaxAge(response: Response, age: int)
    requires response.cacheControl.Some? && GivesMaxAge(response.cacheControl.value, age)
    ensures PermitsCaching(response) <==>
              age > 0 && forall word, i: nat | word in ["private", "no-cache", "no-store"] :: !OccursAt(response.cacheControl.value, word, i)
  {
    hide OccursAt, Find, GivesMaxAge, TTL;
    TTLOfMaxAge(response, age);
    var value := response.cacheControl.value;
    if PermitsCaching(response) {
      forall word, i: nat | word in ["private", "no-cache", "no-store"]
        ensures !OccursAt(value, word, i)
      {
      }
    } else if age > 0 {
      var word := if Find(value, "private").Some? then "private" else if Find(value, "no-cache").Some? then "no-cache" else "no-store";
      assert word in ["private", "no-cache", "no-store"] && OccursAt(value, word, Find(value, word).value);
    }
  }

  /** Without a max-age in the header, nothing is stored. */
  lemma NothingWithoutMaxAge(response: Response)
    requires response.cacheControl.Some? ==> forall i: nat :: !OccursAt(response.cacheControl.value, "max-age=", i)
    ensures TTL(response) == 0 && !PermitsCaching(response)
  {
    hide OccursAt, Find;
  }

  // ----- file names

  function FileName(created: nat, expires: nat): string { CREATED + Print(created) + EXPIRES + Print(expires) }

  lemma NameIs(created: nat, expires: nat)
    ensures FileName(created, expires) == "created@" + Print(created) + "expires@" + Print(expires)
  {
  }

  datatype Error = BadName | NotEmpty

  predicate ProperlyStructured(name: string)
  {
    Find(name, CREATED) == Some(0) && Find(name, EXPIRES).Some? && Find(name, EXPIRES).value > 0
  }

  lemma SecondHeaderAfterFirst(name: string)
    requires ProperlyStructured(name)
    ensures Find(name, EXPIRES).value >= |CREATED|
  {
    hide Find;
    var k := Find(name, EXPIRES).value;
    OccurrenceStarts(name, EXPIRES, k, 0);
    OccurrenceStarts(name, EXPIRES, k, 1);
    assert name[..|CREATED|] == CREATED;
    assert forall i :: 0 <= i < |CREATED| ==> name[i] == CREATED[i];
  }

  function CreateAndExpireTimes(name: string): Result<(int, int), Error>
  {
    if !ProperlyStructured(name) then Err(BadName)
    else
      SecondHeaderAfterFirst(name);
      var k := Find(name, EXPIRES).value;
      var created, expires := Parse(name[|CREATED|..k], LONG_MAX), Parse(name[k + |EXPIRES|..], LONG_MAX);
      if created.None? || expires.None? then Err(BadName) else Ok((created.value, expires.value))
  }

  lemma NoEarlierHeader(digits: string, rest: string, i: nat)
    requires AllDigits(digits) && i < |CREATED| + |digits|
    ensures !OccursAt(CREATED + digits + EXPIRES + rest, EXPIRES, i)
  {
    var name := CREATED + digits + EXPIRES + rest;
    if i >= |CREATED| {
      assert name[i] == digits[i - |CREATED|];
    } else {
      assert name[i] == CREATED[i];
      assert name[i + 1] == (CREATED + digits + EXPIRES)[i + 1];
    }
    OccurrenceStarts(name, EXPIRES, i, 0);
    OccurrenceStarts(name, EXPIRES, i, 1);
  }

  /** In a printed name the second header is first met after the create time. */
  lemma HeadersFound(created: nat, expires: nat)
    ensures Find(FileName(created, expires), CREATED) == Some(0)
    ensures Find(FileName(created, expires), EXPIRES) == Some(|CREATED| + |Print(created)|)
  {
    hide Find, Print;
    var name, k := FileName(created, expires), |CREATED| + |Print(created)|;
    assert OccursAt(name, CREATED, 0);
    assert OccursAt(name, EXPIRES, k);
    forall i: nat | i < k
      ensures !OccursAt(name, EXPIRES, i)
    {
      NoEarlierHeader(Print(created), Print(expires), i);
    }
  }

  /** The times printed into a file name are read back from it. */
  lemma NameRoundTrip(created: nat, expires: nat)
    requires created <= LONG_MAX && expires <= LONG_MAX
    ensures CreateAndExpireTimes(FileName(created, expires)) == Ok((created, expires))
  {
    hide Find, Parse;
    var name := FileName(created, expires);
    HeadersFound(created, expires);
    PrintThenParse(created, LONG_MAX);
    PrintThenParse(expires, LONG_MAX);
    var k := |CREATED| + |Print(created)|;
    assert name[|CREATED|..k] == Print(created) && name[k + |EXPIRES|..] == Print(expires);
  }

  // ----- the cache as entries under hashes

  datatype Entry = Entry(created: nat, expires: nat, response: Response)

  datatype Cache = Cache(entries: map<string, Entry>, maxAge: int)

  /** `read` is the clock reading from which the expiration time is counted. */
  datatype Op =
    | Store(dir: string, response: Response, created: nat, read: nat)
    | Get(dir: string, now: nat)
    | SetMaxAge(age: int)
    | Clear

  /** How long a response stored under this max-age may be used. */
  function Lifetime(ttl: int, maxAge: int): (life: nat)
    ensures ttl < 0 ==> life == 0
    ensures ttl >= 0 ==> life <= ttl && (maxAge >= 0 ==> life <= maxAge) && (life == ttl || (maxAge >= 0 && life == maxAge))
  {
    var least := if maxAge >= 0 && maxAge < ttl then maxAge else ttl;
    if least >= 0 then least else 0
  }

  /** The entry may be used at `now` while this max-age is in force. */
  predicate Usable(e: Entry, maxAge: int, now: nat)
  {
    now <= e.expires && (maxAge > 0 ==> now <= e.created + maxAge)
  }

  function Apply(c: Cache, op: Op): Cache
  {
    match op
    case Store(dir, response, created, read) =>
      c.(entries := c.entries[dir := Entry(created, read + Lifetime(TTL(response), c.maxAge), response)])
    case Get(dir, now) =>
      if c.maxAge != 0 && dir in c.entries && !Usable(c.entries[dir], c.maxAge, now) then c.(entries := c.entries - {dir}) else c
    case SetMaxAge(age) => c.(maxAge := age)
    case Clear => c.(entries := map[])
  }

  function Answer(c: Cache, dir: string, now: nat): Option<Response>
  {
    if c.maxAge != 0 && dir in c.entries && Usable(c.entries[dir], c.maxAge, now) then Some(c.entries[dir].response) else None
  }

  /** The state after the first `n` operations on an empty cache. */
  function After(ops: seq<Op>, n: nat): Cache
    requires n <= |ops|
  {
    if n == 0 then Cache(map[], -1) else Apply(After(ops, n - 1), ops[n - 1])
  }

  /** The max-age in force after the first `n` operations. */
  function MaxAgeAfter(ops: seq<Op>, n: nat): int
    requires n <= |ops|
  {
    if n == 0 then -1 else if ops[n - 1].SetMaxAge? then ops[n - 1].age else MaxAgeAfter(ops, n - 1)
  }

  predicate StoresTo(op: Op, dir: string) { op.Store? && op.dir == dir }

  /** At `now`, with this max-age in force, what operation `i` stored may be used:
      neither its time to live, nor the max-age when it was stored, nor the
      present one has passed. */
  predicate StillFresh(ops: seq<Op>, i: nat, maxAge: int, now: nat)
    requires i < |ops| && ops[i].Store?
  {
    var ttl, maxAgeThen := TTL(ops[i].response), MaxAgeAfter(ops, i);
    && now <= ops[i].read + (if ttl >= 0 then ttl else 0)
    && (maxAgeThen >= 0 ==> now <= ops[i].read + maxAgeThen)
    && (maxAge > 0 ==> now <= ops[i].created + maxAge)
  }

  /** Operation `j` is a lookup under `dir` that finds what operation `i` stored
      too old. */
  predicate Expels(ops: seq<Op>, i: nat, j: nat)
    requires i < |ops| && ops[i].Store? && j < |ops|
  {
    ops[j].Get? && ops[j].dir == ops[i].dir && MaxAgeAfter(ops, j) != 0 && !StillFresh(ops, i, MaxAgeAfter(ops, j), ops[j].now)
  }

  /** Operation `i` is the last store under its hash among the first `n`, and the
      entry was neither cleared nor expelled since. */
  ghost predicate Current(ops: seq<Op>, i: nat, n: nat)
    requires n <= |ops|
  {
    && i < n && ops[i].Store?
    && forall j :: i < j < n ==> !StoresTo(ops[j], ops[i].dir) && !ops[j].Clear? && !Expels(ops, i, j)
  }

  ghost predicate EntryFrom(ops: seq<Op>, i: nat, e: Entry)
    requires i < |ops| && ops[i].Store?
  {
    e == Entry(ops[i].created, ops[i].read + Lifetime(TTL(ops[i].response), MaxAgeAfter(ops, i)), ops[i].response)
  }

  lemma {:induction false} MaxAgeIsLastSet(ops: seq<Op>, n: nat)
    requires n <= |ops|
    ensures After(ops, n).maxAge == MaxAgeAfter(ops, n)
  {
    if n > 0 {
      MaxAgeIsLastSet(ops, n - 1);
    }
  }

  /** An entry in the cache is the last store under its hash. */
  lemma {:induction false} EntryIsLastStore(ops: seq<Op>, n: nat, dir: string) returns (i: nat)
    requires n <= |ops| && dir in After(ops, n).entries
    ensures Current(ops, i, n) && ops[i].dir == dir && EntryFrom(ops, i, After(ops, n).entries[dir])
  {
    hide TTL;
    MaxAgeIsLastSet(ops, n - 1);
    if StoresTo(ops[n - 1], dir) {
      i := n - 1;
    } else {
      i := EntryIsLastStore(ops, n - 1, dir);
    }
  }

  /** And the last store is in the cache unless cleared or expelled. */
  lemma {:induction false} LastStoreIsEntry(ops: seq<Op>, n: nat, i: nat)
    requires n <= |ops| && Current(ops, i, n)
    ensures ops[i].dir in After(ops, n).entries && EntryFrom(ops, i, After(ops, n).entries[ops[i].dir])
  {
    hide TTL;
    MaxAgeIsLastSet(ops, n - 1);
    if i < n - 1 {
      LastStoreIsEntry(ops, n - 1, i);
      assert !StoresTo(ops[n - 1], ops[i].dir) && !ops[n - 1].Clear? && !Expels(ops, i, n - 1);
    }
  }

  /** Over any run: a lookup answers exactly with the response last stored under
      the hash, and exactly while that is fresh, has not been cleared, and no
      earlier lookup has expelled it. */
  lemma HitsAreFreshLastStores(ops: seq<Op>, dir: string, now: nat, response: Response)
    ensures Answer(After(ops, |ops|), dir, now) == Some(response) <==>
            && MaxAgeAfter(ops, |ops|) != 0
            && exists i: nat :: && Current(ops, i, |ops|) && ops[i].dir == dir && ops[i].response == response
                           && StillFresh(ops, i, MaxAgeAfter(ops, |ops|), now)
  {
    var n, c := |ops|, After(ops, |ops|);
    MaxAgeIsLastSet(ops, n);
    if Answer(c, dir, now) == Some(response) {
      var i := EntryIsLastStore(ops, n, dir);
      assert Current(ops, i, n) && StillFresh(ops, i, MaxAgeAfter(ops, n), now);
    }
    if i: nat :| Current(ops, i, n) && ops[i].dir == dir && ops[i].response == response && StillFresh(ops, i, MaxAgeAfter(ops, n), now)
    {
      LastStoreIsEntry(ops, n, i);
    }
  }

  /** A response that passed `ShouldCache` can be used for at least a second. */
  lemma StoredIsUsable(ops: seq<Op>, now: nat)
    requires ops != [] && ops[|ops| - 1].Store? && PermitsCaching(ops[|ops| - 1].response) && MaxAgeAfter(ops, |ops|) != 0
    requires now <= ops[|ops| - 1].created + 1 && now <= ops[|ops| - 1].read + 1
    ensures Answer(After(ops, |ops|), ops[|ops| - 1].dir, now) == Some(ops[|ops| - 1].response)
  {
    hide TTL;
    MaxAgeIsLastSet(ops, |ops|);
    LastStoreIsEntry(ops, |ops|, |ops| - 1);
  }

  // ----- the files

  /** Each hash has a directory with exactly one file. */
  ghost predicate Files(dirs: map<string, map<string, Response>>, entries: map<string, Entry>)
  {
    && dirs.Keys == entries.Keys
    && forall dir :: dir in entries ==>
         && entries[dir].created <= TIME_MAX && entries[dir].expires <= LONG_MAX
         && dirs[dir] == map[FileName(entries[dir].created, entries[dir].expires) := entries[dir].response]
  }

  lemma StoreKeepsFiles(dirs: map<string, map<string, Response>>, entries: map<string, Entry>, dir: string, e: Entry)
    requires Files(dirs, entries) && e.created <= TIME_MAX && e.expires <= LONG_MAX
    ensures Files(dirs[dir := map[FileName(e.created, e.expires) := e.response]], entries[dir := e])
  {
  }

  lemma OneFile(dirs: map<string, map<string, Response>>, entries: map<string, Entry>, dir: string)
    requires Files(dirs, entries)
    ensures dir in dirs <==> dir in entries
    ensures dir in dirs ==>
              var e := entries[dir];
              var name := FileName(e.created, e.expires);
              e.created <= TIME_MAX && e.expires <= LONG_MAX && dirs[dir] == map[name := e.response] && name in dirs[dir]
  {
  }

  lemma RemoveKeepsFiles(dirs: map<string, map<string, Response>>, entries: map<string, Entry>, dir: string)
    requires Files(dirs, entries)
    ensures Files(dirs - {dir}, entries - {dir})
  {
  }

  class HTTPCache {
    const hash: string -> nat
    var maxAge: int
    var dirs: map<string, map<string, Response>>
    ghost var entries: map<string, Entry>

    ghost predicate Valid()
      reads this
    {
      Files(dirs, entries) && maxAge <= TIME_MAX
    }

    ghost function Model(): Cache
      reads this
    {
      Cache(entries, maxAge)
    }

    constructor (hash: string -> nat)
      ensures Valid() && Model() == After([], 0) && this.hash == hash
    {
      this.hash := hash;
      maxAge, dirs, entries := -1, map[], map[];
    }

    function Dir(request: Request): string
    {
      Print(hash(request.text))
    }

    method SetMaxAgeTo(age: int)
      requires Valid() && age <= TIME_MAX
      modifies this`maxAge
      ensures Valid() && Model() == Apply(old(Model()), SetMaxAge(age))
    {
      maxAge := age;
    }

    method ShouldCache(request: Request, response: Response) returns (b: bool)
      ensures b <==> maxAge != 0 && request.verb == "GET" && response.code == 200 && PermitsCaching(response)
    {
      b := maxAge != 0 && request.verb == "GET" && response.code == 200 && PermitsCaching(response);
    }

    /** Creates the directory, and empties it when asked to. */
    method EnsureDirectoryExists(dir: string, empty: bool)
      modifies this`dirs
      ensures dirs == old(dirs)[dir := if empty || dir !in old(dirs) then map[] else old(dirs)[dir]]
    {
      if dir !in dirs {
        dirs := dirs[dir := map[]];
      }
      if !empty {
        return;
      }
      while dirs[dir] != map[]
        invariant dir in dirs && dirs == old(dirs)[dir := dirs[dir]]
        decreases dirs[dir].Keys
      {
        var name :| name in dirs[dir];
        dirs := dirs[dir := dirs[dir] - {name}];
      }
    }

    method EmptyCache()
      requires Valid()
      modifies this`dirs, this`entries
      ensures Valid() && Model() == Apply(old(Model()), Clear)
    {
      hide FileName;
      while dirs != map[]
        decreases dirs.Keys
      {
        var dir :| dir in dirs;
        EnsureDirectoryExists(dir, true);
        dirs := dirs - {dir};
      }
      entries := map[];
    }

    method ExpirationTime(ttl: int, now: nat) returns (time: nat)
      ensures time == now + Lifetime(ttl, maxAge)
    {
      var limited := ttl;
      if maxAge >= 0 {
        limited := if maxAge < ttl then maxAge else ttl;
      }
      time := now;
      if limited >= 0 {
        time := time + limited;
      }
    }

    /** The clock is read twice, once for each time in the file name. */
    method CacheEntry(request: Request, response: Response, created: nat, read: nat)
      requires Valid() && created <= TIME_MAX && read <= TIME_MAX
      modifies this`dirs, this`entries
      ensures Valid() && Model() == Apply(old(Model()), Store(Dir(request), response, created, read))
      ensures dirs == old(dirs)[Dir(request) :=
                map["created@" + Print(created) + "expires@" + Print(read + Lifetime(TTL(response), maxAge)) := response]]
    {
      hide FileName, Files, Dir, TTL;
      var dir := Dir(request);
      EnsureDirectoryExists(dir, true);
      var expires := ExpirationTime(TTL(response), read);
      dirs := dirs[dir := dirs[dir][FileName(created, expires) := response]];
      assert dirs == old(dirs)[dir := map[FileName(created, expires) := response]];
      StoreKeepsFiles(old(dirs), entries, dir, Entry(created, expires, response));
      entries := entries[dir := Entry(created, expires, response)];
      NameIs(created, expires);
    }

    method CachedEntryIsValid(name: string, now: nat) returns (r: Result<bool, Error>)
      ensures match CreateAndExpireTimes(name)
              case Err(e) => r == Err(e)
              case Ok(times) => r == Ok(now <= times.1 && (maxAge > 0 ==> now <= times.0 + maxAge))
    {
      var times := CreateAndExpireTimes(name);
      if times.Err? {
        return Err(times.error);
      }
      var expirationTime := times.value.1;
      if maxAge > 0 && times.value.0 + maxAge < expirationTime {
        expirationTime := times.value.0 + maxAge;
      }
      return Ok(now <= expirationTime);
    }

    /** Never throws; an expired entry goes together with its directory. */
    method ContainsCacheEntry(request: Request, now: nat) returns (r: Result<Option<Response>, Error>)
      requires Valid()
      modifies this`dirs, this`entries
      ensures Valid()
      ensures request.verb != "GET" ==> r == Ok(None) && Model() == old(Model())
      ensures request.verb == "GET" ==>
                && r == Ok(Answer(old(Model()), Dir(request), now))
                && Model() == Apply(old(Model()), Get(Dir(request), now))
    {
      hide CreateAndExpireTimes, Dir, FileName, Files;
      if maxAge == 0 || request.verb != "GET" {
        return Ok(None);
      }
      var dir := Dir(request);
      OneFile(dirs, entries, dir);
      if dir !in dirs || dirs[dir] == map[] {
        return Ok(None);
      }
      var name :| name in dirs[dir];
      NameRoundTrip(entries[dir].created, entries[dir].expires);
      var valid := CachedEntryIsValid(name, now);
      if valid.Err? {
        return Err(BadName);
      }
      if !valid.value {
        dirs := dirs[dir := dirs[dir] - {name}];
        if dirs[dir] != map[] {
          return Err(NotEmpty);
        }
        dirs := dirs - {dir};
        assert dirs == old(dirs) - {dir};
        RemoveKeepsFiles(old(dirs), entries, dir);
        entries := entries - {dir};
        return Ok(None);
      }
      return Ok(Some(dirs[dir][name]));
    }
  }

  /** Requests share a directory exactly if they have the same hash. */
  lemma DirectoriesAreHashes(cache: HTTPCache, a: Request, b: Request)
    ensures cache.Dir(a) == cache.Dir(b) <==> cache.hash(a.text) == cache.hash(b.text)
  {
    if cache.Dir(a) == cache.Dir(b) {
      PrintInjective(cache.hash(a.text), cache.hash(b.text));
    }
  }
}
