/** The cache-fronted request handlers: each reads its own key from the
    shared cache, answers from a live entry, and otherwise computes the
    answer, writes it back with its own lifetime and returns it.

    The producers (the expected satellite document, the conformance check
    over a repository list) and the text encoding of a report belong to a
    library outside this model; they are parameters. The report type is the
    type parameter `Report`. The out-parameter `computed` tells whether the
    producer was consulted.

    A handler reads the clock twice: once when it checks the cached entry
    (`now`) and again when it stamps the entry it writes on a miss
    (`writeTime`), which is after the producer has returned. The two
    readings are independent: a wall clock may also step back between them. */
module Handlers {
  import opened Wrappers
  import opened Cache
  import Repos

  const CONDUCT_KEY: string := "conduct"
  const CONDUCT_TTL: nat := 5
  const CONFORMANCE_KEY: string := "conformance"
  const CONFORMANCE_TTL: nat := 3600

  /** Why a handler can fail: a cached report whose text does not decode. */
  datatype HandlerError = UndecodableEntry(text: string)

  /** The expected satellite document, cached under "conduct" for 5 seconds. */
  method Conduct(c: Cacheit, now: nat, writeTime: nat, makeExpectedSatellite: () -> string)
    returns (r: string, computed: bool)
    modifies c
    ensures var cached := Lookup(old(c.vals), CONDUCT_KEY, now);
            if cached.Some? then
              r == cached.value && !computed && c.vals == old(c.vals)
            else
              r == makeExpectedSatellite() && computed
              && c.vals == Store(old(c.vals), CONDUCT_KEY, r, CONDUCT_TTL, writeTime)
    ensures SameEntry(c.vals, old(c.vals), CONFORMANCE_KEY)
  {
    var cached := c.Get(CONDUCT_KEY, now);
    if cached.Some? {
      return cached.value, false;
    }
    r := makeExpectedSatellite();
    c.Set(CONDUCT_KEY, r, CONDUCT_TTL, writeTime);
    computed := true;
  }

  /** The conformance report over every tracked organization's repositories,
      cached as encoded text under "conformance" for 3600 seconds. A cached
      text that does not decode is a failure of the request. */
  method GetConformance<Report>(c: Cacheit, now: nat, writeTime: nat,
                                repositoriesOf: string -> seq<string>,
                                checkRepositoryConformance: seq<string> -> Report,
                                encode: Report -> string,
                                decode: string -> Option<Report>)
    returns (r: Result<Report, HandlerError>, computed: bool)
    modifies c
    ensures var cached := Lookup(old(c.vals), CONFORMANCE_KEY, now);
            if cached.Some? then
              !computed && c.vals == old(c.vals)
              && r == match decode(cached.value)
                      case Some(report) => Success(report)
                      case None => Failure(UndecodableEntry(cached.value))
            else
              var report := checkRepositoryConformance(Repos.Flatten(Repos.ORGANIZATIONS, repositoriesOf));
              r == Success(report) && computed
              && c.vals == Store(old(c.vals), CONFORMANCE_KEY, encode(report), CONFORMANCE_TTL, writeTime)
    ensures SameEntry(c.vals, old(c.vals), CONDUCT_KEY)
  {
    var cached := c.Get(CONFORMANCE_KEY, now);
    if cached.Some? {
      var decoded := decode(cached.value);
      if decoded.Some? {
        return Success(decoded.value), false;
      }
      return Failure(UndecodableEntry(cached.value)), false;
    }
    var repos := Repos.GetAllRepos(repositoriesOf);
    var report := checkRepositoryConformance(repos);
    c.Set(CONFORMANCE_KEY, encode(report), CONFORMANCE_TTL, writeTime);
    r, computed := Success(report), true;
  }

  /** Two "conduct" requests, the first read at `t1` and written at `w1`,
      the second read at `t2` and written at `w2`: when the first one
      computes the document, a second one read no later than 5 seconds after
      that write answers the same text from the cache without computing again. */
  method ConductTwice(c: Cacheit, t1: nat, w1: nat, t2: nat, w2: nat, makeExpectedSatellite: () -> string)
    returns (r1: string, r2: string, computed1: bool, computed2: bool)
    requires t2 <= w1 + CONDUCT_TTL
    modifies c
    ensures computed1 ==> r2 == r1 && !computed2
    ensures SameEntry(c.vals, old(c.vals), CONFORMANCE_KEY)
  {
    r1, computed1 := Conduct(c, t1, w1, makeExpectedSatellite);
    r2, computed2 := Conduct(c, t2, w2, makeExpectedSatellite);
  }

  /** A report computed on a miss and written at `w1` is answered again,
      decoded, by a request read no later than 3600 seconds after that write,
      provided that decoding the encoded report gives the report back (an assumption about the encoding, which
      is outside this model). */
  method ConformanceTwice<Report>(c: Cacheit, t1: nat, w1: nat, t2: nat, w2: nat,
                                  repositoriesOf: string -> seq<string>,
                                  checkRepositoryConformance: seq<string> -> Report,
                                  encode: Report -> string,
                                  decode: string -> Option<Report>)
    returns (r1: Result<Report, HandlerError>, r2: Result<Report, HandlerError>,
             computed1: bool, computed2: bool)
    requires t2 <= w1 + CONFORMANCE_TTL
    requires var report := checkRepositoryConformance(Repos.Flatten(Repos.ORGANIZATIONS, repositoriesOf));
             decode(encode(report)) == Some(report)
    modifies c
    ensures computed1 ==> r1.Success? && r2 == r1 && !computed2
    ensures SameEntry(c.vals, old(c.vals), CONDUCT_KEY)
  {
    ghost var before := c.vals;
    r1, computed1 := GetConformance(c, t1, w1, repositoriesOf, checkRepositoryConformance, encode, decode);
    if computed1 {
      StoreThenLookup(before, CONFORMANCE_KEY, encode(r1.value), CONFORMANCE_TTL, w1, t2);
    }
    r2, computed2 := GetConformance(c, t2, w2, repositoriesOf, checkRepositoryConformance, encode, decode);
  }

  /** The two handlers use distinct keys, so neither can disturb the other's entry. */
  lemma HandlersKeepToTheirKeys(vals: map<string, CacheItem>, val: string, now: nat, t: nat)
    ensures Lookup(Store(vals, CONDUCT_KEY, val, CONDUCT_TTL, now), CONFORMANCE_KEY, t)
         == Lookup(vals, CONFORMANCE_KEY, t)
    ensures Lookup(Store(vals, CONFORMANCE_KEY, val, CONFORMANCE_TTL, now), CONDUCT_KEY, t)
         == Lookup(vals, CONDUCT_KEY, t)
  {
    StoreLeavesOtherKeys(vals, CONDUCT_KEY, val, CONDUCT_TTL, now, CONFORMANCE_KEY, t);
    StoreLeavesOtherKeys(vals, CONFORMANCE_KEY, val, CONFORMANCE_TTL, now, CONDUCT_KEY, t);
  }
}
