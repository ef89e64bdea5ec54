/** The signing-key cache: `deriveSigningKey` and `isStaleDateScope`
    (internal/adapter/bedrock.go). HMAC-SHA256 and the date parser are parameters. Callers
    run concurrently; the mutex makes the lookup one step and the store with its pruning
    another, and other callers may act between the two. */
module SigningKeys {
  import opened Prelude

  type Bytes = string

  /** The credentials of a provider, the HMAC, and `time.Parse` of the layout 20060102 as a
      day number. */
  datatype Signer = Signer(
    secret: Bytes, region: Bytes, hmac: (Bytes, Bytes) -> Bytes, parse: string -> Option<int>)

  /** The four-step chain of the AWS Signature Version 4 key derivation. */
  function Chain(g: Signer, date: string): Bytes {
    var kDate := g.hmac("AWS4" + g.secret, date);
    var kRegion := g.hmac(kDate, g.region);
    var kService := g.hmac(kRegion, "bedrock");
    g.hmac(kService, "aws4_request")
  }

  /** A left fold. */
  function FoldLeft(f: (Bytes, Bytes) -> Bytes, start: Bytes, xs: seq<Bytes>): Bytes
    decreases |xs|
  {
    if xs == [] then start else FoldLeft(f, f(start, xs[0]), xs[1..])
  }

  /** The derived key is the fold of the HMAC over the scope of the date, the region, the service
      and the fixed last element, from the prefixed secret. */
  lemma ChainIsAFold(g: Signer, date: string)
    ensures Chain(g, date) == FoldLeft(g.hmac, "AWS4" + g.secret, [date, g.region, "bedrock", "aws4_request"])
  {
    var k1 := g.hmac("AWS4" + g.secret, date);
    var k2 := g.hmac(k1, g.region);
    var k3 := g.hmac(k2, "bedrock");
    var k4 := g.hmac(k3, "aws4_request");
    FoldStep(g.hmac, k3, "aws4_request", []);
    FoldStep(g.hmac, k2, "bedrock", ["aws4_request"]);
    FoldStep(g.hmac, k1, g.region, ["bedrock", "aws4_request"]);
    FoldStep(g.hmac, "AWS4" + g.secret, date, [g.region, "bedrock", "aws4_request"]);
    assert FoldLeft(g.hmac, k4, []) == k4;
  }

  lemma FoldStep(f: (Bytes, Bytes) -> Bytes, start: Bytes, x: Bytes, rest: seq<Bytes>)
    ensures FoldLeft(f, start, [x] + rest) == FoldLeft(f, f(start, x), rest)
  {
    assert ([x] + rest)[0] == x && ([x] + rest)[1..] == rest;
  }

  /** Which entries a store leaves: the new one, and of the others exactly those with a well
      formed date that is not before the stored one, or any well formed one if the stored date
      is malformed; each with the key it had. */
  lemma StoreKeepsIff(g: Signer, cache: map<string, Bytes>, date: string, key: Bytes, d: string)
    ensures d in Stored(g, cache, date, key) <==>
            d == date || (d in cache && g.parse(d).Some? && (g.parse(date).None? || g.parse(d).value >= g.parse(date).value))
    ensures d in Stored(g, cache, date, key) ==> Stored(g, cache, date, key)[d] == if d == date then key else cache[d]
  {
  }

  /** `isStaleDateScope`. */
  predicate IsStale(g: Signer, cached: string, current: string) {
    match g.parse(cached)
    case None => true
    case Some(t) => match g.parse(current) case None => false case Some(cur) => t < cur
  }

  /** The cache after a store: the new entry, and the old ones that are not stale beside it. */
  function Stored(g: Signer, cache: map<string, Bytes>, date: string, key: Bytes): map<string, Bytes> {
    (map c | c in cache && !IsStale(g, c, date) :: cache[c])[date := key]
  }

  ghost predicate Correct(g: Signer, cache: map<string, Bytes>) {
    forall d :: d in cache ==> cache[d] == Chain(g, d)
  }

  /** Every entry is the one for `date` or is not stale beside it. */
  ghost predicate PrunedFor(g: Signer, cache: map<string, Bytes>, date: string) {
    date in cache && forall d :: d in cache && d != date ==> !IsStale(g, d, date)
  }

  // ---------------------------------------------------------------- the imperative form

  class SigningCache {
    const signer: Signer
    var cache: map<string, Bytes>

    constructor (g: Signer)
      ensures signer == g && cache == map[] && Correct(signer, cache)
    {
      signer, cache := g, map[];
    }

    /** The store under the mutex: insert, then visit the map in any order and drop the
        stale entries. */
    method Store(date: string, key: Bytes)
      modifies this`cache
      ensures cache == Stored(signer, old(cache), date, key)
    {
      cache := cache[date := key];
      ghost var full := cache;
      var todo := cache.Keys;
      while todo != {}
        invariant todo <= full.Keys
        invariant cache.Keys <= full.Keys && forall c :: c in cache ==> cache[c] == full[c]
        invariant forall c :: c in full ==> (c in cache <==> c in todo || c == date || !IsStale(signer, c, date))
        decreases todo
      {
        var cached :| cached in todo;
        todo := todo - {cached};
        if cached != date && IsStale(signer, cached, date) {
          cache := cache - {cached};
        }
      }
    }

    /** `deriveSigningKey` for a caller that runs alone. */
    method DeriveSigningKey(date: string) returns (key: Bytes)
      requires Correct(signer, cache)
      modifies this`cache
      ensures key == Chain(signer, date) && Correct(signer, cache) && date in cache
      ensures date in old(cache) ==> cache == old(cache)
      ensures date !in old(cache) ==> PrunedFor(signer, cache, date)
    {
      if date in cache {
        return cache[date];
      }
      var kDate := signer.hmac("AWS4" + signer.secret, date);
      var kRegion := signer.hmac(kDate, signer.region);
      var kService := signer.hmac(kRegion, "bedrock");
      key := signer.hmac(kService, "aws4_request");
      StoredFacts(signer, cache, date);
      Store(date, key);
    }
  }

  lemma StoredFacts(g: Signer, cache: map<string, Bytes>, date: string)
    requires Correct(g, cache)
    ensures Correct(g, Stored(g, cache, date, Chain(g, date))) && PrunedFor(g, Stored(g, cache, date, Chain(g, date)), date)
  {
  }

  // ---------------------------------------------------------------- concurrent callers

  datatype Pc = Start | Missed | Derived(key: Bytes) | Returned(key: Bytes)

  datatype Caller = Caller(date: string, pc: Pc)

  /** `lastStored` is history: the date of the latest store. */
  datatype State = State(cache: map<string, Bytes>, callers: seq<Caller>, lastStored: Option<string>)

  datatype Action =
    | Arrive(date: string)  // a request comes to be signed
    | Lookup(i: nat)        // the first critical section
    | Derive(i: nat)        // the chain, outside the mutex
    | Store(i: nat)         // the second critical section, and the return

  predicate Enabled(s: State, a: Action) {
    match a
    case Arrive(_) => true
    case Lookup(i) => i < |s.callers| && s.callers[i].pc.Start?
    case Derive(i) => i < |s.callers| && s.callers[i].pc.Missed?
    case Store(i) => i < |s.callers| && s.callers[i].pc.Derived?
  }

  function At(s: State, i: nat, pc: Pc): State
    requires i < |s.callers|
  {
    s.(callers := s.callers[i := s.callers[i].(pc := pc)])
  }

  function Next(g: Signer, s: State, a: Action): State
    requires Enabled(s, a)
  {
    match a
    case Arrive(d) => s.(callers := s.callers + [Caller(d, Start)])
    case Lookup(i) =>
      var d := s.callers[i].date;
      At(s, i, if d in s.cache then Returned(s.cache[d]) else Missed)
    case Derive(i) => At(s, i, Derived(Chain(g, s.callers[i].date)))
    case Store(i) =>
      var c := s.callers[i];
      At(s, i, Returned(c.pc.key)).(cache := Stored(g, s.cache, c.date, c.pc.key), lastStored := Some(c.date))
  }

  function Run(g: Signer, s: State, acts: seq<Action>): Option<State>
    decreases |acts|
  {
    if acts == [] then Some(s)
    else if Enabled(s, acts[0]) then Run(g, Next(g, s, acts[0]), acts[1..])
    else None
  }

  ghost predicate Inv(g: Signer, s: State) {
    && Correct(g, s.cache)
    && (forall i :: 0 <= i < |s.callers| ==> KeyIsRight(g, s.callers[i]))
    && match s.lastStored
       case None => s.cache == map[]
       case Some(d) => PrunedFor(g, s.cache, d)
  }

  predicate KeyIsRight(g: Signer, c: Caller) {
    (c.pc.Derived? || c.pc.Returned?) ==> c.pc.key == Chain(g, c.date)
  }

  lemma StepKeepsInv(g: Signer, s: State, a: Action)
    requires Inv(g, s) && Enabled(s, a)
    ensures Inv(g, Next(g, s, a))
  {
    if a.Store? { StoredFacts(g, s.cache, s.callers[a.i].date); }
  }

  lemma {:induction false} RunKeepsInv(g: Signer, s: State, acts: seq<Action>)
    requires Inv(g, s) && Run(g, s, acts).Some?
    ensures Inv(g, Run(g, s, acts).value)
    decreases |acts|
  {
    if acts != [] {
      StepKeepsInv(g, s, acts[0]);
      RunKeepsInv(g, Next(g, s, acts[0]), acts[1..]);
    }
  }

  /** The cache agrees with direct derivation: in every run of any number of concurrent
      callers every returned key is the chain for the requested date and every entry is
      right for its date. Beside the latest stored date, when that one is well formed, the
      cache holds no malformed and no earlier one. */
  lemma CacheAgreesWithDerivation(g: Signer, acts: seq<Action>)
    requires Run(g, State(map[], [], None), acts).Some?
    ensures var s := Run(g, State(map[], [], None), acts).value;
            && (forall c :: c in s.callers && c.pc.Returned? ==> c.pc.key == Chain(g, c.date))
            && (forall d :: d in s.cache ==> s.cache[d] == Chain(g, d))
            && (s.lastStored.Some? && g.parse(s.lastStored.value).Some? ==>
                  forall d :: d in s.cache ==>
                    g.parse(d).Some? && g.parse(d).value >= g.parse(s.lastStored.value).value)
  {
    RunKeepsInv(g, State(map[], [], None), acts);
  }

  // ---------------------------------------------------------------- how large the cache gets

  lemma {:induction false} EntriesWereRequested(g: Signer, s: State, acts: seq<Action>, d: string)
    requires Run(g, s, acts).Some?
    requires d in Run(g, s, acts).value.cache || exists c :: c in Run(g, s, acts).value.callers && c.date == d
    ensures Arrive(d) in acts || d in s.cache || exists c :: c in s.callers && c.date == d
    decreases |acts|
  {
    if acts != [] {
      var s' := Next(g, s, acts[0]);
      EntriesWereRequested(g, s', acts[1..], d);
      if Arrive(d) !in acts {
        assert acts[0] != Arrive(d);
        if d in s'.cache && d !in s.cache {
          assert acts[0].Store? && s.callers[acts[0].i].date == d;
        } else if d !in s'.cache && d !in s.cache {
          var c :| c in s'.callers && c.date == d;
          var k :| 0 <= k < |s'.callers| && s'.callers[k] == c;
          assert k < |s.callers| && s.callers[k].date == d;
        }
      }
    }
  }

  /** A set of names that parse to different days from `low` to `high` has no more members
      than there are days. */
  lemma {:induction false} DaysBound(g: Signer, names: set<string>, low: int, high: int)
    requires forall a, b :: a in names && b in names && g.parse(a) == g.parse(b) ==> a == b
    requires forall a :: a in names ==> g.parse(a).Some? && low <= g.parse(a).value <= high
    ensures |names| <= if low <= high then high - low + 1 else 0
    decreases high - low + 1
  {
    if low > high {
      if a :| a in names { assert false; }
    } else if a :| a in names && g.parse(a) == Some(high) {
      DaysBound(g, names - {a}, low, high - 1);
    } else {
      DaysBound(g, names, low, high - 1);
    }
  }

  /** The cache stays about one entry per live date: when the requested dates are well formed,
      written in one way each, and no later than `today`, the cache holds at most one entry
      for each day from the latest stored date to today. */
  lemma CacheStaysSmall(g: Signer, acts: seq<Action>, today: int)
    requires Run(g, State(map[], [], None), acts).Some?
    requires forall d :: Arrive(d) in acts ==> g.parse(d).Some? && g.parse(d).value <= today
    requires forall a, b :: Arrive(a) in acts && Arrive(b) in acts && g.parse(a) == g.parse(b) ==> a == b
    ensures var s := Run(g, State(map[], [], None), acts).value;
            s.lastStored.Some? && g.parse(s.lastStored.value).Some? ==>
              |s.cache.Keys| <= today - g.parse(s.lastStored.value).value + 1
  {
    var s0 := State(map[], [], None);
    var s := Run(g, s0, acts).value;
    RunKeepsInv(g, s0, acts);
    forall d | d in s.cache ensures Arrive(d) in acts {
      EntriesWereRequested(g, s0, acts, d);
    }
    if s.lastStored.Some? && g.parse(s.lastStored.value).Some? {
      DaysBound(g, s.cache.Keys, g.parse(s.lastStored.value).value, today);
    }
  }
}
