// internal/security/credentials.go: the cache in front of the secret store.

module Secrets {
  import opened Wrappers

  type KeyValues = map<string, string>
  type Vault = map<string, KeyValues>

  // `shadowed` tells which of the two hit paths is meant: the one as written, where the loop assigns a
  // second variable of the same name so that the outer flag stays false, or the one evidently intended.
  datatype Config = Config(shadowed: bool, initialized: bool)

  ghost predicate HasAll(kv: KeyValues, keys: seq<string>) { forall i :: 0 <= i < |keys| ==> keys[i] in kv }

  ghost function Restrict(kv: KeyValues, keys: seq<string>): KeyValues
    requires HasAll(kv, keys)
  {
    map k | k in keys :: kv[k]
  }

  // What the secret store answers: everything under the path, or exactly the keys asked for.
  ghost function Fetch(vault: Vault, path: string, keys: seq<string>): Result<KeyValues> {
    if path !in vault then Failure("path doesn't exist in secret store")
    else if keys == [] then Success(vault[path])
    else if HasAll(vault[path], keys) then Success(Restrict(vault[path], keys))
    else Failure("no value for the keys exists")
  }

  // What a provider without a cache would answer.
  ghost function Uncached(c: Config, vault: Vault, path: string, keys: seq<string>, fails: bool): Result<KeyValues> {
    if !c.initialized then Failure("can't get secret(s) 'SecretProvider' is not properly initialized")
    else if fails then Failure("secret store unavailable")
    else Fetch(vault, path, keys)
  }

  // ---- the cache as a value ----

  ghost predicate Cached(cache: Vault, path: string, keys: seq<string>) {
    path in cache && keys != [] && HasAll(cache[path], keys)
  }

  ghost predicate Hit(c: Config, cache: Vault, path: string, keys: seq<string>) {
    !c.shadowed && Cached(cache, path, keys)
  }

  function Merge(cache: Vault, path: string, secrets: KeyValues): Vault {
    cache[path := (if path in cache then cache[path] else map[]) + secrets]
  }

  datatype World = World(cache: Vault, vault: Vault)

  datatype Request = Request(path: string, keys: seq<string>, fails: bool)

  ghost function Answer(c: Config, w: World, r: Request): Result<KeyValues> {
    if Hit(c, w.cache, r.path, r.keys) then Success(Restrict(w.cache[r.path], r.keys))
    else Uncached(c, w.vault, r.path, r.keys, r.fails)
  }

  ghost function CacheAfterGet(c: Config, w: World, r: Request): Vault {
    var uncached := Uncached(c, w.vault, r.path, r.keys, r.fails);
    if !Hit(c, w.cache, r.path, r.keys) && uncached.Success? then Merge(w.cache, r.path, uncached.value) else w.cache
  }

  // Every cached value is the one in the store.
  ghost predicate CacheTrue(w: World) {
    forall p, k :: p in w.cache && k in w.cache[p] ==> Holds(w.vault, p, k, w.cache[p][k])
  }

  ghost predicate Holds(vault: Vault, p: string, k: string, v: string) {
    p in vault && k in vault[p] && vault[p][k] == v
  }

  // ---- one call ----

  lemma FetchIsTrue(vault: Vault, path: string, keys: seq<string>, k: string)
    requires Fetch(vault, path, keys).Success? && k in Fetch(vault, path, keys).value
    ensures Holds(vault, path, k, Fetch(vault, path, keys).value[k])
  {
  }

  lemma GetKeepsCacheTrue(c: Config, w: World, r: Request)
    requires CacheTrue(w)
    ensures CacheTrue(World(CacheAfterGet(c, w, r), w.vault))
  {
    var after := CacheAfterGet(c, w, r);
    forall p, k | p in after && k in after[p]
      ensures Holds(w.vault, p, k, after[p][k])
    {
      var fetched := Fetch(w.vault, r.path, r.keys);
      if after != w.cache && p == r.path && k in fetched.value { FetchIsTrue(w.vault, p, r.keys, k); }
    }
  }

  // What has been fetched is answered from the cache from then on, even when the store is away: any of the
  // fetched keys, together or alone. And what was cached stays cached.
  lemma FetchedIsCached(w: World, r: Request, keys: seq<string>)
    requires CacheTrue(w) && !r.fails && Fetch(w.vault, r.path, r.keys).Success?
    requires !Cached(w.cache, r.path, r.keys)
    requires keys != [] && HasAll(Fetch(w.vault, r.path, r.keys).value, keys)
    ensures var c := Config(false, true);
            var after := World(CacheAfterGet(c, w, r), w.vault);
            var fetched := Fetch(w.vault, r.path, r.keys).value;
            Answer(c, after, Request(r.path, keys, true)) == Success(Restrict(fetched, keys))
  {
    var after, fetched := CacheAfterGet(Config(false, true), w, r), Fetch(w.vault, r.path, r.keys).value;
    assert HasAll(after[r.path], keys);
    assert forall k :: k in keys ==> after[r.path][k] == fetched[k];
    assert Restrict(after[r.path], keys) == Restrict(fetched, keys);
  }

  lemma CachedStays(c: Config, w: World, r: Request, path: string, keys: seq<string>)
    requires Cached(w.cache, path, keys)
    ensures Cached(CacheAfterGet(c, w, r), path, keys)
    ensures path != r.path ==> path in CacheAfterGet(c, w, r) && CacheAfterGet(c, w, r)[path] == w.cache[path]
  {
  }

  // Nobody can tell that there is a cache, whatever is asked for, exactly when every cached value is true.
  lemma TransparentExactly(w: World)
    ensures var c := Config(false, true);
            CacheTrue(w) <==>
            forall r: Request :: !r.fails ==> Answer(c, w, r) == Uncached(c, w.vault, r.path, r.keys, false)
  {
    var c := Config(false, true);
    if CacheTrue(w) {
      forall r: Request | !r.fails
        ensures Answer(c, w, r) == Uncached(c, w.vault, r.path, r.keys, false)
      {
        if Hit(c, w.cache, r.path, r.keys) { HitIsFetch(w, r.path, r.keys); }
      }
    } else {
      var p, k :| p in w.cache && k in w.cache[p] && !Holds(w.vault, p, k, w.cache[p][k]);
      var r := Request(p, [k], false);
      assert Hit(c, w.cache, p, [k]);
      assert k in [k] && k in Restrict(w.cache[p], [k]);
      assert Answer(c, w, r).value[k] == w.cache[p][k];
      if Uncached(c, w.vault, p, [k], false).Success? { FetchIsTrue(w.vault, p, [k], k); }
      assert Answer(c, w, r) != Uncached(c, w.vault, r.path, r.keys, false);
    }
  }

  lemma HitIsFetch(w: World, path: string, keys: seq<string>)
    requires CacheTrue(w) && Cached(w.cache, path, keys)
    ensures Fetch(w.vault, path, keys) == Success(Restrict(w.cache[path], keys))
  {
    forall k | k in keys ensures k in w.cache[path] && Holds(w.vault, path, k, w.cache[path][k]) {}
    assert keys[0] in keys;
    assert HasAll(w.vault[path], keys);
    assert Restrict(w.vault[path], keys) == Restrict(w.cache[path], keys);
  }

  // ---- runs ----

  // A store request may leave anything behind in the store, whether it succeeds or not.
  datatype Op = Get(request: Request) | Put(path: string, secrets: KeyValues, ok: bool, after: Vault)

  ghost function Serve(c: Config, w: World, op: Op): World {
    match op
    case Get(r) => World(CacheAfterGet(c, w, r), w.vault)
    case Put(_, _, ok, after) => if !c.initialized then w else World(if ok then map[] else w.cache, after)
  }

  // A store request that fails does not clear the cache.
  ghost predicate Spares(c: Config, w: World, op: Op) {
    op.Put? && !op.ok && c.initialized ==>
      forall p, k :: p in w.cache && k in w.cache[p] && Holds(w.vault, p, k, w.cache[p][k]) ==>
                       Holds(op.after, p, k, w.cache[p][k])
  }

  ghost predicate SparesThroughout(c: Config, w: World, ops: seq<Op>)
    decreases |ops|
  {
    ops == [] || (Spares(c, w, ops[0]) && SparesThroughout(c, Serve(c, w, ops[0]), ops[1..]))
  }

  ghost predicate TrueThroughout(c: Config, w: World, ops: seq<Op>)
    decreases |ops|
  {
    CacheTrue(w) && (ops == [] || TrueThroughout(c, Serve(c, w, ops[0]), ops[1..]))
  }

  // Every answer in the run is the uncached one, except that a hit does not notice that the store is away.
  ghost predicate AnswersThroughout(c: Config, w: World, ops: seq<Op>)
    decreases |ops|
  {
    ops == []
    || ((ops[0].Get? ==> AnswersAsUncached(c, w, ops[0].request))
        && AnswersThroughout(c, Serve(c, w, ops[0]), ops[1..]))
  }

  ghost predicate AnswersAsUncached(c: Config, w: World, r: Request) {
    Answer(c, w, r) == Uncached(c, w.vault, r.path, r.keys, r.fails && !Hit(c, w.cache, r.path, r.keys))
  }

  // An uninitialized provider never caches anything.
  ghost predicate Usable(c: Config, w: World) { c.initialized || w.cache == map[] }

  lemma StoreExactly(c: Config, w: World, op: Op)
    requires CacheTrue(w) && op.Put?
    ensures CacheTrue(Serve(c, w, op)) <==> Spares(c, w, op)
  {
  }

  // The cache is true in every state of the run exactly when no failed store request changes a value that is
  // cached at that moment.
  lemma {:induction false} TrueExactly(c: Config, w: World, ops: seq<Op>)
    requires CacheTrue(w)
    ensures TrueThroughout(c, w, ops) <==> SparesThroughout(c, w, ops)
    decreases |ops|
  {
    if ops != [] {
      var next := Serve(c, w, ops[0]);
      if ops[0].Put? { StoreExactly(c, w, ops[0]); } else { GetKeepsCacheTrue(c, w, ops[0].request); }
      if CacheTrue(next) { TrueExactly(c, next, ops[1..]); }
    }
  }

  // With the intended hit path, the cache is then invisible over the whole run.
  lemma {:induction false} LiveCacheTransparent(c: Config, w: World, ops: seq<Op>)
    requires CacheTrue(w) && Usable(c, w) && SparesThroughout(c, w, ops)
    ensures AnswersThroughout(c, w, ops)
    decreases |ops|
  {
    if ops != [] {
      if ops[0].Put? {
        StoreExactly(c, w, ops[0]);
      } else {
        var r := ops[0].request;
        GetKeepsCacheTrue(c, w, r);
        if Hit(c, w.cache, r.path, r.keys) { HitIsFetch(w, r.path, r.keys); }
      }
      LiveCacheTransparent(c, Serve(c, w, ops[0]), ops[1..]);
    }
  }

  // ---- secrets of the insecure mode ----

  datatype InsecureSecretsInfo = InsecureSecretsInfo(path: string, secrets: KeyValues)

  // Entries of the configuration; the same path may occur more than once.
  ghost predicate Listed(infos: seq<InsecureSecretsInfo>, path: string) {
    exists i :: 0 <= i < |infos| && infos[i].path == path
  }

  // Every entry for the path has all the keys.
  ghost predicate AllHave(infos: seq<InsecureSecretsInfo>, path: string, keys: seq<string>) {
    forall i :: 0 <= i < |infos| && infos[i].path == path ==> HasAll(infos[i].secrets, keys)
  }

  ghost predicate OneEntry(infos: seq<InsecureSecretsInfo>, path: string) {
    forall i, j :: 0 <= i < j < |infos| ==> !(infos[i].path == path && infos[j].path == path)
  }

  // Of several entries for a path, what the first or the last one has.
  ghost predicate FromEntry(infos: seq<InsecureSecretsInfo>, path: string, keys: seq<string>, found: KeyValues) {
    exists i :: 0 <= i < |infos| && infos[i].path == path && FromInfo(infos[i], keys, found)
  }

  ghost predicate FromInfo(info: InsecureSecretsInfo, keys: seq<string>, found: KeyValues) {
    if keys == [] then found == info.secrets else HasAll(info.secrets, keys) && found == Restrict(info.secrets, keys)
  }

  // The loop over the keys for one entry: `found` keeps what earlier entries gave under the other keys.
  method CollectKeys(secrets: KeyValues, keys: seq<string>, found: KeyValues)
    returns (r: KeyValues, missing: seq<string>)
    ensures missing == [] <==> HasAll(secrets, keys)
    ensures missing == [] ==> r == found + Restrict(secrets, keys)
  {
    r, missing := found, [];
    for k := 0 to |keys|
      invariant missing == [] <==> HasAll(secrets, keys[..k])
      invariant missing == [] ==> r == found + Restrict(secrets, keys[..k])
    {
      assert keys[..k + 1] == keys[..k] + [keys[k]];
      if keys[k] !in secrets {
        missing := missing + [keys[k]];
      } else {
        r := r[keys[k] := secrets[keys[k]]];
      }
    }
    assert keys[..|keys|] == keys;
  }

  lemma OneEntryMore(infos: seq<InsecureSecretsInfo>, i: nat, path: string, keys: seq<string>)
    requires i < |infos|
    ensures Listed(infos[..i + 1], path) <==> Listed(infos[..i], path) || infos[i].path == path
    ensures AllHave(infos[..i + 1], path, keys) <==>
            AllHave(infos[..i], path, keys) && (infos[i].path == path ==> HasAll(infos[i].secrets, keys))
    ensures forall found :: FromEntry(infos[..i], path, keys, found) ==> FromEntry(infos[..i + 1], path, keys, found)
  {
    var shorter, longer := infos[..i], infos[..i + 1];
    assert longer == shorter + [infos[i]];
    if j :| 0 <= j < |shorter| && shorter[j].path == path { assert longer[j].path == path; }
    if infos[i].path == path { assert longer[i].path == path; }
    forall found | FromEntry(shorter, path, keys, found) ensures FromEntry(longer, path, keys, found) {
      var j :| 0 <= j < |shorter| && shorter[j].path == path && FromInfo(shorter[j], keys, found);
      assert longer[j].path == path && FromInfo(longer[j], keys, found);
    }
  }

  // The keys of an earlier entry are all overwritten.
  lemma LaterWins(infos: seq<InsecureSecretsInfo>, i: nat, path: string, keys: seq<string>, before: KeyValues)
    requires i < |infos| && infos[i].path == path && keys != [] && HasAll(infos[i].secrets, keys)
    requires before == map[] || FromEntry(infos[..i], path, keys, before)
    ensures FromEntry(infos[..i + 1], path, keys, before + Restrict(infos[i].secrets, keys))
  {
    var given := Restrict(infos[i].secrets, keys);
    assert before + given == given;
    assert infos[..i + 1][i].path == path && FromInfo(infos[..i + 1][i], keys, given);
  }

  // The configuration is a map; `infos` are its entries in the order the loop visits them. It succeeds exactly
  // when the path is listed and, if keys are asked for, every entry for the path has all of them; then it
  // answers from an entry for the path.
  method GetInsecureSecrets(infos: seq<InsecureSecretsInfo>, path: string, keys: seq<string>)
    returns (r: Result<KeyValues>)
    ensures r.Success? <==> Listed(infos, path) && (keys != [] ==> AllHave(infos, path, keys))
    ensures r.Success? ==> FromEntry(infos, path, keys, r.value)
  {
    var secrets: KeyValues, pathExists, missingKeys := map[], false, [];
    for i := 0 to |infos|
      invariant pathExists <==> Listed(infos[..i], path)
      invariant pathExists ==> keys != []
      invariant missingKeys == [] <==> AllHave(infos[..i], path, keys)
      invariant pathExists && missingKeys == [] ==> FromEntry(infos[..i], path, keys, secrets)
      invariant !pathExists ==> secrets == map[]
    {
      OneEntryMore(infos, i, path, keys);
      if infos[i].path == path {
        if |keys| == 0 {
          assert FromInfo(infos[i], keys, infos[i].secrets);
          return Success(infos[i].secrets);
        }
        pathExists := true;
        ghost var before := secrets;
        var missing;
        secrets, missing := CollectKeys(infos[i].secrets, keys, secrets);
        if missingKeys == [] && missing == [] { LaterWins(infos, i, path, keys, before); }
        missingKeys := missingKeys + missing;
      }
    }
    assert infos[..|infos|] == infos;
    if |missingKeys| > 0 { return Failure("No value for the keys exists"); }
    if !pathExists { return Failure("path doesn't exist in secret store"); }
    return Success(secrets);
  }

  // With one entry for the path, it answers what a secret store with these entries would.
  lemma InsecureIsFetch(infos: seq<InsecureSecretsInfo>, vault: Vault, path: string, keys: seq<string>,
                        found: KeyValues)
    requires OneEntry(infos, path)
    requires forall i :: 0 <= i < |infos| && infos[i].path == path ==> path in vault && vault[path] == infos[i].secrets
    requires path in vault ==> Listed(infos, path)
    ensures Fetch(vault, path, keys).Success? <==> Listed(infos, path) && (keys != [] ==> AllHave(infos, path, keys))
    ensures FromEntry(infos, path, keys, found) <==> Fetch(vault, path, keys) == Success(found)
  {
    if Listed(infos, path) {
      var i :| 0 <= i < |infos| && infos[i].path == path;
      assert forall j :: 0 <= j < |infos| && infos[j].path == path ==> j == i;
      assert FromEntry(infos, path, keys, found) <==> FromInfo(infos[i], keys, found);
    }
  }

  // ---- the provider ----

  // A Go map, which its holders share.
  class StringMap {
    var kv: KeyValues

    constructor (kv: KeyValues)
      ensures this.kv == kv
    {
      this.kv := kv;
    }
  }

  // The map holds the value, or the errors are the same.
  ghost predicate Says(r: Result<StringMap>, value: Result<KeyValues>)
    reads if r.Success? then {r.value} else {}
  {
    match r
    case Success(m) => value == Success(m.kv)
    case Failure(e) => value == Failure(e)
  }

  lemma OneAssigned(start: KeyValues, given: KeyValues, todo: set<string>, key: string)
    requires key in todo && todo <= given.Keys
    ensures (start + (given - todo))[key := given[key]] == start + (given - (todo - {key}))
  {
  }

  lemma NoneAssigned(start: KeyValues, given: KeyValues)
    ensures start + (given - given.Keys) == start
    ensures given - {} == given
  {
  }

  // for key, value := range secrets { entry[key] = value }
  method AssignAll(entry: StringMap, secrets: StringMap)
    modifies entry
    ensures entry.kv == old(entry.kv) + old(secrets.kv) && secrets.kv == old(secrets.kv)
  {
    ghost var start, given := entry.kv, secrets.kv;
    var todo := secrets.kv.Keys;
    NoneAssigned(start, given);
    while todo != {}
      invariant todo <= given.Keys
      invariant entry.kv == start + (given - todo)
      invariant entry != secrets ==> secrets.kv == given
      invariant entry == secrets ==> start == given
      decreases |todo|
    {
      var key :| key in todo;
      assert key in secrets.kv && secrets.kv[key] == given[key];
      OneAssigned(start, given, todo, key);
      entry.kv := entry.kv[key := secrets.kv[key]];
      todo := todo - {key};
    }
    if entry == secrets { assert given + given == given; }
  }

  // A fetched map is entered under a new path only; a known path keeps the map it has.
  function Entered(cache: map<string, StringMap>, path: string, fetched: StringMap): map<string, StringMap> {
    if path in cache then cache else cache[path := fetched]
  }

  // `secure` is the mode; the configuration's entries for the other mode are an argument.
  class SecretProvider {
    const config: Config
    const secure: bool
    var secretsCache: map<string, StringMap>

    // No map is under two paths.
    ghost predicate Valid()
      reads this
    {
      forall p, q :: p in secretsCache && q in secretsCache && p != q ==> secretsCache[p] != secretsCache[q]
    }

    ghost function View(): Vault
      reads this, secretsCache.Values
    {
      map p | p in secretsCache :: secretsCache[p].kv
    }

    constructor (c: Config, secure: bool)
      ensures config == c && this.secure == secure && Valid() && secretsCache == map[]
      ensures View() == map[] && forall vault :: CacheTrue(World(View(), vault))
    {
      config, this.secure, secretsCache := c, secure, map[];
    }

    // The flag that is tested after the loop is not the one the loop assigns.
    method GetSecretsCacheAsWritten(path: string, keys: seq<string>) returns (r: Option<StringMap>)
      ensures r == None
    {
      var secrets := new StringMap(map[]);
      var allKeysExistInCache := false;
      if path in secretsCache {
        for i := 0 to |keys| {
          var allKeysExistInCache := keys[i] in secretsCache[path].kv;
          if !allKeysExistInCache { return None; }
          secrets.kv := secrets.kv[keys[i] := secretsCache[path].kv[keys[i]]];
        }
        if allKeysExistInCache { return Some(secrets); }
      }
      return None;
    }

    method GetSecretsCacheAsIntended(path: string, keys: seq<string>) returns (r: Option<StringMap>)
      ensures r.Some? <==> Cached(View(), path, keys)
      ensures r.Some? ==> fresh(r.value) && r.value.kv == Restrict(View()[path], keys)
    {
      var secrets := new StringMap(map[]);
      var allKeysExistInCache := false;
      if path in secretsCache {
        for i := 0 to |keys|
          invariant allKeysExistInCache <==> i > 0
          invariant HasAll(secretsCache[path].kv, keys[..i])
          invariant secrets.kv == Restrict(secretsCache[path].kv, keys[..i])
        {
          allKeysExistInCache := keys[i] in secretsCache[path].kv;
          if !allKeysExistInCache { return None; }
          assert keys[..i + 1] == keys[..i] + [keys[i]];
          secrets.kv := secrets.kv[keys[i] := secretsCache[path].kv[keys[i]]];
        }
        assert keys[..|keys|] == keys;
        if allKeysExistInCache { return Some(secrets); }
      }
      return None;
    }

    // The fetched map itself goes into the cache under a new path; under a known path its pairs are added to
    // the map already there, which whoever asked first still holds.
    method UpdateSecretsCache(path: string, secrets: StringMap)
      requires Valid() && secrets !in secretsCache.Values
      modifies this, secretsCache.Values, secrets
      ensures Valid() && secrets.kv == old(secrets.kv)
      ensures secretsCache == Entered(old(secretsCache), path, secrets)
      ensures View() == Merge(old(View()), path, secrets.kv)
    {
      ghost var view := View();
      if path !in secretsCache { secretsCache := secretsCache[path := secrets]; }
      AssignAll(secretsCache[path], secrets);
      ghost var merged := Merge(view, path, secrets.kv);
      forall p | p in secretsCache ensures p in merged && secretsCache[p].kv == merged[p] {
        if p == path && path !in view { assert secrets.kv + secrets.kv == map[] + secrets.kv; }
      }
      assert View() == merged;
    }

    // `answer` is what the secret store says to this request, in a map of its own. The insecure mode leaves
    // the cache alone.
    method GetSecrets(infos: seq<InsecureSecretsInfo>, ghost vault: Vault, path: string, keys: seq<string>,
                      ghost fails: bool, answer: Result<StringMap>)
      returns (r: Result<StringMap>)
      requires Valid() && (answer.Success? ==> answer.value !in secretsCache.Values)
      requires secure && config.initialized ==> Says(answer, Uncached(config, vault, path, keys, fails))
      modifies this, secretsCache.Values, if answer.Success? then {answer.value} else {}
      ensures Valid()
      ensures !secure ==>
                && secretsCache == old(secretsCache) && View() == old(View())
                && (r.Success? <==> Listed(infos, path) && (keys != [] ==> AllHave(infos, path, keys)))
                && (r.Success? ==> FromEntry(infos, path, keys, r.value.kv))
      ensures secure ==> Served(old(View()), old(secretsCache), vault, Request(path, keys, fails), answer, r)
      ensures secure && !config.initialized && !Hit(config, old(View()), path, keys) ==> r.Failure?
    {
      if !secure {
        var found := GetInsecureSecrets(infos, path, keys);
        if found.Failure? { return Failure(found.error); }
        var secrets := new StringMap(found.value);
        return Success(secrets);
      }
      r := GetCachedSecrets(vault, path, keys, fails, answer);
    }

    // Answer and new cache are those of the request machine; a fetched map is returned and entered as it is.
    ghost predicate Served(view: Vault, cache: map<string, StringMap>, vault: Vault, request: Request,
                           answer: Result<StringMap>, r: Result<StringMap>)
      reads this, secretsCache.Values, if r.Success? then {r.value} else {}
    {
      && Says(r, Answer(config, World(view, vault), request))
      && View() == CacheAfterGet(config, World(view, vault), request)
      && (r.Success? && !Hit(config, view, request.path, request.keys) ==>
            r == answer && secretsCache == Entered(cache, request.path, r.value))
    }

    method LookUp(path: string, keys: seq<string>) returns (r: Option<StringMap>)
      ensures r.Some? <==> Hit(config, View(), path, keys)
      ensures r.Some? ==> fresh(r.value) && r.value.kv == Restrict(View()[path], keys)
    {
      if config.shadowed {
        r := GetSecretsCacheAsWritten(path, keys);
      } else {
        r := GetSecretsCacheAsIntended(path, keys);
      }
    }

    method GetCachedSecrets(ghost vault: Vault, path: string, keys: seq<string>, ghost fails: bool,
                            answer: Result<StringMap>)
      returns (r: Result<StringMap>)
      requires Valid() && (answer.Success? ==> answer.value !in secretsCache.Values)
      requires config.initialized ==> Says(answer, Uncached(config, vault, path, keys, fails))
      modifies this, secretsCache.Values, if answer.Success? then {answer.value} else {}
      ensures Valid() && Served(old(View()), old(secretsCache), vault, Request(path, keys, fails), answer, r)
      ensures !config.initialized && !Hit(config, old(View()), path, keys) ==> r.Failure?
    {
      var cached := LookUp(path, keys);
      if cached.Some? { return Success(cached.value); }
      if !config.initialized {
        return Failure("can't get secret(s) 'SecretProvider' is not properly initialized");
      }
      if answer.Failure? { return Failure(answer.error); }
      UpdateSecretsCache(path, answer.value);
      return answer;
    }

    method StoreSecrets(path: string, secrets: KeyValues, ok: bool, ghost before: Vault, ghost after: Vault)
      returns (stored: bool)
      requires Valid()
      modifies this
      ensures Valid()
      ensures stored <==> secure && config.initialized && ok
      ensures !secure ==> secretsCache == old(secretsCache)
      ensures secure ==>
                World(View(), if config.initialized then after else before)
                == Serve(config, World(old(View()), before), Put(path, secrets, ok, after))
    {
      if !secure { return false; }
      if !config.initialized { return false; }
      if !ok { return false; }
      secretsCache := map[];
      return true;
    }
  }
}
