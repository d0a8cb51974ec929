/**
 The client's authentication cache.  Comparing a password with a stored bcrypt
 hash, and hashing it with a salt, are functions of the environment.
 */
module AuthCache {
  import opened Options

  datatype User = User(name: string, hash: string)

  /** A cached success: the stored hash it belongs to, and the salted hash of the password. */
  datatype Entry = Entry(bhash: string, salt: seq<int>, hashed: seq<int>)

  datatype Result = Granted(user: User) | ErrUserNotFound | ErrAuthenticate | ErrNoSalt

  /** The two hash functions. */
  datatype Hashes = Hashes(accepts: (string, string) -> bool, salted: (seq<int>, string) -> seq<int>)

  datatype State = State(users: seq<User>, cache: map<string, Entry>)

  /** The first user of that name. */
  function Find(users: seq<User>, name: string): (r: Option<User>)
    ensures r.Some? ==> r.value in users && r.value.name == name
    ensures r.None? ==> forall u :: u in users ==> u.name != name
  {
    if users == [] then None else if users[0].name == name then Some(users[0]) else Find(users[1..], name)
  }

  /** The check without a cache. */
  function Uncached(h: Hashes, users: seq<User>, name: string, password: string): Result {
    match Find(users, name)
    case None => ErrUserNotFound
    case Some(u) => if h.accepts(u.hash, password) then Granted(u) else ErrAuthenticate
  }

  predicate CacheHit(h: Hashes, s: State, name: string, password: string) {
    name in s.cache && h.salted(s.cache[name].salt, password) == s.cache[name].hashed
  }

  /** The check with a cache; salt is what the random source yields, None when it fails. */
  function Cached(h: Hashes, s: State, name: string, password: string, salt: Option<seq<int>>): (State, Result) {
    match Find(s.users, name)
    case None => (s, ErrUserNotFound)
    case Some(u) =>
      if CacheHit(h, s, name, password) then (s, Granted(u))
      else if !h.accepts(u.hash, password) then (s, ErrAuthenticate)
      else if salt.None? then (s, ErrNoSalt)
      else (s.(cache := s.cache[name := Entry(u.hash, salt.value, h.salted(salt.value, password))]), Granted(u))
  }

  /** A new snapshot arrived: entries of users that are gone or have another hash are dropped. */
  function Refresh(s: State, users: seq<User>): State {
    State(users, map name | name in s.cache && User(name, s.cache[name].bhash) in users :: s.cache[name])
  }

  // ---------------------------------------------------------------- the client object

  class Client {
    const h: Hashes
    var users: seq<User>
    var authCache: map<string, Entry>

    function Value(): State
      reads this
    {
      State(users, authCache)
    }

    constructor (h: Hashes)
      ensures Value() == State([], map[]) && this.h == h
    {
      this.h := h;
      users, authCache := [], map[];
    }

    method FindUser(name: string) returns (r: Option<User>)
      ensures r == Find(users, name)
    {
      for i := 0 to |users|
        invariant Find(users, name) == Find(users[i..], name)
      {
        assert users[i..][1..] == users[i + 1..];
        if users[i].name == name {
          return Some(users[i]);
        }
      }
      return None;
    }

    method Authenticate(name: string, password: string, salt: Option<seq<int>>) returns (r: Result)
      modifies this
      ensures (Value(), r) == Cached(h, old(Value()), name, password, salt) && users == old(users)
      ensures r.ErrUserNotFound? <==> forall u :: u in users ==> u.name != name
      ensures r.Granted? ==>
                && r.user in users && r.user.name == name
                && (CacheHit(h, old(Value()), name, password) || h.accepts(r.user.hash, password))
      ensures r.ErrAuthenticate? || r.ErrNoSalt? ==>
                && !CacheHit(h, old(Value()), name, password)
                && exists u :: u in users && u.name == name && h.accepts(u.hash, password) == r.ErrNoSalt?
      ensures r.ErrNoSalt? ==> salt.None?
      ensures !r.Granted? ==> authCache == old(authCache)
    {
      var u := FindUser(name);
      if u.None? {
        return ErrUserNotFound;
      }
      if name in authCache {
        var au := authCache[name];
        if h.salted(au.salt, password) == au.hashed {
          return Granted(u.value);
        }
      }
      if !h.accepts(u.value.hash, password) {
        return ErrAuthenticate;
      }
      if salt.None? {
        return ErrNoSalt;
      }
      authCache := authCache[name := Entry(u.value.hash, salt.value, h.salted(salt.value, password))];
      return Granted(u.value);
    }

    /** Keeps the entries of users that are still there with the same hash. */
    method UpdateAuthCache()
      modifies this`authCache
      ensures Value() == Refresh(old(Value()), users)
    {
      var newCache: map<string, Entry> := map[];
      for i := 0 to |users|
        invariant forall name :: name in newCache <==>
                    name in authCache && User(name, authCache[name].bhash) in users[..i]
        invariant forall name :: name in newCache ==> newCache[name] == authCache[name]
      {
        var u := users[i];
        if u.name in authCache && authCache[u.name].bhash == u.hash {
          newCache := newCache[u.name := authCache[u.name]];
        }
        assert users[..i + 1] == users[..i] + [u];
      }
      assert users[..|users|] == users;
      authCache := newCache;
    }

    method Install(snapshot: seq<User>)
      modifies this
      ensures Value() == Refresh(old(Value()), snapshot)
    {
      users := snapshot;
      UpdateAuthCache();
    }
  }

  // ---------------------------------------------------------------- the cache is transparent

  ghost predicate UniqueNames(users: seq<User>) {
    forall i, j :: 0 <= i < j < |users| ==> users[i].name != users[j].name
  }

  /** The entry was made when this password was accepted for the stored hash. */
  ghost predicate MadeFrom(h: Hashes, e: Entry, password: string) {
    h.accepts(e.bhash, password) && e.hashed == h.salted(e.salt, password)
  }

  /** Every entry carries its user's current hash and comes from a password that this hash accepts. */
  ghost predicate Inv(h: Hashes, s: State) {
    && UniqueNames(s.users)
    && forall name :: name in s.cache ==>
         && User(name, s.cache[name].bhash) in s.users
         && exists password :: MadeFrom(h, s.cache[name], password)
  }

  datatype Op = Login(name: string, password: string, salt: Option<seq<int>>) | NewSnapshot(users: seq<User>)

  function Step(h: Hashes, s: State, op: Op): State {
    match op
    case Login(name, password, salt) => Cached(h, s, name, password, salt).0
    case NewSnapshot(users) => Refresh(s, users)
  }

  lemma FindUnique(users: seq<User>, u: User)
    requires UniqueNames(users) && u in users
    ensures Find(users, u.name) == Some(u)
  {
    var v := Find(users, u.name).value;
    var i :| 0 <= i < |users| && users[i] == u;
    var j :| 0 <= j < |users| && users[j] == v;
  }

  lemma StepKeepsInv(h: Hashes, s: State, op: Op)
    requires Inv(h, s) && (op.NewSnapshot? ==> UniqueNames(op.users))
    ensures Inv(h, Step(h, s, op))
  {
    match op
    case Login(name, password, salt) =>
      var s' := Step(h, s, op);
      if s' != s {
        var u := Find(s.users, name).value;
        assert MadeFrom(h, s'.cache[name], password);
        assert u == User(name, u.hash);
      }
    case NewSnapshot(users) =>
  }

  function Run(h: Hashes, s: State, ops: seq<Op>): State
    decreases |ops|
  {
    if ops == [] then s else Run(h, Step(h, s, ops[0]), ops[1..])
  }

  lemma {:induction false} RunKeepsInv(h: Hashes, s: State, ops: seq<Op>)
    requires Inv(h, s)
    requires forall i :: 0 <= i < |ops| && ops[i].NewSnapshot? ==> UniqueNames(ops[i].users)
    ensures Inv(h, Run(h, s, ops))
    decreases |ops|
  {
    if ops == [] {
    } else {
      StepKeepsInv(h, s, ops[0]);
      RunKeepsInv(h, Step(h, s, ops[0]), ops[1..]);
    }
  }

  /**
   Another password was accepted before, and the salted hash does not tell it
   from this one, which the stored hash refuses.
   */
  ghost predicate Collides(h: Hashes, s: State, name: string, password: string) {
    && CacheHit(h, s, name, password)
    && !h.accepts(s.cache[name].bhash, password)
    && exists other :: other != password && MadeFrom(h, s.cache[name], other)
  }

  /**
   In every state of a run, the cached check differs from the uncached one in
   exactly two cases: the password collides with one that was accepted before, or
   a password that the stored hash accepts is not cached and no salt can be had.
   */
  lemma CachedAgreesIff(h: Hashes, s: State, name: string, password: string, salt: Option<seq<int>>)
    requires Inv(h, s)
    ensures Cached(h, s, name, password, salt).1 == Uncached(h, s.users, name, password) <==>
            && !Collides(h, s, name, password)
            && !(salt.None? && !CacheHit(h, s, name, password) && Uncached(h, s.users, name, password).Granted?)
  {
    if CacheHit(h, s, name, password) {
      FindUnique(s.users, User(name, s.cache[name].bhash));
      var other :| MadeFrom(h, s.cache[name], other);
    }
  }

  /**
   Over every sequence of logins and snapshots from an empty cache, a login has
   the outcome of the check without a cache.
   */
  lemma CacheIsTransparent(h: Hashes, users: seq<User>, ops: seq<Op>, name: string, password: string, salt: seq<int>)
    requires UniqueNames(users)
    requires forall i :: 0 <= i < |ops| && ops[i].NewSnapshot? ==> UniqueNames(ops[i].users)
    requires forall s, p, q :: h.salted(s, p) == h.salted(s, q) ==> p == q
    ensures var s := Run(h, State(users, map[]), ops);
            Cached(h, s, name, password, Some(salt)).1 == Uncached(h, s.users, name, password)
  {
    RunKeepsInv(h, State(users, map[]), ops);
    var s := Run(h, State(users, map[]), ops);
    CachedAgreesIff(h, s, name, password, Some(salt));
  }

  /**
   What the cache is for: once a password was accepted, the same login is a cache
   hit, and stays one over any snapshot that leaves the user's hash as it was.
   */
  lemma GrantedThenHit(h: Hashes, s: State, name: string, password: string, salt: Option<seq<int>>, users: seq<User>)
    requires Inv(h, s)
    ensures var (s', r) := Cached(h, s, name, password, salt);
            r.Granted? ==>
              && CacheHit(h, s', name, password)
              && (r.user in users ==> CacheHit(h, Refresh(s', users), name, password))
  {
    var (s', r) := Cached(h, s, name, password, salt);
    if r.Granted? && CacheHit(h, s, name, password) {
      FindUnique(s.users, User(name, s.cache[name].bhash));
    }
  }
}
