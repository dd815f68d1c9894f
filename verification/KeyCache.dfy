/**
 The JWKS key cache: fetch without a lock, clear and refill under the write lock, read again. First as code
 for one caller, then as a step model for any number of callers and an issuer that rotates its keys.
 */
module KeyCache {
  import opened Wrappers

  type Keys = map<string, string>      // key ID to decoding key

  datatype AuthError = FetchFailed | UnknownKid(kid: string)

  function Find(keys: Keys, kid: string): Result<string, AuthError> {
    if kid in keys then Ok(keys[kid]) else Err(UnknownKid(kid))
  }

  // ----- one caller -----------------------------------------------------------------

  class JwksKeySource {
    var cache: Keys

    constructor ()
      ensures cache == map[]
    {
      cache := map[];
    }

    /** Replace the whole cache by the fetched set; a failed fetch leaves it alone. */
    method Refresh(fetched: Result<Keys, AuthError>) returns (r: Result<(), AuthError>)
      modifies this
      ensures fetched.Ok? ==> r == Ok(()) && cache == fetched.value
      ensures fetched.Err? ==> r == Err(fetched.error) && cache == old(cache)
    {
      if fetched.Err? {
        return Err(fetched.error);
      }
      var keys := fetched.value;
      cache := map[];
      var rest := keys.Keys;
      while rest != {}
        invariant rest <= keys.Keys
        invariant cache == map kid | kid in keys.Keys - rest :: keys[kid]
        decreases |rest|
      {
        var kid :| kid in rest;
        cache := cache[kid := keys[kid]];
        rest := rest - {kid};
      }
      return Ok(());
    }

    /** A known key comes from the cache; an unknown one costs one fetch, whose set then answers. */
    method Key(kid: string, fetched: Result<Keys, AuthError>) returns (r: Result<string, AuthError>)
      modifies this
      ensures kid in old(cache) ==> r == Ok(old(cache)[kid]) && cache == old(cache)
      ensures kid !in old(cache) && fetched.Err? ==> r == Err(fetched.error) && cache == old(cache)
      ensures kid !in old(cache) && fetched.Ok? && kid in fetched.value ==>
                r == Ok(fetched.value[kid]) && cache == fetched.value
      ensures kid !in old(cache) && fetched.Ok? && kid !in fetched.value ==>
                r == Err(UnknownKid(kid)) && cache == fetched.value
    {
      if kid in cache {
        return Ok(cache[kid]);
      }
      var refreshed := Refresh(fetched);
      if refreshed.Err? {
        return Err(refreshed.error);
      }
      if kid in cache {
        return Ok(cache[kid]);
      }
      return Err(UnknownKid(kid));
    }
  }

  // ----- many callers ---------------------------------------------------------------

  datatype Phase =
    | Start
    | Fetching
    | Fetched(keys: Keys)                       // holds a set, waits for the write lock
    | Locked(keys: Keys)
    | Filling(keys: Keys, rest: set<string>)    // cleared; `rest` is still to insert
    | Rereading
    | Done(result: Result<string, AuthError>)

  /** `own` is the set this call's own fetch returned. */
  datatype Call = Call(kid: string, phase: Phase, own: Option<Keys>)

  datatype State = State(
    issuer: Keys,
    served: set<Keys>,          // every set a fetch ever returned
    cache: Keys,
    writer: Option<nat>,        // who holds the write lock
    filled: Option<Keys>,       // the set of the last finished refill
    calls: map<nat, Call>)

  datatype Label =
    | Spawn(id: nat, kid: string)
    | Read(id: nat)
    | Fetch(id: nat, succeeds: bool)
    | Lock(id: nat)
    | Clear(id: nat)
    | Insert(id: nat, kid: string)
    | Unlock(id: nat)
    | Reread(id: nat)
    | Rotate(keys: Keys)

  predicate At(s: State, id: nat, p: Phase -> bool) {
    id in s.calls && p(s.calls[id].phase)
  }

  predicate Allowed(s: State, l: Label) {
    match l
    case Spawn(id, _) => id !in s.calls
    case Read(id) => At(s, id, (p: Phase) => p.Start?) && s.writer.None?
    case Fetch(id, _) => At(s, id, (p: Phase) => p.Fetching?)
    case Lock(id) => At(s, id, (p: Phase) => p.Fetched?) && s.writer.None?
    case Clear(id) => At(s, id, (p: Phase) => p.Locked?)
    case Insert(id, kid) => At(s, id, (p: Phase) => p.Filling? && kid in p.rest && kid in p.keys)
    case Unlock(id) => At(s, id, (p: Phase) => p.Filling? && p.rest == {})
    case Reread(id) => At(s, id, (p: Phase) => p.Rereading?) && s.writer.None?
    case Rotate(_) => true
  }

  function Moved(s: State, id: nat, p: Phase): State
    requires id in s.calls
  {
    s.(calls := s.calls[id := s.calls[id].(phase := p)])
  }

  function Next(s: State, l: Label): State
    requires Allowed(s, l)
  {
    match l
    case Spawn(id, kid) => s.(calls := s.calls[id := Call(kid, Start, None)])
    case Read(id) =>
      var kid := s.calls[id].kid;
      Moved(s, id, if kid in s.cache then Done(Ok(s.cache[kid])) else Fetching)
    case Fetch(id, succeeds) =>
      if succeeds then
        s.(served := s.served + {s.issuer},
             calls := s.calls[id := Call(s.calls[id].kid, Fetched(s.issuer), Some(s.issuer))])
      else Moved(s, id, Done(Err(FetchFailed)))
    case Lock(id) => Moved(s.(writer := Some(id)), id, Locked(s.calls[id].phase.keys))
    case Clear(id) =>
      var keys := s.calls[id].phase.keys;
      Moved(s.(cache := map[]), id, Filling(keys, keys.Keys))
    case Insert(id, kid) =>
      var p := s.calls[id].phase;
      Moved(s.(cache := s.cache[kid := p.keys[kid]]), id, Filling(p.keys, p.rest - {kid}))
    case Unlock(id) => Moved(s.(writer := None, filled := Some(s.calls[id].phase.keys)), id, Rereading)
    case Reread(id) => Moved(s, id, Done(Find(s.cache, s.calls[id].kid)))
    case Rotate(keys) => s.(issuer := keys)
  }

  predicate IsRun(s: State, labels: seq<Label>)
    decreases |labels|
  {
    labels != [] ==> Allowed(s, labels[0]) && IsRun(Next(s, labels[0]), labels[1..])
  }

  function Final(s: State, labels: seq<Label>): State
    requires IsRun(s, labels)
    decreases |labels|
  {
    if labels == [] then s else Final(Next(s, labels[0]), labels[1..])
  }

  function Initial(issuer: Keys): State {
    State(issuer, {}, map[], None, None, map[])
  }

  // ----- the invariant --------------------------------------------------------------

  /** What the cache holds when nobody writes: nothing yet, or the last set that was filled in. */
  function Settled(s: State): Keys {
    if s.filled.Some? then s.filled.value else map[]
  }

  predicate CallOk(s: State, id: nat)
    requires id in s.calls
  {
    match s.calls[id].phase
    case Fetched(keys) => keys in s.served
    case Locked(keys) => s.writer == Some(id) && keys in s.served
    case Filling(keys, rest) =>
      && s.writer == Some(id) && keys in s.served && rest <= keys.Keys
      && s.cache == map kid | kid in keys.Keys - rest :: keys[kid]
    case Rereading => s.filled.Some?
    case Done(Ok(key)) => exists keys :: keys in s.served && Find(keys, s.calls[id].kid) == Ok(key)
    case Done(Err(UnknownKid(kid))) =>
      kid == s.calls[id].kid && exists keys :: keys in s.served && kid !in keys
    case _ => true
  }

  /** The call a step belongs to. */
  function Actor(l: Label): Option<nat> {
    match l
    case Spawn(id, _) => Some(id)
    case Read(id) => Some(id)
    case Fetch(id, _) => Some(id)
    case Lock(id) => Some(id)
    case Clear(id) => Some(id)
    case Insert(id, _) => Some(id)
    case Unlock(id) => Some(id)
    case Reread(id) => Some(id)
    case Rotate(_) => None
  }

  /** The invariant of the cache and its lock. */
  predicate CacheOk(s: State) {
    && (s.writer.None? ==> s.cache == Settled(s))
    && (s.filled.Some? ==> s.filled.value in s.served)
    && (s.writer.Some? ==> s.writer.value in s.calls
                           && (s.calls[s.writer.value].phase.Locked? || s.calls[s.writer.value].phase.Filling?))
  }

  predicate Inv(s: State) {
    CacheOk(s) && forall id :: id in s.calls ==> CallOk(s, id)
  }

  lemma UnlockedCache(s: State, id: nat)
    requires Allowed(s, Unlock(id)) && CallOk(s, id)
    ensures s.cache == s.calls[id].phase.keys
  {
    var keys := s.calls[id].phase.keys;
    assert keys.Keys - {} == keys.Keys;
  }

  lemma StepCache(s: State, l: Label)
    requires Inv(s) && Allowed(s, l)
    ensures CacheOk(Next(s, l))
  {
    if Actor(l).Some? && !l.Spawn? {
      assert CallOk(s, Actor(l).value);
    }
    if l.Unlock? {
      UnlockedCache(s, l.id);
    }
  }

  lemma ReadOk(s: State, id: nat, again: bool)
    requires CacheOk(s) && s.writer.None? && id in s.calls && (again ==> s.filled.Some?)
    requires again || s.calls[id].kid in s.cache
    ensures CallOk(Moved(s, id, Done(Find(s.cache, s.calls[id].kid))), id)
  {
    assert s.cache == Settled(s) == s.filled.value;
    assert s.filled.value in s.served;
  }

  lemma InsertOk(s: State, id: nat, kid: string)
    requires Allowed(s, Insert(id, kid)) && CallOk(s, id)
    ensures CallOk(Next(s, Insert(id, kid)), id)
  {
  }

  lemma ActorOk(s: State, l: Label, id: nat)
    requires Inv(s) && Allowed(s, l) && Actor(l) == Some(id)
    ensures id in Next(s, l).calls && CallOk(Next(s, l), id)
  {
    if !l.Spawn? {
      assert CallOk(s, id);
    }
    match l {
      case Read(_) =>
        if s.calls[id].kid in s.cache {
          ReadOk(s, id, false);
        }
      case Reread(_) => ReadOk(s, id, true);
      case Insert(_, kid) => InsertOk(s, id, kid);
      case _ =>
    }
  }

  /** A step of one call leaves what is known of the others. */
  lemma OthersOk(s: State, l: Label, id: nat)
    requires Inv(s) && Allowed(s, l) && id in s.calls && Actor(l) != Some(id)
    ensures id in Next(s, l).calls && CallOk(Next(s, l), id)
  {
    assert CallOk(s, id) && Next(s, l).calls[id] == s.calls[id];
    if s.calls[id].phase.Done? {
      DoneStays(s, l, id);
    } else if Actor(l).Some? && !l.Spawn? {
      assert CallOk(s, Actor(l).value);
    }
  }

  lemma StepInv(s: State, l: Label)
    requires Inv(s) && Allowed(s, l)
    ensures Inv(Next(s, l))
  {
    StepCache(s, l);
    forall id | id in Next(s, l).calls ensures CallOk(Next(s, l), id) {
      if Actor(l) == Some(id) {
        ActorOk(s, l, id);
      } else {
        OthersOk(s, l, id);
      }
    }
  }

  lemma DoneStays(s: State, l: Label, id: nat)
    requires Allowed(s, l) && id in s.calls && CallOk(s, id) && s.calls[id].phase.Done?
    ensures id in Next(s, l).calls && CallOk(Next(s, l), id)
  {
    var s' := Next(s, l);
    assert s.served <= s'.served && s'.calls[id] == s.calls[id];
  }

  lemma {:induction false} RunInv(s: State, labels: seq<Label>)
    requires Inv(s) && IsRun(s, labels)
    ensures Inv(Final(s, labels))
    decreases |labels|
  {
    if labels != [] {
      StepInv(s, labels[0]);
      RunInv(Next(s, labels[0]), labels[1..]);
    }
  }

  // ----- theorems -------------------------------------------------------------------

  /**
   Whenever a call reads the cache, in any run, it sees the empty initial cache or exactly one set the issuer
   served, the one last filled in: never a mixture, never a half-filled set.
   */
  lemma ReadsSeeOneSet(issuer: Keys, labels: seq<Label>, id: nat)
    requires IsRun(Initial(issuer), labels)
    requires var s := Final(Initial(issuer), labels); Allowed(s, Read(id)) || Allowed(s, Reread(id))
    ensures var s := Final(Initial(issuer), labels);
            && (s.cache == map[] || s.cache in s.served)
            && s.cache == Settled(s)
            && (Allowed(s, Reread(id)) ==> s.filled.Some? && s.cache in s.served)
  {
    RunInv(Initial(issuer), labels);
    var s := Final(Initial(issuer), labels);
    if Allowed(s, Reread(id)) {
      assert CallOk(s, id);
    }
  }

  /** In every run: a key ID of the last refill is answered at once, any other costs a fetch. */
  lemma KnownKeyNeedsNoFetch(issuer: Keys, labels: seq<Label>, id: nat)
    requires IsRun(Initial(issuer), labels)
    requires Allowed(Final(Initial(issuer), labels), Read(id))
    ensures var s := Final(Initial(issuer), labels);
            var s', kid := Next(s, Read(id)), s.calls[id].kid;
            && s'.calls[id].phase == (if s.filled.Some? && kid in s.filled.value then Done(Ok(s.filled.value[kid]))
                                      else Fetching)
            && s'.cache == s.cache && s'.served == s.served
  {
    ReadsSeeOneSet(issuer, labels, id);
  }

  /** Every key ever returned is the binding of that key ID in a set the issuer served. */
  lemma KeysAreServed(issuer: Keys, labels: seq<Label>, id: nat)
    requires IsRun(Initial(issuer), labels)
    requires var s := Final(Initial(issuer), labels);
             id in s.calls && s.calls[id].phase.Done? && s.calls[id].phase.result.Ok?
    ensures var s := Final(Initial(issuer), labels);
            exists keys :: keys in s.served && s.calls[id].kid in keys &&
              s.calls[id].phase.result == Ok(keys[s.calls[id].kid])
  {
    RunInv(Initial(issuer), labels);
    var s := Final(Initial(issuer), labels);
    assert CallOk(s, id);
  }

  // ----- an issuer that rotates its keys --------------------------------------------

  /** The issuer only ever serves sets of `family`. */
  ghost predicate ServesFrom(labels: seq<Label>, family: iset<Keys>) {
    forall k | 0 <= k < |labels| :: labels[k].Rotate? ==> labels[k].keys in family
  }

  lemma {:induction false} ServedWithin(s: State, labels: seq<Label>, family: iset<Keys>)
    requires IsRun(s, labels) && ServesFrom(labels, family)
    requires s.issuer in family && forall keys | keys in s.served :: keys in family
    ensures forall keys | keys in Final(s, labels).served :: keys in family
    decreases |labels|
  {
    if labels != [] {
      ServedWithin(Next(s, labels[0]), labels[1..], family);
    }
  }

  predicate OwnOk(c: Call, served: set<Keys>) {
    && (c.own.Some? ==> c.own.value in served)
    && (c.phase.Start? || c.phase.Fetching? || c.phase == Done(Err(FetchFailed)) ==> c.own.None?)
  }

  predicate OwnsOk(s: State) {
    forall id | id in s.calls :: OwnOk(s.calls[id], s.served)
  }

  lemma StepOwn(s: State, l: Label)
    requires Allowed(s, l) && OwnsOk(s)
    ensures OwnsOk(Next(s, l))
  {
    forall id | id in Next(s, l).calls ensures OwnOk(Next(s, l).calls[id], Next(s, l).served) {
      if id in s.calls {
        assert OwnOk(s.calls[id], s.served);
      }
    }
  }

  lemma {:induction false} RunOwn(s: State, labels: seq<Label>)
    requires IsRun(s, labels) && OwnsOk(s)
    ensures OwnsOk(Final(s, labels))
    decreases |labels|
  {
    if labels != [] {
      StepOwn(s, labels[0]);
      RunOwn(Next(s, labels[0]), labels[1..]);
    }
  }

  /** All sets of the family bind the key ID alike, or none binds it. */
  ghost predicate AgreeOn(family: iset<Keys>, kid: string) {
    forall a, b | a in family && b in family :: Find(a, kid) == Find(b, kid)
  }

  /**
   Whatever else the issuer rotates: when all its sets agree on a key ID, every finished call for it has the
   issuer's answer, or its fetch failed.
   */
  lemma AgreedKeyIsAnswered(family: iset<Keys>, issuer: Keys, labels: seq<Label>, id: nat)
    requires issuer in family && ServesFrom(labels, family) && IsRun(Initial(issuer), labels)
    requires var s := Final(Initial(issuer), labels);
             id in s.calls && s.calls[id].phase.Done? && AgreeOn(family, s.calls[id].kid)
    ensures var call := Final(Initial(issuer), labels).calls[id];
            || call.phase.result == Err(FetchFailed)
            || call.phase.result == if call.kid in issuer then Ok(issuer[call.kid]) else Err(UnknownKid(call.kid))
  {
    RunInv(Initial(issuer), labels);
    ServedWithin(Initial(issuer), labels, family);
    var s := Final(Initial(issuer), labels);
    assert CallOk(s, id);
    match s.calls[id].phase.result {
      case Ok(key) =>
        var keys :| keys in s.served && Find(keys, s.calls[id].kid) == Ok(key);
        assert keys in family;
      case Err(UnknownKid(kid)) =>
        var keys :| keys in s.served && kid !in keys;
        assert keys in family && Find(keys, kid) == Err(UnknownKid(kid));
      case Err(FetchFailed) =>
    }
  }

  // ----- what a call's own fetch is worth -------------------------------------------

  /** The call is finished and its fetch succeeded. */
  predicate FetchedAndDone(s: State, id: nat) {
    id in s.calls && s.calls[id].phase.Done? && s.calls[id].own.Some?
  }

  /** In this run, call `id` for `kid`, if it fetched and finished, returned what its own fetch bound. */
  ghost predicate OwnFetchDecides(issuer: Keys, labels: seq<Label>, id: nat, kid: string)
    requires IsRun(Initial(issuer), labels)
  {
    var s := Final(Initial(issuer), labels);
    FetchedAndDone(s, id) && s.calls[id].kid == kid ==>
      s.calls[id].phase.result == Find(s.calls[id].own.value, kid)
  }

  lemma {:induction false} RunSplit(s: State, a: seq<Label>, b: seq<Label>)
    requires IsRun(s, a) && IsRun(Final(s, a), b)
    ensures IsRun(s, a + b) && Final(s, a + b) == Final(Final(s, a), b)
    decreases |a|
  {
    if a == [] {
      assert a + b == b;
    } else {
      assert (a + b)[0] == a[0] && (a + b)[1..] == a[1..] + b;
      RunSplit(Next(s, a[0]), a[1..], b);
    }
  }

  lemma RunOne(s: State, l: Label)
    requires Allowed(s, l)
    ensures IsRun(s, [l]) && Final(s, [l]) == Next(s, l)
  {
    assert [l][1..] == [];
    assert Final(Next(s, l), []) == Next(s, l);
  }

  lemma RunMore(s: State, labels: seq<Label>, l: Label)
    requires IsRun(s, labels) && Allowed(Final(s, labels), l)
    ensures IsRun(s, labels + [l]) && Final(s, labels + [l]) == Next(Final(s, labels), l)
  {
    RunOne(Final(s, labels), l);
    RunSplit(s, labels, [l]);
  }

  predicate Rotates(labels: seq<Label>) {
    exists k :: 0 <= k < |labels| && labels[k].Rotate?
  }

  /** Inserting what is still missing, in any order, ends with the whole set in the cache. */
  lemma {:induction false} FillRun(s: State, id: nat, keys: Keys, rest: set<string>) returns (labels: seq<Label>)
    requires id in s.calls && s.calls[id].phase == Filling(keys, rest) && rest <= keys.Keys
    requires s.cache == map kid | kid in keys.Keys - rest :: keys[kid]
    ensures IsRun(s, labels) && !Rotates(labels)
    ensures Final(s, labels) == Moved(s.(cache := keys), id, Filling(keys, {}))
    decreases |rest|
  {
    if rest == {} {
      labels := [];
      assert keys.Keys - {} == keys.Keys;
      assert s.cache == keys;
      assert s.calls[id := s.calls[id].(phase := Filling(keys, {}))] == s.calls;
    } else {
      var kid :| kid in rest;
      var s' := Next(s, Insert(id, kid));
      var more := FillRun(s', id, keys, rest - {kid});
      labels := [Insert(id, kid)] + more;
      assert labels[1..] == more;
      assert Moved(s'.(cache := keys), id, Filling(keys, {})) == Moved(s.(cache := keys), id, Filling(keys, {}));
    }
  }

  /** A call that holds a fetched set puts it in the cache. */
  lemma RefillRun(s: State, id: nat, keys: Keys) returns (labels: seq<Label>)
    requires id in s.calls && s.calls[id].phase == Fetched(keys) && s.writer.None?
    ensures IsRun(s, labels) && !Rotates(labels)
    ensures Final(s, labels) == Moved(s.(cache := keys, filled := Some(keys)), id, Rereading)
  {
    var s1 := Next(s, Lock(id));
    var s2 := Next(s1, Clear(id));
    RunOne(s, Lock(id));
    RunMore(s, [Lock(id)], Clear(id));
    assert keys.Keys - keys.Keys == {};
    var fill := FillRun(s2, id, keys, keys.Keys);
    RunSplit(s, [Lock(id)] + [Clear(id)], fill);
    RunMore(s, [Lock(id)] + [Clear(id)] + fill, Unlock(id));
    labels := [Lock(id)] + [Clear(id)] + fill + [Unlock(id)];
    assert Final(s, labels).calls == s.calls[id := s.calls[id].(phase := Rereading)];
  }

  /** Both callers miss; the first fetches before the rotation, the second after it. */
  function BothFetch(b: Keys, kid: string): seq<Label> {
    [Spawn(1, kid)] + [Spawn(2, kid)] + [Read(1)] + [Fetch(1, true)] + [Rotate(b)] + [Read(2)] + [Fetch(2, true)]
  }

  function BothFetched(a: Keys, b: Keys, kid: string): State {
    State(b, {a, b}, map[], None, None,
          map[1 := Call(kid, Fetched(a), Some(a)), 2 := Call(kid, Fetched(b), Some(b))])
  }

  lemma BothFetchRuns(a: Keys, b: Keys, kid: string)
    ensures IsRun(Initial(a), BothFetch(b, kid)) && Final(Initial(a), BothFetch(b, kid)) == BothFetched(a, b, kid)
  {
    var s0 := Initial(a);
    RunOne(s0, Spawn(1, kid));
    RunMore(s0, [Spawn(1, kid)], Spawn(2, kid));
    RunMore(s0, [Spawn(1, kid)] + [Spawn(2, kid)], Read(1));
    RunMore(s0, [Spawn(1, kid)] + [Spawn(2, kid)] + [Read(1)], Fetch(1, true));
    RunMore(s0, [Spawn(1, kid)] + [Spawn(2, kid)] + [Read(1)] + [Fetch(1, true)], Rotate(b));
    RunMore(s0, [Spawn(1, kid)] + [Spawn(2, kid)] + [Read(1)] + [Fetch(1, true)] + [Rotate(b)], Read(2));
    RunMore(s0, [Spawn(1, kid)] + [Spawn(2, kid)] + [Read(1)] + [Fetch(1, true)] + [Rotate(b)] + [Read(2)],
            Fetch(2, true));
  }

  /** A call that is alone ends, with the answer of the issuer. */
  lemma LoneCallEnds(issuer: Keys, kid: string) returns (labels: seq<Label>)
    ensures IsRun(Initial(issuer), labels)
    ensures var s := Final(Initial(issuer), labels);
            var result := if kid in issuer then Ok(issuer[kid]) else Err(UnknownKid(kid));
            s.calls == map[1 := Call(kid, Done(result), Some(issuer))] && s.cache == issuer
  {
    var s0 := Initial(issuer);
    RunOne(s0, Spawn(1, kid));
    RunMore(s0, [Spawn(1, kid)], Read(1));
    RunMore(s0, [Spawn(1, kid)] + [Read(1)], Fetch(1, true));
    var start := [Spawn(1, kid)] + [Read(1)] + [Fetch(1, true)];
    var refill := RefillRun(Final(s0, start), 1, issuer);
    RunSplit(s0, start, refill);
    RunMore(s0, start + refill, Reread(1));
    labels := start + refill + [Reread(1)];
  }

  /** The newer set is filled in, then the older one, then the call that fetched the newer one reads again. */
  lemma LateRefill(s: State, a: Keys, b: Keys, kid: string) returns (labels: seq<Label>)
    requires s == BothFetched(a, b, kid)
    ensures IsRun(s, labels) && !Rotates(labels)
    ensures 2 in Final(s, labels).calls && Final(s, labels).calls[2] == Call(kid, Done(Find(a, kid)), Some(b))
  {
    var newer := RefillRun(s, 2, b);
    var s2 := Final(s, newer);
    var older := RefillRun(s2, 1, a);
    RunSplit(s, newer, older);
    RunMore(s, newer + older, Reread(2));
    labels := newer + older + [Reread(2)];
  }

  lemma ServesFromPair(a: Keys, b: Keys, kid: string, more: seq<Label>)
    requires !Rotates(more)
    ensures ServesFrom(BothFetch(b, kid) + more, iset{a, b})
  {
    var first, all := BothFetch(b, kid), BothFetch(b, kid) + more;
    forall k | |first| <= k < |all| ensures !all[k].Rotate? {
      assert all[k] == more[k - |first|];
    }
  }

  /**
   For any two sets: the issuer rotates from `a` to `b`, and a call that fetched `b` answers from `a`, which
   another call fetched earlier and filled in later.
   */
  lemma StaleRefillDecides(a: Keys, b: Keys, kid: string) returns (labels: seq<Label>)
    ensures IsRun(Initial(a), labels) && ServesFrom(labels, iset{a, b})
    ensures var s := Final(Initial(a), labels); 2 in s.calls && s.calls[2] == Call(kid, Done(Find(a, kid)), Some(b))
  {
    hide BothFetch;
    BothFetchRuns(a, b, kid);
    var late := LateRefill(BothFetched(a, b, kid), a, b, kid);
    RunSplit(Initial(a), BothFetch(b, kid), late);
    ServesFromPair(a, b, kid, late);
    labels := BothFetch(b, kid) + late;
  }

  /**
   In every run of an issuer that serves sets of `family`, every finished call for `kid` whose fetch succeeded
   returns what its own fetch bound: exactly when all sets of the family agree on that key ID.
   */
  lemma OwnFetchDecidesIff(family: iset<Keys>, kid: string)
    ensures (forall issuer, labels, id |
               issuer in family && ServesFrom(labels, family) && IsRun(Initial(issuer), labels) ::
               OwnFetchDecides(issuer, labels, id, kid))
            <==> AgreeOn(family, kid)
  {
    if AgreeOn(family, kid) {
      forall issuer, labels, id | issuer in family && ServesFrom(labels, family) && IsRun(Initial(issuer), labels)
        ensures OwnFetchDecides(issuer, labels, id, kid)
      {
        AgreedOwnFetch(family, issuer, labels, id, kid);
      }
    }
    forall a, b | a in family && b in family && Find(a, kid) != Find(b, kid)
      ensures exists labels, id ::
                ServesFrom(labels, family) && IsRun(Initial(a), labels) && !OwnFetchDecides(a, labels, id, kid)
    {
      var labels := StaleRefillDecides(a, b, kid);
      assert ServesFrom(labels, family);
      assert !OwnFetchDecides(a, labels, 2, kid);
    }
  }

  lemma AgreedOwnFetch(family: iset<Keys>, issuer: Keys, labels: seq<Label>, id: nat, kid: string)
    requires issuer in family && ServesFrom(labels, family) && IsRun(Initial(issuer), labels) && AgreeOn(family, kid)
    ensures OwnFetchDecides(issuer, labels, id, kid)
  {
    var s := Final(Initial(issuer), labels);
    if FetchedAndDone(s, id) && s.calls[id].kid == kid {
      AgreedKeyIsAnswered(family, issuer, labels, id);
      RunOwn(Initial(issuer), labels);
      ServedWithin(Initial(issuer), labels, family);
      assert OwnOk(s.calls[id], s.served);
      assert s.calls[id].own.value in family;
    }
  }

  /** Any issuer: what the second read returns is decided by the last refill, whoever made it. */
  lemma RereadUsesLastRefill(issuer: Keys, labels: seq<Label>, id: nat)
    requires IsRun(Initial(issuer), labels)
    requires Allowed(Final(Initial(issuer), labels), Reread(id))
    ensures var s := Final(Initial(issuer), labels);
            && s.filled.Some?
            && Next(s, Reread(id)).calls[id].phase == Done(Find(s.filled.value, s.calls[id].kid))
  {
    ReadsSeeOneSet(issuer, labels, id);
  }
}
