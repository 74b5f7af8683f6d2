/**
 The state of the low-level cache: its objects, the users attached to them and
 the handles its clients hold. Pointers are keys: an object, user or handle that
 has been freed is a key no longer in its map, and no key is ever used again.

 The invariants are here, one named predicate for each thing they say, and how
 each survives the elementary changes: an object, a handle or a user changed,
 users that come, go and move, objects that come and go, candidates counted.
 */
module LlcacheState {
  import opened Common

  type Byte = bv8
  type ObjectId = nat
  type UserId = nat
  type HandleId = nat

  datatype FetchState = Init | Headers | Data | Complete

  function Rank(s: FetchState): nat {
    match s case Init => 0 case Headers => 1 case Data => 2 case Complete => 3
  }

  datatype Validate = Fresh | Always | Once

  /** What a client is told about the source of its object. */
  datatype Event = HadHeaders | HadData(payload: seq<Byte>) | Done

  /**
   Whether a client has been moved to another object too late: it had been told
   of headers already, or had been given data even, of the object it was on.
   */
  datatype Standing = Steady | Warned | Mixed

  /** The base, the log and the past are records of what has happened; nothing is decided by them. */
  datatype Handle = Handle(
    object_: ObjectId,
    user: UserId,
    state: FetchState,
    bytes: nat,
    base: FetchState,
    log: seq<Event>,
    past: Standing)

  /** A new handle, owed all of the source. */
  function NewHandle(o: ObjectId, u: UserId, state: FetchState, past: Standing): Handle {
    Handle(o, u, state, 0, state, [], past)
  }

  function PastRank(p: Standing): nat {
    match p case Steady => 0 case Warned => 1 case Mixed => 2
  }

  /** How a handle is when it has been moved to another object. */
  function MovedHandle(h: Handle, dest: ObjectId): Handle {
    h.(object_ := dest,
       past := if Rank(h.state) < 2 || h.past == Mixed then h.past else if h.bytes == 0 then Warned else Mixed)
  }

  /**
   How often a fetch that times out is attempted, and whether fetchers are prompt: of one attempt,
   they give every answer but data, errors and certificates before the first of the data.
   */
  datatype Rules = Rules(attempts: nat, prompt: bool)

  /** No attempt is made once another has brought data. */
  predicate Single(rules: Rules) {
    rules.prompt && rules.attempts <= 1
  }

  datatype User = User(of: Option<ObjectId>, handle: Option<HandleId>, target: bool, queued: bool)

  datatype Object = Object(
    url: int,
    source: seq<Byte>,
    hasData: bool,
    onDisc: bool,
    cached: bool,
    users: seq<UserId>,
    state: FetchState,
    fetching: bool,
    candidate: Option<ObjectId>,
    candidateCount: nat,
    certs: bool,
    reqTime: int,
    expiry: int,
    noCache: Validate,
    redirects: nat,
    retries: nat,
    hsts: bool,
    triedAuth: bool,
    triedTls: bool,
    starts: nat,
    answered: bool)

  type Objects = map<ObjectId, Object>
  type Users = map<UserId, User>
  type Handles = map<HandleId, Handle>

  // ----- what a client has been given -----

  /** The data a client has accepted, end to end. */
  function Payload(log: seq<Event>): seq<Byte> {
    if log == [] then []
    else Payload(log[..|log| - 1]) + (match log[|log| - 1] case HadData(p) => p case HadHeaders => [] case Done => [])
  }

  predicate AllData(log: seq<Event>) {
    forall i :: 0 <= i < |log| ==> log[i].HadData? && log[i].payload != []
  }

  /** The events due before any data to a handle that began in a state. */
  function Opening(base: FetchState): seq<Event> {
    if Rank(base) <= 1 then [HadHeaders] else []
  }

  /** Headers once, then data, then the end once; nothing before the headers and nothing after the end. */
  predicate InOrder(base: FetchState, state: FetchState, log: seq<Event>) {
    var o := Opening(base);
    match state
    case Init => base == Init && log == []
    case Headers => Rank(base) <= 1 && log == []
    case Data => Rank(base) <= 2 && |log| >= |o| && log[..|o|] == o && AllData(log[|o|..])
    case Complete =>
      if base == Complete then log == []
      else |log| > |o| && log[..|o|] == o && log[|log| - 1] == Done && AllData(log[|o|..|log| - 1])
  }

  /** What a client has been given came in order, and as much of it as is recorded. */
  predicate Tallied(h: Handle) {
    InOrder(h.base, h.state, h.log) && |Payload(h.log)| == h.bytes
  }

  /** What a client has been given is the beginning of the source, in order. */
  predicate Sound(h: Handle, source: seq<Byte>) {
    && Tallied(h) && h.bytes <= |source| && Payload(h.log) == source[..h.bytes]
    && (h.state == Complete && h.base != Complete ==> h.bytes == |source|)
  }

  /** A client that has been given everything there is to give in an object state. */
  predicate CaughtUp(h: Handle, state: FetchState, source: seq<Byte>) {
    && Rank(h.state) >= Rank(state)
    && (Rank(state) >= 2 && h.state == Data ==> h.bytes >= |source|)
  }

  lemma PayloadGrows(log: seq<Event>, e: Event)
    ensures Payload(log + [e])
         == Payload(log) + (match e case HadData(p) => p case HadHeaders => [] case Done => [])
  {
    assert (log + [e])[..|log + [e]| - 1] == log;
  }

  lemma NoPayload()
    ensures Payload([]) == []
  {
  }

  lemma {:induction false} PayloadOfBoth(a: seq<Event>, b: seq<Event>)
    ensures Payload(a + b) == Payload(a) + Payload(b)
  {
    hide Payload;
    if b == [] {
      assert a + b == a;
      NoPayload();
    } else {
      var n := |b| - 1;
      assert a + b == a + b[..n] + [b[n]] && b == b[..n] + [b[n]];
      PayloadOfBoth(a, b[..n]);
      PayloadGrows(a + b[..n], b[n]);
      PayloadGrows(b[..n], b[n]);
    }
  }

  /**
   A handle that has accepted no data when it changes hands (its first data was
   answered with a request for replay): from then on the new owner is given the
   source from its first byte, every byte once.
   */
  lemma NewOwnerGetsAll(before: Handle, after: Handle, source0: seq<Byte>, source: seq<Byte>)
    requires Sound(before, source0) && before.bytes == 0 && Sound(after, source) && before.log <= after.log
    ensures Payload(after.log[|before.log|..]) == source[..after.bytes]
    ensures after.state == Complete && after.base != Complete ==> Payload(after.log[|before.log|..]) == source
  {
    PayloadOfBoth(before.log, after.log[|before.log|..]);
    assert before.log + after.log[|before.log|..] == after.log;
    assert source[..|source|] == source;
  }

  /** A client that has accepted no event has been given no data. */
  lemma NothingSeenYet(h: Handle)
    requires Tallied(h) && Rank(h.state) <= 1
    ensures h.log == [] && h.bytes == 0
  {
    assert Payload([]) == [];
  }

  /** Moving a client that is not done to another source is safe for every such source exactly when it has read nothing. */
  lemma MoveIsSafeExactlyWhenNothingRead(h: Handle)
    requires Tallied(h) && h.state != Complete
    ensures (forall other: seq<Byte> :: Sound(h, other)) <==> h.bytes == 0
  {
    if h.bytes == 0 {
      forall other: seq<Byte> ensures Sound(h, other) {
        assert other[..0] == Payload(h.log);
      }
    } else {
      assert !Sound(h, []);
    }
  }

  lemma GiveHeaders(h: Handle)
    requires Tallied(h) && h.state == Headers
    ensures Tallied(h.(state := Data, log := h.log + [HadHeaders]))
    ensures forall source :: Sound(h, source) ==> Sound(h.(state := Data, log := h.log + [HadHeaders]), source)
  {
    PayloadGrows(h.log, HadHeaders);
    assert h.log + [HadHeaders] == [HadHeaders];
  }

  lemma GiveData(h: Handle, source: seq<Byte>)
    requires Tallied(h) && h.state == Data && h.bytes < |source|
    ensures Tallied(h.(bytes := |source|, log := h.log + [HadData(source[h.bytes..])]))
    ensures Sound(h, source) ==> Sound(h.(bytes := |source|, log := h.log + [HadData(source[h.bytes..])]), source)
  {
    var e := HadData(source[h.bytes..]);
    PayloadGrows(h.log, e);
    assert source[..h.bytes] + source[h.bytes..] == source[..|source|];
    var o := Opening(h.base);
    assert |o| <= |h.log|;
    OneMoreAtEnd(h.log, e, |o|);
  }

  lemma OneMoreAtEnd<T>(s: seq<T>, x: T, n: nat)
    requires n <= |s|
    ensures (s + [x])[..n] == s[..n] && (s + [x])[n..] == s[n..] + [x]
  {
  }

  lemma GiveDone(h: Handle, source: seq<Byte>)
    requires Tallied(h) && h.state == Data && h.bytes >= |source|
    ensures Tallied(h.(state := Complete, log := h.log + [Done]))
    ensures Sound(h, source) ==> Sound(h.(state := Complete, log := h.log + [Done]), source)
  {
    PayloadGrows(h.log, Done);
    var o := Opening(h.base);
    assert (h.log + [Done])[..|o|] == h.log[..|o|];
    assert (h.log + [Done])[|o|..|h.log + [Done]| - 1] == h.log[|o|..];
  }

  /** More source does not disturb what has been given of it. */
  lemma SourceGrows(h: Handle, source: seq<Byte>, more: seq<Byte>)
    requires Sound(h, source) && h.state != Complete
    ensures Sound(h, source + more)
  {
    assert (source + more)[..h.bytes] == source[..h.bytes];
  }

  /** A clone starts in the state of its original, owed the source from the first byte. */
  lemma CloneIsSound(o: ObjectId, user: UserId, state: FetchState, past: Standing, source: seq<Byte>)
    ensures Sound(NewHandle(o, user, state, past), source)
  {
    assert Payload([]) == [];
    assert source[..0] == [];
  }

  // ----- lists -----

  function Without<T(==)>(s: seq<T>, x: T): (r: seq<T>)
    ensures forall y :: y in r ==> y in s
    ensures forall y :: y in s && y != x ==> y in r
    ensures NoDup(s) ==> NoDup(r) && x !in r
    ensures |r| == if x in s then |s| - 1 else |s|
  {
    if s == [] then [] else if s[0] == x then s[1..] else [s[0]] + Without(s[1..], x)
  }

  /** What follows the first `x` in a list. */
  function After<T(==)>(s: seq<T>, x: T): (r: seq<T>)
    ensures x in s ==> |r| < |s|
    ensures forall y :: y in r ==> y in s
    ensures NoDup(s) ==> NoDup(r) && x !in r
  {
    if s == [] then [] else if s[0] == x then s[1..] else After(s[1..], x)
  }

  // ----- the invariants -----

  /**
   Every user in a list is the object's and in it once; every attached user is
   in its object's list; users and handles name each other. A user without a
   handle is one whose handle was carried off while it was being notified.
   */
  ghost predicate Linked(os: Objects, us: Users, hs: Handles) {
    NoRepeats(os) && ListsAttach(os, us) && AttachedAreListed(os, us) && HandlesNamed(us, hs) && UsersNamed(us, hs)
  }

  ghost predicate NoRepeats(os: Objects) {
    forall o :: o in os ==> NoDup(os[o].users)
  }

  ghost predicate ListsAttach(os: Objects, us: Users) {
    forall o, u :: o in os && u in os[o].users ==> u in us && us[u].of == Some(o)
  }

  ghost predicate AttachedAreListed(os: Objects, us: Users) {
    forall u :: u in us && us[u].of.Some? ==> us[u].of.value in os && u in os[us[u].of.value].users
  }

  ghost predicate HandlesNamed(us: Users, hs: Handles) {
    forall u :: u in us && us[u].handle.Some? ==> us[u].handle.value in hs && hs[us[u].handle.value].user == u
  }

  ghost predicate UsersNamed(us: Users, hs: Handles) {
    forall h :: h in hs ==> hs[h].user in us && us[hs[h].user].handle == Some(h)
  }

  /** Handles of attached users name the user's object. */
  ghost predicate Placed(us: Users, hs: Handles) {
    forall h :: h in hs && hs[h].user in us && us[hs[h].user].of.Some? ==> us[hs[h].user].of == Some(hs[h].object_)
  }

  /** Only the user being notified may be marked, and only it may lack a handle. */
  ghost predicate Marked(us: Users, target: Option<UserId>) {
    && (forall u :: u in us && us[u].target ==> target == Some(u))
    && (target.Some? ==> target.value in us && us[target.value].target)
    && (forall u :: u in us && (us[u].queued || us[u].handle.None?) ==> us[u].queued && us[u].target)
    && (forall u :: u in us ==> us[u].of.Some?)
  }

  /**
   A handle given its object's source as far as it has been told, unless it was
   moved there with data of another; done only when the object is, and told of
   headers only of an object that has had data or been finished, unless it was
   moved there so.
   */
  ghost predicate DeliveredTo(h: Handle, o: Object) {
    && Tallied(h) && (h.past != Mixed ==> Sound(h, o.source)) && (h.past == Mixed ==> h.bytes > 0)
    && (h.state == Complete ==> o.state == Complete)
    && (h.past == Steady && Rank(h.state) >= 2 ==> o.answered)
  }

  ghost predicate Delivered(os: Objects, hs: Handles) {
    forall h :: h in hs && hs[h].object_ in os ==> DeliveredTo(hs[h], os[hs[h].object_])
  }

  function Bit(b: bool): nat {
    if b then 1 else 0
  }

  /** Fetches are started a bounded number of times, and redirects followed a bounded number. */
  predicate Bounded(o: Object, attempts: nat) {
    && o.redirects <= 11
    && o.starts <= Max(1, attempts) + 2
    && (o.fetching ==> o.retries <= attempts && (attempts > 0 ==> o.retries > 0)
                       && o.starts <= 1 + (attempts - o.retries) + Bit(o.triedAuth) + Bit(o.triedTls))
  }

  /**
   An object has been answered once it has had data or been finished. Until then
   it has no source and may hold a candidate; after that it is not fetched
   anew, if no fetch is attempted again once it has brought data.
   */
  predicate Answered(o: Object, rules: Rules) {
    && (Rank(o.state) >= 2 ==> o.answered)
    && (o.fetching && !o.answered ==> o.source == [])
    && (o.fetching && o.answered ==> o.candidate == None)
    && (o.fetching && o.answered && Single(rules) ==> Rank(o.state) >= 2)
  }

  predicate InUse(o: Object) {
    o.users != [] || o.candidateCount > 0
  }

  /** Source that someone may read is in memory. */
  predicate Resident(o: Object) {
    && (o.onDisc && InUse(o) ==> o.hasData)
    && (!o.onDisc && o.source != [] ==> o.hasData)
  }

  ghost predicate ObjectOk(o: Object, rules: Rules) {
    && Resident(o) && Bounded(o, rules.attempts) && Answered(o, rules)
    && (o.state == Complete ==> !o.fetching)
    && (o.fetching ==> !o.onDisc)
    && (!o.cached ==> o.candidateCount == 0 && !o.onDisc)
  }

  ghost predicate ObjectsOk(os: Objects, rules: Rules) {
    forall o :: o in os ==> ObjectOk(os[o], rules)
  }

  ghost function Referrers(os: Objects, c: ObjectId): set<ObjectId> {
    set o | o in os && os[o].candidate == Some(c)
  }

  /** A candidate exists, and is counted by at least as many as name it. */
  ghost predicate Counted(os: Objects) {
    && (forall o :: o in os && os[o].candidate.Some? ==>
          os[o].candidate.value in os && os[o].candidate.value != o && os[os[o].candidate.value].cached)
    && (forall c :: c in os ==> |Referrers(os, c)| <= os[c].candidateCount)
  }

  /** New objects are put at the head of a list, and keys are never used again. */
  ghost predicate NewestFirst(list: seq<ObjectId>) {
    list == [] || ((forall o :: o in list[1..] ==> o < list[0]) && NewestFirst(list[1..]))
  }

  ghost predicate Listed(os: Objects, cached: seq<ObjectId>, uncached: seq<ObjectId>) {
    && NoDup(cached) && NoDup(uncached) && NewestFirst(cached) && NewestFirst(uncached)
    && (forall o :: o in cached ==> o in os && os[o].cached)
    && (forall o :: o in uncached ==> o in os && !os[o].cached)
    && (forall o :: o in os ==> if os[o].cached then o in cached else o in uncached)
  }

  /** If no fetch is attempted again once it has brought data, no client is moved too late. */
  ghost predicate Steadfast(hs: Handles, rules: Rules) {
    Single(rules) ==> forall h :: h in hs ==> hs[h].past == Steady
  }

  ghost predicate Inv(os: Objects, us: Users, hs: Handles, cached: seq<ObjectId>, uncached: seq<ObjectId>,
                      rules: Rules, target: Option<UserId>)
  {
    && Linked(os, us, hs) && Placed(us, hs) && Marked(us, target)
    && Delivered(os, hs) && ObjectsOk(os, rules) && Counted(os) && Listed(os, cached, uncached) && Steadfast(hs, rules)
  }

  // ----- one object changed -----

  /** An object changed in a way that leaves its users and candidate links alone. */
  ghost predicate Tame(was: Object, now: Object) {
    now.users == was.users && now.candidate == was.candidate && now.candidateCount == was.candidateCount && now.cached == was.cached
  }

  lemma LinkedIfTame(os: Objects, us: Users, hs: Handles, o: ObjectId, now: Object)
    requires Linked(os, us, hs) && o in os && Tame(os[o], now)
    ensures Linked(os[o := now], us, hs)
  {
  }

  lemma CountedIfTame(os: Objects, o: ObjectId, now: Object)
    requires Counted(os) && o in os && Tame(os[o], now)
    ensures Counted(os[o := now])
  {
    var os' := os[o := now];
    forall c ensures Referrers(os', c) == Referrers(os, c) {
    }
  }

  lemma DeliveredIf(os: Objects, hs: Handles, o: ObjectId, now: Object)
    requires Delivered(os, hs) && o in os
    requires forall h :: h in hs && hs[h].object_ == o ==> DeliveredTo(hs[h], now)
    ensures Delivered(os[o := now], hs)
  {
    hide DeliveredTo;
  }

  lemma ObjectsOkIf(os: Objects, rules: Rules, o: ObjectId, now: Object)
    requires ObjectsOk(os, rules) && ObjectOk(now, rules)
    ensures ObjectsOk(os[o := now], rules)
  {
    hide ObjectOk;
  }

  lemma ListedIfSame(os: Objects, cached: seq<ObjectId>, uncached: seq<ObjectId>, o: ObjectId, now: Object)
    requires Listed(os, cached, uncached) && o in os && now.cached == os[o].cached
    ensures Listed(os[o := now], cached, uncached)
  {
    hide NoDup;
    hide NewestFirst;

  }

  lemma ObjectChanged(os: Objects, us: Users, hs: Handles, cached: seq<ObjectId>, uncached: seq<ObjectId>, rules: Rules,
                      target: Option<UserId>, o: ObjectId, now: Object)
    requires Inv(os, us, hs, cached, uncached, rules, target) && o in os && Tame(os[o], now)
    requires ObjectOk(now, rules)
    requires forall h :: h in hs && hs[h].object_ == o ==> DeliveredTo(hs[h], now)
    ensures Inv(os[o := now], us, hs, cached, uncached, rules, target)
  {
    hide Linked;
    hide Counted;
    hide Delivered;
    hide ObjectsOk;
    hide Listed;
    hide Placed;
    hide Marked;
    hide ObjectOk;
    hide DeliveredTo;
    assert now.cached == os[o].cached;
    hide Tame;
    LinkedIfTame(os, us, hs, o, now);
    CountedIfTame(os, o, now);
    DeliveredIf(os, hs, o, now);
    ObjectsOkIf(os, rules, o, now);
    ListedIfSame(os, cached, uncached, o, now);
  }

  lemma LinkedIfKept(os: Objects, us: Users, hs: Handles, h: HandleId, now: Handle)
    requires Linked(os, us, hs) && Placed(us, hs) && h in hs && now.object_ == hs[h].object_ && now.user == hs[h].user
    ensures Linked(os, us, hs[h := now]) && Placed(us, hs[h := now])
  {
  }

  lemma DeliveredIfSo(os: Objects, hs: Handles, h: HandleId, now: Handle)
    requires Delivered(os, hs) && now.object_ in os && DeliveredTo(now, os[now.object_])
    ensures Delivered(os, hs[h := now])
  {
    hide DeliveredTo;
  }

  lemma SteadfastOn(hs: Handles, rules: Rules, h: HandleId, now: Handle)
    requires Steadfast(hs, rules) && (Single(rules) && h in hs ==> now.past == hs[h].past || now.past == Steady)
    requires Single(rules) && h !in hs ==> now.past == Steady
    ensures Steadfast(hs[h := now], rules)
  {
  }

  /** A handle changed, keeping its place. */
  lemma HandleChanged(os: Objects, us: Users, hs: Handles, cached: seq<ObjectId>, uncached: seq<ObjectId>, rules: Rules,
                      target: Option<UserId>, h: HandleId, now: Handle)
    requires Inv(os, us, hs, cached, uncached, rules, target) && h in hs
    requires now.object_ == hs[h].object_ && now.user == hs[h].user && now.past == hs[h].past
    requires now.object_ in os && DeliveredTo(now, os[now.object_])
    ensures Inv(os, us, hs[h := now], cached, uncached, rules, target)
  {
    hide Linked;
    hide Counted;
    hide Delivered;
    hide ObjectsOk;
    hide Listed;
    hide Placed;
    hide Marked;
    hide DeliveredTo;
    LinkedIfKept(os, us, hs, h, now);
    DeliveredIfSo(os, hs, h, now);
  }

  // ----- users come, go and move -----

  /** The object with its list of users replaced. */
  function WithUsers(o: Object, users: seq<UserId>): Object {
    o.(users := users)
  }

  lemma CountedIfUsers(os: Objects, o: ObjectId, users: seq<UserId>)
    requires Counted(os) && o in os
    ensures Counted(os[o := WithUsers(os[o], users)])
  {
    var os' := os[o := WithUsers(os[o], users)];
    forall c ensures Referrers(os', c) == Referrers(os, c) {
    }
  }

  lemma ObjectsOkIfUsers(os: Objects, rules: Rules, o: ObjectId, users: seq<UserId>)
    requires ObjectsOk(os, rules) && o in os
    requires users == [] || os[o].users != [] || (os[o].onDisc ==> os[o].hasData)
    ensures ObjectsOk(os[o := WithUsers(os[o], users)], rules)
  {
    assert ObjectOk(os[o], rules);
    assert ObjectOk(WithUsers(os[o], users), rules);
    ObjectsOkIf(os, rules, o, WithUsers(os[o], users));
  }

  lemma ListedIfUsers(os: Objects, cached: seq<ObjectId>, uncached: seq<ObjectId>, o: ObjectId, users: seq<UserId>)
    requires Listed(os, cached, uncached) && o in os
    ensures Listed(os[o := WithUsers(os[o], users)], cached, uncached)
  {
    hide NoDup;
    hide NewestFirst;

  }

  lemma DeliveredIfUsers(os: Objects, hs: Handles, o: ObjectId, users: seq<UserId>)
    requires Delivered(os, hs) && o in os
    ensures Delivered(os[o := WithUsers(os[o], users)], hs)
  {
    assert forall h: Handle :: DeliveredTo(h, os[o]) ==> DeliveredTo(h, WithUsers(os[o], users));
    hide DeliveredTo;
  }

  /** A new user with a new handle at the head of an object's list. */
  lemma UserAttached(os: Objects, us: Users, hs: Handles, cached: seq<ObjectId>, uncached: seq<ObjectId>, rules: Rules,
                     target: Option<UserId>, o: ObjectId, u: UserId, h: HandleId, handle: Handle)
    requires Inv(os, us, hs, cached, uncached, rules, target) && o in os && u !in us && h !in hs
    requires handle.object_ == o && handle.user == u && DeliveredTo(handle, os[o])
    requires Single(rules) ==> handle.past == Steady
    requires os[o].users != [] || (os[o].onDisc ==> os[o].hasData)
    ensures Inv(os[o := WithUsers(os[o], [u] + os[o].users)], us[u := User(Some(o), Some(h), false, false)], hs[h := handle],
                cached, uncached, rules, target)
  {
    hide Linked;
    hide Counted;
    hide Delivered;
    hide ObjectsOk;
    hide Listed;
    hide Placed;
    hide Marked;
    hide DeliveredTo;
    LinkedWithUser(os, us, hs, target, o, u, h, handle);
    DeliveredIfSo(os, hs, h, handle);
    DeliveredIfUsers(os, hs[h := handle], o, [u] + os[o].users);
    ObjectsOkIfUsers(os, rules, o, [u] + os[o].users);
    CountedIfUsers(os, o, [u] + os[o].users);
    ListedIfUsers(os, cached, uncached, o, [u] + os[o].users);
  }

  lemma LinkedWithUser(os: Objects, us: Users, hs: Handles, target: Option<UserId>, o: ObjectId, u: UserId, h: HandleId, handle: Handle)
    requires Linked(os, us, hs) && Placed(us, hs) && Marked(us, target) && o in os && u !in us && h !in hs
    requires handle.object_ == o && handle.user == u
    ensures
      var os', us', hs' := os[o := WithUsers(os[o], [u] + os[o].users)], us[u := User(Some(o), Some(h), false, false)], hs[h := handle];
      Linked(os', us', hs') && Placed(us', hs') && Marked(us', target)
  {
    var users := [u] + os[o].users;
    assert users[1..] == os[o].users && u !in os[o].users;
    assert forall x :: x in users <==> x == u || x in os[o].users;
    assert NoDup(users);
    hide NoDup;
    hide WithUsers;
    var os' := os[o := WithUsers(os[o], users)];
    assert os'[o].users == users by { WithUsersIs(os[o], users); }
    NamesWithUser(us, hs, target, o, u, h, handle);
    ListsWithUser(os, us, o, u, User(Some(o), Some(h), false, false), os');
  }

  lemma WithUsersIs(o: Object, users: seq<UserId>)
    ensures WithUsers(o, users).users == users
  {
  }

  lemma NamesWithUser(us: Users, hs: Handles, target: Option<UserId>, o: ObjectId, u: UserId, h: HandleId, handle: Handle)
    requires HandlesNamed(us, hs) && UsersNamed(us, hs) && Placed(us, hs) && Marked(us, target) && u !in us && h !in hs
    requires handle.object_ == o && handle.user == u
    ensures
      var us', hs' := us[u := User(Some(o), Some(h), false, false)], hs[h := handle];
      HandlesNamed(us', hs') && UsersNamed(us', hs') && Placed(us', hs') && Marked(us', target)
  {
  }

  lemma ListsWithUser(os: Objects, us: Users, o: ObjectId, u: UserId, user: User, os': Objects)
    requires NoRepeats(os) && ListsAttach(os, us) && AttachedAreListed(os, us) && o in os && u !in us && user.of == Some(o)
    requires os'.Keys == os.Keys && forall x :: x in os && x != o ==> os'[x] == os[x]
    requires NoDup(os'[o].users) && forall x :: x in os'[o].users <==> x == u || x in os[o].users
    ensures NoRepeats(os') && ListsAttach(os', us[u := user]) && AttachedAreListed(os', us[u := user])
  {
    hide NoDup;
  }

  /** A user leaves its object and is destroyed, with its handle if it still has one. */
  function Handleless(hs: Handles, h: Option<HandleId>): Handles {
    if h.Some? then hs - {h.value} else hs
  }

  /** The user being notified, unless it is the one that goes. */
  function Unless(target: Option<UserId>, u: UserId): Option<UserId> {
    if target == Some(u) then None else target
  }

  lemma UserDropped(os: Objects, us: Users, hs: Handles, cached: seq<ObjectId>, uncached: seq<ObjectId>, rules: Rules,
                    target: Option<UserId>, o: ObjectId, u: UserId)
    requires Inv(os, us, hs, cached, uncached, rules, target) && o in os && u in os[o].users
    ensures u in us
    ensures Inv(os[o := WithUsers(os[o], Without(os[o].users, u))], us - {u}, Handleless(hs, us[u].handle),
                cached, uncached, rules, Unless(target, u))
  {
    hide Linked;
    hide Counted;
    hide Delivered;
    hide ObjectsOk;
    hide Listed;
    hide Placed;
    hide Marked;
    hide DeliveredTo;
    hide Handleless;
    hide Unless;
    hide NoDup;
    hide Steadfast;
    LinkedWithoutUser(os, us, hs, target, o, u);
    var hs', users := Handleless(hs, us[u].handle), Without(os[o].users, u);
    FewerHandles(os, hs, us[u].handle, rules);
    DeliveredIfUsers(os, hs', o, users);
    ObjectsOkIfUsers(os, rules, o, users);
    CountedIfUsers(os, o, users);
    ListedIfUsers(os, cached, uncached, o, users);
  }

  lemma FewerHandles(os: Objects, hs: Handles, h: Option<HandleId>, rules: Rules)
    requires Delivered(os, hs) && Steadfast(hs, rules)
    ensures Delivered(os, Handleless(hs, h)) && Steadfast(Handleless(hs, h), rules)
  {
    hide DeliveredTo;
  }

  lemma LinkedWithoutUser(os: Objects, us: Users, hs: Handles, target: Option<UserId>, o: ObjectId, u: UserId)
    requires Linked(os, us, hs) && Placed(us, hs) && Marked(us, target) && o in os && u in os[o].users
    ensures u in us
    ensures
      var os', us', hs' := os[o := WithUsers(os[o], Without(os[o].users, u))], us - {u}, Handleless(hs, us[u].handle);
      Linked(os', us', hs') && Placed(us', hs') && Marked(us', Unless(target, u))
  {
    hide NoDup;
    hide Marked;
    hide Placed;
    hide HandlesNamed;
    hide UsersNamed;
    hide Handleless;
    assert NoDup(os[o].users) && u in us;
    NamesWithoutUser(us, hs, target, u);
    ListsWithoutUser(os, us, o, u, os[o := WithUsers(os[o], Without(os[o].users, u))]);
  }

  lemma NamesWithoutUser(us: Users, hs: Handles, target: Option<UserId>, u: UserId)
    requires HandlesNamed(us, hs) && UsersNamed(us, hs) && Placed(us, hs) && Marked(us, target) && u in us
    ensures
      var us', hs' := us - {u}, Handleless(hs, us[u].handle);
      HandlesNamed(us', hs') && UsersNamed(us', hs') && Placed(us', hs') && Marked(us', Unless(target, u))
  {
  }

  lemma ListsWithoutUser(os: Objects, us: Users, o: ObjectId, u: UserId, os': Objects)
    requires NoRepeats(os) && ListsAttach(os, us) && AttachedAreListed(os, us) && o in os && u in os[o].users
    requires os'.Keys == os.Keys && forall x :: x in os && x != o ==> os'[x] == os[x]
    requires NoDup(os'[o].users) && forall x :: x in os'[o].users <==> x != u && x in os[o].users
    ensures u in us && NoRepeats(os') && ListsAttach(os', us - {u}) && AttachedAreListed(os', us - {u})
  {
    hide NoDup;
  }

  /** The lists with a user moved from one object to another. */
  function Moved(os: Objects, o: ObjectId, u: UserId, dest: ObjectId): Objects
    requires o in os && dest in os
  {
    var left := os[o := WithUsers(os[o], Without(os[o].users, u))];
    left[dest := WithUsers(left[dest], [u] + left[dest].users)]
  }

  lemma ListsMoved(os: Objects, us: Users, o: ObjectId, u: UserId, dest: ObjectId, user: User)
    requires NoRepeats(os) && ListsAttach(os, us) && AttachedAreListed(os, us)
    requires o in os && dest in os && o != dest && u in os[o].users && user.of == Some(dest)
    ensures var os', us' := Moved(os, o, u, dest), us[u := user];
            NoRepeats(os') && ListsAttach(os', us') && AttachedAreListed(os', us')
  {
    var users := Without(os[o].users, u);
    var left := os[o := WithUsers(os[o], users)];
    ListsWithoutUser(os, us, o, u, left);
    assert u !in left[dest].users;
    var more := [u] + left[dest].users;
    assert more[1..] == left[dest].users;
    ListsWithUser(left, us - {u}, dest, u, user, Moved(os, o, u, dest));
    assert (us - {u})[u := user] == us[u := user];
  }

  lemma NamesMoved(us: Users, hs: Handles, target: Option<UserId>, u: UserId, h: HandleId, dest: ObjectId, now: Handle)
    requires HandlesNamed(us, hs) && UsersNamed(us, hs) && Placed(us, hs) && Marked(us, target)
    requires u in us && us[u].handle == Some(h) && h in hs && now.object_ == dest && now.user == hs[h].user
    ensures
      var us', hs' := us[u := us[u].(of := Some(dest))], hs[h := now];
      HandlesNamed(us', hs') && UsersNamed(us', hs') && Placed(us', hs') && Marked(us', target)
  {
  }

  /** A user moved, with its handle, from one object to another. */
  lemma UserMoved(os: Objects, us: Users, hs: Handles, cached: seq<ObjectId>, uncached: seq<ObjectId>, rules: Rules,
                  target: Option<UserId>, o: ObjectId, u: UserId, h: HandleId, dest: ObjectId, now: Handle)
    requires Inv(os, us, hs, cached, uncached, rules, target)
    requires o in os && dest in os && o != dest && u in os[o].users && u in us && us[u].handle == Some(h) && h in hs
    requires now.object_ == dest && now.user == hs[h].user && DeliveredTo(now, os[dest]) && (Single(rules) ==> now.past == Steady)
    requires os[dest].onDisc ==> os[dest].hasData
    ensures Inv(Moved(os, o, u, dest), us[u := us[u].(of := Some(dest))], hs[h := now],
                cached, uncached, rules, target)
  {
    hide Counted;
    hide Delivered;
    hide ObjectsOk;
    hide Listed;
    hide Placed;
    hide Marked;
    hide NoRepeats;
    hide ListsAttach;
    hide AttachedAreListed;
    hide HandlesNamed;
    hide UsersNamed;
    hide Moved;
    ListsMoved(os, us, o, u, dest, us[u].(of := Some(dest)));
    NamesMoved(us, hs, target, u, h, dest, now);
    DeliveredIfSo(os, hs, h, now);
    MovedOutAndIn(os, hs[h := now], cached, uncached, rules, o, u, dest);
  }

  lemma MovedOutAndIn(os: Objects, hs: Handles, cached: seq<ObjectId>, uncached: seq<ObjectId>, rules: Rules,
                      o: ObjectId, u: UserId, dest: ObjectId)
    requires Delivered(os, hs) && ObjectsOk(os, rules) && Counted(os) && Listed(os, cached, uncached)
    requires o in os && dest in os && o != dest && u in os[o].users && (os[dest].onDisc ==> os[dest].hasData)
    ensures var os' := Moved(os, o, u, dest);
            Delivered(os', hs) && ObjectsOk(os', rules) && Counted(os') && Listed(os', cached, uncached)
  {
    var users := Without(os[o].users, u);
    var left := os[o := WithUsers(os[o], users)];
    var more := [u] + left[dest].users;
    assert Moved(os, o, u, dest) == left[dest := WithUsers(left[dest], more)];
    assert left[dest] == os[dest];
    hide Counted;
    hide Delivered;
    hide ObjectsOk;
    hide Listed;
    hide Placed;
    hide Marked;
    hide NoDup;
    hide Without;
    DeliveredIfUsers(os, hs, o, users);
    ObjectsOkIfUsers(os, rules, o, users);
    CountedIfUsers(os, o, users);
    ListedIfUsers(os, cached, uncached, o, users);
    DeliveredIfUsers(left, hs, dest, more);
    ObjectsOkIfUsers(left, rules, dest, more);
    CountedIfUsers(left, dest, more);
    ListedIfUsers(left, cached, uncached, dest, more);
  }

  /** A handle carried off to a new user of another object; its old user, being notified, is left to be deleted. */
  function CarriedUsers(us: Users, u: UserId, v: UserId, h: HandleId, dest: ObjectId): Users
    requires u in us
  {
    us[u := us[u].(handle := None, queued := true)][v := User(Some(dest), Some(h), false, false)]
  }

  function CarriedHandles(hs: Handles, v: UserId, h: HandleId, dest: ObjectId): Handles
    requires h in hs
  {
    hs[h := hs[h].(object_ := dest, user := v)]
  }

  lemma NamesCarried(us: Users, hs: Handles, u: UserId, v: UserId, h: HandleId, dest: ObjectId)
    requires HandlesNamed(us, hs) && UsersNamed(us, hs) && Placed(us, hs) && Marked(us, Some(u))
    requires u in us && us[u].handle == Some(h) && us[u].target && v !in us && h in hs
    ensures
      var us', hs' := CarriedUsers(us, u, v, h, dest), CarriedHandles(hs, v, h, dest);
      HandlesNamed(us', hs') && UsersNamed(us', hs') && Placed(us', hs') && Marked(us', Some(u))
  {
    hide Marked;
    hide Placed;
    PlacesCarried(us, hs, u, v, h, dest);
  }

  lemma PlacesCarried(us: Users, hs: Handles, u: UserId, v: UserId, h: HandleId, dest: ObjectId)
    requires HandlesNamed(us, hs) && UsersNamed(us, hs) && Placed(us, hs) && Marked(us, Some(u))
    requires u in us && us[u].handle == Some(h) && us[u].target && v !in us && h in hs
    ensures
      var us', hs' := CarriedUsers(us, u, v, h, dest), CarriedHandles(hs, v, h, dest);
      Placed(us', hs') && Marked(us', Some(u))
  {
    hide HandlesNamed;
  }

  lemma NamesSame(us: Users, hs: Handles, u: UserId, now: User)
    requires HandlesNamed(us, hs) && UsersNamed(us, hs) && Placed(us, hs)
    requires u in us && now.of == us[u].of && now.handle == us[u].handle
    ensures HandlesNamed(us[u := now], hs) && UsersNamed(us[u := now], hs) && Placed(us[u := now], hs)
  {
  }

  /** A user's marks changed and nothing else. */
  lemma UserMarked(os: Objects, us: Users, hs: Handles, cached: seq<ObjectId>, uncached: seq<ObjectId>, rules: Rules,
                   t: Option<UserId>, u: UserId, now: User, t': Option<UserId>)
    requires Inv(os, us, hs, cached, uncached, rules, t) && u in us && now.of == us[u].of && now.handle == us[u].handle
    requires Marked(us[u := now], t')
    ensures Inv(os, us[u := now], hs, cached, uncached, rules, t')
  {
    hide Marked;
    hide Counted;
    hide Delivered;
    hide ObjectsOk;
    hide Listed;
    hide NoRepeats;
    hide ListsAttach;
    hide AttachedAreListed;
    hide HandlesNamed;
    hide UsersNamed;
    hide Placed;
    ListsSameOf(os, us, u, now);
    NamesSame(us, hs, u, now);
  }

  lemma ListsSameOf(os: Objects, us: Users, u: UserId, user: User)
    requires ListsAttach(os, us) && AttachedAreListed(os, us) && u in us && user.of == us[u].of
    ensures ListsAttach(os, us[u := user]) && AttachedAreListed(os, us[u := user])
  {
  }

  lemma ListsCarried(os: Objects, us: Users, u: UserId, v: UserId, h: HandleId, dest: ObjectId)
    requires NoRepeats(os) && ListsAttach(os, us) && AttachedAreListed(os, us)
    requires u in us && v !in us && dest in os
    ensures
      var os', us' := os[dest := WithUsers(os[dest], [v] + os[dest].users)], CarriedUsers(us, u, v, h, dest);
      NoRepeats(os') && ListsAttach(os', us') && AttachedAreListed(os', us')
  {
    var users := [v] + os[dest].users;
    assert users[1..] == os[dest].users && v !in os[dest].users;
    ListsSameOf(os, us, u, us[u].(handle := None, queued := true));
    ListsWithUser(os, us[u := us[u].(handle := None, queued := true)], dest, v, User(Some(dest), Some(h), false, false),
                  os[dest := WithUsers(os[dest], users)]);
  }

  lemma HandleCarried(os: Objects, us: Users, hs: Handles, cached: seq<ObjectId>, uncached: seq<ObjectId>, rules: Rules,
                      u: UserId, v: UserId, h: HandleId, dest: ObjectId)
    requires Inv(os, us, hs, cached, uncached, rules, Some(u))
    requires u in us && us[u].handle == Some(h) && us[u].target && v !in us && h in hs && dest in os
    requires DeliveredTo(hs[h].(object_ := dest, user := v), os[dest])
    requires os[dest].onDisc ==> os[dest].hasData
    ensures Inv(os[dest := WithUsers(os[dest], [v] + os[dest].users)], CarriedUsers(us, u, v, h, dest),
                CarriedHandles(hs, v, h, dest), cached, uncached, rules, Some(u))
  {
    hide Delivered;
    hide ObjectsOk;
    hide Counted;
    hide Listed;
    hide Placed;
    hide Marked;
    hide NoRepeats;
    hide ListsAttach;
    hide AttachedAreListed;
    hide HandlesNamed;
    hide UsersNamed;
    hide DeliveredTo;
    hide NoDup;
    hide CarriedUsers;
    hide Steadfast;
    var hs', users := CarriedHandles(hs, v, h, dest), [v] + os[dest].users;
    NamesCarried(us, hs, u, v, h, dest);
    ListsCarried(os, us, u, v, h, dest);
    DeliveredIfSo(os, hs, h, hs'[h]);
    SteadfastOn(hs, rules, h, hs'[h]);
    DeliveredIfUsers(os, hs', dest, users);
    ObjectsOkIfUsers(os, rules, dest, users);
    CountedIfUsers(os, dest, users);
    ListedIfUsers(os, cached, uncached, dest, users);
  }

  // ----- objects come and go -----

  lemma CandidatesAdded(os: Objects, o: ObjectId, obj: Object)
    requires Counted(os) && o !in os && obj.candidate == None
    ensures Counted(os[o := obj])
  {
    var os' := os[o := obj];
    forall c | c in os' ensures |Referrers(os', c)| <= os'[c].candidateCount {
      if c == o {
        assert Referrers(os', o) == {};
      } else {
        assert Referrers(os', c) == Referrers(os, c);
      }
    }
  }

  function Recounted(o: Object, n: nat): Object {
    o.(candidateCount := n)
  }

  /** A candidate's count may be changed as long as it still covers those that name it. */
  lemma CountChanged(os: Objects, c: ObjectId, n: nat)
    requires Counted(os) && c in os && |Referrers(os, c)| <= n
    ensures Counted(os[c := Recounted(os[c], n)])
  {
    var os' := os[c := Recounted(os[c], n)];
    forall x ensures Referrers(os', x) == Referrers(os, x) {
    }
  }

  lemma ReferrersNamed(os: Objects, o: ObjectId, obj: Object, x: ObjectId)
    requires o !in os
    ensures Referrers(os[o := obj], x) == if obj.candidate == Some(x) then Referrers(os, x) + {o} else Referrers(os, x)
  {
  }

  lemma NobodyNames(os: Objects, o: ObjectId)
    requires Counted(os) && o !in os
    ensures Referrers(os, o) == {}
  {
  }

  /** A new object that names a candidate which counts more than those that already do. */
  lemma CandidateNamed(os: Objects, o: ObjectId, obj: Object, c: ObjectId)
    requires Counted(os) && o !in os && c in os && os[c].cached && obj.candidate == Some(c)
    requires |Referrers(os, c)| < os[c].candidateCount
    ensures Counted(os[o := obj])
  {
    hide Referrers;
    var os' := os[o := obj];
    forall x ensures Referrers(os', x) == if x == c then Referrers(os, c) + {o} else Referrers(os, x) {
      ReferrersNamed(os, o, obj, x);
    }
    NobodyNames(os, o);
  }

  lemma ReferrersForgotten(os: Objects, o: ObjectId, c: ObjectId, x: ObjectId)
    requires o in os && os[o].candidate == Some(c)
    ensures var r := Referrers(os[o := os[o].(candidate := None)], x);
            if x == c then r == Referrers(os, c) - {o} && |r| + 1 == |Referrers(os, c)| else r == Referrers(os, x)
  {
    assert o in Referrers(os, c);
    var r := Referrers(os[o := os[o].(candidate := None)], x);
    assert r == if x == c then Referrers(os, c) - {o} else Referrers(os, x);
  }

  /** An object forgets its candidate, which then counts more than name it. */
  lemma CandidateForgotten(os: Objects, o: ObjectId, c: ObjectId)
    requires Counted(os) && o in os && os[o].candidate == Some(c)
    ensures c in os && c != o && os[c].candidateCount > 0
    ensures var os' := os[o := os[o].(candidate := None)];
            Counted(os') && |Referrers(os', c)| < os[c].candidateCount
  {
    hide Referrers;
    var os' := os[o := os[o].(candidate := None)];
    forall x ensures Referrers(os', x) == if x == c then Referrers(os, c) - {o} else Referrers(os, x) {
      ReferrersForgotten(os, o, c, x);
    }
    ReferrersForgotten(os, o, c, c);
  }

  /** An object that is no candidate may go. */
  lemma CandidateGone(os: Objects, o: ObjectId)
    requires Counted(os) && o in os && os[o].candidateCount == 0
    ensures Counted(os - {o})
  {
    var os' := os - {o};
    assert Referrers(os, o) == {};
    forall x | x in os' ensures |Referrers(os', x)| <= os'[x].candidateCount {
      assert Referrers(os', x) <= Referrers(os, x);
      SubsetIsSmaller(Referrers(os', x), Referrers(os, x));
    }
    forall x | x in os' && os'[x].candidate.Some? ensures os'[x].candidate.value in os' {
      assert x !in Referrers(os, o);
    }
  }

  lemma SubsetIsSmaller<T>(a: set<T>, b: set<T>)
    requires a <= b
    ensures |a| <= |b|
  {
    if a != {} {
      var x :| x in a;
      SubsetIsSmaller(a - {x}, b - {x});
    }
  }

  /** Every handle is of a user in the list of the object it names. */
  lemma HandleIsListed(os: Objects, us: Users, hs: Handles, target: Option<UserId>, h: HandleId)
    requires Linked(os, us, hs) && Placed(us, hs) && Marked(us, target) && h in hs
    ensures hs[h].object_ in os && hs[h].user in us && hs[h].user in os[hs[h].object_].users
    ensures us[hs[h].user].handle == Some(h) && us[hs[h].user].of == Some(hs[h].object_)
  {
    assert us[hs[h].user].of.Some?;
  }

  function Consed(b: bool, o: ObjectId, s: seq<ObjectId>): seq<ObjectId> {
    if b then [o] + s else s
  }

  lemma ListsAdded(os: Objects, us: Users, hs: Handles, cached: seq<ObjectId>, uncached: seq<ObjectId>, o: ObjectId, obj: Object)
    requires Linked(os, us, hs) && Listed(os, cached, uncached) && (forall x :: x in os ==> x < o) && obj.users == []
    ensures Linked(os[o := obj], us, hs)
    ensures Listed(os[o := obj], Consed(obj.cached, o, cached), Consed(!obj.cached, o, uncached))
  {
    hide HandlesNamed;
    hide UsersNamed;
    hide Listed;
    ListedWithMore(os, cached, uncached, o, obj);
  }

  lemma ListedWithMore(os: Objects, cached: seq<ObjectId>, uncached: seq<ObjectId>, o: ObjectId, obj: Object)
    requires Listed(os, cached, uncached) && forall x :: x in os ==> x < o
    ensures Listed(os[o := obj], Consed(obj.cached, o, cached), Consed(!obj.cached, o, uncached))
  {
    assert ([o] + cached)[1..] == cached && ([o] + uncached)[1..] == uncached;
  }

  lemma ObjectAdded(os: Objects, us: Users, hs: Handles, cached: seq<ObjectId>, uncached: seq<ObjectId>, rules: Rules,
                    target: Option<UserId>, o: ObjectId, obj: Object)
    requires Inv(os, us, hs, cached, uncached, rules, target) && forall x :: x in os ==> x < o
    requires obj.users == [] && ObjectOk(obj, rules) && Counted(os[o := obj])
    ensures Inv(os[o := obj], us, hs, Consed(obj.cached, o, cached), Consed(!obj.cached, o, uncached), rules, target)
  {
    hide Linked;
    hide Counted;
    hide Delivered;
    hide ObjectsOk;
    hide Listed;
    hide Placed;
    hide Marked;
    hide ObjectOk;
    ListsAdded(os, us, hs, cached, uncached, o, obj);
    ObjectsOkIf(os, rules, o, obj);
    forall h | h in hs ensures hs[h].object_ != o {
      HandleIsListed(os, us, hs, target, h);
    }
    NobodysObject(os, hs, o, obj);
  }

  lemma NobodysObject(os: Objects, hs: Handles, o: ObjectId, obj: Object)
    requires Delivered(os, hs) && forall h :: h in hs ==> hs[h].object_ != o
    ensures Delivered(os[o := obj], hs)
  {
    hide DeliveredTo;
  }

  lemma ListsRemoved(os: Objects, us: Users, hs: Handles, cached: seq<ObjectId>, uncached: seq<ObjectId>, target: Option<UserId>, o: ObjectId)
    requires Linked(os, us, hs) && Marked(us, target) && Listed(os, cached, uncached) && o in os && os[o].users == []
    ensures Linked(os - {o}, us, hs)
    ensures Listed(os - {o}, if os[o].cached then Without(cached, o) else cached, if os[o].cached then uncached else Without(uncached, o))
  {
    hide HandlesNamed;
    hide UsersNamed;
    hide NoDup;
    hide Listed;
    ListedWithoutOne(os, cached, uncached, o);
  }

  lemma {:induction false} NewestFirstWithout(list: seq<ObjectId>, x: ObjectId)
    requires NewestFirst(list)
    ensures NewestFirst(Without(list, x))
  {
    if list != [] && list[0] != x {
      NewestFirstWithout(list[1..], x);
      assert ([list[0]] + Without(list[1..], x))[1..] == Without(list[1..], x);
    }
  }

  lemma ListedWithoutOne(os: Objects, cached: seq<ObjectId>, uncached: seq<ObjectId>, o: ObjectId)
    requires Listed(os, cached, uncached) && o in os
    ensures Listed(os - {o}, if os[o].cached then Without(cached, o) else cached, if os[o].cached then uncached else Without(uncached, o))
  {
    hide NoDup;
    hide Without;
    hide NewestFirst;
    NewestFirstWithout(cached, o);
    NewestFirstWithout(uncached, o);
  }

  lemma FewerObjects(os: Objects, hs: Handles, o: ObjectId, rules: Rules)
    requires Delivered(os, hs) && ObjectsOk(os, rules)
    ensures Delivered(os - {o}, hs) && ObjectsOk(os - {o}, rules)
  {
    hide DeliveredTo;
    hide ObjectOk;
  }

  /** An object with no users that is no candidate is taken off its list and destroyed. */
  lemma ObjectRemoved(os: Objects, us: Users, hs: Handles, cached: seq<ObjectId>, uncached: seq<ObjectId>, rules: Rules,
                      target: Option<UserId>, o: ObjectId)
    requires Inv(os, us, hs, cached, uncached, rules, target) && o in os
    requires os[o].users == [] && os[o].candidateCount == 0
    ensures Inv(os - {o}, us, hs, if os[o].cached then Without(cached, o) else cached,
                if os[o].cached then uncached else Without(uncached, o), rules, target)
  {
    hide Linked;
    hide Counted;
    hide Delivered;
    hide ObjectsOk;
    hide Listed;
    hide Placed;
    hide Marked;
    ListsRemoved(os, us, hs, cached, uncached, target, o);
    CandidateGone(os, o);
    FewerObjects(os, hs, o, rules);
  }

  /** The object gives its candidate up. */
  function Uncandidated(os: Objects, o: ObjectId): Objects
    requires o in os && os[o].candidate.Some? && os[o].candidate.value in os && os[o].candidate.value != o
    requires os[os[o].candidate.value].candidateCount > 0
  {
    var c := os[o].candidate.value;
    os[o := os[o].(candidate := None)][c := Recounted(os[c], os[c].candidateCount - 1)]
  }

  lemma LinkedIfLists(os: Objects, us: Users, hs: Handles, o: ObjectId, now: Object)
    requires Linked(os, us, hs) && o in os && now.users == os[o].users
    ensures Linked(os[o := now], us, hs)
  {
    hide HandlesNamed;
    hide UsersNamed;
  }

  /** An object changed but for its users and list; its candidate links are accounted for separately. */
  lemma CountsChanged(os: Objects, us: Users, hs: Handles, cached: seq<ObjectId>, uncached: seq<ObjectId>, rules: Rules,
                      target: Option<UserId>, o: ObjectId, now: Object)
    requires Inv(os, us, hs, cached, uncached, rules, target) && o in os
    requires now.users == os[o].users && now.cached == os[o].cached && ObjectOk(now, rules)
    requires forall h :: h in hs && hs[h].object_ == o ==> DeliveredTo(hs[h], now)
    requires Counted(os[o := now])
    ensures Inv(os[o := now], us, hs, cached, uncached, rules, target)
  {
    hide Linked;
    hide Counted;
    hide Delivered;
    hide ObjectsOk;
    hide Listed;
    hide Placed;
    hide Marked;
    hide DeliveredTo;
    hide ObjectOk;
    LinkedIfLists(os, us, hs, o, now);
    DeliveredIf(os, hs, o, now);
    ObjectsOkIf(os, rules, o, now);
    ListedIfSame(os, cached, uncached, o, now);
  }

  lemma NulledIsOk(o: Object, rules: Rules)
    requires ObjectOk(o, rules)
    ensures ObjectOk(o.(candidate := None), rules)
    ensures forall h: Handle :: DeliveredTo(h, o) ==> DeliveredTo(h, o.(candidate := None))
  {
    hide Sound;
  }

  lemma RecountedIsOk(o: Object, n: nat, rules: Rules)
    requires ObjectOk(o, rules) && n <= o.candidateCount
    ensures var now := Recounted(o, n); ObjectOk(now, rules) && now.users == o.users && now.cached == o.cached
    ensures forall h: Handle :: DeliveredTo(h, o) ==> DeliveredTo(h, Recounted(o, n))
  {
    hide Sound;
  }

  lemma CandidateNulled(os: Objects, us: Users, hs: Handles, cached: seq<ObjectId>, uncached: seq<ObjectId>, rules: Rules,
                        target: Option<UserId>, o: ObjectId)
    requires Inv(os, us, hs, cached, uncached, rules, target) && o in os && os[o].candidate.Some?
    requires Counted(os[o := os[o].(candidate := None)])
    ensures Inv(os[o := os[o].(candidate := None)], us, hs, cached, uncached, rules, target)
  {
    hide Linked;
    hide Counted;
    hide Delivered;
    hide ObjectsOk;
    hide Listed;
    hide Placed;
    hide Marked;
    hide ObjectOk;
    hide DeliveredTo;
    ObjectKnown(os, us, hs, cached, uncached, rules, target, o);
    NulledIsOk(os[o], rules);
    CountsChanged(os, us, hs, cached, uncached, rules, target, o, os[o].(candidate := None));
  }

  lemma CountLowered(os: Objects, us: Users, hs: Handles, cached: seq<ObjectId>, uncached: seq<ObjectId>, rules: Rules,
                     target: Option<UserId>, c: ObjectId, n: nat)
    requires Inv(os, us, hs, cached, uncached, rules, target) && c in os && |Referrers(os, c)| <= n <= os[c].candidateCount
    ensures Inv(os[c := Recounted(os[c], n)], us, hs, cached, uncached, rules, target)
  {
    hide Linked;
    hide Counted;
    hide Delivered;
    hide ObjectsOk;
    hide Listed;
    hide Placed;
    hide Marked;
    hide ObjectOk;
    hide DeliveredTo;
    hide Recounted;
    hide Referrers;
    ObjectKnown(os, us, hs, cached, uncached, rules, target, c);
    RecountedIsOk(os[c], n, rules);
    CountChanged(os, c, n);
    CountsChanged(os, us, hs, cached, uncached, rules, target, c, Recounted(os[c], n));
  }

  /** An object gives its candidate up, whose count was not zero. */
  lemma CandidateDropped(os: Objects, us: Users, hs: Handles, cached: seq<ObjectId>, uncached: seq<ObjectId>, rules: Rules,
                         target: Option<UserId>, o: ObjectId)
    requires Inv(os, us, hs, cached, uncached, rules, target) && o in os && os[o].candidate.Some?
    ensures os[o].candidate.value in os && os[o].candidate.value != o && os[os[o].candidate.value].candidateCount > 0
    ensures Inv(Uncandidated(os, o), us, hs, cached, uncached, rules, target)
  {
    hide Linked;
    hide Counted;
    hide Delivered;
    hide ObjectsOk;
    hide Listed;
    hide Placed;
    hide Marked;
    hide ObjectOk;
    hide DeliveredTo;
    var c := os[o].candidate.value;
    CandidateForgotten(os, o, c);
    CandidateNulled(os, us, hs, cached, uncached, rules, target, o);
    hide Inv;
    CountLowered(os[o := os[o].(candidate := None)], us, hs, cached, uncached, rules, target, c, os[c].candidateCount - 1);
  }

  /** What the invariant says of one object. */
  lemma ObjectKnown(os: Objects, us: Users, hs: Handles, cached: seq<ObjectId>, uncached: seq<ObjectId>, rules: Rules,
                    t: Option<UserId>, x: ObjectId)
    requires Inv(os, us, hs, cached, uncached, rules, t) && x in os
    ensures ObjectOk(os[x], rules) && |Referrers(os, x)| <= os[x].candidateCount
    ensures forall h :: h in hs && hs[h].object_ == x ==> DeliveredTo(hs[h], os[x])
    ensures os[x].cached ==> x in cached
    ensures os[x].users == [] ==> forall h :: h in hs ==> hs[h].object_ != x
  {
    hide ObjectOk;
    hide DeliveredTo;
    hide NoDup;
    assert Counted(os) && Delivered(os, hs) && ObjectsOk(os, rules) && Listed(os, cached, uncached);
    if os[x].users == [] {
      forall h | h in hs ensures hs[h].object_ != x {
        HandleIsListed(os, us, hs, t, h);
      }
    }
    hide Linked;
    hide Placed;
    hide Marked;
  }

  // ----- what clients may do while one of them is being called -----

  /** A client's own record of what it has been given is never altered by the calls it makes. */
  predicate SameProgress(a: Handle, b: Handle) {
    a.state == b.state && a.bytes == b.bytes && a.base == b.base && a.log == b.log && a.past == b.past
  }

  /** No client of the object has been told of headers yet. */
  ghost predicate Untouched(hs: Handles, o: ObjectId) {
    forall h :: h in hs && hs[h].object_ == o ==> Rank(hs[h].state) < 2
  }

  /** No client of the object has been told it is done. */
  ghost predicate Unfinished(hs: Handles, o: ObjectId) {
    forall h :: h in hs && hs[h].object_ == o ==> hs[h].state != Complete
  }

  /** No client of the object has been given any data. */
  ghost predicate Unread(hs: Handles, o: ObjectId) {
    forall h :: h in hs && hs[h].object_ == o ==> hs[h].bytes == 0
  }

  /** The clients of an object have got no further. */
  ghost predicate NoFurther(hs: Handles, hs': Handles, o: ObjectId) {
    && (Untouched(hs, o) ==> Untouched(hs', o)) && (Unfinished(hs, o) ==> Unfinished(hs', o))
    && (Unread(hs, o) ==> Unread(hs', o))
  }

  lemma NoFurtherOn(hs: Handles, hs1: Handles, hs2: Handles, o: ObjectId)
    requires NoFurther(hs, hs1, o) && NoFurther(hs1, hs2, o)
    ensures NoFurther(hs, hs2, o)
  {
  }

  lemma NoFurtherItself(hs: Handles, o: ObjectId)
    ensures NoFurther(hs, hs, o)
  {
  }

  /** As many attempts have been made, and are left. */
  predicate SameTries(a: Object, b: Object) {
    b.starts == a.starts && b.retries == a.retries && b.triedAuth == a.triedAuth && b.triedTls == a.triedTls
  }

  ghost predicate ObjectKept(a: Object, b: Object) {
    && b.source == a.source && (b.state == a.state || b.state == Complete)
    && b.candidate == a.candidate && (b.fetching ==> a.fetching) && (b.expiry == a.expiry || b.expiry == 0)
    && b.onDisc == a.onDisc && b.redirects == a.redirects && (a.answered ==> b.answered) && b.cached == a.cached
    && b.url == a.url && b.hsts == a.hsts && b.certs == a.certs && SameTries(a, b)
  }

  /** The user being notified stays where it is, and nobody joins the list behind it. */
  ghost predicate TargetKept(os: Objects, us: Users, hs: Handles, next: nat, os': Objects, us': Users, hs': Handles, u: UserId) {
    u in us && us[u].of.Some? && us[u].of.value in os ==>
      var o := us[u].of.value;
      && u in us' && us'[u].of == us[u].of && us'[u].target == us[u].target && (us[u].queued ==> us'[u].queued)
      && (us'[u].handle.Some? ==> us'[u].handle == us[u].handle)
      && o in os' && ObjectKept(os[o], os'[o])
      && |After(os'[o].users, u)| <= |After(os[o].users, u)|
      && (forall x :: x in After(os'[o].users, u) ==> x in After(os[o].users, u))
      && (forall x :: x in After(os[o].users, u) && x in os'[o].users ==> x in After(os'[o].users, u))
      && (forall x :: x in os'[o].users ==> x in os[o].users || x >= next)
      && NoFurther(hs, hs', o)
  }

  /** Keys in use are below the next to be handed out: a freed key is never seen again. */
  ghost predicate Numbered(os: Objects, us: Users, hs: Handles, next: nat) {
    && (forall o :: o in os ==> o < next) && (forall u :: u in us ==> u < next) && (forall h :: h in hs ==> h < next)
  }

  /** Those still on an object, but for newcomers, were there before; and the object is as it was for them, or finished. */
  ghost predicate Followed(os: Objects, next: nat, os': Objects) {
    && (forall o :: o in os' ==> o in os || o >= next)
    && (forall o, x :: o in os && o in os' && x in os'[o].users ==> x >= next || (x in os[o].users && ObjectKept(os[o], os'[o])))
  }

  lemma FollowedOn(os: Objects, next: nat, os1: Objects, next1: nat, os2: Objects)
    requires Followed(os, next, os1) && Followed(os1, next1, os2) && next <= next1 && forall o :: o in os ==> o < next
    ensures Followed(os, next, os2)
  {
  }

  ghost predicate Kept(os: Objects, us: Users, hs: Handles, next: nat, os': Objects, us': Users, hs': Handles, next': nat,
                       t: Option<UserId>)
  {
    && next <= next' && Followed(os, next, os')
    && (forall h :: h in hs' ==> h in hs || h >= next) && (forall x :: x in us' ==> x in us || x >= next)
    && (forall h :: h in hs && h in hs' ==> SameProgress(hs[h], hs'[h]))
    && (forall x :: x in us && x in us' && Some(x) != t ==> us'[x].handle == us[x].handle)
    && (t.Some? ==> TargetKept(os, us, hs, next, os', us', hs', t.value))
  }

  /** Users in a list have keys below the next. */
  ghost predicate ListNumbered(os: Objects, us: Users, next: nat, u: UserId) {
    u in us && us[u].of.Some? && us[u].of.value in os ==> forall x :: x in os[us[u].of.value].users ==> x < next
  }

  lemma TargetKeptOn(os: Objects, us: Users, hs: Handles, next: nat, os1: Objects, us1: Users, hs1: Handles, next1: nat,
                     os2: Objects, us2: Users, hs2: Handles, u: UserId)
    requires next <= next1 && ListNumbered(os, us, next, u)
    requires TargetKept(os, us, hs, next, os1, us1, hs1, u) && TargetKept(os1, us1, hs1, next1, os2, us2, hs2, u)
    ensures TargetKept(os, us, hs, next, os2, us2, hs2, u)
  {
    hide NoFurther;
    if u in us && us[u].of.Some? && us[u].of.value in os {
      var o := us[u].of.value;
      NoFurtherOn(hs, hs1, hs2, o);
      forall x | x in After(os[o].users, u) && x in os2[o].users ensures x in After(os2[o].users, u) {
        assert x in os[o].users && x < next;
        assert x in os1[o].users;
      }
    }
    hide After;
  }

  /** What one call keeps and the next keeps, both keep. */
  lemma KeptOn(os: Objects, us: Users, hs: Handles, next: nat, os1: Objects, us1: Users, hs1: Handles, next1: nat,
               os2: Objects, us2: Users, hs2: Handles, next2: nat, t: Option<UserId>)
    requires Numbered(os, us, hs, next) && Numbered(os1, us1, hs1, next1)
    requires t.Some? ==> ListNumbered(os, us, next, t.value)
    requires Kept(os, us, hs, next, os1, us1, hs1, next1, t) && Kept(os1, us1, hs1, next1, os2, us2, hs2, next2, t)
    ensures Kept(os, us, hs, next, os2, us2, hs2, next2, t)
  {
    hide TargetKept;
    hide ListNumbered;
    hide Followed;
    FollowedOn(os, next, os1, next1, os2);
    if t.Some? {
      TargetKeptOn(os, us, hs, next, os1, us1, hs1, next1, os2, us2, hs2, t.value);
    }
  }

  lemma {:induction false} AfterWithout<T>(s: seq<T>, x: T, u: T)
    requires NoDup(s) && x != u
    ensures |After(Without(s, x), u)| <= |After(s, u)|
    ensures forall y :: y in After(Without(s, x), u) ==> y in After(s, u)
    ensures forall y :: y in After(s, u) && y != x ==> y in After(Without(s, x), u)
  {
    if s != [] && s[0] != x {
      assert ([s[0]] + Without(s[1..], x))[1..] == Without(s[1..], x);
      if s[0] != u {
        AfterWithout(s[1..], x, u);
      }
    } else if s != [] {
      assert s[0] != u;
    }
  }

  lemma AfterHead<T>(s: seq<T>, n: T, u: T)
    requires n != u
    ensures After([n] + s, u) == After(s, u)
  {
    assert ([n] + s)[1..] == s;
  }

  lemma OneUserPerHandle(os: Objects, us: Users, hs: Handles, o: ObjectId, h: HandleId)
    requires ListsAttach(os, us) && HandlesNamed(us, hs) && o in os && h in hs
    ensures forall u :: u in os[o].users ==> u in us && us[u].of == Some(o) && (us[u].handle == Some(h) ==> u == hs[h].user)
  {
  }

  /** What a client may rely on about the handle it holds. */
  ghost predicate Known(os: Objects, us: Users, hs: Handles, rules: Rules, t: Option<UserId>, h: HandleId) {
    && h in hs && hs[h].object_ in os && hs[h].user in us && hs[h].user in os[hs[h].object_].users
    && us[hs[h].user].handle == Some(h) && us[hs[h].user].of == Some(hs[h].object_)
    && (forall u :: u in os[hs[h].object_].users ==> u in us && (us[u].handle == Some(h) ==> u == hs[h].user))
    && (us[hs[h].user].target ==> t == Some(hs[h].user))
    && (us[hs[h].user].queued ==> us[hs[h].user].target)
    && NoDup(os[hs[h].object_].users)
    && DeliveredTo(hs[h], os[hs[h].object_]) && ObjectOk(os[hs[h].object_], rules)
  }

  lemma HandleKnown(os: Objects, us: Users, hs: Handles, cached: seq<ObjectId>, uncached: seq<ObjectId>, rules: Rules,
                    t: Option<UserId>, h: HandleId)
    requires Inv(os, us, hs, cached, uncached, rules, t) && h in hs
    ensures Known(os, us, hs, rules, t, h)
  {
    hide Counted;
    hide Listed;
    hide DeliveredTo;
    hide ObjectOk;
    hide NoDup;
    HandleIsListed(os, us, hs, t, h);
    OneUserPerHandle(os, us, hs, hs[h].object_, h);
    assert Delivered(os, hs) && ObjectsOk(os, rules) && Marked(us, t) && NoRepeats(os);
    hide AttachedAreListed;
    hide ListsAttach;
    hide HandlesNamed;
    hide UsersNamed;
    hide Placed;
  }
}
