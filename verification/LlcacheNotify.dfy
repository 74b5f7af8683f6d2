/**
 Telling one user at a time what its object has come to, while the client told
 may make any calls it likes before it answers. From one user to the next, those
 still to be told are those that were, but for any that have left; in the end all
 who were there and still are have been told all there was to tell.
 */
module LlcacheNotify {
  import opened Common
  import opened LlcacheCalls
  import opened LlcacheState

  /** A handle that has been told more, never less and never something else. */
  predicate Advanced(a: Handle, b: Handle) {
    Rank(a.state) <= Rank(b.state) && a.bytes <= b.bytes && a.base == b.base && a.log <= b.log && a.past == b.past
  }

  ghost predicate KeysKept(a: Cache, b: Cache) {
    && a.next <= b.next
    && (forall h :: h in b.hs ==> h in a.hs || h >= a.next) && (forall x :: x in b.us ==> x in a.us || x >= a.next)
  }

  /** Clients have been told more, never less and never something else. */
  ghost predicate Advances(a: Cache, b: Cache) {
    KeysKept(a, b) && forall h :: h in a.hs && h in b.hs ==> Advanced(a.hs[h], b.hs[h])
  }

  lemma AdvancesOn(a: Cache, b: Cache, c: Cache)
    requires Numbered(a.os, a.us, a.hs, a.next) && Advances(a, b) && Advances(b, c)
    ensures Advances(a, c)
  {
  }

  /** Nobody but the user being notified has been told anything. */
  ghost predicate OnlyTold(a: Cache, b: Cache, u: UserId) {
    && u in a.us
    && (forall h :: h in a.hs && h in b.hs && a.us[u].handle != Some(h) ==> SameProgress(a.hs[h], b.hs[h]))
    && (forall h :: h in a.hs && h in b.hs && a.us[u].handle == Some(h) ==> Advanced(a.hs[h], b.hs[h]))
    && (forall x :: x in a.us && x in b.us && x != u ==> b.us[x].handle == a.us[x].handle)
  }

  /** Those behind a user in its list: some may have left, nobody has joined. */
  ghost predicate BehindKept(was: seq<UserId>, now: seq<UserId>, u: UserId, next: nat) {
    && |After(now, u)| <= |After(was, u)|
    && (forall x :: x in After(now, u) ==> x in After(was, u))
    && (forall x :: x in After(was, u) && x in now ==> x in After(now, u))
    && (forall x :: x in now ==> x in was || x >= next)
  }

  /** User `u` of object `o` is being notified, since the cache was in state `a`. */
  ghost predicate Going(a: Cache, b: Cache, o: ObjectId, u: UserId) {
    && KeysKept(a, b) && OnlyTold(a, b, u) && Followed(a.os, a.next, b.os)
    && o in a.os && o in b.os && ObjectKept(a.os[o], b.os[o])
    && a.us[u].handle.Some? && a.us[u].of == Some(o)
    && u in b.us && b.us[u].of == Some(o) && b.us[u].target
    && (b.us[u].handle.Some? ==> b.us[u].handle == a.us[u].handle)
    && BehindKept(a.os[o].users, b.os[o].users, u, a.next)
  }

  lemma BehindKeptOn(l0: seq<UserId>, l1: seq<UserId>, l2: seq<UserId>, u: UserId, n0: nat, n1: nat)
    requires BehindKept(l0, l1, u, n0) && BehindKept(l1, l2, u, n1) && n0 <= n1
    requires forall x :: x in l0 ==> x < n0
    ensures BehindKept(l0, l2, u, n0)
  {
    forall x | x in After(l0, u) && x in l2 ensures x in After(l2, u) {
      assert x in l0 && x in l1;
    }
  }

  /** A client's calls leave it so. */
  lemma GoingOn(a: Cache, b: Cache, c: Cache, o: ObjectId, u: UserId)
    requires Going(a, b, o, u) && Keeps(b, c, Some(u)) && ListNumbered(a.os, a.us, a.next, u)
    requires Numbered(a.os, a.us, a.hs, a.next)
    ensures Going(a, c, o, u)
    ensures c.us[u].handle.Some? ==> b.us[u].handle == c.us[u].handle
    ensures b.us[u].queued ==> c.us[u].queued
  {
    hide BehindKept;
    hide After;
    hide NoFurther;
    hide Followed;
    GoingLists(a, b, c, o, u);
    FollowedOn(a.os, a.next, b.os, b.next, c.os);
  }

  lemma GoingLists(a: Cache, b: Cache, c: Cache, o: ObjectId, u: UserId)
    requires Going(a, b, o, u) && Keeps(b, c, Some(u)) && ListNumbered(a.os, a.us, a.next, u)
    ensures o in c.os && BehindKept(a.os[o].users, c.os[o].users, u, a.next)
  {
    hide After;
    hide NoFurther;
    hide Followed;
    hide ObjectKept;
    BehindKeptOn(a.os[o].users, b.os[o].users, c.os[o].users, u, a.next, b.next);
  }

  // ----- marking, telling, and letting go of the user -----

  ghost function WithUser(a: Cache, u: UserId, now: User): Cache {
    a.(us := a.us[u := now])
  }

  ghost function WithHandle(a: Cache, h: HandleId, now: Handle): Cache {
    a.(hs := a.hs[h := now])
  }

  ghost function Dropped(a: Cache, o: ObjectId, u: UserId): Cache
    requires o in a.os && u in a.us
  {
    a.(os := a.os[o := WithUsers(a.os[o], Without(a.os[o].users, u))], us := a.us - {u}, hs := Handleless(a.hs, a.us[u].handle))
  }

  lemma Marking(a: Cache, rules: Rules, u: UserId)
    requires Sane(a, rules, None) && u in a.us
    ensures Sane(WithUser(a, u, a.us[u].(target := true)), rules, Some(u))
    ensures a.us[u].handle.Some? && !a.us[u].queued && !a.us[u].target
  {
    hide Linked;
    hide Placed;
    hide Delivered;
    hide ObjectsOk;
    hide Counted;
    hide Listed;
    assert Marked(a.us, None);
    var now := a.us[u].(target := true);
    assert Marked(a.us[u := now], Some(u));
    hide Marked;
    UserMarked(a.os, a.us, a.hs, a.cached, a.uncached, rules, None, u, now, Some(u));
    assert Numbered(a.os, a.us[u := now], a.hs, a.next);
  }

  lemma Unmarking(a: Cache, rules: Rules, u: UserId)
    requires Sane(a, rules, Some(u)) && u in a.us && !a.us[u].queued
    ensures Sane(WithUser(a, u, a.us[u].(target := false)), rules, None)
  {
    hide Linked;
    hide Placed;
    hide Delivered;
    hide ObjectsOk;
    hide Counted;
    hide Listed;
    assert Marked(a.us, Some(u));
    var now := a.us[u].(target := false);
    assert Marked(a.us[u := now], None);
    hide Marked;
    UserMarked(a.os, a.us, a.hs, a.cached, a.uncached, rules, Some(u), u, now, None);
    assert Numbered(a.os, a.us[u := now], a.hs, a.next);
  }

  lemma HandlelessKeys(hs: Handles, h: Option<HandleId>)
    ensures Handleless(hs, h).Keys <= hs.Keys
  {
  }

  lemma Dropping(a: Cache, rules: Rules, o: ObjectId, u: UserId)
    requires Sane(a, rules, Some(u)) && o in a.os && u in a.os[o].users
    ensures u in a.us && NoDup(a.os[o].users) && Sane(Dropped(a, o, u), rules, None)
  {
    hide Inv;
    hide Numbered;
    hide Handleless;
    ListedFacts(a, rules, Some(u), o, u);
    UserDropped(a.os, a.us, a.hs, a.cached, a.uncached, rules, Some(u), o, u);
    HandlelessKeys(a.hs, a.us[u].handle);
    NumberedOn(a.os, a.us, a.hs, a.next, Dropped(a, o, u).os, Dropped(a, o, u).us, Dropped(a, o, u).hs);
  }

  /** What the invariant says of a user in a list. */
  lemma ListedFacts(a: Cache, rules: Rules, t: Option<UserId>, o: ObjectId, u: UserId)
    requires Sane(a, rules, t) && o in a.os && u in a.os[o].users
    ensures u in a.us && a.us[u].of == Some(o) && NoDup(a.os[o].users)
    ensures a.us[u].handle.Some? ==>
      var h := a.us[u].handle.value;
      h in a.hs && a.hs[h].user == u && a.hs[h].object_ == o && DeliveredTo(a.hs[h], a.os[o])
    ensures t != Some(u) ==> a.us[u].handle.Some? && !a.us[u].target && !a.us[u].queued
    ensures a.us[u].handle.None? ==> a.us[u].queued
    ensures ObjectOk(a.os[o], rules)
  {
    hide Counted;
    hide Listed;
    hide DeliveredTo;
    hide ObjectOk;
    hide NoDup;
    hide AttachedAreListed;
  }

  lemma Telling(a: Cache, rules: Rules, t: Option<UserId>, h: HandleId, now: Handle)
    requires Sane(a, rules, t) && h in a.hs && now.object_ == a.hs[h].object_ && now.user == a.hs[h].user
    requires now.past == a.hs[h].past && now.object_ in a.os && DeliveredTo(now, a.os[now.object_])
    ensures Sane(WithHandle(a, h, now), rules, t)
  {
    hide Inv;
    hide DeliveredTo;
    HandleChanged(a.os, a.us, a.hs, a.cached, a.uncached, rules, t, h, now);
    assert Numbered(a.os, a.us, a.hs[h := now], a.next);
  }

  // ----- from one user to the next -----

  /** The users from one on. */
  ghost function Rest(list: seq<UserId>, u: Option<UserId>): seq<UserId> {
    if u.None? then [] else [u.value] + After(list, u.value)
  }

  function First(s: seq<UserId>): Option<UserId> {
    if s == [] then None else Some(s[0])
  }

  lemma {:induction false} RestIsAfter(list: seq<UserId>, u: UserId)
    requires NoDup(list) && u in list
    ensures Rest(list, First(After(list, u))) == After(list, u)
    ensures Rest(Without(list, u), First(After(list, u))) == After(list, u)
    ensures First(After(list, u)).Some? ==> First(After(list, u)).value in Without(list, u)
  {
    var n := First(After(list, u));
    if list[0] == u {
      assert n.Some? ==> list[1..] == [n.value] + list[1..][1..];
      if n.Some? {
        assert After(list, n.value) == After(list[1..], n.value) == list[1..][1..];
      }
    } else {
      RestIsAfter(list[1..], u);
      if n.Some? {
        assert n.value in list[1..] && list[0] != n.value;
        assert ([list[0]] + Without(list[1..], u))[1..] == Without(list[1..], u);
      }
    }
  }

  /** The users still to be notified after `u` are those that were, but for any that have left. */
  ghost predicate RestKept(was: seq<UserId>, u: UserId, now: seq<UserId>, n: Option<UserId>, next: nat) {
    && (n.Some? ==> n.value in now)
    && |Rest(now, n)| <= |After(was, u)|
    && (forall x :: x in Rest(now, n) ==> x in After(was, u))
    && (forall x :: x in After(was, u) && x in now ==> x in Rest(now, n))
    && (forall x :: x in now ==> x in was || x >= next)
  }

  /** User `u` of object `o` has been notified; `n` is the next. */
  ghost predicate Notified(a: Cache, b: Cache, o: ObjectId, u: UserId, n: Option<UserId>) {
    && KeysKept(a, b) && OnlyTold(a, b, u) && Followed(a.os, a.next, b.os)
    && o in a.os && o in b.os && ObjectKept(a.os[o], b.os[o])
    && RestKept(a.os[o].users, u, b.os[o].users, n, a.next)
  }

  lemma StartGoing(a: Cache, rules: Rules, o: ObjectId, u: UserId)
    requires Sane(a, rules, None) && o in a.os && u in a.os[o].users
    ensures u in a.us && Going(a, WithUser(a, u, a.us[u].(target := true)), o, u)
  {
    hide Inv;
    hide Numbered;
    hide After;
    ListedFacts(a, rules, None, o, u);
  }

  lemma GoingTold(a: Cache, b: Cache, o: ObjectId, u: UserId, h: HandleId, now: Handle)
    requires Going(a, b, o, u) && h in a.hs && h in b.hs && a.us[u].handle == Some(h) && Advanced(a.hs[h], now)
    ensures Going(a, WithHandle(b, h, now), o, u)
  {
    hide After;
    hide BehindKept;
  }

  lemma RestIsKept(was: seq<UserId>, now: seq<UserId>, u: UserId, next: nat)
    requires BehindKept(was, now, u, next) && NoDup(now) && u in now
    ensures RestKept(was, u, now, First(After(now, u)), next)
    ensures RestKept(was, u, Without(now, u), First(After(now, u)), next)
  {
    RestIsAfter(now, u);
    AfterIsWithin(now, u);
    hide After;
    hide Without;
    hide NoDup;
    hide Rest;
    hide First;
  }

  lemma LetGo(a: Cache, b: Cache, o: ObjectId, u: UserId, n: Option<UserId>)
    requires Going(a, b, o, u) && RestKept(a.os[o].users, u, b.os[o].users, n, a.next)
    ensures Notified(a, WithUser(b, u, b.us[u].(target := false)), o, u, n)
  {
    hide RestKept;
    hide BehindKept;
  }

  lemma LetDrop(a: Cache, b: Cache, o: ObjectId, u: UserId, n: Option<UserId>)
    requires Going(a, b, o, u) && RestKept(a.os[o].users, u, Without(b.os[o].users, u), n, a.next)
    ensures Notified(a, Dropped(b, o, u), o, u, n)
  {
    hide RestKept;
    hide BehindKept;
    hide Without;
  }

  /** Whether the user is let go or dropped, the next is the one now behind it. */
  lemma GoneOn(a: Cache, b: Cache, rules: Rules, o: ObjectId, u: UserId)
    requires Going(a, b, o, u) && Sane(b, rules, Some(u))
    ensures o in b.os && u in b.us && u in b.os[o].users && NoDup(b.os[o].users)
    ensures Notified(a, WithUser(b, u, b.us[u].(target := false)), o, u, First(After(b.os[o].users, u)))
    ensures Notified(a, Dropped(b, o, u), o, u, First(After(b.os[o].users, u)))
  {
    hide Sane;
    hide After;
    hide NoDup;
    hide Without;
    hide RestKept;
    hide First;
    hide DeliveredTo;
    hide ObjectOk;
    hide Notified;
    hide Dropped;
    UserListed(b, rules, o, u);
    ListedFacts(b, rules, Some(u), o, u);
    hide BehindKept;
    RestIsKept(a.os[o].users, b.os[o].users, u, a.next);
    var n := First(After(b.os[o].users, u));
    LetGo(a, b, o, u, n);
    LetDrop(a, b, o, u, n);
  }

  lemma UserListed(b: Cache, rules: Rules, o: ObjectId, u: UserId)
    requires Sane(b, rules, Some(u)) && u in b.us && b.us[u].of == Some(o)
    ensures o in b.os && u in b.os[o].users
  {
    hide Placed;
    hide Marked;
    hide Delivered;
    hide ObjectsOk;
    hide Counted;
    hide Listed;
    hide HandlesNamed;
    hide UsersNamed;
    hide NoRepeats;
    hide ListsAttach;
  }

  lemma AfterIsWithin(list: seq<UserId>, u: UserId)
    ensures First(After(list, u)).Some? ==> First(After(list, u)).value in list
  {
  }

  // ----- the handle of the user being notified -----

  /** What holds of the user and its handle while it is told one thing after another. */
  ghost predicate Telling1(a: Cache, b: Cache, rules: Rules, o: ObjectId, u: UserId, h: HandleId) {
    && Sane(b, rules, Some(u)) && Going(a, b, o, u) && Numbered(a.os, a.us, a.hs, a.next) && ListNumbered(a.os, a.us, a.next, u)
    && h in a.hs && a.us[u].handle == Some(h) && ObjectOk(a.os[o], rules)
    && b.us[u] == User(Some(o), Some(h), true, false)
    && h in b.hs && b.hs[h].object_ == o && b.hs[h].user == u && DeliveredTo(b.hs[h], b.os[o])
  }

  lemma StillDelivered(undo: Handle, was: Object, now: Object)
    requires DeliveredTo(undo, was) && undo.state != Complete && ObjectKept(was, now)
    ensures DeliveredTo(undo, now)
  {
  }

  lemma TellingStarts(a: Cache, rules: Rules, o: ObjectId, u: UserId)
    requires Sane(a, rules, None) && o in a.os && u in a.os[o].users
    ensures u in a.us && a.us[u].handle.Some?
    ensures Telling1(a, WithUser(a, u, a.us[u].(target := true)), rules, o, u, a.us[u].handle.value)
  {
    ListedFacts(a, rules, None, o, u);
    Marking(a, rules, u);
    StartGoing(a, rules, o, u);
    ListsAreNumbered(a, rules, None, u);
    hide Inv;
    hide Going;
    hide DeliveredTo;
    hide ObjectOk;
    hide NoDup;
  }

  lemma TellingTold(a: Cache, b: Cache, rules: Rules, o: ObjectId, u: UserId, h: HandleId, now: Handle)
    requires Telling1(a, b, rules, o, u, h)
    requires now.object_ == o && now.user == u && DeliveredTo(now, b.os[o]) && Advanced(a.hs[h], now)
    ensures Telling1(a, WithHandle(b, h, now), rules, o, u, h)
  {
    hide Sane;
    hide DeliveredTo;
    Telling(b, rules, Some(u), h, now);
    GoingTold(a, b, o, u, h, now);
    assert Going(a, b, o, u);
    hide Going;
    hide ListNumbered;
    hide Numbered;
  }

  /** The client has made its calls: either its user is to go, or all is as before. */
  lemma TellingCalled(a: Cache, b: Cache, c: Cache, rules: Rules, o: ObjectId, u: UserId, h: HandleId)
    requires Telling1(a, b, rules, o, u, h) && Keeps(b, c, Some(u)) && Sane(c, rules, Some(u))
    ensures Going(a, c, o, u) && o in c.os && u in c.os[o].users && NoDup(c.os[o].users) && u in c.us
    ensures !c.us[u].queued ==> Telling1(a, c, rules, o, u, h) && SameProgress(b.hs[h], c.hs[h]) && ObjectKept(b.os[o], c.os[o])
  {
    hide Sane;
    hide DeliveredTo;
    GoingOn(a, b, c, o, u);
    UserListed(c, rules, o, u);
    ListedFacts(c, rules, Some(u), o, u);
    hide ObjectOk;
    hide NoDup;
    hide ListNumbered;
    hide Numbered;
    hide After;
    hide Untouched;
    hide BehindKept;
  }

  /** A state the handle may be put back to: no less than it had been told before, and true of the object. */
  ghost predicate Undoable(a: Cache, b: Cache, o: ObjectId, h: HandleId, undo: Handle) {
    h in a.hs && o in b.os && Advanced(a.hs[h], undo) && DeliveredTo(undo, b.os[o])
  }

  lemma StillUndoable(a: Cache, b: Cache, c: Cache, o: ObjectId, h: HandleId, undo: Handle)
    requires Undoable(a, b, o, h, undo) && o in c.os && ObjectKept(b.os[o], c.os[o]) && undo.state != Complete
    ensures Undoable(a, c, o, h, undo)
  {
    StillDelivered(undo, b.os[o], c.os[o]);
  }

  /** The handle and the object's source are as they were before the call. */
  ghost predicate ToldSame(b: Cache, c: Cache, o: ObjectId, h: HandleId) {
    && h in b.hs && h in c.hs && SameProgress(b.hs[h], c.hs[h])
    && o in b.os && o in c.os && ObjectKept(b.os[o], c.os[o])
  }

  ghost predicate IsGone(c: Cache, o: ObjectId, u: UserId) {
    o in c.os && u !in c.os[o].users
  }

  // ----- the four things a user may be told -----

  /** A handle told one thing more. */
  function Told(h: Handle, o: Object): Handle {
    match h.state
    case Init => h.(state := Headers)
    case Headers => h.(state := Data, log := h.log + [HadHeaders])
    case Data =>
      if h.bytes < |o.source| then h.(bytes := |o.source|, log := h.log + [HadData(o.source[h.bytes..])])
      else h.(state := Complete, log := h.log + [Done])
    case Complete => h
  }

  /** Whether an object that was in state `s` has something to tell a handle. */
  predicate Owed(h: Handle, s: FetchState, o: Object) {
    match h.state
    case Init => Rank(s) > 0
    case Headers => Rank(s) > 1
    case Data => Rank(s) > 2 || (Rank(s) > 1 && h.bytes < |o.source|)
    case Complete => false
  }

  lemma ToldIsSound(h: Handle, o: Object)
    requires Tallied(h) && h.state != Complete
    ensures Tallied(Told(h, o)) && (Sound(h, o.source) ==> Sound(Told(h, o), o.source))
  {
    match h.state
    case Init =>
    case Headers => GiveHeaders(h);
    case Data =>
      if h.bytes < |o.source| {
        GiveData(h, o.source);
      } else {
        GiveDone(h, o.source);
      }
  }

  lemma ToldAdvances(h: Handle, o: Object)
    ensures Advanced(h, Told(h, o)) && Told(h, o).bytes >= h.bytes
  {
  }

  lemma ToldState(h: Handle, s: FetchState, o: Object)
    requires Owed(h, s, o)
    ensures Told(h, o).state == Complete ==> s == Complete
    ensures Rank(Told(h, o).state) >= 2 ==> Rank(s) >= 2
  {
  }

  lemma ToldIsDelivered(h: Handle, s: FetchState, was: Object, now: Object, rules: Rules)
    requires DeliveredTo(h, now) && Owed(h, s, now) && s == was.state && ObjectKept(was, now)
    requires ObjectOk(was, rules) && ObjectOk(now, rules)
    ensures DeliveredTo(Told(h, now), now) && Advanced(h, Told(h, now))
    ensures h.state == Data && h.bytes < |now.source| && now.users != [] ==> now.hasData
  {
    hide Sound;
    hide Tallied;
    hide Bounded;
    hide Told;
    hide Owed;
    OwedIsUnfinished(h, s, now);
    ToldIsSound(h, now);
    ToldAdvances(h, now);
    ToldState(h, s, now);
  }

  lemma OwedIsUnfinished(h: Handle, s: FetchState, o: Object)
    requires Owed(h, s, o)
    ensures h.state != Complete
  {
  }

  /** What is known of the handle and object while a user is being told things. */
  ghost predicate Facts(a: Cache, b: Cache, rules: Rules, o: ObjectId, u: UserId, h: HandleId) {
    && h in a.hs && h in b.hs && o in a.os && o in b.os && u in b.os[o].users && u in b.us
    && Advanced(a.hs[h], b.hs[h]) && ObjectKept(a.os[o], b.os[o]) && DeliveredTo(b.hs[h], b.os[o])
    && ObjectOk(a.os[o], rules) && ObjectOk(b.os[o], rules)
    && b.hs[h].object_ == o && b.hs[h].user == u && b.us[u] == User(Some(o), Some(h), true, false)
  }

  lemma TellingFacts(a: Cache, b: Cache, rules: Rules, o: ObjectId, u: UserId, h: HandleId)
    requires Telling1(a, b, rules, o, u, h)
    ensures Facts(a, b, rules, o, u, h)
  {
    UserListed(b, rules, o, u);
    SaneObject(b, rules, Some(u), o);
    hide Sane;
    hide BehindKept;
    hide ListNumbered;
    hide Numbered;
    hide KeysKept;
    hide DeliveredTo;
    hide ObjectOk;
    hide ObjectKept;
    hide Advanced;
  }

  /** Telling the next thing leaves the notification sound, and the handle able to be put back. */
  lemma Tell(a: Cache, b: Cache, rules: Rules, o: ObjectId, u: UserId, h: HandleId)
    requires Telling1(a, b, rules, o, u, h) && Facts(a, b, rules, o, u, h)
    requires Owed(b.hs[h], a.os[o].state, b.os[o])
    ensures Telling1(a, WithHandle(b, h, Told(b.hs[h], b.os[o])), rules, o, u, h)
    ensures Undoable(a, b, o, h, b.hs[h]) && Undoable(a, b, o, h, Told(b.hs[h], b.os[o]))
    ensures b.hs[h].state == Data && b.hs[h].bytes < |b.os[o].source| ==> b.os[o].hasData
  {
    hide Telling1;
    hide DeliveredTo;
    hide ObjectOk;
    hide ObjectKept;
    hide Owed;
    ToldIsDelivered(b.hs[h], a.os[o].state, a.os[o], b.os[o], rules);
    ToldInPlace(b.hs[h], b.os[o]);
    hide Told;
    TellingTold(a, b, rules, o, u, h, Told(b.hs[h], b.os[o]));
  }

  lemma ToldInPlace(h: Handle, o: Object)
    ensures Told(h, o).object_ == h.object_ && Told(h, o).user == h.user
  {
  }

  /** User `u` of object `o` has been told all an object in state `s` has to tell. */
  ghost predicate UserCaughtUp(c: Cache, o: ObjectId, u: UserId, s: FetchState) {
    && o in c.os && u in c.us && c.us[u].handle.Some? && c.us[u].handle.value in c.hs
    && CaughtUp(c.hs[c.us[u].handle.value], s, c.os[o].source)
  }

  lemma NothingOwed(a: Cache, b: Cache, rules: Rules, o: ObjectId, u: UserId, h: HandleId)
    requires Facts(a, b, rules, o, u, h) && !Owed(b.hs[h], a.os[o].state, b.os[o])
    ensures UserCaughtUp(b, o, u, a.os[o].state)
  {
    hide ObjectOk;
  }

  /** The first `k` of the four things have been told, if they were due. */
  ghost predicate Past(k: nat, b: Cache, o: ObjectId, h: HandleId, s: FetchState) {
    && h in b.hs && o in b.os
    && (k >= 1 && Rank(s) > 0 ==> b.hs[h].state != Init)
    && (k >= 2 && Rank(s) > 1 ==> Rank(b.hs[h].state) >= 2)
    && (k >= 3 && Rank(s) > 1 && b.hs[h].state == Data ==> b.hs[h].bytes >= |b.os[o].source|)
    && (k >= 4 && Rank(s) > 2 ==> b.hs[h].state == Complete)
  }

  lemma PastAll(a: Cache, b: Cache, rules: Rules, o: ObjectId, u: UserId, h: HandleId)
    requires Telling1(a, b, rules, o, u, h) && o in a.os && Past(4, b, o, h, a.os[o].state)
    ensures UserCaughtUp(b, o, u, a.os[o].state)
  {
    TellingFacts(a, b, rules, o, u, h);
    hide Telling1;
    hide DeliveredTo;
    NothingOwed(a, b, rules, o, u, h);
  }

  // ----- all the users of an object -----

  /** Of the users there were, those still there have been told all there was to tell. */
  ghost predicate AllCaughtUp(a: Cache, b: Cache, o: ObjectId) {
    && o in a.os && o in b.os
    && forall x :: x in a.os[o].users && x in b.os[o].users ==> UserCaughtUp(b, o, x, a.os[o].state)
  }

  /** A user that was on an object and is still. */
  ghost predicate Still(a: Cache, b: Cache, o: ObjectId, x: UserId) {
    o in a.os && o in b.os && x in a.os[o].users && x in b.os[o].users
  }

  /** Users of other objects, if still there, are as far caught up as they were. */
  ghost predicate OthersCaughtUp(a: Cache, b: Cache, o: ObjectId) {
    forall p, x, s :: p != o && Still(a, b, p, x) && UserCaughtUp(a, p, x, s) ==> UserCaughtUp(b, p, x, s)
  }

  lemma OthersItself(a: Cache, o: ObjectId)
    ensures OthersCaughtUp(a, a, o)
  {
    hide UserCaughtUp;
  }

  /** Notifying one user of an object leaves a user of another caught up. */
  lemma OtherStaysCaughtUp(b: Cache, c: Cache, rules: Rules, o: ObjectId, u: UserId, n: Option<UserId>, p: ObjectId, x: UserId, s: FetchState)
    requires Sane(b, rules, None) && Notified(b, c, o, u, n) && u in b.os[o].users
    requires p != o && Still(b, c, p, x) && UserCaughtUp(b, p, x, s) && Sane(c, rules, None)
    ensures UserCaughtUp(c, p, x, s)
  {
    hide Inv;
    hide RestKept;
    hide DeliveredTo;
    hide ObjectOk;
    hide NoDup;
    ListedFacts(b, rules, None, p, x);
    ListedFacts(b, rules, None, o, u);
    ListedFacts(c, rules, None, p, x);
  }

  /** A user there before and after was there in between. */
  lemma StillBetween(a: Cache, b: Cache, c: Cache, o: ObjectId, x: UserId)
    requires Numbered(a.os, a.us, a.hs, a.next) && Followed(b.os, b.next, c.os) && a.next <= b.next
    requires Still(a, c, o, x) && x < a.next
    ensures Still(a, b, o, x) && Still(b, c, o, x) && ObjectKept(b.os[o], c.os[o])
  {
    assert x < b.next && o < b.next;
  }

  lemma OthersOn(a: Cache, b: Cache, c: Cache, rules: Rules, o: ObjectId, u: UserId, n: Option<UserId>)
    requires Sane(a, rules, None) && Sane(b, rules, None) && Sane(c, rules, None) && a.next <= b.next
    requires OthersCaughtUp(a, b, o) && Notified(b, c, o, u, n) && u in b.os[o].users
    ensures OthersCaughtUp(a, c, o)
  {
    hide Sane;
    hide UserCaughtUp;
    hide Followed;
    hide RestKept;
    SaneNext(a, rules, None);
    forall p, x, s | p != o && Still(a, c, p, x) && UserCaughtUp(a, p, x, s) ensures UserCaughtUp(c, p, x, s) {
      UserInListNumbered(a, rules, p, x);
      StillBetween(a, b, c, p, x);
      OtherStaysCaughtUp(b, c, rules, o, u, n, p, x, s);
    }
  }

  lemma UserInListNumbered(a: Cache, rules: Rules, o: ObjectId, x: UserId)
    requires Sane(a, rules, None) && o in a.os && x in a.os[o].users
    ensures x < a.next
  {
    hide Inv;
    hide DeliveredTo;
    hide ObjectOk;
    hide NoDup;
    ListedFacts(a, rules, None, o, x);
  }

  /** Half way through the users, the next being `user`: those before it are caught up, if nobody deferred. */
  ghost predicate Notifying(a: Cache, b: Cache, o: ObjectId, user: Option<UserId>, all: bool) {
    && Advances(a, b) && Followed(a.os, a.next, b.os) && OthersCaughtUp(a, b, o)
    && o in a.os && o in b.os && ObjectKept(a.os[o], b.os[o])
    && (user.Some? ==> user.value in b.os[o].users)
    && (forall x :: x in b.os[o].users ==> x in a.os[o].users || x >= a.next)
    && (forall x :: x in a.os[o].users ==> x < a.next)
    && (all ==> forall x :: x in a.os[o].users && x in b.os[o].users && x !in Rest(b.os[o].users, user) ==>
                  UserCaughtUp(b, o, x, a.os[o].state))
  }

  lemma NotifyingFacts(a: Cache, b: Cache, o: ObjectId, user: Option<UserId>, all: bool)
    requires Notifying(a, b, o, user, all)
    ensures o in b.os && (user.Some? ==> user.value in b.os[o].users) && ObjectKept(a.os[o], b.os[o]) && Advances(a, b)
  {
  }

  lemma FirstIsAll(list: seq<UserId>)
    ensures Rest(list, First(list)) == list
  {
  }

  lemma Beginning(a: Cache, rules: Rules, o: ObjectId)
    requires Sane(a, rules, None) && o in a.os
    ensures forall all: bool :: Notifying(a, a, o, First(a.os[o].users), all)
  {
    hide Inv;
    hide NoDup;
    hide DeliveredTo;
    hide ObjectOk;
    hide Numbered;
    hide Rest;
    hide First;
    hide OthersCaughtUp;
    OthersItself(a, o);
    FirstIsAll(a.os[o].users);
    FirstIsOne(a.os[o].users);
    forall x | x in a.os[o].users ensures x < a.next {
      UserInListNumbered(a, rules, o, x);
    }
  }

  lemma FirstIsOne(list: seq<UserId>)
    ensures First(list).Some? ==> First(list).value in list
  {
  }

  lemma Ending(a: Cache, b: Cache, o: ObjectId, all: bool)
    requires Notifying(a, b, o, None, all)
    ensures Advances(a, b) && o in b.os && ObjectKept(a.os[o], b.os[o])
    ensures Followed(a.os, a.next, b.os) && OthersCaughtUp(a, b, o)
    ensures all ==> AllCaughtUp(a, b, o)
  {
    hide OthersCaughtUp;
    hide Followed;
    hide UserCaughtUp;
  }

  /** Being caught up with an object in one state is being caught up with it in any earlier one. */
  lemma CaughtUpEarlier(c: Cache, o: ObjectId, x: UserId, s: FetchState, s': FetchState)
    requires UserCaughtUp(c, o, x, s) && Rank(s') <= Rank(s)
    ensures UserCaughtUp(c, o, x, s')
  {
  }

  /** Notifying one user leaves another caught up. */
  lemma OthersStayCaughtUp(b: Cache, c: Cache, rules: Rules, o: ObjectId, u: UserId, n: Option<UserId>, x: UserId, s: FetchState)
    requires Sane(b, rules, None) && Sane(c, rules, None) && Notified(b, c, o, u, n)
    requires u in b.os[o].users && x in b.os[o].users && x in c.os[o].users && x != u && UserCaughtUp(b, o, x, s)
    ensures UserCaughtUp(c, o, x, s)
  {
    hide Sane;
    hide RestKept;
    hide DeliveredTo;
    hide ObjectOk;
    hide NoDup;
    ListedFacts(b, rules, None, o, x);
    ListedFacts(b, rules, None, o, u);
    ListedFacts(c, rules, None, o, x);
  }

  lemma Continuing(a: Cache, b: Cache, c: Cache, rules: Rules, o: ObjectId, u: UserId, n: Option<UserId>,
                   stop: bool, was: bool, all: bool)
    requires Sane(a, rules, None) && Sane(b, rules, None) && Sane(c, rules, None)
    requires Notifying(a, b, o, Some(u), was) && Notified(b, c, o, u, n) && (all ==> was)
    requires !stop && all ==> IsGone(c, o, u) || UserCaughtUp(c, o, u, b.os[o].state)
    ensures Advances(a, c) && o in c.os && ObjectKept(a.os[o], c.os[o])
    ensures Followed(a.os, a.next, c.os) && OthersCaughtUp(a, c, o)
    ensures !stop ==> Notifying(a, c, o, n, all) && |Rest(c.os[o].users, n)| < |Rest(b.os[o].users, Some(u))|
  {
    hide Sane;
    hide OthersCaughtUp;
    hide Followed;
    hide UserCaughtUp;
    hide Advances;
    hide OnlyTold;
    hide After;
    hide Numbered;
    SaneNext(a, rules, None);
    AdvancesNotified(b, c, o, u, n);
    AdvancesOn(a, b, c);
    NextOnward(a, b);
    FollowedNumbered(a, b, c);
    OthersOn(a, b, c, rules, o, u, n);
    if !stop && all {
      forall x | x in a.os[o].users && x in c.os[o].users && x !in Rest(c.os[o].users, n)
        ensures UserCaughtUp(c, o, x, a.os[o].state)
      {
        if x == u {
          CaughtUpEarlier(c, o, u, b.os[o].state, a.os[o].state);
        } else {
          assert x in b.os[o].users && x !in After(b.os[o].users, u);
          OthersStayCaughtUp(b, c, rules, o, u, n, x, a.os[o].state);
        }
      }
    }
  }

  lemma NextOnward(a: Cache, b: Cache)
    requires Advances(a, b)
    ensures a.next <= b.next
  {
  }

  lemma FollowedNumbered(a: Cache, b: Cache, c: Cache)
    requires Numbered(a.os, a.us, a.hs, a.next) && a.next <= b.next && Followed(a.os, a.next, b.os) && Followed(b.os, b.next, c.os)
    ensures Followed(a.os, a.next, c.os)
  {
    hide Followed;
    FollowedOn(a.os, a.next, b.os, b.next, c.os);
  }

  lemma AdvancesNotified(b: Cache, c: Cache, o: ObjectId, u: UserId, n: Option<UserId>)
    requires Notified(b, c, o, u, n)
    ensures Advances(b, c)
  {
    hide RestKept;
    hide Followed;
  }

  // ----- all the users there are -----

  /** Of the users there were of some objects, those still there have been told all there was to tell. */
  ghost predicate CaughtUpOn(a: Cache, b: Cache, done: set<ObjectId>) {
    forall o, x :: o in done && Still(a, b, o, x) ==> UserCaughtUp(b, o, x, a.os[o].state)
  }

  /** Of the users there were of any object, those still there have been told all there was to tell. */
  ghost predicate EverybodyCaughtUp(a: Cache, b: Cache) {
    forall o, x :: Still(a, b, o, x) ==> UserCaughtUp(b, o, x, a.os[o].state)
  }

  /** On the way along one of the lists of objects, with `next` to come: no object before it that still has a user it had was left out. */
  ghost predicate PassedBy(a: Cache, b: Cache, cached: bool, next: Option<ObjectId>, done: set<ObjectId>) {
    forall o: ObjectId, x: UserId :: Still(a, b, o, x) && a.os[o].cached == cached && (next.Some? ==> o > next.value) ==> o in done
  }

  /** The users of one more object have been notified. */
  lemma OneMoreCaughtUp(a: Cache, b: Cache, c: Cache, rules: Rules, o: ObjectId, done: set<ObjectId>)
    requires Sane(a, rules, None) && a.next <= b.next && Followed(a.os, a.next, b.os) && Followed(b.os, b.next, c.os)
    requires CaughtUpOn(a, b, done) && OthersCaughtUp(b, c, o) && AllCaughtUp(b, c, o)
    ensures CaughtUpOn(a, c, done + {o})
  {
    hide Sane;
    hide UserCaughtUp;
    hide Followed;
    SaneNext(a, rules, None);
    forall p, x | p in done + {o} && Still(a, c, p, x) ensures UserCaughtUp(c, p, x, a.os[p].state) {
      UserInListNumbered(a, rules, p, x);
      StillBetween(a, b, c, p, x);
      if p == o {
        NoEarlier(a.os, a.next, b.os, o, x);
        CaughtUpEarlier(c, o, x, b.os[o].state, a.os[o].state);
      }
    }
  }

  lemma NoEarlier(os: Objects, next: nat, os': Objects, o: ObjectId, x: UserId)
    requires Followed(os, next, os') && o in os && o in os' && x in os'[o].users && x < next
    ensures Rank(os[o].state) <= Rank(os'[o].state)
  {
  }

  lemma NobodyYet(a: Cache)
    ensures CaughtUpOn(a, a, {}) && Followed(a.os, a.next, a.os)
  {
  }

  /** The object to go to next is the newest on the list that is older. */
  lemma {:induction false} NextIsOlder(list: seq<ObjectId>, o: ObjectId)
    requires NewestFirst(list) && o in list
    ensures var n := First(After(list, o));
            && (n.Some? ==> n.value in list && n.value < o)
            && forall p :: p in list && p < o ==> n.Some? && p <= n.value
  {
    assert forall p :: p in list ==> p == list[0] || p in list[1..];
    if list[0] != o {
      NextIsOlder(list[1..], o);
    } else {
      FirstIsNewest(list[1..]);
    }
  }

  lemma FirstIsNewest(list: seq<ObjectId>)
    requires NewestFirst(list)
    ensures First(list).Some? ==> First(list).value in list
    ensures forall p :: p in list ==> First(list).Some? && p <= First(list).value
  {
    if list != [] {
      assert forall p :: p in list ==> p == list[0] || p in list[1..];
    }
  }

  /** At the head of the list nothing has been passed by. */
  lemma NothingPassed(a: Cache, b: Cache, rules: Rules, cached: bool, done: set<ObjectId>)
    requires Sane(a, rules, None) && Sane(b, rules, None) && a.next <= b.next && Followed(a.os, a.next, b.os)
    ensures PassedBy(a, b, cached, First(ListOf(b, cached)), done)
  {
    hide Sane;
    hide Followed;
    SaneNext(a, rules, None);
    SaneOrder(b, rules, None);
    FirstIsNewest(ListOf(b, cached));
    forall o, x | Still(a, b, o, x) && a.os[o].cached == cached ensures b.os[o].cached == cached {
      UserInListNumbered(a, rules, o, x);
      ListKept(a.os, a.next, b.os, o, x);
    }
  }

  lemma ListKept(os: Objects, next: nat, os': Objects, o: ObjectId, x: UserId)
    requires Followed(os, next, os') && o in os && o in os' && x in os'[o].users && x < next
    ensures os'[o].cached == os[o].cached
  {
  }

  lemma ListStays(a: Object, b: Object)
    requires ObjectKept(a, b)
    ensures b.cached == a.cached
  {
  }

  /** From an object whose users have been notified to the next there is by then. */
  lemma OneMorePassed(a: Cache, b: Cache, c: Cache, rules: Rules, cached: bool, o: ObjectId, done: set<ObjectId>)
    requires Sane(a, rules, None) && Sane(c, rules, None) && a.next <= b.next <= c.next
    requires Followed(a.os, a.next, b.os) && Followed(b.os, b.next, c.os) && Followed(a.os, a.next, c.os)
    requires PassedBy(a, b, cached, Some(o), done) && o in c.os && c.os[o].cached == cached
    ensures var n := First(After(ListOf(c, cached), o));
            && PassedBy(a, c, cached, n, done + {o})
            && (n.Some? ==> n.value < o && n.value in c.os && c.os[n.value].cached == cached)
  {
    hide Sane;
    hide Followed;
    hide NewestFirst;
    SaneNext(a, rules, None);
    SaneOrder(c, rules, None);
    assert o in ListOf(c, cached);
    NextIsOlder(ListOf(c, cached), o);
    var n := First(After(ListOf(c, cached), o));
    forall p, x | Still(a, c, p, x) && a.os[p].cached == cached && (n.Some? ==> p > n.value) ensures p in done + {o} {
      UserInListNumbered(a, rules, p, x);
      ListKept(a.os, a.next, c.os, p, x);
      StillBetween(a, b, c, p, x);
      assert p in ListOf(c, cached);
    }
  }

  /** One list done and then the other. */
  lemma BothPassed(a: Cache, b: Cache, c: Cache, rules: Rules, some: set<ObjectId>, all: set<ObjectId>)
    requires Sane(a, rules, None) && a.next <= b.next && Followed(b.os, b.next, c.os)
    requires PassedBy(a, b, true, None, some) && PassedBy(a, c, false, None, all) && some <= all && CaughtUpOn(a, c, all)
    ensures EverybodyCaughtUp(a, c)
  {
    hide Sane;
    hide UserCaughtUp;
    hide Followed;
    SaneNext(a, rules, None);
    forall o, x | Still(a, c, o, x) ensures o in all {
      UserInListNumbered(a, rules, o, x);
      StillBetween(a, b, c, o, x);
    }
  }

  lemma FollowedSane(a: Cache, b: Cache, c: Cache, rules: Rules)
    requires Sane(a, rules, None) && Advances(a, b) && Followed(a.os, a.next, b.os) && Followed(b.os, b.next, c.os)
    ensures Followed(a.os, a.next, c.os) && a.next <= b.next
  {
    hide Inv;
    hide Followed;
    NextOnward(a, b);
    FollowedNumbered(a, b, c);
  }
}
