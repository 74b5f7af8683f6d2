/** A fetch brings some data, times out, and is redirected: the client is given data of two objects. */
module LlcacheTornRun {
  import opened Common
  import opened LlcacheCalls
  import opened LlcacheFetch
  import opened LlcacheNotify
  import opened LlcacheState

  /** Three attempts; when fetchers give which answer is not known. */
  function RULES(): Rules {
    Rules(3, false)
  }

  /** An object in the cache, fresh and finished. */
  function Elsewhere(): Object {
    NewObject(8, true, 0).(source := [2, 3], hasData := true, state := Complete, answered := true, expiry := 100)
  }

  /** An object being fetched for one client. */
  function Asked(): Object {
    WithUsers(FirstFetch(7, true, None, 0, false, RULES(), 0), [2])
  }

  function Answered(): Object {
    OnData(OnHeader(Asked(), 0, Fresh), [1], false)
  }

  /** The attempt timed out, and another is made. */
  function Retried(): Object {
    OnRefetch(Answered().(retries := 2), true, 1)
  }

  function Client(): Handle {
    NewHandle(1, 2, Init, Steady)
  }

  /** The client has accepted what there was to tell. */
  function Heard(): Handle {
    Told(Told(Told(Client(), Answered()), Answered()), Answered())
  }

  function At(o: Object, h: Handle): Cache {
    Cache(map[0 := Elsewhere(), 1 := o], map[2 := User(Some(1), Some(2), false, false)], map[2 := h], [1, 0], [], 3)
  }

  lemma StepsOfTheRun()
    ensures Prepared(Answered(), Answered().(retries := 2), RULES())
    ensures Owed(Client(), Data, Answered()) && Owed(Told(Client(), Answered()), Data, Answered())
    ensures Owed(Told(Told(Client(), Answered()), Answered()), Data, Answered()) && !Owed(Heard(), Data, Answered())
    ensures Heard() == Handle(1, 2, Data, 1, Init, [HadHeaders, HadData([1])], Steady)
  {
    var once := Told(Told(Client(), Answered()), Answered());
    assert Answered().source == [1];
    assert once.log == [HadHeaders];
    assert Answered().source[0..] == [1];
  }

  lemma Sources()
    ensures Payload([HadHeaders, HadData([1])]) == [1] && Payload([]) == []
  {
    assert [HadHeaders, HadData([1])] == [HadHeaders] + [HadData([1])];
    assert [HadHeaders] == [] + [HadHeaders];
    PayloadGrows([], HadHeaders);
    PayloadGrows([HadHeaders], HadData([1]));
  }

  lemma ObjectsAreOk()
    ensures forall o :: o in {Elsewhere(), Asked(), Answered(), Retried()} ==> ObjectOk(o, RULES())
  {
  }

  lemma CacheIsSane(o: Object, h: Handle)
    requires ObjectOk(o, RULES()) && DeliveredTo(h, o) && o.users == [2] && o.candidate == None && o.candidateCount == 0 && o.cached
    requires h.object_ == 1 && h.user == 2
    ensures Sane(At(o, h), RULES(), None)
  {
    hide ObjectOk;
    hide DeliveredTo;
    hide Linked;
    hide Counted;
    hide Listed;
    ObjectsAreOk();
    IsLinked(o, h);
    IsCounted(o, h);
    IsListed(o, h);
  }

  lemma IsLinked(o: Object, h: Handle)
    requires o.users == [2] && h.object_ == 1 && h.user == 2
    ensures var a := At(o, h); Linked(a.os, a.us, a.hs)
  {
    assert [2][1..] == [];
  }

  lemma IsCounted(o: Object, h: Handle)
    requires o.candidate == None
    ensures Counted(At(o, h).os)
  {
    var os := At(o, h).os;
    assert Referrers(os, 0) == {} && Referrers(os, 1) == {};
  }

  lemma IsListed(o: Object, h: Handle)
    requires o.cached
    ensures var a := At(o, h); Listed(a.os, a.cached, a.uncached)
  {
    assert [1, 0][1..] == [0] && [0][1..] == [];
    assert 1 in [1, 0] && 0 in [1, 0];
  }

  /** The cache is sound before the run, and when the redirect comes, though the client has been given data by then. */
  lemma BeforeTheRedirect()
    ensures Sane(At(Asked(), Client()), RULES(), None)
    ensures var a := At(Retried(), Heard());
      Sane(a, RULES(), None) && a.os[1].fetching && a.os[1].state == Init && !Unread(a.hs, 1) && Retrieved(a.os, 0, 8, true, 1)
  {
    hide Inv;
    hide Payload;
    StepsOfTheRun();
    Sources();
    ObjectsAreOk();
    assert Retried().source == [1];
    assert DeliveredTo(Heard(), Retried());
    assert 2 in At(Retried(), Heard()).hs && At(Retried(), Heard()).hs[2].bytes == 1;
    CloneIsSound(1, 2, Init, Steady, []);
    assert DeliveredTo(Client(), Asked());
    CacheIsSane(Asked(), Client());
    CacheIsSane(Retried(), Heard());
  }

  /** Redirected, the client is told it has all of a source of which it has been given the end only, after the beginning of another. */
  lemma RedirectedTooLate()
    ensures var moved := MovedHandle(Heard(), 0);
      var more := Told(moved, Elsewhere());
      var done := Told(more, Elsewhere());
      && Owed(moved, Complete, Elsewhere()) && Owed(more, Complete, Elsewhere())
      && done.state == Complete && Payload(done.log) == [1, 3] && Elsewhere().source == [2, 3]
      && moved.past == Mixed && !Sound(done, Elsewhere().source)
  {
    hide Payload;
    StepsOfTheRun();
    Sources();
    var log := Heard().log;
    assert Elsewhere().source[1..] == [3];
    PayloadGrows(log, HadData([3]));
    PayloadGrows(log + [HadData([3])], Done);
    assert [1] + [3] + [] == [1, 3];
    assert [1, 3][0] != Elsewhere().source[0];
  }
}
