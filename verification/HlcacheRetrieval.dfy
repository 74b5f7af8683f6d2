/** The high-level cache as a client: a context waits for the type of a source, then a content takes over. */
module HlcacheRetrieval {
  import opened Common
  import opened LlcacheFetch
  import opened LlcacheNotify
  import opened LlcacheState
  import L = LlcacheAnswers

  /** Who the events of the handle go to; nobody once it has been released. */
  datatype Owner = Context | Content | Downloader | Nobody

  /** What comes of looking for a content for the type: a new one, one that is there, a failure; or the type is not wanted. */
  datatype Search = Created | Shared | NoMemory | Unknown(mayDownload: bool) | Unacceptable

  class Retrieval {
    var owner: Owner

    constructor ()
      ensures owner == Context
    {
      owner := Context;
    }

    /** A content is found for the handle, and the context is no longer needed. */
    method Migrate(found: Search) returns (reply: L.Reply)
      requires owner == Context
      modifies this
      ensures owner == Successor(found) && owner != Context
      ensures reply == L.NeedData <==> owner == Content || owner == Downloader
      ensures reply == L.Failed <==> found == NoMemory
    {
      match found
      case Created =>
        owner, reply := Content, L.NeedData;
      case Shared =>
        owner, reply := Nobody, L.Ok;
      case NoMemory =>
        owner, reply := Nobody, L.Failed;
      case Unknown(mayDownload) =>
        if mayDownload {
          owner, reply := Downloader, L.NeedData;
        } else {
          owner, reply := Nobody, L.Ok;
        }
      case Unacceptable =>
        owner, reply := Nobody, L.Ok;
    }

    /** The type may be told from the headers, is always told from data, and without data may never be. */
    method Callback(e: Event, told: bool, found: Search) returns (reply: L.Reply)
      requires owner == Context
      modifies this
      ensures owner == if told || e.HadData? then Successor(found) else Context
      ensures reply == L.NeedData <==> (owner == Content || owner == Downloader) && !e.HadHeaders?
      ensures reply == L.Failed <==> owner != Context && found == NoMemory
    {
      reply := L.Ok;
      match e
      case HadHeaders =>
        if told {
          reply := Migrate(found);
        }
        if reply.NeedData? {
          reply := L.Ok;
        }
      case HadData(_) =>
        reply := Migrate(found);
      case Done =>
        if told {
          reply := Migrate(found);
        }
    }
  }

  /** Who takes the handle over: a new content, or a download; a content that is there has no need of it. */
  function Successor(found: Search): Owner {
    if found == Created then Content else if found == Unknown(true) then Downloader else Nobody
  }

  /** What the content has been given: all but the headers. */
  function Given(log: seq<Event>): seq<Event> {
    if log == [] then [] else log[1..]
  }

  /** All of the source, or its beginning as far as a handle has got; and the end once it has that. */
  predicate GivenInOrder(h: Handle, source: seq<Byte>) {
    var g := Given(h.log);
    && h.bytes <= |source| && Payload(g) == source[..h.bytes]
    && (if h.state == Complete then h.bytes == |source| && |g| > 0 && g[|g| - 1] == Done && AllData(g[..|g| - 1]) else AllData(g))
  }

  lemma GivenIsAll(h: Handle, source: seq<Byte>)
    requires Sound(h, source) && h.base == Init && Rank(h.state) >= 2
    ensures GivenInOrder(h, source)
  {
    hide Payload;
    GivenAfterHeaders(h);
    assert h.log == [HadHeaders] + h.log[1..];
    PayloadOfBoth([HadHeaders], h.log[1..]);
    HeadersCarryNothing();
    var none: seq<Byte> := [];
    assert none + Payload(h.log[1..]) == Payload(h.log[1..]);
  }

  lemma HeadersCarryNothing()
    ensures Payload([HadHeaders]) == []
  {
    NoPayload();
    PayloadGrows([], HadHeaders);
    assert [] + [HadHeaders] == [HadHeaders];
  }

  lemma GivenAfterHeaders(h: Handle)
    requires InOrder(h.base, h.state, h.log) && h.base == Init && Rank(h.state) >= 2
    ensures |h.log| > 0 && h.log[0] == HadHeaders
    ensures var g := Given(h.log);
      if h.state == Complete then |g| > 0 && g[|g| - 1] == Done && AllData(g[..|g| - 1]) else AllData(g)
  {
    assert h.log[..1][0] == h.log[0];
    if h.state == Complete {
      assert h.log[1..][..|h.log| - 2] == h.log[1..|h.log| - 1];
    }
  }

  /** How the handle and the owner stand at any time. */
  ghost predicate Stands(h: Handle, o: Object, owner: Owner) {
    && Sound(h, o.source) && h.base == Init && (h.state == Complete ==> o.state == Complete)
    && (owner == Context ==> h.bytes == 0)
    && (owner == Content ==> Rank(h.state) >= 2)
  }

  /** The object comes by something, or its users are notified: then the type may be told, and a content may ask for the data again. */
  datatype Step = Arrives(kind: nat, data: seq<Byte>) | Notified(told: bool, found: Search, again: bool)

  /** Whether the fetch has finished by the end of a run. */
  predicate Finished(run: seq<Step>) {
    run != [] && (Finished(run[..|run| - 1]) || (run[|run| - 1].Arrives? && run[|run| - 1].kind > 1))
  }

  /** All the data that came, end to end, up to the finish. */
  function Brought(run: seq<Step>): seq<Byte> {
    if run == [] then []
    else
      var last := run[|run| - 1];
      if last.Arrives? && last.kind == 1 && !Finished(run[..|run| - 1]) then Brought(run[..|run| - 1]) + last.data
      else Brought(run[..|run| - 1])
  }

  /** How many notifications there were in the end, with nothing between them and nobody asking again. */
  function Quiet(run: seq<Step>): nat {
    if run != [] && run[|run| - 1].Notified? && !run[|run| - 1].again then Quiet(run[..|run| - 1]) + 1 else 0
  }

  lemma {:induction false} QuietInTheEnd(run: seq<Step>, n: nat)
    requires n <= |run| && forall i :: |run| - n <= i < |run| ==> run[i].Notified? && !run[i].again
    ensures Quiet(run) >= n
  {
    if n > 0 {
      QuietInTheEnd(run[..|run| - 1], n - 1);
    }
  }

  /**
   In every run, whatever the object comes by, whenever its users are notified,
   and however often the content asks for data again: the content is given the
   source from its first byte, every byte once, and then that it is done. The
   source is the data that came; and after five notifications at which nobody asks
   again nothing is left to tell.
   */
  method Run(user: UserId, run: seq<Step>) returns (h: Handle, o: Object, r: Retrieval)
    ensures r.owner == Content ==> GivenInOrder(h, o.source)
    ensures r.owner == Context ==> Payload(h.log) == []
    ensures o.source == Brought(run) && (o.state == Complete <==> Finished(run))
    ensures |run| >= 5 && (forall i :: |run| - 5 <= i < |run| ==> run[i].Notified? && !run[i].again) ==>
      r.owner == Nobody || !Owed(h, o.state, o)
  {
    hide Sound;
    hide Arrived;
    hide Owed;
    hide GivenInOrder;
    hide Payload;
    o := *;
    o := o.(source := [], state := Init);
    h := NewHandle(0, user, Init, Steady);
    r := new Retrieval();
    CloneIsSound(0, user, Init, Steady, []);
    for i := 0 to |run|
      invariant Stands(h, o, r.owner)
      invariant o.source == Brought(run[..i]) && (o.state == Complete <==> Finished(run[..i]))
      invariant ToTell(h, o, r.owner) == 0 || ToTell(h, o, r.owner) + Quiet(run[..i]) <= 5
    {
      assert run[..i + 1][..i] == run[..i];
      match run[i]
      case Arrives(kind, data) =>
        ArrivalIsHarmless(h, o, r.owner, kind, data);
        ArrivedIs(o, kind, data);
        o := Arrived(o, kind, data);
      case Notified(told, found, again) =>
        if Owed(h, o.state, o) {
          h := Offer(h, o, r, told, found, again);
        }
    }
    assert run[..|run|] == run;
    FoundGiven(h, o, r.owner);
    if |run| >= 5 && forall i :: |run| - 5 <= i < |run| ==> run[i].Notified? && !run[i].again {
      QuietInTheEnd(run, 5);
      NothingToTell(h, o, r.owner);
    }
  }

  lemma NothingToTell(h: Handle, o: Object, owner: Owner)
    requires ToTell(h, o, owner) == 0
    ensures owner == Nobody || !Owed(h, o.state, o)
  {
  }

  /** At most how often a handle has still to be called; once more if a content must be found first. */
  function ToTell(h: Handle, o: Object, owner: Owner): nat {
    if owner == Nobody || !Owed(h, o.state, o) then 0
    else
      (if owner == Context then 1 else 0)
      + match h.state case Init => 4 case Headers => 3 case Data => if h.bytes < |o.source| then 2 else 1 case Complete => 0
  }

  lemma FoundGiven(h: Handle, o: Object, owner: Owner)
    requires Stands(h, o, owner)
    ensures owner == Content ==> GivenInOrder(h, o.source)
    ensures owner == Context ==> Payload(h.log) == []
  {
    if owner == Content {
      GivenIsAll(h, o.source);
    }
  }

  /** The object comes by a header, by data, or to its end. */
  function Arrived(o: Object, kind: nat, data: seq<Byte>): Object {
    if o.state == Complete then o
    else
      var state := if kind == 0 then Headers else if kind == 1 then Data else Complete;
      o.(state := state, source := if kind == 1 then o.source + data else o.source)
  }

  lemma ArrivalIsHarmless(h: Handle, o: Object, owner: Owner, kind: nat, data: seq<Byte>)
    requires Stands(h, o, owner)
    ensures Stands(h, Arrived(o, kind, data), owner)
  {
    hide Sound;
    hide Arrived;
    ArrivedIs(o, kind, data);
    if o.state != Complete {
      SourceGrows(h, o.source, data);
    }
  }

  lemma ArrivedIs(o: Object, kind: nat, data: seq<Byte>)
    ensures var now := Arrived(o, kind, data);
      && now.source == (if o.state != Complete && kind == 1 then o.source + data else o.source)
      && (now.state == Complete <==> o.state == Complete || kind > 1)
  {
  }

  /** What a handle is told of next. */
  function NextEvent(h: Handle, o: Object): Event {
    if h.state == Headers then HadHeaders
    else if h.state == Data && h.bytes < |o.source| then HadData(o.source[h.bytes..])
    else Done
  }

  /**
   The handle's owner is told what it is owed, and may ask to be told again. Of the
   start nobody is told; the context asks again on behalf of the content it has found.
   */
  method Offer(h: Handle, o: Object, r: Retrieval, told: bool, found: Search, again: bool) returns (now: Handle)
    requires Stands(h, o, r.owner) && Owed(h, o.state, o)
    modifies r
    ensures Stands(now, o, r.owner)
    ensures r.owner ==
      if h.state != Init && old(r.owner) == Context && (told || NextEvent(h, o).HadData?) then Successor(found) else old(r.owner)
    ensures now ==
      if h.state == Init then Told(h, o)
      else if old(r.owner) == Context then
        if (r.owner == Content || r.owner == Downloader) && !NextEvent(h, o).HadHeaders? then h else Told(h, o)
      else
        if old(r.owner) == Nobody || again then h else Told(h, o)
    ensures !again ==> ToTell(now, o, r.owner) < ToTell(h, o, old(r.owner)) || ToTell(now, o, r.owner) == 0
  {
    hide Sound;
    hide Told;
    hide Owed;
    OfferIsSound(h, o);
    TellingGetsOn(h, o);
    now := Told(h, o);
    if h.state == Init || r.owner == Nobody {
      now := if h.state == Init then now else h;
    } else if r.owner == Context {
      var reply := r.Callback(now.log[|now.log| - 1], told, found);
      if reply.NeedData? {
        now := h;
      }
    } else {
      if again {
        now := h;
      }
    }
  }

  lemma TellingGetsOn(h: Handle, o: Object)
    requires Owed(h, o.state, o) && h.bytes <= |o.source|
    ensures forall owner: Owner :: owner != Nobody ==> ToTell(Told(h, o), o, owner) < ToTell(h, o, owner)
    ensures h.state != Init ==> |Told(h, o).log| > 0 && Told(h, o).log[|Told(h, o).log| - 1] == NextEvent(h, o)
  {
  }

  lemma OfferIsSound(h: Handle, o: Object)
    requires Sound(h, o.source) && h.base == Init && Owed(h, o.state, o)
    ensures var now := Told(h, o);
      && Sound(now, o.source) && now.base == Init && (now.state == Complete ==> o.state == Complete)
      && (h.state != Init ==> |now.log| > 0 && Rank(now.state) >= 2)
      && (h.state != Init && !now.log[|now.log| - 1].HadData? ==> now.bytes == h.bytes)
      && (h.state != Init && !now.log[|now.log| - 1].HadHeaders? ==> Rank(h.state) >= 2)
      && (h.state == Init ==> now.bytes == h.bytes) && h.bytes <= |o.source|
  {
    ToldIsSound(h, o);
  }
}
