/** The object-store handler: passes over a prefix, and the tracker they share. */
module ObjectStore {
  import opened Bytes
  import opened Ordering
  import opened ChangeDetection

  /** How fetching and ingesting one object went. */
  datatype Fetched = Readable | Unread | NoBodyStore | ContextEnded

  datatype Ingested = Ingested(key: Text, token: Text, known: bool)

  datatype Result = Result(ingested: seq<Ingested>, removed: seq<Text>, skipped: seq<Skip>, unmoved: int)

  function IngestedKeys(r: Result): seq<Text> {
    seq(|r.ingested|, i requires 0 <= i < |r.ingested| => r.ingested[i].key)
  }

  /** What a completed pass reports. */
  ghost predicate Reports(r: Result, gate: Gate, seen: Seen, previous: Tokens, readable: set<Text>) {
    && ListsKeys(IngestedKeys(r), readable)
    && (forall i :: 0 <= i < |r.ingested| ==>
          var g := r.ingested[i];
          g.key in seen && g.token == ChangeToken(seen[g.key]) && (g.known <==> g.key in previous))
    && ListsKeys(r.removed, RemovedKeys(seen, previous))
    && |seen| == |r.ingested| + |r.skipped| + r.unmoved
    && r.unmoved == |UnchangedKeys(gate, seen, previous)|
    && (forall k :: (exists i :: 0 <= i < |r.skipped| && r.skipped[i].key == k)
          <==> k in SkipKeys(gate, seen) + (FetchKeys(gate, seen, previous) - readable))
    && (forall i :: 0 <= i < |r.skipped| ==> ReasonFits(gate, seen, r.skipped[i]))
  }

  /** An object passed over by its metadata says so; any other is unreadable. */
  predicate ReasonFits(gate: Gate, seen: Seen, skip: Skip) {
    && skip.key in seen
    && skip.reason == match SkipOf(gate, seen[skip.key]) case Some(reason) => reason case None => Unreadable
  }

  /** What fetching each object comes to, in one pass. */
  type Fetching = Text -> Fetched

  predicate Stops(f: Fetched) {
    f == ContextEnded || f == NoBodyStore
  }

  /** The keys read among the first `n` of a plan. */
  ghost function ReadOf(plan: Plan, fetching: Fetching, n: nat): set<Text>
    requires n <= |plan.fetch|
  {
    set i | 0 <= i < n && fetching(plan.fetch[i].key) == Readable :: plan.fetch[i].key
  }

  ghost predicate NoneStops(plan: Plan, fetching: Fetching, n: nat)
    requires n <= |plan.fetch|
  {
    forall i :: 0 <= i < n ==> !Stops(fetching(plan.fetch[i].key))
  }

  lemma ReadOfMore(plan: Plan, fetching: Fetching, n: nat)
    requires n < |plan.fetch|
    ensures ReadOf(plan, fetching, n + 1)
         == ReadOf(plan, fetching, n) + if fetching(plan.fetch[n].key) == Readable then {plan.fetch[n].key} else {}
  {
  }

  lemma ReadOfNone(plan: Plan, fetching: Fetching)
    ensures ReadOf(plan, fetching, 0) == {}
  {
  }

  /** A whole plan reads just what can be read of what is to be fetched, and none of it stops
      the pass exactly when no object to be fetched does. */
  lemma ReadOfAll(plan: Plan, fetching: Fetching, gate: Gate, seen: Seen, previous: Tokens)
    requires IsPlan(plan, gate, seen, previous)
    ensures ReadOf(plan, fetching, |plan.fetch|) == ReadAll(gate, seen, previous, fetching)
    ensures NoneStops(plan, fetching, |plan.fetch|) <==> Completes(gate, seen, previous, fetching)
  {
    hide FetchKeys, SkipKeys, UnchangedKeys, RemovedKeys, Ascending, SkipOf;
    var keys := FetchedKeys(plan);
    forall k ensures k in FetchKeys(gate, seen, previous) <==> exists i :: 0 <= i < |plan.fetch| && plan.fetch[i].key == k {
      assert k in FetchKeys(gate, seen, previous) <==> k in Elements(keys);
      if k in keys {
        var i :| 0 <= i < |keys| && keys[i] == k;
        assert plan.fetch[i].key == k;
      }
      if i :| 0 <= i < |plan.fetch| && plan.fetch[i].key == k {
        assert keys[i] == k;
      }
    }
  }

  /** A pass completes if and only if nothing it has to fetch ends it. */
  ghost predicate Completes(gate: Gate, seen: Seen, previous: Tokens, fetching: Fetching) {
    forall k :: k in FetchKeys(gate, seen, previous) ==> !Stops(fetching(k))
  }

  ghost function ReadAll(gate: Gate, seen: Seen, previous: Tokens, fetching: Fetching): set<Text> {
    set k | k in FetchKeys(gate, seen, previous) && fetching(k) == Readable
  }

  // ---- what the tracker holds, told from its history ----

  datatype Event = Recorded(key: Text, token: Text) | Forgotten(key: Text)

  function Track(events: seq<Event>): Tokens {
    if events == [] then map[]
    else
      var before := Track(events[..|events| - 1]);
      match events[|events| - 1]
      case Recorded(key, token) => before[key := token]
      case Forgotten(key) => before - {key}
  }

  /** The token of the key's latest record, unless it has been forgotten since. */
  function LastRecord(events: seq<Event>, k: Text): Option<Text> {
    if events == [] then None
    else
      var last := events[|events| - 1];
      if last.key != k then LastRecord(events[..|events| - 1], k)
      else match last case Recorded(_, token) => Some(token) case Forgotten(_) => None
  }

  /** Over any history, the tracker holds a key exactly when it was recorded and not
      forgotten since, at the token recorded last. */
  lemma {:induction false} TrackIsLastRecord(events: seq<Event>, k: Text)
    ensures LastRecord(events, k) == if k in Track(events) then Some(Track(events)[k]) else None
  {
    if events != [] {
      TrackIsLastRecord(events[..|events| - 1], k);
    }
  }

  /** So a pass fetches a listed document exactly when it was never recorded, was forgotten
      since, or was last recorded at another token. */
  lemma FetchedUnlessRecorded(gate: Gate, seen: Seen, events: seq<Event>, k: Text)
    ensures k in FetchKeys(gate, seen, Track(events)) <==>
              k in seen && SkipOf(gate, seen[k]).None? && LastRecord(events, k) != Some(ChangeToken(seen[k]))
  {
    hide Track, LastRecord, ChangeToken, SkipOf;
    TrackIsLastRecord(events, k);
  }

  /** A document listed with a tag, and last recorded from a listing with one, is fetched if
      and only if it is not empty and the tag has changed. */
  lemma EditedIsFetched(gate: Gate, seen: Seen, events: seq<Event>, k: Text, was: ObjectInfo)
    requires k in seen && seen[k].key == k && gate(k) && seen[k].etag != [] && was.etag != []
    requires LastRecord(events, k) == Some(ChangeToken(was))
    ensures k in FetchKeys(gate, seen, Track(events)) <==> seen[k].size > 0 && seen[k].etag != was.etag
  {
    hide Track, LastRecord, ChangeToken, FetchKeys;
    TrackIsLastRecord(events, k);
    RefetchedExactly(gate, seen, Track(events), k, was);
  }

  /** A key once forgotten is announced as removed again, by a pass that does not list it, if
      and only if it has been recorded again since. So an announcement that was lost is not
      made up for by a later pass. */
  lemma {:induction false} AnnouncedAgainIff(seen: Seen, events: seq<Event>, more: seq<Event>, k: Text)
    requires LastRecord(events, k).None?
    ensures k in RemovedKeys(seen, Track(events + more)) <==> k !in seen && LastRecord(more, k).Some?
  {
    LastRecordOfBoth(events, more, k);
    TrackIsLastRecord(events + more, k);
  }

  lemma {:induction false} LastRecordOfBoth(events: seq<Event>, more: seq<Event>, k: Text)
    requires LastRecord(events, k).None?
    ensures LastRecord(events + more, k) == LastRecord(more, k)
  {
    if more == [] {
      assert events + more == events;
    } else {
      var all, n := events + more, |more| - 1;
      assert all[..|all| - 1] == events + more[..n] && all[|all| - 1] == more[n];
      LastRecordOfBoth(events, more[..n], k);
    }
  }

  class Handler {
    const gate: Gate
    var observed: Tokens
    ghost var events: seq<Event>   // every Record and Forget so far

    constructor (gate: Gate)
      ensures Valid() && observed == map[] && events == [] && this.gate == gate
    {
      this.gate, observed, events := gate, map[], [];
    }

    ghost predicate Valid()
      reads this
    {
      observed == Track(events)
    }

    method Record(key: Text, token: Text)
      requires Valid()
      modifies this
      ensures Valid() && observed == old(observed)[key := token]
      ensures events == old(events) + [Recorded(key, token)]
    {
      observed := observed[key := token];
      events := events + [Recorded(key, token)];
    }

    method Forget(key: Text)
      requires Valid()
      modifies this
      ensures Valid() && observed == old(observed) - {key}
      ensures events == old(events) + [Forgotten(key)]
    {
      observed := observed - {key};
      events := events + [Forgotten(key)];
    }

    /** The fetch loop over a plan. */
    method IngestPlanned(plan: Plan, seen: Seen, previous: Tokens, fetching: Fetching)
      returns (result: Option<Result>, ghost readable: set<Text>)
      requires Valid() && observed == previous && IsPlan(plan, gate, seen, previous)
      modifies this
      ensures Valid() && old(events) <= events
      ensures readable <= FetchKeys(gate, seen, previous)
      ensures observed == Learned(previous, seen, readable)
      ensures result.Some? <==> Completes(gate, seen, previous, fetching)
      ensures result.Some? ==> readable == ReadAll(gate, seen, previous, fetching)
      ensures result.None? ==>
                exists n :: && 0 <= n < |plan.fetch| && NoneStops(plan, fetching, n) && Stops(fetching(plan.fetch[n].key))
                            && readable == ReadOf(plan, fetching, n)
      ensures result.Some? ==>
                Reports(result.value, gate, seen, previous, readable) && result.value.removed == plan.removed
    {
      hide ChangeToken, SkipOf, FetchKeys, SkipKeys, UnchangedKeys, RemovedKeys, Learned, IsPlan;
      hide Progress, Reports, Completes, ReadAll, ReadOf;
      readable := {};
      var ingested: seq<Ingested> := [];
      var unread: seq<Skip> := [];
      NoProgress(plan, gate, seen, previous);
      LearnedNothing(previous, seen);
      ReadOfNone(plan, fetching);
      ReadOfAll(plan, fetching, gate, seen, previous);
      var i: nat := 0;
      while i < |plan.fetch|
        invariant i <= |plan.fetch| && Valid() && old(events) <= events
        invariant observed == Learned(previous, seen, readable)
        invariant Progress(plan, gate, seen, previous, i, ingested, unread, readable)
        invariant NoneStops(plan, fetching, i) && readable == ReadOf(plan, fetching, i)
      {
        var info := plan.fetch[i];
        var f := fetching(info.key);
        ReadOfMore(plan, fetching, i);
        if f == ContextEnded || f == NoBodyStore {
          ReadWereFetched(plan, gate, seen, previous, i, ingested, unread, readable);
          return None, readable;
        }
        FetchedIsSeen(plan, gate, seen, previous, i);
        if f == Unread {
          UnreadStep(plan, gate, seen, previous, i, ingested, unread, readable);
          unread := unread + [Skip(info.key, Unreadable)];
        } else {
          ReadStep(plan, gate, seen, previous, i, ingested, unread, readable);
          LearnedOne(previous, seen, readable, info.key);
          ingested := ingested + [Ingested(info.key, ChangeToken(info), info.key in previous)];
          Record(info.key, ChangeToken(info));
          readable := readable + {info.key};
        }
        i := i + 1;
      }
      ReadWereFetched(plan, gate, seen, previous, i, ingested, unread, readable);
      var r := Result(ingested, plan.removed, plan.skipped + unread, |seen| - |plan.fetch| - |plan.skipped|);
      CompletedReports(r, plan, unread, gate, seen, previous, readable);
      return Some(r), readable;
    }

    lemma CompletedRemoves(plan: Plan, gate: Gate, seen: Seen, previous: Tokens, events: seq<Event>)
      requires IsPlan(plan, gate, seen, previous) && previous == Track(events)
      ensures forall k :: k in plan.removed <==> k !in seen && LastRecord(events, k).Some?
    {
      hide FetchKeys, SkipKeys, Track, LastRecord, ChangeToken, SkipOf;
      forall k ensures k in plan.removed <==> k !in seen && LastRecord(events, k).Some? {
        TrackIsLastRecord(events, k);
        assert k in plan.removed <==> k in Elements(plan.removed);
      }
    }

    /** One pass. A listing that failed changes nothing and reports nothing; a pass cut short
        reports nothing, but what it had already ingested stays recorded; a completed pass
        reports exactly what it ingested, skipped and found gone. */
    method Ingest(listing: Option<seq<ObjectInfo>>, prefix: Text, fetching: Fetching)
      returns (result: Option<Result>, ghost readable: set<Text>)
      requires Valid()
      modifies this
      ensures Valid() && old(events) <= events
      ensures listing.None? ==> result.None? && readable == {} && observed == old(observed)
      ensures listing.Some? ==>
                var seen := SeenOf(listing.value, prefix);
                && readable <= FetchKeys(gate, seen, old(observed))
                && observed == Learned(old(observed), seen, readable)
                && (result.Some? <==> Completes(gate, seen, old(observed), fetching))
                && (result.Some? ==>
                      && readable == ReadAll(gate, seen, old(observed), fetching)
                      && Reports(result.value, gate, seen, old(observed), readable)
                      && (forall k :: k in result.value.removed <==>
                            k !in seen && LastRecord(old(events), k).Some?))
    {
      hide ChangeToken, SkipOf, FetchKeys, SkipKeys, UnchangedKeys, RemovedKeys, Learned, IsPlan, SeenOf;
      readable := {};
      var pass := Enumerate(listing, prefix);
      if pass.None? {
        return None, readable;
      }
      var seen := pass.value;
      SeenIsScoped(listing.value, prefix);
      var previous := observed;
      var plan := MakePlan(gate, pass, previous);
      result, readable := IngestPlanned(plan, seen, previous, fetching);
      CompletedRemoves(plan, gate, seen, previous, old(events));
    }

    /** The component's retraction of what a pass found gone: each key is forgotten, whether
        or not the announcement of it lands. */
    method Retract(removed: seq<Text>)
      requires Valid()
      modifies this
      ensures Valid() && old(events) <= events
      ensures observed == old(observed) - Elements(removed)
      ensures forall k :: k in removed ==> LastRecord(events, k).None?
    {
      for i := 0 to |removed|
        invariant Valid() && old(events) <= events
        invariant observed == old(observed) - Elements(removed[..i])
      {
        assert Elements(removed[..i + 1]) == Elements(removed[..i]) + {removed[i]};
        Forget(removed[i]);
      }
      assert removed[..|removed|] == removed;
      forall k | k in removed ensures LastRecord(events, k).None? {
        TrackIsLastRecord(events, k);
        assert k in Elements(removed);
      }
    }

    /** One pass of the component and the retraction that follows one that completed. From
        then on the same listing has exactly the unread objects to fetch and nothing to
        remove. */
    method IngestOnce(listing: Option<seq<ObjectInfo>>, prefix: Text, fetching: Fetching)
      returns (result: Option<Result>, ghost readable: set<Text>)
      requires Valid()
      modifies this
      ensures Valid() && old(events) <= events
      ensures listing.None? ==> result.None? && readable == {} && observed == old(observed)
      ensures listing.Some? ==>
                var seen := SeenOf(listing.value, prefix);
                && readable <= FetchKeys(gate, seen, old(observed))
                && (result.None? ==> observed == Learned(old(observed), seen, readable))
                && (result.Some? <==> Completes(gate, seen, old(observed), fetching))
                && (result.Some? ==>
                      && readable == ReadAll(gate, seen, old(observed), fetching)
                      && Reports(result.value, gate, seen, old(observed), readable)
                      && FetchKeys(gate, seen, observed) == FetchKeys(gate, seen, old(observed)) - readable
                      && RemovedKeys(seen, observed) == {})
    {
      hide ChangeToken, SkipOf, FetchKeys, SkipKeys, UnchangedKeys, RemovedKeys, Learned, SeenOf, LastRecord, Track;
      result, readable := Ingest(listing, prefix, fetching);
      if result.Some? {
        ghost var seen := SeenOf(listing.value, prefix);
        Retract(result.value.removed);
        ReplanFetchesTheUnread(gate, seen, old(observed), readable);
      }
    }

    /** Two passes over one listing. If both complete, the second removes nothing, ingests
        only what the first could not read, and leaves to a third just what neither read. */
    method IngestTwice(listing: seq<ObjectInfo>, prefix: Text, fetching: Fetching, fetchingLater: Fetching)
      returns (first: Option<Result>, second: Option<Result>, ghost readable: set<Text>, ghost later: set<Text>)
      requires Valid()
      modifies this
      ensures Valid() && old(events) <= events
      ensures first.Some? && second.Some? ==>
                var seen := SeenOf(listing, prefix);
                && second.value.removed == []
                && Elements(IngestedKeys(second.value)) == later
                && later <= FetchKeys(gate, seen, old(observed)) - readable
                && FetchKeys(gate, seen, observed) == FetchKeys(gate, seen, old(observed)) - readable - later
                && RemovedKeys(seen, observed) == {}
    {
      hide ChangeToken, SkipOf, FetchKeys, SkipKeys, UnchangedKeys, RemovedKeys, Learned, SeenOf, LastRecord, Track;
      first, readable := IngestOnce(Some(listing), prefix, fetching);
      second, later := IngestOnce(Some(listing), prefix, fetchingLater);
      if second.Some? && second.value.removed != [] {
        assert second.value.removed[0] in Elements(second.value.removed);
      }
    }
  }

  // ---- the loop, one object at a time ----

  /** The ingested objects of the keys visited so far, in their order. */
  ghost predicate Kept(ingested: seq<Ingested>, seen: Seen, previous: Tokens, visited: seq<Text>, readable: set<Text>) {
    && Ascending(KeysIn(ingested)) && Elements(KeysIn(ingested)) == readable
    && (forall i :: 0 <= i < |ingested| ==> ingested[i].key in visited)
    && (forall i :: 0 <= i < |ingested| ==>
          var g := ingested[i];
          g.key in seen && g.token == ChangeToken(seen[g.key]) && (g.known <==> g.key in previous))
  }

  function KeysIn(ingested: seq<Ingested>): seq<Text> {
    seq(|ingested|, i requires 0 <= i < |ingested| => ingested[i].key)
  }

  ghost predicate Dropped(unread: seq<Skip>, visited: seq<Text>, readable: set<Text>) {
    && (forall k :: (exists i :: 0 <= i < |unread| && unread[i].key == k) <==> k in visited && k !in readable)
    && (forall i :: 0 <= i < |unread| ==> unread[i].reason == Unreadable)
  }

  lemma NothingKept(seen: Seen, previous: Tokens)
    ensures Kept([], seen, previous, [], {}) && Dropped([], [], {})
  {
  }

  lemma FreshKey(keys: seq<Text>, i: nat)
    requires Ascending(keys) && i < |keys|
    ensures keys[i] !in keys[..i]
    ensures forall x :: x in keys[..i] ==> Below(x, keys[i])
  {
    forall x | x in keys[..i] ensures Below(x, keys[i]) {
      var j :| 0 <= j < i && keys[..i][j] == x;
      assert keys[j] == x;
    }
    BelowIsTotal(keys[i], keys[i]);
  }

  lemma LearnedNothing(previous: Tokens, seen: Seen)
    ensures Learned(previous, seen, {}) == previous
  {
    hide ChangeToken;
  }

  lemma LearnedOne(previous: Tokens, seen: Seen, readable: set<Text>, k: Text)
    requires k in seen
    ensures Learned(previous, seen, readable)[k := ChangeToken(seen[k])] == Learned(previous, seen, readable + {k})
  {
    hide ChangeToken;
  }

  lemma DroppedOne(ingested: seq<Ingested>, unread: seq<Skip>, seen: Seen, previous: Tokens,
                   visited: seq<Text>, readable: set<Text>, k: Text)
    requires Kept(ingested, seen, previous, visited, readable) && Dropped(unread, visited, readable)
    requires k !in visited
    ensures Kept(ingested, seen, previous, visited + [k], readable)
    ensures Dropped(unread + [Skip(k, Unreadable)], visited + [k], readable)
  {
    hide ChangeToken;
    ReadWereVisited(ingested, seen, previous, visited, readable);
    var more := unread + [Skip(k, Unreadable)];
    forall x ensures (exists i :: 0 <= i < |more| && more[i].key == x) <==> x in visited + [k] && x !in readable {
      if x in visited && x !in readable {
        var i :| 0 <= i < |unread| && unread[i].key == x;
        assert more[i].key == x;
      }
      if x == k {
        assert more[|unread|].key == x;
      }
    }
  }

  lemma ReadWereVisited(ingested: seq<Ingested>, seen: Seen, previous: Tokens, visited: seq<Text>,
                        readable: set<Text>)
    requires Kept(ingested, seen, previous, visited, readable)
    ensures forall x :: x in readable ==> x in visited
  {
    forall x | x in readable ensures x in visited {
      assert x in Elements(KeysIn(ingested));
      var i :| 0 <= i < |KeysIn(ingested)| && KeysIn(ingested)[i] == x;
      assert ingested[i].key in visited;
    }
  }

  lemma KeptOne(ingested: seq<Ingested>, unread: seq<Skip>, seen: Seen, previous: Tokens,
                visited: seq<Text>, readable: set<Text>, k: Text)
    requires Kept(ingested, seen, previous, visited, readable) && Dropped(unread, visited, readable)
    requires k in seen && k !in visited && forall x :: x in visited ==> Below(x, k)
    ensures Kept(ingested + [Ingested(k, ChangeToken(seen[k]), k in previous)], seen, previous,
                 visited + [k], readable + {k})
    ensures Dropped(unread, visited + [k], readable + {k})
  {
    hide ChangeToken;
    ReadWereVisited(ingested, seen, previous, visited, readable);
    var more := ingested + [Ingested(k, ChangeToken(seen[k]), k in previous)];
    var keys := KeysIn(ingested);
    assert KeysIn(more) == keys + [k];
    forall i | 0 <= i < |keys| ensures Below(keys[i], k) {
      assert ingested[i].key in visited;
    }
    assert Elements(keys + [k]) == Elements(keys) + {k};
  }

  lemma FetchedIsSeen(plan: Plan, gate: Gate, seen: Seen, previous: Tokens, i: nat)
    requires IsPlan(plan, gate, seen, previous) && i < |plan.fetch|
    ensures plan.fetch[i].key in seen && seen[plan.fetch[i].key] == plan.fetch[i]
    ensures plan.fetch[i].key in FetchKeys(gate, seen, previous)
  {
    assert FetchedKeys(plan)[i] in Elements(FetchedKeys(plan));
  }

  /** The loop's state before object number `i`. */
  ghost predicate Progress(plan: Plan, gate: Gate, seen: Seen, previous: Tokens, i: nat,
                           ingested: seq<Ingested>, unread: seq<Skip>, readable: set<Text>)
  {
    && i <= |plan.fetch| && |ingested| + |unread| == i
    && Kept(ingested, seen, previous, FetchedKeys(plan)[..i], readable)
    && Dropped(unread, FetchedKeys(plan)[..i], readable)
    && readable <= FetchKeys(gate, seen, previous)
  }

  lemma NoProgress(plan: Plan, gate: Gate, seen: Seen, previous: Tokens)
    ensures Progress(plan, gate, seen, previous, 0, [], [], {})
  {
    NothingKept(seen, previous);
    assert FetchedKeys(plan)[..0] == [];
  }

  lemma ReadWereFetched(plan: Plan, gate: Gate, seen: Seen, previous: Tokens, i: nat,
                        ingested: seq<Ingested>, unread: seq<Skip>, readable: set<Text>)
    requires Progress(plan, gate, seen, previous, i, ingested, unread, readable)
    ensures readable <= FetchKeys(gate, seen, previous)
  {
  }

  lemma NextKey(plan: Plan, gate: Gate, seen: Seen, previous: Tokens, i: nat)
    requires IsPlan(plan, gate, seen, previous) && i < |plan.fetch|
    ensures var keys, k := FetchedKeys(plan), plan.fetch[i].key;
            && keys[..i + 1] == keys[..i] + [k] && k !in keys[..i]
            && forall x :: x in keys[..i] ==> Below(x, k)
  {
    hide FetchKeys, SkipKeys, RemovedKeys;
    FreshKey(FetchedKeys(plan), i);
  }

  lemma UnreadStep(plan: Plan, gate: Gate, seen: Seen, previous: Tokens, i: nat,
                   ingested: seq<Ingested>, unread: seq<Skip>, readable: set<Text>)
    requires IsPlan(plan, gate, seen, previous) && i < |plan.fetch|
    requires Progress(plan, gate, seen, previous, i, ingested, unread, readable)
    ensures Progress(plan, gate, seen, previous, i + 1, ingested,
                     unread + [Skip(plan.fetch[i].key, Unreadable)], readable)
  {
    hide IsPlan, Kept, Dropped, FetchKeys;
    NextKey(plan, gate, seen, previous, i);
    DroppedOne(ingested, unread, seen, previous, FetchedKeys(plan)[..i], readable, plan.fetch[i].key);
  }

  lemma ReadStep(plan: Plan, gate: Gate, seen: Seen, previous: Tokens, i: nat,
                 ingested: seq<Ingested>, unread: seq<Skip>, readable: set<Text>)
    requires IsPlan(plan, gate, seen, previous) && i < |plan.fetch|
    requires Progress(plan, gate, seen, previous, i, ingested, unread, readable)
    ensures var info := plan.fetch[i];
            Progress(plan, gate, seen, previous, i + 1,
                     ingested + [Ingested(info.key, ChangeToken(info), info.key in previous)],
                     unread, readable + {info.key})
  {
    hide IsPlan, Kept, Dropped, FetchKeys, ChangeToken;
    NextKey(plan, gate, seen, previous, i);
    FetchedIsSeen(plan, gate, seen, previous, i);
    KeptOne(ingested, unread, seen, previous, FetchedKeys(plan)[..i], readable, plan.fetch[i].key);
  }

  lemma CompletedReports(r: Result, plan: Plan, unread: seq<Skip>, gate: Gate, seen: Seen, previous: Tokens,
                         readable: set<Text>)
    requires IsPlan(plan, gate, seen, previous)
    requires Progress(plan, gate, seen, previous, |plan.fetch|, r.ingested, unread, readable)
    requires r.removed == plan.removed && r.skipped == plan.skipped + unread
    requires r.unmoved == |seen| - |plan.fetch| - |plan.skipped|
    ensures Reports(r, gate, seen, previous, readable)
  {
    hide ChangeToken, SkipOf, FetchKeys, SkipKeys, UnchangedKeys, RemovedKeys, Elements, Ascending;
    hide Dropped;
    assert FetchedKeys(plan)[..|plan.fetch|] == FetchedKeys(plan);
    assert IngestedKeys(r) == KeysIn(r.ingested);
    PlanSizes(plan, gate, seen, previous);
    SkippedOnes(r, plan, unread, gate, seen, previous, readable);
    forall i | 0 <= i < |r.skipped| ensures ReasonFits(gate, seen, r.skipped[i]) {
      SkippedReason(r, plan, unread, gate, seen, previous, readable, i);
    }
  }

  lemma SkippedReason(r: Result, plan: Plan, unread: seq<Skip>, gate: Gate, seen: Seen, previous: Tokens,
                      readable: set<Text>, i: nat)
    requires IsPlan(plan, gate, seen, previous) && Dropped(unread, FetchedKeys(plan), readable)
    requires r.skipped == plan.skipped + unread && i < |r.skipped|
    ensures ReasonFits(gate, seen, r.skipped[i])
  {
    hide ChangeToken, SkipOf, SkipKeys, RemovedKeys, Ascending;
    var n := |plan.skipped|;
    if i >= n {
      var k := unread[i - n].key;
      assert k in FetchedKeys(plan) && k in Elements(FetchedKeys(plan));
    } else {
      assert r.skipped[i] == plan.skipped[i];
    }
  }

  lemma PlanSizes(plan: Plan, gate: Gate, seen: Seen, previous: Tokens)
    requires IsPlan(plan, gate, seen, previous)
    ensures |seen| == |plan.fetch| + |plan.skipped| + |UnchangedKeys(gate, seen, previous)|
  {
    hide ChangeToken, SkipOf, FetchKeys, SkipKeys, UnchangedKeys, RemovedKeys, Elements, Ascending;
    SeenIsPartitioned(gate, seen, previous);
    AscendingSize(FetchedKeys(plan));
    AscendingSize(SkippedKeys(plan));
  }

  lemma SkippedOnes(r: Result, plan: Plan, unread: seq<Skip>, gate: Gate, seen: Seen, previous: Tokens,
                    readable: set<Text>)
    requires IsPlan(plan, gate, seen, previous) && Dropped(unread, FetchedKeys(plan), readable)
    requires r.skipped == plan.skipped + unread
    ensures forall k :: (exists i :: 0 <= i < |r.skipped| && r.skipped[i].key == k)
              <==> k in SkipKeys(gate, seen) + (FetchKeys(gate, seen, previous) - readable)
  {
    hide ChangeToken, SkipOf, FetchKeys, SkipKeys;
    var n := |plan.skipped|;
    forall k ensures (exists i :: 0 <= i < |r.skipped| && r.skipped[i].key == k)
        <==> k in SkipKeys(gate, seen) + (FetchKeys(gate, seen, previous) - readable)
    {
      if i :| 0 <= i < |r.skipped| && r.skipped[i].key == k {
        if i < n {
          assert SkippedKeys(plan)[i] == k;
          assert k in Elements(SkippedKeys(plan));
        } else {
          assert unread[i - n].key == k;
          assert k in Elements(FetchedKeys(plan));
        }
      }
      if k in SkipKeys(gate, seen) {
        assert k in Elements(SkippedKeys(plan));
        var i :| 0 <= i < n && SkippedKeys(plan)[i] == k;
        assert r.skipped[i].key == k;
      } else if k in FetchKeys(gate, seen, previous) && k !in readable {
        assert k in Elements(FetchedKeys(plan));
        var i :| 0 <= i < |unread| && unread[i].key == k;
        assert r.skipped[n + i].key == k;
      }
    }
  }
}
