/** What one listing of an object store implies, given what was ingested before. */
module ChangeDetection {
  import opened Bytes
  import opened Ordering
  import opened Decimal

  const COLON: Byte := 58

  datatype ObjectInfo = ObjectInfo(key: Text, size: nat, etag: Text, modified: int)

  datatype SkipReason = UnsupportedFormat | EmptyObject | Unreadable

  datatype Skip = Skip(key: Text, reason: SkipReason)

  datatype Plan = Plan(fetch: seq<ObjectInfo>, removed: seq<Text>, skipped: seq<Skip>)

  /** Whether a key's extension is a document's. */
  type Gate = Text -> bool

  type Seen = map<Text, ObjectInfo>
  type Tokens = map<Text, Text>

  function ChangeToken(info: ObjectInfo): Text {
    if info.etag != [] then info.etag
    else Digits(info.size) + [COLON] + Signed(info.modified)
  }

  /** Without entity tags the token moves exactly when size or modification time does. */
  lemma FallbackTokenMoves(a: ObjectInfo, b: ObjectInfo)
    requires a.etag == [] && b.etag == []
    ensures ChangeToken(a) == ChangeToken(b) <==> a.size == b.size && a.modified == b.modified
  {
    if ChangeToken(a) == ChangeToken(b) {
      var x, y := Digits(a.size), Digits(b.size);
      var t := ChangeToken(a);
      FirstColon(x, Signed(a.modified));
      FirstColon(y, Signed(b.modified));
      assert |x| == |y|;
      assert x == t[..|x|] == y;
      assert Signed(a.modified) == t[|x| + 1..] == Signed(b.modified);
      DigitsReadBack(a.size);
      DigitsReadBack(b.size);
      SignedIsInjective(a.modified, b.modified);
    }
  }

  /** With entity tags the token moves exactly when the tag does; between an object with a tag
      and one without, exactly when the tag does not spell the other's size and time. */
  lemma TaggedTokenMoves(a: ObjectInfo, b: ObjectInfo)
    requires a.etag != []
    ensures b.etag != [] ==> (ChangeToken(a) == ChangeToken(b) <==> a.etag == b.etag)
    ensures b.etag == [] ==> (ChangeToken(a) == ChangeToken(b) <==> a.etag == Digits(b.size) + [58] + Signed(b.modified))
  {
  }

  lemma {:induction false} FirstColon(a: Text, b: Text)
    requires AllDigits(a)
    ensures IndexOf(a + [COLON] + b, COLON) == |a|
  {
    var t := a + [COLON] + b;
    if a != [] {
      FirstColon(a[1..], b);
      assert t[1..] == a[1..] + [COLON] + b;
      assert t[0] == a[0] != COLON;
    }
  }

  function SkipOf(gate: Gate, info: ObjectInfo): Option<SkipReason> {
    if !gate(info.key) then Some(UnsupportedFormat)
    else if info.size == 0 then Some(EmptyObject)
    else None
  }

  /** An object is passed over as unsupported if its key is no document's, and as empty if it
      is one's and the object has no bytes. */
  lemma SkipExactly(gate: Gate, info: ObjectInfo)
    ensures SkipOf(gate, info) == Some(UnsupportedFormat) <==> !gate(info.key)
    ensures SkipOf(gate, info) == Some(EmptyObject) <==> gate(info.key) && info.size == 0
    ensures SkipOf(gate, info) != Some(Unreadable)
  {
  }

  // ---- listings ----

  /** What a completed listing observed under the prefix; a later entry for a key wins. */
  function SeenOf(infos: seq<ObjectInfo>, prefix: Text): Seen {
    if infos == [] then map[]
    else
      var last := infos[|infos| - 1];
      var before := SeenOf(infos[..|infos| - 1], prefix);
      if HasPrefix(last.key, prefix) then before[last.key := last] else before
  }

  method Enumerate(listing: Option<seq<ObjectInfo>>, prefix: Text) returns (pass: Option<Seen>)
    ensures pass == match listing case None => None case Some(infos) => Some(SeenOf(infos, prefix))
  {
    if listing.None? {
      return None;
    }
    var infos := listing.value;
    var seen: Seen := map[];
    var i := 0;
    while i < |infos|
      invariant 0 <= i <= |infos|
      invariant seen == SeenOf(infos[..i], prefix)
    {
      assert infos[..i + 1][..i] == infos[..i];
      if HasPrefix(infos[i].key, prefix) {
        seen := seen[infos[i].key := infos[i]];
      }
      i := i + 1;
    }
    assert infos[..i] == infos;
    return Some(seen);
  }

  /** A listing observes exactly the keys it names under the prefix, each as its last entry
      has it. */
  lemma {:induction false} SeenIsScoped(infos: seq<ObjectInfo>, prefix: Text)
    ensures Keyed(SeenOf(infos, prefix))
    ensures forall k :: k in SeenOf(infos, prefix) <==>
              prefix <= k && exists i :: 0 <= i < |infos| && infos[i].key == k
    ensures forall i :: 0 <= i < |infos| && infos[i].key in SeenOf(infos, prefix)
                        && (forall j :: i < j < |infos| ==> infos[j].key != infos[i].key)
                        ==> SeenOf(infos, prefix)[infos[i].key] == infos[i]
  {
    if infos != [] {
      var init := infos[..|infos| - 1];
      SeenIsScoped(init, prefix);
      assert forall i :: 0 <= i < |init| ==> init[i] == infos[i];
      assert infos[|infos| - 1].key == infos[|infos| - 1].key;
    }
  }

  predicate Keyed(seen: Seen) {
    forall k :: k in seen ==> seen[k].key == k
  }

  // ---- the plan ----

  function FetchKeys(gate: Gate, seen: Seen, previous: Tokens): set<Text> {
    set k | k in seen && SkipOf(gate, seen[k]).None?
            && (k !in previous || previous[k] != ChangeToken(seen[k]))
  }

  function SkipKeys(gate: Gate, seen: Seen): set<Text> {
    set k | k in seen && SkipOf(gate, seen[k]).Some?
  }

  function UnchangedKeys(gate: Gate, seen: Seen, previous: Tokens): set<Text> {
    set k | k in seen && SkipOf(gate, seen[k]).None?
            && k in previous && previous[k] == ChangeToken(seen[k])
  }

  function RemovedKeys(seen: Seen, previous: Tokens): set<Text> {
    previous.Keys - seen.Keys
  }

  /** Every observed object is fetched, skipped or unchanged, and only one of them. */
  lemma SeenIsPartitioned(gate: Gate, seen: Seen, previous: Tokens)
    ensures var f, s, u := FetchKeys(gate, seen, previous), SkipKeys(gate, seen), UnchangedKeys(gate, seen, previous);
            f + s + u == seen.Keys && f !! s && f !! u && s !! u && |f| + |s| + |u| == |seen|
  {
    var f, s, u := FetchKeys(gate, seen, previous), SkipKeys(gate, seen), UnchangedKeys(gate, seen, previous);
    assert f + s + u == seen.Keys;
    assert |f + s| == |f| + |s| && |f + s + u| == |f + s| + |u|;
    assert |seen.Keys| == |seen|;
  }

  ghost predicate ListsKeys(keys: seq<Text>, s: set<Text>) {
    Ascending(keys) && Elements(keys) == s
  }

  function InfosOf(keys: seq<Text>, seen: Seen): seq<ObjectInfo>
    requires forall i :: 0 <= i < |keys| ==> keys[i] in seen
  {
    seq(|keys|, i requires 0 <= i < |keys| => seen[keys[i]])
  }

  function SkipsOf(keys: seq<Text>, gate: Gate, seen: Seen): seq<Skip>
    requires forall i :: 0 <= i < |keys| ==> keys[i] in seen && SkipOf(gate, seen[keys[i]]).Some?
  {
    seq(|keys|, i requires 0 <= i < |keys| => Skip(keys[i], SkipOf(gate, seen[keys[i]]).value))
  }

  function FetchedKeys(plan: Plan): seq<Text> {
    seq(|plan.fetch|, i requires 0 <= i < |plan.fetch| => plan.fetch[i].key)
  }

  function SkippedKeys(plan: Plan): seq<Text> {
    seq(|plan.skipped|, i requires 0 <= i < |plan.skipped| => plan.skipped[i].key)
  }

  /** The plan a completed pass implies: each part in key order and complete. */
  ghost predicate IsPlan(plan: Plan, gate: Gate, seen: Seen, previous: Tokens) {
    && ListsKeys(FetchedKeys(plan), FetchKeys(gate, seen, previous))
    && (forall i :: 0 <= i < |plan.fetch| ==> plan.fetch[i].key in seen && plan.fetch[i] == seen[plan.fetch[i].key])
    && ListsKeys(SkippedKeys(plan), SkipKeys(gate, seen))
    && (forall i :: 0 <= i < |plan.skipped| ==>
          plan.skipped[i].key in seen && SkipOf(gate, seen[plan.skipped[i].key]) == Some(plan.skipped[i].reason))
    && ListsKeys(plan.removed, RemovedKeys(seen, previous))
  }

  /** There is one such plan, whatever order the maps were walked in. */
  lemma PlanIsUnique(a: Plan, b: Plan, gate: Gate, seen: Seen, previous: Tokens)
    requires IsPlan(a, gate, seen, previous) && IsPlan(b, gate, seen, previous)
    ensures a == b
  {
    AscendingIsUnique(FetchedKeys(a), FetchedKeys(b));
    AscendingIsUnique(SkippedKeys(a), SkippedKeys(b));
    AscendingIsUnique(a.removed, b.removed);
    assert |FetchedKeys(a)| == |a.fetch| && |FetchedKeys(b)| == |b.fetch|;
    forall i | 0 <= i < |a.fetch| ensures a.fetch[i] == b.fetch[i] {
      assert FetchedKeys(a)[i] == FetchedKeys(b)[i];
    }
    assert |SkippedKeys(a)| == |a.skipped| && |SkippedKeys(b)| == |b.skipped|;
    forall i | 0 <= i < |a.skipped| ensures a.skipped[i] == b.skipped[i] {
      assert SkippedKeys(a)[i] == SkippedKeys(b)[i];
    }
  }

  predicate Distinct(s: seq<Text>) {
    forall i, j :: 0 <= i < j < |s| ==> s[i] != s[j]
  }

  lemma OneMoreKey(keys: seq<Text>, done: set<Text>, k: Text)
    requires Distinct(keys) && Elements(keys) == done && k !in done
    ensures Distinct(keys + [k]) && Elements(keys + [k]) == done + {k}
  {
    forall i | 0 <= i < |keys| ensures keys[i] != k {
      assert keys[i] in Elements(keys);
    }
  }

  /** The two loops over what was seen and what was ingested before, and the sorting. A pass
      that did not finish plans nothing. */
  method MakePlan(gate: Gate, pass: Option<Seen>, previous: Tokens) returns (plan: Plan)
    requires pass.Some? ==> Keyed(pass.value)
    ensures pass.None? ==> plan == Plan([], [], [])
    ensures pass.Some? ==> IsPlan(plan, gate, pass.value, previous)
  {
    if pass.None? {
      return Plan([], [], []);
    }
    var seen := pass.value;
    var fetch, skipped := SortSeen(gate, seen, previous);
    var removed := FindRemoved(seen, previous);
    plan := Plan(InfosOf(fetch, seen), removed, SkipsOf(skipped, gate, seen));
    assert FetchedKeys(plan) == fetch;
    assert SkippedKeys(plan) == skipped;
  }

  lemma Visit(s: set<Text>, todo: set<Text>, k: Text)
    requires k in todo
    ensures k in s ==> s - (todo - {k}) == s - todo + {k} && k !in s - todo
    ensures k !in s ==> s - (todo - {k}) == s - todo
  {
  }

  lemma WhereKeyGoes(gate: Gate, seen: Seen, previous: Tokens, k: Text)
    ensures k in FetchKeys(gate, seen, previous) <==>
              k in seen && SkipOf(gate, seen[k]).None? && (k !in previous || previous[k] != ChangeToken(seen[k]))
    ensures k in SkipKeys(gate, seen) <==> k in seen && SkipOf(gate, seen[k]).Some?
  {
  }

  lemma KeysSeen(gate: Gate, seen: Seen, previous: Tokens)
    ensures FetchKeys(gate, seen, previous) <= seen.Keys && SkipKeys(gate, seen) <= seen.Keys
  {
  }

  lemma RemovedWereKnown(seen: Seen, previous: Tokens)
    ensures RemovedKeys(seen, previous) <= previous.Keys
  {
  }

  lemma RemovedIsUnseen(seen: Seen, previous: Tokens, k: Text)
    ensures k in RemovedKeys(seen, previous) <==> k in previous && k !in seen
  {
  }

  lemma NoKeys()
    ensures Distinct([]) && Elements([]) == {}
  {
  }

  lemma ListedIsIn(keys: seq<Text>, s: set<Text>, i: nat)
    requires ListsKeys(keys, s) && i < |keys|
    ensures keys[i] in s
  {
    assert keys[i] in Elements(keys);
  }

  /** The same keys in order. */
  function SortKeys(keys: seq<Text>): (sorted: seq<Text>)
    requires Distinct(keys)
    ensures ListsKeys(sorted, Elements(keys))
  {
    SortSorts(keys);
    Sort(keys)
  }

  method SortSeen(gate: Gate, seen: Seen, previous: Tokens) returns (fetch: seq<Text>, skipped: seq<Text>)
    ensures ListsKeys(fetch, FetchKeys(gate, seen, previous))
    ensures ListsKeys(skipped, SkipKeys(gate, seen))
    ensures forall i :: 0 <= i < |fetch| ==> fetch[i] in seen
    ensures forall i :: 0 <= i < |skipped| ==> skipped[i] in seen && SkipOf(gate, seen[skipped[i]]).Some?
  {
    hide ChangeToken, SkipOf, FetchKeys, SkipKeys, Distinct, Elements;
    fetch, skipped := [], [];
    var todo := seen.Keys;
    ghost var f, s := FetchKeys(gate, seen, previous), SkipKeys(gate, seen);
    KeysSeen(gate, seen, previous);
    assert f - todo == {} && s - todo == {};
    NoKeys();
    while todo != {}
      invariant todo <= seen.Keys
      invariant Distinct(fetch) && Elements(fetch) == f - todo
      invariant Distinct(skipped) && Elements(skipped) == s - todo
      decreases |todo|
    {
      var k :| k in todo;
      var info := seen[k];
      WhereKeyGoes(gate, seen, previous, k);
      Visit(f, todo, k);
      Visit(s, todo, k);
      if SkipOf(gate, info).Some? {
        OneMoreKey(skipped, s - todo, k);
        skipped := skipped + [k];
      } else if k in previous && previous[k] == ChangeToken(info) {
      } else {
        OneMoreKey(fetch, f - todo, k);
        fetch := fetch + [k];
      }
      todo := todo - {k};
    }
    assert f - todo == f && s - todo == s;
    fetch, skipped := SortKeys(fetch), SortKeys(skipped);
    forall i | 0 <= i < |skipped| ensures skipped[i] in seen && SkipOf(gate, seen[skipped[i]]).Some? {
      ListedIsIn(skipped, s, i);
      WhereKeyGoes(gate, seen, previous, skipped[i]);
    }
    forall i | 0 <= i < |fetch| ensures fetch[i] in seen {
      ListedIsIn(fetch, f, i);
    }
  }

  method FindRemoved(seen: Seen, previous: Tokens) returns (removed: seq<Text>)
    ensures ListsKeys(removed, RemovedKeys(seen, previous))
  {
    hide Distinct, Elements, RemovedKeys;
    removed := [];
    ghost var r := RemovedKeys(seen, previous);
    RemovedWereKnown(seen, previous);
    NoKeys();
    var todo := previous.Keys;
    while todo != {}
      invariant todo <= previous.Keys
      invariant Distinct(removed) && Elements(removed) == r - todo
      decreases |todo|
    {
      var k :| k in todo;
      Visit(r, todo, k);
      RemovedIsUnseen(seen, previous, k);
      if k !in seen {
        OneMoreKey(removed, r - todo, k);
        removed := removed + [k];
      }
      todo := todo - {k};
    }
    assert r - todo == r;
    removed := SortKeys(removed);
  }

  // ---- what a pass leaves recorded ----

  /** The tokens after recording the objects that could be read. */
  function Learned(previous: Tokens, seen: Seen, readable: set<Text>): Tokens {
    previous + map k | k in readable && k in seen :: ChangeToken(seen[k])
  }

  lemma LearnedAt(previous: Tokens, seen: Seen, readable: set<Text>, k: Text)
    ensures var now := Learned(previous, seen, readable) - RemovedKeys(seen, previous);
            && (k in now <==> (k in previous || k in readable) && k in seen)
            && (k in now ==> now[k] == if k in readable then ChangeToken(seen[k]) else previous[k])
  {
    hide ChangeToken;
  }

  lemma NothingLeftToRemove(previous: Tokens, seen: Seen, readable: set<Text>)
    ensures RemovedKeys(seen, Learned(previous, seen, readable) - RemovedKeys(seen, previous)) == {}
  {
    hide ChangeToken;
  }

  /** A document recorded as `was` is fetched when listed again if and only if it still can be
      and has changed: by its tag if it had and has one, by size or time if it had and has
      none. */
  lemma RefetchedExactly(gate: Gate, seen: Seen, previous: Tokens, k: Text, was: ObjectInfo)
    requires k in seen && seen[k].key == k && k in previous && previous[k] == ChangeToken(was)
    ensures was.etag != [] && seen[k].etag != [] ==>
              (k in FetchKeys(gate, seen, previous) <==> gate(k) && seen[k].size > 0 && seen[k].etag != was.etag)
    ensures was.etag == [] && seen[k].etag == [] ==>
              (k in FetchKeys(gate, seen, previous) <==>
                 gate(k) && seen[k].size > 0 && (seen[k].size != was.size || seen[k].modified != was.modified))
  {
    hide ChangeToken, FetchKeys;
    WhereKeyGoes(gate, seen, previous, k);
    if was.etag != [] && seen[k].etag != [] {
      TaggedTokenMoves(was, seen[k]);
    }
    if was.etag == [] && seen[k].etag == [] {
      FallbackTokenMoves(was, seen[k]);
    }
  }

  /** A document not recorded at all is fetched if and only if it can be. */
  lemma NewIsFetched(gate: Gate, seen: Seen, previous: Tokens, k: Text)
    requires k in seen && seen[k].key == k && k !in previous
    ensures k in FetchKeys(gate, seen, previous) <==> gate(k) && seen[k].size > 0
  {
    hide ChangeToken;
  }

  /** Planned again on the same listing, a pass fetches exactly what it could not read, and
      once the removed keys are forgotten nothing is left to remove. */
  lemma ReplanFetchesTheUnread(gate: Gate, seen: Seen, previous: Tokens, readable: set<Text>)
    requires readable <= FetchKeys(gate, seen, previous)
    ensures var now := Learned(previous, seen, readable) - RemovedKeys(seen, previous);
            && FetchKeys(gate, seen, now) == FetchKeys(gate, seen, previous) - readable
            && RemovedKeys(seen, now) == {}
            && SkipKeys(gate, seen) + UnchangedKeys(gate, seen, now) + (FetchKeys(gate, seen, previous) - readable)
               == seen.Keys
  {
    hide ChangeToken, SkipOf, FetchKeys, SkipKeys, UnchangedKeys, RemovedKeys, Learned;
    var now := Learned(previous, seen, readable) - RemovedKeys(seen, previous);
    forall k ensures k in FetchKeys(gate, seen, now) <==> k in FetchKeys(gate, seen, previous) - readable {
      LearnedAt(previous, seen, readable, k);
      WhereKeyGoes(gate, seen, previous, k);
      WhereKeyGoes(gate, seen, now, k);
    }
    assert FetchKeys(gate, seen, now) == FetchKeys(gate, seen, previous) - readable;
    assert RemovedKeys(seen, now) == {} by { NothingLeftToRemove(previous, seen, readable); }
    SeenIsPartitioned(gate, seen, now);
  }
}
