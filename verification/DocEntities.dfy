/** The entities a document becomes, and what re-ingesting it leaves in the graph. */
module DocEntities {
  import opened Bytes
  import opened Segments
  import opened EntityId
  import opened Identity
  import opened Decimal
  import Sections
  import Headings
  import KeyGroups
  import Splitter
  import Cuts

  datatype Entity =
    | Document(path: Text, chunkCount: nat)
    | Chunk(parent: Text, path: Text, index: nat, body: Text)

  datatype State = State(id: Text, entity: Entity)

  datatype Ingest = Emitted(states: seq<State>) | Rejected | NeverEnds

  type Graph = map<Text, Entity>

  /** What names a document: where it lives and under whose authority. */
  datatype Home = Home(authority: Authority, system: Text, path: Text) {
    function DocStem(): Stem {
      Stem(authority, system, Ascii("web"), Ascii("doc"))
    }

    function ChunkStem(): Stem {
      Stem(authority, system, Ascii("web"), Ascii("chunk"))
    }

    predicate Valid() {
      authority.Valid() && DOT !in system
    }
  }

  function DocumentID(d: Digest, h: Home): Text {
    Build(d, h.DocStem(), SanitizeInstance(d, h.path))
  }

  function ChunkInstance(d: Digest, path: Text, ordinal: nat): Text {
    SanitizeInstance(d, path) + [DASH] + Padded(ordinal, 4)
  }

  function ChunkID(d: Digest, h: Home, ordinal: nat): Text {
    Build(d, h.ChunkStem(), ChunkInstance(d, h.path, ordinal))
  }

  function DocumentState(d: Digest, h: Home, count: nat): State {
    State(DocumentID(d, h), Document(h.path, count))
  }

  function ChunkState(d: Digest, h: Home, p: Splitter.Passage): State {
    State(ChunkID(d, h, p.ordinal), Chunk(DocumentID(d, h), h.path, p.ordinal, p.body))
  }

  /** The document's entity, then one per passage. */
  function States(d: Digest, h: Home, ps: seq<Splitter.Passage>): seq<State> {
    [DocumentState(d, h, |ps|)] + ChunkStates(d, h, ps)
  }

  function ChunkStates(d: Digest, h: Home, ps: seq<Splitter.Passage>): seq<State> {
    seq(|ps|, i requires 0 <= i < |ps| => ChunkState(d, h, ps[i]))
  }

  /** Ingesting one document's content. `stores` says which passages the
      body store takes; one it refuses rejects the ingest. */
  method IngestContent(d: Digest, h: Home, content: Text, b: Sections.Bounds, f: Headings.DocFormat,
                       u: KeyGroups.Tables, stores: nat -> bool) returns (r: Ingest)
    ensures !h.authority.Valid() ==> r == Rejected
    ensures r.Emitted? <==> h.authority.Valid() && Splitter.Passages(content, b, f, u).Done?
                            && forall i :: 0 <= i < |Splitter.Passages(content, b, f, u).value| ==> stores(i)
    ensures r.Emitted? ==> Splitter.Passages(content, b, f, u).Done?
                           && r.states == States(d, h, Splitter.Passages(content, b, f, u).value)
    ensures r == NeverEnds <==> h.authority.Valid() && Splitter.Passages(content, b, f, u).Loops?
  {
    hide Splitter.Passages, Build, SanitizeInstance, Padded, DottedSegments;
    if !h.authority.Valid() {
      return Rejected;
    }
    var split := Splitter.SplitPassages(content, b, f, u);
    if split.Loops? {
      return NeverEnds;
    }
    var ps := split.value;
    var states := [DocumentState(d, h, |ps|)];
    var i := 0;
    while i < |ps|
      invariant 0 <= i <= |ps|
      invariant states == [DocumentState(d, h, |ps|)] + ChunkStates(d, h, ps[..i])
      invariant forall k :: 0 <= k < i ==> stores(k)
    {
      if !stores(i) {
        return Rejected;
      }
      OneMoreChunk(d, h, ps, i);
      states := states + [ChunkState(d, h, ps[i])];
      i := i + 1;
    }
    assert ps[..i] == ps;
    return Emitted(states);
  }

  // ---- identities ----

  lemma StemsAreDotFree(h: Home)
    requires h.Valid()
    ensures DotFree(h.DocStem()) && DotFree(h.ChunkStem())
  {
    hide DottedSegments;
    AuthorityHalves(h.authority);
    assert DOT !in Ascii("web") && DOT !in Ascii("doc") && DOT !in Ascii("chunk");
  }

  /** The identities of a document and of its passage number `i`, where they fit. */
  lemma IDsExactly(d: Digest, h: Home, i: nat)
    requires h.Valid()
    ensures var stem := |h.authority.org| + |h.authority.platform| + |h.system|;
            && (stem + |SanitizeInstance(d, h.path)| <= 256 - 11 ==>
                  SplitN(DocumentID(d, h), 6) == [h.authority.org, h.authority.platform, h.system, Ascii("web"), Ascii("doc"),
                                                  SanitizeInstance(d, h.path)])
            && var instance := SanitizeInstance(d, h.path) + [45] + Padded(i, 4);
               (stem + |instance| <= 256 - 13 ==>
                  SplitN(ChunkID(d, h, i), 6) == [h.authority.org, h.authority.platform, h.system, Ascii("web"), Ascii("chunk"),
                                                  instance])
  {
    hide Build, SanitizeInstance, Padded, DottedSegments, SplitN, BoundInstance;
    StemsAreDotFree(h);
    BuildSplits(d, h.DocStem(), SanitizeInstance(d, h.path));
    BuildSplits(d, h.ChunkStem(), ChunkInstance(d, h.path, i));
  }

  /** What an ingest emits, entity by entity. */
  lemma StatesExactly(d: Digest, h: Home, ps: seq<Splitter.Passage>)
    ensures |States(d, h, ps)| == |ps| + 1
    ensures States(d, h, ps)[0] == State(DocumentID(d, h), Document(h.path, |ps|))
    ensures forall i :: 0 <= i < |ps| ==>
              States(d, h, ps)[i + 1] == State(ChunkID(d, h, ps[i].ordinal),
                                               Chunk(DocumentID(d, h), h.path, ps[i].ordinal, ps[i].body))
  {
    hide Build, SanitizeInstance, Padded;
  }

  /** A document is never taken for a passage, of its own or of another document. */
  lemma DocumentIsNoChunk(d: Digest, h: Home, other: Home, ordinal: nat)
    requires h.Valid() && other.Valid()
    ensures DocumentID(d, h) != ChunkID(d, other, ordinal)
  {
    hide Build, SanitizeInstance, Padded, DottedSegments;
    StemsAreDotFree(h);
    StemsAreDotFree(other);
    assert |Ascii("doc")| != |Ascii("chunk")|;
    if DocumentID(d, h) == ChunkID(d, other, ordinal) {
      BuildCollision(d, h.DocStem(), other.ChunkStem(), SanitizeInstance(d, h.path),
                     ChunkInstance(d, other.path, ordinal));
    }
  }

  lemma ChunkInstancesDiffer(d: Digest, path: Text, i: nat, j: nat)
    requires ChunkInstance(d, path, i) == ChunkInstance(d, path, j)
    ensures i == j
  {
    hide SanitizeInstance, Padded, Value;
    var base := SanitizeInstance(d, path);
    var x := ChunkInstance(d, path, i);
    assert x[|base| + 1..] == Padded(i, 4);
    assert x[|base| + 1..] == Padded(j, 4);
    PaddedReadsBack(i, 4);
    PaddedReadsBack(j, 4);
  }

  /** Whether assembling a passage's identity has to shorten its instance. */
  predicate Shortened(d: Digest, h: Home, ordinal: nat) {
    h.ChunkStem().Length() + |ChunkInstance(d, h.path, ordinal)| > MAX_ENTITY_ID
  }

  /** Passages of one document have distinct identities, unless an instance had to be
      shortened and its short hash coincides with the other's or with its tail. */
  lemma ChunkIDsDiffer(d: Digest, h: Home, i: nat, j: nat)
    requires h.Valid() && ChunkID(d, h, i) == ChunkID(d, h, j)
    ensures var a, b := ChunkInstance(d, h.path, i), ChunkInstance(d, h.path, j);
            || i == j
            || (Shortened(d, h, i) && Shortened(d, h, j) && ShortHash(d, a) == ShortHash(d, b))
            || (!Shortened(d, h, i) && Shortened(d, h, j)
                && |a| >= SHORT_HASH && a[|a| - SHORT_HASH..] == ShortHash(d, b))
            || (Shortened(d, h, i) && !Shortened(d, h, j)
                && |b| >= SHORT_HASH && b[|b| - SHORT_HASH..] == ShortHash(d, a))
  {
    hide Build, SanitizeInstance, Padded, DottedSegments, Hex, ChunkInstance;
    StemsAreDotFree(h);
    var a, b := ChunkInstance(d, h.path, i), ChunkInstance(d, h.path, j);
    BuildCollision(d, h.ChunkStem(), h.ChunkStem(), a, b);
    BuildCollision(d, h.ChunkStem(), h.ChunkStem(), b, a);
    if a == b {
      ChunkInstancesDiffer(d, h.path, i, j);
    }
  }

  // ---- what a graph holds after ingesting ----

  /** Each state replaces what its identity held. */
  function Overlay(g: Graph, states: seq<State>): Graph {
    if states == [] then g
    else Overlay(g, states[..|states| - 1])[states[|states| - 1].id := states[|states| - 1].entity]
  }

  ghost predicate Numbered(ps: seq<Splitter.Passage>) {
    forall i :: 0 <= i < |ps| ==> ps[i].ordinal == i
  }

  ghost predicate DistinctIDs(d: Digest, h: Home, n: nat) {
    forall i, j :: 0 <= i < n && 0 <= j < n && ChunkID(d, h, i) == ChunkID(d, h, j) ==> i == j
  }

  lemma {:induction false} OverlayAt(g: Graph, states: seq<State>, k: nat, id: Text)
    requires k < |states| && states[k].id == id
    requires forall i :: k < i < |states| ==> states[i].id != id
    ensures id in Overlay(g, states) && Overlay(g, states)[id] == states[k].entity
  {
    var init := states[..|states| - 1];
    if k < |init| {
      assert forall i :: k < i < |init| ==> init[i] == states[i];
      OverlayAt(g, init, k, id);
    }
  }

  lemma {:induction false} OverlayElsewhere(g: Graph, states: seq<State>, id: Text)
    requires forall i :: 0 <= i < |states| ==> states[i].id != id
    ensures id in Overlay(g, states) <==> id in g
    ensures id in g ==> Overlay(g, states)[id] == g[id]
  {
    if states != [] {
      var init := states[..|states| - 1];
      assert forall i :: 0 <= i < |init| ==> init[i] == states[i];
      OverlayElsewhere(g, init, id);
    }
  }

  lemma OneMoreChunk(d: Digest, h: Home, ps: seq<Splitter.Passage>, i: nat)
    requires i < |ps|
    ensures ChunkStates(d, h, ps[..i + 1]) == ChunkStates(d, h, ps[..i]) + [ChunkState(d, h, ps[i])]
  {
    hide ChunkState;
    assert ps[..i + 1] == ps[..i] + [ps[i]];
  }

  lemma StatesShape(d: Digest, h: Home, ps: seq<Splitter.Passage>)
    ensures |States(d, h, ps)| == |ps| + 1 && States(d, h, ps)[0] == DocumentState(d, h, |ps|)
  {
    hide ChunkState, DocumentState;
  }

  lemma StateAt(d: Digest, h: Home, ps: seq<Splitter.Passage>, i: nat)
    requires Numbered(ps) && i < |ps|
    ensures |States(d, h, ps)| == |ps| + 1
    ensures States(d, h, ps)[i + 1] == ChunkState(d, h, ps[i])
    ensures ChunkState(d, h, ps[i]).id == ChunkID(d, h, i)
  {
    hide ChunkID, DocumentID;
    assert ps[i].ordinal == i;
    assert ChunkStates(d, h, ps)[i] == ChunkState(d, h, ps[i]);
  }

  lemma IdAt(d: Digest, h: Home, ps: seq<Splitter.Passage>, k: nat)
    requires Numbered(ps) && 1 <= k <= |ps|
    ensures |States(d, h, ps)| == |ps| + 1 && States(d, h, ps)[k].id == ChunkID(d, h, k - 1)
  {
    hide ChunkID, DocumentID, States, Hex;
    StateAt(d, h, ps, k - 1);
  }

  /** The splitter numbers passages from 0 on, in order. */
  lemma PassagesAreNumbered(content: Text, b: Sections.Bounds, f: Headings.DocFormat, u: KeyGroups.Tables)
    ensures var r := Splitter.Passages(content, b, f, u); r.Done? ==> Numbered(r.value)
  {
    hide Splitter.Passages;
    var r := Splitter.Passages(content, b, f, u);
    if r.Done? {
      forall k | 0 <= k < |r.value| ensures r.value[k].ordinal == k {
        var _ := Splitter.PassagesAreSlices(content, b, f, u, k);
      }
    }
  }

  lemma IngestedDocument(d: Digest, h: Home, g: Graph, ps: seq<Splitter.Passage>)
    requires h.Valid() && Numbered(ps)
    ensures var after := Overlay(g, States(d, h, ps));
            DocumentID(d, h) in after && after[DocumentID(d, h)] == Document(h.path, |ps|)
  {
    hide Hex, Home.Valid, Numbered, ChunkID, DocumentID, States, Overlay, DottedSegments;
    var s := States(d, h, ps);
    StatesShape(d, h, ps);
    forall i | 0 < i < |s| ensures s[i].id != DocumentID(d, h) {
      IdAt(d, h, ps, i);
      DocumentIsNoChunk(d, h, h, i - 1);
    }
    OverlayAt(g, s, 0, DocumentID(d, h));
  }

  lemma DistinctAt(d: Digest, h: Home, n: nat, i: nat, j: nat)
    requires DistinctIDs(d, h, n) && i < n && j < n && ChunkID(d, h, i) == ChunkID(d, h, j)
    ensures i == j
  {
  }

  lemma OtherIDDiffers(d: Digest, h: Home, ps: seq<Splitter.Passage>, n: nat, i: nat, k: nat)
    requires Numbered(ps) && DistinctIDs(d, h, n) && 1 <= k <= |ps| && |ps| <= n && i < n && k - 1 != i
    requires |States(d, h, ps)| == |ps| + 1
    ensures States(d, h, ps)[k].id != ChunkID(d, h, i)
  {
    hide ChunkID, DocumentID, States, DistinctIDs, Hex, ChunkState, Numbered;
    if States(d, h, ps)[k].id == ChunkID(d, h, i) {
      IdAt(d, h, ps, k);
      DistinctAt(d, h, n, k - 1, i);
    }
  }

  lemma IngestedChunk(d: Digest, h: Home, g: Graph, ps: seq<Splitter.Passage>, n: nat, i: nat)
    requires Numbered(ps) && DistinctIDs(d, h, n) && i < |ps| <= n
    ensures var after := Overlay(g, States(d, h, ps));
            ChunkID(d, h, i) in after && after[ChunkID(d, h, i)] == ChunkState(d, h, ps[i]).entity
  {
    hide DistinctIDs, Hex, Numbered, ChunkID, DocumentID, States, Overlay, ChunkState;
    var s := States(d, h, ps);
    StateAt(d, h, ps, i);
    forall k | i + 1 < k < |s| ensures s[k].id != ChunkID(d, h, i) {
      OtherIDDiffers(d, h, ps, n, i, k);
    }
    OverlayAt(g, s, i + 1, ChunkID(d, h, i));
  }

  lemma OtherChunkUntouched(d: Digest, h: Home, g: Graph, ps: seq<Splitter.Passage>, n: nat, i: nat)
    requires h.Valid() && Numbered(ps) && DistinctIDs(d, h, n) && |ps| <= i < n
    ensures var after := Overlay(g, States(d, h, ps));
            && (ChunkID(d, h, i) in after <==> ChunkID(d, h, i) in g)
            && (ChunkID(d, h, i) in g ==> after[ChunkID(d, h, i)] == g[ChunkID(d, h, i)])
  {
    hide DistinctIDs, Hex, Home.Valid, Numbered, ChunkID, DocumentID, States, Overlay, DottedSegments, ChunkState;
    var s := States(d, h, ps);
    StatesShape(d, h, ps);
    assert |s| == |ps| + 1;
    DocumentIsNoChunk(d, h, h, i);
    forall k | 0 <= k < |s| ensures s[k].id != ChunkID(d, h, i) {
      if k > 0 {
        OtherIDDiffers(d, h, ps, n, i, k);
      }
    }
    OverlayElsewhere(g, s, ChunkID(d, h, i));
  }

  // ---- any history of ingests ----

  /** What one document's path has been ingested as, oldest first. */
  type History = seq<seq<Splitter.Passage>>

  function Ingested(d: Digest, h: Home, g: Graph, history: History): Graph {
    if history == [] then g
    else
      var last := |history| - 1;
      Overlay(Ingested(d, h, g, history[..last]), States(d, h, history[last]))
  }

  /** The latest version with more than `i` passages. */
  function Holder(history: History, i: nat): Option<nat> {
    if history == [] then None
    else
      var last := |history| - 1;
      if i < |history[last]| then Some(last) else Holder(history[..last], i)
  }

  /** The holder is the last version exactly when that version is long enough; every version
      after the holder is too short. */
  lemma {:induction false} HolderIsLatest(history: History, i: nat)
    ensures match Holder(history, i)
            case Some(v) => v < |history| && i < |history[v]| && forall w :: v < w < |history| ==> |history[w]| <= i
            case None => forall w :: 0 <= w < |history| ==> |history[w]| <= i
  {
    if history != [] {
      HolderIsLatest(history[..|history| - 1], i);
    }
  }

  ghost predicate AllNumbered(history: History, n: nat) {
    forall v :: 0 <= v < |history| ==> Numbered(history[v]) && |history[v]| <= n
  }

  /** Passage number `i` stands in the graph under its own index, as its latest version had
      it; where no version had one, the graph is as it was before any. */
  ghost predicate Stands(d: Digest, h: Home, g: Graph, after: Graph, history: History, i: nat) {
    var id := ChunkID(d, h, i);
    match Holder(history, i)
    case Some(v) =>
      && v < |history| && i < |history[v]|
      && id in after && after[id] == ChunkState(d, h, history[v][i]).entity
      && after[id].Chunk? && after[id].index == i
    case None => (id in after <==> id in g) && (id in g ==> after[id] == g[id])
  }

  lemma {:induction false} ChunkAfterHistory(d: Digest, h: Home, g: Graph, history: History, n: nat, i: nat)
    requires h.Valid() && AllNumbered(history, n) && DistinctIDs(d, h, n) && i < n
    ensures Stands(d, h, g, Ingested(d, h, g, history), history, i)
  {
    hide ChunkID, DocumentID, States, Overlay, DottedSegments, DistinctIDs, Numbered;
    if history != [] {
      var last := |history| - 1;
      var init, now := history[..last], history[last];
      ChunkAfterHistory(d, h, g, init, n, i);
      var before := Ingested(d, h, g, init);
      HolderIsLatest(init, i);
      if i < |now| {
        IngestedChunk(d, h, before, now, n, i);
        OrdinalAt(now, i);
      } else {
        OtherChunkUntouched(d, h, before, now, n, i);
      }
    }
  }

  lemma OrdinalAt(ps: seq<Splitter.Passage>, i: nat)
    requires Numbered(ps) && i < |ps|
    ensures ps[i].ordinal == i
  {
  }

  /** After any history of ingests of one path, over any graph: the document carries the
      latest count; each passage stands as the latest version long enough to have it left
      it; and the passages the document no longer has are exactly those whose index is at
      or above that count. */
  lemma StaleExactlyAboveCount(d: Digest, h: Home, g: Graph, history: History, n: nat)
    requires h.Valid() && history != [] && AllNumbered(history, n) && DistinctIDs(d, h, n)
    ensures var after := Ingested(d, h, g, history);
            && DocumentID(d, h) in after
            && after[DocumentID(d, h)] == Document(h.path, |history[|history| - 1]|)
            && (forall i :: 0 <= i < n ==> Stands(d, h, g, after, history, i))
            && (forall i: nat :: Holder(history, i) == Some(|history| - 1)
                                 <==> i < after[DocumentID(d, h)].chunkCount)
  {
    hide ChunkID, DocumentID, States, Overlay, DottedSegments, DistinctIDs, Stands, Numbered;
    var last := |history| - 1;
    IngestedDocument(d, h, Ingested(d, h, g, history[..last]), history[last]);
    forall i | 0 <= i < n ensures Stands(d, h, g, Ingested(d, h, g, history), history, i) {
      ChunkAfterHistory(d, h, g, history, n, i);
    }
    forall i: nat ensures Holder(history, i) == Some(last) <==> i < |history[last]| {
      HolderIsLatest(history, i);
    }
  }

  /** What the splitter makes of each version of a document. */
  function Versions(contents: seq<Text>, b: Sections.Bounds, f: Headings.DocFormat, u: KeyGroups.Tables): History
    requires forall k :: 0 <= k < |contents| ==> Splitter.Passages(contents[k], b, f, u).Done?
  {
    seq(|contents|, k requires 0 <= k < |contents| => Splitter.Passages(contents[k], b, f, u).value)
  }

  /** The same of the texts themselves: however a document was edited and re-ingested, its
      stale passages are exactly those at or above its count. */
  lemma ReingestedDocument(d: Digest, h: Home, g: Graph, contents: seq<Text>, b: Sections.Bounds,
                           f: Headings.DocFormat, u: KeyGroups.Tables, n: nat)
    requires h.Valid() && contents != [] && DistinctIDs(d, h, n)
    requires forall k :: 0 <= k < |contents| ==>
      Splitter.Passages(contents[k], b, f, u).Done? && |Splitter.Passages(contents[k], b, f, u).value| <= n
    ensures var history := Versions(contents, b, f, u);
            var after := Ingested(d, h, g, history);
            && DocumentID(d, h) in after
            && after[DocumentID(d, h)]
               == Document(h.path, |Splitter.Passages(contents[|contents| - 1], b, f, u).value|)
            && (forall i :: 0 <= i < n ==> Stands(d, h, g, after, history, i))
            && (forall i: nat :: Holder(history, i) == Some(|contents| - 1)
                                 <==> i < after[DocumentID(d, h)].chunkCount)
  {
    hide Splitter.Passages, DocumentID, Ingested, Stands, Holder, DistinctIDs, Numbered, Home.Valid;
    var history := Versions(contents, b, f, u);
    forall v | 0 <= v < |history| ensures Numbered(history[v]) && |history[v]| <= n {
      PassagesAreNumbered(contents[v], b, f, u);
    }
    StaleExactlyAboveCount(d, h, g, history, n);
  }
}
