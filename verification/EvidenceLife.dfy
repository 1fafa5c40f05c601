/** Evidence objects, what needs them, and when they are deleted: each call is one step of a shared state. */
module EvidenceLife {
  import opened Options

  type Id = nat
  type Digest = nat
  type Time = nat

  const UPLOAD_TTL := 300

  /** An object is named by the digest of its bytes; a staged upload by its session. */
  datatype Ref = Object(digest: Digest) | Staging(upload: Id)

  /** An artifact of a capture, by its position from 1. */
  datatype Slot = Slot(capture: Id, position: nat)

  datatype Row = Row(source: string, original: Ref, readable: Ref, live: bool)

  /** Stored bytes, by their digest and how many they are. */
  datatype Content = Content(digest: Digest, bytes: nat)

  /** What an upload declares: the object its bytes make, how many, and where they come from. */
  datatype Artifact = Artifact(blob: Ref, bytes: nat, media: string, name: Option<string>, url: Option<string>)

  datatype Session = Session(actor: string, key: string, artifact: Artifact, expires: Time, verified: bool,
                             consumer: Option<Id>)

  /** A queued capture: the objects its request names, the readable texts its extraction stored. */
  datatype Capture = Capture(originals: seq<Ref>, readables: seq<Ref>, landed: bool)

  /** `store` maps each key to what is stored under it. */
  datatype State = State(store: map<Ref, Content>, rows: map<Slot, Row>, sessions: map<Id, Session>,
                         captures: map<Id, Capture>, patches: map<Id, Ref>, clock: Time)

  // ---- what is needed ---------------------------------------------------------------------------------

  predicate InRow(s: State, ref: Ref) {
    exists k :: k in s.rows && s.rows[k].live && (s.rows[k].original == ref || s.rows[k].readable == ref)
  }

  predicate InUpload(s: State, ref: Ref) {
    exists k :: k in s.sessions && s.sessions[k].consumer.None? && s.sessions[k].expires >= s.clock
      && s.sessions[k].artifact.blob == ref
  }

  predicate InCapture(s: State, ref: Ref) {
    exists k :: k in s.captures && !s.captures[k].landed
      && (ref in s.captures[k].originals || ref in s.captures[k].readables)
  }

  predicate InPatch(s: State, ref: Ref) { exists k :: k in s.patches && s.patches[k] == ref }

  /** What must never be deleted: named by a live row, a capture not landed, its extraction, or a change's patch. */
  predicate Protected(s: State, ref: Ref) { InRow(s, ref) || InCapture(s, ref) || InPatch(s, ref) }

  predicate IsLive(s: State, ref: Ref) { InRow(s, ref) || InUpload(s, ref) || InCapture(s, ref) || InPatch(s, ref) }

  // ---- single updates -----------------------------------------------------------------------------------

  function Put(s: State, content: Content): State {
    if Object(content.digest) in s.store then s else s.(store := s.store[Object(content.digest) := content])
  }

  function Objects(digests: seq<Digest>): (r: seq<Ref>)
    ensures |r| == |digests| && forall k :: 0 <= k < |r| ==> r[k] == Object(digests[k])
  {
    seq(|digests|, k requires 0 <= k < |digests| => Object(digests[k]))
  }

  function Drop(s: State, refs: set<Ref>): State { s.(store := s.store - refs) }

  /** The objects of `refs` nothing needs. */
  function Unneeded(s: State, refs: set<Ref>): set<Ref> { set r | r in refs && !IsLive(s, r) }

  function WithRow(s: State, key: Slot, row: Row): State { s.(rows := s.rows[key := row]) }

  /** A row can be recorded if it is new or says what it said before. */
  predicate Recordable(s: State, key: Slot, row: Row) { key in s.rows ==> s.rows[key].(live := true) == row }

  function RowOf(c: Capture, source: string, readables: seq<Ref>, k: nat): Row
    requires k < |c.originals| == |readables|
  {
    Row(source, c.originals[k], readables[k], true)
  }

  /** The first `count` artifacts of a capture, recorded one by one. */
  function Recorded(s: State, id: Id, c: Capture, source: string, readables: seq<Ref>, count: nat): State
    requires count <= |c.originals| == |readables|
  {
    if count == 0 then s
    else WithRow(Recorded(s, id, c, source, readables, count - 1), Slot(id, count),
                 RowOf(c, source, readables, count - 1))
  }

  function Candidates(s: State, sources: set<string>): set<Ref> {
    (set k | k in s.rows && s.rows[k].source in sources :: s.rows[k].original)
    + (set k | k in s.rows && s.rows[k].source in sources :: s.rows[k].readable)
  }

  function Released(s: State, sources: set<string>): State {
    s.(rows := map k | k in s.rows :: if s.rows[k].source in sources then s.rows[k].(live := false) else s.rows[k])
  }

  /** What a release hands back for deletion. */
  function Garbage(s: State, sources: set<string>): set<Ref> { Unneeded(Released(s, sources), Candidates(s, sources)) }

  function Expired(s: State): set<Id> { set k | k in s.sessions && s.sessions[k].expires < s.clock }

  function Stagings(ids: set<Id>): set<Ref> { set k | k in ids :: Staging(k) }

  function Blobs(s: State, ids: set<Id>): set<Ref> {
    set k | k in ids && k in s.sessions :: s.sessions[k].artifact.blob
  }

  function Declared(a: Artifact): Content
    requires a.blob.Object?
  {
    Content(a.blob.digest, a.bytes)
  }

  predicate Finalizable(s: State, id: Id) {
    && id in s.sessions && s.sessions[id].artifact.blob.Object?
    && (s.sessions[id].verified ||
        (s.clock < s.sessions[id].expires && Staging(id) in s.store
         && s.store[Staging(id)] == Declared(s.sessions[id].artifact)))
  }

  function Verified(s: State, ids: seq<Id>): State
    requires forall id :: id in ids ==> Finalizable(s, id)
  {
    if ids == [] then s
    else
      var id := ids[|ids| - 1];
      assert id in ids && Finalizable(s, id);
      var before := Verified(s, ids[..|ids| - 1]);
      if s.sessions[id].verified then before
      else Put(before,
               Declared(s.sessions[id].artifact)).(sessions := before.sessions[id := s.sessions[id].(verified := true)])
  }

  // ---- steps ----------------------------------------------------------------------------------------------

  datatype Action =
    | CreateUpload(id: Id, actor: string, key: string, artifact: Artifact)
    | Stage(id: Id, content: Content)
    | Finalize(uploads: seq<Id>)
    | Consume(ids: set<Id>, capture: Id)
    | Unstage(ids: set<Id>)
    | Store(content: Content)
    | Enqueue(id: Id, originals: seq<Ref>)
    | RecordExtraction(id: Id, digests: seq<Digest>)
    | Record(id: Id, source: string, readables: seq<Ref>, count: nat)
    | Land(id: Id)
    | Release(sources: set<string>, collect: bool)
    | Purge
    | Collect(refs: set<Ref>)
    | RecordChange(id: Id, digest: Digest)

  datatype Event = Event(now: Time, action: Action)

  /** The objects a call names: storing them is a call of its own. */
  function NamedBy(a: Action): set<Ref> {
    match a
    case Enqueue(_, originals) => set ref | ref in originals
    case RecordExtraction(_, digests) => set ref | ref in Objects(digests)
    case Record(_, _, readables, count) => set k | 0 <= k < Min(count, |readables|) :: readables[k]
    case RecordChange(_, digest) => {Object(digest)}
    case _ => {}
  }

  function Min(a: nat, b: nat): nat { if a < b then a else b }

  /** An artifact is there, and its bytes are those its name says. */
  predicate VerifiedRef(s: State, ref: Ref) { ref.Object? && ref in s.store && s.store[ref].digest == ref.digest }

  predicate Open(s: State, id: Id) { id in s.captures && !s.captures[id].landed }

  ghost predicate Enabled(s: State, e: Event) {
    && s.clock <= e.now
    && match e.action
       case CreateUpload(id, actor, key, artifact) =>
         id !in s.sessions && artifact.blob.Object? && forall k :: k in s.sessions ==>
           s.sessions[k].actor != actor || s.sessions[k].key != key
       case Finalize(ids) => forall id :: id in ids ==> Finalizable(s.(clock := e.now), id)
       case Consume(ids, capture) =>
         forall id :: id in ids ==>
             id in s.sessions && s.sessions[id].verified && (s.sessions[id].consumer in {None, Some(capture)})
       case Enqueue(id, _) => id !in s.captures
       case RecordExtraction(id, _) => Open(s, id)
       case Record(id, source, readables, count) =>
         && Open(s, id) && count <= |s.captures[id].originals| == |readables|
         && (forall k: nat :: k < count ==> Recordable(s, Slot(id, k + 1), RowOf(s.captures[id], source, readables, k)))
       case Land(id) => Open(s, id)
       case RecordChange(id, _) => id !in s.patches
       case _ => true
  }

  function Step(s0: State, e: Event): State
    requires Enabled(s0, e)
  {
    var s := s0.(clock := e.now);
    match e.action
    case CreateUpload(id, actor, key, artifact) =>
      s.(sessions := s.sessions[id := Session(actor, key, artifact, e.now + UPLOAD_TTL, false, None)])
    case Stage(id, content) => s.(store := s.store[Staging(id) := content])
    case Finalize(ids) => Verified(s, ids)
    case Consume(ids, capture) =>
      s.(sessions := map k | k in s.sessions :: if k in ids then s.sessions[k].(consumer := Some(capture))
         else s.sessions[k])
    case Unstage(ids) => Drop(s, Stagings(ids))
    case Store(content) => Put(s, content)
    case Enqueue(id, originals) => s.(captures := s.captures[id := Capture(originals, [], false)])
    case RecordExtraction(id,
                          digests) => s.(captures := s.captures[id := s.captures[id].(readables := Objects(digests))])
    case Record(id, source, readables, count) => Recorded(s, id, s.captures[id], source, readables, count)
    case Land(id) => s.(captures := s.captures[id := s.captures[id].(landed := true)])
    case Release(sources, collect) => if collect then Drop(Released(s, sources), Garbage(s, sources))
      else Released(s, sources)
    case Purge =>
      Drop(s, Stagings(Expired(s)) + Unneeded(s, Blobs(s, Expired(s)))).(sessions := s.sessions - Expired(s))
    case Collect(refs) => Drop(s, Unneeded(s, refs))
    case RecordChange(id, digest) => s.(patches := s.patches[id := Object(digest)])
  }

  // ---- the invariant ----------------------------------------------------------------------------------------

  /** Nothing protected is missing or is other than its name says; every name of an object is one; a verified
      upload that may still be consumed is there too. */
  ghost predicate Safe(s: State) {
    && (forall ref :: Protected(s, ref) ==> VerifiedRef(s, ref))
    && (forall ref :: ref in s.store && ref.Object? ==> s.store[ref].digest == ref.digest)
    && (forall k :: k in s.sessions ==> s.sessions[k].artifact.blob.Object?)
    && (forall k :: k in s.sessions && s.sessions[k].verified && s.sessions[k].consumer.None? ==>
          s.sessions[k].expires >= s.clock ==> s.sessions[k].artifact.blob in s.store)
  }

  const EMPTY := State(map[], map[], map[], map[], map[], 0)

  ghost predicate IsRun(run: seq<State>, events: seq<Event>) {
    && |run| == |events| + 1 && run[0] == EMPTY
    && forall i {:trigger events[i]} :: 0 <= i < |events| ==>
    Enabled(run[i], events[i]) && run[i + 1] == Step(run[i], events[i])
  }

  lemma {:induction false} RecordedIs(s: State, id: Id, c: Capture, source: string, readables: seq<Ref>, count: nat)
    requires count <= |c.originals| == |readables|
    ensures var r := Recorded(s, id, c, source, readables, count);
            && r == s.(rows := r.rows)
            && (forall k: Slot :: k in r.rows <==> k in s.rows || (k.capture == id && 1 <= k.position <= count))
            && (forall k: Slot :: k in r.rows ==>
                r.rows[k] ==
                if k.capture == id && 1 <= k.position <= count then RowOf(c, source, readables, k.position - 1)
                else s.rows[k])
  {
    if count > 0 { RecordedIs(s, id, c, source, readables, count - 1); }
  }

  lemma {:induction false} VerifiedIs(s: State, ids: seq<Id>)
    requires forall id :: id in ids ==> Finalizable(s, id)
    ensures var r := Verified(s, ids);
            && r == s.(store := r.store, sessions := r.sessions) && s.store.Keys <= r.store.Keys
            && (forall ref :: ref in s.store ==> r.store[ref] == s.store[ref])
            && (forall ref :: ref in r.store && ref !in s.store ==> ref.Object? && r.store[ref].digest == ref.digest)
            && r.sessions.Keys == s.sessions.Keys
            && (forall k :: k in s.sessions ==>
                r.sessions[k] == s.sessions[k].(verified := s.sessions[k].verified || k in ids))
            && (forall id :: id in ids && !s.sessions[id].verified ==> s.sessions[id].artifact.blob in r.store)
  {
    if ids != [] {
      var id := ids[|ids| - 1];
      VerifiedIs(s, ids[..|ids| - 1]);
      assert ids == ids[..|ids| - 1] + [id];
      assert id in ids && Finalizable(s, id);
    }
  }

  // ---- every step keeps what is needed ------------------------------------------------------------------

  /** Nothing more is protected than before, nothing protected is dropped, and the uploads stand. */
  lemma StoreGrows(s: State, r: State)
    requires Safe(s) && r == s.(store := r.store) && s.store.Keys <= r.store.Keys
    requires forall ref :: ref in s.store ==> r.store[ref] == s.store[ref]
    requires forall ref :: ref in r.store && ref !in s.store && ref.Object? ==> r.store[ref].digest == ref.digest
    ensures Safe(r)
  {
    forall ref | Protected(r, ref) ensures VerifiedRef(r, ref) {
      assert Protected(s, ref);
    }
  }

  lemma DropsUnneeded(s: State, refs: set<Ref>)
    requires Safe(s) && forall ref :: ref in refs ==> !IsLive(s, ref)
    ensures Safe(Drop(s, refs))
  {
    var r := Drop(s, refs);
    forall ref | Protected(r, ref) ensures VerifiedRef(r, ref) {
      assert Protected(s, ref) && IsLive(s, ref);
    }
    forall k | k in r.sessions && r.sessions[k].verified && r.sessions[k].consumer.None?
        && r.sessions[k].expires >= r.clock
      ensures r.sessions[k].artifact.blob in r.store
    {
      assert InUpload(s, s.sessions[k].artifact.blob);
    }
  }

  lemma StagingNotLive(s: State, ids: set<Id>)
    requires Safe(s)
    ensures forall ref :: ref in Stagings(ids) ==> !IsLive(s, ref)
  {
    forall ref | ref in Stagings(ids) ensures !IsLive(s, ref) {
      assert !VerifiedRef(s, ref) && !Protected(s, ref);
    }
  }

  lemma ReleaseKeeps(s: State, sources: set<string>)
    requires Safe(s)
    ensures Safe(Released(s, sources))
  {
    var r := Released(s, sources);
    forall ref | Protected(r, ref) ensures VerifiedRef(r, ref) {
      assert Protected(s, ref);
    }
  }

  lemma TickKeeps(s: State, now: Time)
    requires Safe(s) && s.clock <= now
    ensures Safe(s.(clock := now))
  {
    var r := s.(clock := now);
    forall ref | Protected(r, ref) ensures VerifiedRef(r, ref) { assert Protected(s, ref); }
  }

  lemma PurgeKeeps(s: State)
    requires Safe(s)
    ensures Safe(Drop(s,
                      Stagings(Expired(s)) + Unneeded(s, Blobs(s, Expired(s)))).(sessions := s.sessions - Expired(s)))
  {
    var dropped := Drop(s, Stagings(Expired(s)) + Unneeded(s, Blobs(s, Expired(s))));
    StagingNotLive(s, Expired(s));
    DropsUnneeded(s, Stagings(Expired(s)) + Unneeded(s, Blobs(s, Expired(s))));
    var r := dropped.(sessions := s.sessions - Expired(s));
    forall ref | Protected(r, ref) ensures VerifiedRef(r, ref) { assert Protected(dropped, ref); }
  }

  lemma RowsKeep(s: State, id: Id, source: string, readables: seq<Ref>, count: nat)
    requires Safe(s) && Open(s, id) && count <= |s.captures[id].originals| == |readables|
    requires forall k :: 0 <= k < count ==> VerifiedRef(s, readables[k])
    ensures Safe(Recorded(s, id, s.captures[id], source, readables, count))
  {
    var c := s.captures[id];
    var r := Recorded(s, id, c, source, readables, count);
    RecordedIs(s, id, c, source, readables, count);
    forall ref | Protected(r, ref) ensures VerifiedRef(r, ref) {
      if InRow(r, ref) {
        var k: Slot :| k in r.rows && r.rows[k].live && (r.rows[k].original == ref || r.rows[k].readable == ref);
        if k.capture == id && 1 <= k.position <= count {
          var original, readable := c.originals[k.position - 1], readables[k.position - 1];
          assert original in c.originals && InCapture(s, original) && Protected(s, original);
          assert VerifiedRef(s, original) && VerifiedRef(s, readable);
        } else {
          assert InRow(s, ref) && Protected(s, ref);
        }
      } else {
        assert (InCapture(r, ref) ==> InCapture(s, ref)) && (InPatch(r, ref) ==> InPatch(s, ref));
        assert Protected(s, ref);
      }
    }
  }

  lemma CaptureKeeps(s: State, id: Id, c: Capture)
    requires Safe(s) && !c.landed
    requires forall ref :: ref in c.originals || ref in c.readables ==> VerifiedRef(s, ref)
    ensures Safe(s.(captures := s.captures[id := c]))
  {
    var r := s.(captures := s.captures[id := c]);
    forall ref | Protected(r, ref) ensures VerifiedRef(r, ref) {
      if InCapture(r, ref) {
        var k :| k in r.captures && !r.captures[k].landed
            && (ref in r.captures[k].originals || ref in r.captures[k].readables);
        if k != id { assert InCapture(s, ref) && Protected(s, ref); }
      } else {
        assert Protected(s, ref);
      }
    }
  }

  lemma LandKeeps(s: State, id: Id)
    requires Safe(s) && Open(s, id)
    ensures Safe(s.(captures := s.captures[id := s.captures[id].(landed := true)]))
  {
    var r := s.(captures := s.captures[id := s.captures[id].(landed := true)]);
    forall ref | Protected(r, ref) ensures VerifiedRef(r, ref) {
      if InCapture(r, ref) { assert InCapture(s, ref); }
      assert Protected(s, ref);
    }
  }

  lemma PatchKeeps(s: State, id: Id, digest: Digest)
    requires Safe(s) && VerifiedRef(s, Object(digest))
    ensures Safe(s.(patches := s.patches[id := Object(digest)]))
  {
    var r := s.(patches := s.patches[id := Object(digest)]);
    forall ref | Protected(r, ref) ensures VerifiedRef(r, ref) {
      if !InRow(r, ref) && !InCapture(r, ref) {
        var k :| k in r.patches && r.patches[k] == ref;
        if k != id { assert InPatch(s, ref) && Protected(s, ref); }
      } else {
        assert Protected(s, ref);
      }
    }
  }

  lemma SessionsKeep(s: State, r: State)
    requires Safe(s) && r == s.(sessions := r.sessions)
    requires forall k :: k in r.sessions ==> r.sessions[k].artifact.blob.Object?
    requires forall k :: k in r.sessions && r.sessions[k].verified && r.sessions[k].consumer.None? ==>
               r.sessions[k].expires >= r.clock ==> r.sessions[k].artifact.blob in s.store
    ensures Safe(r)
  {
    forall ref | Protected(r, ref) ensures VerifiedRef(r, ref) { assert Protected(s, ref); }
  }

  lemma FinalizeKeeps(s: State, ids: seq<Id>)
    requires Safe(s) && forall id :: id in ids ==> Finalizable(s, id)
    ensures Safe(Verified(s, ids))
  {
    var r := Verified(s, ids);
    VerifiedIs(s, ids);
    var put := s.(store := r.store);
    StoreGrows(s, put);
    SessionsKeep(put, r);
  }

  lemma StageKeeps(s: State, id: Id, content: Content)
    requires Safe(s)
    ensures Safe(s.(store := s.store[Staging(id) := content]))
  {
    var r := s.(store := s.store[Staging(id) := content]);
    forall ref | Protected(r, ref) ensures VerifiedRef(r, ref) { assert Protected(s, ref); }
  }

  lemma ExtractionKeeps(s: State, id: Id, digests: seq<Digest>)
    requires Safe(s) && Open(s, id) && forall ref :: ref in Objects(digests) ==> VerifiedRef(s, ref)
    ensures Safe(s.(captures := s.captures[id := s.captures[id].(readables := Objects(digests))]))
  {
    var c := s.captures[id].(readables := Objects(digests));
    forall ref | ref in c.originals || ref in c.readables ensures VerifiedRef(s, ref) {
      if ref in c.originals { assert InCapture(s, ref); }
    }
    CaptureKeeps(s, id, c);
  }

  lemma CollectKeeps(s: State, sources: set<string>)
    requires Safe(s)
    ensures Safe(Drop(Released(s, sources), Garbage(s, sources)))
  {
    ReleaseKeeps(s, sources);
    DropsUnneeded(Released(s, sources), Garbage(s, sources));
  }

  lemma EnqueueKeeps(s: State, id: Id, originals: seq<Ref>)
    requires Safe(s) && forall ref :: ref in originals ==> VerifiedRef(s, ref)
    ensures Safe(s.(captures := s.captures[id := Capture(originals, [], false)]))
  {
    CaptureKeeps(s, id, Capture(originals, [], false));
  }

  /** Everything a call names is in the store when it is made. */
  predicate Found(s: State, a: Action) { forall ref :: ref in NamedBy(a) ==> VerifiedRef(s, ref) }

  /** Calls that name objects. */
  lemma NamingKeeps(s: State, e: Event)
    requires Safe(s) && Enabled(s, e) && s.clock == e.now && Found(s, e.action)
    requires e.action.Enqueue? || e.action.RecordExtraction? || e.action.Record? || e.action.RecordChange?
    ensures Safe(Step(s, e))
  {
    match e.action
    case Enqueue(id, originals) => {
      assert forall ref :: ref in originals ==> ref in NamedBy(e.action);
      EnqueueKeeps(s, id, originals);
    }
    case RecordExtraction(id, digests) => {
      assert forall ref :: ref in Objects(digests) ==> ref in NamedBy(e.action);
      ExtractionKeeps(s, id, digests);
    }
    case Record(id, source, readables, count) => {
      forall k | 0 <= k < count ensures VerifiedRef(s, readables[k]) { assert readables[k] in NamedBy(e.action); }
      RowsKeep(s, id, source, readables, count);
    }
    case RecordChange(id, digest) => { PatchKeeps(s, id, digest); }
  }

  /** Calls on uploads and objects, and landing. */
  lemma OtherKeeps(s: State, e: Event)
    requires Safe(s) && Enabled(s, e) && s.clock == e.now
    requires !(e.action.Enqueue? || e.action.RecordExtraction? || e.action.Record? || e.action.RecordChange?)
    ensures Safe(Step(s, e))
  {
    match e.action
    case CreateUpload(id, actor, key, artifact) => { SessionsKeep(s, Step(s, e)); }
    case Stage(id, content) => { StageKeeps(s, id, content); }
    case Finalize(ids) => { FinalizeKeeps(s, ids); }
    case Consume(ids, capture) => { SessionsKeep(s, Step(s, e)); }
    case Unstage(ids) => { StagingNotLive(s, ids); DropsUnneeded(s, Stagings(ids)); }
    case Store(content) => { StoreGrows(s, Put(s, content)); }
    case Land(id) => { LandKeeps(s, id); }
    case Release(sources, collect) => { ReleaseKeeps(s, sources); CollectKeeps(s, sources); }
    case Purge => { PurgeKeeps(s); }
    case Collect(refs) => { DropsUnneeded(s, Unneeded(s, refs)); }
  }

  lemma TickStep(s: State, e: Event)
    requires Enabled(s, e)
    ensures Enabled(s.(clock := e.now), e) && Step(s.(clock := e.now), e) == Step(s, e)
  {
  }

  /** What a call names is protected after it. */
  lemma NamedIsProtected(s: State, e: Event, ref: Ref)
    requires Enabled(s, e) && ref in NamedBy(e.action)
    ensures Protected(Step(s, e), ref) && Step(s, e).store == s.store
  {
    var r := Step(s, e);
    match e.action
    case Enqueue(id, originals) => {
      assert id in r.captures && ref in r.captures[id].originals;
      assert InCapture(r, ref);
    }
    case RecordExtraction(id, digests) => {
      assert id in r.captures && ref in r.captures[id].readables;
      assert InCapture(r, ref);
    }
    case Record(id, source, readables, count) => {
      var k :| 0 <= k < count && readables[k] == ref;
      RecordedIs(s.(clock := e.now), id, s.captures[id], source, readables, count);
      assert Slot(id, k + 1) in r.rows && r.rows[Slot(id, k + 1)] == RowOf(s.captures[id], source, readables, k);
      assert InRow(r, ref);
    }
    case RecordChange(id, digest) => {
      assert id in r.patches && r.patches[id] == ref;
      assert InPatch(r, ref);
    }
  }

  /** A call keeps every protected object in the store exactly when what it names is there. */
  lemma StepKeeps(s: State, e: Event)
    requires Safe(s) && Enabled(s, e)
    ensures Safe(Step(s, e)) <==> Found(s, e.action)
  {
    hide Step;
    TickKeeps(s, e.now);
    TickStep(s, e);
    var now := s.(clock := e.now);
    assert Found(now, e.action) == Found(s, e.action);
    if e.action.Enqueue? || e.action.RecordExtraction? || e.action.Record? || e.action.RecordChange? {
      if Found(s, e.action) { NamingKeeps(now, e); }
    } else {
      OtherKeeps(now, e);
    }
    if Safe(Step(s, e)) {
      forall ref | ref in NamedBy(e.action) ensures VerifiedRef(s, ref) {
        NamedIsProtected(s, e, ref);
        assert VerifiedRef(Step(s, e), ref);
      }
    }
  }

  /** Up to a point of a run, each call found what it named. */
  predicate FoundUpTo(run: seq<State>, events: seq<Event>, i: nat)
    requires i <= |events| <= |run|
  {
    forall k :: 0 <= k < i ==> Found(run[k], events[k].action)
  }

  /** In every run, whatever the interleaving of calls: each object named by a live artifact row, a capture not
      landed, its extraction, or a change's patch is in the store, with the bytes its name says, for as long as
      each call finds what it names. */
  lemma {:induction false} NothingNeededIsDeleted(run: seq<State>, events: seq<Event>, i: nat, ref: Ref)
    requires IsRun(run, events) && i < |run| && FoundUpTo(run, events, i)
    ensures Safe(run[i]) && (Protected(run[i], ref) ==> VerifiedRef(run[i], ref))
  {
    hide Step, Enabled;
    if i > 0 {
      NothingNeededIsDeleted(run, events, i - 1, ref);
      StepKeeps(run[i - 1], events[i - 1]);
      assert Found(run[i - 1], events[i - 1].action);
    }
  }

  /** And for no longer. */
  lemma SafeExactly(run: seq<State>, events: seq<Event>)
    requires IsRun(run, events)
    ensures (forall i :: 0 <= i < |run| ==> Safe(run[i])) <==> FoundUpTo(run, events, |events|)
  {
    hide Step, Enabled, Safe;
    if FoundUpTo(run, events, |events|) {
      forall i | 0 <= i < |run| ensures Safe(run[i]) { NothingNeededIsDeleted(run, events, i, Object(0)); }
    } else {
      var i :| 0 <= i < |events| && !Found(run[i], events[i].action);
      if Safe(run[i]) { StepKeeps(run[i], events[i]); }
      assert !Safe(run[i]) || !Safe(run[i + 1]);
    }
  }

  /** The calls that delete objects. */
  predicate Deletes(a: Action) { a.Purge? || a.Collect? || (a.Release? && a.collect) }

  lemma StepKeepsStored(s: State, e: Event, ref: Ref)
    requires Enabled(s, e) && ref.Object? && VerifiedRef(s, ref) && !Deletes(e.action)
    ensures VerifiedRef(Step(s, e), ref)
  {
    match e.action
    case Finalize(ids) => { VerifiedIs(s.(clock := e.now), ids); }
    case Record(id, source, readables, count) => {
      RecordedIs(s.(clock := e.now), id, s.captures[id], source, readables, count);
    }
    case _ => {}
  }

  /** What is stored is found by every later call until one deletes. */
  lemma {:induction false} StoredIsFound(run: seq<State>, events: seq<Event>, i: nat, j: nat, content: Content)
    requires IsRun(run, events) && i < j < |run| && events[i].action == Store(content) && Safe(run[i])
    requires forall k :: i < k < j ==> !Deletes(events[k].action)
    ensures VerifiedRef(run[j], Object(content.digest))
    decreases j - i
  {
    var e := events[j - 1];
    if i < j - 1 {
      StoredIsFound(run, events, i, j - 1, content);
      StepKeepsStored(run[j - 1], e, Object(content.digest));
    } else {
      assert run[j] == Step(run[i], e);
    }
  }

  // ---- releases after a crash -----------------------------------------------------------------------------

  predicate SameRow(a: State, b: State, k: Slot)
    requires k in a.rows
  {
    k in b.rows && b.rows[k].source == a.rows[k].source && b.rows[k].original == a.rows[k].original
      && b.rows[k].readable == a.rows[k].readable
  }

  lemma RecordKeepsRows(s: State, id: Id, c: Capture, source: string, readables: seq<Ref>, count: nat, k: Slot)
    requires count <= |c.originals| == |readables| && k in s.rows
    requires forall k: nat :: k < count ==> Recordable(s, Slot(id, k + 1), RowOf(c, source, readables, k))
    ensures SameRow(s, Recorded(s, id, c, source, readables, count), k)
  {
    RecordedIs(s, id, c, source, readables, count);
    if k.capture == id && 1 <= k.position <= count {
      var at := k.position - 1;
      assert Recordable(s, Slot(id, at + 1), RowOf(c, source, readables, at)) && k == Slot(id, at + 1);
    }
  }

  lemma StepKeepsRows(s: State, e: Event, k: Slot)
    requires Enabled(s, e) && k in s.rows
    ensures SameRow(s, Step(s, e), k)
  {
    match e.action
    case Finalize(ids) => {
      VerifiedIs(s.(clock := e.now), ids);
      assert Step(s, e).rows == s.rows;
    }
    case Record(id, source, readables, count) => {
      RecordKeepsRows(s.(clock := e.now), id, s.captures[id], source, readables, count, k);
    }
    case Release(sources, collect) => {
    }
    case _ => {
    }
  }

  lemma {:induction false} RowsLast(run: seq<State>, events: seq<Event>, i: nat, j: nat, k: Slot)
    requires IsRun(run, events) && i <= j < |run| && k in run[i].rows
    ensures SameRow(run[i], run[j], k)
    decreases j - i
  {
    if i < j {
      RowsLast(run, events, i, j - 1, k);
      var e := events[j - 1];
      StepKeepsRows(run[j - 1], e, k);
    }
  }

  /** A release repeated at any later time, after a crash between release and deletion, hands back every
      object it handed back before that nothing needs then. */
  lemma ReleaseAgain(run: seq<State>, events: seq<Event>, i: nat, j: nat, sources: set<string>, ref: Ref)
    requires IsRun(run, events) && i <= j < |run| && ref in Garbage(run[i], sources)
    ensures ref in Garbage(run[j], sources) || IsLive(Released(run[j], sources), ref)
  {
    var k: Slot :| k in run[i].rows && run[i].rows[k].source in sources
        && (run[i].rows[k].original == ref || run[i].rows[k].readable == ref);
    RowsLast(run, events, i, j, k);
    assert ref in Candidates(run[j], sources);
  }

  /** Repeated at once, it hands back the same. */
  lemma ReleaseTwice(s: State, sources: set<string>)
    ensures Garbage(Released(s, sources), sources) == Garbage(s, sources)
  {
    var r := Released(s, sources);
    assert Released(r, sources) == r;
    assert Candidates(r, sources) == Candidates(s, sources) by {
      forall ref ensures ref in Candidates(r, sources) <==> ref in Candidates(s, sources) {
        if ref in Candidates(s, sources) {
          var k :| k in s.rows && s.rows[k].source in sources
              && (s.rows[k].original == ref || s.rows[k].readable == ref);
          assert k in r.rows && r.rows[k].source in sources;
        }
      }
    }
  }

  // ---- what is stored may be gone when it is named ----------------------------------------------------

  const TEXT := Object(7)
  const OTHER := Object(8)
  const SOURCE := "sources/a"
  const FILED := Capture([TEXT], [TEXT], false)
  const WAITING := Capture([OTHER], [], false)
  const ROWS := map[Slot(1, 1) := Row(SOURCE, TEXT, TEXT, true)]

  /** A capture whose text is an object is filed and lands; the extraction of another stores the same text; a
      release finds nothing that needs the object, and deletes it; then that extraction is recorded. */
  const RACE: seq<Event> := [
    Event(0, Store(Content(7, 100))), Event(0, Enqueue(1, [TEXT])), Event(0, RecordExtraction(1, [7])),
      Event(0, Record(1, SOURCE, [TEXT], 1)),
    Event(0, Land(1)), Event(0, Store(Content(8, 100))), Event(0, Enqueue(5, [OTHER])),
    Event(0, Store(Content(7, 100))), Event(0, Release({SOURCE}, true)), Event(0, RecordExtraction(5, [7]))]

  const STORED := map[TEXT := Content(7, 100)]
  const BOTH := map[TEXT := Content(7, 100), OTHER := Content(8, 100)]
  const LANDED := map[1 := FILED.(landed := true)]
  const QUEUED := map[1 := FILED.(landed := true), 5 := WAITING]

  const RACED: seq<State> := [
    EMPTY,
    State(STORED, map[], map[], map[], map[], 0),
    State(STORED, map[], map[], map[1 := Capture([TEXT], [], false)], map[], 0),
    State(STORED, map[], map[], map[1 := FILED], map[], 0),
    State(STORED, ROWS, map[], map[1 := FILED], map[], 0),
    State(STORED, ROWS, map[], LANDED, map[], 0),
    State(BOTH, ROWS, map[], LANDED, map[], 0),
    State(BOTH, ROWS, map[], QUEUED, map[], 0),
    State(BOTH, ROWS, map[], QUEUED, map[], 0),
    State(map[OTHER := Content(8, 100)], map[Slot(1, 1) := Row(SOURCE, TEXT, TEXT, false)], map[], QUEUED, map[], 0),
    State(map[OTHER := Content(8, 100)], map[Slot(1, 1) := Row(SOURCE, TEXT, TEXT, false)], map[],
          QUEUED[5 := Capture([OTHER], [TEXT], false)], map[], 0)]

  ghost predicate Moves(i: nat)
    requires i < |RACE|
  {
    Enabled(RACED[i], RACE[i]) && RACED[i + 1] == Step(RACED[i], RACE[i])
  }

  lemma FirstStored()
    ensures Moves(0) && Moves(1)
  {
  }

  lemma FirstExtracted()
    ensures Moves(2)
  {
    assert Objects([7]) == [TEXT];
  }

  lemma FirstRecorded()
    ensures Moves(3)
  {
    RecordedIs(RACED[3], 1, FILED, SOURCE, [TEXT], 1);
    assert Recorded(RACED[3], 1, FILED, SOURCE, [TEXT], 1).rows == ROWS;
  }

  lemma FirstLanded()
    ensures Moves(4)
  {
  }

  lemma SecondStored()
    ensures Moves(5) && Moves(6) && Moves(7)
  {
  }

  /** A text only a released row and a landed capture name is deleted. */
  lemma Collected(s: State, row: Row, ref: Ref)
    requires s.rows == map[Slot(1, 1) := row] && row.original == row.readable == ref && s.sessions == map[]
             && s.patches == map[]
    requires forall k :: k in s.captures && (ref in s.captures[k].originals || ref in s.captures[k].readables) ==>
             s.captures[k].landed
    ensures var r := Drop(Released(s, {row.source}), Garbage(s, {row.source}));
            r == s.(store := s.store - {ref}, rows := map[Slot(1, 1) := row.(live := false)])
  {
    var r := Released(s, {row.source});
    assert Slot(1, 1) in s.rows;
    assert r.rows == map[Slot(1, 1) := row.(live := false)];
    assert Candidates(s, {row.source}) == {ref};
    assert !InRow(r, ref) && !InCapture(r, ref);
    assert !IsLive(r, ref);
    assert Garbage(s, {row.source}) == {ref};
  }

  lemma TextDeleted()
    ensures Moves(8)
  {
    hide Drop, Released, Garbage;
    Collected(RACED[8], Row(SOURCE, TEXT, TEXT, true), TEXT);
    assert BOTH - {TEXT} == map[OTHER := Content(8, 100)];
  }

  lemma SecondExtracted()
    ensures Moves(9)
  {
    assert Objects([7]) == [TEXT];
  }

  lemma AllMove(i: nat)
    requires i < |RACE|
    ensures Moves(i)
  {
    hide Moves;
    FirstStored();
    FirstExtracted();
    FirstRecorded();
    FirstLanded();
    SecondStored();
    TextDeleted();
    SecondExtracted();
  }

  lemma RaceRuns()
    ensures IsRun(RACED, RACE)
  {
    hide Enabled, Step;
    forall i | 0 <= i < |RACE| ensures Enabled(RACED[i], RACE[i]) && RACED[i + 1] == Step(RACED[i], RACE[i]) {
      AllMove(i);
      assert Moves(i);
    }
  }

  lemma RaceEnds()
    ensures VerifiedRef(RACED[8], TEXT) && Protected(RACED[10], TEXT) && TEXT !in RACED[10].store
  {
    assert 5 in RACED[10].captures && TEXT in RACED[10].captures[5].readables;
    assert InCapture(RACED[10], TEXT);
  }

  /** That run: the extraction's text was found when it was stored, and is gone when it is named. */
  lemma PutThenRecordRaces()
    ensures IsRun(RACED, RACE) && FoundUpTo(RACED, RACE, 9) && VerifiedRef(RACED[8], TEXT)
    ensures Protected(RACED[10], TEXT) && TEXT !in RACED[10].store && !Safe(RACED[10])
  {
    hide Safe, Enabled, Step, Protected;
    RaceRuns();
    RaceFound();
    RaceEnds();
    Unsafe(RACED[10], TEXT);
  }

  lemma RaceFound()
    ensures FoundUpTo(RACED, RACE, 9)
  {
    assert Objects([7]) == [TEXT];
  }

  lemma Unsafe(s: State, ref: Ref)
    requires Protected(s, ref) && ref !in s.store
    ensures !Safe(s)
  {
    assert !VerifiedRef(s, ref);
  }
}
