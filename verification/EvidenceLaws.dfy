/** Exactly which objects each call deletes, and what the others write. */
module EvidenceLaws {
  import opened Options
  import opened EvidenceLife

  /** Something still needs the object: a live artifact row, an upload not linked and not expired that declares it, a
      capture not landed or its extraction, or a change's patch. */
  ghost predicate Needed(s: State, ref: Ref) {
    || (exists k :: k in s.rows && s.rows[k].live && ref in {s.rows[k].original, s.rows[k].readable})
    || (exists k :: k in s.sessions && s.sessions[k].consumer == None && s.clock <= s.sessions[k].expires
                    && ref == s.sessions[k].artifact.blob)
    || (exists k :: k in s.captures && !s.captures[k].landed
                    && ref in s.captures[k].originals + s.captures[k].readables)
    || (exists k :: k in s.patches && ref == s.patches[k])
  }

  lemma NeededIsLive(s: State, ref: Ref)
    ensures IsLive(s, ref) <==> Needed(s, ref)
  {
  }

  /** An artifact of one of the sources is kept in the object: its original or its readable text. */
  ghost predicate KeptFor(s: State, sources: set<string>, ref: Ref) {
    exists k :: k in s.rows && s.rows[k].source in sources && (ref == s.rows[k].original || ref == s.rows[k].readable)
  }

  lemma GarbageIs(s: State, sources: set<string>, ref: Ref)
    ensures ref in Garbage(s, sources) <==> KeptFor(s, sources, ref) && !Needed(Released(s, sources), ref)
  {
    hide IsLive, Needed;
    NeededIsLive(Released(s, sources), ref);
    if ref in Candidates(s, sources) {
      assert KeptFor(s, sources, ref);
    }
  }

  /** Releasing sources takes the live mark off their artifacts' rows and changes no other; and deletes exactly the
      objects kept for them, originals and readable texts, that nothing needs any more. */
  lemma ReleaseDeletes(s: State, e: Event)
    requires Enabled(s, e) && e.action.Release? && e.action.collect
    ensures var sources, r := e.action.sources, Step(s, e);
            && (forall ref :: ref in r.store <==> ref in s.store && !(KeptFor(s, sources, ref) && !Needed(r, ref)))
            && (forall ref :: ref in r.store ==> r.store[ref] == s.store[ref])
            && r.rows.Keys == s.rows.Keys
            && (forall k :: k in s.rows ==>
                  r.rows[k] == s.rows[k].(live := s.rows[k].live && s.rows[k].source !in sources))
            && r == s.(store := r.store, rows := r.rows, clock := e.now)
  {
    hide Needed, KeptFor, Garbage;
    var now, sources, r := s.(clock := e.now), e.action.sources, Step(s, e);
    forall ref ensures ref in r.store <==> ref in s.store && !(KeptFor(s, sources, ref) && !Needed(r, ref)) {
      GarbageIs(now, sources, ref);
      SameNeeds(Released(now, sources), r, ref);
      SameKept(s, now, sources, ref);
    }
  }

  lemma SameNeeds(s: State, r: State, ref: Ref)
    requires r == s.(store := r.store)
    ensures Needed(r, ref) <==> Needed(s, ref)
  {
  }

  lemma SameKept(s: State, r: State, sources: set<string>, ref: Ref)
    requires r.rows == s.rows
    ensures KeptFor(r, sources, ref) <==> KeptFor(s, sources, ref)
  {
  }

  /** A session that has expired by now, and its staged bytes or the object it declares. */
  ghost predicate Lapsed(s: State, now: Time, k: Id) { k in s.sessions && s.sessions[k].expires < now }

  ghost predicate LapsedWith(s: State, now: Time, ref: Ref) {
    exists k :: Lapsed(s, now, k) && ref == s.sessions[k].artifact.blob
  }

  /** A purge takes exactly the expired sessions, with the bytes staged for them, and the objects they declare that
      nothing needs. */
  lemma PurgeDeletes(s: State, e: Event)
    requires Enabled(s, e) && e.action.Purge?
    ensures var r := Step(s, e);
            && (forall ref :: ref in r.store <==>
                  && ref in s.store && !(ref.Staging? && Lapsed(s, e.now, ref.upload))
                  && !(LapsedWith(s, e.now, ref) && !Needed(s.(clock := e.now), ref)))
            && (forall ref :: ref in r.store ==> r.store[ref] == s.store[ref])
            && (forall k :: k in r.sessions <==> k in s.sessions && !Lapsed(s, e.now, k))
            && (forall k :: k in r.sessions ==> r.sessions[k] == s.sessions[k])
            && r == s.(store := r.store, sessions := r.sessions, clock := e.now)
  {
    hide Needed, IsLive;
    var now, r := s.(clock := e.now), Step(s, e);
    forall ref
      ensures ref in Unneeded(now, Blobs(now, Expired(now))) <==> LapsedWith(s, e.now, ref) && !Needed(now, ref)
    {
      NeededIsLive(now, ref);
      if LapsedWith(s, e.now, ref) {
        var k :| Lapsed(s, e.now, k) && ref == s.sessions[k].artifact.blob;
        assert k in Expired(now);
      }
    }
    forall ref ensures ref in Stagings(Expired(now)) <==> ref.Staging? && Lapsed(s, e.now, ref.upload) {
      if ref.Staging? && Lapsed(s, e.now, ref.upload) { assert ref.upload in Expired(now); }
    }
  }

  /** Collecting deletes exactly those of the objects given that nothing needs. */
  lemma CollectDeletes(s: State, e: Event)
    requires Enabled(s, e) && e.action.Collect?
    ensures var r := Step(s, e);
            && (forall ref :: ref in r.store <==>
                  ref in s.store && !(ref in e.action.refs && !Needed(s.(clock := e.now), ref)))
            && (forall ref :: ref in r.store ==> r.store[ref] == s.store[ref])
            && r == s.(store := r.store, clock := e.now)
  {
    hide Needed, IsLive;
    var now := s.(clock := e.now);
    forall ref ensures ref in Unneeded(now, e.action.refs) <==> ref in e.action.refs && !Needed(now, ref) {
      NeededIsLive(now, ref);
    }
  }

  // ---- calls that write -----------------------------------------------------------------------------------

  /** Finalizing verifies exactly the sessions given, and stores for each that was not verified the object it
      declares, unless there is one; nothing else changes. */
  lemma FinalizeStores(s: State, e: Event)
    requires Enabled(s, e) && e.action.Finalize?
    ensures var ids, r := e.action.uploads, Step(s, e);
            && r.sessions.Keys == s.sessions.Keys
            && (forall k :: k in s.sessions ==>
                  r.sessions[k] == s.sessions[k].(verified := s.sessions[k].verified || k in ids))
            && (forall ref :: ref in s.store ==> ref in r.store && r.store[ref] == s.store[ref])
            && (forall id :: id in ids && !s.sessions[id].verified ==> s.sessions[id].artifact.blob in r.store)
            && (forall ref :: ref in r.store && ref !in s.store ==>
                  exists id :: id in ids && !s.sessions[id].verified && s.sessions[id].artifact.blob == ref
                    && r.store[ref] == Content(ref.digest, s.sessions[id].artifact.bytes))
            && r == s.(store := r.store, sessions := r.sessions, clock := e.now)
  {
    VerifiedIs(s.(clock := e.now), e.action.uploads);
    forall ref | ref in Step(s, e).store && ref !in s.store
      ensures exists id :: id in e.action.uploads && !s.sessions[id].verified && s.sessions[id].artifact.blob == ref
                && Step(s, e).store[ref] == Content(ref.digest, s.sessions[id].artifact.bytes)
    {
      var id := VerifiedFrom(s.(clock := e.now), e.action.uploads, ref);
    }
  }

  /** A session becomes verified only with the bytes it declares, staged in time. */
  lemma VerifiedHonestly(s: State, e: Event, id: Id)
    requires Enabled(s, e) && e.action.Finalize? && id in e.action.uploads && id in s.sessions
    requires !s.sessions[id].verified
    ensures var declared := s.sessions[id].artifact;
            && declared.blob.Object? && Staging(id) in s.store && e.now < s.sessions[id].expires
            && s.store[Staging(id)] == Content(declared.blob.digest, declared.bytes)
  {
    assert Finalizable(s.(clock := e.now), id);
  }

  lemma {:induction false} VerifiedFrom(s: State, ids: seq<Id>, ref: Ref) returns (id: Id)
    requires (forall id :: id in ids ==> Finalizable(s, id)) && ref in Verified(s, ids).store && ref !in s.store
    ensures id in ids && !s.sessions[id].verified && s.sessions[id].artifact.blob == ref && ref.Object?
    ensures Verified(s, ids).store[ref] == Content(ref.digest, s.sessions[id].artifact.bytes)
  {
    var n := |ids| - 1;
    id := ids[n];
    assert id in ids && Finalizable(s, id);
    if ref in Verified(s, ids[..n]).store { id := VerifiedFrom(s, ids[..n], ref); }
  }

  /** Linking, recording, queueing, an extraction, landing, a change, staging, and storing each write what they name
      and nothing else; and taking staged bytes away takes nothing else. */
  lemma WritesAre(s: State, e: Event)
    requires Enabled(s, e)
    ensures var r := Step(s, e);
            match e.action
            case Consume(ids, capture) =>
              && r == s.(sessions := r.sessions, clock := e.now) && r.sessions.Keys == s.sessions.Keys
              && forall k :: k in s.sessions ==>
                   if k in ids then r.sessions[k] == s.sessions[k].(consumer := Some(capture))
                   else r.sessions[k] == s.sessions[k]
            case Record(id, source, readables, count) =>
              && r == s.(rows := r.rows, clock := e.now)
              && (forall k: Slot :: k in r.rows <==> k in s.rows || (k.capture == id && 1 <= k.position <= count))
              && (forall k: Slot :: k in r.rows ==>
                    if k.capture == id && 1 <= k.position <= count
                    then r.rows[k] ==
                         Row(source, s.captures[id].originals[k.position - 1], readables[k.position - 1], true)
                    else r.rows[k] == s.rows[k])
            case CreateUpload(id, actor, key, artifact) =>
              && r == s.(sessions := s.sessions[id := r.sessions[id]], clock := e.now)
              && r.sessions[id] == Session(actor, key, artifact, e.now + UPLOAD_TTL, false, None)
            case Enqueue(id, originals) =>
              && Open(r, id) && r.captures[id].originals == originals && r.captures[id].readables == []
              && r == s.(captures := s.captures[id := r.captures[id]], clock := e.now)
            case RecordExtraction(id, digests) =>
              && |r.captures[id].readables| == |digests|
              && (forall k :: 0 <= k < |digests| ==> r.captures[id].readables[k] == Object(digests[k]))
              && r == s.(captures := s.captures[id := s.captures[id].(readables := r.captures[id].readables)],
                         clock := e.now)
            case RecordChange(id, digest) => r == s.(patches := s.patches[id := Object(digest)], clock := e.now)
            case Stage(id, content) => r == s.(store := s.store[Staging(id) := content], clock := e.now)
            case Unstage(ids) =>
              && r == s.(store := r.store, clock := e.now)
              && (forall ref :: ref in r.store <==> ref in s.store && !(ref.Staging? && ref.upload in ids))
              && (forall ref :: ref in r.store ==> r.store[ref] == s.store[ref])
            case Land(id) => Open(s, id) && !Open(r, id)
              && r == s.(captures := s.captures[id := s.captures[id].(landed := true)], clock := e.now)
            case Store(content) =>
              && Object(content.digest) in r.store && r == s.(store := r.store, clock := e.now)
              && (forall ref :: ref in s.store ==> ref in r.store && r.store[ref] == s.store[ref])
              && (forall ref :: ref in r.store && ref !in s.store ==>
                    ref == Object(content.digest) && r.store[ref] == content)
            case _ => true
  {
    if e.action.Record? {
      RecordedIs(s.(clock := e.now), e.action.id, s.captures[e.action.id], e.action.source, e.action.readables,
                 e.action.count);
    }
  }
}
