/** Evidence operations in place: the store's dictionary, the reference rows, the upload sessions. */
module EvidenceStore {
  import opened Options
  import opened EvidenceLife

  datatype Failure = NotFound | UploadExpired | WrongBytes | TooLarge | Conflict | NotLinked | KeyReused | InvalidList

  datatype Outcome = Ok | Err(why: Failure)

  predicate IsList(uploads: seq<Id>) {
    uploads != [] && forall i, j :: 0 <= i < j < |uploads| ==> uploads[i] != uploads[j]
  }

  const MAX_CAPTURE_BYTES := 50 * 1024 * 1024

  predicate Named(s: Session, actor: string, key: string) { s.actor == actor && s.key == key }

  predicate OwnedBy(sessions: map<Id, Session>, actor: string, uploads: seq<Id>) {
    forall id :: id in uploads ==> id in sessions && sessions[id].actor == actor
  }

  /** The bytes the sessions declare. */
  function TotalBytes(sessions: map<Id, Session>, uploads: seq<Id>): nat {
    if uploads == [] then 0
    else
      var last := uploads[|uploads| - 1];
      TotalBytes(sessions, uploads[..|uploads| - 1]) + if last in sessions then sessions[last].artifact.bytes else 0
  }

  /** The total is the sum, session by session. */
  lemma {:induction false} BytesAppend(sessions: map<Id, Session>, a: seq<Id>, b: seq<Id>)
    ensures TotalBytes(sessions, a + b) == TotalBytes(sessions, a) + TotalBytes(sessions, b)
    ensures forall id :: id in sessions ==> TotalBytes(sessions, [id]) == sessions[id].artifact.bytes
  {
    forall id | id in sessions ensures TotalBytes(sessions, [id]) == sessions[id].artifact.bytes {
      assert [id][..0] == [];
    }
    if b == [] {
      assert a + b == a;
    } else {
      BytesAppend(sessions, a, b[..|b| - 1]);
      assert (a + b)[..|a + b| - 1] == a + b[..|b| - 1];
    }
  }

  predicate Linkable(sessions: map<Id, Session>, actor: string, id: Id, capture: Id) {
    id in sessions && sessions[id].actor == actor && sessions[id].verified
      && sessions[id].consumer in {None, Some(capture)}
  }

  predicate Stored(objects: map<Ref, Content>, a: Artifact) {
    a.blob.Object? && a.blob in objects && objects[a.blob] == Declared(a)
  }

  function Refs(artifacts: seq<Artifact>): (r: seq<Ref>)
    ensures |r| == |artifacts| && forall k :: 0 <= k < |r| ==> r[k] == artifacts[k].blob
  {
    seq(|artifacts|, k requires 0 <= k < |artifacts| => artifacts[k].blob)
  }

  class Evidence {
    var objects: map<Ref, Content>
    var rows: map<Slot, Row>
    var sessions: map<Id, Session>
    var captures: map<Id, Capture>
    var patches: map<Id, Ref>
    var clock: Time

    function View(): State
      reads this
    {
      State(objects, rows, sessions, captures, patches, clock)
    }

    // ---- the store ----------------------------------------------------------------------------------

    method PutObject(content: Content) returns (key: Ref)
      modifies this`objects
      ensures View() == Put(old(View()), content) && key == Object(content.digest)
    {
      key := Object(content.digest);
      if key !in objects {
        objects := objects[key := content];
      }
    }

    method Delete(key: Ref) returns (existed: bool)
      modifies this`objects
      ensures View() == Drop(old(View()), {key}) && existed == (key in old(objects))
    {
      existed := key in objects;
      objects := objects - {key};
    }

    method DeleteAll(keys: set<Ref>)
      modifies this`objects
      ensures View() == Drop(old(View()), keys)
    {
      var rest := keys;
      while rest != {}
        invariant rest <= keys && View() == Drop(old(View()), keys - rest)
        decreases |rest|
      {
        var key :| key in rest;
        var existed := Delete(key);
        assert keys - (rest - {key}) == keys - rest + {key};
        rest := rest - {key};
      }
      assert keys - rest == keys;
    }

    // ---- references ---------------------------------------------------------------------------------

    /** Records a capture's artifacts in order, up to the first that conflicts with what is recorded. */
    method RecordCapture(id: Id, source: string, readables: seq<Ref>) returns (count: nat, r: Outcome)
      requires id in captures && |captures[id].originals| == |readables|
      modifies this`rows
      ensures count <= |readables| && View() == Recorded(old(View()), id, captures[id], source, readables, count)
      ensures forall k: nat :: k < count ==>
              Recordable(old(View()), Slot(id, k + 1), RowOf(captures[id], source, readables, k))
      ensures r == Ok <==> count == |readables|
      ensures count < |readables| ==>
              !Recordable(old(View()), Slot(id, count + 1), RowOf(captures[id], source, readables, count))
    {
      count := 0;
      while count < |readables|
        invariant count <= |readables| && View() == Recorded(old(View()), id, captures[id], source, readables, count)
        invariant forall k: nat :: k < count ==>
                  Recordable(old(View()), Slot(id, k + 1), RowOf(captures[id], source, readables, k))
      {
        var row := Row(source, captures[id].originals[count], readables[count], true);
        var slot := Slot(id, count + 1);
        RecordedIs(old(View()), id, captures[id], source, readables, count);
        if slot in rows && rows[slot].(live := true) != row {
          return count, Err(Conflict);
        }
        rows := rows[slot := row];
        count := count + 1;
      }
      r := Ok;
    }

    method MarkReleased(sources: set<string>)
      modifies this`rows
      ensures View() == Released(old(View()), sources)
    {
      ghost var before := rows;
      var rest := rows.Keys;
      while rest != {}
        invariant rest <= rows.Keys == before.Keys
        invariant forall k :: k in before ==>
                    rows[k] == if k !in rest && before[k].source in sources then before[k].(live := false)
                      else before[k]
        decreases |rest|
      {
        var k :| k in rest;
        rest := rest - {k};
        if rows[k].source in sources {
          rows := rows[k := rows[k].(live := false)];
        }
      }
      assert rows == Released(old(View()), sources).rows;
    }

    method ReleaseSources(sources: set<string>) returns (unneeded: set<Ref>)
      modifies this`rows
      ensures View() == Released(old(View()), sources) && unneeded == Garbage(old(View()), sources)
    {
      var candidates := Candidates(View(), sources);
      MarkReleased(sources);
      unneeded := set ref | ref in candidates && !IsLive(View(), ref);
    }

    method ReleaseDeleted(now: Time, sources: set<string>)
      requires clock <= now
      modifies this
      ensures View() == Step(old(View()), Event(now, Release(sources, true)))
    {
      clock := now;
      var unneeded := ReleaseSources(sources);
      DeleteAll(unneeded);
    }

    // ---- uploads --------------------------------------------------------------------------------------

    /** The session an owner's key names, or a new one; a repeated key must declare the same artifact. */
    method CreateUpload(now: Time, id: Id, actor: string, key: string, artifact: Artifact)
        returns (r: Outcome, session: Id)
      requires clock <= now && id !in sessions && artifact.blob.Object?
      modifies this
      ensures (forall k :: k in old(sessions) ==> !Named(old(sessions)[k], actor, key)) ==>
                r == Ok && session == id
                  && View() == Step(old(View()), Event(now, Action.CreateUpload(id, actor, key, artifact)))
      ensures (exists k :: k in old(sessions) && Named(old(sessions)[k], actor, key)) ==>
                && View() == old(View()).(clock := now) && session in sessions && Named(sessions[session], actor, key)
                && (r == Ok <==>
                      && sessions[session].artifact == artifact
                      && (now < sessions[session].expires || sessions[session].verified))
    {
      clock := now;
      r, session := Ok, id;
      if k :| k in sessions && Named(sessions[k], actor, key) {
        session := k;
        if sessions[k].artifact != artifact { r := Err(KeyReused); }
        else if sessions[k].expires <= now && !sessions[k].verified { r := Err(UploadExpired); }
      } else {
        sessions := sessions[id := Session(actor, key, artifact, now + UPLOAD_TTL, false, None)];
      }
    }

    /** First every session is checked against its staged bytes; then all pending ones are stored and verified. */
    method FinalizeUploads(now: Time, actor: string, uploads: seq<Id>) returns (r: Outcome)
      requires clock <= now && forall k :: k in sessions ==> sessions[k].artifact.blob.Object?
      modifies this
      ensures r == Ok <==>
                && uploads != [] && (forall i, j :: 0 <= i < j < |uploads| ==> uploads[i] != uploads[j])
                && (forall id :: id in uploads ==> id in old(sessions) && old(sessions)[id].actor == actor)
                && TotalBytes(old(sessions), uploads) <= MAX_CAPTURE_BYTES
                && forall id :: id in uploads ==> Finalizable(old(View()).(clock := now), id)
      ensures r == Ok ==> View() == Step(old(View()), Event(now, Finalize(uploads)))
      ensures r != Ok ==> View() == old(View()).(clock := now)
    {
      clock := now;
      ghost var before := View();
      if uploads == [] || exists i, j :: 0 <= i < j < |uploads| && uploads[i] == uploads[j] { return Err(InvalidList); }
      var owned, total := CountBytes(actor, uploads);
      if !owned { return Err(NotFound); }
      if total > MAX_CAPTURE_BYTES { return Err(TooLarge); }
      if id :| id in uploads && sessions[id].expires <= now && !sessions[id].verified {
        assert !Finalizable(before, id);
        return Err(UploadExpired);
      }
      r := CheckStaged(uploads, actor);
      if r == Ok { Promote(uploads); }
    }

    method CountBytes(actor: string, uploads: seq<Id>) returns (owned: bool, total: nat)
      ensures owned == OwnedBy(sessions, actor, uploads) && (owned ==> total == TotalBytes(sessions, uploads))
    {
      total := 0;
      var i := 0;
      while i < |uploads|
        invariant i <= |uploads| && OwnedBy(sessions, actor, uploads[..i])
                  && total == TotalBytes(sessions, uploads[..i])
      {
        var id := uploads[i];
        assert id in uploads && uploads[..i + 1] == uploads[..i] + [id] && uploads[..i + 1][..i] == uploads[..i];
        if id !in sessions || sessions[id].actor != actor { return false, total; }
        total := total + sessions[id].artifact.bytes;
        i := i + 1;
      }
      assert uploads[..i] == uploads;
      owned := true;
    }

    /** Every session is verified, or its staged bytes are those it declares. */
    method CheckStaged(uploads: seq<Id>, actor: string) returns (r: Outcome)
      requires OwnedBy(sessions, actor, uploads) && forall k :: k in sessions ==> sessions[k].artifact.blob.Object?
      requires forall id :: id in uploads ==> clock < sessions[id].expires || sessions[id].verified
      ensures r == Ok <==> forall id :: id in uploads ==> Finalizable(View(), id)
    {
      var i := 0;
      while i < |uploads|
        invariant i <= |uploads| && forall k :: 0 <= k < i ==> Finalizable(View(), uploads[k])
      {
        var id := uploads[i];
        assert id in uploads;
        var session := sessions[id];
        if !session.verified {
          if Staging(id) !in objects { return Err(NotFound); }
          if objects[Staging(id)] != Declared(session.artifact) { return Err(WrongBytes); }
        }
        i := i + 1;
      }
      r := Ok;
    }

    method Promote(uploads: seq<Id>)
      requires IsList(uploads) && forall id :: id in uploads ==> Finalizable(View(), id)
      modifies this`objects, this`sessions
      ensures View() == Verified(old(View()), uploads)
    {
      ghost var before := View();
      var i := 0;
      while i < |uploads|
        invariant i <= |uploads| && View() == Verified(before, uploads[..i])
      {
        var id := uploads[i];
        assert uploads[..i + 1][..i] == uploads[..i] && uploads[..i + 1] == uploads[..i] + [id];
        VerifiedIs(before, uploads[..i]);
        assert id in uploads && Finalizable(before, id);
        assert id !in uploads[..i] && sessions[id] == before.sessions[id];
        if !sessions[id].verified {
          var session := sessions[id];
          var key := PutObject(Declared(session.artifact));
          sessions := sessions[id := session.(verified := true)];
        }
        i := i + 1;
      }
      assert uploads[..i] == uploads;
    }

    method ConsumeUploads(now: Time, actor: string, ids: set<Id>, capture: Id) returns (r: Outcome)
      requires clock <= now
      modifies this
      ensures r == Ok <==>
                old(forall id :: id in ids ==>
                      && id in sessions && sessions[id].actor == actor && sessions[id].verified
                      && (sessions[id].consumer == None || sessions[id].consumer == Some(capture)))
      ensures r == Ok ==> View() == Step(old(View()), Event(now, Consume(ids, capture)))
      ensures r != Ok ==> View() == old(View()).(clock := now)
    {
      clock := now;
      if exists id :: id in ids && !Linkable(sessions, actor, id, capture) { return Err(NotLinked); }
      sessions := map k | k in sessions :: if k in ids then sessions[k].(consumer := Some(capture)) else sessions[k];
      r := Ok;
    }

    method PurgeExpired(now: Time) returns (purged: nat)
      requires clock <= now
      modifies this
      ensures View() == Step(old(View()), Event(now, Purge))
      ensures purged == |Expired(old(View()).(clock := now))|
    {
      clock := now;
      ghost var before := View();
      var expired := Expired(View());
      DeleteAll(Stagings(expired));
      assert Unneeded(View(), Blobs(View(), expired)) == Unneeded(before, Blobs(before, expired));
      DeleteAll(Unneeded(View(), Blobs(View(), expired)));
      sessions := sessions - expired;
      purged := |expired|;
    }

    /** Queues a capture whose every artifact is in the store, with the digest its name says and the size it
        declares. */
    method EnqueueVerified(now: Time, id: Id, artifacts: seq<Artifact>) returns (r: Outcome)
      requires clock <= now && id !in captures
      modifies this
      ensures r == Ok <==>
                old(forall k :: 0 <= k < |artifacts| ==>
                      var a := artifacts[k];
                      a.blob.Object? && a.blob in objects && objects[a.blob] == Content(a.blob.digest, a.bytes))
      ensures r == Ok ==> Found(old(View()), Enqueue(id, Refs(artifacts)))
      ensures r == Ok ==> View() == Step(old(View()), Event(now, Enqueue(id, Refs(artifacts))))
      ensures r != Ok ==> View() == old(View()).(clock := now)
    {
      clock := now;
      var i := 0;
      while i < |artifacts|
        invariant i <= |artifacts| && View() == old(View()).(clock := now)
        invariant forall k :: 0 <= k < i ==> Stored(old(objects), artifacts[k])
      {
        if !Stored(objects, artifacts[i]) { return Err(NotFound); }
        i := i + 1;
      }
      captures := captures[id := Capture(Refs(artifacts), [], false)];
      r := Ok;
    }
  }
}
