/** Pull-based catalog reconciliation: what one source observes is upserted, what it stopped
    observing is soft-deleted. */
module Catalog {
  import opened Prelude
  import opened EntityRefs

  datatype Key = Key(kind: string, namespace: string, name: string)

  datatype Lifecycle = Active | Decommissioned | Archived

  /** A stored entity. Content stands for title, description, spec, metadata and relations; the hash decides whether
      it changed. */
  datatype Row = Row(uid: nat, content: string, hash: string, lifecycle: Lifecycle, source: Option<string>,
                     path: string,
                     createdAt: int, updatedAt: int, seenAt: int, deletedAt: Option<int>)

  type Rows = map<Key, Row>  // (kind, namespace, name) is a unique index

  /** A valid observed manifest with the uid its entity was given. */
  datatype Observed = Observed(key: Key, content: string, path: string, uid: nat)

  /** The content hash and the text operations. */
  datatype Env = Env(hash: (Key, string) -> string, text: Text)

  datatype Upsert = Inserted | Updated | Unchanged

  function RefOf(env: Env, key: Key): string { EntityRefOf(env.text, key.kind, key.namespace, key.name) }

  predicate IsActive(row: Row) { row.deletedAt.None? }

  // ---- One upsert and the removals ----

  function OutcomeOf(env: Env, existing: Option<Row>, e: Observed): Upsert {
    if existing.None? then Inserted
    else if existing.value.hash == env.hash(e.key, e.content) && IsActive(existing.value) then Unchanged
    else Updated
  }

  /** Uid, creation time and lifecycle survive an update; an unchanged row only notes that it was seen. */
  function UpsertedRow(env: Env, existing: Option<Row>, e: Observed, source: string, now: int): Row {
    match OutcomeOf(env, existing, e)
    case Inserted => Row(e.uid, e.content, env.hash(e.key, e.content), Active, Some(source), e.path, now, now, now,
                         None)
    case Updated => existing.value.(content := e.content, hash := env.hash(e.key, e.content), source := Some(source),
                                    path := e.path,
                                    seenAt := now, updatedAt := now, deletedAt := None)
    case Unchanged => existing.value.(seenAt := now)
  }

  function RowAt(rows: Rows, key: Key): Option<Row> { if key in rows then Some(rows[key]) else None }

  /** One pass of a source over its valid observations. */
  datatype Pass = Pass(source: string, observed: seq<Observed>, now: int)

  function AfterUpserts(env: Env, rows: Rows, pass: Pass, n: nat): Rows
    requires n <= |pass.observed|
  {
    if n == 0 then rows
    else
      var before, e := AfterUpserts(env, rows, pass, n - 1), pass.observed[n - 1];
      before[e.key := UpsertedRow(env, RowAt(before, e.key), e, pass.source, pass.now)]
  }

  function Outcomes(env: Env, rows: Rows, pass: Pass, n: nat): seq<Upsert>
    requires n <= |pass.observed|
  {
    if n == 0 then []
    else
      var before, e := AfterUpserts(env, rows, pass, n - 1), pass.observed[n - 1];
      Outcomes(env, rows, pass, n - 1) + [OutcomeOf(env, RowAt(before, e.key), e)]
  }

  function SeenRefs(env: Env, pass: Pass): set<string> { set e | e in pass.observed :: RefOf(env, e.key) }

  /** Active, attributed to the source, and its reference not among the seen ones. */
  predicate IsStale(env: Env, key: Key, row: Row, source: string, seen: set<string>) {
    IsActive(row) && row.source == Some(source) && RefOf(env, key) !in seen
  }

  function AfterRemovals(env: Env, rows: Rows, source: string, seen: set<string>, now: int): Rows {
    map key | key in rows ::
      if IsStale(env, key, rows[key], source, seen) then rows[key].(deletedAt := Some(now), updatedAt := now)
          else rows[key]
  }

  function AfterPass(env: Env, rows: Rows, pass: Pass): Rows {
    AfterRemovals(env, AfterUpserts(env, rows, pass, |pass.observed|), pass.source, SeenRefs(env, pass), pass.now)
  }

  function StaleKeys(env: Env, rows: Rows, source: string, seen: set<string>): set<Key> {
    set key | key in rows && IsStale(env, key, rows[key], source, seen)
  }

  // ---- Exactness ----

  predicate Observes(pass: Pass, n: nat, key: Key)
    requires n <= |pass.observed|
  {
    exists i :: 0 <= i < n && pass.observed[i].key == key
  }

  /** The last of the first `n` observations of a key. */
  function LastOf(pass: Pass, n: nat, key: Key): Observed
    requires n <= |pass.observed| && Observes(pass, n, key)
  {
    if pass.observed[n - 1].key == key then pass.observed[n - 1] else LastOf(pass, n - 1, key)
  }

  predicate SameIdentity(a: Row, b: Row) { a.uid == b.uid && a.createdAt == b.createdAt && a.lifecycle == b.lifecycle }

  /** The upserts leave unobserved rows alone; an observed one is active with the hash of its last observation, and
      a row that existed keeps its identity. */
  lemma {:induction false} UpsertsExact(env: Env, rows: Rows, pass: Pass, n: nat, key: Key)
    requires n <= |pass.observed|
    ensures var after := AfterUpserts(env, rows, pass, n);
            if !Observes(pass, n, key) then RowAt(after, key) == RowAt(rows, key)
            else
              && key in after && IsActive(after[key])
              && after[key].hash == env.hash(key, LastOf(pass, n, key).content)
              && (key in rows ==> SameIdentity(after[key], rows[key]))
              && (after[key].source == Some(pass.source) || (key in rows && after[key].source == rows[key].source))
  {
    if n > 0 {
      UpsertsExact(env, rows, pass, n - 1, key);
      if pass.observed[n - 1].key == key {
        assert Observes(pass, n, key);
      } else {
        assert Observes(pass, n, key) <==> Observes(pass, n - 1, key);
      }
    }
  }

  lemma {:induction false} HashesStayFit(env: Env, rows: Rows, pass: Pass, n: nat, key: Key)
    requires n <= |pass.observed| && (key in rows ==> rows[key].hash == env.hash(key, rows[key].content))
    ensures var after := AfterUpserts(env, rows, pass, n);
            key in after ==> after[key].hash == env.hash(key, after[key].content)
  {
    if n > 0 {
      HashesStayFit(env, rows, pass, n - 1, key);
    }
  }

  lemma SeenIsObserved(env: Env, pass: Pass, key: Key)
    requires Observes(pass, |pass.observed|, key)
    ensures RefOf(env, key) in SeenRefs(env, pass)
  {
  }

  /** After a pass of source s: an observed entity is active with its last observed content, no active row of s has an
      unobserved reference, a row neither observed nor attributed to s is untouched, a row of s that is no longer
      observed is at most soft-deleted, and every row keeps uid, creation time and lifecycle. */
  lemma PassExact(env: Env, rows: Rows, pass: Pass, key: Key)
    ensures var after, n := AfterPass(env, rows, pass), |pass.observed|;
            && (Observes(pass, n, key) ==>
                key in after && IsActive(after[key]) && after[key].hash == env.hash(key, LastOf(pass, n, key).content))
            && (key in after && IsActive(after[key]) && after[key].source == Some(pass.source) ==>
                RefOf(env, key) in SeenRefs(env, pass))
            && (key in rows ==> key in after && SameIdentity(after[key], rows[key]))
            && (!Observes(pass, n, key) ==>
                  RowAt(after, key) ==
                    if key in rows && rows[key].deletedAt.None? && rows[key].source == Some(pass.source)
                       && RefOf(env, key) !in SeenRefs(env, pass)
                    then Some(rows[key].(deletedAt := Some(pass.now), updatedAt := pass.now)) else RowAt(rows, key))
  {
    UpsertsExact(env, rows, pass, |pass.observed|, key);
    if Observes(pass, |pass.observed|, key) {
      SeenIsObserved(env, pass, key);
    }
  }

  /** With a hash that tells the contents of a key apart, the stored content itself is the last observed one. */
  lemma PassStoresContent(env: Env, rows: Rows, pass: Pass, key: Key)
    requires Observes(pass, |pass.observed|, key)
    requires forall a, b :: env.hash(key, a) == env.hash(key, b) ==> a == b
    requires key in rows ==> rows[key].hash == env.hash(key, rows[key].content)
    ensures key in AfterPass(env, rows, pass)
    ensures AfterPass(env, rows, pass)[key].content == LastOf(pass, |pass.observed|, key).content
  {
    UpsertsExact(env, rows, pass, |pass.observed|, key);
    HashesStayFit(env, rows, pass, |pass.observed|, key);
  }

  // ---- What a pass stores, in the terms of the rows and the observations ----

  /** The last of the first `n` observations of the key. */
  function LastBefore(pass: Pass, n: nat, key: Key): (i: Option<nat>)
    requires n <= |pass.observed|
    ensures i.None? <==> !Observes(pass, n, key)
    ensures i.Some? ==> i.value < n && pass.observed[i.value].key == key
    ensures i.Some? ==> forall j :: i.value < j < n ==> pass.observed[j].key != key
  {
    if n == 0 then None
    else if pass.observed[n - 1].key == key then Some(n - 1)
    else LastBefore(pass, n - 1, key)
  }

  /** The observation finds its key absent or deleted, or stored or last observed with another hash. */
  predicate Changes(env: Env, rows: Rows, pass: Pass, i: nat)
    requires i < |pass.observed|
  {
    var e, before := pass.observed[i], LastBefore(pass, i, pass.observed[i].key);
    if before.Some? then env.hash(e.key, pass.observed[before.value].content) != env.hash(e.key, e.content)
    else e.key !in rows || rows[e.key].deletedAt.Some? || rows[e.key].hash != env.hash(e.key, e.content)
  }

  /** The observation is the first ever of its key. */
  predicate IsNew(rows: Rows, pass: Pass, i: nat)
    requires i < |pass.observed|
  {
    pass.observed[i].key !in rows && LastBefore(pass, i, pass.observed[i].key).None?
  }

  predicate ChangesKey(env: Env, rows: Rows, pass: Pass, i: nat, key: Key)
    requires i < |pass.observed|
  {
    pass.observed[i].key == key && Changes(env, rows, pass, i)
  }

  /** The last of the first `n` observations that changes the key. */
  function LastChange(env: Env, rows: Rows, pass: Pass, n: nat, key: Key): (i: Option<nat>)
    requires n <= |pass.observed|
    ensures i.Some? ==> i.value < n && ChangesKey(env, rows, pass, i.value, key)
  {
    if n == 0 then None
    else if ChangesKey(env, rows, pass, n - 1, key) then Some(n - 1)
    else LastChange(env, rows, pass, n - 1, key)
  }

  lemma {:induction false} NoLaterChange(env: Env, rows: Rows, pass: Pass, n: nat, key: Key)
    requires n <= |pass.observed|
    ensures var i := LastChange(env, rows, pass, n, key);
            forall j: nat :: (i.Some? ==> i.value < j) && j < n ==> !ChangesKey(env, rows, pass, j, key)
  {
    if n > 0 && !ChangesKey(env, rows, pass, n - 1, key) { NoLaterChange(env, rows, pass, n - 1, key); }
  }

  /** The first observation of the key. */
  predicate IsFirst(pass: Pass, i: nat, key: Key) {
    i < |pass.observed| && pass.observed[i].key == key && !Observes(pass, i, key)
  }

  /** What the first `n` observations make of an observed key. It is active and was seen now. Content, hash, path,
      source and time of update are those of the last observation that changed it, or else as they were. A stored row
      keeps uid, creation time and lifecycle; a new one has the uid of its first observation. */
  ghost predicate StoredAs(env: Env, rows: Rows, pass: Pass, n: nat, key: Key, row: Row)
    requires n <= |pass.observed| && Observes(pass, n, key)
  {
    && row.deletedAt == None && row.seenAt == pass.now
    && (match LastChange(env, rows, pass, n, key)
        case Some(i) =>
          && row.content == pass.observed[i].content && row.hash == env.hash(key, pass.observed[i].content)
          && row.path == pass.observed[i].path && row.source == Some(pass.source) && row.updatedAt == pass.now
        case None =>
          && key in rows && row.content == rows[key].content && row.hash == rows[key].hash
          && row.path == rows[key].path && row.source == rows[key].source && row.updatedAt == rows[key].updatedAt)
    && (if key in rows
        then row.uid == rows[key].uid && row.createdAt == rows[key].createdAt && row.lifecycle == rows[key].lifecycle
        else row.createdAt == pass.now && row.lifecycle == Active
             && exists i :: 0 <= i < n && IsFirst(pass, i, key) && row.uid == pass.observed[i].uid)
  }

  /** The stored hash is that of the last observation. */
  lemma HashIsLast(env: Env, rows: Rows, pass: Pass, n: nat, key: Key)
    requires n <= |pass.observed|
    ensures var i, after := LastBefore(pass, n, key), AfterUpserts(env, rows, pass, n);
            if i.Some? then key in after && IsActive(after[key])
                            && after[key].hash == env.hash(key, pass.observed[i.value].content)
            else RowAt(after, key) == RowAt(rows, key)
  {
    UpsertsExact(env, rows, pass, n, key);
    if LastBefore(pass, n, key).Some? {
      LastIsLastBefore(pass, n, key);
    }
  }

  lemma {:induction false} LastIsLastBefore(pass: Pass, n: nat, key: Key)
    requires n <= |pass.observed| && Observes(pass, n, key)
    ensures LastOf(pass, n, key) == pass.observed[LastBefore(pass, n, key).value]
  {
    if pass.observed[n - 1].key != key { LastIsLastBefore(pass, n - 1, key); }
  }

  /** What the `i`-th observation means: nothing new, the first of its key, or a change. */
  function Meaning(env: Env, rows: Rows, pass: Pass, i: nat): Upsert
    requires i < |pass.observed|
  {
    if !Changes(env, rows, pass, i) then Unchanged else if IsNew(rows, pass, i) then Inserted else Updated
  }

  lemma OutcomeIs(env: Env, rows: Rows, pass: Pass, i: nat)
    requires i < |pass.observed|
    ensures var e := pass.observed[i];
            OutcomeOf(env, RowAt(AfterUpserts(env, rows, pass, i), e.key), e) == Meaning(env, rows, pass, i)
    ensures Outcomes(env, rows, pass, i + 1) == Outcomes(env, rows, pass, i) + [Meaning(env, rows, pass, i)]
  {
    HashIsLast(env, rows, pass, i, pass.observed[i].key);
  }

  function Meanings(env: Env, rows: Rows, pass: Pass, n: nat): seq<Upsert>
    requires n <= |pass.observed|
  {
    seq(n, i requires 0 <= i < n => Meaning(env, rows, pass, i))
  }

  lemma {:induction false} OutcomesAre(env: Env, rows: Rows, pass: Pass, n: nat)
    requires n <= |pass.observed|
    ensures Outcomes(env, rows, pass, n) == Meanings(env, rows, pass, n)
  {
    if n > 0 {
      OutcomesAre(env, rows, pass, n - 1);
      OutcomeIs(env, rows, pass, n - 1);
    }
  }

  lemma StoredStep(env: Env, rows: Rows, pass: Pass, n: nat)
    requires n < |pass.observed|
    requires var key := pass.observed[n].key; var before := AfterUpserts(env, rows, pass, n);
             if Observes(pass, n, key) then key in before && StoredAs(env, rows, pass, n, key, before[key])
             else RowAt(before, key) == RowAt(rows, key)
    ensures var key := pass.observed[n].key; var after := AfterUpserts(env, rows, pass, n + 1);
            Observes(pass, n + 1, key) && key in after && StoredAs(env, rows, pass, n + 1, key, after[key])
  {
    var key := pass.observed[n].key;
    OutcomeIs(env, rows, pass, n);
    assert pass.observed[n].key == key;
    if key !in rows && !Observes(pass, n, key) { assert IsFirst(pass, n, key); }
  }

  /** The upserts store exactly that, and touch no other key. */
  lemma {:induction false} UpsertsStore(env: Env, rows: Rows, pass: Pass, n: nat, key: Key)
    requires n <= |pass.observed|
    ensures var after := AfterUpserts(env, rows, pass, n);
            if Observes(pass, n, key) then key in after && StoredAs(env, rows, pass, n, key, after[key])
            else RowAt(after, key) == RowAt(rows, key)
  {
    if n > 0 {
      UpsertsStore(env, rows, pass, n - 1, key);
      if pass.observed[n - 1].key == key {
        StoredStep(env, rows, pass, n - 1);
      } else {
        StoredStays(env, rows, pass, n - 1, key);
      }
    }
  }

  lemma StoredStays(env: Env, rows: Rows, pass: Pass, n: nat, key: Key)
    requires n < |pass.observed| && pass.observed[n].key != key
    ensures Observes(pass, n + 1, key) <==> Observes(pass, n, key)
    ensures RowAt(AfterUpserts(env, rows, pass, n + 1), key) == RowAt(AfterUpserts(env, rows, pass, n), key)
    ensures Observes(pass, n, key) ==>
              forall row :: StoredAs(env, rows, pass, n, key, row) ==> StoredAs(env, rows, pass, n + 1, key, row)
  {
  }

  /** A key of a row the pass removes: active, attributed to the source, and its reference unseen. */
  predicate IsRemoved(env: Env, rows: Rows, pass: Pass, key: Key) {
    key in rows && rows[key].deletedAt.None? && rows[key].source == Some(pass.source)
    && RefOf(env, key) !in SeenRefs(env, pass)
  }

  /** The complete effect of a pass on a key. */
  ghost predicate Reconciles(env: Env, rows: Rows, pass: Pass, key: Key, after: Rows) {
    if Observes(pass, |pass.observed|, key)
    then key in after && StoredAs(env, rows, pass, |pass.observed|, key, after[key])
    else if IsRemoved(env, rows, pass, key)
    then key in after && after[key] == rows[key].(deletedAt := Some(pass.now), updatedAt := pass.now)
    else RowAt(after, key) == RowAt(rows, key)
  }

  lemma PassReconciles(env: Env, rows: Rows, pass: Pass, key: Key)
    ensures Reconciles(env, rows, pass, key, AfterPass(env, rows, pass))
  {
    UpsertsStore(env, rows, pass, |pass.observed|, key);
    if Observes(pass, |pass.observed|, key) { SeenIsObserved(env, pass, key); }
  }

  function RemovedKeys(env: Env, rows: Rows, pass: Pass): set<Key> {
    set key | key in rows && IsRemoved(env, rows, pass, key)
  }

  lemma StaleIsRemoved(env: Env, rows: Rows, pass: Pass)
    ensures StaleKeys(env, AfterUpserts(env, rows, pass, |pass.observed|), pass.source, SeenRefs(env, pass))
            == RemovedKeys(env, rows, pass)
  {
    var after := AfterUpserts(env, rows, pass, |pass.observed|);
    forall key
      ensures key in after && IsStale(env, key, after[key], pass.source, SeenRefs(env, pass))
              <==> IsRemoved(env, rows, pass, key)
    {
      UpsertsStore(env, rows, pass, |pass.observed|, key);
      if Observes(pass, |pass.observed|, key) { SeenIsObserved(env, pass, key); }
    }
  }

  // ---- Idempotence ----

  /** No key is observed with two different contents (up to the hash). */
  ghost predicate Consistent(env: Env, pass: Pass) {
    forall i, j :: 0 <= i < |pass.observed| && 0 <= j < |pass.observed| ==>
      var a, b := pass.observed[i], pass.observed[j];
      a.key == b.key ==> env.hash(a.key, a.content) == env.hash(b.key, b.content)
  }

  ghost predicate AllUnchanged(outcomes: seq<Upsert>) { forall i :: 0 <= i < |outcomes| ==> outcomes[i] == Unchanged }

  /** The stored rows already are what the pass observes. */
  ghost predicate Matches(env: Env, rows: Rows, pass: Pass, n: nat)
    requires n <= |pass.observed|
  {
    forall i :: 0 <= i < n ==>
      var e := pass.observed[i];
          e.key in rows && IsActive(rows[e.key]) && rows[e.key].hash == env.hash(e.key, e.content)
  }

  lemma AllUnchangedStep(outcomes: seq<Upsert>, outcome: Upsert)
    ensures AllUnchanged(outcomes + [outcome]) <==> AllUnchanged(outcomes) && outcome == Unchanged
  {
    assert (outcomes + [outcome])[..|outcomes|] == outcomes && (outcomes + [outcome])[|outcomes|] == outcome;
  }

  /** Equal up to the time a row was last seen. */
  ghost predicate OnlySeen(before: Rows, after: Rows) {
    after.Keys == before.Keys && forall key :: key in before ==>
        after[key].(seenAt := before[key].seenAt) == before[key]
  }

  /** Upserts of what is already stored only note that rows were seen. */
  lemma {:induction false} MatchesOnlySeen(env: Env, rows: Rows, pass: Pass, n: nat)
    requires n <= |pass.observed| && Matches(env, rows, pass, n)
    ensures OnlySeen(rows, AfterUpserts(env, rows, pass, n))
  {
    if n > 0 {
      MatchesOnlySeen(env, rows, pass, n - 1);
    }
  }

  /** Upserts report only "unchanged" exactly when the stored rows match all observations. */
  lemma {:induction false} UnchangedIffMatches(env: Env, rows: Rows, pass: Pass, n: nat)
    requires n <= |pass.observed|
    ensures AllUnchanged(Outcomes(env, rows, pass, n)) <==> Matches(env, rows, pass, n)
  {
    if n > 0 {
      UnchangedIffMatches(env, rows, pass, n - 1);
      var before, e := AfterUpserts(env, rows, pass, n - 1), pass.observed[n - 1];
      AllUnchangedStep(Outcomes(env, rows, pass, n - 1), OutcomeOf(env, RowAt(before, e.key), e));
      if Matches(env, rows, pass, n - 1) {
        MatchesOnlySeen(env, rows, pass, n - 1);
      }
    }
  }

  lemma {:induction false} LastOfIndex(pass: Pass, n: nat, key: Key) returns (i: nat)
    requires n <= |pass.observed| && Observes(pass, n, key)
    ensures i < n && pass.observed[i] == LastOf(pass, n, key) && pass.observed[i].key == key
  {
    i := n - 1;
    if pass.observed[n - 1].key != key { i := LastOfIndex(pass, n - 1, key); }
  }

  /** The same observed things, up to the fresh uids. */
  ghost predicate SameThings(a: seq<Observed>, b: seq<Observed>) {
    |a| == |b| && forall i :: 0 <= i < |a| ==>
        a[i].key == b[i].key && a[i].content == b[i].content && a[i].path == b[i].path
  }

  /** Two passes of one source that observe the same things, at whatever times and with whatever fresh uids. */
  ghost predicate SameObservation(p: Pass, q: Pass) { p.source == q.source && SameThings(p.observed, q.observed) }

  lemma SameSeen(env: Env, p: Pass, q: Pass)
    requires SameObservation(p, q)
    ensures SeenRefs(env, p) <= SeenRefs(env, q)
  {
  }

  /** Removals are never repeated: whatever was observed, a second pass over the same observation finds no stale row. */
  lemma NothingStaleAgain(env: Env, rows: Rows, pass: Pass, again: Pass)
    requires SameObservation(pass, again)
    ensures var once, n := AfterPass(env, rows, pass), |pass.observed|;
            StaleKeys(env, AfterUpserts(env, once, again, n), pass.source, SeenRefs(env, again)) == {}
  {
    var once, n := AfterPass(env, rows, pass), |pass.observed|;
    var twice := AfterUpserts(env, once, again, n);
    SameSeen(env, pass, again);
    forall key | key in twice ensures !IsStale(env, key, twice[key], pass.source, SeenRefs(env, again)) {
      UpsertsExact(env, once, again, n, key);
      if Observes(again, n, key) {
        SeenIsObserved(env, again, key);
      } else {
        PassExact(env, rows, pass, key);
      }
    }
  }

  /** Repeating a pass over the same observation, at any later time, reports nothing inserted or updated if and only
      if no key was observed with two different contents; and never anything removed. */
  lemma RepeatIsQuiet(env: Env, rows: Rows, pass: Pass, again: Pass)
    requires SameObservation(pass, again)
    ensures var once, n := AfterPass(env, rows, pass), |pass.observed|;
            && (AllUnchanged(Outcomes(env, once, again, n)) <==> Consistent(env, pass))
            && StaleKeys(env, AfterUpserts(env, once, again, n), pass.source, SeenRefs(env, again)) == {}
  {
    var once, n := AfterPass(env, rows, pass), |pass.observed|;
    NothingStaleAgain(env, rows, pass, again);
    UnchangedIffMatches(env, once, again, n);
    forall i | 0 <= i < n
      ensures var e := again.observed[i];
              e.key in once && IsActive(once[e.key])
                  && (Consistent(env, pass) ==> once[e.key].hash == env.hash(e.key, e.content))
    {
      ObservedHash(env, rows, pass, i);
    }
    if Consistent(env, pass) {
      assert Matches(env, once, again, n);
    } else if Matches(env, once, again, n) {
      MatchesOnlyIfConsistent(env, once, pass, again);
    }
  }

  lemma MatchesOnlyIfConsistent(env: Env, rows: Rows, pass: Pass, again: Pass)
    requires SameObservation(pass, again) && Matches(env, rows, again, |pass.observed|)
    ensures Consistent(env, pass)
  {
  }

  lemma ObservedHash(env: Env, rows: Rows, pass: Pass, i: nat)
    requires i < |pass.observed|
    ensures var e, once := pass.observed[i], AfterPass(env, rows, pass);
            e.key in once && IsActive(once[e.key])
                && (Consistent(env, pass) ==> once[e.key].hash == env.hash(e.key, e.content))
  {
    var key := pass.observed[i].key;
    assert Observes(pass, |pass.observed|, key);
    PassExact(env, rows, pass, key);
    var last := LastOfIndex(pass, |pass.observed|, key);
  }

  // ---- Order independence ----

  /** A row up to its uid and timestamps. */
  datatype View = View(content: string, hash: string, lifecycle: Lifecycle, source: Option<string>, path: string,
                       active: bool)

  function ViewOf(row: Row): View { View(row.content, row.hash, row.lifecycle, row.source, row.path, IsActive(row)) }

  function ViewAt(rows: Rows, key: Key): Option<View> { if key in rows then Some(ViewOf(rows[key])) else None }

  lemma {:induction false} UpsertsLocal(env: Env, rows: Rows, rows': Rows, p: Pass, q: Pass, n: nat, key: Key)
    requires SameObservation(p, q) && n <= |p.observed| && ViewAt(rows, key) == ViewAt(rows', key)
    ensures ViewAt(AfterUpserts(env, rows, p, n), key) == ViewAt(AfterUpserts(env, rows', q, n), key)
  {
    if n > 0 {
      UpsertsLocal(env, rows, rows', p, q, n - 1, key);
    }
  }

  /** What a pass makes of a key depends only on what is stored at that key, up to uid and timestamps. */
  lemma PassLocal(env: Env, rows: Rows, rows': Rows, p: Pass, q: Pass, key: Key)
    requires SameObservation(p, q) && ViewAt(rows, key) == ViewAt(rows', key)
    ensures ViewAt(AfterPass(env, rows, p), key) == ViewAt(AfterPass(env, rows', q), key)
  {
    UpsertsLocal(env, rows, rows', p, q, |p.observed|, key);
    SameSeen(env, p, q);
    SameSeen(env, q, p);
  }

  /** The keys a pass can act on: those it observes and those stored for its source. */
  ghost predicate Concerns(rows: Rows, p: Pass, key: Key) {
    ObservesKey(p, key) || (key in rows && rows[key].source == Some(p.source))
  }

  predicate ObservesKey(p: Pass, key: Key) { Observes(p, |p.observed|, key) }

  /** Sources are distinct, observe disjoint keys, and a stored key is observed only by the source that holds it. */
  ghost predicate Independent(rows: Rows, passes: seq<Pass>) {
    && (forall i, j :: 0 <= i < j < |passes| ==> passes[i].source != passes[j].source)
    && (forall i, j, key :: 0 <= i < j < |passes| && ObservesKey(passes[i], key) ==> !ObservesKey(passes[j], key))
    && (forall i, key :: 0 <= i < |passes| && ObservesKey(passes[i], key) && key in rows ==>
        rows[key].source == Some(passes[i].source))
  }

  function AfterPasses(env: Env, rows: Rows, passes: seq<Pass>): Rows {
    if passes == [] then rows else AfterPass(env, AfterPasses(env, rows, passes[..|passes| - 1]), passes[|passes| - 1])
  }

  lemma Unconcerned(env: Env, rows: Rows, p: Pass, key: Key)
    requires !Concerns(rows, p, key)
    ensures RowAt(AfterPass(env, rows, p), key) == RowAt(rows, key)
  {
    PassExact(env, rows, p, key);
  }

  lemma SourceAfter(env: Env, rows: Rows, p: Pass, key: Key)
    requires key in AfterPass(env, rows, p)
    ensures var source := AfterPass(env, rows, p)[key].source;
            source == Some(p.source) || (key in rows && source == rows[key].source)
  {
    UpsertsExact(env, rows, p, |p.observed|, key);
  }

  lemma AtMostOneConcern(rows: Rows, passes: seq<Pass>, i: nat, j: nat, key: Key)
    requires Independent(rows, passes) && i < j < |passes| && Concerns(rows, passes[i], key)
    ensures !Concerns(rows, passes[j], key) && passes[i].source != passes[j].source
  {
  }

  lemma IndependentPrefix(rows: Rows, passes: seq<Pass>, n: nat)
    requires Independent(rows, passes) && n <= |passes|
    ensures Independent(rows, passes[..n])
  {
  }

  lemma {:induction false} PassesUnconcerned(env: Env, rows: Rows, passes: seq<Pass>, key: Key)
    requires forall i :: 0 <= i < |passes| ==> !Concerns(rows, passes[i], key)
    ensures RowAt(AfterPasses(env, rows, passes), key) == RowAt(rows, key)
    decreases |passes|
  {
    if passes != [] {
      var n := |passes| - 1;
      PassesUnconcerned(env, rows, passes[..n], key);
      Unconcerned(env, AfterPasses(env, rows, passes[..n]), passes[n], key);
    }
  }

  /** Independent passes in sequence act on a key as the one pass concerned with it would alone. */
  lemma {:induction false} PassesConcerned(env: Env, rows: Rows, passes: seq<Pass>, i: nat, key: Key)
    requires Independent(rows, passes) && i < |passes| && Concerns(rows, passes[i], key)
    ensures ViewAt(AfterPasses(env, rows, passes), key) == ViewAt(AfterPass(env, rows, passes[i]), key)
    decreases |passes|
  {
    var n := |passes| - 1;
    var earlier, p := passes[..n], passes[n];
    var before := AfterPasses(env, rows, earlier);
    if i == n {
      forall k | 0 <= k < n ensures !Concerns(rows, earlier[k], key) {
        if Concerns(rows, passes[k], key) { AtMostOneConcern(rows, passes, k, n, key); }
      }
      PassesUnconcerned(env, rows, earlier, key);
      PassLocal(env, before, rows, p, p, key);
    } else {
      IndependentPrefix(rows, passes, n);
      PassesConcerned(env, rows, earlier, i, key);
      AtMostOneConcern(rows, passes, i, n, key);
      if key in AfterPass(env, rows, passes[i]) { SourceAfter(env, rows, passes[i], key); }
      Unconcerned(env, before, p, key);
    }
  }

  /** `to` sends every pass of one list to a pass with the same observation in the other. */
  ghost predicate Covers(ps: seq<Pass>, qs: seq<Pass>, to: seq<nat>) {
    |to| == |ps| && forall i :: 0 <= i < |ps| ==> to[i] < |qs| && SameObservation(ps[i], qs[to[i]])
  }

  /** Sources with disjoint keys, each key previously held only by its own source, can be reconciled in any order, at
      any times: the final catalog is the same up to uids and timestamps. */
  lemma OrderIndependent(env: Env, rows: Rows, ps: seq<Pass>, qs: seq<Pass>, to: seq<nat>, back: seq<nat>, key: Key)
    requires Independent(rows, ps) && Independent(rows, qs) && Covers(ps, qs, to) && Covers(qs, ps, back)
    ensures ViewAt(AfterPasses(env, rows, ps), key) == ViewAt(AfterPasses(env, rows, qs), key)
  {
    if i: nat :| i < |ps| && Concerns(rows, ps[i], key) {
      SameConcern(rows, ps[i], qs[to[i]], key);
      SameResult(env, rows, ps, qs, i, to[i], key);
    } else {
      forall j | 0 <= j < |qs| ensures !Concerns(rows, qs[j], key) { SameConcern(rows, qs[j], ps[back[j]], key); }
      PassesUnconcerned(env, rows, ps, key);
      PassesUnconcerned(env, rows, qs, key);
    }
  }

  lemma SameResult(env: Env, rows: Rows, ps: seq<Pass>, qs: seq<Pass>, i: nat, j: nat, key: Key)
    requires Independent(rows, ps) && Independent(rows, qs) && i < |ps| && j < |qs| && SameObservation(ps[i], qs[j])
    requires Concerns(rows, ps[i], key) && Concerns(rows, qs[j], key)
    ensures ViewAt(AfterPasses(env, rows, ps), key) == ViewAt(AfterPasses(env, rows, qs), key)
  {
    PassesConcerned(env, rows, ps, i, key);
    PassesConcerned(env, rows, qs, j, key);
    PassLocal(env, rows, rows, ps[i], qs[j], key);
  }

  lemma SameConcern(rows: Rows, p: Pass, q: Pass, key: Key)
    requires SameObservation(p, q)
    ensures Concerns(rows, p, key) <==> Concerns(rows, q, key)
  {
  }
}
