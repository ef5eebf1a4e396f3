/** The catalog store and the reconciler's loops over it. */
module CatalogReconcile {
  import opened Prelude
  import opened EntityRefs
  import opened Catalog

  /** A manifest of a fetched file: `known` if the registry has a schema for its kind, with what validation found. */
  datatype Manifest = Manifest(key: Key, content: string, known: bool, errors: seq<string>)

  /** A fetched file and what parsing made of it. */
  datatype Raw = Raw(path: string, manifests: Result<seq<Manifest>, string>)

  datatype Report = Report(inserted: nat, updated: nat, same: nat, removed: nat, invalid: Problems)

  /** Strict validation for kinds with a schema, a lenient check of the envelope for all others. */
  predicate IsValid(m: Manifest) { if m.known then m.errors == [] else m.key.name != "" }

  // ---- What a pass observes ----

  function WithManifest(observed: seq<Observed>, path: string, m: Manifest, base: nat): seq<Observed> {
    if IsValid(m) then observed + [Observed(m.key, m.content, path, base + |observed|)] else observed
  }

  function WithManifests(observed: seq<Observed>, path: string, ms: seq<Manifest>, n: nat, base: nat): seq<Observed>
    requires n <= |ms|
  {
    if n == 0 then observed else WithManifest(WithManifests(observed, path, ms, n - 1, base), path, ms[n - 1], base)
  }

  /** The valid manifests of the first `n` files, in order, with consecutive fresh uids from `base` on. */
  function ObservedOf(raws: seq<Raw>, n: nat, base: nat): seq<Observed>
    requires n <= |raws|
  {
    if n == 0 then []
    else
      var earlier := ObservedOf(raws, n - 1, base);
      match raws[n - 1].manifests
      case Ok(ms) => WithManifests(earlier, raws[n - 1].path, ms, |ms|, base)
      case Err(_) => earlier
  }

  /** What is reported invalid: a file that does not parse, a manifest its schema refuses, a manifest without a name. */
  type Problems = seq<(string, seq<string>)>

  function ManifestProblems(found: Problems, path: string, m: Manifest): Problems {
    if IsValid(m) then found
        else found + [if m.known then (path + "#" + m.key.name, m.errors) else (path, ["metadata.name required"])]
  }

  function FileProblems(found: Problems, path: string, ms: seq<Manifest>, n: nat): Problems
    requires n <= |ms|
  {
    if n == 0 then found else ManifestProblems(FileProblems(found, path, ms, n - 1), path, ms[n - 1])
  }

  function InvalidOf(raws: seq<Raw>, n: nat): Problems
    requires n <= |raws|
  {
    if n == 0 then []
    else
      var earlier := InvalidOf(raws, n - 1);
      match raws[n - 1].manifests
      case Ok(ms) => FileProblems(earlier, raws[n - 1].path, ms, |ms|)
      case Err(e) => earlier + [(raws[n - 1].path, [e])]
  }

  // ---- The same in the terms of the files ----

  /** The `place.1`-th manifest of the `place.0`-th file. A file that does not parse has its first place only. */
  type Place = (nat, nat)

  predicate Precedes(a: Place, b: Place) { a.0 < b.0 || (a.0 == b.0 && a.1 < b.1) }

  /** What is found at a place that passes validation: one whose kind has a schema shows no error, any other a name. */
  function FoundAt(raws: seq<Raw>): Place -> Option<(Key, string, string)> {
    (p: Place) =>
      if p.0 >= |raws| || raws[p.0].manifests.Err? || p.1 >= |raws[p.0].manifests.value| then None
      else
        var m := raws[p.0].manifests.value[p.1];
        if (m.known && m.errors == []) || (!m.known && m.key.name != "") then Some((m.key, m.content, raws[p.0].path))
        else None
  }

  /** What is wrong at a place. */
  function WrongAt(raws: seq<Raw>): Place -> Option<(string, seq<string>)> {
    (p: Place) =>
      if p.0 >= |raws| then None
      else
        match raws[p.0].manifests
        case Err(e) => if p.1 == 0 then Some((raws[p.0].path, [e])) else None
        case Ok(ms) =>
          if p.1 >= |ms| then None
          else if ms[p.1].known && ms[p.1].errors != []
               then Some((raws[p.0].path + "#" + ms[p.1].key.name, ms[p.1].errors))
          else if !ms[p.1].known && ms[p.1].key.name == "" then Some((raws[p.0].path, ["metadata.name required"]))
          else None
  }

  /** The items are those of all places before `end`, in order; `places` says where each of them is. */
  ghost predicate ListsUpTo<T(!new)>(items: seq<T>, places: seq<Place>, at: Place -> Option<T>, end: Place) {
    && |places| == |items|
    && (forall i :: 0 <= i < |items| ==> at(places[i]) == Some(items[i]) && Precedes(places[i], end))
    && (forall i, j :: 0 <= i < j < |places| ==> Precedes(places[i], places[j]))
    && (forall p :: at(p).Some? && Precedes(p, end) ==> p in places)
  }

  /** The items are those of all places, in order. */
  ghost predicate ListsAll<T(!new)>(items: seq<T>, at: Place -> Option<T>, files: nat) {
    exists places :: ListsUpTo(items, places, at, (files, 0))
  }

  lemma OneMorePlace<T(!new)>(items: seq<T>, places: seq<Place>, at: Place -> Option<T>, end: Place)
    returns (longer: seq<Place>)
    requires ListsUpTo(items, places, at, end)
    ensures ListsUpTo(items + if at(end).Some? then [at(end).value] else [], longer, at, (end.0, end.1 + 1))
  {
    longer := places + if at(end).Some? then [end] else [];
    forall p | at(p).Some? && Precedes(p, (end.0, end.1 + 1)) ensures p in longer {
      assert p == end || Precedes(p, end);
    }
  }

  lemma NextFile<T(!new)>(items: seq<T>, places: seq<Place>, at: Place -> Option<T>, end: Place)
    requires ListsUpTo(items, places, at, end) && forall k :: k >= end.1 ==> at((end.0, k)).None?
    ensures ListsUpTo(items, places, at, (end.0 + 1, 0))
  {
    forall p | at(p).Some? && Precedes(p, (end.0 + 1, 0)) ensures p in places {
      assert p.0 == end.0 ==> p == (end.0, p.1);
    }
  }

  function Finds(observed: seq<Observed>): seq<(Key, string, string)> {
    seq(|observed|, i requires 0 <= i < |observed| => (observed[i].key, observed[i].content, observed[i].path))
  }

  lemma FindsOneMore(observed: seq<Observed>, e: Observed)
    ensures Finds(observed + [e]) == Finds(observed) + [(e.key, e.content, e.path)]
  {
  }

  ghost predicate UidsFrom(observed: seq<Observed>, base: nat) {
    forall i :: 0 <= i < |observed| ==> observed[i].uid == base + i
  }

  lemma {:induction false} FileObserved(raws: seq<Raw>, observed: seq<Observed>, places: seq<Place>, f: nat, k: nat,
                                        base: nat) returns (longer: seq<Place>)
    requires f < |raws| && raws[f].manifests.Ok? && k <= |raws[f].manifests.value| && UidsFrom(observed, base)
    requires ListsUpTo(Finds(observed), places, FoundAt(raws), (f, 0))
    ensures var after := WithManifests(observed, raws[f].path, raws[f].manifests.value, k, base);
            ListsUpTo(Finds(after), longer, FoundAt(raws), (f, k)) && UidsFrom(after, base)
  {
    longer := places;
    if k > 0 {
      var ms := raws[f].manifests.value;
      var before := WithManifests(observed, raws[f].path, ms, k - 1, base);
      longer := FileObserved(raws, observed, places, f, k - 1, base);
      longer := OneMorePlace(Finds(before), longer, FoundAt(raws), (f, k - 1));
      FindsOneMore(before, Observed(ms[k - 1].key, ms[k - 1].content, raws[f].path, base + |before|));
      assert Finds(before) + [] == Finds(before);
    }
  }

  /** The observations are the valid manifests of the files, in order, with consecutive uids. */
  lemma {:induction false} ObservedIs(raws: seq<Raw>, n: nat, base: nat) returns (places: seq<Place>)
    requires n <= |raws|
    ensures ListsUpTo(Finds(ObservedOf(raws, n, base)), places, FoundAt(raws), (n, 0))
    ensures UidsFrom(ObservedOf(raws, n, base), base)
  {
    places := [];
    if n > 0 {
      var earlier := ObservedOf(raws, n - 1, base);
      places := ObservedIs(raws, n - 1, base);
      if raws[n - 1].manifests.Ok? {
        var k := |raws[n - 1].manifests.value|;
        places := FileObserved(raws, earlier, places, n - 1, k, base);
        NextFile(Finds(ObservedOf(raws, n, base)), places, FoundAt(raws), (n - 1, k));
      } else {
        NextFile(Finds(earlier), places, FoundAt(raws), (n - 1, 0));
      }
    }
  }

  lemma {:induction false} FileWrong(raws: seq<Raw>, found: Problems, places: seq<Place>, f: nat, k: nat)
    returns (longer: seq<Place>)
    requires f < |raws| && raws[f].manifests.Ok? && k <= |raws[f].manifests.value|
    requires ListsUpTo(found, places, WrongAt(raws), (f, 0))
    ensures ListsUpTo(FileProblems(found, raws[f].path, raws[f].manifests.value, k), longer, WrongAt(raws), (f, k))
  {
    longer := places;
    if k > 0 {
      var before := FileProblems(found, raws[f].path, raws[f].manifests.value, k - 1);
      longer := FileWrong(raws, found, places, f, k - 1);
      longer := OneMorePlace(before, longer, WrongAt(raws), (f, k - 1));
      assert before + [] == before;
    }
  }

  lemma ParsedFileWrong(raws: seq<Raw>, n: nat, places: seq<Place>) returns (longer: seq<Place>)
    requires n < |raws| && raws[n].manifests.Ok? && ListsUpTo(InvalidOf(raws, n), places, WrongAt(raws), (n, 0))
    ensures ListsUpTo(InvalidOf(raws, n + 1), longer, WrongAt(raws), (n + 1, 0))
  {
    var k := |raws[n].manifests.value|;
    longer := FileWrong(raws, InvalidOf(raws, n), places, n, k);
    NextFile(InvalidOf(raws, n + 1), longer, WrongAt(raws), (n, k));
  }

  lemma UnparsedFileWrong(raws: seq<Raw>, n: nat, places: seq<Place>) returns (longer: seq<Place>)
    requires n < |raws| && raws[n].manifests.Err? && ListsUpTo(InvalidOf(raws, n), places, WrongAt(raws), (n, 0))
    ensures ListsUpTo(InvalidOf(raws, n + 1), longer, WrongAt(raws), (n + 1, 0))
  {
    longer := OneMorePlace(InvalidOf(raws, n), places, WrongAt(raws), (n, 0));
    NextFile(InvalidOf(raws, n + 1), longer, WrongAt(raws), (n, 1));
  }

  /** The problems are those of the files, in order. */
  lemma {:induction false} InvalidIs(raws: seq<Raw>, n: nat) returns (places: seq<Place>)
    requires n <= |raws|
    ensures ListsUpTo(InvalidOf(raws, n), places, WrongAt(raws), (n, 0))
  {
    places := [];
    if n > 0 {
      places := InvalidIs(raws, n - 1);
      if raws[n - 1].manifests.Ok? {
        places := ParsedFileWrong(raws, n - 1, places);
      } else {
        places := UnparsedFileWrong(raws, n - 1, places);
      }
    }
  }

  function Count(outcomes: seq<Upsert>, which: Upsert): nat {
    if outcomes == [] then 0
    else Count(outcomes[..|outcomes| - 1], which) + if outcomes[|outcomes| - 1] == which then 1 else 0
  }

  lemma {:induction false} PassGrows(env: Env, rows: Rows, p: Pass, e: Observed, n: nat)
    requires n <= |p.observed|
    ensures var q := p.(observed := p.observed + [e]);
            AfterUpserts(env, rows, q, n) == AfterUpserts(env, rows, p, n)
                && Outcomes(env, rows, q, n) == Outcomes(env, rows, p, n)
  {
    if n > 0 {
      PassGrows(env, rows, p, e, n - 1);
    }
  }

  // ---- Uids ----

  ghost predicate UniqueUids(rows: Rows) {
    forall a, b :: a in rows && b in rows && rows[a].uid == rows[b].uid ==> a == b
  }

  function WithDeleted(rows: Rows, uid: nat, now: int): Rows {
    map key | key in rows ::
        if rows[key].uid == uid then rows[key].(deletedAt := Some(now), updatedAt := now) else rows[key]
  }

  function WithLifecycle(rows: Rows, uid: nat, lifecycle: Lifecycle, now: int): Rows {
    map key | key in rows ::
        if rows[key].uid == uid then rows[key].(lifecycle := lifecycle, updatedAt := now) else rows[key]
  }

  ghost predicate UidsBelow(rows: Rows, bound: nat) { forall key :: key in rows ==> rows[key].uid < bound }

  class CatalogRepo {
    const env: Env
    var rows: Rows
    var nextUid: nat

    ghost predicate Valid()
      reads this
    {
      UniqueUids(rows) && UidsBelow(rows, nextUid)
    }

    constructor (env: Env)
      ensures Valid() && rows == map[] && this.env == env
    {
      this.env, rows, nextUid := env, map[], 0;
    }

    method NewUid() returns (uid: nat)
      modifies this`nextUid
      ensures uid == old(nextUid) && nextUid == uid + 1
    {
      uid := nextUid;
      nextUid := nextUid + 1;
    }

    method Upsert(e: Observed, source: string, now: int) returns (outcome: Upsert)
      requires UniqueUids(rows) && UidsBelow(rows, e.uid) && e.uid < nextUid
      modifies this`rows
      ensures outcome == OutcomeOf(env, RowAt(old(rows), e.key), e)
      ensures rows == old(rows)[e.key := UpsertedRow(env, RowAt(old(rows), e.key), e, source, now)]
      // The same column by column.
      ensures outcome.Inserted? <==> e.key !in old(rows)
      ensures outcome.Unchanged?
              <==> e.key in old(rows) && old(rows)[e.key].hash == env.hash(e.key, e.content)
                   && old(rows)[e.key].deletedAt.None?
      ensures rows == old(rows)[e.key :=
                match outcome
                case Inserted => Row(e.uid, e.content, env.hash(e.key, e.content), Active, Some(source), e.path, now,
                                     now, now, None)
                case Updated => old(rows)[e.key].(content := e.content, hash := env.hash(e.key, e.content),
                                                  source := Some(source), path := e.path, seenAt := now,
                                                  updatedAt := now, deletedAt := None)
                case Unchanged => old(rows)[e.key].(seenAt := now)]
      ensures Valid() && UidsBelow(rows, e.uid + 1)
    {
      var hash := env.hash(e.key, e.content);
      if e.key in rows {
        var row := rows[e.key];
        if row.hash == hash && row.deletedAt.None? {
          rows := rows[e.key := row.(seenAt := now)];
          return Unchanged;
        }
        rows := rows[e.key := row.(content := e.content, hash := hash, source := Some(source), path := e.path,
                                   seenAt := now, updatedAt := now, deletedAt := None)];
        return Updated;
      }
      rows := rows[e.key := Row(e.uid, e.content, hash, Active, Some(source), e.path, now, now, now, None)];
      return Inserted;
    }

    /** The row is active and attributed to the source. */
    predicate IsHeld(key: Key, source: string)
      reads this
    {
      key in rows && IsActive(rows[key]) && rows[key].source == Some(source)
    }

    /** The pair is uid and printed reference of such a row. */
    ghost predicate IsRefOf(ref: (nat, string), source: string)
      reads this
    {
      exists key :: IsHeld(key, source) && ref == (rows[key].uid, RefOf(env, key))
    }

    /** Uid and printed reference of every active row of a source; `keys` are the rows they belong to. */
    method ActiveRefsForSource(source: string) returns (refs: seq<(nat, string)>, ghost keys: seq<Key>)
      ensures forall ref :: ref in refs <==> IsRefOf(ref, source)
      ensures |keys| == |refs| && forall i, j :: 0 <= i < j < |keys| ==> keys[i] != keys[j]
      ensures forall key :: key in keys <==> key in rows && IsActive(rows[key]) && rows[key].source == Some(source)
      ensures forall i :: 0 <= i < |keys| ==> keys[i] in rows && refs[i] == (rows[keys[i]].uid, RefOf(env, keys[i]))
    {
      refs, keys := [], [];
      var todo := rows.Keys;
      while todo != {}
        invariant todo <= rows.Keys
        invariant |keys| == |refs| && forall i, j :: 0 <= i < j < |keys| ==> keys[i] != keys[j]
        invariant forall key :: key in keys <==> key !in todo && IsHeld(key, source)
        invariant forall i :: 0 <= i < |keys| ==> keys[i] in rows && refs[i] == (rows[keys[i]].uid, RefOf(env, keys[i]))
      {
        var key :| key in todo;
        todo := todo - {key};
        if rows[key].deletedAt.None? && rows[key].source == Some(source) {
          refs, keys := refs + [(rows[key].uid, RefOf(env, key))], keys + [key];
        }
      }
      forall key | key in keys ensures (rows[key].uid, RefOf(env, key)) in refs {
        var i :| 0 <= i < |keys| && keys[i] == key;
        assert refs[i] == (rows[key].uid, RefOf(env, key));
      }
      forall pair | pair in refs ensures exists key :: key in keys && pair == (rows[key].uid, RefOf(env, key)) {
        var i :| 0 <= i < |refs| && refs[i] == pair;
        assert keys[i] in keys;
      }
    }

    method SoftDelete(uid: nat, now: int)
      modifies this`rows
      ensures rows.Keys == old(rows).Keys && forall key :: key in rows ==>
                rows[key] == if old(rows)[key].uid == uid
                             then old(rows)[key].(deletedAt := Some(now), updatedAt := now) else old(rows)[key]
      ensures rows == WithDeleted(old(rows), uid, now)
    {
      rows := map key | key in rows ::
          if rows[key].uid == uid then rows[key].(deletedAt := Some(now), updatedAt := now) else rows[key];
    }

    /** Owned by the workflow layer; reconciliation never calls it. */
    method SetLifecycle(uid: nat, lifecycle: Lifecycle, now: int)
      modifies this`rows
      ensures rows.Keys == old(rows).Keys && forall key :: key in rows ==>
                rows[key] == if old(rows)[key].uid == uid
                             then old(rows)[key].(lifecycle := lifecycle, updatedAt := now) else old(rows)[key]
      ensures rows == WithLifecycle(old(rows), uid, lifecycle, now)
      ensures old(Valid()) ==> Valid()
    {
      rows := map key | key in rows ::
          if rows[key].uid == uid then rows[key].(lifecycle := lifecycle, updatedAt := now) else rows[key];
    }
  }

  // ---- The reconciler ----

  function Noted(report: Report, outcome: Upsert): Report {
    match outcome
    case Inserted => report.(inserted := report.inserted + 1)
    case Updated => report.(updated := report.updated + 1)
    case Unchanged => report.(same := report.same + 1)
  }

  ghost predicate Counts(report: Report, outcomes: seq<Upsert>) {
    report.inserted == Count(outcomes, Inserted) && report.updated == Count(outcomes, Updated)
        && report.same == Count(outcomes, Unchanged)
  }

  /** The upsert loop has handled what `pass` lists. */
  ghost predicate Upserted(env: Env, before: Rows, now: Rows, pass: Pass, report: Report, seen: set<string>) {
    && now == AfterUpserts(env, before, pass, |pass.observed|)
    && seen == SeenRefs(env, pass)
    && Counts(report, Outcomes(env, before, pass, |pass.observed|))
  }

  function Extended(pass: Pass, e: Observed): Pass { pass.(observed := pass.observed + [e]) }

  lemma CountsStep(report: Report, outcomes: seq<Upsert>, outcome: Upsert)
    requires Counts(report, outcomes)
    ensures Counts(Noted(report, outcome), outcomes + [outcome])
  {
  }

  lemma RowsStep(env: Env, before: Rows, pass: Pass, e: Observed)
    ensures var n, longer := |pass.observed|, Extended(pass, e);
            var now := AfterUpserts(env, before, pass, n);
            && AfterUpserts(env, before, longer, n + 1)
               == now[e.key := UpsertedRow(env, RowAt(now, e.key), e, pass.source, pass.now)]
            && Outcomes(env, before, longer, n + 1)
               == Outcomes(env, before, pass, n) + [OutcomeOf(env, RowAt(now, e.key), e)]
  {
    PassGrows(env, before, pass, e, |pass.observed|);
    assert Extended(pass, e).observed[|pass.observed|] == e;
  }

  lemma SeenGrows(env: Env, pass: Pass, e: Observed)
    ensures SeenRefs(env, Extended(pass, e)) == SeenRefs(env, pass) + {RefOf(env, e.key)}
  {
  }

  lemma UpsertedStep(env: Env, before: Rows, now: Rows, pass: Pass, report: Report, seen: set<string>, e: Observed)
    requires Upserted(env, before, now, pass, report, seen)
    ensures Upserted(env, before, now[e.key := UpsertedRow(env, RowAt(now, e.key), e, pass.source, pass.now)],
                     Extended(pass, e),
                     Noted(report, OutcomeOf(env, RowAt(now, e.key), e)), seen + {RefOf(env, e.key)})
  {
    RowsStep(env, before, pass, e);
    SeenGrows(env, pass, e);
    CountsStep(report, Outcomes(env, before, pass, |pass.observed|), OutcomeOf(env, RowAt(now, e.key), e));
  }

  /** Handle a valid manifest: note as seen, upsert, count. */
  method ObserveValid(repo: CatalogRepo, e: Observed, report: Report, seen: set<string>, ghost before: Rows,
                      ghost pass: Pass, source: string, now: int)
    returns (report': Report, seen': set<string>, ghost pass': Pass)
    requires UniqueUids(repo.rows) && UidsBelow(repo.rows, e.uid) && repo.nextUid == e.uid + 1
    requires Upserted(repo.env, before, repo.rows, pass, report, seen) && pass.source == source && pass.now == now
    modifies repo`rows
    ensures repo.Valid() && Upserted(repo.env, before, repo.rows, pass', report', seen')
    ensures pass' == Extended(pass, e) && report'.removed == report.removed && report'.invalid == report.invalid
  {
    UpsertedStep(repo.env, before, repo.rows, pass, report, seen, e);
    seen' := seen + {RefOf(repo.env, e.key)};
    var outcome := repo.Upsert(e, source, now);
    report' := Noted(report, outcome);
    pass' := Extended(pass, e);
  }

  /** Handle one manifest: report it as invalid, or upsert and count it. */
  method ObserveManifest(repo: CatalogRepo, path: string, m: Manifest, report: Report, seen: set<string>,
                         ghost before: Rows, ghost base: nat,
                         ghost pass: Pass, source: string, now: int)
    returns (report': Report, seen': set<string>, ghost pass': Pass)
    requires repo.Valid() && Upserted(repo.env, before, repo.rows, pass, report, seen)
    requires pass.source == source && pass.now == now && repo.nextUid == base + |pass.observed|
    modifies repo
    ensures repo.Valid() && Upserted(repo.env, before, repo.rows, pass', report', seen')
    ensures pass' == pass.(observed := WithManifest(pass.observed, path, m, base))
            && repo.nextUid == base + |pass'.observed|
    ensures report'.removed == report.removed && report'.invalid == ManifestProblems(report.invalid, path, m)
  {
    report', seen', pass' := report, seen, pass;
    if m.known && m.errors != [] {
      report' := report.(invalid := report.invalid + [(path + "#" + m.key.name, m.errors)]);
    } else if !m.known && m.key.name == "" {
      report' := report.(invalid := report.invalid + [(path, ["metadata.name required"])]);
    } else {
      var uid := repo.NewUid();
      report', seen', pass' :=
          ObserveValid(repo, Observed(m.key, m.content, path, uid), report, seen, before, pass, source, now);
    }
  }

  method ObserveFile(repo: CatalogRepo, path: string, ms: seq<Manifest>, report: Report, seen: set<string>,
                     ghost before: Rows, ghost base: nat,
                     ghost pass: Pass, source: string, now: int)
    returns (report': Report, seen': set<string>, ghost pass': Pass)
    requires repo.Valid() && Upserted(repo.env, before, repo.rows, pass, report, seen)
    requires pass.source == source && pass.now == now && repo.nextUid == base + |pass.observed|
    modifies repo
    ensures repo.Valid() && Upserted(repo.env, before, repo.rows, pass', report', seen')
    ensures pass' == pass.(observed := WithManifests(pass.observed, path, ms, |ms|, base))
            && repo.nextUid == base + |pass'.observed|
    ensures report'.removed == report.removed && report'.invalid == FileProblems(report.invalid, path, ms, |ms|)
  {
    report', seen', pass' := report, seen, pass;
    for j := 0 to |ms|
      invariant repo.Valid() && Upserted(repo.env, before, repo.rows, pass', report', seen')
      invariant pass' == pass.(observed := WithManifests(pass.observed, path, ms, j, base))
                && repo.nextUid == base + |pass'.observed|
      invariant report'.removed == report.removed && report'.invalid == FileProblems(report.invalid, path, ms, j)
    {
      report', seen', pass' := ObserveManifest(repo, path, ms[j], report', seen', before, base, pass', source, now);
    }
  }

  /** The observation loops of a pass. */
  method UpsertAll(repo: CatalogRepo, source: string, raws: seq<Raw>, now: int)
    returns (report: Report, seen: set<string>)
    requires repo.Valid()
    modifies repo
    ensures repo.Valid()
    ensures Upserted(repo.env, old(repo.rows), repo.rows,
                     Pass(source, ObservedOf(raws, |raws|, old(repo.nextUid)), now), report, seen)
    ensures report.removed == 0 && report.invalid == InvalidOf(raws, |raws|)
  {
    ghost var before, base := repo.rows, repo.nextUid;
    ghost var pass := Pass(source, [], now);
    report, seen := Report(0, 0, 0, 0, []), {};
    for i := 0 to |raws|
      invariant repo.Valid() && Upserted(repo.env, before, repo.rows, pass, report, seen)
      invariant pass == Pass(source, ObservedOf(raws, i, base), now) && repo.nextUid == base + |pass.observed|
      invariant report.removed == 0 && report.invalid == InvalidOf(raws, i)
    {
      var raw := raws[i];
      match raw.manifests {
        case Err(e) => report := report.(invalid := report.invalid + [(raw.path, [e])]);
        case Ok(ms) => report, seen, pass :=
            ObserveFile(repo, raw.path, ms, report, seen, before, base, pass, source, now);
      }
    }
  }

  /** Rows after soft-deleting those with the given keys. */
  function Deleted(rows: Rows, keys: set<Key>, now: int): Rows {
    map key | key in rows :: if key in keys then rows[key].(deletedAt := Some(now), updatedAt := now) else rows[key]
  }

  lemma DeletedStep(rows: Rows, keys: set<Key>, key: Key, now: int)
    requires UniqueUids(rows) && key in rows && key !in keys
    ensures Deleted(rows, keys + {key}, now) == WithDeleted(Deleted(rows, keys, now), rows[key].uid, now)
  {
  }

  /** Of the first `n` listed rows, those whose reference was not seen. */
  function Unseen(env: Env, keys: seq<Key>, n: nat, seen: set<string>): set<Key>
    requires n <= |keys|
  {
    if n == 0 then {}
    else
      var earlier := Unseen(env, keys, n - 1, seen);
      if RefOf(env, keys[n - 1]) in seen then earlier else earlier + {keys[n - 1]}
  }

  lemma {:induction false} UnseenIs(env: Env, keys: seq<Key>, n: nat, seen: set<string>)
    requires n <= |keys|
    ensures forall key :: key in Unseen(env, keys, n, seen) <==> key in keys[..n] && RefOf(env, key) !in seen
  {
    if n > 0 {
      UnseenIs(env, keys, n - 1, seen);
      assert keys[..n] == keys[..n - 1] + [keys[n - 1]];
    }
  }

  lemma UnseenStep(env: Env, rows: Rows, keys: seq<Key>, i: nat, seen: set<string>, now: int)
    requires UniqueUids(rows) && i < |keys| && keys[i] in rows && forall j :: 0 <= j < i ==> keys[j] != keys[i]
    ensures var part, longer := Unseen(env, keys, i, seen), Unseen(env, keys, i + 1, seen);
            if RefOf(env, keys[i]) in seen then longer == part
            else
              && |longer| == |part| + 1
              && Deleted(rows, longer, now) == WithDeleted(Deleted(rows, part, now), rows[keys[i]].uid, now)
  {
    UnseenIs(env, keys, i, seen);
    DeletedStep(rows, Unseen(env, keys, i, seen), keys[i], now);
  }

  lemma RemovalsKeepUids(env: Env, rows: Rows, source: string, seen: set<string>, now: int, bound: nat)
    requires UniqueUids(rows) && UidsBelow(rows, bound)
    ensures var after := AfterRemovals(env, rows, source, seen, now); UniqueUids(after) && UidsBelow(after, bound)
  {
  }

  /** Deleting the unseen rows among all active ones of the source is the removal of the stale ones. */
  lemma UnseenAreStale(env: Env, rows: Rows, keys: seq<Key>, source: string, seen: set<string>, now: int)
    requires forall key :: key in keys <==> key in rows && IsActive(rows[key]) && rows[key].source == Some(source)
    ensures Unseen(env, keys, |keys|, seen) == StaleKeys(env, rows, source, seen)
    ensures Deleted(rows, Unseen(env, keys, |keys|, seen), now) == AfterRemovals(env, rows, source, seen, now)
  {
    UnseenIs(env, keys, |keys|, seen);
    assert keys[..|keys|] == keys;
  }

  /** The removal loop over the rows listed for the source. */
  method DeleteUnseen(repo: CatalogRepo, refs: seq<(nat, string)>, ghost keys: seq<Key>, seen: set<string>, now: int)
    returns (removed: nat)
    requires UniqueUids(repo.rows) && |keys| == |refs| && forall i, j :: 0 <= i < j < |keys| ==> keys[i] != keys[j]
    requires forall i :: 0 <= i < |keys| ==>
             keys[i] in repo.rows && refs[i] == (repo.rows[keys[i]].uid, RefOf(repo.env, keys[i]))
    modifies repo`rows
    ensures repo.rows == Deleted(old(repo.rows), Unseen(repo.env, keys, |keys|, seen), now)
    ensures removed == |Unseen(repo.env, keys, |keys|, seen)|
  {
    ghost var rows := repo.rows;
    removed := 0;
    for i := 0 to |refs|
      invariant repo.rows == Deleted(rows, Unseen(repo.env, keys, i, seen), now)
                && removed == |Unseen(repo.env, keys, i, seen)|
    {
      UnseenStep(repo.env, rows, keys, i, seen, now);
      if refs[i].1 !in seen {
        repo.SoftDelete(refs[i].0, now);
        removed := removed + 1;
      }
    }
  }

  /** Soft-delete every active row of the source whose reference was not seen. */
  method RemoveStale(repo: CatalogRepo, source: string, seen: set<string>, now: int) returns (removed: nat)
    requires repo.Valid()
    modifies repo`rows
    ensures repo.Valid()
    ensures repo.rows == AfterRemovals(repo.env, old(repo.rows), source, seen, now)
    ensures removed == |StaleKeys(repo.env, old(repo.rows), source, seen)|
  {
    var refs, keys := repo.ActiveRefsForSource(source);
    RemovalsKeepUids(repo.env, repo.rows, source, seen, now, repo.nextUid);
    UnseenAreStale(repo.env, repo.rows, keys, source, seen, now);
    removed := DeleteUnseen(repo, refs, keys, seen, now);
  }

  // ---- A whole pass, in the terms of the files and the rows ----

  /** How many observations of the pass have the meaning. */
  function HowMany(env: Env, rows: Rows, pass: Pass, which: Upsert): nat {
    multiset(Meanings(env, rows, pass, |pass.observed|))[which]
  }

  lemma {:induction false} CountIs(outcomes: seq<Upsert>, which: Upsert)
    ensures Count(outcomes, which) == multiset(outcomes)[which]
  {
    if outcomes != [] {
      var n := |outcomes| - 1;
      CountIs(outcomes[..n], which);
      assert outcomes == outcomes[..n] + [outcomes[n]];
    }
  }

  /** The report counts the observations that insert, change or leave their key, and the removed keys; it lists what is
      wrong with the files. */
  ghost predicate ReportsPass(env: Env, rows: Rows, pass: Pass, raws: seq<Raw>, report: Report) {
    && report.inserted == HowMany(env, rows, pass, Inserted)
    && report.updated == HowMany(env, rows, pass, Updated)
    && report.same == HowMany(env, rows, pass, Unchanged)
    && report.removed == |RemovedKeys(env, rows, pass)|
    && ListsAll(report.invalid, WrongAt(raws), |raws|)
  }

  lemma PassIsReported(env: Env, rows: Rows, pass: Pass, raws: seq<Raw>, report: Report)
    requires Counts(report, Outcomes(env, rows, pass, |pass.observed|)) && report.invalid == InvalidOf(raws, |raws|)
    requires report.removed == |StaleKeys(env, AfterUpserts(env, rows, pass, |pass.observed|), pass.source,
                                          SeenRefs(env, pass))|
    ensures ReportsPass(env, rows, pass, raws, report)
  {
    var outcomes := Outcomes(env, rows, pass, |pass.observed|);
    OutcomesAre(env, rows, pass, |pass.observed|);
    CountIs(outcomes, Inserted);
    CountIs(outcomes, Updated);
    CountIs(outcomes, Unchanged);
    StaleIsRemoved(env, rows, pass);
    var places := InvalidIs(raws, |raws|);
    assert ListsUpTo(report.invalid, places, WrongAt(raws), (|raws|, 0));
  }

  lemma PassIsDone(env: Env, rows: Rows, pass: Pass, raws: seq<Raw>, base: nat, report: Report)
    requires pass.observed == ObservedOf(raws, |raws|, base)
    requires Counts(report, Outcomes(env, rows, pass, |pass.observed|)) && report.invalid == InvalidOf(raws, |raws|)
    requires report.removed == |StaleKeys(env, AfterUpserts(env, rows, pass, |pass.observed|), pass.source,
                                          SeenRefs(env, pass))|
    ensures ListsAll(Finds(pass.observed), FoundAt(raws), |raws|) && UidsFrom(pass.observed, base)
    ensures forall key :: Reconciles(env, rows, pass, key, AfterPass(env, rows, pass))
    ensures ReportsPass(env, rows, pass, raws, report)
  {
    var places := ObservedIs(raws, |raws|, base);
    assert ListsUpTo(Finds(pass.observed), places, FoundAt(raws), (|raws|, 0));
    forall key ensures Reconciles(env, rows, pass, key, AfterPass(env, rows, pass)) {
      PassReconciles(env, rows, pass, key);
    }
    PassIsReported(env, rows, pass, raws, report);
  }

  /** One reconciliation pass over the fetched files. */
  method Reconcile(repo: CatalogRepo, source: string, raws: seq<Raw>, now: int) returns (report: Report)
    requires repo.Valid()
    modifies repo
    ensures repo.Valid()
    ensures var pass := Pass(source, ObservedOf(raws, |raws|, old(repo.nextUid)), now);
            && repo.rows == AfterPass(repo.env, old(repo.rows), pass)
            && Counts(report, Outcomes(repo.env, old(repo.rows), pass, |pass.observed|))
            && report.removed == |StaleKeys(repo.env, AfterUpserts(repo.env, old(repo.rows), pass, |pass.observed|),
                                            source, SeenRefs(repo.env, pass))|
            && report.invalid == InvalidOf(raws, |raws|)
    // The same in the terms of the files and the rows: what is observed, what it makes of every key, what is reported.
    ensures var pass := Pass(source, ObservedOf(raws, |raws|, old(repo.nextUid)), now);
            && ListsAll(Finds(pass.observed), FoundAt(raws), |raws|) && UidsFrom(pass.observed, old(repo.nextUid))
            && (forall key :: Reconciles(repo.env, old(repo.rows), pass, key, repo.rows))
            && ReportsPass(repo.env, old(repo.rows), pass, raws, report)
  {
    var seen;
    ghost var before, pass := repo.rows, Pass(source, ObservedOf(raws, |raws|, repo.nextUid), now);
    report, seen := UpsertAll(repo, source, raws, now);
    var removed := RemoveStale(repo, source, seen, now);
    report := report.(removed := removed);
    PassIsDone(repo.env, before, pass, raws, old(repo.nextUid), report);
  }

  // ---- The lifecycle belongs to the workflow layer ----

  /** What is stored at a key, but for the lifecycle. */
  function FreeAt(rows: Rows, key: Key): Option<View> {
    if key in rows then Some(ViewOf(rows[key]).(lifecycle := Active)) else None
  }

  lemma {:induction false} UpsertsIgnoreLifecycle(env: Env, rows: Rows, rows': Rows, pass: Pass, n: nat, key: Key)
    requires n <= |pass.observed| && FreeAt(rows, key) == FreeAt(rows', key)
    ensures FreeAt(AfterUpserts(env, rows, pass, n), key) == FreeAt(AfterUpserts(env, rows', pass, n), key)
  {
    if n > 0 {
      UpsertsIgnoreLifecycle(env, rows, rows', pass, n - 1, key);
    }
  }

  /** A lifecycle set between two passes is invisible to the second and survives it: the pass stores, updates and
      removes as it would have, and the lifecycle is the one that was set. */
  lemma LifecycleInvisible(env: Env, rows: Rows, pass: Pass, uid: nat, lifecycle: Lifecycle, now: int, key: Key)
    ensures var after := AfterPass(env, WithLifecycle(rows, uid, lifecycle, now), pass);
            && FreeAt(after, key) == FreeAt(AfterPass(env, rows, pass), key)
            && (key in rows ==> key in after)
            && (key in rows && rows[key].uid == uid ==> after[key].lifecycle == lifecycle)
            && (key in rows && rows[key].uid != uid ==> after[key].lifecycle == rows[key].lifecycle)
  {
    var rows' := WithLifecycle(rows, uid, lifecycle, now);
    UpsertsIgnoreLifecycle(env, rows, rows', pass, |pass.observed|, key);
    PassExact(env, rows', pass, key);
  }

  // ---- Two passes over the same files ----

  lemma {:induction false} SameManifests(a: seq<Observed>, b: seq<Observed>, path: string, ms: seq<Manifest>, n: nat,
                                         base: nat, base': nat)
    requires n <= |ms| && SameThings(a, b)
    ensures SameThings(WithManifests(a, path, ms, n, base), WithManifests(b, path, ms, n, base'))
  {
    if n > 0 {
      SameManifests(a, b, path, ms, n - 1, base, base');
    }
  }

  /** Fetching the same files again, at any time and with any fresh uids, is the same observation. */
  lemma {:induction false} SameFilesSameThings(raws: seq<Raw>, n: nat, base: nat, base': nat)
    requires n <= |raws|
    ensures SameThings(ObservedOf(raws, n, base), ObservedOf(raws, n, base'))
  {
    if n > 0 {
      SameFilesSameThings(raws, n - 1, base, base');
      if raws[n - 1].manifests.Ok? {
        var ms := raws[n - 1].manifests.value;
        SameManifests(ObservedOf(raws, n - 1, base), ObservedOf(raws, n - 1, base'), raws[n - 1].path, ms, |ms|, base,
                      base');
      }
    }
  }

  lemma {:induction false} CountAll(outcomes: seq<Upsert>)
    ensures Count(outcomes, Inserted) + Count(outcomes, Updated) + Count(outcomes, Unchanged) == |outcomes|
    ensures AllUnchanged(outcomes) <==> Count(outcomes, Inserted) == 0 && Count(outcomes, Updated) == 0
  {
    if outcomes != [] {
      var n := |outcomes| - 1;
      CountAll(outcomes[..n]);
      assert AllUnchanged(outcomes) <==> AllUnchanged(outcomes[..n]) && outcomes[n] == Unchanged;
    }
  }

  /** The report of a second pass over the same files counts no insertion and no update if and only if no key occurs in
      the files with two different contents, and never a removal. */
  lemma SecondReport(env: Env, rows: Rows, source: string, raws: seq<Raw>, base: nat, now: int, base': nat, later: int,
                     second: Report)
    requires var pass, again :=
             Pass(source, ObservedOf(raws, |raws|, base), now), Pass(source, ObservedOf(raws, |raws|, base'), later);
             var once := AfterPass(env, rows, pass);
             Counts(second, Outcomes(env, once, again, |again.observed|))
             && second.removed == |StaleKeys(env, AfterUpserts(env, once, again, |again.observed|), source,
                                             SeenRefs(env, again))|
    ensures var pass := Pass(source, ObservedOf(raws, |raws|, base), now);
            (second.inserted == 0 && second.updated == 0 <==> Consistent(env, pass)) && second.removed == 0
  {
    var pass, again := Pass(source, ObservedOf(raws, |raws|, base), now),
        Pass(source, ObservedOf(raws, |raws|, base'), later);
    SameFilesSameThings(raws, |raws|, base, base');
    RepeatIsQuiet(env, rows, pass, again);
    CountAll(Outcomes(env, AfterPass(env, rows, pass), again, |again.observed|));
  }
}
