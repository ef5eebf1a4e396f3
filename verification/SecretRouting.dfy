/** Routing sensitive connector outputs into the secret store: the record keeps references only. */
module SecretRouting {
  import opened Prelude

  /** A JSON output value: a string, or anything else by its text. */
  datatype Value = Str(s: string) | NonString(text: string)

  /** Connector outputs are normally an object; anything else has no keys to route. */
  datatype Outputs = Object(fields: map<string, Value>) | NonObject(text: string)

  datatype SecretRef = SecretRef(path: string, version: nat)

  /** What the resource record stores for a field. */
  datatype Field = Plain(value: Value) | Secret(ref: SecretRef)

  datatype Recorded = RecordedObject(fields: map<string, Field>) | RecordedNonObject(text: string)

  /** The string a value is stored under: a string itself, any other value in text form. */
  function StringForm(v: Value): string { if v.Str? then v.s else v.text }

  function SecretPath(project: string, resource: string, key: string): string { project + "/" + (resource + "-" + key) }

  /** A versioned store: a path keeps every value written to it. */
  type Versions = map<string, seq<string>>

  function History(store: Versions, path: string): seq<string> { if path in store then store[path] else [] }

  function VersionCount(store: Versions, path: string): nat { |History(store, path)| }

  function Written(store: Versions, path: string, value: string): Versions {
    store[path := History(store, path) + [value]]
  }

  predicate Resolves(store: Versions, ref: SecretRef, value: string) {
    ref.path in store && 0 < ref.version <= |store[ref.path]| && store[ref.path][ref.version - 1] == value
  }

  /** What a read of a path returns: the newest version, whatever version the reference names. */
  function Latest(store: Versions, path: string): Option<string> {
    if History(store, path) == [] then None else Some(History(store, path)[|History(store, path)| - 1])
  }

  class SecretStore {
    var versions: Versions

    constructor ()
      ensures versions == map[]
    {
      versions := map[];
    }

    /** Writes a new version under a stable path. */
    method Put(path: string, value: string) returns (ref: SecretRef)
      modifies this
      ensures versions == old(versions)[path := (if path in old(versions) then old(versions)[path] else []) + [value]]
      ensures ref == SecretRef(path, VersionCount(old(versions), path) + 1) && Resolves(versions, ref, value)
    {
      versions := Written(versions, path, value);
      ref := SecretRef(path, |versions[path]|);
    }

    /** Reads the newest version; a path never written is an error. */
    method Get(ref: SecretRef) returns (value: Option<string>)
      ensures value == if ref.path in versions && versions[ref.path] != []
                       then Some(versions[ref.path][|versions[ref.path]| - 1]) else None
      ensures forall stored :: Resolves(versions, ref, stored) && ref.version == VersionCount(versions, ref.path) ==>
              value == Some(stored)
    {
      if ref.path !in versions || versions[ref.path] == [] { return None; }
      value := Some(versions[ref.path][|versions[ref.path]| - 1]);
    }
  }

  /** What the record may hold, given which keys are secret and how many versions each path had: it never mentions
      the value of a secret key. */
  function RecordedFields(fields: map<string, Value>, secret: set<string>, project: string, resource: string,
                          before: Versions): map<string, Field> {
    map key | key in fields ::
      if key in secret
      then Secret(SecretRef(SecretPath(project, resource, key),
                            VersionCount(before, SecretPath(project, resource, key)) + 1))
      else Plain(fields[key])
  }

  lemma PathsDiffer(project: string, resource: string, a: string, b: string)
    requires a != b
    ensures SecretPath(project, resource, a) != SecretPath(project, resource, b)
  {
    var prefix := project + "/" + (resource + "-");
    assert SecretPath(project, resource, a) == prefix + a && SecretPath(project, resource, b) == prefix + b;
    assert (prefix + a)[|prefix|..] == a && (prefix + b)[|prefix|..] == b;
  }

  /** Exactly one version was added for every routed field, holding its original value, and nothing else changed. */
  ghost predicate StoreHolds(before: Versions, after: Versions, fields: map<string, Value>, routed: set<string>,
                             project: string, resource: string) {
    && (forall key :: key in routed && key in fields ==>
          var path := SecretPath(project, resource, key);
          path in after && after[path] == History(before, path) + [StringForm(fields[key])])
    && (forall path :: path !in RoutedPaths(fields, routed, project, resource) ==>
        History(after, path) == History(before, path))
  }

  function RoutedPaths(fields: map<string, Value>, routed: set<string>, project: string,
                       resource: string): set<string> {
    set key | key in routed && key in fields :: SecretPath(project, resource, key)
  }

  lemma StoreHoldsStep(before: Versions, now: Versions, fields: map<string, Value>, routed: set<string>,
                       project: string, resource: string, key: string)
    requires StoreHolds(before, now, fields, routed, project, resource) && key !in routed
    ensures key in fields ==>
              var path := SecretPath(project, resource, key);
              VersionCount(now, path) == VersionCount(before, path)
              && StoreHolds(before, Written(now, path, StringForm(fields[key])), fields, routed + {key}, project,
                            resource)
    ensures key !in fields ==> StoreHolds(before, now, fields, routed + {key}, project, resource)
  {
    var paths, more := RoutedPaths(fields, routed, project, resource),
        RoutedPaths(fields, routed + {key}, project, resource);
    if key in fields {
      var path := SecretPath(project, resource, key);
      forall other | other in routed ensures path != SecretPath(project, resource, other) {
        PathsDiffer(project, resource, key, other);
      }
      assert more == paths + {path};
    } else {
      assert more == paths;
    }
  }

  lemma RecordedFieldsStep(fields: map<string, Value>, routed: set<string>, project: string, resource: string,
                           before: Versions, key: string)
    ensures var was, path :=
            RecordedFields(fields, routed, project, resource, before), SecretPath(project, resource, key);
            RecordedFields(fields, routed + {key}, project, resource, before)
            == if key in fields then was[key := Secret(SecretRef(path, VersionCount(before, path) + 1))] else was
  {
  }

  /** The store refuses one of the writes. */
  predicate Refused(fields: map<string, Value>, secret: set<string>, accepts: string -> bool) {
    exists key :: key in secret && key in fields && !accepts(key)
  }

  // ---- Routing in the terms of the outputs and the store ----

  /** The path the store keeps a field under. */
  predicate IsPathOf(path: string, project: string, resource: string, key: string) {
    path == project + "/" + resource + "-" + key
  }

  /** The field is recorded as a reference to a new version under its path, which holds the string itself, or the text
      of any other value. */
  ghost predicate IsRouted(value: Value, field: Field, project: string, resource: string, key: string,
                           before: Versions, after: Versions) {
    && field.Secret? && IsPathOf(field.ref.path, project, resource, key) && field.ref.path in after
    && var earlier := if field.ref.path in before then before[field.ref.path] else [];
      && field.ref.version == |earlier| + 1
      && after[field.ref.path] == earlier + [match value { case Str(s) => s case NonString(text) => text }]
  }

  /** All routed fields are; every other field is recorded as it is; every other path of the store is as it was. */
  ghost predicate RoutesAll(fields: map<string, Value>, secret: set<string>, recorded: map<string, Field>,
                            project: string, resource: string, before: Versions, after: Versions) {
    && recorded.Keys == fields.Keys
    && (forall key :: key in fields ==>
          if key in secret then IsRouted(fields[key], recorded[key], project, resource, key, before, after)
          else recorded[key] == Plain(fields[key]))
    && (forall path :: (forall key :: key in secret && key in fields ==> !IsPathOf(path, project, resource, key)) ==>
          (if path in after then after[path] else []) == (if path in before then before[path] else []))
  }

  lemma PathIs(project: string, resource: string, key: string)
    ensures IsPathOf(SecretPath(project, resource, key), project, resource, key)
  {
    assert project + "/" + (resource + "-" + key) == project + "/" + resource + "-" + key;
  }

  lemma HeldIsRouted(fields: map<string, Value>, secret: set<string>, project: string, resource: string,
                     before: Versions, after: Versions)
    requires StoreHolds(before, after, fields, secret, project, resource)
    ensures RoutesAll(fields, secret, RecordedFields(fields, secret, project, resource, before), project, resource,
                      before, after)
  {
    forall key { PathIs(project, resource, key); }
    forall path | forall key :: key in secret && key in fields ==> !IsPathOf(path, project, resource, key)
      ensures (if path in after then after[path] else []) == (if path in before then before[path] else [])
    {
      forall key | key in secret && key in fields ensures path != SecretPath(project, resource, key) {
        PathIs(project, resource, key);
      }
      assert path !in RoutedPaths(fields, secret, project, resource);
      assert History(after, path) == History(before, path);
    }
  }

  /** The declared and the connector-flagged keys of an object are replaced by references to fresh versions that
      resolve to the original values; all other fields, and all other paths of the store, are unchanged. `accepts`
      tells whether the store takes a write; a refused write aborts, nothing is recorded, and what was written before
      stays. */
  method RouteSecrets(store: SecretStore, project: string, resource: string, declared: set<string>,
                      sensitive: set<string>,
                      outputs: Outputs, accepts: string -> bool) returns (recorded: Result<Recorded, string>)
    modifies store
    ensures outputs.NonObject? ==>
            recorded == Ok(RecordedNonObject(outputs.text)) && store.versions == old(store.versions)
    ensures recorded.Err? <==> outputs.Object? && Refused(outputs.fields, declared + sensitive, accepts)
    ensures recorded.Err? ==> outputs.Object? && exists routed ::
              routed <= declared + sensitive && (forall key :: key in routed && key in outputs.fields ==> accepts(key))
              && StoreHolds(old(store.versions), store.versions, outputs.fields, routed, project, resource)
    ensures recorded.Ok? && outputs.Object? ==>
              recorded.value == RecordedObject(RecordedFields(outputs.fields, declared + sensitive, project, resource,
                  old(store.versions)))
              && StoreHolds(old(store.versions), store.versions, outputs.fields, declared + sensitive, project,
                            resource)
    ensures recorded.Ok? && outputs.Object? ==>
              recorded.value.RecordedObject?
              && RoutesAll(outputs.fields, declared + sensitive, recorded.value.fields, project, resource,
                           old(store.versions), store.versions)
  {
    var keys := declared + sensitive;
    if outputs.NonObject? { return Ok(RecordedNonObject(outputs.text)); }
    var fields := map key | key in outputs.fields :: Plain(outputs.fields[key]);
    ghost var before := store.versions;
    assert fields == RecordedFields(outputs.fields, {}, project, resource, before);
    ghost var routed: set<string> := {};
    var todo := keys;
    while todo != {}
      invariant todo !! routed && todo + routed == keys
      invariant fields == RecordedFields(outputs.fields, routed, project, resource, before)
      invariant forall key :: key in routed && key in outputs.fields ==> accepts(key)
      invariant StoreHolds(before, store.versions, outputs.fields, routed, project, resource)
    {
      var key :| key in todo;
      todo := todo - {key};
      StoreHoldsStep(before, store.versions, outputs.fields, routed, project, resource, key);
      RecordedFieldsStep(outputs.fields, routed, project, resource, before, key);
      if key in outputs.fields {
        if !accepts(key) { return Err("secret store refused the write"); }
        var ref := store.Put(SecretPath(project, resource, key), StringForm(outputs.fields[key]));
        fields := fields[key := Secret(ref)];
      }
      routed := routed + {key};
    }
    assert routed == keys;
    HeldIsRouted(outputs.fields, keys, project, resource, before, store.versions);
    return Ok(RecordedObject(fields));
  }

  /** Every reference a routed object records resolves to the original string form of its field, and a read of its path
      right after the routing returns that form. */
  lemma RecordedReferencesResolve(before: Versions, after: Versions, fields: map<string, Value>, secret: set<string>,
                                  project: string, resource: string, key: string)
    requires StoreHolds(before, after, fields, secret, project, resource) && key in secret && key in fields
    ensures var recorded := RecordedFields(fields, secret, project, resource, before)[key];
            recorded.Secret? && Resolves(after, recorded.ref, StringForm(fields[key]))
            && Latest(after, recorded.ref.path) == Some(StringForm(fields[key]))
  {
  }

  /** One resource name is the other with a dash and more, and the key of the first starts with that more and a dash. */
  ghost predicate Overlap(resource: string, key: string, resource': string, key': string) {
    exists middle :: resource' == resource + "-" + middle && key == middle + "-" + key'
  }

  lemma OverlapCollides(project: string, resource: string, key: string, resource': string, key': string)
    requires Overlap(resource, key, resource', key')
    ensures SecretPath(project, resource, key) == SecretPath(project, resource', key')
  {
    var middle :| resource' == resource + "-" + middle && key == middle + "-" + key';
    assert resource + "-" + (middle + "-" + key') == resource + "-" + middle + "-" + key';
  }

  lemma CollisionOverlaps(project: string, resource: string, key: string, resource': string, key': string)
    requires SecretPath(project, resource, key) == SecretPath(project, resource', key') && |resource| < |resource'|
    ensures Overlap(resource, key, resource', key')
  {
    var a, b, p := resource + "-" + key, resource' + "-" + key', project + "/";
    assert (p + a)[|p|..] == a && (p + b)[|p|..] == b;
    var middle := resource'[|resource| + 1..];
    assert a[..|resource|] == resource && b[..|resource'|] == resource' && a[|resource|] == '-';
    assert resource' == resource + "-" + middle;
    assert key == a[|resource| + 1..] && a[|resource| + 1..] == middle + "-" + key';
  }

  /** When do two fields of a project share a path? If they are one field of one resource, or the dash in a resource
      name is taken for the dash before a key: "a" and "b-c", "a-b" and "c". */
  lemma PathsCollideIff(project: string, resource: string, key: string, resource': string, key': string)
    ensures SecretPath(project, resource, key) == SecretPath(project, resource', key')
            <==> (resource == resource' && key == key')
                 || Overlap(resource, key, resource', key') || Overlap(resource', key', resource, key)
  {
    if Overlap(resource, key, resource', key') { OverlapCollides(project, resource, key, resource', key'); }
    if Overlap(resource', key', resource, key) { OverlapCollides(project, resource', key', resource, key); }
    if SecretPath(project, resource, key) == SecretPath(project, resource', key') {
      if |resource| < |resource'| {
        CollisionOverlaps(project, resource, key, resource', key');
      } else if |resource'| < |resource| {
        CollisionOverlaps(project, resource', key', resource, key);
      } else {
        SameLengthSplits(project, resource, key, resource', key');
      }
    }
  }

  lemma SameLengthSplits(project: string, resource: string, key: string, resource': string, key': string)
    requires SecretPath(project, resource, key) == SecretPath(project, resource', key') && |resource| == |resource'|
    ensures resource == resource' && key == key'
  {
    var a, b, p := resource + "-" + key, resource' + "-" + key', project + "/";
    assert (p + a)[|p|..] == a && (p + b)[|p|..] == b;
    assert resource == a[..|resource|] && resource' == b[..|resource'|];
    assert key == a[|resource| + 1..] && key' == b[|resource'| + 1..];
  }

  /** The first slash of a path stands after the project, if its name has none. */
  lemma FirstSlash(project: string, resource: string, key: string)
    requires '/' !in project
    ensures var path := SecretPath(project, resource, key);
            |project| < |path| && path[|project|] == '/' && path[..|project|] == project
            && forall i :: 0 <= i < |project| ==> path[i] != '/'
  {
  }

  /** Projects whose names have no slash never share a path. */
  lemma ProjectsApart(project: string, resource: string, key: string, project': string, resource': string, key': string)
    requires '/' !in project && '/' !in project'
    ensures SecretPath(project, resource, key) == SecretPath(project', resource', key') ==> project == project'
  {
    FirstSlash(project, resource, key);
    FirstSlash(project', resource', key');
  }

  /** The outputs of a resource routed later leave a secret readable under its path exactly when they do not collide
      with it, or happen to hold the same value. */
  lemma LaterRoutingShadows(before: Versions, mid: Versions, after: Versions, project: string,
                            fields: map<string, Value>, secret: set<string>, resource: string, key: string,
                            fields': map<string, Value>, secret': set<string>, resource': string)
    requires StoreHolds(before, mid, fields, secret, project, resource) && key in secret && key in fields
    requires StoreHolds(mid, after, fields', secret', project, resource')
    ensures Latest(after, SecretPath(project, resource, key)) == Some(StringForm(fields[key])) <==>
              forall key' :: key' in secret' && key' in fields'
                  && SecretPath(project, resource', key') == SecretPath(project, resource, key)
                ==> StringForm(fields'[key']) == StringForm(fields[key])
  {
    var path := SecretPath(project, resource, key);
    if path in RoutedPaths(fields', secret', project, resource') {
      var key' :| key' in secret' && key' in fields' && SecretPath(project, resource', key') == path;
      assert Latest(after, path) == Some(StringForm(fields'[key']));
    } else {
      assert History(after, path) == History(mid, path);
    }
  }

  /** Non-interference: outputs that differ only in the values of secret keys are recorded identically. */
  lemma RecordIndependentOfSecrets(a: map<string, Value>, b: map<string, Value>, secret: set<string>, project: string,
                                   resource: string, before: Versions)
    requires a.Keys == b.Keys && forall key :: key in a && key !in secret ==> a[key] == b[key]
    ensures RecordedFields(a, secret, project, resource, before) == RecordedFields(b, secret, project, resource, before)
  {
  }
}
