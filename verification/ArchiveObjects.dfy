/** Writing and reading archive objects through an unreliable create-if-absent store (src/adapters/opendal_store.rs). */
module ArchiveObjects {
  import opened Common
  import opened Text
  import opened Records
  import opened Tiling
  import opened MemoryArchive
  import opened ArchiveKeys

  datatype ObjectError =
    | NotInBucket | Unsorted | Unserializable | Unavailable | Missing | DifferentContent
    | BadPayload | BadManifest | BadKey

  // ----- record validation -----

  /** Each record against its successor, as the adapter compares them. */
  ghost predicate NeighboursOrdered(rs: seq<Record>) {
    forall i {:trigger rs[i]} :: 0 <= i < |rs| - 1 ==> AtMost(CursorOf(rs[i]), CursorOf(rs[i + 1]))
  }

  function ValidateRecords(b: BucketId, rs: seq<Record>): Option<ObjectError> {
    if exists i :: 0 <= i < |rs| && !BelongsTo(b, rs[i]) then Some(NotInBucket)
    else if exists i {:trigger rs[i]} :: 0 <= i < |rs| - 1 && Precedes(CursorOf(rs[i + 1]), CursorOf(rs[i])) then Some(Unsorted)
    else None
  }

  lemma {:induction false} NeighboursSuffice(rs: seq<Record>, i: nat, j: nat)
    requires NeighboursOrdered(rs) && i < j < |rs|
    ensures AtMost(CursorOf(rs[i]), CursorOf(rs[j]))
    decreases j - i
  {
    assert AtMost(CursorOf(rs[j - 1]), CursorOf(rs[j - 1 + 1]));
    if i + 1 < j {
      NeighboursSuffice(rs, i, j - 1);
      AtMostTransitive(CursorOf(rs[i]), CursorOf(rs[j - 1]), CursorOf(rs[j]));
    }
  }

  /** Comparing neighbours accepts exactly the sorted snapshots of the bucket. */
  lemma ValidIffSortedAndOwned(b: BucketId, rs: seq<Record>)
    ensures ValidateRecords(b, rs).None? <==> AllBelong(b, rs) && Sorted(rs)
  {
    if ValidateRecords(b, rs).None? {
      assert NeighboursOrdered(rs);
      forall i: nat, j: nat | i < j < |rs| ensures AtMost(CursorOf(rs[i]), CursorOf(rs[j])) { NeighboursSuffice(rs, i, j); }
    }
  }

  // ----- manifest checks -----

  predicate ManifestSupported(m: Manifest) {
    && m.version == ARCHIVE_MANIFEST_VERSION && m.schemaVersion == RECORD_SCHEMA_VERSION
    && m.payloadKey != "" && m.clusteringKey == CLUSTERING_KEY
  }

  predicate PayloadMatches(lib: Library, m: Manifest, payload: Bytes) {
    |payload| == m.payloadBytes && Sha256(lib, payload) == m.sha256
  }

  predicate IsHexDigit(c: char) {
    '0' <= c <= '9' || 'a' <= c <= 'f' || 'A' <= c <= 'F'
  }

  /** The checksum in a manifest key; other keys carry none, and a malformed one is refused. */
  function ManifestDigest(key: string): Result<Option<string>, ObjectError> {
    var name := AfterLast(key, '/');
    if |name| < 14 || name[..9] != "manifest-" || name[|name| - 5..] != ".json" then Ok(None)
    else
      var digest := name[9..|name| - 5];
      if |digest| != 64 || exists i :: 0 <= i < |digest| && !IsHexDigit(digest[i]) then Err(BadKey) else Ok(Some(digest))
  }

  lemma DigestOfKey(at: Target, b: BucketId, g: Option<nat>, body: Bytes)
    requires RoundTrips(at.lib)
    ensures ManifestDigest(ManifestKey(at, b, g, Sha256(at.lib, body))) == Ok(Some(Sha256(at.lib, body)))
  {
    var sha := Sha256(at.lib, body);
    AfterLastOf(ObjectDirectory(at, b, g), ManifestName(sha), '/');
    forall i | 0 <= i < |sha| ensures IsHexDigit(sha[i]) { assert sha[i] in sha; }
    assert ManifestName(sha)[..9] == "manifest-";
    assert ManifestName(sha)[9..|ManifestName(sha)| - 5] == sha;
    assert ManifestName(sha)[|ManifestName(sha)| - 5..] == ".json";
  }

  // ----- writing -----

  /** One conditional create followed by a read-back, as the network and other writers play it. */
  datatype Weather = Weather(
    before: map<string, Bytes>,      // created by others first
    lost: bool,                      // the reply to the create was an error or a timeout
    applied: bool,                   // a lost create took effect
    between: map<string, Bytes>,     // created by others before the read-back
    readable: bool)                  // the read-back got through

  predicate Grows(objects: map<string, Bytes>, objects': map<string, Bytes>) {
    forall k :: k in objects ==> k in objects' && objects'[k] == objects[k]
  }

  /** What the objects are after one verified create, whatever it reports. */
  function Settled(objects: map<string, Bytes>, key: string, body: Bytes, w: Weather): map<string, Bytes> {
    var first := w.before + objects;
    var mine := if key !in first && (!w.lost || w.applied) then first[key := body] else first;
    w.between + mine
  }

  predicate PayloadVerified(p: Plan, w: Weather, objects: map<string, Bytes>) {
    var stored := Settled(objects, p.payloadKey, p.payload, w);
    w.readable && p.payloadKey in stored && stored[p.payloadKey] == p.payload
  }

  /** The objects after a write of this plan, whatever it reports: the manifest goes up only behind a verified payload. */
  function AfterWrite(p: Plan, accepted: bool, w: Weather, w': Weather, objects: map<string, Bytes>): map<string, Bytes> {
    var stored := Settled(objects, p.payloadKey, p.payload, w);
    if PayloadVerified(p, w, objects) && accepted then Settled(stored, p.manifestKey, p.body, w') else stored
  }

  predicate WriteSucceeds(p: Plan, accepted: bool, w: Weather, w': Weather, objects: map<string, Bytes>) {
    var stored := AfterWrite(p, accepted, w, w', objects);
    && PayloadVerified(p, w, objects) && accepted
    && w'.readable && p.manifestKey in stored && stored[p.manifestKey] == p.body
  }

  /** The read-back payload passes the manifest's checks. */
  predicate PayloadAccepted(at: Target, p: Plan) {
    && PayloadMatches(at.lib, p.manifest, p.payload)
    && var decoded := at.lib.deserialize(at.format, p.payload);
    && decoded.Some? && |decoded.value| == p.manifest.recordCount
  }

  /** The read-back manifest is supported and is the one that was meant. */
  predicate ManifestAccepted(at: Target, p: Plan) {
    at.lib.parseManifest(p.body) == Some(p.manifest) && ManifestSupported(p.manifest)
  }

  lemma PlansAreAccepted(at: Target, b: BucketId, g: Option<nat>, rs: seq<Record>)
    requires RoundTrips(at.lib) && Planned(at, b, g, rs).Some?
    ensures PayloadAccepted(at, Planned(at, b, g, rs).value) && ManifestAccepted(at, Planned(at, b, g, rs).value)
    ensures Planned(at, b, g, rs).value.payloadKey != Planned(at, b, g, rs).value.manifestKey
  {
    var p := Planned(at, b, g, rs).value;
    assert at.lib.parseManifest(p.body) == Some(p.manifest);
    var d := ObjectDirectory(at, b, g);
    assert p.payloadKey[|d| + 1] == 'r' && p.manifestKey[|d| + 1] == 'm';
  }

  class ObjectStore {
    var objects: map<string, Bytes>

    /** Every writer creates only what is absent. */
    method Others(created: map<string, Bytes>)
      modifies this
      ensures objects == created + old(objects)
    {
      objects := created + objects;
    }

    method CreateIfAbsent(key: string, body: Bytes)
      modifies this
      ensures objects == if key in old(objects) then old(objects) else old(objects)[key := body]
    {
      if key !in objects {
        objects := objects[key := body];
      }
    }

    method CreateObjectVerified(key: string, expected: Bytes, w: Weather) returns (r: Result<Bytes, ObjectError>)
      modifies this
      ensures objects == Settled(old(objects), key, expected, w)
      ensures r.Ok? <==> w.readable && key in objects && objects[key] == expected
      ensures r.Ok? ==> r.value == expected
      ensures r == Err(DifferentContent) <==> w.readable && key in objects && objects[key] != expected
    {
      Others(w.before);
      if !w.lost || w.applied {
        CreateIfAbsent(key, expected);
      }
      Others(w.between);
      if !w.readable {
        return Err(Unavailable);
      }
      if key !in objects {
        return Err(if w.lost then Unavailable else Missing);
      }
      r := if objects[key] == expected then Ok(expected) else Err(DifferentContent);
    }

    method WriteRecords(at: Target, b: BucketId, generation: Option<nat>, records: seq<Record>, w: Weather, w': Weather)
      returns (r: Result<string, ObjectError>)
      modifies this
      ensures ValidateRecords(b, records).Some? || Planned(at, b, generation, records).None? ==> r.Err? && objects == old(objects)
      ensures ValidateRecords(b, records).None? && Planned(at, b, generation, records).Some? ==>
                var p := Planned(at, b, generation, records).value;
                && objects == AfterWrite(p, PayloadAccepted(at, p), w, w', old(objects))
                && (r.Ok? <==> WriteSucceeds(p, PayloadAccepted(at, p), w, w', old(objects)) && ManifestAccepted(at, p))
                && (r.Ok? ==> r.value == p.manifestKey)
    {
      var invalid := ValidateRecords(b, records);
      if invalid.Some? {
        return Err(invalid.value);
      }
      var serialized := at.lib.serialize(at.format, records);
      if serialized.None? {
        return Err(Unserializable);
      }
      var plan := PlanOf(at, b, generation, records, serialized.value);

      var uploaded := CreateObjectVerified(plan.payloadKey, plan.payload, w);
      if uploaded.Err? {
        return Err(uploaded.error);
      }
      if !PayloadAccepted(at, plan) {
        return Err(BadPayload);
      }

      var uploadedManifest := CreateObjectVerified(plan.manifestKey, plan.body, w');
      if uploadedManifest.Err? {
        return Err(uploadedManifest.error);
      }
      if !ManifestAccepted(at, plan) {
        return Err(BadManifest);
      }
      r := Ok(plan.manifestKey);
    }
  }

  predicate Holds(objects: map<string, Bytes>, p: Plan) {
    && p.payloadKey in objects && objects[p.payloadKey] == p.payload
    && p.manifestKey in objects && objects[p.manifestKey] == p.body
  }

  /** A writer that can place these objects: nobody put anything else under their keys. */
  predicate Agrees(objects: map<string, Bytes>, p: Plan) {
    && (p.payloadKey in objects ==> objects[p.payloadKey] == p.payload)
    && (p.manifestKey in objects ==> objects[p.manifestKey] == p.body)
  }

  predicate CalmFor(w: Weather, p: Plan) {
    !w.lost && w.readable && Agrees(w.before, p) && Agrees(w.between, p)
  }

  predicate Undisturbed(w: Weather) {
    w.before == map[] && w.between == map[]
  }

  lemma SettledGrows(objects: map<string, Bytes>, key: string, body: Bytes, w: Weather)
    ensures Grows(objects, Settled(objects, key, body, w))
    ensures Undisturbed(w) && key in objects ==> Settled(objects, key, body, w) == objects
  {
  }

  /** Under any weather existing objects never change, and success leaves both objects stored. */
  lemma WriteIsAdditive(p: Plan, accepted: bool, w: Weather, w': Weather, objects: map<string, Bytes>)
    ensures Grows(objects, AfterWrite(p, accepted, w, w', objects))
    ensures WriteSucceeds(p, accepted, w, w', objects) ==> Holds(AfterWrite(p, accepted, w, w', objects), p)
  {
    var stored := Settled(objects, p.payloadKey, p.payload, w);
    SettledGrows(objects, p.payloadKey, p.payload, w);
    SettledGrows(stored, p.manifestKey, p.body, w');
  }

  /** Repeating a stored write, with no one else writing, changes nothing. */
  lemma RepeatChangesNothing(p: Plan, accepted: bool, w: Weather, w': Weather, objects: map<string, Bytes>)
    requires Holds(objects, p) && Undisturbed(w) && Undisturbed(w')
    ensures AfterWrite(p, accepted, w, w', objects) == objects
  {
    SettledGrows(objects, p.payloadKey, p.payload, w);
    SettledGrows(objects, p.manifestKey, p.body, w');
  }

  lemma CalmSettles(objects: map<string, Bytes>, p: Plan, key: string, body: Bytes, w: Weather)
    requires Agrees(objects, p) && CalmFor(w, p) && p.payloadKey != p.manifestKey
    requires (key, body) == (p.payloadKey, p.payload) || (key, body) == (p.manifestKey, p.body)
    ensures var stored := Settled(objects, key, body, w); Agrees(stored, p) && key in stored && stored[key] == body
  {
  }

  /** However often the write was lost before or raced by writers of the same content, in calm weather it succeeds. */
  lemma CalmWriteSucceeds(at: Target, b: BucketId, g: Option<nat>, rs: seq<Record>, w: Weather, w': Weather, objects: map<string, Bytes>)
    requires RoundTrips(at.lib) && Planned(at, b, g, rs).Some?
    requires var p := Planned(at, b, g, rs).value; Agrees(objects, p) && CalmFor(w, p) && CalmFor(w', p)
    ensures var p := Planned(at, b, g, rs).value;
            WriteSucceeds(p, PayloadAccepted(at, p), w, w', objects) && ManifestAccepted(at, p)
  {
    var p := Planned(at, b, g, rs).value;
    PlansAreAccepted(at, b, g, rs);
    CalmPlanSucceeds(p, w, w', objects);
  }

  lemma CalmPlanSucceeds(p: Plan, w: Weather, w': Weather, objects: map<string, Bytes>)
    requires p.payloadKey != p.manifestKey && Agrees(objects, p) && CalmFor(w, p) && CalmFor(w', p)
    ensures WriteSucceeds(p, true, w, w', objects)
  {
    CalmSettles(objects, p, p.payloadKey, p.payload, w);
    CalmSettles(Settled(objects, p.payloadKey, p.payload, w), p, p.manifestKey, p.body, w');
  }

  // ----- every writer of the store names objects after their content -----

  predicate NamedAfter(lib: Library, key: string, body: Bytes) {
    var name := AfterLast(key, '/');
    || (|name| >= 73 && name[..9] == "manifest-" && name[9..73] == Sha256(lib, body))
    || (|name| >= 72 && name[..8] == "records-" && name[8..72] == Sha256(lib, body))
  }

  predicate Addressed(lib: Library, objects: map<string, Bytes>) {
    forall k :: k in objects ==> NamedAfter(lib, k, objects[k])
  }

  lemma PlanIsNamed(at: Target, b: BucketId, g: Option<nat>, rs: seq<Record>)
    requires RoundTrips(at.lib) && Planned(at, b, g, rs).Some?
    ensures var p := Planned(at, b, g, rs).value;
            NamedAfter(at.lib, p.manifestKey, p.body) && NamedAfter(at.lib, p.payloadKey, p.payload)
  {
    var p := Planned(at, b, g, rs).value;
    ManifestSegment(ObjectDirectory(at, b, g), Sha256(at.lib, p.body));
    RecordsSegment(ObjectDirectory(at, b, g), Sha256(at.lib, p.payload), at.format);
  }

  lemma ManifestSegment(path: string, sha: string)
    requires '/' !in sha && |sha| == 64
    ensures var n := AfterLast(Segment(path, ManifestName(sha)), '/'); |n| >= 73 && n[..9] == "manifest-" && n[9..73] == sha
  {
    AfterLastOf(path, ManifestName(sha), '/');
  }

  lemma RecordsSegment(path: string, sha: string, f: Format)
    requires '/' !in sha && |sha| == 64
    ensures var n := AfterLast(Segment(path, RecordsName(sha, f)), '/'); |n| >= 72 && n[..8] == "records-" && n[8..72] == sha
  {
    AfterLastOf(path, RecordsName(sha, f), '/');
  }

  /** A write leaves the store content-addressed if it was and the other writers keep to that too. */
  lemma WriteKeepsAddressed(at: Target, b: BucketId, g: Option<nat>, rs: seq<Record>, accepted: bool, w: Weather, w': Weather,
                            objects: map<string, Bytes>)
    requires RoundTrips(at.lib) && Planned(at, b, g, rs).Some? && Addressed(at.lib, objects)
    requires Addressed(at.lib, w.before) && Addressed(at.lib, w.between)
    requires Addressed(at.lib, w'.before) && Addressed(at.lib, w'.between)
    ensures Addressed(at.lib, AfterWrite(Planned(at, b, g, rs).value, accepted, w, w', objects))
  {
    var p := Planned(at, b, g, rs).value;
    PlanIsNamed(at, b, g, rs);
    SettledKeepsAddressed(at.lib, objects, p.payloadKey, p.payload, w);
    SettledKeepsAddressed(at.lib, Settled(objects, p.payloadKey, p.payload, w), p.manifestKey, p.body, w');
  }

  lemma SettledKeepsAddressed(lib: Library, objects: map<string, Bytes>, key: string, body: Bytes, w: Weather)
    requires Addressed(lib, objects) && NamedAfter(lib, key, body) && Addressed(lib, w.before) && Addressed(lib, w.between)
    ensures Addressed(lib, Settled(objects, key, body, w))
  {
  }

  /** In a content-addressed store nothing but a digest collision can stand in the way of a write. */
  lemma AddressedAgrees(at: Target, b: BucketId, g: Option<nat>, rs: seq<Record>, objects: map<string, Bytes>)
    requires RoundTrips(at.lib) && Planned(at, b, g, rs).Some? && Addressed(at.lib, objects)
    requires var p := Planned(at, b, g, rs).value;
             && (p.manifestKey in objects ==> Distinguishes(at.lib, objects[p.manifestKey], p.body))
             && (p.payloadKey in objects ==> Distinguishes(at.lib, objects[p.payloadKey], p.payload))
    ensures Agrees(objects, Planned(at, b, g, rs).value)
  {
    var p := Planned(at, b, g, rs).value;
    PlanIsNamed(at, b, g, rs);
    if p.manifestKey in objects { SameDigest(at.lib, p.manifestKey, objects[p.manifestKey], p.body); }
    if p.payloadKey in objects { SameDigest(at.lib, p.payloadKey, objects[p.payloadKey], p.payload); }
  }

  lemma SameDigest(lib: Library, key: string, x: Bytes, y: Bytes)
    requires NamedAfter(lib, key, x) && NamedAfter(lib, key, y) && Distinguishes(lib, x, y)
    ensures x == y
  {
    var name := AfterLast(key, '/');
    assert name[..9] == "manifest-" ==> name[0] == 'm';
    assert name[..8] == "records-" ==> name[0] == 'r';
    HexInjective(lib.digest(x), lib.digest(y));
  }

  // ----- reading -----

  /** Reading a bucket from a store that may hold anything, and something else at the second read. */
  function GetBucket(lib: Library, b: BucketId, key: string, first: map<string, Bytes>, second: map<string, Bytes>)
    : Result<seq<Record>, ObjectError>
  {
    if key !in first then Err(Missing)
    else
      var digest := ManifestDigest(key);
      if digest.Err? then Err(digest.error)
      else if digest.value.Some? && Sha256(lib, first[key]) != digest.value.value then Err(BadManifest)
      else match lib.parseManifest(first[key])
        case None => Err(BadManifest)
        case Some(m) => ReadManifestRecords(lib, b, m, second)
  }

  function ReadManifestRecords(lib: Library, b: BucketId, m: Manifest, objects: map<string, Bytes>): Result<seq<Record>, ObjectError> {
    if !ManifestSupported(m) || m.bucket != b then Err(BadManifest)
    else if m.payloadKey !in objects then Err(Missing)
    else if !PayloadMatches(lib, m, objects[m.payloadKey]) then Err(BadPayload)
    else match lib.deserialize(m.format, objects[m.payloadKey])
      case None => Err(BadPayload)
      case Some(rs) =>
        if |rs| != m.recordCount then Err(BadPayload)
        else match ValidateRecords(b, rs)
          case Some(e) => Err(e)
          case None => Ok(rs)
  }

  /**
   Whatever the object store holds when the two reads happen, reading through the key of a write
   succeeds exactly when both written objects are intact and the same bucket is asked for, and then
   returns exactly the written records. Only a digest collision with the bytes read could break this.
   */
  lemma ReadIsWritten(at: Target, b: BucketId, g: Option<nat>, rs: seq<Record>,
                      c: BucketId, first: map<string, Bytes>, second: map<string, Bytes>)
    requires RoundTrips(at.lib) && Planned(at, b, g, rs).Some? && ValidateRecords(b, rs).None?
    requires var p := Planned(at, b, g, rs).value;
             && (p.manifestKey in first ==> Distinguishes(at.lib, first[p.manifestKey], p.body))
             && (p.payloadKey in second ==> Distinguishes(at.lib, second[p.payloadKey], p.payload))
    ensures var p := Planned(at, b, g, rs).value;
            var r := GetBucket(at.lib, c, p.manifestKey, first, second);
            && (r.Ok? ==> r.value == rs)
            && (r.Ok? <==> && c == b
                           && p.manifestKey in first && first[p.manifestKey] == p.body
                           && p.payloadKey in second && second[p.payloadKey] == p.payload)
  {
    var p := Planned(at, b, g, rs).value;
    DigestOfKey(at, b, g, p.body);
    PlansAreAccepted(at, b, g, rs);
    PayloadIsWritten(at.lib, p.manifest, p.payload, rs, c, second);
    if p.manifestKey in first && Sha256(at.lib, first[p.manifestKey]) == Sha256(at.lib, p.body) {
      HexInjective(at.lib.digest(first[p.manifestKey]), at.lib.digest(p.body));
    }
  }

  lemma PayloadIsWritten(lib: Library, m: Manifest, payload: Bytes, rs: seq<Record>, c: BucketId, objects: map<string, Bytes>)
    requires ManifestSupported(m) && PayloadMatches(lib, m, payload) && ValidateRecords(m.bucket, rs).None?
    requires lib.deserialize(m.format, payload) == Some(rs) && |rs| == m.recordCount
    requires m.payloadKey in objects ==> Distinguishes(lib, objects[m.payloadKey], payload)
    ensures var r := ReadManifestRecords(lib, c, m, objects);
            && (r.Ok? ==> r.value == rs)
            && (r.Ok? <==> c == m.bucket && m.payloadKey in objects && objects[m.payloadKey] == payload)
  {
    if m.payloadKey in objects && Sha256(lib, objects[m.payloadKey]) == Sha256(lib, payload) {
      HexInjective(lib.digest(objects[m.payloadKey]), lib.digest(payload));
    }
  }
}
