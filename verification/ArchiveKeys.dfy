/** Content-addressed object keys of the object-store archive (src/adapters/opendal_store.rs). */
module ArchiveKeys {
  import opened Common
  import opened Text
  import opened Records
  import opened Tiling
  import opened MemoryArchive
  import Tables
  import Cutover

  datatype Format = Json | Parquet

  const ARCHIVE_MANIFEST_VERSION := 4
  const RECORD_SCHEMA_VERSION := 2
  const CLUSTERING_KEY := ["event_time", "sort_key"]

  datatype Manifest = Manifest(
    version: nat, format: Format, schemaVersion: nat, bucket: BucketId, generation: Option<nat>,
    payloadKey: string, recordCount: nat, payloadBytes: nat, sha256: string, clusteringKey: seq<string>)

  /** The codecs, the digest and the text encoding that the adapter gets from its dependencies. */
  datatype Library = Library(
    serialize: (Format, seq<Record>) -> Option<Bytes>,
    deserialize: (Format, Bytes) -> Option<seq<Record>>,
    manifestBytes: Manifest -> Bytes,
    parseManifest: Bytes -> Option<Manifest>,
    digest: Bytes -> Bytes,
    utf8: string -> Bytes)

  ghost predicate RoundTrips(lib: Library) {
    && (forall f, rs :: lib.serialize(f, rs).Some? ==> lib.deserialize(f, lib.serialize(f, rs).value) == Some(rs))
    && (forall m :: lib.parseManifest(lib.manifestBytes(m)) == Some(m))
    && (forall x :: |lib.digest(x)| == 32)
    && (forall s, t :: lib.utf8(s) == lib.utf8(t) ==> s == t)
  }

  /** The digest tells these two bodies apart; a collision-free digest does so for every pair that occurs. */
  predicate Distinguishes(lib: Library, x: Bytes, y: Bytes) {
    lib.digest(x) == lib.digest(y) ==> x == y
  }

  function Sha256(lib: Library, body: Bytes): string {
    Hex(lib.digest(body))
  }

  // ----- keys -----

  /** Where one adapter writes: the dependencies, the key prefix and the format of new payloads. */
  datatype Target = Target(lib: Library, prefix: string, format: Format)

  function BucketPrefix(at: Target, b: BucketId): string {
    Segment(Segment(Segment(at.prefix, Hex(at.lib.utf8(b.tableId))), Hex(b.partitionKey)), Hex(at.lib.utf8(b.key)))
  }

  function ObjectDirectory(at: Target, b: BucketId, generation: Option<nat>): string {
    match generation
    case Some(g) => Segment(BucketPrefix(at, b), GenerationName(g))
    case None => BucketPrefix(at, b)
  }

  function Extension(f: Format): string {
    match f
    case Json => "json"
    case Parquet => "parquet"
  }

  function RecordsName(sha: string, f: Format): string {
    "records-" + sha + "." + Extension(f)
  }

  function PayloadKey(at: Target, b: BucketId, generation: Option<nat>, sha: string): string {
    Segment(ObjectDirectory(at, b, generation), RecordsName(sha, at.format))
  }

  function ManifestName(sha: string): string {
    "manifest-" + sha + ".json"
  }

  function ManifestKey(at: Target, b: BucketId, generation: Option<nat>, sha: string): string {
    Segment(ObjectDirectory(at, b, generation), ManifestName(sha))
  }

  /** Everything a write of these records is going to store. */
  datatype Plan = Plan(payload: Bytes, payloadKey: string, manifest: Manifest, body: Bytes, manifestKey: string)

  function PlanOf(at: Target, b: BucketId, generation: Option<nat>, records: seq<Record>, payload: Bytes): Plan {
    var payloadKey := PayloadKey(at, b, generation, Sha256(at.lib, payload));
    var manifest := Manifest(ARCHIVE_MANIFEST_VERSION, at.format, RECORD_SCHEMA_VERSION, b, generation, payloadKey,
                             |records|, |payload|, Sha256(at.lib, payload), CLUSTERING_KEY);
    var body := at.lib.manifestBytes(manifest);
    Plan(payload, payloadKey, manifest, body, ManifestKey(at, b, generation, Sha256(at.lib, body)))
  }

  function Planned(at: Target, b: BucketId, generation: Option<nat>, records: seq<Record>): Option<Plan> {
    match at.lib.serialize(at.format, records)
    case None => None
    case Some(payload) => Some(PlanOf(at, b, generation, records, payload))
  }

  // ----- a key names one bucket, one generation and one content -----

  lemma DirectoryInjective(at: Target, b: BucketId, g: Option<nat>, c: BucketId, h: Option<nat>)
    requires RoundTrips(at.lib) && Tables.Canonical(b) && Tables.Canonical(c)
    requires ObjectDirectory(at, b, g) == ObjectDirectory(at, c, h)
    ensures b == c && g == h
  {
    if g.Some? && h.Some? {
      SegmentInjective(BucketPrefix(at, b), GenerationName(g.value), BucketPrefix(at, c), GenerationName(h.value));
      GenerationNameInjective(g.value, h.value);
    } else if g.Some? {
      GenerationIsNoPrefix(at, b, g.value, c);
    } else if h.Some? {
      GenerationIsNoPrefix(at, c, h.value, b);
    }
    PrefixInjective(at, b, c);
  }

  lemma GenerationIsNoPrefix(at: Target, b: BucketId, g: nat, c: BucketId)
    ensures Segment(BucketPrefix(at, b), GenerationName(g)) != BucketPrefix(at, c)
  {
    HexIsNoGeneration(at.lib.utf8(c.key), g);
    if Segment(BucketPrefix(at, b), GenerationName(g)) == Segment(Upper(at, c), Hex(at.lib.utf8(c.key))) {
      SegmentInjective(BucketPrefix(at, b), GenerationName(g), Upper(at, c), Hex(at.lib.utf8(c.key)));
    }
  }

  function Upper(at: Target, b: BucketId): string {
    Segment(Segment(at.prefix, Hex(at.lib.utf8(b.tableId))), Hex(b.partitionKey))
  }

  lemma HexIsNoGeneration(x: Bytes, g: nat)
    ensures Hex(x) != GenerationName(g)
  {
    assert GenerationName(g)[0] == 'g';
  }

  lemma PrefixInjective(at: Target, b: BucketId, c: BucketId)
    requires RoundTrips(at.lib) && Tables.Canonical(b) && Tables.Canonical(c)
    requires BucketPrefix(at, b) == BucketPrefix(at, c)
    ensures b == c
  {
    SegmentInjective(Upper(at, b), Hex(at.lib.utf8(b.key)), Upper(at, c), Hex(at.lib.utf8(c.key)));
    SegmentInjective(Segment(at.prefix, Hex(at.lib.utf8(b.tableId))), Hex(b.partitionKey),
                     Segment(at.prefix, Hex(at.lib.utf8(c.tableId))), Hex(c.partitionKey));
    SegmentInjective(at.prefix, Hex(at.lib.utf8(b.tableId)), at.prefix, Hex(at.lib.utf8(c.tableId)));
    HexInjective(at.lib.utf8(b.key), at.lib.utf8(c.key));
    HexInjective(b.partitionKey, c.partitionKey);
    HexInjective(at.lib.utf8(b.tableId), at.lib.utf8(c.tableId));
    Tables.CanonicalByKey(b, c);
  }

  lemma ManifestKeyParts(d: string, sha: string, d': string, sha': string)
    requires '/' !in sha && '/' !in sha'
    requires Segment(d, ManifestName(sha)) == Segment(d', ManifestName(sha'))
    ensures d == d' && sha == sha'
  {
    SegmentInjective(d, ManifestName(sha), d', ManifestName(sha'));
    StripAffixes("manifest-", sha, ".json", sha', ".json");
  }

  /** Buckets and generations are told apart by the path alone, whatever the digest does. */
  lemma PathNamesBucketAndGeneration(at: Target, b: BucketId, g: Option<nat>, x: Bytes, c: BucketId, h: Option<nat>, y: Bytes)
    requires RoundTrips(at.lib) && Tables.Canonical(b) && Tables.Canonical(c)
    requires ManifestKey(at, b, g, Sha256(at.lib, x)) == ManifestKey(at, c, h, Sha256(at.lib, y))
    ensures b == c && g == h
  {
    ManifestKeyParts(ObjectDirectory(at, b, g), Sha256(at.lib, x), ObjectDirectory(at, c, h), Sha256(at.lib, y));
    DirectoryInjective(at, b, g, c, h);
  }

  /** Any two writes through any two adapters that share a manifest key archived the same thing. */
  lemma KeyNamesContent(at: Target, b: BucketId, g: Option<nat>, rs: seq<Record>,
                        to: Target, c: BucketId, h: Option<nat>, ss: seq<Record>)
    requires at.lib == to.lib && RoundTrips(at.lib)
    requires Planned(at, b, g, rs).Some? && Planned(to, c, h, ss).Some?
    requires var (p, q) := (Planned(at, b, g, rs).value, Planned(to, c, h, ss).value);
             && p.manifestKey == q.manifestKey
             && Distinguishes(at.lib, p.body, q.body) && Distinguishes(at.lib, p.payload, q.payload)
    ensures b == c && g == h && rs == ss && at.format == to.format
  {
    var (p, q) := (Planned(at, b, g, rs).value, Planned(to, c, h, ss).value);
    ManifestKeyParts(ObjectDirectory(at, b, g), Sha256(at.lib, p.body), ObjectDirectory(to, c, h), Sha256(at.lib, q.body));
    HexInjective(at.lib.digest(p.body), at.lib.digest(q.body));
    assert at.lib.parseManifest(p.body) == Some(p.manifest) && at.lib.parseManifest(q.body) == Some(q.manifest);
    HexInjective(at.lib.digest(p.payload), at.lib.digest(q.payload));
  }

  // ----- the cutover protocol over this archive -----

  function ArchiveNaming(at: Target): (BucketId, nat, seq<Record>) -> string {
    (b: BucketId, g: nat, rs: seq<Record>) =>
      match Planned(at, b, Some(g), rs)
      case Some(p) => p.manifestKey
      case None => ManifestKey(at, b, Some(g), "")
  }

  ghost function ArchiveConfig(at: Target): Cutover.Config {
    Cutover.Config(CanonicalIds(), ArchiveNaming(at))
  }

  lemma NamedInDirectory(at: Target, b: BucketId, g: nat, rs: seq<Record>) returns (sha: string)
    ensures '/' !in sha && ArchiveNaming(at)(b, g, rs) == ManifestKey(at, b, Some(g), sha)
  {
    match Planned(at, b, Some(g), rs)
    case Some(p) => sha := Sha256(at.lib, p.body);
    case None => sha := "";
  }

  /** Object-store keys meet what the cutover protocol needs of an archive. */
  lemma ArchiveConfigFenced(at: Target)
    requires RoundTrips(at.lib)
    ensures Cutover.Fenced(ArchiveConfig(at))
  {
    var cfg := ArchiveConfig(at);
    forall b, g, rs, b', g', rs' {:trigger cfg.naming(b, g, rs), cfg.naming(b', g', rs')} |
      b in cfg.buckets && b' in cfg.buckets && cfg.naming(b, g, rs) == cfg.naming(b', g', rs')
      ensures b == b' && g == g'
    {
      var sha := NamedInDirectory(at, b, g, rs);
      var sha' := NamedInDirectory(at, b', g', rs');
      ManifestKeyParts(ObjectDirectory(at, b, Some(g)), sha, ObjectDirectory(at, b', Some(g')), sha');
      DirectoryInjective(at, b, Some(g), b', Some(g'));
    }
  }
}
