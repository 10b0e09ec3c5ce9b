/** The in-memory archive store and the keys it files snapshots under (src/ports/storage.rs). */
module MemoryArchive {
  import opened Common
  import opened Text
  import opened Records
  import opened Tiling
  import Tables
  import Cutover

  function Segment(path: string, name: string): string {
    path + ['/'] + name
  }

  function GenerationName(generation: nat): (s: string)
    ensures '/' !in s
  {
    "generation-" + Decimal(generation)
  }

  function BucketPath(b: BucketId): string {
    Segment(Segment("archives/" + b.tableId, Hex(b.partitionKey)), b.key)
  }

  function GenerationKey(b: BucketId, generation: nat): string {
    Segment(Segment(BucketPath(b), GenerationName(generation)), "data.json")
  }

  lemma SegmentInjective(p: string, n: string, p': string, n': string)
    requires '/' !in n && '/' !in n' && Segment(p, n) == Segment(p', n')
    ensures p == p' && n == n'
  {
    CutAtLast(p, n, p', n', '/');
  }

  lemma GenerationNameInjective(g: nat, h: nat)
    requires GenerationName(g) == GenerationName(h)
    ensures g == h
  {
    StripAffixes("generation-", Decimal(g), "", Decimal(h), "");
    DecimalInjective(g, h);
  }

  /** What a key can tell of an identity. */
  predicate SameNames(b: BucketId, c: BucketId) {
    b.tableId == c.tableId && b.partitionKey == c.partitionKey && b.key == c.key
  }

  /** Bucket keys without slashes: two archive keys coincide exactly when table, partition, key text and generation do. */
  lemma KeysCoincideIff(b: BucketId, g: nat, c: BucketId, h: nat)
    requires '/' !in b.key && '/' !in c.key
    ensures GenerationKey(b, g) == GenerationKey(c, h) <==> SameNames(b, c) && g == h
  {
    if GenerationKey(b, g) == GenerationKey(c, h) {
      SegmentInjective(Segment(BucketPath(b), GenerationName(g)), "data.json",
                       Segment(BucketPath(c), GenerationName(h)), "data.json");
      SegmentInjective(BucketPath(b), GenerationName(g), BucketPath(c), GenerationName(h));
      GenerationNameInjective(g, h);
      BucketPathInjective(b, c);
    }
  }

  lemma BucketPathInjective(b: BucketId, c: BucketId)
    requires '/' !in b.key && '/' !in c.key && BucketPath(b) == BucketPath(c)
    ensures SameNames(b, c)
  {
    var (p, q) := (Segment("archives/" + b.tableId, Hex(b.partitionKey)), Segment("archives/" + c.tableId, Hex(c.partitionKey)));
    SegmentInjective(p, b.key, q, c.key);
    SegmentInjective("archives/" + b.tableId, Hex(b.partitionKey), "archives/" + c.tableId, Hex(c.partitionKey));
    HexInjective(b.partitionKey, c.partitionKey);
    StripAffixes("archives/", b.tableId, "", c.tableId, "");
  }

  /** Keys of canonical buckets tell bucket and generation apart, even if table names contain slashes. */
  lemma GenerationKeyInjective(b: BucketId, g: nat, c: BucketId, h: nat)
    requires Tables.Canonical(b) && Tables.Canonical(c)
    ensures GenerationKey(b, g) == GenerationKey(c, h) <==> b == c && g == h
  {
    Tables.CanonicalKeyHasNoSlash(b);
    Tables.CanonicalKeyHasNoSlash(c);
    KeysCoincideIff(b, g, c, h);
    if SameNames(b, c) { Tables.CanonicalByKey(b, c); }
  }

  /** Identities that differ only in their bounds share a key. */
  lemma HandMadeIdentitiesCollide(b: BucketId, end: int, g: nat)
    requires end != b.end
    ensures b.(end := end) != b && GenerationKey(b.(end := end), g) == GenerationKey(b, g)
  {
  }

  /** A slash in a bucket key can move a piece of it into the table's name: then even table and partition are confused. */
  lemma SlashesCollide(b: BucketId, inner: Bytes, rest: string, g: nat)
    ensures GenerationKey(b.(key := Segment(Hex(inner), rest)), g) ==
            GenerationKey(b.(tableId := Segment(b.tableId, Hex(b.partitionKey)), partitionKey := inner, key := rest), g)
  {
    var (x, y) := (b.(key := Segment(Hex(inner), rest)),
                   b.(tableId := Segment(b.tableId, Hex(b.partitionKey)), partitionKey := inner, key := rest));
    assert BucketPath(x) == BucketPath(y);
  }

  ghost function CanonicalIds(): iset<BucketId> {
    iset b | Tables.Canonical(b)
  }

  function MemoryNaming(b: BucketId, generation: nat, records: seq<Record>): string {
    GenerationKey(b, generation)
  }

  ghost function MemoryConfig(): Cutover.Config {
    Cutover.Config(CanonicalIds(), MemoryNaming)
  }

  /** No two of the identities agree on table, partition and key text. */
  ghost predicate NamesDistinct(ids: iset<BucketId>) {
    forall b, c :: b in ids && c in ids && SameNames(b, c) ==> b == c
  }

  /**
   For identities whose keys have no slash, the in-memory archive meets the key condition of the cutover
   protocol if and only if no two of them agree on table, partition and key text.
   */
  lemma FencedIffNamesDistinct(ids: iset<BucketId>)
    requires forall b :: b in ids ==> '/' !in b.key
    ensures Cutover.Fenced(Cutover.Config(ids, MemoryNaming)) <==> NamesDistinct(ids)
  {
    var cfg := Cutover.Config(ids, MemoryNaming);
    if NamesDistinct(ids) {
      forall b, g, rs, b', g', rs' {:trigger cfg.naming(b, g, rs), cfg.naming(b', g', rs')} |
        b in cfg.buckets && b' in cfg.buckets && cfg.naming(b, g, rs) == cfg.naming(b', g', rs')
        ensures b == b' && g == g'
      {
        KeysCoincideIff(b, g, b', g');
      }
    }
    if Cutover.Fenced(cfg) {
      forall b, c | b in ids && c in ids && SameNames(b, c) ensures b == c {
        KeysCoincideIff(b, 0, c, 0);
        assert cfg.naming(b, 0, []) == cfg.naming(c, 0, []);
      }
    }
  }

  /** The in-memory keys of routed buckets meet what the cutover protocol needs of an archive. */
  lemma MemoryConfigFenced()
    ensures Cutover.Fenced(MemoryConfig())
  {
    forall b | b in CanonicalIds() ensures '/' !in b.key { Tables.CanonicalKeyHasNoSlash(b); }
    forall b, c | b in CanonicalIds() && c in CanonicalIds() && SameNames(b, c) ensures b == c { Tables.CanonicalByKey(b, c); }
    FencedIffNamesDistinct(CanonicalIds());
  }

  // ----- the store -----

  datatype ArchiveError = NotFound | WrongBucket

  predicate BelongsTo(b: BucketId, r: Record) {
    r.partitionKey == b.partitionKey && Contains(b, r.eventTime)
  }

  predicate AllBelong(b: BucketId, rs: seq<Record>) {
    forall i :: 0 <= i < |rs| ==> BelongsTo(b, rs[i])
  }

  class InMemoryArchiveStore {
    var objects: map<string, seq<Record>>

    constructor ()
      ensures objects == map[]
    {
      objects := map[];
    }

    method PutBucketGeneration(b: BucketId, generation: nat, records: seq<Record>) returns (key: string)
      modifies this
      ensures key == GenerationKey(b, generation)
      ensures objects == old(objects)[key := records]
    {
      key := GenerationKey(b, generation);
      objects := objects[key := records];
    }

    method GetBucket(b: BucketId, key: string) returns (r: Result<seq<Record>, ArchiveError>)
      ensures r.Ok? <==> key in objects && AllBelong(b, objects[key])
      ensures r.Ok? ==> r.value == objects[key]
      ensures r == Err(NotFound) <==> key !in objects
    {
      if key !in objects {
        return Err(NotFound);
      }
      var records := objects[key];
      if exists i :: 0 <= i < |records| && !BelongsTo(b, records[i]) {
        return Err(WrongBucket);
      }
      r := Ok(records);
    }
  }
}
