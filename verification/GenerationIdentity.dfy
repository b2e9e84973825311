/**
 The identity of an immutable cache generation: the byte string that
 `tree_identity` hashes, and a decoder that shows nothing in it is ambiguous.
 A character stands for one byte.
 */
module GenerationIdentity {
  import opened Options
  import opened Decimal
  import opened StringOrder

  datatype EntryKind =
    | Directory
    | File(size: nat, checksum: string, executable: bool)

  datatype SourceEntry = SourceEntry(path: string, kind: EntryKind)

  /** Everything a generation's name depends on. */
  datatype Provenance = Provenance(sources: seq<string>, before: string, after: string)

  const U64: nat := 0x1_0000_0000_0000_0000
  const DOMAIN := "kvist/cargo-home-generation/v2\0"

  // ---------- Length-prefixed fields ----------

  /** The `width` low bytes of `n`, most significant first. */
  function BigEndian(n: nat, width: nat): (s: string)
    ensures |s| == width
    decreases width
  {
    if width == 0 then "" else BigEndian(n / 256, width - 1) + [(n % 256) as char]
  }

  function ReadBigEndian(s: string): nat {
    if |s| == 0 then 0 else ReadBigEndian(s[..|s| - 1]) * 256 + s[|s| - 1] as int
  }

  function Power256(width: nat): (p: nat)
    ensures p > 0
  {
    if width == 0 then 1 else 256 * Power256(width - 1)
  }

  lemma {:induction false} ReadWritten(n: nat, width: nat)
    requires n < Power256(width)
    ensures ReadBigEndian(BigEndian(n, width)) == n
    decreases width
  {
    if width > 0 {
      ReadWritten(n / 256, width - 1);
      var s := BigEndian(n, width);
      assert s[..|s| - 1] == BigEndian(n / 256, width - 1);
    }
  }

  /** `append_identity_field`: an eight-byte length, then the value. */
  function Field(value: string): string {
    BigEndian(|value|, 8) + value
  }

  function Fields(values: seq<string>): string {
    if |values| == 0 then "" else Field(values[0]) + Fields(values[1..])
  }

  function ReadFields(s: string): Option<seq<string>>
    decreases |s|
  {
    if |s| == 0 then Some([])
    else if |s| < 8 then None
    else
      var length := ReadBigEndian(s[..8]);
      if |s| - 8 < length then None
      else
        match ReadFields(s[8 + length..])
        case None => None
        case Some(rest) => Some([s[8..8 + length]] + rest)
  }

  ghost predicate Encodable(values: seq<string>) {
    forall i :: 0 <= i < |values| ==> |values[i]| < U64
  }

  lemma LengthReadBack(n: nat)
    requires n < U64
    ensures ReadBigEndian(BigEndian(n, 8)) == n
  {
    assert Power256(4) == 0x1_0000_0000;
    assert Power256(8) == U64;
    ReadWritten(n, 8);
  }

  lemma FieldSplits(v: string, rest: string)
    ensures var s := Field(v) + rest;
            s[..8] == BigEndian(|v|, 8) && s[8..8 + |v|] == v && s[8 + |v|..] == rest
  {
  }

  lemma {:induction false} FieldsReadBack(values: seq<string>)
    requires Encodable(values)
    ensures ReadFields(Fields(values)) == Some(values)
  {
    if |values| > 0 {
      var rest := Fields(values[1..]);
      FieldSplits(values[0], rest);
      LengthReadBack(|values[0]|);
      FieldsReadBack(values[1..]);
      assert [values[0]] + values[1..] == values;
      hide BigEndian, ReadBigEndian;
      assert ReadFields(Field(values[0]) + rest) == Some(values);
    }
  }

  // ---------- The field sequence of a generation ----------

  function SafeMode(kind: EntryKind): string {
    match kind
    case Directory => "555"
    case File(_, _, executable) => if executable then "555" else "444"
  }

  function EntryFields(e: SourceEntry): seq<string> {
    match e.kind
    case Directory => [e.path, "dir", SafeMode(e.kind)]
    case File(size, checksum, _) => [e.path, "file", SafeMode(e.kind), Print(size), checksum]
  }

  function EntriesFields(entries: seq<SourceEntry>): seq<string> {
    if |entries| == 0 then [] else EntryFields(entries[0]) + EntriesFields(entries[1..])
  }

  /** The source identities in the order in which they are hashed. */
  function Normal(p: Provenance): Provenance { p.(sources := Arranged(p.sources)) }

  /** The fields after the entries. */
  function ProvenanceFields(p: Provenance): seq<string> {
    ["sources"] + Arranged(p.sources) + ["lockfile-before", p.before, "lockfile-after", p.after]
  }

  function IdentityFields(entries: seq<SourceEntry>, p: Provenance): seq<string> {
    EntriesFields(entries) + ProvenanceFields(p)
  }

  /** The bytes that `tree_identity` feeds to the hash. */
  function IdentityBytes(entries: seq<SourceEntry>, p: Provenance): string {
    DOMAIN + Fields(IdentityFields(entries, p))
  }

  // ---------- What a validated plan guarantees ----------

  predicate IsHex(c: char) { '0' <= c <= '9' || 'a' <= c <= 'f' }

  /** `validate_digest`: the prefix and 64 lower-case hexadecimal digits. */
  predicate DigestShape(s: string) {
    |s| == 71 && s[..7] == "sha256:" && forall i :: 7 <= i < |s| ==> IsHex(s[i])
  }

  /** What the hash yields: a digest for every byte string. */
  type Digest = s: string | DigestShape(s) witness "sha256:" + seq(64, _ => '0')

  type Hash = string -> Digest

  function GenerationName(identity: Digest): string { "generation-" + identity[7..] }

  predicate ValidProvenance(p: Provenance) {
    && |p.sources| > 0
    && (forall i :: 0 <= i < |p.sources| ==> DigestShape(p.sources[i]))
    && DigestShape(p.before) && DigestShape(p.after)
  }

  // ---------- Decoding ----------

  function ReadSources(f: seq<string>): Option<Provenance>
    decreases |f|
  {
    if |f| == 0 then None
    else if f[0] == "lockfile-before" then
      if |f| == 4 && f[2] == "lockfile-after" then Some(Provenance([], f[1], f[3])) else None
    else
      match ReadSources(f[1..])
      case None => None
      case Some(p) => Some(p.(sources := [f[0]] + p.sources))
  }

  function ReadIdentity(f: seq<string>): Option<(seq<SourceEntry>, Provenance)>
    decreases |f|
  {
    if |f| < 2 then None
    else if f[1] == "dir" then
      if |f| < 3 then None
      else match ReadIdentity(f[3..])
        case None => None
        case Some(r) => Some(([SourceEntry(f[0], Directory)] + r.0, r.1))
    else if f[1] == "file" then
      if |f| < 5 || !AllDigits(f[3]) then None
      else match ReadIdentity(f[5..])
        case None => None
        case Some(r) => Some(([SourceEntry(f[0], File(Value(f[3]), f[4], f[2] == "555"))] + r.0, r.1))
    else if f[0] == "sources" then
      match ReadSources(f[1..])
      case None => None
      case Some(p) => Some(([], p))
    else None
  }

  lemma {:induction false} SourcesReadBack(p: Provenance)
    requires forall i :: 0 <= i < |p.sources| ==> DigestShape(p.sources[i])
    ensures ReadSources(p.sources + ["lockfile-before", p.before, "lockfile-after", p.after]) == Some(p)
    decreases |p.sources|
  {
    var tail := ["lockfile-before", p.before, "lockfile-after", p.after];
    if |p.sources| == 0 {
      assert p.sources + tail == tail;
    } else {
      SourcesReadBack(p.(sources := p.sources[1..]));
      var f := p.sources + tail;
      assert f[1..] == p.sources[1..] + tail;
      assert [p.sources[0]] + p.sources[1..] == p.sources;
    }
  }

  /** The fields of one entry in front of fields that decode. */
  lemma EntryReadsBack(e: SourceEntry, rest: seq<string>)
    requires ReadIdentity(rest).Some?
    ensures ReadIdentity(EntryFields(e) + rest)
         == Some(([e] + ReadIdentity(rest).value.0, ReadIdentity(rest).value.1))
  {
    hide Print, Value;
    var first := EntryFields(e);
    assert (first + rest)[|first|..] == rest;
    if e.kind.File? { ValueOfPrint(e.kind.size); }
  }

  /** Decoding is exact, even for an entry whose path is literally "sources". */
  lemma {:induction false} IdentityReadBack(entries: seq<SourceEntry>, p: Provenance)
    requires ValidProvenance(p)
    ensures ReadIdentity(IdentityFields(entries, p)) == Some((entries, Normal(p)))
    decreases |entries|
  {
    hide ReadIdentity, EntryFields, ProvenanceFields, ValidProvenance, IdentityFields;
    if |entries| == 0 {
      ProvenanceReadsBack(p);
    } else {
      IdentityReadBack(entries[1..], p);
      EntryReadsBack(entries[0], IdentityFields(entries[1..], p));
      FirstEntry(entries, p);
      assert [entries[0]] + entries[1..] == entries;
    }
  }

  lemma FirstEntry(entries: seq<SourceEntry>, p: Provenance)
    requires |entries| > 0
    ensures IdentityFields(entries, p) == EntryFields(entries[0]) + IdentityFields(entries[1..], p)
  {
    hide EntryFields, ProvenanceFields;
  }

  lemma ReadsSources(f: seq<string>)
    requires |f| >= 2 && f[0] == "sources" && |f[1]| == 71
    ensures ReadIdentity(f) == if ReadSources(f[1..]).None? then None else Some(([], ReadSources(f[1..]).value))
  {
    hide ReadSources;
  }

  lemma ProvenanceReadsBack(p: Provenance)
    requires ValidProvenance(p)
    ensures ReadIdentity(IdentityFields([], p)) == Some(([], Normal(p)))
  {
    NormalIsValid(p);
    hide DigestShape, ReadIdentity, ReadSources, Arranged;
    var f := ProvenanceFields(p);
    assert IdentityFields([], p) == f;
    FirstSource(p);
    SourcesReadBack(Normal(p));
    ReadsSources(f);
  }

  lemma FirstSource(p: Provenance)
    requires ValidProvenance(p)
    ensures |ProvenanceFields(p)| >= 2 && ProvenanceFields(p)[0] == "sources" && |ProvenanceFields(p)[1]| == 71
    ensures ProvenanceFields(p)[1..] == Arranged(p.sources) + ["lockfile-before", p.before, "lockfile-after", p.after]
  {
    NormalIsValid(p);
    assert DigestShape(Normal(p).sources[0]);
  }

  lemma NormalIsValid(p: Provenance)
    requires ValidProvenance(p)
    ensures ValidProvenance(Normal(p))
  {
    var s := Arranged(p.sources);
    assert |s| == |multiset(s)| == |multiset(p.sources)| == |p.sources|;
    forall i | 0 <= i < |s| ensures DigestShape(s[i]) {
      assert s[i] in multiset(p.sources);
    }
  }

  /** The same sources, in whatever order, and the same lockfile identities. */
  ghost predicate SameProvenance(p: Provenance, q: Provenance) {
    multiset(p.sources) == multiset(q.sources) && p.before == q.before && p.after == q.after
  }

  /** A plan may list its sources in any order. */
  lemma SourceOrderIsIrrelevant(entries: seq<SourceEntry>, p: Provenance, q: Provenance)
    requires SameProvenance(p, q)
    ensures IdentityBytes(entries, p) == IdentityBytes(entries, q)
  {
    SameArrangement(p.sources, q.sources);
  }

  /**
   Two generations with equal identity bytes have the same entries, modes,
   set of sources and lockfile identities. The bound says every field's length
   fits the eight-byte prefix.
   */
  lemma IdentityBytesInjective(e1: seq<SourceEntry>, p1: Provenance, e2: seq<SourceEntry>, p2: Provenance)
    requires ValidProvenance(p1) && ValidProvenance(p2)
    requires Encodable(IdentityFields(e1, p1)) && Encodable(IdentityFields(e2, p2))
    requires IdentityBytes(e1, p1) == IdentityBytes(e2, p2)
    ensures e1 == e2 && SameProvenance(p1, p2)
  {
    var f1, f2 := IdentityFields(e1, p1), IdentityFields(e2, p2);
    assert Fields(f1) == IdentityBytes(e1, p1)[|DOMAIN|..];
    assert Fields(f2) == IdentityBytes(e2, p2)[|DOMAIN|..];
    FieldsReadBack(f1);
    FieldsReadBack(f2);
    IdentityReadBack(e1, p1);
    IdentityReadBack(e2, p2);
    SameArrangement(p1.sources, p2.sources);
  }
}
