/** The on-disk credential record: a length-prefixed binary format, its printer and its parser. */
module RecordCodec {
  import opened Basics

  const U64_LIMIT: nat := 0x1_0000_0000_0000_0000
  const MAGIC: seq<byte> := [0x55, 0x4C, 0x4C, 0x41, 0x47, 0x45, 0x43, 0x32] // "ULLAGEC2"
  const HEADER_BYTES: nat := 29
  const MAX_RECORD_BYTES: nat := 1024 * 1024
  const MAX_FIELDS: nat := 64
  const MAX_FIELD_NAME_BYTES: nat := 64

  datatype Fault = BackendUnavailable | FileFallbackDisabled | AccessDenied | BackendFailure
                 | UnsafeFallbackPath | FileIo | Synchronization

  datatype Error = InvalidFieldName | CredentialTooLarge | CorruptCredential | NotFound
                 | RevisionOverflow | GenerationOverflow | Backend(fault: Fault)

  // ---- Data model ----

  datatype Field = Field(name: seq<byte>, value: seq<byte>)

  /** The ordered map of secret fields, listed in ascending name order. */
  datatype Credential = Credential(fields: seq<Field>)

  datatype Version = Version(generation: nat, revision: nat)

  datatype Stored = Stored(version: Version, credential: Credential)

  datatype Record = Active(stored: Stored) | Tombstone(generation: nat)

  predicate NameByte(b: byte) {
    0x30 <= b <= 0x39 || 0x41 <= b <= 0x5A || 0x61 <= b <= 0x7A || b == 0x5F || b == 0x2D || b == 0x2E
  }

  /** Digits, letters, underscore, hyphen and full stop. */
  lemma NameByteListed(b: byte)
    ensures NameByte(b) <==> (b in
              {45, 46, 48, 49, 50, 51, 52, 53, 54, 55, 56, 57, 65, 66, 67, 68, 69, 70, 71, 72, 73, 74, 75, 76, 77, 78,
               79, 80, 81, 82, 83, 84, 85, 86, 87, 88, 89, 90, 95, 97, 98, 99, 100, 101, 102, 103, 104, 105, 106, 107,
               108, 109, 110, 111, 112, 113, 114, 115, 116, 117, 118, 119, 120, 121, 122})
  {
  }

  predicate ValidName(name: seq<byte>) {
    0 < |name| <= MAX_FIELD_NAME_BYTES && forall i | 0 <= i < |name| :: NameByte(name[i])
  }

  predicate NameLess(a: seq<byte>, b: seq<byte>) {
    b != [] && (a == [] || a[0] < b[0] || (a[0] == b[0] && NameLess(a[1..], b[1..])))
  }

  predicate Ascending(fs: seq<Field>) {
    forall i, j | 0 <= i < j < |fs| :: NameLess(fs[i].name, fs[j].name)
  }

  predicate Has(fs: seq<Field>, name: seq<byte>) {
    exists i | 0 <= i < |fs| :: fs[i].name == name
  }

  predicate ValidFields(fs: seq<Field>) {
    |fs| <= MAX_FIELDS && Ascending(fs) && forall i | 0 <= i < |fs| :: ValidName(fs[i].name)
  }

  /** What the Rust types guarantee of every record in memory. */
  predicate Representable(rec: Record) {
    match rec
    case Active(st) =>
      st.version.generation < U64_LIMIT && st.version.revision < U64_LIMIT && ValidFields(st.credential.fields)
    case Tombstone(g) => g < U64_LIMIT
  }

  /** What the store issues: generation and, for an active record, revision are never zero. */
  predicate WellFormed(rec: Record) {
    Representable(rec) && match rec
    case Active(st) => st.version.generation > 0 && st.version.revision > 0
    case Tombstone(g) => g > 0
  }

  // ---- Big-endian numbers ----

  function Pow256(width: nat): (p: nat)
    ensures p > 0
  {
    if width == 0 then 1 else 256 * Pow256(width - 1)
  }

  lemma Widths()
    ensures Pow256(1) == 0x100 && Pow256(2) == 0x1_0000 && Pow256(4) == 0x1_0000_0000 && Pow256(8) == U64_LIMIT
  {
    assert Pow256(1) == 0x100;
    assert Pow256(2) == 0x1_0000;
    assert Pow256(3) == 0x100_0000;
    assert Pow256(4) == 0x1_0000_0000;
    assert Pow256(6) == 0x1_0000_0000_0000;
  }

  function BigEndian(n: nat, width: nat): (b: seq<byte>)
    requires n < Pow256(width)
    ensures |b| == width
  {
    if width == 0 then [] else BigEndian(n / 256, width - 1) + [n % 256]
  }

  function FromBigEndian(b: seq<byte>): (n: nat)
    ensures n < Pow256(|b|)
  {
    if b == [] then 0 else FromBigEndian(b[..|b| - 1]) * 256 + b[|b| - 1]
  }

  lemma {:induction false} BigEndianRoundTrip(n: nat, width: nat)
    requires n < Pow256(width)
    ensures FromBigEndian(BigEndian(n, width)) == n
  {
    if width > 0 {
      var b := BigEndian(n, width);
      BigEndianRoundTrip(n / 256, width - 1);
      assert b[..|b| - 1] == BigEndian(n / 256, width - 1);
    }
  }

  lemma {:induction false} BigEndianCanonical(b: seq<byte>)
    ensures BigEndian(FromBigEndian(b), |b|) == b
  {
    if b != [] {
      BigEndianCanonical(b[..|b| - 1]);
      assert FromBigEndian(b) / 256 == FromBigEndian(b[..|b| - 1]);
      assert b == b[..|b| - 1] + [b[|b| - 1]];
    }
  }

  lemma Shifted(x: nat, p: nat, y: nat, last: nat)
    ensures (x * p + y) * 256 + last == x * (256 * p) + (y * 256 + last)
  {
  }

  /** Bytes further left count for more. */
  lemma {:induction false} Positional(a: seq<byte>, b: seq<byte>)
    ensures FromBigEndian(a + b) == FromBigEndian(a) * Pow256(|b|) + FromBigEndian(b)
  {
    if b == [] {
      assert a + b == a;
    } else {
      var rest := b[..|b| - 1];
      assert (a + b)[..|a + b| - 1] == a + rest;
      Positional(a, rest);
      Shifted(FromBigEndian(a), Pow256(|rest|), FromBigEndian(rest), b[|b| - 1]);
    }
  }

  /** The bytes themselves: most significant first. */
  lemma TwoBytes(n: nat)
    requires n < 0x1_0000
    ensures n < Pow256(2) && BigEndian(n, 2) == [n / 0x100, n % 0x100]
  {
    Widths();
    assert BigEndian(n / 0x100, 1) == [n / 0x100];
  }

  lemma FourBytes(n: nat)
    requires n < 0x1_0000_0000
    ensures n < Pow256(4)
    ensures BigEndian(n, 4) == [n / 0x100_0000, n / 0x1_0000 % 0x100, n / 0x100 % 0x100, n % 0x100]
  {
    Widths();
    TwoBytes(n / 0x1_0000);
    var m := n / 0x100;
    assert Pow256(3) == 0x100_0000 && m / 0x100 == n / 0x1_0000;
    assert BigEndian(m, 3) == BigEndian(m / 0x100, 2) + [m % 0x100];
  }

  lemma EightBytes(n: nat)
    requires n < U64_LIMIT
    ensures n < Pow256(8) && n / 0x1_0000_0000 < Pow256(4) && n % 0x1_0000_0000 < Pow256(4)
    ensures BigEndian(n, 8) == BigEndian(n / 0x1_0000_0000, 4) + BigEndian(n % 0x1_0000_0000, 4)
  {
    Widths();
    var high, low := n / 0x1_0000_0000, n % 0x1_0000_0000;
    var a, b := BigEndian(high, 4), BigEndian(low, 4);
    Positional(a, b);
    BigEndianRoundTrip(high, 4);
    BigEndianRoundTrip(low, 4);
    BigEndianCanonical(a + b);
  }

  // ---- The wire image of a record ----

  function FieldSize(f: Field): nat {
    6 + |f.name| + |f.value|
  }

  function FieldsSize(fs: seq<Field>): nat {
    if fs == [] then 0 else FieldSize(fs[0]) + FieldsSize(fs[1..])
  }

  predicate Measurable(f: Field) {
    |f.name| < 0x1_0000 && |f.value| < 0x1_0000_0000
  }

  predicate AllMeasurable(fs: seq<Field>) {
    forall i | 0 <= i < |fs| :: Measurable(fs[i])
  }

  function FieldBytes(f: Field): (b: seq<byte>)
    requires Measurable(f)
    ensures |b| == FieldSize(f)
  {
    Widths();
    BigEndian(|f.name|, 2) + f.name + BigEndian(|f.value|, 4) + f.value
  }

  function FieldsBytes(fs: seq<Field>): (b: seq<byte>)
    requires AllMeasurable(fs)
    ensures |b| == FieldsSize(fs)
  {
    if fs == [] then [] else FieldBytes(fs[0]) + FieldsBytes(fs[1..])
  }

  function Header(generation: nat, revision: nat, active: byte, count: nat): (b: seq<byte>)
    requires generation < U64_LIMIT && revision < U64_LIMIT && count < 0x1_0000_0000
    ensures |b| == HEADER_BYTES
  {
    Widths();
    MAGIC + BigEndian(generation, 8) + BigEndian(revision, 8) + [active] + BigEndian(count, 4)
  }

  function RecordFields(rec: Record): seq<Field> {
    if rec.Active? then rec.stored.credential.fields else []
  }

  function EncodedSize(rec: Record): nat {
    HEADER_BYTES + FieldsSize(RecordFields(rec))
  }

  predicate Fits(rec: Record) {
    EncodedSize(rec) <= MAX_RECORD_BYTES
  }

  lemma {:induction false} FieldsMeasurable(fs: seq<Field>)
    requires FieldsSize(fs) <= MAX_RECORD_BYTES && forall i | 0 <= i < |fs| :: ValidName(fs[i].name)
    ensures AllMeasurable(fs)
  {
    if fs != [] {
      FieldsMeasurable(fs[1..]);
      assert forall i | 1 <= i < |fs| :: fs[i] == fs[1..][i - 1];
    }
  }

  function Image(rec: Record): (b: seq<byte>)
    requires Representable(rec) && Fits(rec)
    ensures |b| == EncodedSize(rec)
  {
    FieldsMeasurable(RecordFields(rec));
    match rec
    case Active(st) =>
      Header(st.version.generation, st.version.revision, 1, |st.credential.fields|) + FieldsBytes(st.credential.fields)
    case Tombstone(g) => Header(g, 0, 0, 0)
  }

  lemma FieldsStep(fs: seq<Field>, k: nat)
    requires k < |fs|
    ensures FieldsSize(fs[k..]) == FieldSize(fs[k]) + FieldsSize(fs[k + 1..])
    ensures AllMeasurable(fs[k..]) ==>
              AllMeasurable(fs[k + 1..]) && FieldsBytes(fs[k..]) == FieldBytes(fs[k]) + FieldsBytes(fs[k + 1..])
  {
    assert fs[k..][1..] == fs[k + 1..] && fs[k..][0] == fs[k];
  }

  /** One turn of the loop in `encode`: append a field unless the record would outgrow its limit. */
  method EncodeField(output: seq<byte>, f: Field) returns (r: Result<seq<byte>, Error>)
    requires ValidName(f.name)
    ensures |output| + FieldSize(f) > MAX_RECORD_BYTES ==> r == Err(CredentialTooLarge)
    ensures |output| + FieldSize(f) <= MAX_RECORD_BYTES ==> Measurable(f) && r == Ok(output + FieldBytes(f))
  {
    if |f.value| >= 0x1_0000_0000 || |output| + (2 + |f.name| + 4) + |f.value| > MAX_RECORD_BYTES {
      return Err(CredentialTooLarge);
    }
    Widths();
    var longer := output + BigEndian(|f.name|, 2);
    longer := longer + f.name;
    longer := longer + BigEndian(|f.value|, 4);
    longer := longer + f.value;
    assert longer == output + FieldBytes(f);
    return Ok(longer);
  }

  lemma AppendStep(output: seq<byte>, fs: seq<Field>, k: nat)
    requires k < |fs| && AllMeasurable(fs)
    ensures FieldsSize(fs[k..]) == FieldSize(fs[k]) + FieldsSize(fs[k + 1..])
    ensures AllMeasurable(fs[k..]) && AllMeasurable(fs[k + 1..])
    ensures output + FieldsBytes(fs[k..]) == output + FieldBytes(fs[k]) + FieldsBytes(fs[k + 1..])
  {
    FieldsStep(fs, k);
  }

  method EncodeFields(header: seq<byte>, fields: seq<Field>) returns (r: Result<seq<byte>, Error>)
    requires |header| <= MAX_RECORD_BYTES && forall i | 0 <= i < |fields| :: ValidName(fields[i].name)
    ensures |header| + FieldsSize(fields) > MAX_RECORD_BYTES ==> r == Err(CredentialTooLarge)
    ensures |header| + FieldsSize(fields) <= MAX_RECORD_BYTES ==>
              AllMeasurable(fields) && r == Ok(header + FieldsBytes(fields))
  {
    var output := header;
    ghost var fits := |header| + FieldsSize(fields) <= MAX_RECORD_BYTES;
    ghost var whole := [];
    if fits {
      FieldsMeasurable(fields);
      whole := header + FieldsBytes(fields);
    }
    assert fields[0..] == fields;
    for k := 0 to |fields|
      invariant |output| + FieldsSize(fields[k..]) == |header| + FieldsSize(fields)
      invariant |output| <= MAX_RECORD_BYTES
      invariant fits ==> AllMeasurable(fields[k..]) && output + FieldsBytes(fields[k..]) == whole
    {
      FieldsStep(fields, k);
      if fits {
        AppendStep(output, fields, k);
      }
      var more := EncodeField(output, fields[k]);
      if more.Err? {
        return more;
      }
      output := more.value;
    }
    assert fields[|fields|..] == [] && output + [] == output;
    return Ok(output);
  }

  /** `StoredRecord::encode`: succeeds exactly when the whole record fits, and then yields its image. */
  method Encode(rec: Record) returns (r: Result<seq<byte>, Error>)
    requires Representable(rec)
    ensures r == if Fits(rec) then Ok(Image(rec)) else Err(CredentialTooLarge)
    ensures r.Ok? <==> 29 + FieldsSize(RecordFields(rec)) <= 1_048_576
  {
    var fields := RecordFields(rec);
    var header := match rec
      case Active(st) => Header(st.version.generation, st.version.revision, 1, |fields|)
      case Tombstone(g) => Header(g, 0, 0, 0);
    r := EncodeFields(header, fields);
    assert header + [] == header;
  }

  // ---- Inserting into the ordered map ----

  function Insert(fs: seq<Field>, f: Field): (r: seq<Field>) {
    if fs == [] then [f]
    else if f.name == fs[0].name then [f] + fs[1..]
    else if NameLess(f.name, fs[0].name) then [f] + fs
    else [fs[0]] + Insert(fs[1..], f)
  }

  /** `Credential::insert`: the new map, or why the field was refused. */
  function TryInsert(fs: seq<Field>, f: Field): Result<seq<Field>, Error> {
    if !ValidName(f.name) then Err(InvalidFieldName)
    else if |fs| >= MAX_FIELDS && !Has(fs, f.name) then Err(CredentialTooLarge)
    else Ok(Insert(fs, f))
  }

  /** A field is refused for a bad name, then for a new name where there are 64; and a name may have 64 bytes. */
  lemma TryInsertIff(fs: seq<Field>, f: Field)
    ensures ValidName(f.name) <==> (1 <= |f.name| <= 64 && forall b | b in f.name :: NameByte(b))
    ensures TryInsert(fs, f) ==
            if !ValidName(f.name) then Err(InvalidFieldName)
            else if |fs| > 63 && (forall g | g in fs :: g.name != f.name) then Err(CredentialTooLarge)
            else Ok(Insert(fs, f))
  {
    if exists g :: g in fs && g.name == f.name {
      var g :| g in fs && g.name == f.name;
      var i :| 0 <= i < |fs| && fs[i] == g;
      assert Has(fs, f.name);
    }
  }

  lemma {:induction false} NameOrder(a: seq<byte>, b: seq<byte>)
    ensures !NameLess(a, a)
    ensures NameLess(a, b) || a == b || NameLess(b, a)
    ensures !(NameLess(a, b) && NameLess(b, a))
  {
    if a != [] {
      NameOrder(a[1..], if b != [] then b[1..] else []);
      if b != [] {
        assert a == [a[0]] + a[1..] && b == [b[0]] + b[1..];
      }
    }
  }

  lemma {:induction false} NameLessTransitive(a: seq<byte>, b: seq<byte>, c: seq<byte>)
    requires NameLess(a, b) && NameLess(b, c)
    ensures NameLess(a, c)
  {
    if a != [] && a[0] == b[0] == c[0] {
      NameLessTransitive(a[1..], b[1..], c[1..]);
    }
  }

  /** Names compare byte by byte; at the first difference the smaller byte comes first, and a prefix before the rest. */
  lemma {:induction false} NameLessIff(a: seq<byte>, b: seq<byte>)
    ensures NameLess(a, b) <==> exists k | 0 <= k <= |a| && k < |b| ::
              a[..k] == b[..k] && (k == |a| || a[k] < b[k])
  {
    if a != [] && b != [] {
      NameLessIff(a[1..], b[1..]);
      if a[0] == b[0] {
        forall k | 1 <= k <= |a| && k < |b|
          ensures a[..k] == b[..k] && (k == |a| || a[k] < b[k]) <==>
                    a[1..][..k - 1] == b[1..][..k - 1] && (k - 1 == |a[1..]| || a[1..][k - 1] < b[1..][k - 1])
        {
          assert a[..k] == [a[0]] + a[1..][..k - 1] && b[..k] == [b[0]] + b[1..][..k - 1];
        }
        if k :| 0 <= k <= |a[1..]| && k < |b[1..]| && a[1..][..k] == b[1..][..k]
                && (k == |a[1..]| || a[1..][k] < b[1..][k]) {
          assert a[..k + 1] == b[..k + 1];
        }
      } else {
        assert forall k | 1 <= k <= |a| && k < |b| :: a[..k][0] != b[..k][0];
        assert a[..0] == b[..0];
      }
    } else {
      assert a[..0] == b[..0];
    }
  }

  predicate AllAfter(name: seq<byte>, fs: seq<Field>) {
    forall i | 0 <= i < |fs| :: NameLess(name, fs[i].name)
  }

  lemma AscendingCons(x: Field, rest: seq<Field>)
    ensures Ascending([x] + rest) <==> AllAfter(x.name, rest) && Ascending(rest)
  {
    var all := [x] + rest;
    assert forall i | 0 <= i < |rest| :: rest[i] == all[i + 1];
    assert all[0] == x;
  }

  lemma {:induction false} InsertAfter(name: seq<byte>, fs: seq<Field>, f: Field)
    requires AllAfter(name, fs) && NameLess(name, f.name)
    ensures AllAfter(name, Insert(fs, f))
  {
    if fs != [] {
      assert forall i | 0 <= i < |fs[1..]| :: fs[1..][i] == fs[i + 1];
      InsertAfter(name, fs[1..], f);
    }
  }

  lemma {:induction false} InsertAscending(fs: seq<Field>, f: Field)
    requires Ascending(fs) && !Has(fs, f.name)
    ensures Ascending(Insert(fs, f))
  {
    if fs != [] {
      var x, rest := fs[0], fs[1..];
      assert [x] + rest == fs;
      AscendingCons(x, rest);
      NameOrder(f.name, x.name);
      if NameLess(f.name, x.name) {
        forall i | 0 <= i < |fs| ensures NameLess(f.name, fs[i].name) {
          if i > 0 {
            NameLessTransitive(f.name, x.name, fs[i].name);
          }
        }
        AscendingCons(f, fs);
      } else {
        assert forall i | 0 <= i < |rest| :: rest[i] == fs[i + 1];
        InsertAscending(rest, f);
        InsertAfter(x.name, rest, f);
        AscendingCons(x, Insert(rest, f));
      }
    }
  }

  /** Inserting under a name leaves exactly the new field under it, and every other field as it was. */
  lemma {:induction false} InsertSets(fs: seq<Field>, f: Field)
    requires Ascending(fs)
    ensures Ascending(Insert(fs, f))
    ensures forall g :: g in Insert(fs, f) <==> g == f || (g in fs && g.name != f.name)
  {
    if !Has(fs, f.name) {
      InsertAscending(fs, f);
    }
    if fs != [] {
      var x, rest := fs[0], fs[1..];
      assert [x] + rest == fs;
      AscendingCons(x, rest);
      NameOrder(f.name, x.name);
      if f.name == x.name {
        AscendingCons(f, rest);
        forall g | g in rest ensures g.name != f.name {
          var i :| 0 <= i < |rest| && rest[i] == g;
          NameOrder(x.name, rest[i].name);
        }
      } else if NameLess(f.name, x.name) {
        forall g | g in fs ensures g.name != f.name {
          var i :| 0 <= i < |fs| && fs[i] == g;
          if i > 0 { NameLessTransitive(f.name, x.name, fs[i].name); }
          NameOrder(f.name, fs[i].name);
        }
      } else {
        InsertSets(rest, f);
        InsertAfter(x.name, rest, f);
        AscendingCons(x, Insert(rest, f));
      }
    }
  }

  lemma {:induction false} InsertCounts(fs: seq<Field>, f: Field)
    requires !Has(fs, f.name)
    ensures multiset(Insert(fs, f)) == multiset(fs) + multiset{f}
  {
    if fs != [] {
      assert [fs[0]] + fs[1..] == fs;
      assert forall i | 0 <= i < |fs[1..]| :: fs[1..][i] == fs[i + 1];
      InsertCounts(fs[1..], f);
    }
  }

  /** A field with a new name joins the map: one more field, and the listing stays ascending. */
  lemma InsertFresh(fs: seq<Field>, f: Field)
    requires Ascending(fs) && !Has(fs, f.name)
    ensures Ascending(Insert(fs, f))
    ensures multiset(Insert(fs, f)) == multiset(fs) + multiset{f}
    ensures |Insert(fs, f)| == |fs| + 1
  {
    InsertAscending(fs, f);
    InsertCounts(fs, f);
    assert |multiset(Insert(fs, f))| == |multiset(fs) + multiset{f}|;
  }

  lemma MultisetMembers(a: seq<Field>, b: seq<Field>)
    requires multiset(a) == multiset(b)
    ensures |a| == |b| && forall f :: f in a <==> f in b
  {
    assert |multiset(a)| == |multiset(b)|;
    forall f ensures f in a <==> f in b {
      assert f in multiset(a) <==> f in multiset(b);
    }
  }

  /** There is only one ascending arrangement of a set of fields. */
  lemma {:induction false} AscendingUnique(a: seq<Field>, b: seq<Field>)
    requires Ascending(a) && Ascending(b) && multiset(a) == multiset(b)
    ensures a == b
  {
    MultisetMembers(a, b);
    if a != [] {
      if a[0] != b[0] {
        assert a[0] in b && b[0] in a;
        var i :| 0 <= i < |b| && b[i] == a[0];
        var j :| 0 <= j < |a| && a[j] == b[0];
        NameOrder(a[0].name, b[0].name);
        assert false;
      }
      assert [a[0]] + a[1..] == a && [b[0]] + b[1..] == b;
      AscendingCons(a[0], a[1..]);
      AscendingCons(b[0], b[1..]);
      assert multiset(a[1..]) == multiset(a) - multiset{a[0]} == multiset(b[1..]);
      AscendingUnique(a[1..], b[1..]);
    }
  }

  // ---- The parser ----

  function ReadNat(input: seq<byte>, cursor: nat, width: nat): Option<nat> {
    if cursor + width <= |input| then Some(FromBigEndian(input[cursor..cursor + width])) else None
  }

  function ParseField(input: seq<byte>, cursor: nat): Option<(Field, nat)> {
    var nameLen := ReadNat(input, cursor, 2);
    if nameLen.None? || cursor + 2 + nameLen.value > |input| then None else
    var nameEnd := cursor + 2 + nameLen.value;
    var valueLen := ReadNat(input, nameEnd, 4);
    if valueLen.None? || nameEnd + 4 + valueLen.value > |input| then None else
    var end := nameEnd + 4 + valueLen.value;
    Some((Field(input[cursor + 2..nameEnd], input[nameEnd + 4..end]), end))
  }

  function ParseFields(input: seq<byte>, cursor: nat, count: nat, fields: seq<Field>): Option<(seq<Field>, nat)>
    decreases count
  {
    if count == 0 then Some((fields, cursor)) else
    var one := ParseField(input, cursor);
    if one.None? || Has(fields, one.value.0.name) then None else
    var more := TryInsert(fields, one.value.0);
    if more.Err? then None else ParseFields(input, one.value.1, count - 1, more.value)
  }

  /** What `decode_record` answers, field list and cursor included. */
  function Parse(input: seq<byte>): Result<Record, Error> {
    if !(HEADER_BYTES <= |input| <= MAX_RECORD_BYTES) || input[..8] != MAGIC then Err(CorruptCredential) else
    var generation := FromBigEndian(input[8..16]);
    var revision := FromBigEndian(input[16..24]);
    var active := input[24];
    var count := FromBigEndian(input[25..29]);
    ParseBody(input, generation, revision, active, count)
  }

  function ParseBody(input: seq<byte>, generation: nat, revision: nat, active: byte, count: nat)
    : Result<Record, Error>
  {
    if generation == 0 || active > 1 || (active == 1 && revision == 0) || (active == 0 && revision != 0)
       || count > MAX_FIELDS then Err(CorruptCredential)
    else if active == 0 then
      if count != 0 || |input| != HEADER_BYTES then Err(CorruptCredential) else Ok(Tombstone(generation))
    else
      var fields := ParseFields(input, HEADER_BYTES, count, []);
      if fields.None? || fields.value.1 != |input| then Err(CorruptCredential)
      else Ok(Active(Stored(Version(generation, revision), Credential(fields.value.0))))
  }

  method Take(input: seq<byte>, cursor: nat, len: nat) returns (r: Option<seq<byte>>, next: nat)
    requires cursor <= |input|
    ensures r.Some? <==> cursor + len <= |input|
    ensures r.Some? ==> next == cursor + len && r.value == input[cursor..next]
    ensures next <= |input|
  {
    var end := cursor + len;
    if end > |input| {
      return None, cursor;
    }
    return Some(input[cursor..end]), end;
  }

  method ReadNumber(input: seq<byte>, cursor: nat, width: nat) returns (r: Option<nat>, next: nat)
    requires cursor <= |input|
    ensures r == ReadNat(input, cursor, width) && (r.Some? ==> next == cursor + width)
    ensures next <= |input|
  {
    var bytes;
    bytes, next := Take(input, cursor, width);
    r := if bytes.Some? then Some(FromBigEndian(bytes.value)) else None;
  }

  method ReadField(input: seq<byte>, cursor: nat) returns (r: Option<Field>, next: nat)
    requires cursor <= |input|
    ensures next <= |input|
    ensures ParseField(input, cursor) == if r.Some? then Some((r.value, next)) else None
  {
    var nameLen, name, valueLen, value;
    nameLen, next := ReadNumber(input, cursor, 2);
    if nameLen.None? { return None, cursor; }
    name, next := Take(input, next, nameLen.value);
    if name.None? { return None, cursor; }
    valueLen, next := ReadNumber(input, next, 4);
    if valueLen.None? { return None, cursor; }
    value, next := Take(input, next, valueLen.value);
    if value.None? { return None, cursor; }
    r := Some(Field(name.value, value.value));
  }

  method ReadFields(input: seq<byte>, start: nat, count: nat) returns (r: Option<seq<Field>>, cursor: nat)
    requires start <= |input|
    ensures ParseFields(input, start, count, []) == if r.Some? then Some((r.value, cursor)) else None
  {
    cursor := start;
    var fields := [];
    for k := 0 to count
      invariant cursor <= |input|
      invariant ParseFields(input, start, count, []) == ParseFields(input, cursor, count - k, fields)
    {
      var f;
      f, cursor := ReadField(input, cursor);
      if f.None? || Has(fields, f.value.name) { return None, cursor; }
      var inserted := TryInsert(fields, f.value);
      if inserted.Err? { return None, cursor; }
      fields := inserted.value;
    }
    r := Some(fields);
  }

  /** `StoredRecord::decode`: one cursor walks the input; every malformed input is the same error. */
  method Decode(input: seq<byte>) returns (r: Result<Record, Error>)
    ensures r == Parse(input)
  {
    if |input| > MAX_RECORD_BYTES || |input| < HEADER_BYTES || input[..8] != MAGIC {
      return Err(CorruptCredential);
    }
    var cursor: nat := 8;
    var generation, revision, active, count;
    generation, cursor := ReadNumber(input, cursor, 8);
    revision, cursor := ReadNumber(input, cursor, 8);
    active, cursor := Take(input, cursor, 1);
    var flag := active.value[0];
    if generation.value == 0 || flag > 1 || (flag == 1 && revision.value == 0) || (flag == 0 && revision.value != 0) {
      return Err(CorruptCredential);
    }
    count, cursor := ReadNumber(input, cursor, 4);
    if count.value > MAX_FIELDS {
      return Err(CorruptCredential);
    }
    if flag == 0 {
      if count.value != 0 || cursor != |input| {
        return Err(CorruptCredential);
      }
      return Ok(Tombstone(generation.value));
    }
    var fields;
    fields, cursor := ReadFields(input, cursor, count.value);
    if fields.None? || cursor != |input| {
      return Err(CorruptCredential);
    }
    return Ok(Active(Stored(Version(generation.value, revision.value), Credential(fields.value))));
  }

  // ---- What the format means, without a parser ----

  /** Distinct valid names, none of them in `fields` yet. */
  ghost predicate Fresh(fields: seq<Field>, wire: seq<Field>) {
    && (forall i | 0 <= i < |wire| :: ValidName(wire[i].name) && !Has(fields, wire[i].name))
    && (forall i, j | 0 <= i < j < |wire| :: wire[i].name != wire[j].name)
  }

  /** `wire` lists, in any order and without repetition, exactly the fields of `fields`. */
  ghost predicate Lists(wire: seq<Field>, fields: seq<Field>) {
    && ValidFields(fields)
    && multiset(wire) == multiset(fields)
    && Fresh([], wire)
    && AllMeasurable(wire)
  }

  ghost predicate DenotesFields(input: seq<byte>, st: Stored, wire: seq<Field>) {
    && Lists(wire, st.credential.fields)
    && Representable(Active(st))
    && |wire| <= MAX_FIELDS
    && input == Header(st.version.generation, st.version.revision, 1, |wire|) + FieldsBytes(wire)
  }

  /** `input` is a stored form of `rec`, whichever order its fields were written in. */
  ghost predicate Denotes(input: seq<byte>, rec: Record) {
    && WellFormed(rec)
    && |input| <= MAX_RECORD_BYTES
    && match rec
       case Tombstone(g) => input == Header(g, 0, 0, 0)
       case Active(st) => exists wire :: DenotesFields(input, st, wire)
  }

  // ---- The parser computes exactly that meaning ----

  lemma Slice(input: seq<byte>, a: nat, b: nat, i: nat, j: nat)
    requires a <= b <= |input| && i <= j <= b - a
    ensures input[a..b][i..j] == input[a + i..a + j]
  {
    forall k | 0 <= k < j - i ensures input[a..b][i..j][k] == input[a + i..a + j][k] {
      assert input[a..b][i + k] == input[a + i + k];
    }
  }

  lemma ParseFieldSound(input: seq<byte>, cursor: nat, f: Field, end: nat)
    requires ParseField(input, cursor) == Some((f, end))
    ensures Measurable(f) && cursor + FieldSize(f) == end <= |input| && input[cursor..end] == FieldBytes(f)
  {
    Widths();
    var nameEnd := cursor + 2 + |f.name|;
    BigEndianCanonical(input[cursor..cursor + 2]);
    BigEndianCanonical(input[nameEnd..nameEnd + 4]);
    assert input[cursor..end] ==
           input[cursor..cursor + 2] + input[cursor + 2..nameEnd] + input[nameEnd..nameEnd + 4]
             + input[nameEnd + 4..end];
  }

  lemma ReadNatComplete(input: seq<byte>, cursor: nat, n: nat, width: nat)
    requires n < Pow256(width) && cursor + width <= |input| && input[cursor..cursor + width] == BigEndian(n, width)
    ensures ReadNat(input, cursor, width) == Some(n)
  {
    BigEndianRoundTrip(n, width);
  }

  lemma FieldLayout(f: Field)
    requires Measurable(f)
    ensures |f.name| < Pow256(2) && |f.value| < Pow256(4)
    ensures var b, n := FieldBytes(f), 2 + |f.name|;
      b[..2] == BigEndian(|f.name|, 2) && b[2..n] == f.name && b[n..n + 4] == BigEndian(|f.value|, 4)
        && b[n + 4..] == f.value
  {
    Widths();
  }

  lemma ParseFieldAt(input: seq<byte>, cursor: nat, f: Field, nameEnd: nat, end: nat)
    requires |f.name| < Pow256(2) && |f.value| < Pow256(4)
    requires nameEnd == cursor + 2 + |f.name| && end == nameEnd + 4 + |f.value| <= |input|
    requires input[cursor..cursor + 2] == BigEndian(|f.name|, 2) && input[cursor + 2..nameEnd] == f.name
    requires input[nameEnd..nameEnd + 4] == BigEndian(|f.value|, 4) && input[nameEnd + 4..end] == f.value
    ensures ParseField(input, cursor) == Some((f, end))
  {
    ReadNatComplete(input, cursor, |f.name|, 2);
    ReadNatComplete(input, nameEnd, |f.value|, 4);
  }

  lemma ParseFieldComplete(input: seq<byte>, cursor: nat, f: Field, end: nat)
    requires Measurable(f) && cursor + FieldSize(f) == end <= |input| && input[cursor..end] == FieldBytes(f)
    ensures ParseField(input, cursor) == Some((f, end))
  {
    FieldLayout(f);
    var n := 2 + |f.name|;
    Slice(input, cursor, end, 0, 2);
    Slice(input, cursor, end, 2, n);
    Slice(input, cursor, end, n, n + 4);
    Slice(input, cursor, end, n + 4, end - cursor);
    ParseFieldAt(input, cursor, f, cursor + n, end);
  }

  lemma {:induction false} HasInsert(fs: seq<Field>, f: Field, name: seq<byte>)
    ensures Has(Insert(fs, f), name) <==> name == f.name || Has(fs, name)
  {
    HasOne(f, name);
    if fs != [] {
      var rest := fs[1..];
      HasInsert(rest, f, name);
      assert fs == [fs[0]] + rest;
      HasOne(fs[0], name);
      HasSplit([fs[0]], rest, name);
      HasSplit([f], rest, name);
      HasSplit([f], fs, name);
      HasSplit([fs[0]], Insert(rest, f), name);
    }
  }

  lemma HasOne(f: Field, name: seq<byte>)
    ensures Has([f], name) <==> name == f.name
  {
    assert [f][0] == f;
  }

  lemma HasSplit(a: seq<Field>, b: seq<Field>, name: seq<byte>)
    ensures Has(a + b, name) <==> Has(a, name) || Has(b, name)
  {
    if Has(a, name) {
      var i :| 0 <= i < |a| && a[i].name == name;
      assert (a + b)[i].name == name;
    }
    if Has(b, name) {
      var i :| 0 <= i < |b| && b[i].name == name;
      assert (a + b)[|a| + i].name == name;
    }
  }

  /** The layout alone: the fields listed from the cursor on, in wire order, and where they end. */
  function ParseList(input: seq<byte>, cursor: nat, count: nat): Option<(seq<Field>, nat)>
    decreases count
  {
    if count == 0 then Some(([], cursor)) else
    var one := ParseField(input, cursor);
    if one.None? then None else
    var more := ParseList(input, one.value.1, count - 1);
    if more.None? then None else Some(([one.value.0] + more.value.0, more.value.1))
  }

  /** The map alone: a listed field that is refused or already present spoils the whole list. */
  function Collect(fields: seq<Field>, wire: seq<Field>): Option<seq<Field>>
    decreases |wire|
  {
    if wire == [] then Some(fields)
    else if Has(fields, wire[0].name) || TryInsert(fields, wire[0]).Err? then None
    else Collect(Insert(fields, wire[0]), wire[1..])
  }

  lemma {:induction false} ParseFieldsSplit(input: seq<byte>, cursor: nat, count: nat, fields: seq<Field>)
    ensures var list := ParseList(input, cursor, count);
      ParseFields(input, cursor, count, fields) ==
      if list.None? || Collect(fields, list.value.0).None? then None
      else Some((Collect(fields, list.value.0).value, list.value.1))
    decreases count
  {
    if count > 0 {
      var one := ParseField(input, cursor);
      if one.Some? {
        var list := ParseList(input, one.value.1, count - 1);
        if list.Some? {
          assert ([one.value.0] + list.value.0)[1..] == list.value.0;
        }
        if !Has(fields, one.value.0.name) && TryInsert(fields, one.value.0).Ok? {
          ParseFieldsSplit(input, one.value.1, count - 1, Insert(fields, one.value.0));
        }
      }
    }
  }

  lemma {:induction false} ParseListSound(input: seq<byte>, cursor: nat, count: nat, wire: seq<Field>, end: nat)
    requires cursor <= |input| && ParseList(input, cursor, count) == Some((wire, end))
    ensures |wire| == count && AllMeasurable(wire)
    ensures cursor + FieldsSize(wire) == end <= |input| && input[cursor..end] == FieldsBytes(wire)
    decreases count
  {
    if count > 0 {
      var (f, next) := ParseField(input, cursor).value;
      ParseFieldSound(input, cursor, f, next);
      ParseListSound(input, next, count - 1, wire[1..], end);
      assert input[cursor..end] == input[cursor..next] + input[next..end];
    }
  }

  lemma {:induction false} ParseListComplete(input: seq<byte>, cursor: nat, wire: seq<Field>)
    requires AllMeasurable(wire) && cursor + FieldsSize(wire) <= |input|
    requires input[cursor..cursor + FieldsSize(wire)] == FieldsBytes(wire)
    ensures ParseList(input, cursor, |wire|) == Some((wire, cursor + FieldsSize(wire)))
    decreases |wire|
  {
    if wire != [] {
      var f, rest, next := wire[0], wire[1..], cursor + FieldSize(wire[0]);
      assert [f] + rest == wire;
      FieldsHead(input, cursor, wire);
      ParseFieldComplete(input, cursor, f, next);
      ParseListComplete(input, next, rest);
    }
  }

  lemma {:induction false} InsertKeepsNames(fs: seq<Field>, f: Field)
    requires ValidName(f.name) && forall i | 0 <= i < |fs| :: ValidName(fs[i].name)
    ensures forall i | 0 <= i < |Insert(fs, f)| :: ValidName(Insert(fs, f)[i].name)
  {
    if fs != [] {
      InsertKeepsNames(fs[1..], f);
    }
  }

  lemma {:induction false} CollectSound(fields: seq<Field>, wire: seq<Field>)
    requires ValidFields(fields) && Collect(fields, wire).Some?
    ensures ValidFields(Collect(fields, wire).value)
    ensures multiset(Collect(fields, wire).value) == multiset(fields) + multiset(wire)
    decreases |wire|
  {
    if wire != [] {
      InsertFresh(fields, wire[0]);
      InsertKeepsNames(fields, wire[0]);
      CollectSound(Insert(fields, wire[0]), wire[1..]);
      assert wire == [wire[0]] + wire[1..];
    }
  }

  lemma {:induction false} CollectFresh(fields: seq<Field>, wire: seq<Field>)
    requires Collect(fields, wire).Some?
    ensures Fresh(fields, wire)
    decreases |wire|
  {
    if wire != [] {
      var rest := wire[1..];
      CollectFresh(Insert(fields, wire[0]), rest);
      assert forall i | 1 <= i < |wire| :: wire[i] == rest[i - 1];
      forall i | 0 <= i < |rest| ensures !Has(fields, rest[i].name) && rest[i].name != wire[0].name {
        HasInsert(fields, wire[0], rest[i].name);
      }
    }
  }

  lemma FreshRest(fields: seq<Field>, wire: seq<Field>)
    requires wire != [] && Fresh(fields, wire)
    ensures Fresh(Insert(fields, wire[0]), wire[1..])
  {
    var rest := wire[1..];
    assert forall i | 0 <= i < |rest| :: rest[i] == wire[i + 1];
    forall i | 0 <= i < |rest| ensures !Has(Insert(fields, wire[0]), rest[i].name) {
      HasInsert(fields, wire[0], rest[i].name);
    }
  }

  /** The bytes of a nonempty list start with its first field and go on with the others. */
  lemma FieldsHead(input: seq<byte>, cursor: nat, wire: seq<Field>)
    requires wire != [] && AllMeasurable(wire)
    requires cursor + FieldsSize(wire) <= |input| && input[cursor..cursor + FieldsSize(wire)] == FieldsBytes(wire)
    ensures var next := cursor + FieldSize(wire[0]);
      && next + FieldsSize(wire[1..]) == cursor + FieldsSize(wire)
      && input[cursor..next] == FieldBytes(wire[0])
      && input[next..next + FieldsSize(wire[1..])] == FieldsBytes(wire[1..])
  {
    var b, n, end := FieldsBytes(wire), FieldSize(wire[0]), cursor + FieldsSize(wire);
    assert b[..n] == FieldBytes(wire[0]) && b[n..] == FieldsBytes(wire[1..]);
    Slice(input, cursor, end, 0, n);
    Slice(input, cursor, end, n, |b|);
  }

  lemma {:induction false} CollectComplete(fields: seq<Field>, wire: seq<Field>)
    requires ValidFields(fields) && Fresh(fields, wire) && |fields| + |wire| <= MAX_FIELDS
    ensures Collect(fields, wire).Some?
    decreases |wire|
  {
    if wire != [] {
      InsertFresh(fields, wire[0]);
      InsertKeepsNames(fields, wire[0]);
      FreshRest(fields, wire);
      CollectComplete(Insert(fields, wire[0]), wire[1..]);
    }
  }

  // ---- Headers ----

  lemma HeaderSound(input: seq<byte>)
    requires |input| >= HEADER_BYTES && input[..8] == MAGIC
    ensures FromBigEndian(input[8..16]) < U64_LIMIT && FromBigEndian(input[16..24]) < U64_LIMIT
    ensures FromBigEndian(input[25..29]) < 0x1_0000_0000
    ensures input[..HEADER_BYTES] ==
            Header(FromBigEndian(input[8..16]), FromBigEndian(input[16..24]), input[24], FromBigEndian(input[25..29]))
  {
    hide FromBigEndian, BigEndian;
    Widths();
    BigEndianCanonical(input[8..16]);
    BigEndianCanonical(input[16..24]);
    BigEndianCanonical(input[25..29]);
    assert input[..HEADER_BYTES] == input[..8] + input[8..16] + input[16..24] + [input[24]] + input[25..29];
  }

  lemma Parts(a: seq<byte>, b: seq<byte>, c: seq<byte>, d: seq<byte>, e: seq<byte>)
    requires |a| == |b| == |c| == 8 && |d| == 1 && |e| == 4
    ensures var h := a + b + c + d + e;
      h[..8] == a && h[8..16] == b && h[16..24] == c && h[24] == d[0] && h[25..29] == e
  {
  }

  lemma HeaderComplete(input: seq<byte>, generation: nat, revision: nat, active: byte, count: nat)
    requires generation < U64_LIMIT && revision < U64_LIMIT && count < 0x1_0000_0000
    requires HEADER_BYTES <= |input| && input[..HEADER_BYTES] == Header(generation, revision, active, count)
    ensures input[..8] == MAGIC && FromBigEndian(input[8..16]) == generation && FromBigEndian(input[16..24]) == revision
    ensures input[24] == active && FromBigEndian(input[25..29]) == count
  {
    Widths();
    Parts(MAGIC, BigEndian(generation, 8), BigEndian(revision, 8), [active], BigEndian(count, 4));
    hide BigEndian, FromBigEndian;
    assert input[24] == input[..HEADER_BYTES][24];
    Slice(input, 0, HEADER_BYTES, 0, 8);
    Slice(input, 0, HEADER_BYTES, 8, 16);
    Slice(input, 0, HEADER_BYTES, 16, 24);
    Slice(input, 0, HEADER_BYTES, 25, 29);
    BigEndianRoundTrip(generation, 8);
    BigEndianRoundTrip(revision, 8);
    BigEndianRoundTrip(count, 4);
  }

  // ---- Main results ----

  lemma HeaderParses(input: seq<byte>, generation: nat, revision: nat, active: byte, count: nat)
    requires generation < U64_LIMIT && revision < U64_LIMIT && count < 0x1_0000_0000
    requires HEADER_BYTES <= |input| <= MAX_RECORD_BYTES
    requires input[..HEADER_BYTES] == Header(generation, revision, active, count)
    ensures Parse(input) == ParseBody(input, generation, revision, active, count)
  {
    HeaderComplete(input, generation, revision, active, count);
  }

  lemma BodyParses(header: seq<byte>, wire: seq<Field>)
    requires |header| == HEADER_BYTES && AllMeasurable(wire)
    ensures var input := header + FieldsBytes(wire);
      ParseFields(input, HEADER_BYTES, |wire|, []) ==
      if Collect([], wire).Some? then Some((Collect([], wire).value, |input|)) else None
  {
    var input := header + FieldsBytes(wire);
    assert input[HEADER_BYTES..HEADER_BYTES + FieldsSize(wire)] == FieldsBytes(wire);
    ParseListComplete(input, HEADER_BYTES, wire);
    ParseFieldsSplit(input, HEADER_BYTES, |wire|, []);
  }

  lemma CollectIff(wire: seq<Field>)
    ensures |wire| <= 64 ==> (Collect([], wire).Some? <==> Fresh([], wire))
  {
    if Collect([], wire).Some? {
      CollectFresh([], wire);
    } else if |wire| <= MAX_FIELDS && Fresh([], wire) {
      CollectComplete([], wire);
    }
  }

  /** A byte string of the active form is accepted exactly when its numbers and its field list are legal. */
  lemma ActiveImages(generation: nat, revision: nat, wire: seq<Field>)
    requires generation < U64_LIMIT && revision < U64_LIMIT && AllMeasurable(wire) && |wire| < 0x1_0000_0000
    requires HEADER_BYTES + FieldsSize(wire) <= MAX_RECORD_BYTES
    ensures var answer := Parse(Header(generation, revision, 1, |wire|) + FieldsBytes(wire));
      if generation > 0 && revision > 0 && |wire| <= 64 && Fresh([], wire)
      then Collect([], wire).Some? &&
           answer == Ok(Active(Stored(Version(generation, revision), Credential(Collect([], wire).value))))
      else answer == Err(CorruptCredential)
  {
    var header := Header(generation, revision, 1, |wire|);
    var input := header + FieldsBytes(wire);
    assert input[..HEADER_BYTES] == header;
    HeaderParses(input, generation, revision, 1, |wire|);
    BodyParses(header, wire);
    CollectIff(wire);
  }

  /** Soundness: an accepted input denotes the record it was decoded to. */
  lemma DecodeSound(input: seq<byte>, rec: Record)
    requires Parse(input) == Ok(rec)
    ensures Denotes(input, rec)
  {
    hide FromBigEndian, BigEndian, ParseList, ParseFields, Collect;
    HeaderSound(input);
    var count := FromBigEndian(input[25..29]);
    assert input == input[..HEADER_BYTES] + input[HEADER_BYTES..];
    if rec.Active? {
      var fields := rec.stored.credential.fields;
      ParseFieldsSplit(input, HEADER_BYTES, count, []);
      var wire := ParseList(input, HEADER_BYTES, count).value.0;
      ParseListSound(input, HEADER_BYTES, count, wire, |input|);
      CollectSound([], wire);
      CollectFresh([], wire);
      assert input[HEADER_BYTES..] == input[HEADER_BYTES..|input|];
      assert DenotesFields(input, rec.stored, wire);
    }
  }

  /** Completeness: every stored form of a record, in any field order, is decoded to it. */
  lemma DecodeComplete(input: seq<byte>, rec: Record)
    requires Denotes(input, rec)
    ensures Parse(input) == Ok(rec)
  {
    match rec
    case Tombstone(g) =>
      assert input[..HEADER_BYTES] == input;
      HeaderComplete(input, g, 0, 0, 0);
    case Active(st) =>
      var wire :| DenotesFields(input, st, wire);
      ActiveImages(st.version.generation, st.version.revision, wire);
      CollectComplete([], wire);
      CollectSound([], wire);
      AscendingUnique(Collect([], wire).value, st.credential.fields);
  }

  lemma {:induction false} AscendingFresh(fs: seq<Field>)
    requires ValidFields(fs)
    ensures Fresh([], fs)
  {
    forall i, j | 0 <= i < j < |fs| ensures fs[i].name != fs[j].name {
      NameOrder(fs[i].name, fs[j].name);
    }
  }

  /** Round trip: what `encode` produced decodes to the same record exactly when the store could have issued it. */
  lemma RoundTrip(rec: Record)
    requires Representable(rec) && Fits(rec)
    ensures Parse(Image(rec)) == if WellFormed(rec) then Ok(rec) else Err(CorruptCredential)
  {
    match rec
    case Tombstone(g) =>
      assert Image(rec)[..HEADER_BYTES] == Image(rec);
      HeaderComplete(Image(rec), g, 0, 0, 0);
    case Active(st) =>
      var fields := st.credential.fields;
      FieldsMeasurable(fields);
      AscendingFresh(fields);
      ActiveImages(st.version.generation, st.version.revision, fields);
      CollectComplete([], fields);
      CollectSound([], fields);
      AscendingUnique(Collect([], fields).value, fields);
  }

  /** The four bytes of a number below 2^32, most significant first. */
  function Quad(n: nat): seq<int> {
    [n / 0x100_0000, n / 0x1_0000 % 0x100, n / 0x100 % 0x100, n % 0x100]
  }

  /** At `pos` lies one field: two bytes of name length, the name, four bytes of value length, the value. */
  predicate FieldAt(b: seq<byte>, pos: nat, f: Field) {
    var value := pos + 2 + |f.name|;
    && value + 4 + |f.value| <= |b|
    && b[pos] == |f.name| / 0x100 && b[pos + 1] == |f.name| % 0x100 && b[pos + 2..value] == f.name
    && b[value..value + 4] == Quad(|f.value|) && b[value + 4..value + 4 + |f.value|] == f.value
  }

  /** From `pos` to the end lie these fields, one after another. */
  predicate FieldsAt(b: seq<byte>, pos: nat, fs: seq<Field>)
    decreases |fs|
  {
    if fs == [] then pos == |b|
    else FieldAt(b, pos, fs[0]) && FieldsAt(b, pos + 6 + |fs[0].name| + |fs[0].value|, fs[1..])
  }

  /** The 29 bytes a record begins with. */
  predicate HeaderAt(b: seq<byte>, generation: nat, revision: nat, active: nat, count: nat) {
    && |b| >= 29 && b[..8] == [85, 76, 76, 65, 71, 69, 67, 50]
    && b[8..12] == Quad(generation / 0x1_0000_0000) && b[12..16] == Quad(generation % 0x1_0000_0000)
    && b[16..20] == Quad(revision / 0x1_0000_0000) && b[20..24] == Quad(revision % 0x1_0000_0000)
    && b[24] == active && b[25..29] == Quad(count)
  }

  /** Where everything in the image of a record is, byte by byte. */
  lemma ImageLayout(rec: Record)
    requires Representable(rec) && Fits(rec)
    ensures match rec
            case Active(st) =>
              && HeaderAt(Image(rec), st.version.generation, st.version.revision, 1, |st.credential.fields|)
              && FieldsAt(Image(rec), 29, st.credential.fields)
            case Tombstone(g) => HeaderAt(Image(rec), g, 0, 0, 0) && |Image(rec)| == 29
  {
    match rec
    case Tombstone(g) =>
      HeaderLayout(g, 0, 0, 0, []);
      assert Header(g, 0, 0, 0) + [] == Header(g, 0, 0, 0);
    case Active(st) =>
      var fs := st.credential.fields;
      FieldsMeasurable(fs);
      HeaderLayout(st.version.generation, st.version.revision, 1, |fs|, FieldsBytes(fs));
      FieldsLayout(Header(st.version.generation, st.version.revision, 1, |fs|), fs);
  }

  lemma HeaderLayout(generation: nat, revision: nat, active: byte, count: nat, rest: seq<byte>)
    requires generation < U64_LIMIT && revision < U64_LIMIT && count < 0x1_0000_0000
    ensures HeaderAt(Header(generation, revision, active, count) + rest, generation, revision, active, count)
  {
    var b := Header(generation, revision, active, count) + rest;
    EightBytes(generation);
    EightBytes(revision);
    FourBytes(generation / 0x1_0000_0000);
    FourBytes(generation % 0x1_0000_0000);
    FourBytes(revision / 0x1_0000_0000);
    FourBytes(revision % 0x1_0000_0000);
    FourBytes(count);
    hide BigEndian, Pow256;
  }

  lemma {:induction false} FieldsLayout(front: seq<byte>, fs: seq<Field>)
    requires AllMeasurable(fs)
    ensures FieldsAt(front + FieldsBytes(fs), |front|, fs)
    decreases |fs|
  {
    if fs != [] {
      var f, rest := fs[0], FieldsBytes(fs[1..]);
      FieldLayoutAt(front, f, rest);
      FieldsLayout(front + FieldBytes(f), fs[1..]);
      assert front + FieldsBytes(fs) == front + FieldBytes(f) + rest;
    }
  }

  lemma FieldLayoutAt(front: seq<byte>, f: Field, rest: seq<byte>)
    requires Measurable(f)
    ensures FieldAt(front + FieldBytes(f) + rest, |front|, f)
  {
    TwoBytes(|f.name|);
    FourBytes(|f.value|);
    hide BigEndian, Pow256;
  }

  lemma {:induction false} FieldsSizeTotal(a: seq<Field>, b: seq<Field>)
    requires multiset(a) == multiset(b)
    ensures FieldsSize(a) == FieldsSize(b)
  {
    MultisetMembers(a, b);
    if a != [] {
      assert a[0] in b;
      var i :| 0 <= i < |b| && b[i] == a[0];
      var rest := b[..i] + b[i + 1..];
      assert [a[0]] + a[1..] == a;
      assert b[..i] + ([b[i]] + b[i + 1..]) == b;
      assert multiset(rest) == multiset(b) - multiset{a[0]} == multiset(a[1..]);
      FieldsSizeTotal(a[1..], rest);
      FieldsSizeRemove(b, i);
    }
  }

  lemma {:induction false} FieldsSizeRemove(fs: seq<Field>, i: nat)
    requires i < |fs|
    ensures FieldsSize(fs) == FieldSize(fs[i]) + FieldsSize(fs[..i] + fs[i + 1..])
  {
    var rest := fs[..i] + fs[i + 1..];
    if i == 0 {
      assert rest == fs[1..];
    } else {
      FieldsSizeRemove(fs[1..], i - 1);
      assert rest[1..] == fs[1..][..i - 1] + fs[1..][i..];
    }
  }

  /** Canonical form: an accepted input is exactly as long as the re-encoding of its record, which decodes to it. */
  lemma Canonical(input: seq<byte>, rec: Record)
    requires Parse(input) == Ok(rec)
    ensures Representable(rec) && Fits(rec) && |Image(rec)| == |input|
    ensures Parse(Image(rec)) == Ok(rec)
  {
    DecodeSound(input, rec);
    if rec.Active? {
      var wire :| DenotesFields(input, rec.stored, wire);
      FieldsSizeTotal(wire, rec.stored.credential.fields);
    }
    RoundTrip(rec);
  }

  /** A field list that repeats a name is never accepted, whatever the values. */
  lemma DuplicateRejected(generation: nat, revision: nat, wire: seq<Field>, i: nat, j: nat)
    requires generation < U64_LIMIT && revision < U64_LIMIT && AllMeasurable(wire) && |wire| < 0x1_0000_0000
    requires HEADER_BYTES + FieldsSize(wire) <= MAX_RECORD_BYTES
    requires i < j < |wire| && wire[i].name == wire[j].name
    ensures Parse(Header(generation, revision, 1, |wire|) + FieldsBytes(wire)) == Err(CorruptCredential)
  {
    ActiveImages(generation, revision, wire);
  }

  /** Prefix-freedom: no accepted record is followed by further bytes in another accepted record. */
  lemma PrefixFree(input: seq<byte>, more: seq<byte>)
    requires Parse(input).Ok? && Parse(input + more).Ok?
    ensures more == []
  {
    var longer := input + more;
    SamePrefix(input, more);
    var count := FromBigEndian(input[25..29]);
    if Parse(input).value.Active? {
      ParseFieldsSplit(input, HEADER_BYTES, count, []);
      ParseFieldsSplit(longer, HEADER_BYTES, count, []);
      var wire := ParseList(input, HEADER_BYTES, count).value.0;
      ParseListSound(input, HEADER_BYTES, count, wire, |input|);
      ParseListComplete(longer, HEADER_BYTES, wire);
    }
  }

  lemma SamePrefix(input: seq<byte>, more: seq<byte>)
    requires |input| >= HEADER_BYTES
    ensures var longer := input + more;
      && longer[8..16] == input[8..16] && longer[16..24] == input[16..24] && longer[25..29] == input[25..29]
      && longer[24] == input[24] && longer[HEADER_BYTES..|input|] == input[HEADER_BYTES..|input|]
  {
  }
}
