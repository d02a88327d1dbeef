/** The four store operations as they act on one record, and their byte-level implementation. */
module VersionedStore {
  import opened Basics
  import opened RecordCodec

  /** The lexicographic order in which records of one key succeed each other; a tombstone counts as revision 0. */
  function Rank(rec: Record): Version {
    match rec
    case Active(st) => st.version
    case Tombstone(g) => Version(g, 0)
  }

  predicate Before(a: Version, b: Version) {
    a.generation < b.generation || (a.generation == b.generation && a.revision < b.revision)
  }

  /** What the backend holds under a key. */
  datatype Slot = Absent | Garbled | Holds(rec: Record)

  datatype Request = Get | Set(credential: Credential) | Replace(expected: Version, credential: Credential) | Delete

  datatype Outcome = Loaded(stored: Stored) | Created(stored: Stored) | Replaced(stored: Stored)
                   | VersionConflict | Deleted | Failed(error: Error)

  datatype Plan = Answer(outcome: Outcome) | Put(rec: Record, outcome: Outcome)

  /** A write is attempted only with a record that can be encoded. */
  function Write(rec: Record, outcome: Outcome): Plan {
    if Fits(rec) then Put(rec, outcome) else Answer(Failed(CredentialTooLarge))
  }

  /** What an operation decides once it has read the slot. */
  function Decide(q: Request, slot: Slot): Plan {
    match slot
    case Garbled => Answer(Failed(CorruptCredential))
    case Absent => (
      match q
      case Set(c) => var st := Stored(Version(1, 1), c); Write(Active(st), Created(st))
      case _ => Answer(Failed(NotFound)))
    case Holds(Tombstone(g)) => (
      match q
      case Set(c) => var st := Stored(Version(g, 1), c); Write(Active(st), Created(st))
      case _ => Answer(Failed(NotFound)))
    case Holds(Active(cur)) => (
      match q
      case Get => Answer(Loaded(cur))
      case Set(c) =>
        if cur.version.revision + 1 >= U64_LIMIT then Answer(Failed(RevisionOverflow)) else
        var st := Stored(Version(cur.version.generation, cur.version.revision + 1), c);
        Write(Active(st), Created(st))
      case Replace(expected, c) =>
        if cur.version != expected then Answer(VersionConflict)
        else if expected.revision + 1 >= U64_LIMIT then Answer(Failed(RevisionOverflow)) else
        var st := Stored(Version(expected.generation, expected.revision + 1), c);
        Write(Active(st), Replaced(st))
      case Delete =>
        if cur.version.generation + 1 >= U64_LIMIT then Answer(Failed(GenerationOverflow)) else
        Write(Tombstone(cur.version.generation + 1), Deleted))
  }

  /** A backend write lands, is refused, or lands although it reports a failure. */
  datatype WriteVerdict = Lands | Refused(fault: Fault) | LandsButFails(late: Fault)

  /** What the caller of the write is told. */
  function Reported(verdict: WriteVerdict): Result<(), Error> {
    match verdict
    case Lands => Ok(())
    case Refused(f) => Err(Backend(f))
    case LandsButFails(f) => Err(Backend(f))
  }

  /** How the backend behaves during one operation. */
  datatype Weather = Weather(read: Option<Fault>, write: WriteVerdict)

  /** The operation as one atomic action: the slot it leaves and the answer it gives. */
  function Serve(q: Request, slot: Slot, w: Weather): (Slot, Outcome) {
    if w.read.Some? then (slot, Failed(Backend(w.read.value))) else
    match Decide(q, slot)
    case Answer(o) => (slot, o)
    case Put(rec, o) =>
      match w.write
      case Lands => (Holds(rec), o)
      case Refused(f) => (slot, Failed(Backend(f)))
      case LandsButFails(f) => (Holds(rec), Failed(Backend(f)))
  }

  predicate ValidRequest(q: Request) {
    match q
    case Set(c) => ValidFields(c.fields)
    case Replace(_, c) => ValidFields(c.fields)
    case _ => true
  }

  predicate ValidSlot(slot: Slot) {
    slot.Holds? ==> WellFormed(slot.rec)
  }

  /** Everything an operation ever writes is well formed, fits, and ranks after the record it supersedes. */
  lemma PutsMoveUp(q: Request, slot: Slot)
    requires ValidRequest(q) && ValidSlot(slot) && Decide(q, slot).Put?
    ensures var rec := Decide(q, slot).rec;
      WellFormed(rec) && Fits(rec) && !slot.Garbled? && (slot.Holds? ==> Before(Rank(slot.rec), Rank(rec)))
  {
  }

  // ---- What each operation does, case by case ----

  const UNDISTURBED := Weather(None, Lands)

  /** Reading changes nothing and answers with the record there is. */
  lemma GetServed(slot: Slot, w: Weather)
    ensures var (after, o) := Serve(Get, slot, w);
      && after == slot
      && (w.read.Some? ==> o == Failed(Backend(w.read.value)))
      && (w.read.None? && slot == Garbled ==> o == Failed(CorruptCredential))
      && (w.read.None? && (slot == Absent || (slot.Holds? && slot.rec.Tombstone?)) ==> o == Failed(NotFound))
      && (w.read.None? && slot.Holds? && slot.rec.Active? ==> o == Loaded(slot.rec.stored))
  {
  }

  /** The version a `set` issues: the first, the first after a deletion, or the next revision while there is one. */
  function SetVersion(slot: Slot): Option<Version> {
    match slot
    case Holds(Active(cur)) =>
      if cur.version.revision >= U64_LIMIT - 1 then None
      else Some(Version(cur.version.generation, cur.version.revision + 1))
    case Holds(Tombstone(generation)) => Some(Version(generation, 1))
    case _ => Some(Version(1, 1))
  }

  /** Why a write that was decided on may fail, and what it leaves. */
  ghost predicate Written(rec: Record, before: Slot, after: Slot, o: Outcome, success: Outcome, write: WriteVerdict) {
    if EncodedSize(rec) > 1024 * 1024 then after == before && o == Failed(CredentialTooLarge)
    else
      && after == (if write.Refused? then before else Holds(rec))
      && o == (match write
               case Lands => success
               case Refused(f) => Failed(Backend(f))
               case LandsButFails(f) => Failed(Backend(f)))
  }

  /** A `set` stores the credential it was given, under the version that is due, or says why it did not. */
  lemma SetServed(credential: Credential, slot: Slot, w: Weather)
    ensures var (after, o) := Serve(Set(credential), slot, w);
      && (w.read.Some? ==> after == slot && o == Failed(Backend(w.read.value)))
      && (w.read.None? && slot == Garbled ==> after == slot && o == Failed(CorruptCredential))
      && (w.read.None? && slot != Garbled && SetVersion(slot).None? ==> after == slot && o == Failed(RevisionOverflow))
      && (w.read.None? && slot != Garbled && SetVersion(slot).Some? ==>
            var st := Stored(SetVersion(slot).value, credential);
            Written(Active(st), slot, after, o, Created(st), w.write))
  {
  }

  /** A `replace` stores its credential under the next revision, and only over the very version it expects. */
  lemma ReplaceServed(expected: Version, credential: Credential, slot: Slot, w: Weather)
    ensures var (after, o) := Serve(Replace(expected, credential), slot, w);
      && (w.read.Some? ==> after == slot && o == Failed(Backend(w.read.value)))
      && (w.read.None? && slot == Garbled ==> after == slot && o == Failed(CorruptCredential))
      && (w.read.None? && (slot == Absent || (slot.Holds? && slot.rec.Tombstone?)) ==>
            after == slot && o == Failed(NotFound))
      && (w.read.None? && slot.Holds? && slot.rec.Active? && slot.rec.stored.version != expected ==>
            after == slot && o == VersionConflict)
      && (w.read.None? && slot.Holds? && slot.rec.Active? && slot.rec.stored.version == expected ==>
            if expected.revision >= U64_LIMIT - 1 then after == slot && o == Failed(RevisionOverflow)
            else
              var st := Stored(Version(expected.generation, expected.revision + 1), credential);
              Written(Active(st), slot, after, o, Replaced(st), w.write))
  {
  }

  /** A `delete` leaves the tombstone of the next generation. */
  lemma DeleteServed(slot: Slot, w: Weather)
    ensures var (after, o) := Serve(Delete, slot, w);
      && (w.read.Some? ==> after == slot && o == Failed(Backend(w.read.value)))
      && (w.read.None? && slot == Garbled ==> after == slot && o == Failed(CorruptCredential))
      && (w.read.None? && (slot == Absent || (slot.Holds? && slot.rec.Tombstone?)) ==>
            after == slot && o == Failed(NotFound))
      && (w.read.None? && slot.Holds? && slot.rec.Active? ==>
            var generation := slot.rec.stored.version.generation;
            if generation >= U64_LIMIT - 1 then after == slot && o == Failed(GenerationOverflow)
            else Written(Tombstone(generation + 1), slot, after, o, Deleted, w.write))
  {
  }

  /** What was set or replaced is what the next undisturbed `get` loads. */
  lemma StoredIsLoaded(q: Request, slot: Slot, w: Weather)
    requires Serve(q, slot, w).1.Created? || Serve(q, slot, w).1.Replaced?
    ensures var (after, o) := Serve(q, slot, w);
      && (q.Set? || q.Replace?) && o.stored.credential == q.credential
      && Serve(Get, after, UNDISTURBED) == (after, Loaded(o.stored))
  {
    match q
    case Set(credential) => SetServed(credential, slot, w);
    case Replace(expected, credential) => ReplaceServed(expected, credential, slot, w);
    case _ =>
  }

  /** A deleted key reads as missing, and the `set` that revives it starts the generation after the deleted one. */
  lemma DeletedIsRevivedLater(slot: Slot, w: Weather, credential: Credential)
    requires Serve(Delete, slot, w).1.Deleted? && EncodedSize(Active(Stored(Version(0, 0), credential))) <= 1024 * 1024
    ensures var gone := Serve(Delete, slot, w).0;
      && slot.Holds? && slot.rec.Active?
      && Serve(Get, gone, UNDISTURBED) == (gone, Failed(NotFound))
      && Serve(Set(credential), gone, UNDISTURBED).1 ==
           Created(Stored(Version(slot.rec.stored.version.generation + 1, 1), credential))
  {
    DeleteServed(slot, w);
    SetServed(credential, Serve(Delete, slot, w).0, UNDISTURBED);
  }

  // ---- The implementation over raw bytes ----

  datatype CredentialKey = CredentialKey(provider: seq<byte>, accountId: seq<byte>)

  const NAMESPACE: seq<byte> :=
    [0x64, 0x65, 0x76, 0x2E, 0x6F, 0x6E, 0x65, 0x76, 0x6F, 0x6B, 0x65, 0x2E, 0x75, 0x6C, 0x6C, 0x61, 0x67, 0x65,
     0x2E, 0x63, 0x72, 0x65, 0x64, 0x65, 0x6E, 0x74, 0x69, 0x61, 0x6C, 0x73] // "dev.onevoke.ullage.credentials"

  /** Accepted key components hold no control character, so in particular no zero byte. */
  predicate Component(s: seq<byte>) {
    0 < |s| <= 255 && forall i | 0 <= i < |s| :: s[i] != 0
  }

  function StableBytes(key: CredentialKey): seq<byte> {
    NAMESPACE + [0] + key.provider + [0] + key.accountId
  }

  lemma NotShorter(x: seq<byte>, y: seq<byte>, s: seq<byte>)
    requires Component(x) && x <= s && y + [0] <= s
    ensures |x| <= |y|
  {
    assert (y + [0])[|y|] == 0;
    assert s[|y|] == 0;
    assert forall i | 0 <= i < |x| :: x[i] == s[i];
  }

  /** Two accounts never share a stable name, however their parts are split. */
  lemma StableBytesInjective(a: CredentialKey, b: CredentialKey)
    requires Component(a.provider) && Component(b.provider) && StableBytes(a) == StableBytes(b)
    ensures a == b
  {
    var n := |NAMESPACE| + 1;
    var p, q := |a.provider|, |b.provider|;
    var s := StableBytes(a);
    assert s[n + p] == 0 && s[n + q] == 0;
    assert a.provider == s[n..n + p] && b.provider == s[n..n + q];
    NotShorter(a.provider, b.provider, s[n..]);
    NotShorter(b.provider, a.provider, s[n..]);
    assert s[n..n + p] == a.provider && s[n..n + p] == b.provider;
    assert s[n + p + 1..] == a.accountId && s[n + p + 1..] == b.accountId;
  }

  function SlotOf(records: map<CredentialKey, seq<byte>>, key: CredentialKey): (slot: Slot)
  {
    if key !in records then Absent
    else match Parse(records[key])
      case Ok(rec) => Holds(rec)
      case Err(_) => Garbled
  }

  lemma SlotsValid(records: map<CredentialKey, seq<byte>>, key: CredentialKey)
    ensures ValidSlot(SlotOf(records, key))
  {
    if SlotOf(records, key).Holds? {
      DecodeSound(records[key], SlotOf(records, key).rec);
    }
  }

  class CredentialBackend {
    var records: map<CredentialKey, seq<byte>>

    constructor ()
      ensures records == map[]
    {
      records := map[];
    }

    method Read(key: CredentialKey, fault: Option<Fault>) returns (r: Result<seq<byte>, Error>)
      ensures fault.Some? ==> r == Err(Backend(fault.value))
      ensures fault.None? ==> r == if key in records then Ok(records[key]) else Err(NotFound)
    {
      if fault.Some? { return Err(Backend(fault.value)); }
      if key !in records { return Err(NotFound); }
      return Ok(records[key]);
    }

    method Write(key: CredentialKey, value: seq<byte>, verdict: WriteVerdict) returns (r: Result<(), Error>)
      modifies this
      ensures records == if verdict.Refused? then old(records) else old(records)[key := value]
      ensures r == Reported(verdict)
    {
      if !verdict.Refused? {
        records := records[key := value];
      }
      r := Reported(verdict);
    }
  }

  /** The store's critical sections, each entered with the key's operation lock held. */
  class CredentialStore {
    const backend: CredentialBackend

    constructor (b: CredentialBackend)
      ensures backend == b
    {
      backend := b;
    }

    ghost function Slot(key: CredentialKey): Slot
      reads backend
    {
      SlotOf(backend.records, key)
    }

    method ReadRecord(key: CredentialKey, fault: Option<Fault>) returns (r: Result<Record, Error>)
      ensures fault.Some? ==> r == Err(Backend(fault.value))
      ensures fault.None? ==>
                r == match Slot(key)
                     case Absent => Err(NotFound)
                     case Garbled => Err(CorruptCredential)
                     case Holds(rec) => Ok(rec)
    {
      var raw := backend.Read(key, fault);
      if raw.Err? { return Err(raw.error); }
      r := Decode(raw.value);
      if r.Err? { r := Err(CorruptCredential); }
    }

    method WriteRecord(key: CredentialKey, rec: Record, verdict: WriteVerdict) returns (r: Result<(), Error>)
      requires WellFormed(rec)
      modifies backend
      ensures !Fits(rec) ==> r == Err(CredentialTooLarge) && backend.records == old(backend.records)
      ensures Fits(rec) ==> r == Reported(verdict)
      ensures Fits(rec) && !verdict.Refused? ==> Slot(key) == Holds(rec)
      ensures Fits(rec) && verdict.Refused? ==> backend.records == old(backend.records)
      ensures forall k | k != key :: Slot(k) == old(Slot(k))
    {
      var encoded := Encode(rec);
      if encoded.Err? { return Err(encoded.error); }
      RoundTrip(rec);
      r := backend.Write(key, encoded.value, verdict);
    }

    method GetUnlocked(key: CredentialKey, fault: Option<Fault>) returns (r: Result<Stored, Error>)
      ensures fault.Some? ==> r == Err(Backend(fault.value))
      ensures fault.None? ==>
                r == match Decide(Get, Slot(key))
                     case Answer(Loaded(st)) => Ok(st)
                     case Answer(Failed(e)) => Err(e)
                     case _ => Err(NotFound)
    {
      var rec := ReadRecord(key, fault);
      match rec
      case Err(e) => r := Err(e);
      case Ok(Tombstone(_)) => r := Err(NotFound);
      case Ok(Active(st)) => r := Ok(st);
    }

    method DoGet(key: CredentialKey, w: Weather) returns (o: Outcome)
      ensures (Slot(key), o) == Serve(Get, Slot(key), w)
      ensures o.Loaded? ==> Slot(key) == Holds(Active(o.stored))
    {
      var current := GetUnlocked(key, w.read);
      o := if current.Ok? then Loaded(current.value) else Failed(current.error);
    }

    method DoSet(key: CredentialKey, credential: Credential, w: Weather) returns (o: Outcome)
      requires ValidFields(credential.fields)
      modifies backend
      ensures (Slot(key), o) == Serve(Set(credential), old(Slot(key)), w)
      ensures o.Created? ==>
                && o.stored.credential == credential && Slot(key) == Holds(Active(o.stored))
                && Some(o.stored.version) == SetVersion(old(Slot(key)))
      ensures forall k | k != key :: Slot(k) == old(Slot(k))
    {
      SlotsValid(backend.records, key);
      var raw := backend.Read(key, w.read);
      var version;
      if raw.Ok? {
        var rec := Decode(raw.value);
        match rec {
          case Err(_) => return Failed(CorruptCredential);
          case Ok(Active(cur)) =>
            if cur.version.revision + 1 >= U64_LIMIT { return Failed(RevisionOverflow); }
            version := Version(cur.version.generation, cur.version.revision + 1);
          case Ok(Tombstone(g)) => version := Version(g, 1);
        }
      } else if raw.error == NotFound {
        version := Version(1, 1);
      } else {
        return Failed(raw.error);
      }
      var stored := Stored(version, credential);
      var written := WriteRecord(key, Active(stored), w.write);
      o := if written.Ok? then Created(stored) else Failed(written.error);
    }

    method DoReplace(key: CredentialKey, expected: Version, credential: Credential, w: Weather) returns (o: Outcome)
      requires ValidFields(credential.fields)
      modifies backend
      ensures (Slot(key), o) == Serve(Replace(expected, credential), old(Slot(key)), w)
      ensures o.Replaced? ==>
                && o.stored == Stored(Version(expected.generation, expected.revision + 1), credential)
                && Slot(key) == Holds(Active(o.stored))
                && old(Slot(key)).Holds? && old(Slot(key)).rec.Active?
                && old(Slot(key)).rec.stored.version == expected
      ensures forall k | k != key :: Slot(k) == old(Slot(k))
    {
      SlotsValid(backend.records, key);
      var current := GetUnlocked(key, w.read);
      if current.Err? { return Failed(current.error); }
      if current.value.version != expected { return VersionConflict; }
      if expected.revision + 1 >= U64_LIMIT { return Failed(RevisionOverflow); }
      var stored := Stored(Version(expected.generation, expected.revision + 1), credential);
      var written := WriteRecord(key, Active(stored), w.write);
      o := if written.Ok? then Replaced(stored) else Failed(written.error);
    }

    method DoDelete(key: CredentialKey, w: Weather) returns (o: Outcome)
      modifies backend
      ensures (Slot(key), o) == Serve(Delete, old(Slot(key)), w)
      ensures o.Deleted? ==>
                && old(Slot(key)).Holds? && old(Slot(key)).rec.Active?
                && Slot(key) == Holds(Tombstone(old(Slot(key)).rec.stored.version.generation + 1))
      ensures forall k | k != key :: Slot(k) == old(Slot(k))
    {
      SlotsValid(backend.records, key);
      var current := GetUnlocked(key, w.read);
      if current.Err? { return Failed(current.error); }
      if current.value.version.generation + 1 >= U64_LIMIT { return Failed(GenerationOverflow); }
      var written := WriteRecord(key, Tombstone(current.value.version.generation + 1), w.write);
      o := if written.Ok? then Deleted else Failed(written.error);
    }
  }
}
