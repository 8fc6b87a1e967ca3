/** The crash record kept across resets: stored with its checksum, believed only if it checks. */
module CrashRecords {
  import opened Crc

  const CRASH_MAGIC: bv32 := 0x4243_4F53
  const VERSION: bv16 := 5
  const BUILD_ID: bv32 := 0
  const RECORD_SIZE: bv16 := 60

  datatype Record = Record(magic: bv32, version: bv16, size: bv16, sequence: bv32, buildId: bv32,
                           architecture: bv32, reason: bv32, programCounter: bv32, faultAddress: bv32,
                           stackPointer: bv32, taskHandle: bv32, tick: bv32, faultStatus: bv32,
                           faultStatus2: bv32, auxiliary: bv32, crc: bv32)

  function Half(h: bv16): (s: seq<bv8>)
    ensures |s| == 2
  {
    [(h & 0xFF) as bv8, (h >> 8) as bv8]
  }

  function Word32(w: bv32): (s: seq<bv8>)
    ensures |s| == 4
  {
    [(w & 0xFF) as bv8, ((w >> 8) & 0xFF) as bv8, ((w >> 16) & 0xFF) as bv8, (w >> 24) as bv8]
  }

  function Words32(ws: seq<bv32>): (s: seq<bv8>)
    ensures |s| == 4 * |ws|
  {
    if ws == [] then [] else Word32(ws[0]) + Words32(ws[1..])
  }

  function Fields(r: Record): (ws: seq<bv32>)
    ensures |ws| == 12
  {
    [r.sequence, r.buildId, r.architecture, r.reason, r.programCounter, r.faultAddress, r.stackPointer,
     r.taskHandle, r.tick, r.faultStatus, r.faultStatus2, r.auxiliary]
  }

  /** The bytes of the record the checksum covers, as they lie in memory. */
  function Covered(r: Record): (s: seq<bv8>)
    ensures |s| == 52
  {
    Half(r.version) + Half(r.size) + Words32(Fields(r))
  }

  /** `aixos_crash_record_validate`. */
  predicate Valid(r: Record) {
    r.magic == CRASH_MAGIC && r.version == VERSION && r.size == RECORD_SIZE && r.crc == Crc32(Covered(r))
  }

  lemma Word32Injective(a: bv32, b: bv32)
    ensures Word32(a) == Word32(b) ==> a == b
  {
    if Word32(a) == Word32(b) {
      assert Word32(a)[0] == Word32(b)[0] && Word32(a)[1] == Word32(b)[1];
      assert Word32(a)[2] == Word32(b)[2] && Word32(a)[3] == Word32(b)[3];
      Lanes(a, b);
    }
  }

  lemma Lanes(a: bv32, b: bv32)
    requires (a & 0xFF) as bv8 == (b & 0xFF) as bv8
    requires ((a >> 8) & 0xFF) as bv8 == ((b >> 8) & 0xFF) as bv8
    requires ((a >> 16) & 0xFF) as bv8 == ((b >> 16) & 0xFF) as bv8
    requires (a >> 24) as bv8 == (b >> 24) as bv8
    ensures a == b
  {}

  lemma HalfInjective(a: bv16, b: bv16)
    ensures Half(a) == Half(b) ==> a == b
  {
    if Half(a) == Half(b) {
      assert Half(a)[0] == Half(b)[0] && Half(a)[1] == Half(b)[1];
    }
  }

  lemma {:induction false} Words32Injective(a: seq<bv32>, b: seq<bv32>)
    requires |a| == |b|
    ensures Words32(a) == Words32(b) ==> a == b
    decreases |a|
  {
    hide Word32;
    if a != [] && Words32(a) == Words32(b) {
      assert Words32(a)[..4] == Word32(a[0]) && Words32(a)[4..] == Words32(a[1..]);
      assert Words32(b)[..4] == Word32(b[0]) && Words32(b)[4..] == Words32(b[1..]);
      Word32Injective(a[0], b[0]);
      Words32Injective(a[1..], b[1..]);
      assert a == [a[0]] + a[1..] && b == [b[0]] + b[1..];
    }
  }

  /** Every covered field has its place in the bytes. */
  lemma CoveredInjective(a: Record, b: Record)
    requires Covered(a) == Covered(b) && a.magic == b.magic && a.crc == b.crc
    ensures a == b
  {
    hide Half, Words32;
    var va, vb := Half(a.version) + Half(a.size), Half(b.version) + Half(b.size);
    assert Covered(a)[..4] == va && Covered(b)[..4] == vb;
    assert Covered(a)[4..] == Words32(Fields(a)) && Covered(b)[4..] == Words32(Fields(b));
    assert va[..2] == Half(a.version) && va[2..] == Half(a.size);
    assert vb[..2] == Half(b.version) && vb[2..] == Half(b.size);
    HalfInjective(a.version, b.version);
    HalfInjective(a.size, b.size);
    Words32Injective(Fields(a), Fields(b));
    SameFields(a, b);
  }

  lemma SameFields(a: Record, b: Record)
    requires Fields(a) == Fields(b) && a.version == b.version && a.size == b.size
    requires a.magic == b.magic && a.crc == b.crc
    ensures a == b
  {
    assert forall k :: 0 <= k < 12 ==> Fields(a)[k] == Fields(b)[k];
    var x, y := Fields(a), Fields(b);
    assert x[0] == y[0] && x[1] == y[1] && x[2] == y[2] && x[3] == y[3] && x[4] == y[4] && x[5] == y[5];
    assert x[6] == y[6] && x[7] == y[7] && x[8] == y[8] && x[9] == y[9] && x[10] == y[10] && x[11] == y[11];
  }

  /** A valid record altered anywhere within four consecutive covered bytes, and nowhere
      else, is recognised as corrupt. */
  lemma AlteredRecordRejected(good: Record, bad: Record, i: nat, j: nat)
    requires Valid(good) && bad != good && bad.magic == good.magic && bad.crc == good.crc
    requires i <= j <= 52 && j - i <= 4
    requires Covered(bad)[..i] == Covered(good)[..i] && Covered(bad)[j..] == Covered(good)[j..]
    ensures !Valid(bad)
  {
    hide Covered, Crc32;
    if Covered(bad) == Covered(good) {
      CoveredInjective(bad, good);
    } else {
      BurstDetected(Covered(good), Covered(bad), i, j);
    }
  }

  /** What a fault handler reports. */
  datatype Fault = Fault(architecture: bv32, reason: bv32, programCounter: bv32, faultAddress: bv32,
                         stackPointer: bv32, faultStatus: bv32, faultStatus2: bv32, auxiliary: bv32)

  /** The record `aixos_crash_record_store_extended` builds: numbered after the previous
      one if that still checks, else from 1. */
  function Next(previous: Record, f: Fault, taskHandle: bv32, tick: bv32): Record {
    var r := Record(0, VERSION, RECORD_SIZE, if Valid(previous) then previous.sequence + 1 else 1, BUILD_ID,
                    f.architecture, f.reason, f.programCounter, f.faultAddress, f.stackPointer,
                    taskHandle, tick, f.faultStatus, f.faultStatus2, f.auxiliary, 0);
    r.(crc := Crc32(Covered(r)))
  }

  /** The checksum does not depend on the two fields it does not cover. */
  lemma NextChecks(previous: Record, f: Fault, taskHandle: bv32, tick: bv32)
    ensures !Valid(Next(previous, f, taskHandle, tick))
    ensures Valid(Next(previous, f, taskHandle, tick).(magic := CRASH_MAGIC))
    ensures Next(previous, f, taskHandle, tick).magic == 0
    ensures Next(previous, f, taskHandle, tick).sequence == if Valid(previous) then previous.sequence + 1 else 1
  {
    hide Crc32, Words32, Half;
    var r := Next(previous, f, taskHandle, tick);
    assert Covered(r) == Covered(r.(magic := CRASH_MAGIC));
    assert Covered(r) == Covered(r.(crc := 0));
  }

  /** What a record tells. */
  function Reported(r: Record): Fault {
    Fault(r.architecture, r.reason, r.programCounter, r.faultAddress, r.stackPointer, r.faultStatus, r.faultStatus2, r.auxiliary)
  }

  /** A stored record tells what was reported, where and when. */
  lemma NextReports(previous: Record, f: Fault, taskHandle: bv32, tick: bv32)
    ensures var r := Next(previous, f, taskHandle, tick);
            Reported(r) == f && r.taskHandle == taskHandle && r.tick == tick && r.buildId == BUILD_ID
  {
    hide Crc32, Covered, Valid;
  }

  lemma NoMagic(r: Record)
    ensures !Valid(r.(magic := 0))
  {
    hide Crc32, Covered;
  }

  class CrashStore {
    var record: Record

    /** Overwrites the record: the magic number is taken away first and given back last, so
        that at no point in between does the record check. */
    method Store(f: Fault, taskHandle: bv32, tick: bv32) returns (ghost between: seq<Record>)
      modifies this
      ensures Valid(record) && record == Next(old(record), f, taskHandle, tick).(magic := CRASH_MAGIC)
      ensures record.sequence == if Valid(old(record)) then old(record).sequence + 1 else 1
      ensures Reported(record) == f && record.taskHandle == taskHandle && record.tick == tick
      ensures forall k :: 0 <= k < |between| ==> !Valid(between[k])
      ensures |between| == 2 && between[1] == record.(magic := 0)
    {
      hide Valid, Next;
      NextChecks(record, f, taskHandle, tick);
      NextReports(record, f, taskHandle, tick);
      NoMagic(record);
      var next := Next(record, f, taskHandle, tick);
      record := record.(magic := 0);
      between := [record];
      record := next;
      between := between + [record];
      record := record.(magic := CRASH_MAGIC);
    }

    /** `aixos_crash_record_get`: nothing unless the record checks. */
    method Get() returns (some: bool, r: Record)
      ensures some == Valid(record) && (some ==> r == record)
    {
      var crc := Compute(Covered(record));
      hide Crc32, Covered;
      some := record.magic == CRASH_MAGIC && record.version == VERSION && record.size == RECORD_SIZE && record.crc == crc;
      r := record;
    }

    method Clear()
      modifies this
      ensures record == old(record).(magic := 0) && !Valid(record)
    {
      record := record.(magic := 0);
    }
  }
}
