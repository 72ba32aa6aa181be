/**
 Batch files (internal/storage/filesystem.go:231-398, 437-477): the writer appends records to the
 current file and starts a new one when the size limit would be passed; a second goroutine starts a
 new one when it is signalled that a file has many records. File operations do not fail, and the
 directory starts empty. What either goroutine does under the mutex is one step; sending and taking a
 signal are steps of their own, and everything interleaves.
 */
module BatchFiles {
  import opened Basics
  import opened Wrappers

  /** An encoded record: its length includes the line delimiter. */
  datatype Record = Record(id: nat, size: nat)

  datatype FileName = FileName(date: nat, counter: nat)

  datatype BatchFile = BatchFile(name: FileName, records: seq<Record>)

  datatype Limits = Limits(maxFileSize: int, rotateAfter: int)

  /** The rotation goroutine waits for a signal, takes all others there are, and then rotates. */
  datatype RotatorPhase = Idle | Draining | Rotating

  /**
   `disk` is in creation order; `current` is the open file's place in it. `dueSeen` says that the writer
   has seen, under the mutex it has just released, that a rotation is due, and is about to signal it.
   */
  datatype Store = Store(
    disk: seq<BatchFile>,
    current: Option<nat>,
    fileCounter: nat,
    requestCount: nat,
    dueSeen: bool,
    signals: nat,
    rotator: RotatorPhase)

  const SIGNAL_CAPACITY := 100

  const Unopened := Store([], None, 0, 0, false, 0, Idle)

  datatype WriteError = EncodingFailed | NoDiskSpace

  predicate IsOpen(s: Store) {
    s.current.Some? && s.current.value < |s.disk|
  }

  function Size(records: seq<Record>): nat {
    if records == [] then 0 else Size(records[..|records| - 1]) + records[|records| - 1].size
  }

  // ---- operations --------------------------------------------------------------------------

  /** The place of the file with this name, or one past the end. */
  function Find(disk: seq<BatchFile>, name: FileName): (i: nat)
    ensures i <= |disk| && (i < |disk| ==> disk[i].name == name)
    ensures forall j | 0 <= j < i :: disk[j].name != name
  {
    if disk == [] || disk[0].name == name then 0 else 1 + Find(disk[1..], name)
  }

  /** Open the file of the current counter for appending, creating it if it is not there. */
  function Opened(s: Store, date: nat): (r: Store)
    ensures IsOpen(r)
  {
    var name := FileName(date, s.fileCounter);
    var i := Find(s.disk, name);
    s.(disk := if i == |s.disk| then s.disk + [BatchFile(name, [])] else s.disk, current := Some(i), requestCount := 0)
  }

  function Rotated(s: Store, date: nat): (r: Store)
    ensures IsOpen(r)
  {
    Opened(s.(fileCounter := s.fileCounter + 1), date)
  }

  function Ensured(s: Store, date: nat): (r: Store)
    requires s.current.Some? ==> IsOpen(s)
    ensures IsOpen(r)
  {
    if s.current.None? then Opened(s, date) else s
  }

  function MadeRoom(l: Limits, s: Store, size: nat, date: nat): (r: Store)
    requires IsOpen(s)
    ensures IsOpen(r)
  {
    var held := Size(s.disk[s.current.value].records);
    if l.maxFileSize <= 0 || held == 0 || held + size <= l.maxFileSize then s else Rotated(s, date)
  }

  function Appended(s: Store, record: Record): (r: Store)
    requires IsOpen(s)
    ensures IsOpen(r)
  {
    var file := s.disk[s.current.value];
    s.(disk := s.disk[s.current.value := file.(records := file.records + [record])], requestCount := s.requestCount + 1)
  }

  predicate IsDue(l: Limits, s: Store) {
    l.rotateAfter > 0 && s.requestCount >= l.rotateAfter
  }

  /** The writer signals what it has seen; a full channel drops the signal. */
  function Signalled(s: Store): Store {
    s.(dueSeen := false, signals := if s.dueSeen && s.signals < SIGNAL_CAPACITY then s.signals + 1 else s.signals)
  }

  predicate Oversized(l: Limits, record: Record) {
    l.maxFileSize > 0 && record.size > l.maxFileSize
  }

  /** Append a record, after making room for it, and see whether a rotation is due: all under the mutex. */
  function Encoded(l: Limits, s: Store, record: Record, date: nat): (r: Store)
    requires s.current.Some? ==> IsOpen(s)
    ensures IsOpen(r)
  {
    var appended := Appended(MadeRoom(l, Ensured(s, date), record.size, date), record);
    appended.(dueSeen := IsDue(l, appended))
  }

  /** Write one record, up to the release of the mutex; an oversized one is dropped without an error. */
  function Written(l: Limits, s: Store, record: Record, encodes: bool, space: bool, date: nat)
    : (r: (Store, Option<WriteError>))
    requires s.current.Some? ==> IsOpen(s)
    ensures r.0.current.Some? ==> IsOpen(r.0)
  {
    if !encodes then (s, Some(EncodingFailed))
    else if Oversized(l, record) then (s, None)
    else if !space then (s, Some(NoDiskSpace))
    else (Encoded(l, s, record, date), None)
  }

  // ---- runs --------------------------------------------------------------------------------

  datatype Op =
    | Write(record: Record, encodes: bool, space: bool, date: nat)
    | SendSignal
    | ReceiveSignal
    | DrainSignal
    | DoneDraining
    | RotateNow(date: nat)

  /** The writer sends what it has to before it writes again. */
  predicate Enabled(s: Store, op: Op) {
    match op
    case Write(_, _, _, _) => !s.dueSeen
    case SendSignal => s.dueSeen
    case ReceiveSignal => s.rotator == Idle && s.signals > 0
    case DrainSignal => s.rotator == Draining && s.signals > 0
    case DoneDraining => s.rotator == Draining && s.signals == 0
    case RotateNow(_) => s.rotator == Rotating
  }

  function Step(l: Limits, s: Store, op: Op): (r: Store)
    requires Enabled(s, op) && (s.current.Some? ==> IsOpen(s))
    ensures r.current.Some? ==> IsOpen(r)
  {
    match op
    case Write(record, encodes, space, date) => Written(l, s, record, encodes, space, date).0
    case SendSignal => Signalled(s)
    case ReceiveSignal => s.(signals := s.signals - 1, rotator := Draining)
    case DrainSignal => s.(signals := s.signals - 1)
    case DoneDraining => s.(rotator := Rotating)
    case RotateNow(date) => Rotated(s, date).(rotator := Idle)
  }

  /** The store opens its first file and then runs; a step that is not possible leaves no state. */
  function Run(l: Limits, start: nat, ops: seq<Op>): (r: Option<Store>)
    ensures r.Some? && r.value.current.Some? ==> IsOpen(r.value)
  {
    if ops == [] then Some(Opened(Unopened, start))
    else
      match Run(l, start, ops[..|ops| - 1])
      case None => None
      case Some(s) => if Enabled(s, ops[|ops| - 1]) then Some(Step(l, s, ops[|ops| - 1])) else None
  }

  /** The records a run should leave on disk: those that encode, are not oversized and pass the disk check. */
  function Kept(l: Limits, ops: seq<Op>): seq<Record> {
    if ops == [] then []
    else
      var last := ops[|ops| - 1];
      Kept(l, ops[..|ops| - 1]) +
        if last.Write? && last.encodes && last.space && (l.maxFileSize <= 0 || last.record.size <= l.maxFileSize)
        then [last.record] else []
  }

  /** All records on disk, file after file. */
  function Contents(disk: seq<BatchFile>): seq<Record> {
    if disk == [] then [] else Contents(disk[..|disk| - 1]) + disk[|disk| - 1].records
  }

  // ---- the invariant -----------------------------------------------------------------------

  predicate WithinLimit(l: Limits, disk: seq<BatchFile>) {
    l.maxFileSize > 0 ==> forall f | f in disk :: Size(f.records) <= l.maxFileSize
  }

  /** The newest file is open and has the current counter; counters rise from file to file. */
  predicate Ordered(s: Store) {
    && s.disk != [] && s.current == Some(|s.disk| - 1)
    && s.disk[|s.disk| - 1].name.counter == s.fileCounter
    && forall i, j | 0 <= i < j < |s.disk| :: s.disk[i].name.counter < s.disk[j].name.counter
  }

  predicate Inv(l: Limits, s: Store) {
    Ordered(s) && WithinLimit(l, s.disk)
  }

  lemma RotatedAddsFile(l: Limits, s: Store, date: nat)
    requires Inv(l, s)
    ensures var r := Rotated(s, date);
      && r == s.(disk := s.disk + [BatchFile(FileName(date, s.fileCounter + 1), [])], current := Some(|s.disk|),
                 fileCounter := s.fileCounter + 1, requestCount := 0)
      && Inv(l, r) && Contents(r.disk) == Contents(s.disk)
  {
    var r := Rotated(s, date);
    assert r.disk == s.disk + [BatchFile(FileName(date, s.fileCounter + 1), [])] by {
      assert forall i | 0 <= i < |s.disk| :: s.disk[i].name.counter <= s.fileCounter;
    }
    assert r.disk[..|s.disk|] == s.disk;
    assert Contents(s.disk) + [] == Contents(s.disk);
  }

  lemma AppendedGrowsLast(l: Limits, s: Store, record: Record)
    requires Inv(l, s)
    requires l.maxFileSize > 0 ==> Size(s.disk[|s.disk| - 1].records) + record.size <= l.maxFileSize
    ensures Inv(l, Appended(s, record)) && Contents(Appended(s, record).disk) == Contents(s.disk) + [record]
  {
    var n, r := |s.disk| - 1, Appended(s, record);
    var file := s.disk[n];
    assert r.disk[..n] == s.disk[..n];
    assert (file.records + [record])[..|file.records|] == file.records;
    assert Contents(s.disk[..n]) + (file.records + [record]) == Contents(s.disk[..n]) + file.records + [record];
    forall f | f in r.disk && l.maxFileSize > 0 ensures Size(f.records) <= l.maxFileSize {
      assert f in s.disk || f == file.(records := file.records + [record]);
    }
  }

  /** After a rotation for size, if one was due, the record fits into the newest file. */
  lemma MadeRoomFits(l: Limits, s: Store, size: nat, date: nat)
    requires Inv(l, s) && (l.maxFileSize > 0 ==> size <= l.maxFileSize)
    ensures var room := MadeRoom(l, s, size, date);
      && Ensured(s, date) == s && Inv(l, room) && Contents(room.disk) == Contents(s.disk)
      && |room.disk| > 0
      && (l.maxFileSize > 0 ==> Size(room.disk[|room.disk| - 1].records) + size <= l.maxFileSize)
  {
    hide Rotated, Opened, Contents, WithinLimit;
    RotatedAddsFile(l, s, date);
    assert Size([]) == 0;
  }

  lemma SeeingKeeps(l: Limits, s: Store)
    requires Inv(l, s)
    ensures Inv(l, s.(dueSeen := IsDue(l, s)))
  {
  }

  lemma WrittenKeeps(l: Limits, s: Store, record: Record, date: nat)
    requires Inv(l, s) && !Oversized(l, record)
    ensures var r := Written(l, s, record, true, true, date).0;
      Inv(l, r) && Contents(r.disk) == Contents(s.disk) + [record]
  {
    MadeRoomFits(l, s, record.size, date);
    hide Rotated, Appended, MadeRoom, Contents, Size, Inv;
    AppendedGrowsLast(l, MadeRoom(l, s, record.size, date), record);
    SeeingKeeps(l, Appended(MadeRoom(l, s, record.size, date), record));
  }

  /**
   After every run, the files in creation order hold exactly the records that should have been kept, in
   the order they were handled, and no file exceeds a positive size limit.
   */
  lemma {:induction false} FilesHoldKeptRecords(l: Limits, start: nat, ops: seq<Op>)
    requires Run(l, start, ops).Some?
    ensures var s := Run(l, start, ops).value;
      Inv(l, s) && Contents(s.disk) == Kept(l, ops)
  {
    hide Rotated, Written, Contents;
    if ops == [] {
      FirstFile(l, start);
    } else {
      var before, op := ops[..|ops| - 1], ops[|ops| - 1];
      FilesHoldKeptRecords(l, start, before);
      var s := Run(l, start, before).value;
      assert Kept(l, before) + [] == Kept(l, before);
      match op
      case Write(record, encodes, space, date) =>
        if encodes && space && !Oversized(l, record) {
          WrittenKeeps(l, s, record, date);
        } else {
          NotWritten(l, s, record, encodes, space, date);
        }
      case RotateNow(date) => RotatedAddsFile(l, s, date);
      case _ =>
    }
  }

  lemma FirstFile(l: Limits, start: nat)
    ensures Inv(l, Opened(Unopened, start)) && Contents(Opened(Unopened, start).disk) == []
  {
    var s, file := Opened(Unopened, start), BatchFile(FileName(start, 0), []);
    assert s.disk == [file];
    assert Size(file.records) == 0;
    hide Opened, Find, Size;
    assert [file][..0] == [] && Contents([]) == [];
  }

  lemma NotWritten(l: Limits, s: Store, record: Record, encodes: bool, space: bool, date: nat)
    requires Inv(l, s) && !(encodes && space && !Oversized(l, record))
    ensures Written(l, s, record, encodes, space, date).0 == s
  {
  }

  // ---- rotation by count -------------------------------------------------------------------

  /**
   The counter counts the current file's records, and a rotation that is due has been asked for, or the
   writer is about to.
   */
  predicate DueIsPending(l: Limits, s: Store) {
    && IsOpen(s)
    && s.requestCount == |s.disk[s.current.value].records|
    && (l.rotateAfter > 0 && |s.disk[s.current.value].records| >= l.rotateAfter ==> s.dueSeen || s.signals > 0 || s.rotator != Idle)
  }

  lemma WrittenKeepsDue(l: Limits, s: Store, record: Record, date: nat)
    requires Inv(l, s) && DueIsPending(l, s) && !Oversized(l, record)
    ensures DueIsPending(l, Written(l, s, record, true, true, date).0)
  {
    hide Rotated;
    RotatedAddsFile(l, s, date);
  }

  /**
   A file that has reached the count always has a rotation under way, signalled, or about to be signalled
   by the writer: no rotation that is due is lost.
   */
  lemma {:induction false} DueRotationIsNotLost(l: Limits, start: nat, ops: seq<Op>)
    requires Run(l, start, ops).Some?
    ensures DueIsPending(l, Run(l, start, ops).value)
  {
    hide Rotated, Written;
    if ops != [] {
      var before, op := ops[..|ops| - 1], ops[|ops| - 1];
      DueRotationIsNotLost(l, start, before);
      FilesHoldKeptRecords(l, start, before);
      var s := Run(l, start, before).value;
      match op
      case Write(record, encodes, space, date) =>
        if encodes && space && !Oversized(l, record) {
          WrittenKeepsDue(l, s, record, date);
        } else {
          NotWritten(l, s, record, encodes, space, date);
        }
      case RotateNow(date) => RotatedAddsFile(l, s, date);
      case _ =>
    }
  }

  lemma MadeRoomExactly(l: Limits, s: Store, size: nat, date: nat)
    requires Inv(l, s)
    ensures var held, room := Size(s.disk[|s.disk| - 1].records), MadeRoom(l, s, size, date);
      if l.maxFileSize > 0 && held > 0 && held + size > l.maxFileSize
      then room.disk == s.disk + [BatchFile(FileName(date, s.fileCounter + 1), [])] && room.requestCount == 0
      else room == s
  {
    hide Rotated, Size;
    RotatedAddsFile(l, s, date);
  }

  /** The record stands behind the newest file's, or alone in a new file. */
  predicate WrittenTo(l: Limits, was: seq<BatchFile>, record: Record, now: seq<BatchFile>) {
    && was != [] && now != []
    && var newest := was[|was| - 1].records;
       if l.maxFileSize > 0 && Size(newest) > 0 && Size(newest) + record.size > l.maxFileSize
       then now[..|now| - 1] == was && now[|now| - 1].records == [record]
       else now[..|now| - 1] == was[..|was| - 1] && now[|now| - 1].records == newest + [record]
  }

  /** The newest file has reached the count. */
  predicate ReachesCount(l: Limits, disk: seq<BatchFile>) {
    disk != [] && l.rotateAfter > 0 && |disk[|disk| - 1].records| >= l.rotateAfter
  }

  lemma WrittenExactly(l: Limits, s: Store, record: Record, date: nat)
    requires Inv(l, s) && DueIsPending(l, s) && !Oversized(l, record)
    ensures var t := Written(l, s, record, true, true, date).0;
      WrittenTo(l, s.disk, record, t.disk) && (t.dueSeen <==> ReachesCount(l, t.disk))
  {
    hide Size, MadeRoom, Find, Rotated, Opened, WithinLimit;
    MadeRoomExactly(l, s, record.size, date);
    MadeRoomFits(l, s, record.size, date);
    var room := MadeRoom(l, s, record.size, date);
    assert Ensured(s, date) == s && room.current == Some(|room.disk| - 1);
    hide Contents;
    assert [] + [record] == [record];
  }

  /**
   A record that is kept goes to the newest file, unless it would take that file, not empty, past the size
   limit: then alone into a new one. A rotation is seen due exactly when the file has reached the count.
   */
  lemma WriteOpensFileExactly(l: Limits, start: nat, ops: seq<Op>, record: Record, date: nat)
    requires Run(l, start, ops).Some? && !Run(l, start, ops).value.dueSeen
    requires l.maxFileSize <= 0 || record.size <= l.maxFileSize
    ensures var s := Run(l, start, ops).value; var t := Step(l, s, Write(record, true, true, date));
      WrittenTo(l, s.disk, record, t.disk) && (t.dueSeen <==> ReachesCount(l, t.disk))
  {
    DueRotationIsNotLost(l, start, ops);
    FilesHoldKeptRecords(l, start, ops);
    hide Inv, DueIsPending, Run;
    WrittenExactly(l, Run(l, start, ops).value, record, date);
  }

  /** How many writes have seen a rotation due. */
  function Dues(l: Limits, start: nat, ops: seq<Op>): nat {
    if ops == [] then 0
    else
      var s := Run(l, start, ops);
      Dues(l, start, ops[..|ops| - 1]) + One(ops[|ops| - 1].Write? && s.Some? && s.value.dueSeen)
  }

  function Rotations(ops: seq<Op>): nat {
    if ops == [] then 0 else Rotations(ops[..|ops| - 1]) + One(ops[|ops| - 1].RotateNow?)
  }

  /** Every rotation by the goroutine answers a write of its own that saw one due. */
  lemma {:induction false} RotationsAreEarned(l: Limits, start: nat, ops: seq<Op>)
    requires Run(l, start, ops).Some?
    ensures var s := Run(l, start, ops).value;
      Rotations(ops) + s.signals + One(s.rotator != Idle) + One(s.dueSeen) <= Dues(l, start, ops)
  {
    if ops != [] {
      RotationsAreEarned(l, start, ops[..|ops| - 1]);
      var s, op := Run(l, start, ops[..|ops| - 1]).value, ops[|ops| - 1];
      StepKeepsSignals(l, s, op);
      hide Run, Step;
    }
  }

  /** What a step does to the signals alone. */
  lemma StepKeepsSignals(l: Limits, s: Store, op: Op)
    requires Enabled(s, op) && (s.current.Some? ==> IsOpen(s))
    ensures var t := Step(l, s, op);
      One(op.RotateNow?) + t.signals + One(t.rotator != Idle) + One(t.dueSeen) <=
      s.signals + One(s.rotator != Idle) + One(s.dueSeen) + One(op.Write? && t.dueSeen)
  {
    hide Find, Size;
  }

  // ---- file names --------------------------------------------------------------------------

  /** The date of the last operation, or of the start. */
  function Today(start: nat, ops: seq<Op>): nat {
    if ops == [] then start
    else match ops[|ops| - 1]
      case Write(_, _, _, date) => date
      case RotateNow(date) => date
      case _ => Today(start, ops[..|ops| - 1])
  }

  predicate DatesRise(start: nat, ops: seq<Op>) {
    ops == [] || (Today(start, ops[..|ops| - 1]) <= Today(start, ops) && DatesRise(start, ops[..|ops| - 1]))
  }

  predicate DatesSorted(disk: seq<BatchFile>, today: nat) {
    && (forall i, j | 0 <= i < j < |disk| :: disk[i].name.date <= disk[j].name.date)
    && (forall i | 0 <= i < |disk| :: disk[i].name.date <= today)
  }

  /** Names compare as their text does while the counter has at most six digits: by date, then by counter. */
  predicate Before(a: FileName, b: FileName) {
    a.date < b.date || (a.date == b.date && a.counter < b.counter)
  }

  lemma WrittenKeepsDates(l: Limits, s: Store, record: Record, date: nat)
    requires Inv(l, s) && DatesSorted(s.disk, date) && !Oversized(l, record)
    ensures DatesSorted(Written(l, s, record, true, true, date).0.disk, date)
  {
    hide Rotated, Size, Contents, Find, Opened;
    RotatedAddsFile(l, s, date);
    var room := MadeRoom(l, s, record.size, date);
    assert DatesSorted(room.disk, date);
    AppendedKeepsDates(room, record, date);
  }

  lemma AppendedKeepsDates(s: Store, record: Record, date: nat)
    requires IsOpen(s) && DatesSorted(s.disk, date)
    ensures DatesSorted(Appended(s, record).disk, date)
  {
  }

  lemma RotatedKeepsDates(l: Limits, s: Store, date: nat)
    requires Inv(l, s) && DatesSorted(s.disk, date)
    ensures DatesSorted(Rotated(s, date).disk, date)
  {
    hide Rotated;
    RotatedAddsFile(l, s, date);
  }

  lemma SortedLater(disk: seq<BatchFile>, today: nat, later: nat)
    requires DatesSorted(disk, today) && today <= later
    ensures DatesSorted(disk, later)
  {
  }

  lemma {:induction false} DatesStaySorted(l: Limits, start: nat, ops: seq<Op>)
    requires Run(l, start, ops).Some? && DatesRise(start, ops)
    ensures DatesSorted(Run(l, start, ops).value.disk, Today(start, ops))
  {
    if ops != [] {
      hide Rotated, Written, DatesSorted;
      var before, op := ops[..|ops| - 1], ops[|ops| - 1];
      DatesStaySorted(l, start, before);
      FilesHoldKeptRecords(l, start, before);
      var s, today := Run(l, start, before).value, Today(start, ops);
      SortedLater(s.disk, Today(start, before), today);
      match op
      case Write(record, encodes, space, date) =>
        if encodes && space && !Oversized(l, record) {
          WrittenKeepsDates(l, s, record, date);
        } else {
          NotWritten(l, s, record, encodes, space, date);
        }
      case RotateNow(date) => RotatedKeepsDates(l, s, date);
      case _ =>
    }
  }

  /** With a clock that does not go back, creation order is the order of the names. */
  lemma NamesFollowCreation(l: Limits, start: nat, ops: seq<Op>)
    requires Run(l, start, ops).Some? && DatesRise(start, ops)
    ensures var disk := Run(l, start, ops).value.disk;
      forall i, j | 0 <= i < j < |disk| :: Before(disk[i].name, disk[j].name)
  {
    FilesHoldKeptRecords(l, start, ops);
    DatesStaySorted(l, start, ops);
  }

  // ---- the store object --------------------------------------------------------------------

  /** The steps of a goroutine that drains the signals with nothing in between. */
  function Drained(l: Limits, s: Store): (r: Store)
    requires s.rotator == Draining && (s.current.Some? ==> IsOpen(s))
    ensures r == s.(signals := 0, rotator := Rotating)
    decreases s.signals
  {
    if s.signals == 0 then Step(l, s, DoneDraining) else Drained(l, Step(l, s, DrainSignal))
  }

  /** The directory and the store's own fields. */
  class FileStorage {
    const limits: Limits
    var disk: seq<BatchFile>
    var currentFile: Option<nat>
    var fileCounter: nat
    var requestCount: nat
    var rotationSignals: nat
    var rotator: RotatorPhase

    ghost predicate Valid()
      reads this
    {
      currentFile.Some? ==> currentFile.value < |disk|
    }

    /** The state between calls: what the writer has seen due is a value it passes from method to method. */
    ghost function State(): Store
      reads this
    {
      Store(disk, currentFile, fileCounter, requestCount, false, rotationSignals, rotator)
    }

    constructor (limits: Limits, date: nat)
      ensures Valid() && this.limits == limits && State() == Opened(Unopened, date)
    {
      this.limits := limits;
      disk, currentFile, fileCounter, requestCount, rotationSignals, rotator := [], None, 0, 0, 0, Idle;
      new;
      InitBatchFile(date);
    }

    method InitBatchFile(date: nat)
      modifies this
      ensures Valid() && State() == Opened(old(State()), date)
    {
      var name := FileName(date, fileCounter);
      var i := Find(disk, name);
      if i == |disk| {
        disk := disk + [BatchFile(name, [])];
      }
      currentFile := Some(i);
      requestCount := 0;
    }

    method RotateFileLocked(date: nat)
      modifies this
      ensures Valid() && State() == Rotated(old(State()), date)
    {
      fileCounter := fileCounter + 1;
      InitBatchFile(date);
    }

    method RotateForSizeIfNeededLocked(size: nat, date: nat)
      requires IsOpen(State())
      modifies this
      ensures IsOpen(State()) && State() == MadeRoom(limits, old(State()), size, date)
    {
      if limits.maxFileSize <= 0 {
        return;
      }
      var currentSize := Size(disk[currentFile.value].records);
      if currentSize == 0 || currentSize + size <= limits.maxFileSize {
        return;
      }
      RotateFileLocked(date);
    }

    method WriteEncodedRequestLocked(record: Record, date: nat) returns (needsRotation: bool)
      requires Valid()
      modifies this
      ensures Valid() && State().(dueSeen := needsRotation) == Encoded(limits, old(State()), record, date)
    {
      hide Opened, MadeRoom, Rotated;
      if currentFile.None? {
        InitBatchFile(date);
      }
      RotateForSizeIfNeededLocked(record.size, date);
      var i := currentFile.value;
      disk := disk[i := disk[i].(records := disk[i].records + [record])];
      requestCount := requestCount + 1;
      needsRotation := limits.rotateAfter > 0 && requestCount >= limits.rotateAfter;
    }

    method SignalRotationIfNeeded(needsRotation: bool)
      requires Valid()
      modifies `rotationSignals
      ensures Valid() && State() == Signalled(old(State()).(dueSeen := needsRotation))
    {
      if needsRotation && rotationSignals < SIGNAL_CAPACITY {
        rotationSignals := rotationSignals + 1;
      }
    }

    /** A write that nothing comes in between of: the locked part, and then the signal. */
    method WriteRequest(record: Record, encodes: bool, space: bool, date: nat) returns (err: Option<WriteError>)
      requires Valid()
      modifies this
      ensures Valid()
      ensures State() == Signalled(Written(limits, old(State()), record, encodes, space, date).0)
      ensures err == Written(limits, old(State()), record, encodes, space, date).1
    {
      if !encodes {
        return Some(EncodingFailed);
      }
      if limits.maxFileSize > 0 && record.size > limits.maxFileSize {
        return None;
      }
      if !space {
        return Some(NoDiskSpace);
      }
      var needsRotation := WriteEncodedRequestLocked(record, date);
      SignalRotationIfNeeded(needsRotation);
      err := None;
    }

    /** The loop takes the signals one at a time until there is none: each turn is a step of the goroutine. */
    method TakeRotationSignals()
      requires Valid() && Enabled(State(), ReceiveSignal)
      modifies `rotationSignals, `rotator
      ensures Valid() && State() == Drained(limits, Step(limits, old(State()), ReceiveSignal))
      ensures State() == old(State()).(signals := 0, rotator := Rotating)
    {
      rotationSignals, rotator := rotationSignals - 1, Draining;
      while rotationSignals > 0
        invariant Valid() && rotator == Draining
        invariant Drained(limits, State()) == Drained(limits, Step(limits, old(State()), ReceiveSignal))
        invariant State() == old(State()).(signals := rotationSignals, rotator := Draining)
      {
        rotationSignals := rotationSignals - 1;
      }
      rotator := Rotating;
    }

    method RotateFile(date: nat)
      requires Valid() && Enabled(State(), RotateNow(date))
      modifies this
      ensures Valid() && State() == Step(limits, old(State()), RotateNow(date))
    {
      RotateFileLocked(date);
      rotator := Idle;
    }
  }
}
