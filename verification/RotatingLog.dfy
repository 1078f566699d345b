/** The size-rotating log writer: an in-place chain of renames over a file system. */
module RotatingLog {
  import opened Collections
  import opened Wrappers
  import opened Numerals

  type Files = map<string, seq<byte>>

  /** Failures of the file system are not modelled, except that renaming a missing file does nothing. */
  datatype Operation =
    | Remove(path: string)
    | Rename(path: string, to: string)
    | OpenTruncated(path: string)
    | OpenAppending(path: string)
    | Append(path: string, data: seq<byte>)

  function Perform(files: Files, op: Operation): Files {
    match op
    case Remove(path) => files - {path}
    case Rename(path, to) => if path in files then (files - {path})[to := files[path]] else files
    case OpenTruncated(path) => files[path := []]
    case OpenAppending(path) => if path in files then files else files[path := []]
    case Append(path, data) => if path in files then files[path := files[path] + data] else files
  }

  function PerformAll(files: Files, ops: seq<Operation>): Files {
    if ops == [] then files else Perform(PerformAll(files, ops[..|ops| - 1]), ops[|ops| - 1])
  }

  /** The directory, together with the journal of the operations performed on it. */
  class FileSystem {
    var files: Files
    ghost var journal: seq<Operation>

    method Do(op: Operation)
      modifies this
      ensures files == Perform(old(files), op)
      ensures journal == old(journal) + [op]
    {
      files := Perform(files, op);
      journal := journal + [op];
    }
  }

  // ---------- the rotated names ----------

  function RotatedPath(path: string, n: nat): string { path + "." + Decimal(n) }

  /** Slot 0 is the active file, slot n the n-th rotation, most recent first. */
  function Slot(path: string, n: nat): string { if n == 0 then path else RotatedPath(path, n) }

  lemma SlotsAreDistinct(path: string, m: nat, n: nat)
    ensures Slot(path, m) == Slot(path, n) <==> m == n
  {
    if m != n && 0 < m && 0 < n && Slot(path, m) == Slot(path, n) {
      var k := |path + "."|;
      assert Slot(path, m)[k..] == Decimal(m) && Slot(path, n)[k..] == Decimal(n);
      DecimalIsInjective(m, n);
    }
  }

  lemma AllSlotsAreDistinct(path: string)
    ensures forall m: nat, n: nat :: Slot(path, m) == Slot(path, n) <==> m == n
  {
    forall m: nat, n: nat ensures Slot(path, m) == Slot(path, n) <==> m == n { SlotsAreDistinct(path, m, n); }
  }

  ghost predicate IsSlot(path: string, max: nat, p: string) { exists n: nat :: n <= max && p == Slot(path, n) }

  function Contents(files: Files, p: string): seq<byte> { if p in files then files[p] else [] }

  /** Slots n, n-1, ..., 1 and the active file, oldest first. */
  function Kept(files: Files, path: string, n: nat): seq<byte> {
    Contents(files, Slot(path, n)) + if n == 0 then [] else Kept(files, path, n - 1)
  }

  ghost predicate SameAt(f: Files, p: string, g: Files, q: string) {
    (p in f <==> q in g) && (p in f ==> f[p] == g[q])
  }

  // ---------- the specification of a rotation ----------

  /** Nothing but the slots up to `max` differs between the two. */
  ghost predicate SameElsewhere(f: Files, g: Files, path: string, max: nat) {
    forall p :: !IsSlot(path, max, p) ==> SameAt(f, p, g, p)
  }

  /** Slots above n+1 have moved up by one, n+1 is vacant, the others are untouched. */
  ghost predicate ShiftedAbove(f: Files, g: Files, path: string, max: nat, n: int) {
    && -1 <= n < max
    && Slot(path, n + 1) !in g
    && (forall k: nat | k <= n :: SameAt(g, Slot(path, k), f, Slot(path, k)))
    && (forall k: nat | n + 1 < k <= max :: SameAt(g, Slot(path, k), f, Slot(path, k - 1)))
    && SameElsewhere(f, g, path, max)
  }

  /** All slots moved up by one at once, the oldest is gone and the active file is empty. */
  ghost predicate Shifted(f: Files, g: Files, path: string, max: nat) {
    && Slot(path, 0) in g && g[Slot(path, 0)] == []
    && (forall k: nat | 0 < k <= max :: SameAt(g, Slot(path, k), f, Slot(path, k - 1)))
    && SameElsewhere(f, g, path, max)
  }

  /** The j-th operation of a rotation: remove the oldest, rename downwards, open anew. */
  function RotateOp(path: string, max: nat, j: nat): Operation {
    if j == 0 then Remove(Slot(path, max))
    else if j <= max then Rename(Slot(path, max - j), Slot(path, max - j + 1))
    else OpenTruncated(path)
  }

  function RotateOps(path: string, max: nat): seq<Operation> {
    seq(max + 2, j requires 0 <= j => RotateOp(path, max, j))
  }

  lemma RemoveVacates(f: Files, path: string, max: nat)
    requires 0 < max
    ensures ShiftedAbove(f, Perform(f, Remove(Slot(path, max))), path, max, max - 1)
  {
    AllSlotsAreDistinct(path);
    assert IsSlot(path, max, Slot(path, max));
  }

  lemma RenameShifts(f: Files, g: Files, path: string, max: nat, n: nat)
    requires ShiftedAbove(f, g, path, max, n)
    ensures ShiftedAbove(f, Perform(g, Rename(Slot(path, n), Slot(path, n + 1))), path, max, n - 1)
  {
    AllSlotsAreDistinct(path);
    var h := Perform(g, Rename(Slot(path, n), Slot(path, n + 1)));
    assert IsSlot(path, max, Slot(path, n)) && IsSlot(path, max, Slot(path, n + 1));
    forall k: nat | n < k <= max ensures SameAt(h, Slot(path, k), f, Slot(path, k - 1)) {
      assert SameAt(g, Slot(path, n), f, Slot(path, n));
      if k > n + 1 { assert SameAt(g, Slot(path, k), f, Slot(path, k - 1)); }
    }
    forall k: nat | k < n ensures SameAt(h, Slot(path, k), f, Slot(path, k)) {
      assert SameAt(g, Slot(path, k), f, Slot(path, k));
    }
    forall p | !IsSlot(path, max, p) ensures SameAt(f, p, h, p) {
      assert SameAt(f, p, g, p);
    }
  }

  lemma TruncateCompletes(f: Files, g: Files, path: string, max: nat)
    requires ShiftedAbove(f, g, path, max, -1)
    ensures Shifted(f, Perform(g, OpenTruncated(path)), path, max)
  {
    AllSlotsAreDistinct(path);
    var h := Perform(g, OpenTruncated(path));
    assert IsSlot(path, max, Slot(path, 0));
    forall k: nat | 0 < k <= max ensures SameAt(h, Slot(path, k), f, Slot(path, k - 1)) {
      assert SameAt(g, Slot(path, k), f, Slot(path, k - 1));
    }
    forall p | !IsSlot(path, max, p) ensures SameAt(f, p, h, p) {
      assert SameAt(f, p, g, p);
    }
  }

  // ---------- what survives, whenever it is interrupted ----------

  ghost predicate Suffix(whole: seq<byte>, part: seq<byte>) {
    |part| <= |whole| && whole[|whole| - |part|..] == part
  }

  lemma {:induction false} KeptBelowShift(f: Files, g: Files, path: string, max: nat, n: int, m: nat)
    requires ShiftedAbove(f, g, path, max, n) && m <= n
    ensures Kept(g, path, m) == Kept(f, path, m)
  {
    assert SameAt(g, Slot(path, m), f, Slot(path, m));
    if m == 0 {
    } else {
      KeptBelowShift(f, g, path, max, n, m - 1);
    }
  }

  lemma {:induction false} KeptWhileShifting(f: Files, g: Files, path: string, max: nat, n: int, m: nat)
    requires ShiftedAbove(f, g, path, max, n) && n < m <= max
    ensures Kept(g, path, m) == if m == 0 then [] else Kept(f, path, m - 1)
  {
    if n + 1 < m {
      assert SameAt(g, Slot(path, m), f, Slot(path, m - 1));
      KeptWhileShifting(f, g, path, max, n, m - 1);
    } else if m > 0 {
      KeptBelowShift(f, g, path, max, n, n);
    }
  }

  lemma {:induction false} KeptAfterShift(f: Files, g: Files, path: string, max: nat, m: nat)
    requires Shifted(f, g, path, max) && m <= max
    ensures Kept(g, path, m) == if m == 0 then [] else Kept(f, path, m - 1)
  {
    if m == 0 {
    } else {
      assert SameAt(g, Slot(path, m), f, Slot(path, m - 1));
      KeptAfterShift(f, g, path, max, m - 1);
    }
  }

  /** What the first k operations of a rotation have made of the directory. */
  ghost predicate RotatedBy(f: Files, g: Files, path: string, max: nat, k: nat) {
    if k == 0 then g == f
    else if k <= max + 1 then ShiftedAbove(f, g, path, max, max - k)
    else Shifted(f, g, path, max)
  }

  lemma OperationRotates(f: Files, g: Files, path: string, max: nat, k: nat)
    requires 0 < max && k <= max + 1 && RotatedBy(f, g, path, max, k)
    ensures RotatedBy(f, Perform(g, RotateOp(path, max, k)), path, max, k + 1)
  {
    if k == 0 {
      RemoveVacates(f, path, max);
    } else if k <= max {
      RenameShifts(f, g, path, max, max - k);
    } else {
      TruncateCompletes(f, g, path, max);
    }
  }

  lemma NextOperation(f: Files, ops: seq<Operation>, k: nat)
    requires k < |ops|
    ensures PerformAll(f, ops[..k + 1]) == Perform(PerformAll(f, ops[..k]), ops[k])
  {
    assert ops[..k + 1][..k] == ops[..k];
  }

  /** The directory after the first k operations of a rotation. */
  lemma {:induction false} AfterPrefix(f: Files, path: string, max: nat, k: nat)
    requires 0 < max && k <= |RotateOps(path, max)|
    ensures RotatedBy(f, PerformAll(f, RotateOps(path, max)[..k]), path, max, k)
  {
    if k == 0 {
    } else {
      AfterPrefix(f, path, max, k - 1);
      NextOperation(f, RotateOps(path, max), k - 1);
      OperationRotates(f, PerformAll(f, RotateOps(path, max)[..k - 1]), path, max, k - 1);
    }
  }

  /**
    A rotation may be interrupted after any of its operations, and the log still keeps a
    suffix of what it kept: everything, or everything but the oldest rotated file.
   */
  lemma InterruptedRotationKeepsSuffix(f: Files, path: string, max: nat, k: nat)
    requires 0 < max && k <= |RotateOps(path, max)|
    ensures
      var g := PerformAll(f, RotateOps(path, max)[..k]);
      && Suffix(Kept(f, path, max), Kept(g, path, max))
      && Kept(g, path, max) == (if k == 0 then Kept(f, path, max) else Kept(f, path, max - 1))
      && SameElsewhere(f, g, path, max)
  {
    var g := PerformAll(f, RotateOps(path, max)[..k]);
    AfterPrefix(f, path, max, k);
    if 0 < k <= max + 1 {
      KeptWhileShifting(f, g, path, max, max - k, max);
    } else if k > 0 {
      KeptAfterShift(f, g, path, max, max);
    }
  }

  lemma SuffixGrows(whole: seq<byte>, part: seq<byte>, data: seq<byte>)
    requires Suffix(whole, part)
    ensures Suffix(whole + data, part + data)
  {
  }

  lemma {:induction false} KeptAfterAppend(f: Files, path: string, n: nat, data: seq<byte>)
    requires path in f
    ensures Kept(f[path := f[path] + data], path, n) == Kept(f, path, n) + data
  {
    SlotsAreDistinct(path, n, 0);
    if n == 0 {
    } else {
      KeptAfterAppend(f, path, n - 1, data);
      Associative(Contents(f, Slot(path, n)), Kept(f, path, n - 1), data);
    }
  }

  lemma {:induction false} KeptAfterOpen(f: Files, path: string, n: nat)
    ensures Kept(Perform(f, OpenAppending(path)), path, n) == Kept(f, path, n)
  {
    SlotsAreDistinct(path, n, 0);
    if n == 0 {
    } else {
      KeptAfterOpen(f, path, n - 1);
    }
  }

  /** So a process that dies at any point of a rotation leaves a log the next one can resume. */
  lemma RotationKeepsHistory(history: seq<byte>, f: Files, path: string, max: nat, k: nat)
    requires 0 < max && Suffix(history, Kept(f, path, max)) && k <= max + 2
    ensures Suffix(history, Kept(PerformAll(f, RotateOps(path, max)[..k]), path, max))
  {
    InterruptedRotationKeepsSuffix(f, path, max, k);
  }

  // ---------- the writer ----------

  class SizeRotatingWriter {
    const fs: FileSystem
    const path: string
    const maxSize: nat
    const maxFiles: nat
    var file: Option<string>
    var currentSize: nat
    /** Every byte the log ever took, those of earlier processes included. */
    ghost var history: seq<byte>

    ghost predicate Valid()
      reads this, fs
    {
      && 0 < maxFiles
      && file == Some(path) && path in fs.files && currentSize == |fs.files[path]|
      && Suffix(history, Kept(fs.files, path, maxFiles))
    }

    /** Opening resumes a log that an earlier process left behind, in whatever state. */
    constructor (fs: FileSystem, path: string, maxSize: nat, maxFiles: nat, ghost history: seq<byte>)
      requires Suffix(history, Kept(fs.files, path, if maxFiles == 0 then 1 else maxFiles))
      modifies fs
      ensures Valid() && this.fs == fs && this.path == path && this.maxSize == maxSize && this.history == history
      ensures this.maxFiles == (if maxFiles == 0 then 1 else maxFiles)
      ensures fs.files == Perform(old(fs.files), OpenAppending(path))
      ensures fs.journal == old(fs.journal) + [OpenAppending(path)]
    {
      this.fs, this.path, this.maxSize := fs, path, maxSize;
      this.maxFiles := if maxFiles == 0 then 1 else maxFiles;
      this.history := history;
      file, currentSize := None, 0;
      new;
      fs.Do(OpenAppending(path));
      file, currentSize := Some(path), |fs.files[path]|;
      KeptAfterOpen(old(fs.files), path, this.maxFiles);
    }

    /** Performs the next operation of a rotation that began with files `f` and journal `j`. */
    method DoNext(op: Operation, ghost f: Files, ghost j: seq<Operation>, ghost k: nat)
      requires 0 < maxFiles && k < |RotateOps(path, maxFiles)| && op == RotateOps(path, maxFiles)[k]
      requires fs.files == PerformAll(f, RotateOps(path, maxFiles)[..k])
      requires fs.journal == j + RotateOps(path, maxFiles)[..k]
      modifies fs
      ensures fs.files == PerformAll(f, RotateOps(path, maxFiles)[..k + 1])
      ensures fs.journal == j + RotateOps(path, maxFiles)[..k + 1]
    {
      ghost var ops := RotateOps(path, maxFiles);
      assert ops[..k + 1][..k] == ops[..k];
      assert ops[..k + 1] == ops[..k] + [ops[k]];
      fs.Do(op);
    }

    /** Removes the oldest file, shifts the others up in descending order, opens a new active file. */
    method ShiftFiles()
      requires 0 < maxFiles
      modifies fs
      ensures fs.files == PerformAll(old(fs.files), RotateOps(path, maxFiles))
      ensures fs.journal == old(fs.journal) + RotateOps(path, maxFiles)
    {
      ghost var f, j, ops := fs.files, fs.journal, RotateOps(path, maxFiles);
      DoNext(Remove(RotatedPath(path, maxFiles)), f, j, 0);
      var n := maxFiles - 1;
      while n >= 1
        invariant 0 <= n < maxFiles
        invariant fs.files == PerformAll(f, ops[..maxFiles - n])
        invariant fs.journal == j + ops[..maxFiles - n]
      {
        DoNext(Rename(RotatedPath(path, n), RotatedPath(path, n + 1)), f, j, maxFiles - n);
        n := n - 1;
      }
      DoNext(Rename(path, RotatedPath(path, 1)), f, j, maxFiles);
      DoNext(OpenTruncated(path), f, j, maxFiles + 1);
      assert ops[..maxFiles + 2] == ops;
    }

    method Rotate()
      requires Valid()
      modifies this`file, this`currentSize, fs
      ensures Valid() && currentSize == 0 && history == old(history)
      ensures Shifted(old(fs.files), fs.files, path, maxFiles)
      ensures fs.journal == old(fs.journal) + RotateOps(path, maxFiles)
    {
      ghost var f, ops := fs.files, RotateOps(path, maxFiles);
      assert ops[..maxFiles + 2] == ops;
      AfterPrefix(f, path, maxFiles, maxFiles + 2);
      RotationKeepsHistory(history, f, path, maxFiles, maxFiles + 2);
      file := None;
      ShiftFiles();
      file, currentSize := Some(path), 0;
    }

    /**
      `accepted` is how many bytes the operating system takes of this record. What is kept
      stays a suffix of the history, and the active file fits or is part of one record.
     */
    method Write(buf: seq<byte>, accepted: nat) returns (r: Result<nat, string>)
      requires Valid() && accepted <= |buf|
      modifies this`file, this`currentSize, this`history, fs
      ensures Valid() && r == Ok(accepted) && history == old(history) + buf[..accepted]
      ensures fs.files[path] <= buf || |fs.files[path]| <= maxSize
      ensures old(currentSize > 0 && currentSize + |buf| > maxSize)
              ==> Shifted(old(fs.files), fs.files[path := []], path, maxFiles) && fs.files[path] == buf[..accepted]
      ensures !old(currentSize > 0 && currentSize + |buf| > maxSize)
              ==> fs.files == old(fs.files[path := fs.files[path] + buf[..accepted]])
      ensures SameElsewhere(old(fs.files), fs.files, path, maxFiles)
    {
      if currentSize > 0 && currentSize + |buf| > maxSize {
        Rotate();
      }
      if file.None? {
        return Err("SizeRotatingWriter has no open file");
      }
      ghost var g := fs.files;
      KeptAfterAppend(g, path, maxFiles, buf[..accepted]);
      SuffixGrows(history, Kept(g, path, maxFiles), buf[..accepted]);
      fs.Do(Append(path, buf[..accepted]));
      currentSize := currentSize + accepted;
      history := history + buf[..accepted];
      assert IsSlot(path, maxFiles, Slot(path, 0));
      assert g[path := []] == fs.files[path := []];
      return Ok(accepted);
    }
  }

  /** A rotation or a write never creates a rotated file beyond the limit. */
  lemma NoSlotBeyondLimit(f: Files, g: Files, path: string, max: nat, n: nat)
    requires SameElsewhere(f, g, path, max) && max < n
    ensures RotatedPath(path, n) in g <==> RotatedPath(path, n) in f
  {
    AllSlotsAreDistinct(path);
    assert !IsSlot(path, max, Slot(path, n));
    assert SameAt(f, Slot(path, n), g, Slot(path, n));
  }

  /** The rotated files are called after the log, with a dot and their number. */
  lemma RotatedNames(path: string)
    ensures Slot(path, 0) == path && Slot(path, 1) == path + ".1" && Slot(path, 10) == path + ".10"
  {
    assert Decimal(1) == "1" && Decimal(10) == "10";
    assert path + "." + "1" == path + ".1" && path + "." + "10" == path + ".10";
  }
}
