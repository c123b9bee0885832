/** `MMappedFileDescriptor`: a read-only memory mapping of a range of an open
    file, with two metric counters (mapped files and mapped bytes). The
    system calls are abstract: `fstat` reports a size or fails, `mmap`
    returns an address or fails, `munmap` succeeds or fails. */
module MMappedFile {
  import opened Wrappers

  datatype Error = CannotAllocateMemory | CannotMunmap | CannotStat | BadArguments | LogicalError

  /** What `fstat` reports: failure, or the signed `st_size` of the file. */
  datatype StatResult = StatFailed | Stat(size: int)

  /** A snapshot of the descriptor. `data` is the address of the mapping
      (0 is the null pointer); `mapped` says whether the kernel holds a
      mapping of `length` bytes at `data` made by this object;
      `filesMetric` and `bytesMetric` are the object's contributions to the
      two metrics. */
  datatype Descriptor = Descriptor(
    fd: int, offset: nat, length: nat, data: nat,
    filesMetric: nat, bytesMetric: nat, mapped: bool)

  /** An operation's outcome and the descriptor it leaves behind. */
  datatype Step = Step(outcome: Outcome<Error>, after: Descriptor)

  /** The metrics mirror the live mapping: one file and `length` bytes while
      mapped, nothing otherwise. */
  predicate MetricsMirror(d: Descriptor)
  {
    && (d.mapped ==> d.length > 0 && d.filesMetric == 1 && d.bytesMetric == d.length)
    && (!d.mapped ==> d.filesMetric == 0 && d.bytesMetric == 0)
  }

  /** `getFileSize`: the size `fstat` reports, refused when `fstat` fails or
      reports a negative size. */
  function GetFileSize(stat: StatResult): (r: Result<nat, Error>)
    ensures stat.StatFailed? ==> r == Failure(CannotStat)
    ensures stat.Stat? && stat.size < 0 ==> r == Failure(LogicalError)
    ensures r.Success? <==> stat.Stat? && stat.size >= 0
    ensures r.Success? ==> r.value == stat.size
  {
    match stat
    case StatFailed => Failure(CannotStat)
    case Stat(size) => if size < 0 then Failure(LogicalError) else Success(size)
  }

  /** `finish()`: unmaps the range when there is one. With length 0 it does
      nothing; a failing `munmap` throws and leaves everything as it was. */
  function FinishStep(d: Descriptor, munmapSucceeds: bool): (s: Step)
    ensures d.length == 0 ==> s == Step(Pass, d)
    ensures d.length > 0 && !munmapSucceeds ==> s == Step(Fail(CannotMunmap), d)
    ensures d.length > 0 && munmapSucceeds ==> s.outcome.Pass?
    ensures s.outcome.Pass? ==> s.after.length == 0 && !(d.length > 0 && s.after.mapped)
    ensures MetricsMirror(d) ==> MetricsMirror(s.after)
    ensures MetricsMirror(d) && s.outcome.Pass? ==>
              !s.after.mapped && s.after.filesMetric == 0 && s.after.bytesMetric == 0
    ensures s.after.fd == d.fd && s.after.offset == d.offset && s.after.data == d.data
  {
    if d.length == 0 then Step(Pass, d)
    else if !munmapSucceeds then Step(Fail(CannotMunmap), d)
    else Step(Pass, d.(length := 0, filesMetric := 0, bytesMetric := 0, mapped := false))
  }

  /** `finish()` is idempotent: once it has succeeded, a second call does
      nothing, whatever `munmap` would do. */
  lemma FinishIdempotent(d: Descriptor, first: bool, second: bool)
    requires FinishStep(d, first).outcome.Pass?
    ensures FinishStep(FinishStep(d, first).after, second) == Step(Pass, FinishStep(d, first).after)
  {
  }

  /** `set(fd, offset, length)`: releases the previous mapping, records the
      new range, and maps it unless it is empty. When `mmap` fails, the new
      length has already been recorded while nothing is mapped. */
  function SetRangeStep(d: Descriptor, fd: int, offset: nat, length: nat,
                        munmapSucceeds: bool, mmapResult: Option<nat>): (s: Step)
    ensures FinishStep(d, munmapSucceeds).outcome.Fail? ==> s == Step(Fail(CannotMunmap), d)
    ensures FinishStep(d, munmapSucceeds).outcome.Pass? ==>
              s.after.fd == fd && s.after.offset == offset && s.after.length == length
    ensures FinishStep(d, munmapSucceeds).outcome.Pass? && (length == 0 || mmapResult.Some?) ==>
              s.outcome.Pass?
    ensures FinishStep(d, munmapSucceeds).outcome.Pass? && length == 0 ==>
              s.after.data == d.data && (MetricsMirror(d) ==> !s.after.mapped)
    ensures s.outcome.Pass? && length > 0 ==>
              && s.after.mapped && mmapResult == Some(s.after.data)
              && s.after.filesMetric == 1 && s.after.bytesMetric == length
    ensures FinishStep(d, munmapSucceeds).outcome.Pass? && length > 0 && mmapResult.None? ==>
              && s.outcome == Fail(CannotAllocateMemory) && s.after.length == length
              && s.after.data == d.data
              && (MetricsMirror(d) ==> !s.after.mapped)
    ensures MetricsMirror(d) ==> MetricsMirror(s.after)
  {
    var finished := FinishStep(d, munmapSucceeds);
    if finished.outcome.Fail? then finished
    else
      var recorded := finished.after.(fd := fd, offset := offset, length := length);
      if length == 0 then Step(Pass, recorded)
      else match mmapResult
        case None => Step(Fail(CannotAllocateMemory), recorded)
        case Some(address) =>
          Step(Pass, recorded.(data := address, mapped := true, filesMetric := 1, bytesMetric := length))
  }

  /** After a failed `mmap` the object records a non-empty range while
      nothing is mapped and `data` still holds the previous address, so the
      next `finish()` (or the destructor) calls `munmap` on that address
      with the new length. */
  lemma FailedMmapLeavesUnmappedRange(d: Descriptor, fd: int, offset: nat, length: nat)
    requires MetricsMirror(d) && length > 0
    ensures var s := SetRangeStep(d, fd, offset, length, true, None);
            && s.outcome == Fail(CannotAllocateMemory)
            && s.after.length > 0 && !s.after.mapped && s.after.data == d.data
            && s.after.filesMetric == 0 && s.after.bytesMetric == 0
  {
  }

  /** The mapping `set(fd, offset)` asks for once the size check has passed:
      from `offset` to the end of the file. */
  function ToEndOfFile(d: Descriptor, fd: int, offset: nat, checkedOffset: nat, stat: StatResult,
                       munmapSucceeds: bool, mmapResult: Option<nat>): Step
  {
    match GetFileSize(stat)
    case Failure(e) => Step(Fail(e), d)
    case Success(fileSize) =>
      if checkedOffset > fileSize then Step(Fail(BadArguments), d)
      else SetRangeStep(d, fd, offset, fileSize - checkedOffset, munmapSucceeds, mmapResult)
  }

  /** `set(fd, offset)` as written: the bound check and the length use the
      member `offset` (the previous one), while the mapping starts at the
      argument. */
  function SetToEndOfFileStepAsWritten(d: Descriptor, fd: int, offset: nat, stat: StatResult,
                                       munmapSucceeds: bool, mmapResult: Option<nat>): (s: Step)
    ensures GetFileSize(stat).Failure? ==> s == Step(Fail(GetFileSize(stat).error), d)
    ensures GetFileSize(stat).Success? ==>
              (s.outcome == Fail(BadArguments) <==> d.offset > GetFileSize(stat).value)
    ensures GetFileSize(stat).Success? && d.offset <= GetFileSize(stat).value
            && FinishStep(d, munmapSucceeds).outcome.Pass? ==>
              s.after.offset == offset && s.after.length == GetFileSize(stat).value - d.offset
    ensures GetFileSize(stat).Success? && d.offset <= GetFileSize(stat).value ==>
              s == SetRangeStep(d, fd, offset, GetFileSize(stat).value - d.offset, munmapSucceeds, mmapResult)
    ensures GetFileSize(stat).Success? && d.offset <= GetFileSize(stat).value
            && FinishStep(d, munmapSucceeds).outcome.Pass?
            && (GetFileSize(stat).value == d.offset || mmapResult.Some?) ==>
              s.outcome.Pass? && s.after.fd == fd
    ensures MetricsMirror(d) ==> MetricsMirror(s.after)
  {
    ToEndOfFile(d, fd, offset, d.offset, stat, munmapSucceeds, mmapResult)
  }

  /** A descriptor that last mapped from offset 0, asked to map a 50-byte
      file from offset 100: the check passes and 50 bytes are mapped from
      offset 100, all of them past the end of the file. */
  lemma AsWrittenMapsPastEndOfFile()
    ensures var d := Descriptor(3, 0, 0, 0, 0, 0, false);
            var s := SetToEndOfFileStepAsWritten(d, 3, 100, Stat(50), true, Some(4096));
            s.outcome.Pass? && s.after.mapped && s.after.offset == 100 && s.after.length == 50
            && s.after.offset + s.after.length > 50
  {
  }

  /** `set(fd, offset)` as evidently intended: the argument offset is checked
      against the file size, and the mapping ends exactly at the end of the
      file. */
  function SetToEndOfFileStep(d: Descriptor, fd: int, offset: nat, stat: StatResult,
                              munmapSucceeds: bool, mmapResult: Option<nat>): (s: Step)
    ensures GetFileSize(stat).Failure? ==> s == Step(Fail(GetFileSize(stat).error), d)
    ensures GetFileSize(stat).Success? ==>
              (s.outcome == Fail(BadArguments) <==> offset > GetFileSize(stat).value)
    ensures GetFileSize(stat).Success? && offset <= GetFileSize(stat).value
            && FinishStep(d, munmapSucceeds).outcome.Pass? ==>
              s.after.offset == offset && s.after.offset + s.after.length == GetFileSize(stat).value
    ensures GetFileSize(stat).Success? && offset <= GetFileSize(stat).value ==>
              s == SetRangeStep(d, fd, offset, GetFileSize(stat).value - offset, munmapSucceeds, mmapResult)
    ensures GetFileSize(stat).Success? && offset <= GetFileSize(stat).value
            && FinishStep(d, munmapSucceeds).outcome.Pass?
            && (GetFileSize(stat).value == offset || mmapResult.Some?) ==>
              s.outcome.Pass? && s.after.fd == fd
    ensures MetricsMirror(d) ==> MetricsMirror(s.after)
  {
    ToEndOfFile(d, fd, offset, offset, stat, munmapSucceeds, mmapResult)
  }

  /** The two agree whenever the member offset already equals the argument,
      as in the two-argument constructor. */
  lemma AsWrittenAgreesWhenOffsetsMatch(d: Descriptor, fd: int, offset: nat, stat: StatResult,
                                        munmapSucceeds: bool, mmapResult: Option<nat>)
    requires d.offset == offset
    ensures SetToEndOfFileStepAsWritten(d, fd, offset, stat, munmapSucceeds, mmapResult)
            == SetToEndOfFileStep(d, fd, offset, stat, munmapSucceeds, mmapResult)
  {
  }

  class MMappedFileDescriptor {
    var fd: int
    var offset: nat
    var length: nat
    var data: nat
    var filesMetric: nat
    var bytesMetric: nat
    ghost var mapped: bool

    ghost function Snapshot(): Descriptor
      reads this
    {
      Descriptor(fd, offset, length, data, filesMetric, bytesMetric, mapped)
    }

    ghost predicate Valid()
      reads this
    {
      MetricsMirror(Snapshot())
    }

    /** The member initial values: no file, nothing mapped, null address. */
    constructor Unmapped(fd: int, offset: nat)
      ensures Valid()
      ensures Snapshot() == Descriptor(fd, offset, 0, 0, 0, 0, false)
    {
      this.fd, this.offset := fd, offset;
      length, data := 0, 0;
      filesMetric, bytesMetric := 0, 0;
      mapped := false;
    }

    /** `finish()`. */
    method Finish(munmapSucceeds: bool) returns (outcome: Outcome<Error>)
      requires Valid()
      modifies this
      ensures Valid()
      ensures Step(outcome, Snapshot()) == FinishStep(old(Snapshot()), munmapSucceeds)
    {
      if length == 0 {
        return Pass;
      }
      if !munmapSucceeds {
        return Fail(CannotMunmap);
      }
      length := 0;
      filesMetric := 0;
      bytesMetric := 0;
      mapped := false;
      return Pass;
    }

    /** `set(fd, offset, length)`. */
    method SetRange(fd: int, offset: nat, length: nat, munmapSucceeds: bool, mmapResult: Option<nat>)
      returns (outcome: Outcome<Error>)
      requires Valid()
      modifies this
      ensures Valid()
      ensures Step(outcome, Snapshot()) == SetRangeStep(old(Snapshot()), fd, offset, length, munmapSucceeds, mmapResult)
    {
      var finished := Finish(munmapSucceeds);
      if finished.Fail? {
        return finished;
      }
      this.fd := fd;
      this.offset := offset;
      this.length := length;
      if this.length == 0 {
        return Pass;
      }
      if mmapResult.None? {
        return Fail(CannotAllocateMemory);
      }
      data := mmapResult.value;
      mapped := true;
      filesMetric := 1;
      bytesMetric := this.length;
      return Pass;
    }

    /** `set(fd, offset)`, as written: the check reads the member `offset`. */
    method SetToEndOfFile(fd: int, offset: nat, stat: StatResult, munmapSucceeds: bool, mmapResult: Option<nat>)
      returns (outcome: Outcome<Error>)
      requires Valid()
      modifies this
      ensures Valid()
      ensures Step(outcome, Snapshot())
              == SetToEndOfFileStepAsWritten(old(Snapshot()), fd, offset, stat, munmapSucceeds, mmapResult)
    {
      var fileSize := GetFileSize(stat);
      if fileSize.Failure? {
        return Fail(fileSize.error);
      }
      if this.offset > fileSize.value {
        return Fail(BadArguments);
      }
      outcome := SetRange(fd, offset, fileSize.value - this.offset, munmapSucceeds, mmapResult);
    }

    /** The destructor: `finish()`, where a failure terminates the process.
        When it returns normally, nothing is mapped and the metrics are 0. */
    method Destroy(munmapSucceeds: bool) returns (terminated: bool)
      requires Valid()
      modifies this
      ensures terminated <==> old(length) > 0 && !munmapSucceeds
      ensures !terminated ==> !mapped && length == 0 && filesMetric == 0 && bytesMetric == 0
    {
      var outcome := Finish(munmapSucceeds);
      terminated := outcome.Fail?;
    }
  }

  /** The constructor `MMappedFileDescriptor(fd, offset, length)`: maps the
      range, or throws and leaves no object. */
  method OpenRange(fd: int, offset: nat, length: nat, mmapResult: Option<nat>)
    returns (descriptor: MMappedFileDescriptor, outcome: Outcome<Error>)
    ensures fresh(descriptor) && descriptor.Valid()
    ensures Step(outcome, descriptor.Snapshot())
            == SetRangeStep(Descriptor(fd, offset, 0, 0, 0, 0, false), fd, offset, length, true, mmapResult)
    ensures outcome.Pass? && length > 0 ==> descriptor.mapped && descriptor.length == length
  {
    descriptor := new MMappedFileDescriptor.Unmapped(fd, offset);
    outcome := descriptor.SetRange(fd, offset, length, true, mmapResult);
  }

  /** The constructor `MMappedFileDescriptor(fd, offset)`: records the offset
      first, so the check of `set(fd, offset)` sees the argument and the
      mapping ends at the end of the file. */
  method OpenToEndOfFile(fd: int, offset: nat, stat: StatResult, mmapResult: Option<nat>)
    returns (descriptor: MMappedFileDescriptor, outcome: Outcome<Error>)
    ensures fresh(descriptor) && descriptor.Valid()
    ensures Step(outcome, descriptor.Snapshot())
            == SetToEndOfFileStep(Descriptor(fd, offset, 0, 0, 0, 0, false), fd, offset, stat, true, mmapResult)
  {
    descriptor := new MMappedFileDescriptor.Unmapped(fd, offset);
    outcome := descriptor.SetToEndOfFile(fd, offset, stat, true, mmapResult);
    AsWrittenAgreesWhenOffsetsMatch(Descriptor(fd, offset, 0, 0, 0, 0, false), fd, offset, stat, true, mmapResult);
  }
}
