/** The write buffer between the upload machine and the file it fills. */
module UploadBuffer {
  import opened Wrappers
  import opened UploadStream

  const DEFAULT_BUFFER: nat := 8 * 1024

  type Path = string

  datatype IoError = EofKind | ZeroKind | FullKind | OtherKind(msg: string)

  function ToUploadError(e: IoError): (r: UploadError)
    ensures (r.UnexpectedEof? <==> e.EofKind?) && (r.WriteZero? <==> e.ZeroKind?) && (r.StorageFull? <==> e.FullKind?)
    ensures e.OtherKind? ==> r == Io(e.msg)
  {
    match e
    case EofKind => UnexpectedEof
    case ZeroKind => WriteZero
    case FullKind => StorageFull
    case OtherKind(msg) => Io(msg)
  }

  /** What the device has answered: how often Pending, which failures, how often it may still accept zero
      bytes of a non-empty write, and how often it has flushed a file. */
  datatype Tally = Tally(waits: nat, errors: seq<IoError>, stalls: nat, flushes: nat)

  /** Between two moments the device has neither answered Pending nor failed. */
  ghost predicate Worked(a: Tally, a': Tally) {
    a'.waits == a.waits && a'.errors == a.errors && a'.stalls <= a.stalls && a'.flushes == a.flushes
  }

  /** The same, and it has flushed a file. */
  ghost predicate Flushed(a: Tally, a': Tally) {
    a'.waits == a.waits && a'.errors == a.errors && a'.stalls <= a.stalls && a'.flushes == a.flushes + 1
  }

  /** It has answered Pending once. */
  ghost predicate Waited(a: Tally, a': Tally) {
    a'.waits == a.waits + 1 && a'.errors == a.errors && a'.stalls <= a.stalls && a'.flushes == a.flushes
  }

  /** It has failed once, with `e`, or accepted zero bytes where that is an error. */
  ghost predicate Failed(a: Tally, a': Tally, e: IoError) {
    && a'.waits == a.waits && a'.stalls <= a.stalls && a'.flushes == a.flushes
    && (a'.errors == a.errors + [e] || (e == EofKind && a'.errors == a.errors && a'.stalls < a.stalls))
  }

  /** An answer is the device's own. */
  ghost predicate Answered<T>(r: Poll<Result<T, IoError>>, a: Tally, a': Tally) {
    match r
    case Pending => Waited(a, a')
    case Ready(Ok(_)) => Worked(a, a')
    case Ready(Err(e)) => Failed(a, a', e)
  }

  /** The same for the answer to a flush, which never takes zero bytes for an error. */
  ghost predicate AnsweredFlush(r: Poll<Result<(), IoError>>, a: Tally, a': Tally) {
    match r
    case Pending => Waited(a, a')
    case Ready(Ok(_)) => Flushed(a, a')
    case Ready(Err(e)) => Failed(a, a', e) && a'.errors == a.errors + [e]
  }

  /** The files an upload writes.  `stalls` bounds how often the device may still accept zero bytes
      of a non-empty write; a device that always makes progress has none left. */
  class Disk {
    var files: map<Path, Bytes>
    var stalls: nat
    ghost var waits: nat
    ghost var errors: seq<IoError>
    ghost var flushes: nat

    constructor (files: map<Path, Bytes>, stalls: nat)
      ensures this.files == files && Account() == Tally(0, [], stalls, 0)
    {
      this.files, this.stalls, waits, errors, flushes := files, stalls, 0, [], 0;
    }

    ghost function Account(): Tally
      reads this
    {
      Tally(waits, errors, stalls, flushes)
    }

    /** Creates an empty file in the place of whatever was there. */
    method PollCreate(path: Path) returns (r: Poll<Result<(), IoError>>)
      modifies this
      ensures Answered(r, old(Account()), Account()) && stalls == old(stalls)
      ensures files == if r.Ready? && r.value.Ok? then old(files)[path := []] else old(files)
    {
      if * {
        waits := waits + 1;
        r := Pending;
      } else if * {
        var e: IoError := *;
        errors := errors + [e];
        r := Ready(Err(e));
      } else {
        files := files[path := []];
        r := Ready(Ok(()));
      }
    }
  }

  /** An open file.  It may answer Pending, fail, or accept any part of what it is given. */
  class File {
    const path: Path
    const disk: Disk

    constructor (path: Path, disk: Disk)
      ensures this.path == path && this.disk == disk
    {
      this.path, this.disk := path, disk;
    }

    ghost predicate Valid()
      reads disk
    {
      path in disk.files
    }

    ghost function Contents(): Bytes
      requires Valid()
      reads disk
    {
      disk.files[path]
    }

    method PollWrite(buf: Bytes) returns (r: Poll<Result<nat, IoError>>)
      requires Valid()
      modifies disk
      ensures Valid() && Answered(r, old(disk.Account()), disk.Account())
      ensures !(r.Ready? && r.value.Ok?) ==> disk.files == old(disk.files) && disk.stalls == old(disk.stalls)
      ensures r.Ready? && r.value.Ok? ==>
                var n := r.value.value;
                && n <= |buf|
                && disk.files == old(disk.files)[path := old(Contents()) + buf[..n]]
                && if n == 0 && buf != [] then disk.stalls < old(disk.stalls) else disk.stalls == old(disk.stalls)
    {
      if * {
        disk.waits := disk.waits + 1;
        r := Pending;
      } else if * {
        var e: IoError := *;
        disk.errors := disk.errors + [e];
        r := Ready(Err(e));
      } else {
        assert |buf| <= |buf|;
        var n: nat :| n <= |buf| && (n == 0 && buf != [] ==> disk.stalls > 0);
        if n == 0 && buf != [] {
          disk.stalls := disk.stalls - 1;
        }
        disk.files := disk.files[path := disk.files[path] + buf[..n]];
        r := Ready(Ok(n));
      }
    }

    method PollFlush() returns (r: Poll<Result<(), IoError>>)
      modifies disk
      ensures AnsweredFlush(r, old(disk.Account()), disk.Account())
      ensures disk.files == old(disk.files) && disk.stalls == old(disk.stalls)
    {
      if * {
        disk.waits := disk.waits + 1;
        r := Pending;
      } else if * {
        var e: IoError := *;
        disk.errors := disk.errors + [e];
        r := Ready(Err(e));
      } else {
        disk.flushes := disk.flushes + 1;
        r := Ready(Ok(()));
      }
    }
  }

  class Buffer {
    const inner: File
    const capacity: nat
    var bytes: Bytes

    constructor (writer: File)
      requires writer.Valid()
      ensures Valid() && inner == writer && bytes == [] && capacity == 8192
    {
      inner, bytes, capacity := writer, [], DEFAULT_BUFFER;
    }

    ghost predicate Valid()
      reads this, inner.disk
    {
      inner.Valid() && |bytes| < capacity
    }

    /** Everything handed over so far: what is on disk, then what is buffered. */
    ghost function Written(): Bytes
      requires inner.Valid()
      reads this, inner.disk
    {
      inner.Contents() + bytes
    }

    /** No file but this one changed, and this one only grew. */
    twostate predicate OnlyGrew()
      reads this, inner.disk
    {
      && old(inner.Valid()) && inner.Valid()
      && inner.disk.files == old(inner.disk.files)[inner.path := inner.Contents()]
      && old(inner.Contents()) <= inner.Contents()
    }

    /** Empties the buffer into the file; a write of zero bytes is an error here. */
    method WriteFlush() returns (r: Poll<Result<(), IoError>>)
      requires Valid()
      modifies this, inner.disk
      ensures Valid() && OnlyGrew() && Answered(r, old(inner.disk.Account()), inner.disk.Account())
      ensures Written() == old(Written())
      ensures r.Ready? && r.value.Ok? ==> bytes == []
      ensures r.Pending? || r.value.Ok? ==> inner.disk.stalls == old(inner.disk.stalls)
    {
      while true
        invariant Valid() && OnlyGrew() && Worked(old(inner.disk.Account()), inner.disk.Account())
        invariant Written() == old(Written()) && inner.disk.stalls == old(inner.disk.stalls)
        decreases |bytes|
      {
        if bytes == [] {
          return Ready(Ok(()));
        }
        ghost var before := Written();
        var answer := inner.PollWrite(bytes);
        match answer {
          case Ready(Ok(n)) =>
            if n == 0 {
              assert Written() == before;
              return Ready(Err(EofKind));
            }
            if |bytes| < n {
              assert false;
            }
            bytes := bytes[n..];
            assert Written() == before;
          case Ready(Err(e)) =>
            return Ready(Err(e));
          case Pending =>
            return Pending;
        }
      }
    }

    /** Accepts some first part of `buf`: buffered if it is small, passed straight on if it is large; what
        does not fit beside it is written out first. */
    method PollWrite(buf: Bytes) returns (r: Poll<Result<nat, IoError>>)
      requires Valid()
      modifies this, inner.disk
      ensures Valid() && OnlyGrew() && Answered(r, old(inner.disk.Account()), inner.disk.Account())
      ensures |buf| + |old(bytes)| < capacity ==>
                r == Ready(Ok(|buf|)) && bytes == old(bytes) + buf && inner.disk.files == old(inner.disk.files)
      ensures r.Ready? && r.value.Ok? && |buf| + |old(bytes)| >= capacity ==>
                bytes == if |buf| < capacity then buf else []
      ensures !(r.Ready? && r.value.Ok?) ==> Written() == old(Written())
      ensures r.Ready? && r.value.Ok? ==>
                && r.value.value <= |buf|
                && Written() == old(Written()) + buf[..r.value.value]
                && (r.value.value == 0 && buf != [] ==> inner.disk.stalls < old(inner.disk.stalls))
    {
      if |buf| + |bytes| >= capacity {
        var flushed := WriteFlush();
        match flushed {
          case Pending => return Pending;
          case Ready(Err(e)) => return Ready(Err(e));
          case Ready(Ok(_)) =>
        }
      }
      if |buf| >= capacity {
        r := inner.PollWrite(buf);
        assert bytes == [];
      } else {
        bytes := bytes + buf;
        r := Ready(Ok(|buf|));
      }
    }

    /** Empties the buffer into the file and flushes the file. */
    method PollFlush() returns (r: Poll<Result<(), IoError>>)
      requires Valid()
      modifies this, inner.disk
      ensures Valid() && OnlyGrew() && AnsweredFlush(r, old(inner.disk.Account()), inner.disk.Account())
      ensures Written() == old(Written())
      ensures r.Ready? && r.value.Ok? ==> bytes == []
    {
      while bytes != []
        invariant Valid() && OnlyGrew() && Worked(old(inner.disk.Account()), inner.disk.Account())
        invariant Written() == old(Written())
        decreases |bytes|, inner.disk.stalls
      {
        ghost var before := Written();
        var answer := inner.PollWrite(bytes);
        match answer {
          case Ready(Ok(n)) =>
            bytes := bytes[n..];
            assert Written() == before;
          case Ready(Err(e)) =>
            return Ready(Err(e));
          case Pending =>
            return Pending;
        }
      }
      r := inner.PollFlush();
    }
  }
}
