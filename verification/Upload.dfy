/** The upload machine: tokens become files through a write buffer, one poll at a time. */
module Upload {
  import opened Wrappers
  import opened UploadStream
  import opened UploadBuffer

  datatype UploadResult = UploadResult(size: nat, fileName: string)

  datatype StateUpload = Writting(bytes: Bytes) | Reading | Flush | Create(path: Path) | Finished

  /** Where a field goes, from its type and its file name. */
  type Target = MetaFile -> Path

  // ---------- the machine without buffer, interruptions or short writes ----------

  datatype OpenFile = OpenFile(path: Path, name: string, payload: Bytes)

  /** A result, together with all the files as they stand when it is delivered. */
  datatype Stamp = Stamp(result: UploadResult, files: map<Path, Bytes>)

  type Answer = Result<Stamp, UploadError>

  /** Plain writing: create, append every chunk, report at the end of the field, stop at the first error. */
  ghost function Plain(items: seq<Item>, open: Option<OpenFile>, files: map<Path, Bytes>, target: Target): seq<Answer>
    requires Grammar(items, open.Some?)
  {
    if items == [] then []
    else match items[0]
      case Err(e) => [Err(e)]
      case Ok(New(meta)) =>
        var path := target(meta);
        Plain(items[1..], Some(OpenFile(path, meta.fileName, [])), files[path := []], target)
      case Ok(Chunk(b)) =>
        var grown := open.value.(payload := open.value.payload + b);
        Plain(items[1..], Some(grown), files[grown.path := grown.payload], target)
      case Ok(Eof) =>
        [Ok(Stamp(UploadResult(|open.value.payload|, open.value.name), files))] + Plain(items[1..], None, files, target)
  }

  /** The same outcome read off the form itself: every part is one file holding its concatenated chunks. */
  ghost function Expected(parts: seq<PartEvent>, allowed: seq<MimeAllowed>, files: map<Path, Bytes>, target: Target): seq<Answer>
  {
    if parts == [] then []
    else match parts[0]
      case PartWait => Expected(parts[1..], allowed, files, target)
      case PartFail(msg) => [Err(Multer(msg))]
      case Part(None, _, _) => [Err(FileNameNotFound)]
      case Part(Some(name), None, _) => [Err(MimeNotFound(name))]
      case Part(Some(name), Some(mime), body) =>
        if !IsAllowed(allowed, mime) then [Err(MimeNotAllowed(name, mime))]
        else if BodyFails(body) then [Err(Multer(Failure(body)))]
        else
          var stored := files[target(MetaFile(name, mime)) := Payload(body)];
          [Ok(Stamp(UploadResult(|Payload(body)|, name), stored))] + Expected(parts[1..], allowed, stored, target)
  }

  /** What a field and the items behind it come to: one file with all its chunks behind what it already holds. */
  ghost function FieldAnswers(body: seq<BodyEvent>, after: seq<Item>, open: OpenFile, files: map<Path, Bytes>, target: Target): seq<Answer>
    requires Grammar(after, false)
  {
    var whole := open.payload + Payload(body);
    if BodyFails(body) then [Err(Multer(Failure(body)))]
    else [Ok(Stamp(UploadResult(|whole|, open.name), files[open.path := whole]))] + Plain(after, None, files[open.path := whole], target)
  }

  lemma ChunkAnswers(body: seq<BodyEvent>, after: seq<Item>, open: OpenFile, files: map<Path, Bytes>, target: Target)
    requires Grammar(after, false) && body != [] && body[0].BodyChunk?
    ensures var grown := open.(payload := open.payload + body[0].bytes);
            FieldAnswers(body, after, open, files, target) == FieldAnswers(body[1..], after, grown, files[open.path := grown.payload], target)
  {
    var grown, whole := open.(payload := open.payload + body[0].bytes), open.payload + Payload(body);
    assert grown.payload + Payload(body[1..]) == whole;
    assert files[open.path := grown.payload][open.path := whole] == files[open.path := whole];
  }

  /** Plain writing of one field stores the concatenation of its chunks after what it already holds. */
  lemma {:induction false} PlainBody(body: seq<BodyEvent>, after: seq<Item>, open: OpenFile, files: map<Path, Bytes>, target: Target)
    requires Grammar(after, false) && Complete(after, false)
    requires open.path in files && files[open.path] == open.payload
    ensures var items := BodyTokens(body) + if BodyFails(body) then [] else after;
            Grammar(items, true) && Plain(items, Some(open), files, target) == FieldAnswers(body, after, open, files, target)
  {
    BodyGrammar(body, after);
    var tail := if BodyFails(body) then [] else after;
    if body == [] {
      assert ([Ok(Eof)] + tail)[1..] == tail;
      assert files[open.path := open.payload] == files;
      assert open.payload + [] == open.payload;
    } else {
      match body[0]
      case BodyWait =>
        PlainBody(body[1..], after, open, files, target);
      case BodyChunk(b) =>
        var grown := open.(payload := open.payload + b);
        BodyGrammar(body[1..], after);
        PlainBody(body[1..], after, grown, files[open.path := grown.payload], target);
        assert BodyTokens(body) + tail == [Ok(Chunk(b))] + (BodyTokens(body[1..]) + tail);
        PlainChunk(b, BodyTokens(body[1..]) + tail, open, files, target);
        ChunkAnswers(body, after, open, files, target);
      case BodyFail(msg) =>
        assert BodyTokens(body) + tail == [Err(Multer(msg))];
    }
  }

  /** Plain writing of a whole form is what the form says. */
  lemma {:induction false} PlainIsExpected(parts: seq<PartEvent>, allowed: seq<MimeAllowed>, files: map<Path, Bytes>, target: Target)
    ensures Grammar(PartTokens(parts, allowed), false)
    ensures Plain(PartTokens(parts, allowed), None, files, target) == Expected(parts, allowed, files, target)
  {
    PartGrammar(parts, allowed);
    if parts != [] {
      match parts[0]
      case PartWait =>
        PlainIsExpected(parts[1..], allowed, files, target);
      case Part(Some(name), Some(mime), body) =>
        if IsAllowed(allowed, mime) {
          var path := target(MetaFile(name, mime));
          var stored := files[path := Payload(body)];
          PartGrammar(parts[1..], allowed);
          PlainBody(body, PartTokens(parts[1..], allowed), OpenFile(path, name, []), files[path := []], target);
          PlainIsExpected(parts[1..], allowed, stored, target);
          assert PartTokens(parts, allowed)[1..] == FieldTokens(body, parts[1..], allowed);
          assert [] + Payload(body) == Payload(body);
          assert files[path := []][path := Payload(body)] == stored;
        }
      case _ =>
    }
  }

  lemma PlainChunk(b: Bytes, rest: seq<Item>, open: OpenFile, files: map<Path, Bytes>, target: Target)
    requires Grammar(rest, true)
    ensures Grammar([Ok(Chunk(b))] + rest, true)
    ensures Plain([Ok(Chunk(b))] + rest, Some(open), files, target) ==
            Plain(rest, Some(open.(payload := open.payload + b)), files[open.path := open.payload + b], target)
  {
    assert ([Ok(Chunk(b))] + rest)[1..] == rest;
  }

  /** Writing the first part of a chunk and carrying the rest is writing the chunk. */
  lemma PlainWrite(b: Bytes, n: nat, rest: seq<Item>, open: OpenFile, files: map<Path, Bytes>, target: Target)
    requires Grammar(rest, true) && n <= |b|
    ensures var grown := open.(payload := open.payload + b[..n]);
            var stored := files[open.path := grown.payload];
            && Grammar([Ok(Chunk(b))] + rest, true)
            && Grammar([Ok(Chunk(b[n..]))] + rest, true)
            && Plain([Ok(Chunk(b))] + rest, Some(open), files, target) ==
               Plain([Ok(Chunk(b[n..]))] + rest, Some(grown), stored, target)
            && (n == |b| ==> Plain([Ok(Chunk(b))] + rest, Some(open), files, target) == Plain(rest, Some(grown), stored, target))
  {
    var grown := open.(payload := open.payload + b[..n]);
    var stored := files[open.path := grown.payload];
    PlainChunk(b, rest, open, files, target);
    PlainChunk(b[n..], rest, grown, stored, target);
    assert grown.payload + b[n..] == open.payload + b;
    assert stored[open.path := open.payload + b] == files[open.path := open.payload + b];
    if n == |b| {
      assert b[..n] == b;
    }
  }

  // ---------- what a caller sees of a poll ----------

  type PollAnswer = Poll<Option<Result<UploadResult, UploadError>>>

  /** What a caller who knows plain writing can tell of an upload: what plain writing would still
      deliver, whether the machine is finished, the settled files and the disk. */
  datatype Outlook = Outlook(future: seq<Answer>, finished: bool, settled: map<Path, Bytes>, files: map<Path, Bytes>)

  /** What an answer says about the outlook before and after the poll. */
  ghost predicate Says(r: PollAnswer, io: bool, before: Outlook, after: Outlook) {
    match r
    case Pending => !io && !after.finished && after.future == before.future && after.settled == before.settled
    case Ready(None) =>
      && !io && after.finished && before.future == [] && after.future == [] && after.settled == before.settled
      && (!before.finished ==> after.settled == after.files)
    case Ready(Some(Ok(result))) =>
      && !io && !before.finished && !after.finished && after.settled == after.files
      && before.future == [Ok(Stamp(result, after.files))] + after.future
    case Ready(Some(Err(e))) =>
      && !before.finished && after.finished && after.future == [] && after.settled == before.settled
      && (!io ==> before.future == [Err(e)])
  }

  /** Who is to blame for an answer, told from the device's account and the waits left in the script before
      and after: Pending is one wait of the device or of the parser; a failure that is not plain writing's
      own (`io`) is one failure of the device, handed on; a result comes with one flush of its file; and no
      other answer hides any of these. */
  ghost predicate Blamed(r: Option<PollAnswer>, io: bool, a: Tally, a': Tally, waits: nat, waits': nat) {
    match r
    case None => Worked(a, a') && waits' == waits
    case Some(Pending) => (Waited(a, a') && waits' == waits) || (Worked(a, a') && waits' + 1 == waits)
    case Some(Ready(Some(Err(e)))) =>
      if io then waits' == waits && FailedWith(a, a', e) else Worked(a, a') && waits' <= waits
    case Some(Ready(Some(Ok(_)))) => Flushed(a, a') && waits' <= waits
    case Some(Ready(None)) => Worked(a, a') && waits' <= waits
  }

  /** The same for an answer that only the device has part in. */
  ghost predicate Excused(r: Option<PollAnswer>, io: bool, a: Tally, a': Tally) {
    match r
    case Some(Pending) => Waited(a, a')
    case Some(Ready(Some(Err(e)))) => io && FailedWith(a, a', e)
    case Some(Ready(Some(Ok(_)))) => Flushed(a, a')
    case _ => Worked(a, a')
  }

  ghost predicate FailedWith(a: Tally, a': Tally, e: UploadError) {
    exists d :: Failed(a, a', d) && e == ToUploadError(d)
  }

  // ---------- one moment of the machine, as a value ----------

  /** The write buffer: the file it belongs to and what it still holds. */
  datatype Held = Held(path: Path, bytes: Bytes)

  /** The stream (items, inField, unread), the disk, the buffer and the fields of the machine.
      Ghost bookkeeping: `settled` are the files as the last completed field left them; `open` and
      `payload` are the file being filled and everything its field will bring. */
  datatype Moment = Moment(
    items: seq<Item>, inField: bool, unread: Bytes,
    files: map<Path, Bytes>, buffer: Option<Held>,
    state: StateUpload, written: nat, meta: Option<MetaFile>,
    settled: map<Path, Bytes>, open: Option<Path>, payload: Bytes)
  {
    /** The part of the field the machine holds in its own hands. */
    ghost function Carry(): Bytes {
      if state.Writting? then state.bytes else []
    }

    ghost function Written(): Bytes
      requires buffer.Some? && buffer.value.path in files
    {
      files[buffer.value.path] + buffer.value.bytes
    }

    /** A file is open: disk, buffer, hands and script together hold exactly the field's payload. */
    ghost predicate Filling(target: Target) {
      && buffer.Some? && meta.Some? && buffer.value.path in files
      && buffer.value.path == target(meta.value)
      && open == Some(buffer.value.path)
      && written == |Written()|
      && Written() + Carry() + unread == payload
    }

    /** No file is open, and nothing is buffered. */
    ghost predicate Idle() {
      open == None && written == 0 && (buffer.Some? ==> buffer.value.bytes == [])
    }

    /** Only the open file differs from the settled files, and it holds a first part of its payload. */
    ghost predicate DiskTrails() {
      match open
      case None => files == settled
      case Some(path) => path in files && files == settled[path := files[path]] && files[path] <= payload
    }

    ghost predicate Good(target: Target) {
      && Grammar(items, inField) && DiskTrails() && (!inField ==> unread == [])
      && match state
         case Writting(_) => Filling(target) && inField
         case Flush => Filling(target) && !inField
         case Create(path) => Idle() && inField && meta.Some? && path == target(meta.value) && payload == unread
         case Reading => if inField then Filling(target) else Idle()
         case Finished => true
    }

    /** What plain writing would still deliver from here, buffered bytes counted as written. */
    ghost function Future(target: Target): seq<Answer>
      requires Good(target)
    {
      match state
      case Finished => []
      case Create(path) => After(New(meta.value), None, files, target)
      case Writting(b) => After(Chunk(b), Some(OpenFile(buffer.value.path, meta.value.fileName, Written())), Logical(), target)
      case Flush => After(Eof, Some(OpenFile(buffer.value.path, meta.value.fileName, Written())), Logical(), target)
      case Reading =>
        if inField then Plain(items, Some(OpenFile(buffer.value.path, meta.value.fileName, Written())), Logical(), target)
        else Plain(items, None, files, target)
    }

    ghost function View(target: Target): Outlook
      requires Good(target)
    {
      Outlook(Future(target), state.Finished?, settled, files)
    }

    /** Plain writing of the token in hand and of the items behind it. */
    ghost function After(token: Token, file: Option<OpenFile>, stored: map<Path, Bytes>, target: Target): seq<Answer>
      requires Grammar(items, !token.Eof?) && (token.New? <==> file.None?)
    {
      assert ([Ok(token)] + items)[1..] == items;
      Plain([Ok(token)] + items, file, stored, target)
    }

    ghost function Logical(): map<Path, Bytes>
      requires buffer.Some? && buffer.value.path in files
    {
      files[buffer.value.path := Written()]
    }

    /** The same moment with `token` taken off the stream. */
    ghost function Took(token: Token, items: seq<Item>, unread: Bytes, target: Target): Moment {
      var m := this.(items := items, inField := !token.Eof?, unread := unread);
      match token
      case New(meta) => m.(meta := Some(meta), state := Create(target(meta)), payload := unread)
      case Chunk(b) => m.(state := Writting(b))
      case Eof => m.(state := Flush)
    }

    /** The same moment with the new file created and open. */
    ghost function Created(): Moment
      requires state.Create?
    {
      this.(files := files[state.path := []], buffer := Some(Held(state.path, [])), state := Reading, open := Some(state.path))
    }

    /** The same moment with the open file closed. */
    ghost function Closed(): Moment {
      this.(state := Reading, written := 0, meta := None, settled := files, open := None)
    }

    /** The same moment with `contents` on disk in the buffer's file and `bytes` in the buffer. */
    ghost function Moved(contents: Bytes, bytes: Bytes): Moment
      requires buffer.Some?
    {
      this.(files := files[buffer.value.path := contents], buffer := Some(buffer.value.(bytes := bytes)))
    }
  }

  /** One turn of the poll loop: an answer, or progress that plain writing cannot see. */
  ghost predicate Turned(m: Moment, m': Moment, r: Option<PollAnswer>, io: bool, target: Target)
    requires m.Good(target)
  {
    && m'.Good(target)
    && match r
       case Some(answer) => Says(answer, io, m.View(target), m'.View(target)) && (m.state.Finished? ==> answer == Ready(None))
       case None => !io && !m.state.Finished? && m'.View(target) == m.View(target).(files := m'.files)
  }

  /** Some turns without an answer lead from `m` to `m'`. */
  ghost predicate Through(m: Moment, m': Moment, target: Target)
    requires m.Good(target)
  {
    m' == m || Turned(m, m', None, false, target)
  }

  lemma BlamedOn(r: Option<PollAnswer>, io: bool, a: Tally, a1: Tally, a2: Tally, waits: nat, waits1: nat, waits2: nat)
    requires Blamed(None, false, a, a1, waits, waits1) && Blamed(r, io, a1, a2, waits1, waits2)
    ensures Blamed(r, io, a, a2, waits, waits2)
  {
    if io && r.Some? && r.value.Ready? && r.value.value.Some? && r.value.value.value.Err? {
      var d :| Failed(a1, a2, d) && r.value.value.value.error == ToUploadError(d);
      assert Failed(a, a2, d);
    }
  }

  lemma OneMoreTurn(m: Moment, m1: Moment, m2: Moment, r: Option<PollAnswer>, io: bool, target: Target)
    requires m.Good(target) && Through(m, m1, target) && Turned(m1, m2, r, io, target)
    ensures if r.None? then !io && Through(m, m2, target) else Turned(m, m2, r, io, target)
  {
  }

  /** Moving buffered bytes to the disk shows nowhere but on the disk, also when it is interrupted. */
  lemma FlushedBytes(m: Moment, contents: Bytes, bytes: Bytes, target: Target)
    requires m.Good(target) && (m.state.Writting? || m.state.Flush?)
    requires contents + bytes == m.Written()
    ensures var m' := m.Moved(contents, bytes);
            && m'.Good(target) && m'.Future(target) == m.Future(target)
            && Turned(m, m', Some(Pending), false, target)
            && forall e :: Turned(m, m'.(state := Finished), Some(Ready(Some(Err(e)))), true, target)
  {
    assert contents <= m.Written() <= m.payload;
    assert m.Moved(contents, bytes).Logical() == m.Logical();
  }

  /** Taking the first `n` bytes of the chunk in hand. */
  lemma TookBytes(m: Moment, n: nat, contents: Bytes, bytes: Bytes, target: Target)
    requires m.Good(target) && m.state.Writting? && n <= |m.state.bytes|
    requires contents + bytes == m.Written() + m.state.bytes[..n]
    ensures var next := if n < |m.state.bytes| then Writting(m.state.bytes[n..]) else Reading;
            Turned(m, m.Moved(contents, bytes).(state := next, written := m.written + n), None, false, target)
  {
    var b := m.state.bytes;
    var next := if n < |b| then Writting(b[n..]) else Reading;
    var m' := m.Moved(contents, bytes).(state := next, written := m.written + n);
    var file := OpenFile(m.buffer.value.path, m.meta.value.fileName, m.Written());
    assert m'.Written() + m'.Carry() == m.Written() + b;
    assert contents <= m'.Written() <= m.payload;
    assert m'.Logical() == m.Logical()[file.path := file.payload + b[..n]];
    PlainWrite(b, n, m.items, file, m.Logical(), target);
  }

  /** The moment after the buffer has answered, and the machine's own answer if it has one. */
  ghost function Wrote(m: Moment, answer: Poll<Result<nat, IoError>>, contents: Bytes, bytes: Bytes): Moment
    requires m.buffer.Some? && m.state.Writting? && (answer.Ready? && answer.value.Ok? ==> answer.value.value <= |m.state.bytes|)
  {
    match answer
    case Pending => m.Moved(contents, bytes)
    case Ready(Err(_)) => m.Moved(contents, bytes).(state := Finished)
    case Ready(Ok(n)) =>
      var next := if n < |m.state.bytes| then Writting(m.state.bytes[n..]) else Reading;
      m.Moved(contents, bytes).(state := next, written := m.written + n)
  }

  function WriteAnswer(answer: Poll<Result<nat, IoError>>): Option<PollAnswer> {
    match answer
    case Pending => Some(Pending)
    case Ready(Err(e)) => Some(Ready(Some(Err(ToUploadError(e)))))
    case Ready(Ok(_)) => None
  }

  lemma WriteTurn(m: Moment, answer: Poll<Result<nat, IoError>>, contents: Bytes, bytes: Bytes, target: Target)
    requires m.Good(target) && m.state.Writting?
    requires var n := if answer.Ready? && answer.value.Ok? then answer.value.value else 0;
             n <= |m.state.bytes| && contents + bytes == m.Written() + m.state.bytes[..n]
    ensures Turned(m, Wrote(m, answer, contents, bytes), WriteAnswer(answer), answer.Ready? && answer.value.Err?, target)
  {
    if answer.Ready? && answer.value.Ok? {
      TookBytes(m, answer.value.value, contents, bytes, target);
    } else {
      assert m.Written() + m.state.bytes[..0] == m.Written();
      FlushedBytes(m, contents, bytes, target);
    }
  }

  lemma WriteExcused(answer: Poll<Result<nat, IoError>>, a: Tally, a': Tally)
    requires Answered(answer, a, a')
    ensures Excused(WriteAnswer(answer), answer.Ready? && answer.value.Err?, a, a')
  {
    if answer.Ready? && answer.value.Err? {
      assert Failed(a, a', answer.value.error);
    }
  }

  /** Taking a token off the stream. */
  lemma TookToken(m: Moment, token: Token, items: seq<Item>, unread: Bytes, target: Target)
    requires m.Good(target) && m.state.Reading? && m.items == [Ok(token)] + items
    requires Grammar(items, !token.Eof?)
    requires match token
             case New(_) => !m.inField
             case Chunk(b) => m.inField && m.unread == b + unread
             case Eof => m.inField && m.unread == [] && unread == []
    ensures Turned(m, m.Took(token, items, unread, target), None, false, target)
  {
    if token.Chunk? {
      assert m.Written() + token.bytes + unread == m.Written() + [] + m.unread;
    }
  }

  /** The stream ends, or fails. */
  lemma StreamEnded(m: Moment, items: seq<Item>, inField: bool, unread: Bytes, target: Target)
    requires m.Good(target) && m.state.Reading?
    requires Grammar(items, inField) && (!inField ==> unread == [])
    ensures var m' := m.(items := items, inField := inField, unread := unread, state := Finished);
            && (m.items == [] && !m.inField ==> Turned(m, m', Some(Ready(None)), false, target))
            && (m.items != [] && m.items[0].Err? ==> Turned(m, m', Some(Ready(Some(Err(m.items[0].error)))), false, target))
  {
  }

  /** The moment after the stream has answered, and the machine's own answer if it has one. */
  ghost function Read(m: Moment, answer: Poll<Option<Item>>, items: seq<Item>, inField: bool, unread: Bytes, target: Target): Moment {
    match answer
    case Pending => m
    case Ready(Some(Ok(token))) => m.Took(token, items, unread, target)
    case Ready(_) => m.(items := items, inField := inField, unread := unread, state := Finished)
  }

  function ReadAnswer(answer: Poll<Option<Item>>): Option<PollAnswer> {
    match answer
    case Pending => Some(Pending)
    case Ready(None) => Some(Ready(None))
    case Ready(Some(Err(e))) => Some(Ready(Some(Err(e))))
    case Ready(Some(Ok(_))) => None
  }

  lemma ReadTurn(m: Moment, answer: Poll<Option<Item>>, items: seq<Item>, inField: bool, unread: Bytes, target: Target)
    requires m.Good(target) && m.state.Reading? && Grammar(items, inField) && (!inField ==> unread == [])
    requires Delivered(answer, m.items, m.inField, m.unread, items, inField, unread)
    ensures Turned(m, Read(m, answer, items, inField, unread, target), ReadAnswer(answer), false, target)
  {
    match answer
    case Ready(Some(Ok(token))) => TookToken(m, token, items, unread, target);
    case Ready(_) => StreamEnded(m, items, inField, unread, target);
    case Pending =>
  }

  /** Replacing the buffer by one for the new, empty file discards nothing. */
  lemma CreatedFile(m: Moment, target: Target)
    requires m.Good(target) && m.state.Create?
    ensures m.buffer.Some? ==> m.buffer.value.bytes == []
    ensures Turned(m, m.Created(), None, false, target)
  {
    assert m.Created().Written() == [];
    assert m.Created().Logical() == m.Created().files;
    assert ([Ok(New(m.meta.value))] + m.items)[1..] == m.items;
  }

  /** The end of a field: once the buffer is empty, the file is complete and reported. */
  lemma ClosedFile(m: Moment, contents: Bytes, target: Target)
    requires m.Good(target) && m.state.Flush? && contents == m.Written()
    ensures var result := UploadResult(m.written, m.meta.value.fileName);
            && contents == m.payload
            && Turned(m, m.Moved(contents, []).Closed(), Some(Ready(Some(Ok(result)))), false, target)
  {
    var m' := m.Moved(contents, []);
    FlushedBytes(m, contents, [], target);
    assert m'.Written() == contents;
    assert contents + [] + [] == contents;
    assert m'.Logical() == m'.files;
    assert ([Ok(Eof)] + m.items)[1..] == m.items;
  }

  class Upload {
    const stream: StreamUpload
    const target: Target
    const disk: Disk
    var buffer: Buffer?
    var state: StateUpload
    var written: nat
    var meta: Option<MetaFile>
    ghost var settled: map<Path, Bytes>
    ghost var open: Option<Path>
    ghost var payload: Bytes

    constructor (stream: StreamUpload, target: Target, disk: Disk)
      requires stream.state == WaitingField
      ensures Valid() && this.stream == stream && this.target == target && this.disk == disk
      ensures state == Reading && buffer == null && settled == disk.files
      ensures Future() == Expected(stream.multipart, stream.allowed, disk.files, target)
    {
      this.stream, this.target, this.disk := stream, target, disk;
      buffer, state, written, meta := null, Reading, 0, None;
      settled, open, payload := disk.files, None, [];
      new;
      TokenGrammar(stream.state, stream.multipart, stream.allowed);
      PlainIsExpected(stream.multipart, stream.allowed, disk.files, target);
    }

    ghost function Now(): Moment
      reads this, buffer, disk, stream
    {
      var held := if buffer == null then None else Some(Held(buffer.inner.path, buffer.bytes));
      Moment(stream.Remaining(), stream.InField(), stream.Unread(), disk.files, held,
             state, written, meta, settled, open, payload)
    }

    ghost predicate Valid()
      reads this, buffer, disk, stream
    {
      BufferValid() && Now().Good(target)
    }

    ghost predicate BufferValid()
      reads this, buffer, disk
    {
      buffer != null ==> buffer.inner.disk == disk && buffer.Valid()
    }

    ghost function View(): Outlook
      requires Valid()
      reads this, buffer, disk, stream
    {
      Now().View(target)
    }

    ghost function Future(): seq<Answer>
      requires Valid()
      reads this, buffer, disk, stream
    {
      Now().Future(target)
    }

    ghost function Rank(): nat
      reads this
    {
      if state.Reading? then 0 else 1
    }

    ghost function CarrySize(): nat
      reads this
    {
      if state.Writting? then |state.bytes| else 0
    }

    /** Writting: hand the chunk to the buffer and keep what it did not take. */
    method WriteStep(buf: Bytes) returns (r: Option<PollAnswer>, ghost io: bool)
      requires Valid() && state == Writting(buf)
      modifies this, buffer, disk
      ensures BufferValid() && buffer == old(buffer)
      ensures Turned(old(Now()), Now(), r, io, target)
      ensures Excused(r, io, old(disk.Account()), disk.Account())
      ensures r.None? ==> state.Reading? || CarrySize() < |buf| || (CarrySize() == |buf| && disk.stalls < old(disk.stalls))
      ensures state.Reading? || state.Writting? || state.Finished?
    {
      ghost var m, a := Now(), disk.Account();
      var answer := buffer.PollWrite(buf);
      ghost var after := Wrote(m, answer, buffer.inner.Contents(), buffer.bytes);
      assert buf[..0] == [];
      WriteTurn(m, answer, buffer.inner.Contents(), buffer.bytes, target);
      WriteExcused(answer, a, disk.Account());
      r, io := WriteAnswer(answer), answer.Ready? && answer.value.Err?;
      match answer {
        case Pending =>
        case Ready(Err(_)) =>
          state := Finished;
        case Ready(Ok(n)) =>
          state, written := if n < |buf| then Writting(buf[n..]) else Reading, written + n;
      }
      assert BufferValid();
      assert Now() == after;
    }

    /** Reading: take the next token of the stream. */
    method ReadStep() returns (r: Option<PollAnswer>, ghost io: bool)
      requires Valid() && state == Reading
      modifies this, stream
      ensures BufferValid() && buffer == old(buffer)
      ensures Turned(old(Now()), Now(), r, io, target)
      ensures r.None? || r.value.Pending? || r.value.value.None? || r.value.value.value.Err?
      ensures !io && stream.Waits() + (if r == Some(Pending) then 1 else 0) <= old(stream.Waits())
      ensures r.None? || r == Some(Pending) ==> stream.Waits() + (if r.None? then 0 else 1) == old(stream.Waits())
      ensures stream.Left() <= old(stream.Left())
      ensures r.None? ==> stream.Left() < old(stream.Left())
    {
      ghost var m := Now();
      var answer := stream.PollNext();
      TokenGrammar(stream.state, stream.multipart, stream.allowed);
      ghost var after := Read(m, answer, stream.Remaining(), stream.InField(), stream.Unread(), target);
      ReadTurn(m, answer, stream.Remaining(), stream.InField(), stream.Unread(), target);
      r, io := ReadAnswer(answer), false;
      match answer {
        case Pending =>
        case Ready(None) =>
          state := Finished;
        case Ready(Some(Err(_))) =>
          state := Finished;
        case Ready(Some(Ok(token))) =>
          Take(token, stream.Unread());
      }
      assert Now() == after;
    }

    /** What a token makes of the machine's own fields. */
    method Take(token: Token, ghost unread: Bytes)
      modifies this
      ensures state == match token case New(meta) => Create(target(meta)) case Chunk(b) => Writting(b) case Eof => Flush
      ensures meta == if token.New? then Some(token.meta) else old(meta)
      ensures payload == if token.New? then unread else old(payload)
      ensures buffer == old(buffer) && written == old(written) && settled == old(settled) && open == old(open)
    {
      match token {
        case New(meta) =>
          this.meta := Some(meta);
          state := Create(target(meta));
          payload := unread;
        case Chunk(b) =>
          state := Writting(b);
        case Eof =>
          state := Flush;
      }
    }

    /** Create: wait for the new file; it replaces the buffer. */
    method CreateStep(path: Path) returns (r: Option<PollAnswer>, ghost io: bool)
      requires Valid() && state == Create(path)
      modifies this, disk
      ensures BufferValid() && (buffer == old(buffer) || fresh(buffer))
      ensures Turned(old(Now()), Now(), r, io, target)
      ensures Excused(r, io, old(disk.Account()), disk.Account())
      ensures r.None? ==> state.Reading?
    {
      ghost var m := Now();
      var answer := disk.PollCreate(path);
      match answer {
        case Pending =>
          assert Now() == m;
          r, io := Some(Pending), false;
        case Ready(Err(e)) =>
          state := Finished;
          assert Now() == m.(state := Finished);
          r, io := Some(Ready(Some(Err(ToUploadError(e))))), true;
        case Ready(Ok(_)) =>
          CreatedFile(m, target);
          var file := new File(path, disk);
          buffer := new Buffer(file);
          state := Reading;
          open := Some(path);
          assert Now() == m.Created();
          r, io := None, false;
      }
    }

    /** Flush: empty the buffer, then report the field. */
    method FlushStep() returns (r: Option<PollAnswer>, ghost io: bool)
      requires Valid() && state == Flush
      modifies this, buffer, disk
      ensures BufferValid() && buffer == old(buffer)
      ensures Turned(old(Now()), Now(), r, io, target)
      ensures Excused(r, io, old(disk.Account()), disk.Account())
      ensures r.Some?
    {
      if buffer == null {
        assert false;
      }
      ghost var m := Now();
      var answer := buffer.PollFlush();
      ghost var contents := buffer.inner.Contents();
      FlushedBytes(m, contents, buffer.bytes, target);
      match answer {
        case Pending =>
          assert Now() == m.Moved(contents, buffer.bytes);
          r, io := Some(Pending), false;
        case Ready(Err(e)) =>
          state := Finished;
          assert Now() == m.Moved(contents, buffer.bytes).(state := Finished);
          r, io := Some(Ready(Some(Err(ToUploadError(e))))), true;
        case Ready(Ok(_)) =>
          ClosedFile(m, contents, target);
          state := Reading;
          var size := written;
          written := 0;
          var name := if meta.Some? then meta.value.fileName else "";
          meta := None;
          settled, open := disk.files, None;
          assert Now() == m.Moved(contents, []).Closed();
          r, io := Some(Ready(Some(Ok(UploadResult(size, name))))), false;
      }
    }

    /** One turn of the poll loop; a turn without an answer gets closer to one. */
    method Turn() returns (r: Option<PollAnswer>, ghost io: bool)
      requires Valid()
      modifies this, buffer, disk, stream
      ensures BufferValid() && (buffer == old(buffer) || fresh(buffer))
      ensures Turned(old(Now()), Now(), r, io, target)
      ensures Blamed(r, io, old(disk.Account()), disk.Account(), old(stream.Waits()), stream.Waits())
      ensures stream.Left() <= old(stream.Left())
      ensures r.None? && stream.Left() == old(stream.Left()) ==>
                Rank() < old(Rank()) || (Rank() == old(Rank()) &&
                (CarrySize() < old(CarrySize()) || (CarrySize() == old(CarrySize()) && disk.stalls < old(disk.stalls))))
    {
      match state {
        case Writting(buf) => r, io := WriteStep(buf);
        case Reading => r, io := ReadStep();
        case Create(path) => r, io := CreateStep(path);
        case Flush => r, io := FlushStep();
        case Finished => r, io := Some(Ready(None)), false;
      }
    }

    /** One poll.  Pending changes nothing that plain writing can see; a result is the next result of
        plain writing and finds the disk equal to plain writing's files; a failure is either plain
        writing's own or the disk's (`io`), and then ends the stream. */
    method PollNext() returns (r: PollAnswer, ghost io: bool)
      requires Valid()
      modifies this, buffer, disk, stream
      ensures Valid()
      ensures buffer == old(buffer) || fresh(buffer)
      ensures Says(r, io, old(View()), View())
      ensures Blamed(Some(r), io, old(disk.Account()), disk.Account(), old(stream.Waits()), stream.Waits())
      ensures old(state.Finished?) ==> r == Ready(None)
      ensures stream.Left() <= old(stream.Left())
    {
      ghost var m, a, w := Now(), disk.Account(), stream.Waits();
      while true
        invariant BufferValid() && (buffer == old(buffer) || fresh(buffer))
        invariant Through(m, Now(), target)
        invariant Blamed(None, false, a, disk.Account(), w, stream.Waits())
        invariant stream.Left() <= old(stream.Left())
        decreases stream.Left(), Rank(), CarrySize(), disk.stalls
      {
        ghost var before, account, waits := Now(), disk.Account(), stream.Waits();
        var answer;
        answer, io := Turn();
        OneMoreTurn(m, before, Now(), answer, io, target);
        BlamedOn(answer, io, a, account, disk.Account(), w, waits, stream.Waits());
        if answer.Some? {
          return answer.value, io;
        }
      }
    }
  }

  /** Log entries say what the answers say. */
  ghost predicate Logged(log: seq<Result<UploadResult, UploadError>>, trace: seq<Answer>) {
    && |log| == |trace|
    && forall i :: 0 <= i < |log| ==>
         if trace[i].Ok? then log[i] == Ok(trace[i].value.result) else log[i] == Err(trace[i].error)
  }

  /** The files after the last result of a trace. */
  ghost function LastFiles(trace: seq<Answer>, files: map<Path, Bytes>): map<Path, Bytes> {
    if trace == [] then files
    else if trace[|trace| - 1].Ok? then trace[|trace| - 1].value.files
    else LastFiles(trace[..|trace| - 1], files)
  }

  /** The log and trace of a run from which plain writing would deliver `all`, and still delivers `future`. */
  ghost predicate Ran(log: seq<Result<UploadResult, UploadError>>, trace: seq<Answer>, io: bool, future: seq<Answer>, all: seq<Answer>) {
    && Logged(log, trace)
    && (forall i :: 0 <= i < |trace| - 1 ==> trace[i].Ok?)
    && if io then trace != [] && trace[|trace| - 1].Err? && trace[..|trace| - 1] <= all
       else trace + future == all
  }

  lemma RanResult(log: seq<Result<UploadResult, UploadError>>, trace: seq<Answer>, stamp: Stamp, future: seq<Answer>, all: seq<Answer>, files: map<Path, Bytes>)
    requires Ran(log, trace, false, [Ok(stamp)] + future, all)
    requires trace == [] || trace[|trace| - 1].Ok?
    ensures Ran(log + [Ok(stamp.result)], trace + [Ok(stamp)], false, future, all)
    ensures LastFiles(trace + [Ok(stamp)], files) == stamp.files
  {
    assert trace + ([Ok(stamp)] + future) == (trace + [Ok(stamp)]) + future;
  }

  lemma RanFailure(log: seq<Result<UploadResult, UploadError>>, trace: seq<Answer>, e: UploadError, io: bool, future: seq<Answer>, all: seq<Answer>,
                   files: map<Path, Bytes>)
    requires Ran(log, trace, false, future, all)
    requires trace == [] || trace[|trace| - 1].Ok?
    requires !io ==> future == [Err(e)]
    ensures Ran(log + [Err(e)], trace + [Err(e)], io, [], all)
    ensures LastFiles(trace + [Err(e)], files) == LastFiles(trace, files)
  {
    assert (trace + [Err(e)])[..|trace|] == trace <= trace + future;
    assert trace + [Err(e)] + [] == trace + [Err(e)];
  }

  /** What holds between two polls of a request that began with `files` on disk. */
  ghost predicate Serving(v: Outlook, log: seq<Result<UploadResult, UploadError>>, trace: seq<Answer>, io: bool, done: bool,
                          files: map<Path, Bytes>, all: seq<Answer>)
  {
    && Ran(log, trace, io, v.future, all)
    && v.settled == LastFiles(trace, files)
    && (trace != [] && trace[|trace| - 1].Err? ==> v.finished)
    && (done ==> v.finished)
    && (v.finished ==> v.future == [])
    && (v.finished && (trace == [] || trace[|trace| - 1].Ok?) ==> done && v.files == v.settled)
  }

  function Log(log: seq<Result<UploadResult, UploadError>>, r: PollAnswer): seq<Result<UploadResult, UploadError>> {
    if r.Ready? && r.value.Some? then log + [r.value.value] else log
  }

  ghost function Trace(trace: seq<Answer>, r: PollAnswer, files: map<Path, Bytes>): seq<Answer> {
    match r
    case Ready(Some(Ok(result))) => trace + [Ok(Stamp(result, files))]
    case Ready(Some(Err(e))) => trace + [Err(e)]
    case _ => trace
  }

  /** One more poll keeps the request on course. */
  lemma ServedOnce(before: Outlook, after: Outlook, r: PollAnswer, failed: bool, log: seq<Result<UploadResult, UploadError>>,
                   trace: seq<Answer>, io: bool, files: map<Path, Bytes>, all: seq<Answer>)
    requires Serving(before, log, trace, io, false, files, all)
    requires Says(r, failed, before, after) && (before.finished ==> r == Ready(None))
    ensures Serving(after, Log(log, r), Trace(trace, r, after.files), io || failed, r == Ready(None), files, all)
  {
    match r
    case Ready(Some(Ok(result))) => ServedResult(before, after, result, log, trace, files, all);
    case Ready(Some(Err(e))) => ServedFailure(before, after, e, failed, log, trace, files, all);
    case _ =>
  }

  lemma ServedResult(before: Outlook, after: Outlook, result: UploadResult, log: seq<Result<UploadResult, UploadError>>,
                     trace: seq<Answer>, files: map<Path, Bytes>, all: seq<Answer>)
    requires Serving(before, log, trace, false, false, files, all) && !before.finished
    requires Says(Ready(Some(Ok(result))), false, before, after)
    ensures Serving(after, log + [Ok(result)], trace + [Ok(Stamp(result, after.files))], false, false, files, all)
  {
    RanResult(log, trace, Stamp(result, after.files), after.future, all, files);
  }

  lemma ServedFailure(before: Outlook, after: Outlook, e: UploadError, io: bool, log: seq<Result<UploadResult, UploadError>>,
                      trace: seq<Answer>, files: map<Path, Bytes>, all: seq<Answer>)
    requires Serving(before, log, trace, false, false, files, all) && !before.finished
    requires Says(Ready(Some(Err(e))), io, before, after)
    ensures Serving(after, log + [Err(e)], trace + [Err(e)], io, false, files, all)
  {
    RanFailure(log, trace, e, io, before.future, all, files);
  }

  /** `disks` are the disk's files after every poll, `when` the polls that brought the answers of `trace`:
      every stamp shows the disk as it was then. */
  ghost predicate Witnessed(trace: seq<Answer>, disks: seq<map<Path, Bytes>>, when: seq<nat>) {
    && |when| == |trace|
    && (forall i :: 0 <= i < |when| ==> when[i] < |disks|)
    && (forall i, j :: 0 <= i < j < |when| ==> when[i] < when[j])
    && (forall i :: 0 <= i < |trace| && trace[i].Ok? ==> trace[i].value.files == disks[when[i]])
  }

  /** The polls that brought an answer for the log. */
  ghost function When(when: seq<nat>, r: PollAnswer, poll: nat): seq<nat> {
    if r.Ready? && r.value.Some? then when + [poll] else when
  }

  /** The disk after the last poll. */
  ghost function LastDisk(disks: seq<map<Path, Bytes>>, files: map<Path, Bytes>): map<Path, Bytes> {
    if disks == [] then files else disks[|disks| - 1]
  }

  lemma WitnessedOnce(trace: seq<Answer>, disks: seq<map<Path, Bytes>>, when: seq<nat>, r: PollAnswer, now: map<Path, Bytes>, files: map<Path, Bytes>)
    requires Witnessed(trace, disks, when)
    ensures Witnessed(Trace(trace, r, now), disks + [now], When(when, r, |disks|))
    ensures LastDisk(disks + [now], files) == now && |disks + [now]| == |disks| + 1
  {
  }

  /** How the polls of a request are spent: on waits of the device, on waits of the parser, on entries of the
      log and on the end; and plain writing's results are missed only after a failure of the device. */
  ghost predicate Spent(polls: nat, entries: nat, done: bool, io: bool, a: Tally, a': Tally, waits: nat, waits': nat) {
    && a'.waits >= a.waits && waits' <= waits
    && polls <= entries + (a'.waits - a.waits) + (waits - waits') + (if done then 1 else 0)
    && (io ==> Troubled(a, a'))
    && a.errors <= a'.errors && a'.stalls <= a.stalls
  }

  /** The device has failed, or accepted zero bytes of a non-empty write. */
  ghost predicate Troubled(a: Tally, a': Tally) {
    a'.errors != a.errors || a'.stalls < a.stalls
  }

  lemma SpentOnce(polls: nat, log: seq<Result<UploadResult, UploadError>>, r: PollAnswer, io: bool, failed: bool,
                  a: Tally, a1: Tally, a2: Tally, waits: nat, waits1: nat, waits2: nat)
    requires Spent(polls, |log|, false, io, a, a1, waits, waits1) && Blamed(Some(r), failed, a1, a2, waits1, waits2)
    requires failed ==> r.Ready? && r.value.Some? && r.value.value.Err?
    ensures Spent(polls + 1, |Log(log, r)|, r == Ready(None), io || failed, a, a2, waits, waits2)
  {
  }

  /** The request handler: polls until the stream ends, here for at most `polls` polls.
      However the polls are answered, the log is a first part of what the form says, one result per
      field in the form's order, then at most one failure; every reported file was on disk in full
      when it was reported; and a run that ends without failure leaves exactly the files of the form.
      The request ends after one poll for each wait, for each thing to report and for the end; with a
      device that never fails it has then reported all there was. */
  method Serve(u: Upload, polls: nat)
    returns (log: seq<Result<UploadResult, UploadError>>, done: bool, ghost trace: seq<Answer>, ghost io: bool,
             ghost disks: seq<map<Path, Bytes>>, ghost when: seq<nat>)
    requires u.Valid() && u.state == Reading && !u.stream.InField()
    modifies u, u.buffer, u.disk, u.stream
    ensures u.Valid() && Ran(log, trace, io, u.Future(), old(u.Future()))
    ensures Witnessed(trace, disks, when)
    ensures |disks| <= polls && (!done ==> |disks| == polls)
    ensures u.disk.files == LastDisk(disks, old(u.disk.files))
    ensures done && !io ==> trace == old(u.Future())
    ensures u.settled == LastFiles(trace, old(u.disk.files))
    ensures done && (trace == [] || trace[|trace| - 1].Ok?) ==> u.disk.files == u.settled
    ensures u.disk.waits >= old(u.disk.waits) && (io ==> Troubled(old(u.disk.Account()), u.disk.Account()))
    ensures polls >= |old(u.Future())| + old(u.stream.Waits()) + (u.disk.waits - old(u.disk.waits)) + (if io then 2 else 1) ==> done
  {
    log, done := [], false;
    ghost var all, files, a, w := u.Future(), u.disk.files, u.disk.Account(), u.stream.Waits();
    ghost var course := Course([], [], false, false, [], []);
    for i := 0 to polls
      invariant u.buffer == old(u.buffer) || fresh(u.buffer)
      invariant u.Valid() && course.log == log && course.done == done
      invariant |course.disks| <= i && (!done ==> |course.disks| == i)
      invariant OnCourse(course, u.View(), u.disk.Account(), u.stream.Waits(), files, all, a, w)
    {
      if done {
        break;
      }
      ghost var before, account, waits := u.View(), u.disk.Account(), u.stream.Waits();
      var answer;
      ghost var failed;
      answer, failed := u.PollNext();
      CourseKept(course, before, u.View(), answer, failed, account, u.disk.Account(), waits, u.stream.Waits(), files, all, a, w);
      course := NextCourse(course, answer, failed, u.disk.files);
      log, done := Log(log, answer), answer == Ready(None);
    }
    trace, io, disks, when := course.trace, course.io, course.disks, course.when;
    CourseRun(course, u.View(), u.disk.Account(), u.stream.Waits(), files, all, a, w);
  }

  /** A request so far: the log, the answers behind it, whether the device failed and whether the stream has
      ended, the disk after every poll and the polls that brought the answers. */
  datatype Course = Course(log: seq<Result<UploadResult, UploadError>>, trace: seq<Answer>, io: bool, done: bool,
                           disks: seq<map<Path, Bytes>>, when: seq<nat>)

  ghost predicate OnCourse(c: Course, v: Outlook, a': Tally, waits': nat, files: map<Path, Bytes>, all: seq<Answer>, a: Tally, waits: nat) {
    && Serving(v, c.log, c.trace, c.io, c.done, files, all)
    && Witnessed(c.trace, c.disks, c.when) && v.files == LastDisk(c.disks, files)
    && Spent(|c.disks|, |c.log|, c.done, c.io, a, a', waits, waits')
  }

  ghost function NextCourse(c: Course, r: PollAnswer, failed: bool, now: map<Path, Bytes>): Course {
    Course(Log(c.log, r), Trace(c.trace, r, now), c.io || failed, r == Ready(None), c.disks + [now], When(c.when, r, |c.disks|))
  }

  lemma CourseKept(c: Course, before: Outlook, after: Outlook, r: PollAnswer, failed: bool, a1: Tally, a2: Tally, waits1: nat, waits2: nat,
                   files: map<Path, Bytes>, all: seq<Answer>, a: Tally, waits: nat)
    requires OnCourse(c, before, a1, waits1, files, all, a, waits) && !c.done
    requires Says(r, failed, before, after) && (before.finished ==> r == Ready(None)) && Blamed(Some(r), failed, a1, a2, waits1, waits2)
    ensures OnCourse(NextCourse(c, r, failed, after.files), after, a2, waits2, files, all, a, waits)
  {
    ServedOnce(before, after, r, failed, c.log, c.trace, c.io, files, all);
    WitnessedOnce(c.trace, c.disks, c.when, r, after.files, files);
    SpentOnce(|c.disks|, c.log, r, c.io, failed, a, a1, a2, waits, waits1, waits2);
  }

  /** What a course says at its end. */
  lemma CourseRun(c: Course, v: Outlook, a': Tally, waits': nat, files: map<Path, Bytes>, all: seq<Answer>, a: Tally, waits: nat)
    requires OnCourse(c, v, a', waits', files, all, a, waits)
    ensures Ran(c.log, c.trace, c.io, v.future, all) && v.settled == LastFiles(c.trace, files)
    ensures c.done && !c.io ==> c.trace == all
    ensures c.done && (c.trace == [] || c.trace[|c.trace| - 1].Ok?) ==> v.files == v.settled
    ensures !c.done ==> |c.disks| < |all| + waits + (a'.waits - a.waits) + if c.io then 2 else 1
  {
    assert c.trace + [] == c.trace;
    RanLength(c.log, c.trace, c.io, v.future, all);
  }

  lemma RanLength(log: seq<Result<UploadResult, UploadError>>, trace: seq<Answer>, io: bool, future: seq<Answer>, all: seq<Answer>)
    requires Ran(log, trace, io, future, all)
    ensures |log| <= |all| + if io then 1 else 0
  {
  }

  /** Videos go to one directory, everything else to another; `join` is the platform's way to put a name
      behind a directory. */
  function TargetIn(programs: Path, icons: Path, join: (Path, string) -> Path): Target {
    (meta: MetaFile) => join(if meta.mime.mediaType == "video" then programs else icons, meta.fileName)
  }

  /** One upload request: the form is read part by part, videos and images are let through.  With a device
      that neither waits nor fails, one poll for every wait of the parser, for every entry of the log and
      for the end is enough, and the log and the files are then exactly what the form says. */
  method HandleUpload(parts: seq<PartEvent>, programs: Path, icons: Path, join: (Path, string) -> Path, disk: Disk, polls: nat)
    returns (log: seq<Result<UploadResult, UploadError>>, done: bool, ghost trace: seq<Answer>)
    modifies disk
    ensures Logged(log, trace)
    ensures var expected := Expected(parts, [MediaType("video"), MediaType("image")], old(disk.files), TargetIn(programs, icons, join));
            && (!Troubled(old(disk.Account()), disk.Account()) ==> trace <= expected)
            && (!Troubled(old(disk.Account()), disk.Account()) && polls >= |expected| + PartWaits(parts) + (disk.waits - old(disk.waits)) + 1 ==>
                  done && trace == expected)
            && (polls >= |expected| + PartWaits(parts) + (disk.waits - old(disk.waits)) + 2 ==> done)
            && (done && (trace == [] || trace[|trace| - 1].Ok?) ==> disk.files == LastFiles(trace, old(disk.files)))
  {
    var stream := new StreamUpload(parts, [MediaType("video"), MediaType("image")]);
    var u := new Upload(stream, TargetIn(programs, icons, join), disk);
    ghost var io, disks, when;
    log, done, trace, io, disks, when := Serve(u, polls);
  }
}
