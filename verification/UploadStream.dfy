/** The token stream of an upload: multipart fields become New / Chunk / Eof tokens. */
module UploadStream {
  import opened Wrappers

  type Bytes = seq<bv8>

  datatype Mime = Mime(mediaType: string, subtype: string, parameters: string)

  datatype MimeAllowed = Any | Exact(mime: Mime) | MediaType(name: string) | SubType(name: string)

  datatype MetaFile = MetaFile(fileName: string, mime: Mime)

  datatype Token = New(meta: MetaFile) | Chunk(bytes: Bytes) | Eof

  datatype UploadError =
    | MimeNotAllowed(file: string, mime: Mime)
    | UnexpectedEof
    | WriteZero
    | FileNameNotFound
    | MimeNotFound(file: string)
    | Multer(msg: string)
    | StorageFull
    | Io(msg: string)
    | BufferNotDefined

  type Item = Result<Token, UploadError>

  /** What the multipart parser will answer, poll by poll.  A body that has run out of events is
      at its end, and so is a list of parts that has run out of events. */
  datatype BodyEvent = BodyWait | BodyChunk(bytes: Bytes) | BodyFail(msg: string)

  datatype PartEvent =
    | PartWait
    | Part(fileName: Option<string>, contentType: Option<Mime>, body: seq<BodyEvent>)
    | PartFail(msg: string)

  datatype State = WaitingField | ReadingField(body: seq<BodyEvent>) | Done

  predicate Matches(rule: MimeAllowed, mime: Mime) {
    match rule
    case Any => true
    case Exact(m) => mime == m
    case MediaType(name) => mime.mediaType == name
    case SubType(name) => mime.subtype == name
  }

  /** A type passes if the list names it in one of the four ways. */
  lemma AllowedExactly(allowed: seq<MimeAllowed>, mime: Mime)
    ensures IsAllowed(allowed, mime) <==>
            Any in allowed || Exact(mime) in allowed || MediaType(mime.mediaType) in allowed || SubType(mime.subtype) in allowed
  {
    if i :| 0 <= i < |allowed| && Matches(allowed[i], mime) {
      assert allowed[i] in allowed;
    }
  }

  predicate IsAllowed(allowed: seq<MimeAllowed>, mime: Mime) {
    exists i :: 0 <= i < |allowed| && Matches(allowed[i], mime)
  }

  // ---------- what the script still holds ----------

  /** True if the field fails before it ends. */
  predicate BodyFails(body: seq<BodyEvent>) {
    body != [] && (body[0].BodyFail? || BodyFails(body[1..]))
  }

  /** The bytes of a field: its chunks in order, up to its end or its failure. */
  function Payload(body: seq<BodyEvent>): Bytes {
    if body == [] then []
    else match body[0]
      case BodyWait => Payload(body[1..])
      case BodyChunk(b) => b + Payload(body[1..])
      case BodyFail(_) => []
  }

  /** The message of the failure a field runs into. */
  function Failure(body: seq<BodyEvent>): string
    requires BodyFails(body)
  {
    if body[0].BodyFail? then body[0].msg else Failure(body[1..])
  }

  ghost function BodyTokens(body: seq<BodyEvent>): seq<Item> {
    if body == [] then [Ok(Eof)]
    else match body[0]
      case BodyWait => BodyTokens(body[1..])
      case BodyChunk(b) => [Ok(Chunk(b))] + BodyTokens(body[1..])
      case BodyFail(msg) => [Err(Multer(msg))]
  }

  ghost function PartTokens(parts: seq<PartEvent>, allowed: seq<MimeAllowed>): seq<Item>
    decreases parts, 0
  {
    if parts == [] then []
    else match parts[0]
      case PartWait => PartTokens(parts[1..], allowed)
      case PartFail(msg) => [Err(Multer(msg))]
      case Part(None, _, _) => [Err(FileNameNotFound)]
      case Part(Some(name), None, _) => [Err(MimeNotFound(name))] + PartTokens(parts[1..], allowed)
      case Part(Some(name), Some(mime), body) =>
        if IsAllowed(allowed, mime)
        then [Ok(New(MetaFile(name, mime)))] + FieldTokens(body, parts[1..], allowed)
        else [Err(MimeNotAllowed(name, mime))]
  }

  /** The tokens of an open field and of the parts that follow it. */
  ghost function FieldTokens(body: seq<BodyEvent>, parts: seq<PartEvent>, allowed: seq<MimeAllowed>): seq<Item>
    decreases parts, 1
  {
    BodyTokens(body) + if BodyFails(body) then [] else PartTokens(parts, allowed)
  }

  // ---------- the token grammar ----------

  /** Up to the first error the items are a prefix of (New Chunk* Eof)*, entered inside a field if `open`. */
  ghost predicate Grammar(items: seq<Item>, open: bool) {
    items == [] || items[0].Err? ||
    match items[0].value
    case New(_) => !open && Grammar(items[1..], true)
    case Chunk(_) => open && Grammar(items[1..], true)
    case Eof => open && Grammar(items[1..], false)
  }

  /** A stream that meets no error closes every field it opens. */
  ghost predicate Complete(items: seq<Item>, open: bool) {
    if items == [] then !open
    else items[0].Err? || Complete(items[1..], !items[0].value.Eof?)
  }

  lemma {:induction false} BodyGrammar(body: seq<BodyEvent>, after: seq<Item>)
    requires Grammar(after, false) && Complete(after, false)
    ensures Grammar(BodyTokens(body) + if BodyFails(body) then [] else after, true)
    ensures Complete(BodyTokens(body) + if BodyFails(body) then [] else after, true)
  {
    var tail := if BodyFails(body) then [] else after;
    if body == [] {
      assert ([Ok(Eof)] + tail)[1..] == tail;
    } else {
      match body[0]
      case BodyWait =>
        BodyGrammar(body[1..], after);
      case BodyChunk(b) =>
        BodyGrammar(body[1..], after);
        assert (BodyTokens(body) + tail)[1..] == BodyTokens(body[1..]) + tail;
      case BodyFail(_) =>
    }
  }

  lemma {:induction false} PartGrammar(parts: seq<PartEvent>, allowed: seq<MimeAllowed>)
    ensures Grammar(PartTokens(parts, allowed), false)
    ensures Complete(PartTokens(parts, allowed), false)
  {
    if parts != [] {
      PartGrammar(parts[1..], allowed);
      match parts[0]
      case Part(Some(_), Some(mime), body) =>
        BodyGrammar(body, PartTokens(parts[1..], allowed));
        if IsAllowed(allowed, mime) {
          assert PartTokens(parts, allowed)[1..] == FieldTokens(body, parts[1..], allowed);
        }
      case _ =>
    }
  }

  /** Of the errors between two fields only a missing type leaves the stream open; all others end it. */
  lemma ErrorsEnd(part: PartEvent, parts: seq<PartEvent>, allowed: seq<MimeAllowed>)
    ensures var items := PartTokens([part] + parts, allowed);
            !part.PartWait? && items != [] && items[0].Err? ==>
              items == [items[0]] + if part.Part? && part.fileName.Some? && part.contentType.None? then PartTokens(parts, allowed) else []
  {
    assert ([part] + parts)[1..] == parts;
  }

  /** Every reachable token stream obeys the grammar. */
  lemma TokenGrammar(state: State, parts: seq<PartEvent>, allowed: seq<MimeAllowed>)
    ensures Grammar(Tokens(state, parts, allowed), state.ReadingField?)
    ensures !state.Done? ==> Complete(Tokens(state, parts, allowed), state.ReadingField?)
  {
    PartGrammar(parts, allowed);
    match state
    case ReadingField(body) => BodyGrammar(body, PartTokens(parts, allowed));
    case _ =>
  }

  ghost function Tokens(state: State, parts: seq<PartEvent>, allowed: seq<MimeAllowed>): seq<Item> {
    match state
    case WaitingField => PartTokens(parts, allowed)
    case ReadingField(body) => FieldTokens(body, parts, allowed)
    case Done => []
  }

  /** How many answers the parser still has to give. */
  ghost function EventsLeft(parts: seq<PartEvent>): nat {
    if parts == [] then 0
    else EventsLeft(parts[1..]) + if parts[0].Part? then 2 + |parts[0].body| else 1
  }

  ghost function BodyWaits(body: seq<BodyEvent>): nat {
    if body == [] then 0 else BodyWaits(body[1..]) + if body[0].BodyWait? then 1 else 0
  }

  /** How often the parser will still answer Pending. */
  ghost function PartWaits(parts: seq<PartEvent>): nat {
    if parts == [] then 0
    else PartWaits(parts[1..]) + match parts[0] case PartWait => 1 case Part(_, _, body) => BodyWaits(body) case PartFail(_) => 0
  }

  /** What an answer takes off the items still to come and off the open field. */
  ghost predicate Delivered(r: Poll<Option<Item>>, items: seq<Item>, inField: bool, unread: Bytes,
                            items': seq<Item>, inField': bool, unread': Bytes)
  {
    match r
    case Pending => items' == items && inField' == inField && unread' == unread
    case Ready(None) => items == [] && items' == [] && !inField && !inField'
    case Ready(Some(item)) =>
      && items == [item] + items'
      && match item
         case Err(_) => true
         case Ok(New(_)) => !inField && inField'
         case Ok(Chunk(b)) => inField && inField' && unread == b + unread'
         case Ok(Eof) => inField && !inField' && unread == []
  }

  class StreamUpload {
    var multipart: seq<PartEvent>
    const allowed: seq<MimeAllowed>
    var state: State

    constructor (multipart: seq<PartEvent>, allowed: seq<MimeAllowed>)
      ensures this.multipart == multipart && this.allowed == allowed && state == WaitingField
    {
      this.multipart, this.allowed, state := multipart, allowed, WaitingField;
    }

    /** The items every later poll will deliver, Pending answers left out. */
    ghost function Remaining(): seq<Item>
      reads this
    {
      Tokens(state, multipart, allowed)
    }

    ghost function InField(): bool
      reads this
    {
      state.ReadingField?
    }

    /** The bytes of the open field that are still to be read. */
    ghost function Unread(): Bytes
      reads this
    {
      if state.ReadingField? then Payload(state.body) else []
    }

    ghost function Left(): nat
      reads this
    {
      EventsLeft(multipart) + if state.ReadingField? then 1 + |state.body| else 0
    }

    /** How often the script still says to wait. */
    ghost function Waits(): nat
      reads this
    {
      PartWaits(multipart) + if state.ReadingField? then BodyWaits(state.body) else 0
    }

    method PollNext() returns (r: Poll<Option<Item>>)
      modifies this
      ensures r.Pending? ==> Waits() + 1 == old(Waits())
      ensures r.Ready? ==> Waits() <= old(Waits())
      ensures r.Ready? && r.value.Some? && r.value.value.Ok? ==> Waits() == old(Waits())
      ensures Delivered(r, old(Remaining()), old(InField()), old(Unread()), Remaining(), InField(), Unread())
      ensures Left() <= old(Left())
      ensures r.Pending? || r.value.Some? ==> Left() < old(Left())
    {
      match state
      case WaitingField =>
        if multipart == [] {
          state := State.Done;
          return Ready(None);
        }
        var event := multipart[0];
        multipart := multipart[1..];
        match event {
          case PartWait =>
            return Pending;
          case PartFail(msg) =>
            state := State.Done;
            return Ready(Some(Err(Multer(msg))));
          case Part(fileName, contentType, body) =>
            if fileName.None? {
              state := State.Done;
              return Ready(Some(Err(FileNameNotFound)));
            }
            var name := fileName.value;
            if contentType.None? {
              return Ready(Some(Err(MimeNotFound(name))));
            }
            var mime := contentType.value;
            if IsAllowed(allowed, mime) {
              state := ReadingField(body);
              return Ready(Some(Ok(New(MetaFile(name, mime)))));
            } else {
              state := State.Done;
              return Ready(Some(Err(MimeNotAllowed(name, mime))));
            }
        }
      case ReadingField(body) =>
        if body == [] {
          state := WaitingField;
          return Ready(Some(Ok(Eof)));
        }
        match body[0] {
          case BodyWait =>
            state := ReadingField(body[1..]);
            return Pending;
          case BodyChunk(b) =>
            state := ReadingField(body[1..]);
            return Ready(Some(Ok(Chunk(b))));
          case BodyFail(msg) =>
            state := State.Done;
            return Ready(Some(Err(Multer(msg))));
        }
      case Done =>
        return Ready(None);
    }
  }
}
