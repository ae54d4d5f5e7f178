/** The event watcher: one file system event at a time becomes messages to the other actors. */
module EventWatcher {
  import opened Wrappers
  import opened BucketMap
  import opened Paths
  import R = RenameControl
  import opened Skipper
  import H = Handlers
  import opened Handlers

  /** File system events; a removal the watcher posts to itself carries no path. */
  datatype Event =
    | CreateFolder(path: Path)
    | CreateFile(path: Path)
    | RenameFrom(path: Path)
    | RenameTo(path: Path)
    | RenameBoth(from: Path, to: Path)
    | RemoveFolder(gone: Option<Path>)
    | RemoveFile(gone: Option<Path>)
    | RemoveAny(path: Path)

  /** What the surroundings decide: random names, a file's metadata, whether a rename succeeds, whether
      the renamed path is a directory, and the manager's answer. */
  datatype Surroundings = Surroundings(random: string, rest: nat, ok: bool, isDir: bool, reply: Reply)

  /** Messages for the rename control, the manager and the watcher itself, and the reaction to the event. */
  datatype Handled =
    | Handled(toControl: seq<R.Message>, toManager: seq<Change>, toSelf: seq<Event>, marks: Marks, move: Option<Move>)
    | Crashed(move: Option<Move>)

  function Reported(r: Reaction, toControl: seq<R.Message>): Handled {
    match r
    case Panic(move) => Crashed(move)
    case Reaction(change, marks, move) => Handled(toControl, if change.Some? then [change.value] else [], [], marks, move)
  }

  function HandleEvent(root: Path, e: Event, marks: Marks, s: Surroundings): Handled {
    match e
    case CreateFolder(path) =>
      if path == [] then Handled([], [], [], marks, None)
      else Reported(NewDirectory(root, path, marks, s.random, s.ok), [])
    case CreateFile(path) =>
      if path == [] then Handled([], [], [], marks, None)
      else Reported(NewFile(root, path, marks, s.random, s.ok, s.rest), [])
    case RenameFrom(path) => Handled([R.From(path)], [], [], marks, None)
    case RenameTo(_) => Handled([], [], [], marks, None)
    case RenameBoth(from, to) =>
      if to == [] then Crashed(None)
      else if s.isDir then Reported(RenamedDirectory(root, from, to, marks, s.ok), [R.Decline(from)])
      else Reported(RenamedFile(root, from, to, marks, s.random, s.ok), [R.Decline(from)])
    case RemoveFolder(None) => Handled([], [], [], marks, None)
    case RemoveFolder(Some(path)) =>
      (match BucketOf(root, path)
       case None => Crashed(None)
       case Some(bucket) =>
         if Parent(path) == Some(root) then Handled([], [DeleteBucket(bucket)], [], marks, None)
         else match FromBucket(bucket, path)
           case None => Crashed(None)
           case Some(key) => Handled([], [DeleteKey(bucket, key)], [], marks, None))
    case RemoveFile(None) => Handled([], [], [], marks, None)
    case RemoveFile(Some(path)) =>
      (match BucketOf(root, path)
       case None => Crashed(None)
       case Some(bucket) =>
         match FromBucket(bucket, path)
         case None => Crashed(None)
         case Some(key) => Handled([], [DeleteObject(bucket, key, FileName(path))], [], marks, None))
    case RemoveAny(_) =>
      match s.reply
      case IsDir => Handled([], [], [RemoveFolder(None)], marks, None)
      case IsFile => Handled([], [], [RemoveFile(None)], marks, None)
      case NoAnswer => Crashed(None)
  }

  class EventWatcher {
    const root: Path
    const handlers: H.Handlers
    var toControl: seq<R.Message>
    var toManager: seq<Change>
    var toSelf: seq<Event>

    constructor (handlers: H.Handlers)
      ensures this.handlers == handlers && root == handlers.root
      ensures toControl == [] && toManager == [] && toSelf == []
    {
      this.handlers, root := handlers, handlers.root;
      toControl, toManager, toSelf := [], [], [];
    }

    /** Handles one event; `isDir` is the disk's answer about the renamed path, `reply` the manager's. */
    method Handle(e: Event, random: string, rest: nat, isDir: bool, reply: Reply)
      returns (move: Option<Move>, ghost ok: bool, panicked: bool)
      requires root == handlers.root
      modifies this, handlers.skipper.buckets, handlers.skipper.keys, handlers.skipper.objects
      ensures var h := HandleEvent(root, e, old(handlers.skipper.All()), Surroundings(random, rest, ok, isDir, reply));
              && (panicked <==> h.Crashed?) && move == h.move
              && (!panicked ==>
                    && toControl == old(toControl) + h.toControl
                    && toManager == old(toManager) + h.toManager
                    && toSelf == old(toSelf) + h.toSelf
                    && handlers.skipper.All() == h.marks)
    {
      move, ok, panicked := None, true, false;
      var change: Option<Change> := None;
      match e {
        case CreateFolder(path) =>
          if path != [] {
            change, move, ok, panicked := handlers.HandleNewDirectory(path, random);
          }
        case CreateFile(path) =>
          if path != [] {
            change, move, ok, panicked := handlers.HandleNewFile(path, random, rest);
          }
        case RenameFrom(path) =>
          toControl := toControl + [R.From(path)];
        case RenameTo(_) =>
        case RenameBoth(from, to) =>
          if to == [] {
            panicked := true;
            return;
          }
          toControl := toControl + [R.Decline(from)];
          if isDir {
            change, move, ok, panicked := handlers.HandleRenamedDirectory(from, to);
          } else {
            change, move, ok, panicked := handlers.HandleRenamedFile(from, to, random);
          }
        case RemoveFolder(gone) =>
          if gone.Some? {
            var bucket := FindBucket(root, gone.value);
            if bucket.None? {
              panicked := true;
              return;
            }
            if Parent(gone.value) == Some(root) {
              change := Some(DeleteBucket(bucket.value));
            } else {
              var key := FromBucket(bucket.value, gone.value);
              if key.None? {
                panicked := true;
                return;
              }
              change := Some(DeleteKey(bucket.value, key.value));
            }
          }
        case RemoveFile(gone) =>
          if gone.Some? {
            var bucket := FindBucket(root, gone.value);
            if bucket.None? {
              panicked := true;
              return;
            }
            var key := FromBucket(bucket.value, gone.value);
            if key.None? {
              panicked := true;
              return;
            }
            change := Some(DeleteObject(bucket.value, key.value, FileName(gone.value)));
          }
        case RemoveAny(_) =>
          match reply {
            case IsDir => toSelf := toSelf + [RemoveFolder(None)];
            case IsFile => toSelf := toSelf + [RemoveFile(None)];
            case NoAnswer => panicked := true;
          }
      }
      if change.Some? && !panicked {
        toManager := toManager + [change.value];
      }
    }
  }
}
