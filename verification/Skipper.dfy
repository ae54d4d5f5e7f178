/** One-shot marks: a rename the program makes itself is marked, and its echo consumes the mark. */
module Skipper {

  /** The outstanding marks of the three trackers. */
  datatype Marks = Marks(buckets: set<string>, keys: set<(string, string)>, objects: set<(string, string, string)>)

  const NO_MARKS: Marks := Marks({}, {}, {})

  class BucketTracker {
    var marks: set<string>

    constructor ()
      ensures marks == {}
    {
      marks := {};
    }

    method ToSkip(bucket: string) returns (isNew: bool)
      modifies this
      ensures marks == old(marks) + {bucket} && (isNew <==> bucket !in old(marks))
    {
      isNew := bucket !in marks;
      marks := marks + {bucket};
    }

    method Skipped(bucket: string) returns (marked: bool)
      modifies this
      ensures marks == old(marks) - {bucket} && (marked <==> bucket in old(marks))
    {
      marked := bucket in marks;
      marks := marks - {bucket};
    }
  }

  class KeyTracker {
    var marks: map<string, set<string>>

    constructor ()
      ensures All() == {}
    {
      marks := map[];
    }

    ghost function All(): set<(string, string)>
      reads this
    {
      set bucket, key | bucket in marks && key in marks[bucket] :: (bucket, key)
    }

    method ToSkip(bucket: string, key: string) returns (isNew: bool)
      modifies this
      ensures All() == old(All()) + {(bucket, key)} && (isNew <==> (bucket, key) !in old(All()))
    {
      var keys := if bucket in marks then marks[bucket] else {};
      isNew := key !in keys;
      marks := marks[bucket := keys + {key}];
    }

    method Skipped(bucket: string, key: string) returns (marked: bool)
      modifies this
      ensures All() == old(All()) - {(bucket, key)} && (marked <==> (bucket, key) in old(All()))
    {
      if bucket in marks {
        marked := key in marks[bucket];
        marks := marks[bucket := marks[bucket] - {key}];
      } else {
        marked := false;
      }
    }
  }

  class ObjectTracker {
    var marks: map<string, map<string, set<string>>>

    constructor ()
      ensures All() == {}
    {
      marks := map[];
    }

    ghost function All(): set<(string, string, string)>
      reads this
    {
      set bucket, key, name | bucket in marks && key in marks[bucket] && name in marks[bucket][key] :: (bucket, key, name)
    }

    method ToSkip(bucket: string, key: string, name: string) returns (isNew: bool)
      modifies this
      ensures All() == old(All()) + {(bucket, key, name)} && (isNew <==> (bucket, key, name) !in old(All()))
    {
      var keys := if bucket in marks then marks[bucket] else map[];
      var names := if key in keys then keys[key] else {};
      isNew := name !in names;
      marks := marks[bucket := keys[key := names + {name}]];
    }

    method Skipped(bucket: string, key: string, name: string) returns (marked: bool)
      modifies this
      ensures All() == old(All()) - {(bucket, key, name)} && (marked <==> (bucket, key, name) in old(All()))
    {
      if bucket in marks && key in marks[bucket] {
        marked := name in marks[bucket][key];
        marks := marks[bucket := marks[bucket][key := marks[bucket][key] - {name}]];
      } else {
        marked := false;
      }
    }
  }

  class Skipper {
    const buckets: BucketTracker
    const keys: KeyTracker
    const objects: ObjectTracker

    constructor ()
      ensures All() == NO_MARKS && fresh(buckets) && fresh(keys) && fresh(objects)
    {
      buckets := new BucketTracker();
      keys := new KeyTracker();
      objects := new ObjectTracker();
    }

    ghost function All(): Marks
      reads this, buckets, keys, objects
    {
      Marks(buckets.marks, keys.All(), objects.All())
    }
  }
}
