/** RefCounter of sm/lock.py: one small file per object, one directory per
    namespace, both made on demand and removed when they are no longer needed. */
module RefCounting {
  import opened RefPairs

  /** The file of an object: its namespace's directory and its own name. */
  datatype Key = Key(ns: string, obj: string)

  // ---- Names ----

  predicate Special(c: char) {
    c == '/' || c == '*' || c == '?' || c == '\\'
  }

  /** The replacements of _getSafeNames: a name without separators and wildcards, and
      otherwise the same. */
  function SafeName(obj: string): (safe: string)
    ensures |safe| == |obj|
    ensures '/' !in safe && '*' !in safe && '?' !in safe && '\\' !in safe
    ensures forall i :: 0 <= i < |obj| && obj[i] !in ['/', '*', '?', '\\'] ==> safe[i] == obj[i]
    ensures forall i :: 0 <= i < |obj| ==> safe[i] == if Special(obj[i]) then '_' else obj[i]
  {
    if obj == "" then "" else [if Special(obj[0]) then '_' else obj[0]] + SafeName(obj[1..])
  }

  predicate Mixed(c: char, d: char) {
    c == d || ((Special(c) || c == '_') && (Special(d) || d == '_'))
  }

  /** Two objects of a namespace share a count file exactly when their names differ
      only in places where both have an underscore or a replaced character. Their
      locks are different files all the same. */
  lemma {:induction false} SharedFileExactly(a: string, b: string)
    ensures SafeName(a) == SafeName(b)
            <==> |a| == |b| && forall i :: 0 <= i < |a| ==> Mixed(a[i], b[i])
  {
    if SafeName(a) == SafeName(b) {
      forall i | 0 <= i < |a| ensures Mixed(a[i], b[i]) {
        assert SafeName(a)[i] == SafeName(b)[i];
      }
    } else if |a| == |b| {
      var i :| 0 <= i < |a| && SafeName(a)[i] != SafeName(b)[i];
      assert !Mixed(a[i], b[i]);
    }
  }

  // ---- The tree ----

  type Files = map<Key, Pair>

  function PairIn(files: Files, k: Key): Pair {
    if k in files then files[k] else ZERO
  }

  /** The files after `k` has been given `pair`. */
  function With(files: Files, k: Key, pair: Pair): Files {
    if pair == ZERO then files - {k} else files[k := pair]
  }

  lemma WithGives(files: Files, k: Key, pair: Pair)
    ensures PairIn(With(files, k, pair), k) == pair
    ensures With(files, k, pair) - {k} == files - {k}
  {
  }

  /** A count file exists exactly for a pair that is not zero, a directory exactly
      for a namespace that has a file, and a binary count is zero or one. */
  ghost predicate Tidy(files: Files, dirs: set<string>) {
    && (forall k :: k in files ==> files[k] != ZERO && Proper(files[k]))
    && (forall k :: k in files ==> k.ns in dirs)
    && (forall ns :: ns in dirs ==> exists k :: k in files && k.ns == ns)
  }

  /** What gets and puts of one kind on one object do to each other and to others. */
  lemma GetThenPut(files: Files, dirs: set<string>, k: Key, binary: bool, other: Key)
    requires Tidy(files, dirs)
    ensures var after := With(files, k, Get(PairIn(files, k), binary));
            var back := With(after, k, Put(PairIn(after, k), binary));
            && Total(PairIn(after, k)) > 0
            && (back == files <==> !(binary && PairIn(files, k).binary == 1))
            && (other != k ==> PairIn(after, other) == PairIn(files, other))
  {
    var was := PairIn(files, k);
    var up := Get(was, binary);
    assert up != ZERO;
    var after := With(files, k, up);
    var down := Put(up, binary);
    var back := With(after, k, down);
    if binary && was.binary == 1 {
      assert PairIn(back, k) != was;
    } else {
      assert down == was;
      assert back == files;
    }
  }

  class RefCounter {
    var dirs: set<string>
    var files: Files

    constructor ()
      ensures dirs == {} && files == map[] && Valid()
    {
      dirs, files := {}, map[];
    }

    ghost predicate Valid()
      reads this
    {
      Tidy(files, dirs)
    }

    /** _writeCount: false when the directory is missing. */
    method WriteCount(k: Key, pair: Pair) returns (written: bool)
      modifies this`files
      ensures written <==> k.ns in dirs
      ensures files == if written then old(files)[k := pair] else old(files)
    {
      if k.ns !in dirs {
        return false;
      }
      files := files[k := pair];
      return true;
    }

    method CreateNamespace(ns: string)
      modifies this`dirs
      ensures dirs == old(dirs) + {ns}
    {
      dirs := dirs + {ns};
    }

    /** _removeObject: the directory goes with its last file. */
    method RemoveObject(k: Key)
      requires Valid()
      modifies this
      ensures Valid()
      ensures files == old(files) - {k}
    {
      if k !in files {
        assert files - {k} == files;
        return;
      }
      files := files - {k};
      if !exists x :: x in files && x.ns == k.ns {
        dirs := dirs - {k.ns};
      }
      forall ns | ns in dirs ensures exists x :: x in files && x.ns == ns {
        var x :| x in old(files) && x.ns == ns;
        if ns != k.ns {
          assert x in files;
        }
      }
    }

    /** _set, with its retry loop. */
    method Store(k: Key, pair: Pair)
      requires Valid() && Proper(pair)
      modifies this
      ensures Valid()
      ensures files == With(old(files), k, pair)
    {
      if pair == ZERO {
        RemoveObject(k);
        return;
      }
      var written := WriteCount(k, pair);
      while !written
        invariant files == if written then old(files)[k := pair] else old(files)
        invariant dirs == old(dirs) || dirs == old(dirs) + {k.ns}
        invariant written ==> k.ns in dirs
        invariant !written && k.ns in dirs ==> dirs != old(dirs)
        decreases !written, k.ns !in dirs
      {
        CreateNamespace(k.ns);
        written := WriteCount(k, pair);
      }
      forall ns | ns in dirs ensures exists x :: x in files && x.ns == ns {
        if ns == k.ns {
          assert k in files;
        } else {
          var x :| x in old(files) && x.ns == ns;
          assert x in files;
        }
      }
    }

    /** check */
    method Check(k: Key) returns (pair: Pair)
      ensures pair == PairIn(files, k)
    {
      pair := ZERO;
      if k in files {
        pair := files[k];
      }
    }

    /** _adjust */
    method AdjustCount(k: Key, delta: int, binaryDelta: int) returns (total: nat)
      requires Valid() && -1 <= binaryDelta <= 1
      modifies this
      ensures Valid()
      ensures var pair := Adjust(PairIn(old(files), k), delta, binaryDelta);
              files == With(old(files), k, pair) && total == Total(pair)
    {
      var was := Check(k);
      var count := was.normal + delta;
      var binaryCount := was.binary + binaryDelta;
      if count < 0 {
        count := 0;
      }
      if binaryCount < 0 {
        binaryCount := 0;
      }
      if binaryCount > 1 {
        binaryCount := 1;
      }
      Store(k, Pair(count, binaryCount));
      return count + binaryCount;
    }

    method GetRef(k: Key, binary: bool) returns (total: nat)
      requires Valid()
      modifies this
      ensures Valid()
      ensures files == With(old(files), k, Get(PairIn(old(files), k), binary))
      ensures total == Total(PairIn(files, k))
    {
      if binary {
        total := AdjustCount(k, 0, 1);
      } else {
        total := AdjustCount(k, 1, 0);
      }
    }

    method PutRef(k: Key, binary: bool) returns (total: nat)
      requires Valid()
      modifies this
      ensures Valid()
      ensures files == With(old(files), k, Put(PairIn(old(files), k), binary))
      ensures total == Total(PairIn(files, k))
    {
      if binary {
        total := AdjustCount(k, 0, -1);
      } else {
        total := AdjustCount(k, -1, 0);
      }
    }

    /** set: refuses a binary count above one and then changes nothing. */
    method SetCounts(k: Key, pair: Pair) returns (ok: bool)
      requires Valid()
      modifies this
      ensures Valid()
      ensures ok <==> Proper(pair)
      ensures files == if ok then With(old(files), k, pair) else old(files)
    {
      if pair.binary > 1 {
        return false;
      }
      Store(k, pair);
      return true;
    }

    /** _reset of a whole namespace: every file in it goes, and the directory with the last. */
    method ResetNamespace(ns: string)
      requires Valid()
      modifies this
      ensures Valid()
      ensures files == map k | k in old(files) && k.ns != ns :: old(files)[k]
      ensures ns !in dirs
    {
      if ns !in dirs {
        assert forall k :: k in files ==> k.ns != ns;
        return;
      }
      var todo := set k | k in files && k.ns == ns;
      while todo != {}
        invariant Valid()
        invariant todo == set k | k in files && k.ns == ns
        invariant forall k :: k in files ==> k in old(files) && files[k] == old(files)[k]
        invariant forall k :: k in old(files) && k.ns != ns ==> k in files
        decreases todo
      {
        var k :| k in todo;
        RemoveObject(k);
        todo := todo - {k};
      }
      forall k | k in files ensures k.ns != ns {
        assert k.ns == ns ==> k in todo;
      }
    }
  }
}
