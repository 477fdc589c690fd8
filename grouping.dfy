/**
 * The two grouping projections of a key index: by sheet (the last path
 * component of an entry's source file) and by section.
 */
module Groups {
  import opened Entries

  /** The path separator `os.path.split` cuts at (the POSIX one). */
  const Sep: char := '/'

  /** The tail `os.path.split` returns for `path`. */
  function Basename(path: string): string
    decreases |path|
  {
    if path == [] || path[|path| - 1] == Sep then []
    else Basename(path[..|path| - 1]) + [path[|path| - 1]]
  }

  /**
   * `Basename` is the text after the last separator: a separator-free suffix
   * of the path that is either the whole path or preceded by a separator (so
   * it is empty when the path ends with one or is empty).
   */
  lemma {:induction false} BasenameIsTail(path: string)
    ensures Sep !in Basename(path)
    ensures |Basename(path)| <= |path| && Basename(path) == path[|path| - |Basename(path)|..]
    ensures |Basename(path)| < |path| ==> path[|path| - |Basename(path)| - 1] == Sep
    decreases |path|
  {
    if path != [] && path[|path| - 1] != Sep {
      var front := path[..|path| - 1];
      BasenameIsTail(front);
      assert path[|path| - |Basename(path)|..] == front[|front| - |Basename(front)|..] + [path[|path| - 1]];
    }
  }

  /** Which attribute of an entry names its bucket. */
  datatype Grouping = BySheet | BySection

  /** The name of the bucket an entry falls into. */
  function Label(kind: Grouping, e: Entry): string
  {
    match kind
    case BySheet => Basename(e.file)
    case BySection => e.section
  }

  /** The labels carried by the entries of a key index. */
  function Labels(entries: map<string, Entry>, kind: Grouping): (names: set<string>)
    ensures forall k :: k in entries ==> Label(kind, entries[k]) in names
    ensures forall n :: n in names ==> exists k :: k in entries && Label(kind, entries[k]) == n
  {
    set k | k in entries :: Label(kind, entries[k])
  }

  /** The bindings of a key index whose entries carry the label `n`. */
  function Members(entries: map<string, Entry>, kind: Grouping, n: string): (bucket: map<string, Entry>)
    ensures forall k :: k in bucket <==> k in entries && Label(kind, entries[k]) == n
    ensures forall k :: k in bucket ==> bucket[k] == entries[k]
  {
    map k | k in entries && Label(kind, entries[k]) == n :: entries[k]
  }

  /**
   * The grouping of a key index: one bucket per label that some entry carries,
   * holding exactly the bindings of the entries with that label. Together the
   * three clauses say the buckets partition the input: each key is in exactly
   * one bucket, the union of the buckets' keys is the input's key set, and no
   * bucket is empty.
   */
  function Group(entries: map<string, Entry>, kind: Grouping): (g: map<string, map<string, Entry>>)
    // every key lands in the bucket its label names, bound to the same entry
    ensures forall k :: k in entries ==>
      Label(kind, entries[k]) in g && k in g[Label(kind, entries[k])] && g[Label(kind, entries[k])][k] == entries[k]
    // and in no other bucket; buckets hold input bindings only
    ensures forall n, k :: n in g && k in g[n] ==> k in entries && Label(kind, entries[k]) == n && g[n][k] == entries[k]
    // no bucket is empty
    ensures forall n :: n in g ==> g[n] != map[]
  {
    var g := map n | n in Labels(entries, kind) :: Members(entries, kind, n);
    assert forall n :: n in g ==> exists k :: k in g[n];
    g
  }

  /** The bucket map after the binding `k := e` is filed into the bucket named `n` (created if missing). */
  function Put(g: map<string, map<string, Entry>>, n: string, k: string, e: Entry): map<string, map<string, Entry>>
  {
    g[n := (if n in g then g[n] else map[])[k := e]]
  }

  /** Filing one more binding into the bucket its label names keeps the partition properties. */
  lemma PutKeepsGrouping(g: map<string, map<string, Entry>>, entries: map<string, Entry>, kind: Grouping, k: string, e: Entry)
    requires IsGrouping(g, entries, kind) && k !in entries
    ensures IsGrouping(Put(g, Label(kind, e), k, e), entries[k := e], kind)
  {
    PutCovers(g, entries, kind, k, e);
    PutSound(g, entries, kind, k, e);
    PutNonEmpty(g, entries, kind, k, e);
  }

  /** One step of grouping an index key by key: the key taken from `todo` is in no bucket yet,
      and filing it keeps the partition properties for the keys handled so far. */
  lemma FileNext(g: map<string, map<string, Entry>>, entries: map<string, Entry>, todo: set<string>, kind: Grouping, key: string)
    requires todo <= entries.Keys && key in todo && IsGrouping(g, entries - todo, kind)
    ensures forall n :: n in g ==> key !in g[n]
    ensures IsGrouping(Put(g, Label(kind, entries[key]), key, entries[key]), entries - (todo - {key}), kind)
  {
    assert key !in entries - todo;
    PutKeepsGrouping(g, entries - todo, kind, key, entries[key]);
    assert entries - (todo - {key}) == (entries - todo)[key := entries[key]];
  }

  /** After filing, every binding of the larger index is in the bucket its label names. */
  lemma PutCovers(g: map<string, map<string, Entry>>, entries: map<string, Entry>, kind: Grouping, k: string, e: Entry)
    requires IsGrouping(g, entries, kind) && k !in entries
    ensures var g', entries' := Put(g, Label(kind, e), k, e), entries[k := e];
      forall j :: j in entries' ==>
        Label(kind, entries'[j]) in g' && j in g'[Label(kind, entries'[j])] && g'[Label(kind, entries'[j])][j] == entries'[j]
  {
    var g', entries' := Put(g, Label(kind, e), k, e), entries[k := e];
    forall j | j in entries'
      ensures Label(kind, entries'[j]) in g' && j in g'[Label(kind, entries'[j])]
      ensures g'[Label(kind, entries'[j])][j] == entries'[j]
    {
      if j != k {
        assert j in entries && entries'[j] == entries[j];
      }
    }
  }

  /** After filing, every bucket holds only bindings of the larger index that carry its name. */
  lemma PutSound(g: map<string, map<string, Entry>>, entries: map<string, Entry>, kind: Grouping, k: string, e: Entry)
    requires IsGrouping(g, entries, kind) && k !in entries
    ensures var g', entries' := Put(g, Label(kind, e), k, e), entries[k := e];
      forall m, j :: m in g' && j in g'[m] ==> j in entries' && Label(kind, entries'[j]) == m && g'[m][j] == entries'[j]
  {
    var g', entries' := Put(g, Label(kind, e), k, e), entries[k := e];
    forall m, j | m in g' && j in g'[m]
      ensures j in entries' && Label(kind, entries'[j]) == m && g'[m][j] == entries'[j]
    {
      if j != k {
        assert m in g && j in g[m];
      }
    }
  }

  /** After filing, no bucket is empty. */
  lemma PutNonEmpty(g: map<string, map<string, Entry>>, entries: map<string, Entry>, kind: Grouping, k: string, e: Entry)
    requires IsGrouping(g, entries, kind) && k !in entries
    ensures var g' := Put(g, Label(kind, e), k, e); forall m :: m in g' ==> g'[m] != map[]
  {
    var n := Label(kind, e);
    var g' := Put(g, n, k, e);
    forall m | m in g' ensures g'[m] != map[] {
      if m == n {
        assert k in g'[m];
      } else {
        assert g'[m] == g[m];
      }
    }
  }

  /** `g` partitions `entries` into buckets named by `kind`'s label (the three clauses of `Group`). */
  ghost predicate IsGrouping(g: map<string, map<string, Entry>>, entries: map<string, Entry>, kind: Grouping)
  {
    && (forall k :: k in entries ==>
          Label(kind, entries[k]) in g && k in g[Label(kind, entries[k])] && g[Label(kind, entries[k])][k] == entries[k])
    && (forall n, k :: n in g && k in g[n] ==> k in entries && Label(kind, entries[k]) == n && g[n][k] == entries[k])
    && (forall n :: n in g ==> g[n] != map[])
  }

  /** The partition properties determine the grouping: any bucket map that has them is `Group`'s. */
  lemma GroupUnique(g: map<string, map<string, Entry>>, entries: map<string, Entry>, kind: Grouping)
    requires IsGrouping(g, entries, kind)
    ensures g == Group(entries, kind)
  {
    var h := Group(entries, kind);
    assert IsGrouping(h, entries, kind);
    SameBuckets(g, h, entries, kind);
  }

  /** Two partitions of the same index by the same label agree on each bucket name and bucket. */
  lemma SameBuckets(g: map<string, map<string, Entry>>, h: map<string, map<string, Entry>>,
                    entries: map<string, Entry>, kind: Grouping)
    requires IsGrouping(g, entries, kind) && IsGrouping(h, entries, kind)
    ensures g == h
  {
    forall n | n in g ensures n in h {
      SameName(g, h, entries, kind, n);
    }
    forall n | n in h ensures n in g {
      SameName(h, g, entries, kind, n);
    }
    forall n | n in g ensures g[n] == h[n] {
      SameBucket(g, h, entries, kind, n);
    }
  }

  /** A bucket name of one partition is a bucket name of the other. */
  lemma SameName(g: map<string, map<string, Entry>>, h: map<string, map<string, Entry>>,
                 entries: map<string, Entry>, kind: Grouping, n: string)
    requires IsGrouping(g, entries, kind) && IsGrouping(h, entries, kind) && n in g
    ensures n in h
  {
    assert g[n] != map[];
    var k :| k in g[n].Keys;
    assert k in entries && Label(kind, entries[k]) == n;
  }

  /** Buckets of the same name in two partitions hold the same bindings. */
  lemma SameBucket(g: map<string, map<string, Entry>>, h: map<string, map<string, Entry>>,
                   entries: map<string, Entry>, kind: Grouping, n: string)
    requires IsGrouping(g, entries, kind) && IsGrouping(h, entries, kind) && n in g && n in h
    ensures g[n] == h[n]
  {
    forall k | k in g[n] ensures k in h[n] && g[n][k] == h[n][k] {
      assert k in entries && Label(kind, entries[k]) == n;
    }
    forall k | k in h[n] ensures k in g[n] {
      assert k in entries && Label(kind, entries[k]) == n;
    }
    assert g[n].Keys == h[n].Keys;
  }
}
