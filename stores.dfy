/**
 * The value-level view of a collection: its two indices, the effect of one
 * `append` on them, and the invariants that relate them to the history of
 * entries created so far.
 */
module Stores {
  import opened Entries

  /** `sections` maps a section name to its entries in document order; `entries` indexes entries by key. */
  datatype Store = Store(sections: map<string, seq<Entry>>, entries: map<string, Entry>)

  /** A freshly constructed collection: only the empty root section, no entries. */
  const Empty: Store := Store(map[Root := []], map[])

  /** The bucket of `section`, or the empty sequence when the section is not registered. */
  function Bucket(st: Store, section: string): seq<Entry>
  {
    if section in st.sections then st.sections[section] else []
  }

  /** True when `append` creates an entry for these attributes (non-empty, with KEY and VALUE). */
  predicate Creates(attributes: Attributes)
  {
    attributes != map[] && "KEY" in attributes && "VALUE" in attributes
  }

  /** The entry `append` creates for these attributes. */
  function NewEntry(file: string, section: string, attributes: Attributes): Entry
    requires Creates(attributes)
  {
    Entry(attributes["KEY"], attributes["VALUE"], section, file)
  }

  /**
   * `append(file, section, attributes)`: register `section`; with attributes,
   * read KEY then VALUE (a missing one raises KeyError), add the new entry at
   * the end of the section's bucket, and index it by key unless the key is
   * already indexed.
   */
  function Append(st: Store, file: string, section: string, attributes: Attributes): Step<Store>
  {
    var sections := if section in st.sections then st.sections else st.sections[section := []];
    if attributes == map[] then Step(Store(sections, st.entries), Pass)
    else if "KEY" !in attributes then Step(Store(sections, st.entries), KeyError("KEY"))
    else if "VALUE" !in attributes then Step(Store(sections, st.entries), KeyError("VALUE"))
    else
      var e := NewEntry(file, section, attributes);
      var entries := if e.key in st.entries then st.entries else st.entries[e.key := e];
      Step(Store(sections[section := sections[section] + [e]], entries), Pass)
  }

  /** What one `append` does to the two indices, case by case. */
  lemma AppendEffect(st: Store, file: string, section: string, attributes: Attributes)
    ensures var r := Append(st, file, section, attributes);
      // the section is registered whatever happens, and no other bucket changes
      && r.state.sections.Keys == st.sections.Keys + {section}
      && (forall s :: s in st.sections && s != section ==> r.state.sections[s] == st.sections[s])
      // the error cases
      && (r.outcome == Pass <==> attributes == map[] || Creates(attributes))
      && (attributes != map[] && "KEY" !in attributes ==> r.outcome == KeyError("KEY"))
      && (attributes != map[] && "KEY" in attributes && "VALUE" !in attributes ==> r.outcome == KeyError("VALUE"))
      // without an entry only the registration happens
      && (!Creates(attributes) ==> r.state.entries == st.entries && r.state.sections[section] == Bucket(st, section))
      // with an entry: appended at the end of its bucket, and indexed only when its key is new
      && (Creates(attributes) ==>
            var e := NewEntry(file, section, attributes);
            && r.state.sections[section] == Bucket(st, section) + [e]
            && (e.key in st.entries ==> r.state.entries == st.entries)
            && (e.key !in st.entries ==>
                  && r.state.entries.Keys == st.entries.Keys + {e.key}
                  && r.state.entries[e.key] == e
                  && forall k :: k in st.entries ==> r.state.entries[k] == st.entries[k]))
  {
  }

  // ---------------------------------------------------------------------------
  // The history view: a store is explained by the sequence of entries created so far.
  // ---------------------------------------------------------------------------

  /** The key index built from a history when the first entry for each key wins. */
  function FirstWins(log: seq<Entry>): (m: map<string, Entry>)
    ensures forall k :: k in m ==> m[k].key == k && m[k] in log
    ensures forall i :: 0 <= i < |log| ==> log[i].key in m
    decreases |log|
  {
    if log == [] then map[]
    else
      var m := FirstWins(log[..|log| - 1]);
      var e := log[|log| - 1];
      if e.key in m then m else m[e.key := e]
  }

  /** The entries of a history that belong to `section`, in history order. */
  function InSection(log: seq<Entry>, section: string): (b: seq<Entry>)
    ensures forall i :: 0 <= i < |b| ==> b[i].section == section && b[i] in log
    decreases |log|
  {
    if log == [] then []
    else
      var b := InSection(log[..|log| - 1], section);
      if log[|log| - 1].section == section then b + [log[|log| - 1]] else b
  }

  /**
   * `log` is the sequence of entries created so far: the key index keeps the
   * first entry of each key, each bucket is the history filtered by section,
   * every entry's section is registered, and the root section exists.
   */
  ghost predicate Explains(st: Store, log: seq<Entry>)
  {
    && Root in st.sections
    && st.entries == FirstWins(log)
    && (forall s :: s in st.sections ==> st.sections[s] == InSection(log, s))
    && (forall i :: 0 <= i < |log| ==> log[i].section in st.sections)
  }

  /**
   * The collection invariant in its own terms: the root section exists, every
   * entry sits in the bucket of its own section, every indexed entry is filed
   * under its key and occurs in its section's bucket, and every key in a
   * bucket is indexed.
   */
  ghost predicate WellFormed(st: Store)
  {
    && Root in st.sections
    && (forall s, i :: s in st.sections && 0 <= i < |st.sections[s]| ==> st.sections[s][i].section == s)
    && (forall k :: k in st.entries ==>
          && st.entries[k].key == k
          && st.entries[k].section in st.sections
          && st.entries[k] in st.sections[st.entries[k].section])
    && (forall s, i :: s in st.sections && 0 <= i < |st.sections[s]| ==> st.sections[s][i].key in st.entries)
  }

  /** The first entry of the history with key `k` is the one indexed under `k`. */
  lemma {:induction false} FirstWinsIsFirst(log: seq<Entry>, i: nat)
    requires i < |log|
    requires forall j :: 0 <= j < i ==> log[j].key != log[i].key
    ensures log[i].key in FirstWins(log) && FirstWins(log)[log[i].key] == log[i]
    decreases |log|
  {
    var front, last := log[..|log| - 1], log[|log| - 1];
    var k := log[i].key;
    var m := FirstWins(front);
    assert FirstWins(log) == if last.key in m then m else m[last.key := last];
    if i < |log| - 1 {
      assert front[i] == log[i];
      FirstWinsIsFirst(front, i);
      assert k in m && m[k] == log[i];
    } else {
      FirstWinsMisses(front, k);
      assert k !in m;
    }
  }

  /** A key no entry of the history carries is not indexed. */
  lemma {:induction false} FirstWinsMisses(log: seq<Entry>, k: string)
    requires forall j :: 0 <= j < |log| ==> log[j].key != k
    ensures k !in FirstWins(log)
    decreases |log|
  {
    if log != [] {
      FirstWinsMisses(log[..|log| - 1], k);
    }
  }

  /** A section no entry of the history belongs to has an empty filtered history. */
  lemma {:induction false} InSectionEmpty(log: seq<Entry>, section: string)
    requires forall j :: 0 <= j < |log| ==> log[j].section != section
    ensures InSection(log, section) == []
    decreases |log|
  {
    if log != [] {
      InSectionEmpty(log[..|log| - 1], section);
    }
  }

  /** Every entry of the history appears in its own section's filtered history. */
  lemma {:induction false} InSectionHas(log: seq<Entry>, i: nat)
    requires i < |log|
    ensures log[i] in InSection(log, log[i].section)
    decreases |log|
  {
    if i < |log| - 1 {
      InSectionHas(log[..|log| - 1], i);
    }
  }

  /** The fresh collection is explained by the empty history. */
  lemma EmptyExplained()
    ensures Explains(Empty, [])
  {
    assert forall s :: s in Empty.sections ==> s == Root;
  }

  /** `append` extends the history by exactly the entry it creates, and keeps the invariant. */
  lemma AppendExplained(st: Store, log: seq<Entry>, file: string, section: string, attributes: Attributes)
    requires Explains(st, log)
    ensures Explains(Append(st, file, section, attributes).state,
                     if Creates(attributes) then log + [NewEntry(file, section, attributes)] else log)
  {
    var sections := if section in st.sections then st.sections else st.sections[section := []];
    if section !in st.sections {
      InSectionEmpty(log, section);
    }
    assert Explains(Store(sections, st.entries), log);
    if Creates(attributes) {
      AppendEntryExplained(Store(sections, st.entries), log, NewEntry(file, section, attributes));
    }
  }

  /** Adding an entry of a registered section to its bucket and, if its key is new, to the index. */
  lemma AppendEntryExplained(st: Store, log: seq<Entry>, e: Entry)
    requires Explains(st, log) && e.section in st.sections
    ensures Explains(Store(st.sections[e.section := st.sections[e.section] + [e]],
                           if e.key in st.entries then st.entries else st.entries[e.key := e]),
                     log + [e])
  {
    var log' := log + [e];
    var sections' := st.sections[e.section := st.sections[e.section] + [e]];
    FirstWinsPush(log, e);
    BucketsPush(st.sections, log, e);
    forall i | 0 <= i < |log'| ensures log'[i].section in sections' {
      if i < |log| { assert log'[i] == log[i]; }
    }
  }

  /** Buckets that are the per-section histories stay so when one entry joins its own section's bucket. */
  lemma BucketsPush(sections: map<string, seq<Entry>>, log: seq<Entry>, e: Entry)
    requires e.section in sections && forall s :: s in sections ==> sections[s] == InSection(log, s)
    ensures var sections' := sections[e.section := sections[e.section] + [e]];
      forall s :: s in sections' ==> sections'[s] == InSection(log + [e], s)
  {
    forall s | s in sections ensures sections[e.section := sections[e.section] + [e]][s] == InSection(log + [e], s) {
      InSectionPush(log, e, s);
    }
  }

  /** One more entry in the history is indexed exactly when its key is new. */
  lemma FirstWinsPush(log: seq<Entry>, e: Entry)
    ensures FirstWins(log + [e]) == if e.key in FirstWins(log) then FirstWins(log) else FirstWins(log)[e.key := e]
  {
    assert (log + [e])[..|log|] == log;
  }

  /** One more entry in the history joins the end of its own section's filtered history only. */
  lemma InSectionPush(log: seq<Entry>, e: Entry, section: string)
    ensures InSection(log + [e], section) == InSection(log, section) + if e.section == section then [e] else []
  {
    assert (log + [e])[..|log|] == log;
  }

  /** A store explained by a history satisfies the collection invariant. */
  lemma ExplainedIsWellFormed(st: Store, log: seq<Entry>)
    requires Explains(st, log)
    ensures WellFormed(st)
  {
    forall k | k in st.entries
      ensures st.entries[k].section in st.sections && st.entries[k] in st.sections[st.entries[k].section]
    {
      var i :| 0 <= i < |log| && log[i] == st.entries[k];
      InSectionHas(log, i);
    }
    forall s, i | s in st.sections && 0 <= i < |st.sections[s]| ensures st.sections[s][i].key in st.entries {
      var j :| 0 <= j < |log| && log[j] == st.sections[s][i];
    }
  }

  // ---------------------------------------------------------------------------
  // Growth: what a sequence of operations may do to a store.
  // ---------------------------------------------------------------------------

  /** The length `section`'s bucket had in `st` (zero when it was not registered). */
  function Known(st: Store, section: string): nat
  {
    if section in st.sections then |st.sections[section]| else 0
  }

  /**
   * `st'` grows out of `st` by entries read from `files` only: no section is
   * dropped, every old bucket is a prefix of its new version, every old index
   * binding is kept, and every new bucket element or index binding comes from
   * one of `files`.
   */
  ghost predicate Grows(st: Store, st': Store, files: set<string>)
  {
    && st.sections.Keys <= st'.sections.Keys
    && (forall s :: s in st.sections ==> st.sections[s] <= st'.sections[s])
    && (forall s, i :: s in st'.sections && Known(st, s) <= i < |st'.sections[s]| ==> st'.sections[s][i].file in files)
    && (forall k :: k in st.entries ==> k in st'.entries && st'.entries[k] == st.entries[k])
    && (forall k :: k in st'.entries && k !in st.entries ==> st'.entries[k].file in files)
  }

  /** Growth composes, and the sets of contributing files add up. */
  lemma GrowsTrans(a: Store, b: Store, c: Store, f: set<string>, g: set<string>)
    requires Grows(a, b, f) && Grows(b, c, g)
    ensures Grows(a, c, f + g)
  {
    forall s | s in a.sections ensures a.sections[s] <= c.sections[s] {
      assert a.sections[s] <= b.sections[s] <= c.sections[s];
    }
    forall s, i | s in c.sections && Known(a, s) <= i < |c.sections[s]| ensures c.sections[s][i].file in f + g {
      if i < Known(b, s) {
        assert c.sections[s][i] == b.sections[s][i];
      }
    }
  }

  /** A larger set of contributing files still bounds the growth. */
  lemma GrowsWeaken(a: Store, b: Store, f: set<string>, g: set<string>)
    requires Grows(a, b, f) && f <= g
    ensures Grows(a, b, g)
  {
  }

  /** One `append` grows the store by entries of its own `file` only. */
  lemma AppendGrows(st: Store, file: string, section: string, attributes: Attributes)
    ensures Grows(st, Append(st, file, section, attributes).state, {file})
  {
    var r := Append(st, file, section, attributes).state;
    forall s, i | s in r.sections && Known(st, s) <= i < |r.sections[s]| ensures r.sections[s][i].file in {file} {
      assert s == section;
    }
  }
}
