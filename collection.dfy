/** The in-memory store of translation entries that every parse pass mutates. */
module Collections {
  import opened Entries
  import Stores
  import opened Groups

  class Collection {
    /** Section name to its entries, in document order. */
    var sections: map<string, seq<Entry>>
    /** Key to the first entry created with that key. */
    var entries: map<string, Entry>
    /** Every entry created so far, in creation order. */
    ghost var Log: seq<Entry>

    /** The two indices as a value. */
    function Model(): Stores.Store
      reads this
    {
      Stores.Store(sections, entries)
    }

    /** The indices are the ones the history of created entries explains. */
    ghost predicate Valid()
      reads this
    {
      Stores.Explains(Model(), Log)
    }

    /** A new collection holds the empty root section and no entries. */
    constructor ()
      ensures Valid() && Log == []
      ensures sections == map[Root := []] && entries == map[]
    {
      sections := map[Root := []];
      entries := map[];
      Log := [];
      new;
      Stores.EmptyExplained();
    }

    /**
     * Registers `section`; with attributes, files a new entry at the end of the
     * section's bucket and indexes it unless its key is already indexed.
     */
    method Append(file: string, section: string, attributes: Attributes) returns (outcome: Outcome)
      requires Valid()
      modifies this
      ensures Valid()
      ensures Step(Model(), outcome) == Stores.Append(old(Model()), file, section, attributes)
      ensures Log == if Stores.Creates(attributes) then old(Log) + [Stores.NewEntry(file, section, attributes)] else old(Log)
    {
      ghost var expected := Stores.Append(Model(), file, section, attributes);
      if section !in sections {
        sections := sections[section := []];
      }
      outcome := Pass;
      if attributes != map[] {
        if "KEY" !in attributes {
          outcome := KeyError("KEY");
          assert Step(Model(), outcome) == expected;
          Stores.AppendExplained(old(Model()), Log, file, section, attributes);
          return;
        }
        if "VALUE" !in attributes {
          outcome := KeyError("VALUE");
          assert Step(Model(), outcome) == expected;
          Stores.AppendExplained(old(Model()), Log, file, section, attributes);
          return;
        }
        var entry := Entry(attributes["KEY"], attributes["VALUE"], section, file);
        sections := sections[section := sections[section] + [entry]];
        if entry.key !in entries {
          entries := entries[entry.key := entry];
        }
        Log := Log + [entry];
      }
      assert Step(Model(), outcome) == expected;
      Stores.AppendExplained(old(Model()), old(Log), file, section, attributes);
    }

    /** Groups a key index by the last path component of each entry's source file. */
    static method GroupBySheets(entries: map<string, Entry>) returns (sheets: map<string, map<string, Entry>>)
      ensures sheets == Group(entries, BySheet)
    {
      sheets := map[];
      var todo := entries.Keys;
      while todo != {}
        invariant todo <= entries.Keys
        invariant IsGrouping(sheets, entries - todo, BySheet)
        decreases todo
      {
        var key :| key in todo;
        var sheetName := Basename(entries[key].file);
        ghost var before := sheets;
        // a key of the input cannot already be in a bucket: the guard never rejects
        FileNext(sheets, entries, todo, BySheet, key);
        if sheetName !in sheets {
          sheets := sheets[sheetName := map[]];
        }
        var bucket := sheets[sheetName];
        assert key !in bucket;
        if key !in bucket {
          sheets := sheets[sheetName := bucket[key := entries[key]]];
        }
        assert sheets == Put(before, Label(BySheet, entries[key]), key, entries[key]);
        todo := todo - {key};
      }
      assert entries - todo == entries;
      GroupUnique(sheets, entries, BySheet);
    }

    /** Groups a key index by the section of each entry. */
    static method GroupBySections(entries: map<string, Entry>) returns (sections: map<string, map<string, Entry>>)
      ensures sections == Group(entries, BySection)
    {
      sections := map[];
      var todo := entries.Keys;
      while todo != {}
        invariant todo <= entries.Keys
        invariant IsGrouping(sections, entries - todo, BySection)
        decreases todo
      {
        var key :| key in todo;
        var sectionName := entries[key].section;
        ghost var before := sections;
        // a key of the input cannot already be in a bucket: the guard never rejects
        FileNext(sections, entries, todo, BySection, key);
        if sectionName !in sections {
          sections := sections[sectionName := map[]];
        }
        var bucket := sections[sectionName];
        assert key !in bucket;
        if key !in bucket {
          sections := sections[sectionName := bucket[key := entries[key]]];
        }
        assert sections == Put(before, Label(BySection, entries[key]), key, entries[key]);
        todo := todo - {key};
      }
      assert entries - todo == entries;
      GroupUnique(sections, entries, BySection);
    }
  }
}
