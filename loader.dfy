/**
 * Ingestion: stream the root document, then each file it links to, every
 * one with a fresh handler over the same collection. Links found in linked
 * files are not followed. The file system is a map from the paths that
 * exist to the events their documents produce.
 */
module Loader {
  import opened Entries
  import Stores
  import opened Collections
  import opened Handlers

  /** The documents that exist, each given by the events streaming it produces. */
  type Files = map<string, seq<Event>>

  /** One linked file: skipped when it does not exist, else streamed with a fresh handler. */
  function LoadLinked(files: Files, path: string, st: Stores.Store): Step<Stores.Store>
  {
    if path !in files then Step(st, Pass)
    else
      var r := Run(Fresh(st), path, files[path]);
      Step(r.state.store, r.outcome)
  }

  /** The linked files in order, stopping at the first error. */
  function LoadLinks(files: Files, links: seq<string>, st: Stores.Store): Step<Stores.Store>
    decreases |links|
  {
    if links == [] then Step(st, Pass)
    else
      var r := LoadLinks(files, links[..|links| - 1], st);
      if r.outcome != Pass then r else LoadLinked(files, links[|links| - 1], r.state)
  }

  /**
   * `load_from_xml(root, collection)`: a missing root fails; otherwise the
   * root is streamed, then the files its own handler queued.
   */
  function Load(files: Files, root: string, st: Stores.Store): Step<Stores.Store>
  {
    if root !in files then Step(st, MissingDocument(root))
    else
      var r := Run(Fresh(st), root, files[root]);
      if r.outcome != Pass then Step(r.state.store, r.outcome)
      else LoadLinks(files, r.state.linked, r.state.store)
  }

  /** The paths of `links` that exist, in order. */
  function Present(files: Files, links: seq<string>): (present: seq<string>)
    ensures forall i :: 0 <= i < |present| ==> present[i] in files && present[i] in links
    decreases |links|
  {
    if links == [] then []
    else
      var last := links[|links| - 1];
      Present(files, links[..|links| - 1]) + if last in files then [last] else []
  }

  /** The documents whose entries a load may add: the root and the existing files it links to directly. */
  function Reach(files: Files, root: string): (reach: set<string>)
    ensures reach <= files.Keys
  {
    if root !in files then {}
    else {root} + set p | p in LinkTargets(files[root]) && p in files
  }

  /** Loading link `n` after the links before it all passed. */
  lemma LoadLinksAdvance(files: Files, links: seq<string>, st: Stores.Store, n: nat, current: Stores.Store)
    requires n < |links| && LoadLinks(files, links[..n], st) == Step(current, Pass)
    ensures LoadLinks(files, links[..n + 1], st) == LoadLinked(files, links[n], current)
  {
    assert links[..n + 1][..n] == links[..n];
  }

  /** A missing linked file is skipped without touching the collection: only the existing ones matter. */
  lemma {:induction false} LoadLinksSkipsMissing(files: Files, links: seq<string>, st: Stores.Store)
    ensures LoadLinks(files, links, st) == LoadLinks(files, Present(files, links), st)
    decreases |links|
  {
    if links != [] {
      var front, last := links[..|links| - 1], links[|links| - 1];
      LoadLinksSkipsMissing(files, front, st);
      var p := Present(files, links);
      if last in files {
        assert p[..|p| - 1] == Present(files, front);
      } else {
        assert p == Present(files, front);
      }
    }
  }

  /** Once a linked file raises, the remaining links are not processed. */
  lemma {:induction false} LoadLinksStopsAtError(files: Files, links: seq<string>, st: Stores.Store, n: nat)
    requires n <= |links| && LoadLinks(files, links[..n], st).outcome != Pass
    ensures LoadLinks(files, links, st) == LoadLinks(files, links[..n], st)
    decreases |links|
  {
    if n < |links| {
      var front := links[..|links| - 1];
      assert front[..n] == links[..n];
      LoadLinksStopsAtError(files, front, st, n);
    } else {
      assert links[..n] == links;
    }
  }

  /** Processing links grows the shared collection by entries of existing linked files only. */
  lemma {:induction false} LoadLinksGrows(files: Files, links: seq<string>, st: Stores.Store)
    ensures Stores.Grows(st, LoadLinks(files, links, st).state, set p | p in links && p in files)
    decreases |links|
  {
    var reach := set p | p in links && p in files;
    if links == [] {
      Stores.GrowsWeaken(st, st, {}, reach);
    } else {
      var front, last := links[..|links| - 1], links[|links| - 1];
      var earlier := set p | p in front && p in files;
      LoadLinksGrows(files, front, st);
      Stores.GrowsWeaken(st, LoadLinks(files, front, st).state, earlier, reach);
      var r := LoadLinks(files, front, st);
      if r.outcome == Pass {
        if last in files {
          RunGrows(Fresh(r.state), last, files[last]);
          Stores.GrowsTrans(st, r.state, LoadLinks(files, links, st).state, reach, {last});
          assert reach + {last} == reach;
        }
      }
    }
  }

  /**
   * Link resolution goes exactly one level deep: a load adds entries only from
   * the root document and the existing files the root links to directly, and
   * keeps everything the collection held before (the collection is shared and
   * only accumulates).
   */
  lemma LoadDepthOne(files: Files, root: string, st: Stores.Store)
    ensures Stores.Grows(st, Load(files, root, st).state, Reach(files, root))
  {
    if root in files {
      var r := Run(Fresh(st), root, files[root]);
      RunGrows(Fresh(st), root, files[root]);
      Stores.GrowsWeaken(st, r.state.store, {root}, Reach(files, root));
      if r.outcome == Pass {
        RunLinks(Fresh(st), root, files[root]);
        assert r.state.linked == LinkTargets(files[root]);
        LoadLinksGrows(files, r.state.linked, r.state.store);
        Stores.GrowsTrans(st, r.state.store, Load(files, root, st).state,
                          Reach(files, root), set p | p in r.state.linked && p in files);
        assert Reach(files, root) + (set p | p in r.state.linked && p in files) == Reach(files, root);
      }
    } else {
      Stores.GrowsWeaken(st, st, {}, {});
    }
  }

  /**
   * Link resolution reads nothing beyond the root and its direct links: a load
   * over the whole file system ends exactly as one over only the documents in
   * `Reach`, so a file linked only from a linked file has no effect at all,
   * not even a registered section.
   */
  lemma LoadOnlyReach(files: Files, root: string, st: Stores.Store)
    ensures Load(files, root, st) == Load(map p | p in Reach(files, root) :: files[p], root, st)
  {
    var sub := map p | p in Reach(files, root) :: files[p];
    if root in files {
      assert root in sub && sub[root] == files[root];
      var r := Run(Fresh(st), root, files[root]);
      if r.outcome == Pass {
        RunLinks(Fresh(st), root, files[root]);
        LoadLinksAgree(files, sub, r.state.linked, r.state.store);
      }
    }
  }

  /** Two file systems that agree on every path of `links` load those links alike. */
  lemma {:induction false} LoadLinksAgree(files: Files, other: Files, links: seq<string>, st: Stores.Store)
    requires forall p :: p in links ==> (p in files <==> p in other) && (p in files ==> files[p] == other[p])
    ensures LoadLinks(files, links, st) == LoadLinks(other, links, st)
    decreases |links|
  {
    if links != [] {
      var front := links[..|links| - 1];
      assert forall p :: p in front ==> p in links;
      LoadLinksAgree(files, other, front, st);
    }
  }

  /** One linked file: a path that does not exist is skipped, an existing one is streamed with a fresh handler. */
  method LoadLinkedFile(files: Files, path: string, collection: Collection) returns (outcome: Outcome)
    requires collection.Valid()
    modifies collection
    ensures collection.Valid()
    ensures Step(collection.Model(), outcome) == LoadLinked(files, path, old(collection.Model()))
  {
    outcome := Pass;
    if path in files {
      var handler := new TextHandler(collection);
      outcome := Parse(handler, path, files[path]);
    }
  }

  /**
   * Streams `root` into `collection`, then every file the root's handler
   * queued, in order, each with a fresh handler; missing linked files are
   * skipped and any error aborts the load.
   */
  method LoadFromXml(files: Files, root: string, collection: Collection) returns (outcome: Outcome)
    requires collection.Valid()
    modifies collection
    ensures collection.Valid()
    ensures Step(collection.Model(), outcome) == Load(files, root, old(collection.Model()))
  {
    if root !in files {
      return MissingDocument(root);
    }
    var handler := new TextHandler(collection);
    outcome := Parse(handler, root, files[root]);
    if outcome != Pass {
      return;
    }
    var links := handler.linkedFiles;
    ghost var afterRoot := collection.Model();
    var i := 0;
    while i < |links|
      invariant 0 <= i <= |links|
      invariant collection.Valid()
      invariant LoadLinks(files, links[..i], afterRoot) == Step(collection.Model(), Pass)
    {
      LoadLinksAdvance(files, links, afterRoot, i, collection.Model());
      outcome := LoadLinkedFile(files, links[i], collection);
      if outcome != Pass {
        LoadLinksStopsAtError(files, links, afterRoot, i + 1);
        return;
      }
      i := i + 1;
    }
    assert links[..i] == links;
    outcome := Pass;
  }
}
