/**
 * The tag-driven handler that fills a collection while one document is
 * streamed: it tracks the current section and the queue of linked files.
 * The markup parser is replaced by an explicit sequence of start/end events.
 */
module Handlers {
  import opened Entries
  import Stores
  import opened Collections

  /** One callback of the markup parser: a start tag with its attributes, or an end tag. */
  datatype Event = Start(tag: string, attributes: Attributes) | End(tag: string)

  /** What a handler and its collection hold between two callbacks. */
  datatype HandlerState = HandlerState(store: Stores.Store, curSection: string, linked: seq<string>)

  /** A new handler over a collection: in the root section, with no linked files queued. */
  function Fresh(st: Stores.Store): HandlerState
  {
    HandlerState(st, Root, [])
  }

  /**
   * The start-tag callback. SECTION reads NAME (KeyError when missing), makes
   * it the current section and registers it. TEXT with KEY appends an entry to
   * the current section; TEXT with FILE but no KEY queues the file. Anything
   * else changes nothing.
   */
  function OnStart(h: HandlerState, file: string, tag: string, attributes: Attributes): Step<HandlerState>
  {
    if tag == "SECTION" then
      if "NAME" !in attributes then Step(h, KeyError("NAME"))
      else
        var name := attributes["NAME"];
        var registered := Stores.Append(h.store, file, name, map[]);
        Step(h.(store := registered.state, curSection := name), Pass)
    else if tag == "TEXT" then
      if "KEY" in attributes then
        var appended := Stores.Append(h.store, file, h.curSection, attributes);
        Step(h.(store := appended.state), appended.outcome)
      else if "FILE" in attributes then Step(h.(linked := h.linked + [attributes["FILE"]]), Pass)
      else Step(h, Pass)
    else Step(h, Pass)
  }

  /** What one start tag does to the handler and its collection, tag by tag. */
  lemma OnStartEffect(h: HandlerState, file: string, tag: string, attributes: Attributes)
    ensures var r := OnStart(h, file, tag, attributes);
      // SECTION makes NAME current and registers it, or raises KeyError("NAME") without a change
      && (tag == "SECTION" && "NAME" in attributes ==>
            && r.outcome == Pass
            && r.state.curSection == attributes["NAME"]
            && r.state.curSection in r.state.store.sections
            && r.state.store == Stores.Append(h.store, file, attributes["NAME"], map[]).state
            && r.state.store.entries == h.store.entries
            && r.state.linked == h.linked)
      && (tag == "SECTION" && "NAME" !in attributes ==> r == Step(h, KeyError("NAME")))
      // TEXT with KEY appends under the current section: KEY takes priority over FILE
      && (tag == "TEXT" && "KEY" in attributes ==>
            && r.state.curSection == h.curSection
            && r.state.linked == h.linked
            && Step(r.state.store, r.outcome) == Stores.Append(h.store, file, h.curSection, attributes))
      // TEXT with FILE only queues the file at the end, duplicates kept
      && (tag == "TEXT" && "KEY" !in attributes && "FILE" in attributes ==>
            r == Step(h.(linked := h.linked + [attributes["FILE"]]), Pass))
      // anything else changes nothing
      && (tag != "SECTION" && (tag != "TEXT" || ("KEY" !in attributes && "FILE" !in attributes)) ==>
            r == Step(h, Pass))
      // the current section stays registered
      && (h.curSection in h.store.sections ==> r.state.curSection in r.state.store.sections)
  {
  }

  /**
   * The end-tag callback: closing a SECTION returns to the root section
   * unconditionally (an enclosing section is not restored); other tags change
   * nothing.
   */
  function OnEnd(h: HandlerState, tag: string): (r: HandlerState)
    ensures tag == "SECTION" ==> r.curSection == Root
    ensures tag != "SECTION" ==> r.curSection == h.curSection
    ensures r.store == h.store && r.linked == h.linked
  {
    if tag == "SECTION" then h.(curSection := Root) else h
  }

  /** One callback. */
  function Apply(h: HandlerState, file: string, event: Event): Step<HandlerState>
  {
    match event
    case Start(tag, attributes) => OnStart(h, file, tag, attributes)
    case End(tag) => Step(OnEnd(h, tag), Pass)
  }

  /** Streaming a document: the callbacks in order, stopping at the first error. */
  function Run(h: HandlerState, file: string, events: seq<Event>): Step<HandlerState>
    decreases |events|
  {
    if events == [] then Step(h, Pass)
    else
      var r := Run(h, file, events[..|events| - 1]);
      if r.outcome != Pass then r else Apply(r.state, file, events[|events| - 1])
  }

  /** True for a start tag that queues a linked file: TEXT with FILE and without KEY. */
  predicate IsLink(event: Event)
  {
    event.Start? && event.tag == "TEXT" && "KEY" !in event.attributes && "FILE" in event.attributes
  }

  /** The FILE values of a document's link tags, in document order, duplicates kept. */
  function LinkTargets(events: seq<Event>): (links: seq<string>)
    ensures forall i :: 0 <= i < |links| ==>
      exists j :: 0 <= j < |events| && IsLink(events[j]) && events[j].attributes["FILE"] == links[i]
    decreases |events|
  {
    if events == [] then []
    else
      var last := events[|events| - 1];
      LinkTargets(events[..|events| - 1]) + if IsLink(last) then [last.attributes["FILE"]] else []
  }

  /** Streaming one more event: the run so far, then that event unless the run already failed. */
  lemma RunPush(h: HandlerState, file: string, events: seq<Event>, event: Event)
    ensures Run(h, file, events + [event]) ==
      var r := Run(h, file, events); if r.outcome != Pass then r else Apply(r.state, file, event)
  {
    assert (events + [event])[..|events|] == events;
  }

  /** Streaming event `n` of a document after a passing run of the events before it. */
  lemma RunAdvance(h: HandlerState, file: string, events: seq<Event>, n: nat, before: HandlerState)
    requires n < |events| && Run(h, file, events[..n]) == Step(before, Pass)
    ensures Run(h, file, events[..n + 1]) == Apply(before, file, events[n])
  {
    RunPush(h, file, events[..n], events[n]);
    assert events[..n + 1] == events[..n] + [events[n]];
  }

  /** Once a callback raises, the rest of the document is not streamed. */
  lemma {:induction false} RunStopsAtError(h: HandlerState, file: string, events: seq<Event>, n: nat)
    requires n <= |events| && Run(h, file, events[..n]).outcome != Pass
    ensures Run(h, file, events) == Run(h, file, events[..n])
    decreases |events|
  {
    if n < |events| {
      var front := events[..|events| - 1];
      assert front[..n] == events[..n];
      RunStopsAtError(h, file, front, n);
    } else {
      assert events[..n] == events;
    }
  }

  /** One callback grows the store by entries of the document being streamed only. */
  lemma ApplyGrows(h: HandlerState, file: string, event: Event)
    ensures Stores.Grows(h.store, Apply(h, file, event).state.store, {file})
  {
    match event
    case Start(tag, attributes) =>
      if tag == "SECTION" && "NAME" in attributes {
        Stores.AppendGrows(h.store, file, attributes["NAME"], map[]);
      } else if tag == "TEXT" && "KEY" in attributes {
        Stores.AppendGrows(h.store, file, h.curSection, attributes);
      }
    case End(tag) =>
  }

  /**
   * Streaming a document only grows the collection, by entries that carry that
   * document's path: nothing is removed, buckets only gain entries at their
   * ends, and the first entry indexed under a key stays.
   */
  lemma {:induction false} RunGrows(h: HandlerState, file: string, events: seq<Event>)
    ensures Stores.Grows(h.store, Run(h, file, events).state.store, {file})
    decreases |events|
  {
    if events != [] {
      var r := Run(h, file, events[..|events| - 1]);
      RunGrows(h, file, events[..|events| - 1]);
      if r.outcome == Pass {
        ApplyGrows(r.state, file, events[|events| - 1]);
        Stores.GrowsTrans(h.store, r.state.store, Run(h, file, events).state.store, {file}, {file});
      }
    }
  }

  /**
   * The linked files a run queues are the document's link targets in order
   * (duplicates kept) after those already queued; an aborted run has queued a
   * prefix of them.
   */
  lemma {:induction false} RunLinks(h: HandlerState, file: string, events: seq<Event>)
    ensures Run(h, file, events).state.linked <= h.linked + LinkTargets(events)
    ensures Run(h, file, events).outcome == Pass ==> Run(h, file, events).state.linked == h.linked + LinkTargets(events)
    decreases |events|
  {
    if events != [] {
      var front, last := events[..|events| - 1], events[|events| - 1];
      RunLinks(h, file, front);
      var r := Run(h, file, front);
      var tail := if IsLink(last) then [last.attributes["FILE"]] else [];
      assert LinkTargets(events) == LinkTargets(front) + tail;
      assert h.linked + LinkTargets(events) == (h.linked + LinkTargets(front)) + tail;
      if r.outcome == Pass {
        assert Apply(r.state, file, last).state.linked == r.state.linked + tail;
      }
    }
  }

  /** A run keeps the current section registered, so entries always land in a registered section. */
  lemma {:induction false} RunKeepsCurrentRegistered(h: HandlerState, file: string, events: seq<Event>)
    requires h.curSection in h.store.sections && Root in h.store.sections
    ensures Run(h, file, events).state.curSection in Run(h, file, events).state.store.sections
    ensures Root in Run(h, file, events).state.store.sections
    decreases |events|
  {
    if events != [] {
      var r := Run(h, file, events[..|events| - 1]);
      RunKeepsCurrentRegistered(h, file, events[..|events| - 1]);
      RunGrows(h, file, events);
      if r.outcome == Pass {
        match events[|events| - 1]
        case Start(tag, attributes) =>
        case End(tag) =>
      }
    }
  }

  /**
   * Every section a completed run opened is registered afterwards, even one
   * with no TEXT children.
   */
  lemma {:induction false} RunRegistersSections(h: HandlerState, file: string, events: seq<Event>, i: nat)
    requires i < |events| && events[i].Start? && events[i].tag == "SECTION" && "NAME" in events[i].attributes
    requires Run(h, file, events).outcome == Pass
    ensures events[i].attributes["NAME"] in Run(h, file, events).state.store.sections
    decreases |events|
  {
    var front := events[..|events| - 1];
    var r := Run(h, file, front);
    assert r.outcome == Pass;
    ApplyGrows(r.state, file, events[|events| - 1]);
    if i < |events| - 1 {
      assert front[i] == events[i];
      RunRegistersSections(h, file, front, i);
    }
  }

  class TextHandler {
    /** The collection every callback of this handler fills. */
    const collection: Collection
    /** The section that TEXT entries currently go to. */
    var curSection: string
    /** The FILE values of link tags seen so far, in order. */
    var linkedFiles: seq<string>

    /** The handler and its collection as a value. */
    function State(): HandlerState
      reads this, collection
    {
      HandlerState(collection.Model(), curSection, linkedFiles)
    }

    /** The collection is consistent and the current section is registered in it. */
    ghost predicate Valid()
      reads this, collection
    {
      collection.Valid() && curSection in collection.sections
    }

    /** A handler bound to `collection`, in the root section with no linked files. */
    constructor (collection: Collection)
      requires collection.Valid()
      ensures Valid() && this.collection == collection
      ensures State() == Fresh(collection.Model())
    {
      this.collection := collection;
      curSection := Root;
      linkedFiles := [];
    }

    /** The start-tag callback; `file` is the path of the document being streamed. */
    method StartElement(file: string, tag: string, attributes: Attributes) returns (outcome: Outcome)
      requires Valid()
      modifies this, collection
      ensures Valid()
      ensures Step(State(), outcome) == OnStart(old(State()), file, tag, attributes)
    {
      outcome := Pass;
      if tag == "SECTION" {
        if "NAME" !in attributes {
          return KeyError("NAME");
        }
        curSection := attributes["NAME"];
        var registered := collection.Append(file, curSection, map[]);
      } else if tag == "TEXT" {
        if "KEY" in attributes {
          outcome := collection.Append(file, curSection, attributes);
        } else if "FILE" in attributes {
          linkedFiles := linkedFiles + [attributes["FILE"]];
        }
      }
    }

    /** The end-tag callback. */
    method EndElement(tag: string)
      requires Valid()
      modifies this
      ensures Valid()
      ensures State() == OnEnd(old(State()), tag)
    {
      if tag == "SECTION" {
        curSection := Root;
      }
    }
  }

  /** Delivers one event to the matching callback of `handler`. */
  method Deliver(handler: TextHandler, file: string, event: Event) returns (outcome: Outcome)
    requires handler.Valid()
    modifies handler, handler.collection
    ensures handler.Valid()
    ensures Step(handler.State(), outcome) == Apply(old(handler.State()), file, event)
  {
    match event
    case Start(tag, attributes) =>
      outcome := handler.StartElement(file, tag, attributes);
    case End(tag) =>
      handler.EndElement(tag);
      outcome := Pass;
  }

  /**
   * Streams one document through `handler`, as the markup parser does: one
   * callback per event, in order, stopping at the first error raised.
   */
  method Parse(handler: TextHandler, file: string, events: seq<Event>) returns (outcome: Outcome)
    requires handler.Valid()
    modifies handler, handler.collection
    ensures handler.Valid()
    ensures Step(handler.State(), outcome) == Run(old(handler.State()), file, events)
  {
    ghost var start := handler.State();
    var i := 0;
    assert events[..0] == [];
    while i < |events|
      invariant 0 <= i <= |events|
      invariant handler.Valid()
      invariant Run(start, file, events[..i]) == Step(handler.State(), Pass)
    {
      ghost var before := handler.State();
      outcome := Deliver(handler, file, events[i]);
      RunAdvance(start, file, events, i, before);
      if outcome != Pass {
        RunStopsAtError(start, file, events, i + 1);
        return;
      }
      i := i + 1;
    }
    assert events[..i] == events;
    outcome := Pass;
  }
}
