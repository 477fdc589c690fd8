/** Concrete ingestion runs that pin down the handler's and loader's behaviour on sample documents. */
module Scenarios {
  import opened Entries
  import Stores
  import opened Handlers
  import opened Loader

  /**
   * A nested SECTION does not restore the enclosing one on close: after
   * SECTION A, SECTION B, /SECTION, a TEXT entry lands in the root section,
   * not in A.
   */
  lemma FlatReset(st: Stores.Store)
    requires Root in st.sections
    ensures var r := Run(Fresh(st), "doc.xml",
                         [Start("SECTION", map["NAME" := "A"]), Start("SECTION", map["NAME" := "B"]), End("SECTION"),
                          Start("TEXT", map["KEY" := "K", "VALUE" := "V"])]);
      && r.outcome == Pass
      && r.state.curSection == Root
      && r.state.store.sections[Root] == st.sections[Root] + [Entry("K", "V", Root, "doc.xml")]
  {
    var e1, e2, e3, e4 := Start("SECTION", map["NAME" := "A"]), Start("SECTION", map["NAME" := "B"]), End("SECTION"),
                          Start("TEXT", map["KEY" := "K", "VALUE" := "V"]);
    var h := Fresh(st);
    RunPush(h, "doc.xml", [], e1);
    assert [] + [e1] == [e1];
    var r1 := Run(h, "doc.xml", [e1]);
    assert r1.outcome == Pass && r1.state.curSection == "A" && r1.state.store.sections[Root] == st.sections[Root];
    RunPush(h, "doc.xml", [e1], e2);
    assert [e1] + [e2] == [e1, e2];
    var r2 := Run(h, "doc.xml", [e1, e2]);
    assert r2.outcome == Pass && r2.state.curSection == "B" && r2.state.store.sections[Root] == st.sections[Root];
    RunPush(h, "doc.xml", [e1, e2], e3);
    assert [e1, e2] + [e3] == [e1, e2, e3];
    var r3 := Run(h, "doc.xml", [e1, e2, e3]);
    assert r3.outcome == Pass && r3.state.curSection == Root && r3.state.store.sections[Root] == st.sections[Root];
    RunPush(h, "doc.xml", [e1, e2, e3], e4);
    assert [e1, e2, e3] + [e4] == [e1, e2, e3, e4];
  }

  /**
   * Two TEXT tags of one section share KEY="GREETING": both entries are in the
   * section's bucket, in order, but only the first is indexed.
   */
  lemma DuplicateKeyKeepsFirst()
    ensures var first, second := Entry("GREETING", "Hello", Root, "doc.xml"), Entry("GREETING", "Hi", Root, "doc.xml");
      var r := Run(Fresh(Stores.Empty), "doc.xml",
                   [Start("TEXT", map["KEY" := "GREETING", "VALUE" := "Hello"]),
                    Start("TEXT", map["KEY" := "GREETING", "VALUE" := "Hi"])]);
      && r.outcome == Pass
      && Root in r.state.store.sections
      && r.state.store.sections[Root] == [first, second]
      && r.state.store.entries == map["GREETING" := first]
  {
    var e1, e2 := Start("TEXT", map["KEY" := "GREETING", "VALUE" := "Hello"]),
                  Start("TEXT", map["KEY" := "GREETING", "VALUE" := "Hi"]);
    var first, second := Entry("GREETING", "Hello", Root, "doc.xml"), Entry("GREETING", "Hi", Root, "doc.xml");
    var h := Fresh(Stores.Empty);
    RunPush(h, "doc.xml", [], e1);
    assert [] + [e1] == [e1];
    var s1 := Stores.Append(h.store, "doc.xml", Root, e1.attributes);
    assert Stores.Bucket(h.store, Root) == [];
    assert s1.state.sections[Root] == [] + [first] == [first];
    assert s1.state.sections == map[Root := [first]];
    assert Run(h, "doc.xml", [e1]) ==
      Step(h.(store := Stores.Store(map[Root := [first]], map["GREETING" := first])), Pass);
    RunPush(h, "doc.xml", [e1], e2);
    assert [e1] + [e2] == [e1, e2];
  }

  /** The events of the root document: section UI with one entry, then a link to strings2.xml. */
  function RootDocument(): seq<Event>
  {
    [Start("SECTION", map["NAME" := "UI"]), Start("TEXT", map["KEY" := "OK_BUTTON", "VALUE" := "OK"]), End("TEXT"),
     End("SECTION"), Start("TEXT", map["FILE" := "strings2.xml"]), End("TEXT")]
  }

  /** The events of strings2.xml: section DIALOG with one entry. */
  function LinkedDocument(): seq<Event>
  {
    [Start("SECTION", map["NAME" := "DIALOG"]), Start("TEXT", map["KEY" := "CANCEL_BUTTON", "VALUE" := "Cancel"]),
     End("TEXT"), End("SECTION")]
  }

  /** The sample entry of the root document. */
  function OkButton(): Entry
  {
    Entry("OK_BUTTON", "OK", "UI", "translator_en.xml")
  }

  /** The sample entry of the linked document. */
  function CancelButton(): Entry
  {
    Entry("CANCEL_BUTTON", "Cancel", "DIALOG", "strings2.xml")
  }

  /** The first two events of the root document open UI and file OK_BUTTON in it. */
  lemma RootDocumentOpens()
    ensures Run(Fresh(Stores.Empty), "translator_en.xml", RootDocument()[..2]) ==
      Step(HandlerState(Stores.Store(map[Root := [], "UI" := [OkButton()]], map["OK_BUTTON" := OkButton()]), "UI", []), Pass)
  {
    var d := RootDocument();
    var h, f := Fresh(Stores.Empty), "translator_en.xml";
    var inUI := HandlerState(Stores.Store(map[Root := [], "UI" := []], map[]), "UI", []);
    assert d[..0] == [];
    RunAdvance(h, f, d, 0, h);
    assert Run(h, f, d[..1]) == Step(inUI, Pass);
    RunAdvance(h, f, d, 1, inUI);
    var s2 := Stores.Append(inUI.store, f, "UI", d[1].attributes);
    assert Stores.Bucket(inUI.store, "UI") == [];
    assert s2.state.sections["UI"] == [] + [OkButton()] == [OkButton()];
    assert s2.state.sections == map[Root := [], "UI" := [OkButton()]];
  }

  /** Streaming the root document registers UI, files OK_BUTTON there and queues strings2.xml. */
  lemma RootDocumentRun()
    ensures var r := Run(Fresh(Stores.Empty), "translator_en.xml", RootDocument());
      && r.outcome == Pass
      && r.state.linked == ["strings2.xml"]
      && r.state.store == Stores.Store(map[Root := [], "UI" := [OkButton()]], map["OK_BUTTON" := OkButton()])
  {
    var d := RootDocument();
    var h, f := Fresh(Stores.Empty), "translator_en.xml";
    var filed := HandlerState(Stores.Store(map[Root := [], "UI" := [OkButton()]], map["OK_BUTTON" := OkButton()]), "UI", []);
    var closed := filed.(curSection := Root);
    RootDocumentOpens();
    RunAdvance(h, f, d, 2, filed);
    RunAdvance(h, f, d, 3, filed);
    RunAdvance(h, f, d, 4, closed);
    assert [] + ["strings2.xml"] == ["strings2.xml"];
    RunAdvance(h, f, d, 5, closed.(linked := ["strings2.xml"]));
    assert d[..6] == d;
  }

  /** The collection after the root document. */
  function AfterRoot(): Stores.Store
  {
    Stores.Store(map[Root := [], "UI" := [OkButton()]], map["OK_BUTTON" := OkButton()])
  }

  /** The collection after both documents. */
  function AfterLink(): Stores.Store
  {
    Stores.Store(map[Root := [], "UI" := [OkButton()], "DIALOG" := [CancelButton()]],
                 map["OK_BUTTON" := OkButton(), "CANCEL_BUTTON" := CancelButton()])
  }

  /** The first two events of strings2.xml open DIALOG and file CANCEL_BUTTON in it. */
  lemma LinkedDocumentOpens()
    ensures Run(Fresh(AfterRoot()), "strings2.xml", LinkedDocument()[..2]) == Step(HandlerState(AfterLink(), "DIALOG", []), Pass)
  {
    var d := LinkedDocument();
    var h, f := Fresh(AfterRoot()), "strings2.xml";
    var inDialog := HandlerState(Stores.Store(map[Root := [], "UI" := [OkButton()], "DIALOG" := []], AfterRoot().entries), "DIALOG", []);
    assert d[..0] == [];
    RunAdvance(h, f, d, 0, h);
    assert Run(h, f, d[..1]) == Step(inDialog, Pass);
    RunAdvance(h, f, d, 1, inDialog);
    var s2 := Stores.Append(inDialog.store, f, "DIALOG", d[1].attributes);
    assert Stores.Bucket(inDialog.store, "DIALOG") == [];
    assert s2.state.sections["DIALOG"] == [] + [CancelButton()] == [CancelButton()];
    assert s2.state.sections == AfterLink().sections;
  }

  /** Streaming strings2.xml after the root document adds DIALOG with CANCEL_BUTTON. */
  lemma LinkedDocumentRun()
    ensures var r := Run(Fresh(AfterRoot()), "strings2.xml", LinkedDocument());
      r.outcome == Pass && r.state.store == AfterLink()
  {
    var d := LinkedDocument();
    var h, f := Fresh(AfterRoot()), "strings2.xml";
    var filed := HandlerState(AfterLink(), "DIALOG", []);
    LinkedDocumentOpens();
    RunAdvance(h, f, d, 2, filed);
    RunAdvance(h, f, d, 3, filed);
    assert d[..4] == d;
  }

  /**
   * The root document defines UI/OK_BUTTON and links strings2.xml, which
   * defines DIALOG/CANCEL_BUTTON: the load ends with exactly these two entries
   * and the sections ROOT (empty), UI and DIALOG.
   */
  lemma LoadWithOneLink()
    ensures var files := map["translator_en.xml" := RootDocument(), "strings2.xml" := LinkedDocument()];
      Load(files, "translator_en.xml", Stores.Empty) ==
        Step(Stores.Store(map[Root := [], "UI" := [OkButton()], "DIALOG" := [CancelButton()]],
                          map["OK_BUTTON" := OkButton(), "CANCEL_BUTTON" := CancelButton()]), Pass)
  {
    var files := map["translator_en.xml" := RootDocument(), "strings2.xml" := LinkedDocument()];
    RootDocumentRun();
    LinkedDocumentRun();
    var links := ["strings2.xml"];
    assert links[..0] == [];
  }

  /** A start tag that queues `path` as a linked file. */
  function Link(path: string): Event
  {
    Start("TEXT", map["FILE" := path])
  }

  /** A start tag that defines the entry `key` = `value`. */
  function Text(key: string, value: string): Event
  {
    Start("TEXT", map["KEY" := key, "VALUE" := value])
  }

  /** The root document of the depth scenario queues both of its links, in order. */
  lemma DepthRootRun()
    ensures Run(Fresh(Stores.Empty), "root.xml", [Link("gone.xml"), Link("a.xml")]) ==
      Step(Fresh(Stores.Empty).(linked := ["gone.xml", "a.xml"]), Pass)
  {
    var h, gone, toA := Fresh(Stores.Empty), Link("gone.xml"), Link("a.xml");
    RunPush(h, "root.xml", [], gone);
    assert [] + [gone] == [gone];
    assert [] + ["gone.xml"] == ["gone.xml"];
    assert Run(h, "root.xml", [gone]) == Step(h.(linked := ["gone.xml"]), Pass);
    RunPush(h, "root.xml", [gone], toA);
    assert [gone] + [toA] == [gone, toA];
    assert ["gone.xml"] + ["a.xml"] == ["gone.xml", "a.xml"];
  }

  /** The linked document of the depth scenario files A_KEY and queues b.xml on its own handler. */
  lemma DepthLinkedRun()
    ensures var a := Entry("A_KEY", "a", Root, "a.xml");
      var r := Run(Fresh(Stores.Empty), "a.xml", [Link("b.xml"), Text("A_KEY", "a")]);
      && r.outcome == Pass
      && r.state.store == Stores.Store(map[Root := [a]], map["A_KEY" := a])
      && r.state.linked == ["b.xml"]
  {
    var h, toB, aKey := Fresh(Stores.Empty), Link("b.xml"), Text("A_KEY", "a");
    var a := Entry("A_KEY", "a", Root, "a.xml");
    RunPush(h, "a.xml", [], toB);
    assert [] + [toB] == [toB];
    assert Run(h, "a.xml", [toB]).state.store == Stores.Empty;
    assert [] + ["b.xml"] == ["b.xml"];
    RunPush(h, "a.xml", [toB], aKey);
    assert [toB] + [aKey] == [toB, aKey];
    var s := Stores.Append(Stores.Empty, "a.xml", Root, aKey.attributes);
    assert Stores.Bucket(Stores.Empty, Root) == [];
    assert s.state.sections[Root] == [] + [a] == [a];
    assert s.state.sections == map[Root := [a]];
  }

  /**
   * The root links gone.xml (which does not exist) and a.xml; a.xml defines
   * A_KEY and links b.xml, which defines B_KEY. The missing file is skipped,
   * a.xml is read, and b.xml, one level too deep, is never read.
   */
  lemma LoadStopsAtDepthOne()
    ensures var files := map[
        "root.xml" := [Link("gone.xml"), Link("a.xml")],
        "a.xml" := [Link("b.xml"), Text("A_KEY", "a")],
        "b.xml" := [Text("B_KEY", "b")]];
      var r := Load(files, "root.xml", Stores.Empty);
      && r.outcome == Pass
      && r.state.entries == map["A_KEY" := Entry("A_KEY", "a", Root, "a.xml")]
  {
    var files := map[
        "root.xml" := [Link("gone.xml"), Link("a.xml")],
        "a.xml" := [Link("b.xml"), Text("A_KEY", "a")],
        "b.xml" := [Text("B_KEY", "b")]];
    DepthRootRun();
    DepthLinkedRun();
    var links := ["gone.xml", "a.xml"];
    assert links[..1][..0] == [];
    assert links[..1] == ["gone.xml"];
    assert LoadLinks(files, links[..1], Stores.Empty) == Step(Stores.Empty, Pass);
    assert LoadLinks(files, links, Stores.Empty) == LoadLinked(files, "a.xml", Stores.Empty);
  }
}
