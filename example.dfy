/** The document of the program's end-to-end example, and the records
    json_parse builds from it. */
module Example {
  import opened CStrings
  import opened CJson
  import opened Departures
  import opened Main

  function DepartureItem(link: Text, destinationStop: Text, time: Text): Json
  {
    Object([Member("link", String(link)), Member("destinationStop", String(destinationStop)), Member("time", String(time))])
  }

  /** A clock time, and a "minutes" value behind a three-letter marker. */
  function First(): Json { DepartureItem("5", "Downtown", "12:45") }
  function Second(): Json { DepartureItem("12", "Airport", "min3") }

  /** {"stops":[{"signs":[{"departures":[First, Second]}]}]} */
  function Document(): Option<Json>
  {
    var departures := Member("departures", Array([First(), Second()]));
    var signs := Member("signs", Array([Object([departures])]));
    Some(Object([Member("stops", Array([Object([signs])]))]))
  }

  lemma DocumentItems()
    ensures Items(Document()) == [First(), Second()]
  {
    var root := Document().value;
    assert ObjectItem(Some(root), "stops") == Some(root.members[0].value);
    var stop := root.members[0].value.items[0];
    assert ObjectItem(Some(stop), "signs") == Some(stop.members[0].value);
    var sign := stop.members[0].value.items[0];
    assert ObjectItem(Some(sign), "departures") == Some(sign.members[0].value);
  }

  lemma DocumentEntries()
    ensures EntryUsable(First()) && EntryOf(First()) == Entry("5", "Downtown", "12:45")
    ensures EntryUsable(Second()) && EntryOf(Second()) == Entry("12", "Airport", "min3")
  {
    assert FindKey(First().members, "destinationStop") == 1;
    assert FindKey(First().members, "time") == 2;
    assert FindKey(Second().members, "destinationStop") == 1;
    assert FindKey(Second().members, "time") == 2;
  }

  lemma EntryRecords()
    ensures Extract(Entry("5", "Downtown", "12:45")) == Record("5", "Downtown", "12:45")
    ensures Extract(Entry("12", "Airport", "min3")) == Record("12", "Airport", "3")
  {
    assert "min3"[3..] == "3";
  }

  lemma PairExpected()
    requires AllUsable([First(), Second()])
    ensures Expected([First(), Second()], 2) == [Record("5", "Downtown", "12:45"), Record("12", "Airport", "3")]
  {
    var items := [First(), Second()];
    DocumentEntries();
    EntryRecords();
    assert Expected(items, 1) == [Extract(EntryOf(items[0]))];
    assert Expected(items, 2) == Expected(items, 1) + [Extract(EntryOf(items[1]))];
  }

  lemma PairUsable()
    ensures AllUsable([First(), Second()])
  {
    DocumentEntries();
  }

  /** json_parse accepts the document, which has two entries. */
  lemma DocumentUsable()
    ensures Usable(Document()) && |Items(Document())| == 2
  {
    DocumentItems();
    PairUsable();
  }

  /** Two entries give two records in document order: the clock time is kept,
      and "min3" loses its marker. */
  lemma TwoDepartures()
    ensures Usable(Document()) && |Items(Document())| == 2
    ensures Expected(Items(Document()), 2) == [Record("5", "Downtown", "12:45"), Record("12", "Airport", "3")]
  {
    DocumentItems();
    PairUsable();
    PairExpected();
  }

  /** With memory for one record only, json_parse as written returns NULL for
      the two-entry document and leaves the first record allocated. */
  method PartialListLeaks() returns (head: Departure?, ghost leaked: set<Departure>)
    ensures head == null && |leaked| == 1
  {
    var heap := new Allocator(1);
    DocumentUsable();
    ghost var nodes;
    head, nodes := JsonParse(Document(), heap);
    leaked := heap.live;
    assert Elems(nodes) == {nodes[0]};
  }

  /** The corrected parse frees that record again. */
  method PartialListReleased() returns (head: Departure?, ghost live: set<Departure>)
    ensures head == null && live == {}
  {
    var heap := new Allocator(1);
    DocumentUsable();
    ghost var nodes;
    head, nodes := JsonParseReleasing(Document(), heap);
    live := heap.live;
  }
}
