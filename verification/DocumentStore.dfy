/** The store of open documents (internal/document/store.go): documents are objects updated in place, snapshots are
    values. */
module DocumentStore {
  import opened Model

  /** A document's fields at one moment. */
  datatype Value = Value(version: int, content: string, analysis: FileAnalysis)

  class Document {
    var version: int
    var content: string
    var analysis: FileAnalysis

    constructor (v: Value)
      ensures Now() == v
    {
      version, content, analysis := v.version, v.content, v.analysis;
    }

    function Now(): Value
      reads this
    {
      Value(version, content, analysis)
    }
  }

  class Store {
    var docs: map<string, Document>

    /** No document is stored under two names. */
    ghost predicate Valid()
      reads this
    {
      forall u, v :: u in docs && v in docs && u != v ==> docs[u] != docs[v]
    }

    ghost function Contents(): map<string, Value>
      reads this, docs.Values
    {
      map u | u in docs :: docs[u].Now()
    }

    constructor ()
      ensures Valid() && Contents() == map[] && docs == map[]
    {
      docs := map[];
    }

    /** A new document object, whatever was stored before. */
    method Open(u: string, v: Value)
      requires Valid()
      modifies this
      ensures Valid() && u in docs && fresh(docs[u]) && docs == old(docs)[u := docs[u]]
      ensures Contents() == After(old(Contents()), Opened(u, v))
    {
      var doc := new Document(v);
      docs := docs[u := doc];
    }

    /** The stored object's fields change in place; an unopened name is ignored. */
    method Update(u: string, v: Value)
      requires Valid()
      modifies if u in docs then {docs[u]} else {}
      ensures Valid() && docs == old(docs)
      ensures Contents() == After(old(Contents()), Updated(u, v))
    {
      if u !in docs {
        return;
      }
      var doc := docs[u];
      doc.version, doc.content, doc.analysis := v.version, v.content, v.analysis;
    }

    method Close(u: string)
      requires Valid()
      modifies this
      ensures Valid() && docs == old(docs) - {u}
      ensures Contents() == After(old(Contents()), Closed(u))
    {
      docs := docs - {u};
    }

    /** Copies of all open documents: later updates in place do not reach them. */
    method OpenDocuments() returns (snapshot: map<string, Value>)
      ensures snapshot == Contents()
    {
      snapshot := map[];
      var todo := docs.Keys;
      while todo != {}
        invariant todo <= docs.Keys && snapshot == map u | u in docs && u !in todo :: docs[u].Now()
        decreases todo
      {
        var u :| u in todo;
        todo := todo - {u};
        snapshot := snapshot[u := docs[u].Now()];
      }
    }
  }

  // ----- Runs -----

  datatype Event = Opened(uri: string, value: Value) | Updated(uri: string, value: Value) | Closed(uri: string)

  function After(contents: map<string, Value>, e: Event): map<string, Value> {
    match e
    case Opened(u, v) => contents[u := v]
    case Updated(u, v) => if u in contents then contents[u := v] else contents
    case Closed(u) => contents - {u}
  }

  function Run(events: seq<Event>): map<string, Value> {
    if events == [] then map[] else After(Run(events[..|events| - 1]), events[|events| - 1])
  }

  /** Event i is the last one of document u. */
  ghost predicate IsLastEvent(events: seq<Event>, u: string, i: int) {
    0 <= i < |events| && events[i].uri == u && forall k :: i < k < |events| ==> events[k].uri != u
  }

  /** After any run the last event of a document decides: an open stores its value, an update does if the document was
      open before it, and after a close the document is gone. */
  lemma {:induction false} LastEventDecides(events: seq<Event>, u: string, i: nat)
    requires IsLastEvent(events, u, i)
    ensures u in Run(events) <==> events[i].Opened? || (events[i].Updated? && u in Run(events[..i]))
    ensures u in Run(events) ==> Run(events)[u] == events[i].value
    decreases |events|
  {
    var n := |events| - 1;
    if i < n {
      var init := events[..n];
      assert init[..i] == events[..i];
      LastEventDecides(init, u, i);
    }
  }

  /** A document no event names is not in the store. */
  lemma {:induction false} NeverNamed(events: seq<Event>, u: string)
    requires forall k :: 0 <= k < |events| ==> events[k].uri != u
    ensures u !in Run(events)
  {
    if events != [] {
      NeverNamed(events[..|events| - 1], u);
    }
  }
}
