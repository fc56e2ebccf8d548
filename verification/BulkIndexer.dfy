// One bulk writer taken by itself: BulkIndexer of indexer/bulk.go, and Add and Commit of
// EsBulkInstance in indexer/db/elasticsearch.go.

module BulkIndexer {
  type int32 = i: int | -0x8000_0000 <= i < 0x8000_0000

  datatype Entry<I, V> = Entry(id: I, body: V)
  datatype Message<I, V> = Add(doc: Entry<I, V>) | Commit

  // ---------------------------------------------------------------- create-if-absent

  // The index after docs have been created in order where their ids are absent.
  function Created<I(==), V>(index: map<I, V>, docs: seq<Entry<I, V>>): map<I, V>
    decreases |docs|
  {
    if docs == [] then index
    else
      var before, e := Created(index, docs[..|docs| - 1]), docs[|docs| - 1];
      if e.id in before then before else before[e.id := e.body]
  }

  ghost predicate FirstAt<I, V>(docs: seq<Entry<I, V>>, id: I, k: nat) {
    k < |docs| && docs[k].id == id && forall i | 0 <= i < k :: docs[i].id != id
  }

  // A stored document is never replaced, and of several new ones with the same id the
  // first is kept.
  lemma {:induction false} CreatedIs<I, V>(index: map<I, V>, docs: seq<Entry<I, V>>, id: I)
    ensures id in Created(index, docs) <==> id in index || exists k: nat :: FirstAt(docs, id, k)
    ensures id in index ==> Created(index, docs)[id] == index[id]
    ensures id !in index ==> forall k: nat | FirstAt(docs, id, k) ::
              id in Created(index, docs) && Created(index, docs)[id] == docs[k].body
    decreases |docs|
  {
    if docs != [] {
      var n := |docs| - 1;
      CreatedIs(index, docs[..n], id);
      assert forall k: nat | k < n :: FirstAt(docs[..n], id, k) <==> FirstAt(docs, id, k);
      if id !in Created(index, docs[..n]) {
        assert forall k: nat | k < n :: !FirstAt(docs, id, k);
        NoFirst(docs, n, id);
        assert docs[n].id == id ==> FirstAt(docs, id, n);
      } else {
        assert id !in index ==> !FirstAt(docs, id, n);
      }
    }
  }

  // Without a first occurrence there is none.
  lemma {:induction false} NoFirst<I, V>(docs: seq<Entry<I, V>>, n: nat, id: I)
    requires n <= |docs| && forall k: nat | k < n :: !FirstAt(docs, id, k)
    ensures forall k | 0 <= k < n :: docs[k].id != id
  {
    if n > 0 {
      NoFirst(docs, n - 1, id);
      assert !FirstAt(docs, id, n - 1);
    }
  }

  // Writing in two goes is writing in one.
  lemma {:induction false} CreatedConcat<I, V>(index: map<I, V>, a: seq<Entry<I, V>>, b: seq<Entry<I, V>>)
    ensures Created(index, a + b) == Created(Created(index, a), b)
    decreases |b|
  {
    if b == [] {
      assert a + b == a;
    } else {
      assert (a + b)[..|a + b| - 1] == a + b[..|b| - 1];
      CreatedConcat(index, a, b[..|b| - 1]);
    }
  }

  // ---------------------------------------------------------------- the messages

  // The documents among the messages, in order, and how often they ask for a commit.
  function Added<I, V>(messages: seq<Message<I, V>>): seq<Entry<I, V>>
    decreases |messages|
  {
    if messages == [] then []
    else
      var before, m := Added(messages[..|messages| - 1]), messages[|messages| - 1];
      if m.Add? then before + [m.doc] else before
  }

  function Commits<I, V>(messages: seq<Message<I, V>>): nat
    decreases |messages|
  {
    if messages == [] then 0
    else Commits(messages[..|messages| - 1]) + (if messages[|messages| - 1].Commit? then 1 else 0)
  }

  // ---------------------------------------------------------------- a dependent writer

  // Its buffer and its index.
  datatype Writer<I, V> = Writer(bulk: seq<Entry<I, V>>, index: map<I, V>)

  // What the index holds once the buffer is written.
  function Content<I(==), V>(w: Writer<I, V>): map<I, V> {
    Created(w.index, w.bulk)
  }

  function Received<I(==), V>(w: Writer<I, V>, m: Message<I, V>, bulkSize: int): Writer<I, V> {
    if m.Commit? then Writer([], Content(w))
    else if w.bulk != [] && |w.bulk| >= bulkSize then Writer([m.doc], Content(w))
    else Writer(w.bulk + [m.doc], w.index)
  }

  // A document reaches the index before the next commit exactly when it finds the buffer
  // full, and then what was buffered does, not it.
  lemma ReceivedFlushesIff<I, V>(w: Writer<I, V>, e: Entry<I, V>, bulkSize: int)
    ensures var w' := Received(w, Add(e), bulkSize);
            if |w.bulk| >= bulkSize && |w.bulk| >= 1
            then w'.bulk == [e] && w'.index == Created(w.index, w.bulk)
            else w'.bulk == w.bulk + [e] && w'.index == w.index
  {
  }

  // Whether or not it flushes, receiving a document adds it to the content.
  lemma ReceivedContent<I, V>(w: Writer<I, V>, m: Message<I, V>, bulkSize: int)
    ensures Content(Received(w, m, bulkSize)) == if m.Add? then Created(Content(w), [m.doc]) else Content(w)
  {
    if m.Add? { CreatedConcat(w.index, w.bulk, [m.doc]); }
  }

  class DocIndexer<I(==), V> {
    const bulkSize: int32
    var total: int32
    var bulk: seq<Entry<I, V>>   // the requests of the bulk instance
    var index: map<I, V>         // the index in the database
    var acks: nat                // the sends on SynDone

    // The count of documents is that of the requests, and passes neither bulkSize, when
    // that is positive, nor one, when it is not.
    ghost predicate Valid()
      reads this
    {
      total == |bulk| && 0 <= total && (total <= bulkSize || total <= 1)
    }

    ghost function Abstract(): Writer<I, V>
      reads this
    {
      Writer(bulk, index)
    }

    constructor (bulkSize: int32, index: map<I, V>)
      ensures Valid() && this.bulkSize == bulkSize && this.index == index && bulk == [] && acks == 0
    {
      this.bulkSize, this.index := bulkSize, index;
      total, bulk, acks := 0, [], 0;
    }

    // EsBulkInstance.Commit: each request creates its document unless the id is taken.
    method WriteBulk()
      modifies this`bulk, this`index
      ensures Abstract() == Writer([], old(Content(Abstract())))
    {
      var k := 0;
      while k < |bulk|
        invariant 0 <= k <= |bulk| && bulk == old(bulk)
        invariant index == Created(old(index), bulk[..k])
      {
        assert bulk[..k + 1][..k] == bulk[..k];
        if bulk[k].id !in index {
          index := index[bulk[k].id := bulk[k].body];
        }
        k := k + 1;
      }
      assert bulk[..k] == bulk;
      bulk := [];
    }

    method CommitBulk(sync: bool)
      requires Valid()
      modifies this
      ensures Valid() && Abstract() == Writer([], old(Content(Abstract())))
      ensures acks == old(acks) + if sync then 1 else 0
    {
      if total == 0 {
        if sync { acks := acks + 1; }
        return;
      }
      WriteBulk();
      if sync { acks := acks + 1; }
      total := 0;
    }

    method Receive(m: Message<I, V>)
      requires Valid()
      modifies this
      ensures Valid()
      ensures Abstract() == Received(old(Abstract()), m, bulkSize)
      ensures acks == old(acks) + if m.Commit? then 1 else 0
    {
      if m.Commit? {
        CommitBulk(true);
        return;
      }
      if total >= bulkSize {
        CommitBulk(false);
      }
      total := total + 1;
      bulk := bulk + [m.doc];
    }

    // All that is received before StopBulk. Whenever the buffer is flushed, by its size or
    // by a commit, what is received is written in order or still buffered, nothing twice,
    // and every commit is answered once.
    method Run(messages: seq<Message<I, V>>)
      requires Valid()
      modifies this
      ensures Valid()
      ensures Content(Abstract()) == Created(old(Content(Abstract())), Added(messages))
      ensures messages != [] && messages[|messages| - 1].Commit? ==> bulk == []
      ensures acks == old(acks) + Commits(messages)
    {
      var k := 0;
      while k < |messages|
        invariant 0 <= k <= |messages| && Valid()
        invariant Content(Abstract()) == Created(old(Content(Abstract())), Added(messages[..k]))
        invariant k > 0 && messages[k - 1].Commit? ==> bulk == []
        invariant acks == old(acks) + Commits(messages[..k])
      {
        assert messages[..k + 1][..k] == messages[..k];
        ReceivedContent(Abstract(), messages[k], bulkSize);
        if messages[k].Add? {
          CreatedConcat(old(Content(Abstract())), Added(messages[..k]), [messages[k].doc]);
        }
        Receive(messages[k]);
        k := k + 1;
      }
      assert messages[..k] == messages;
    }
  }
}
