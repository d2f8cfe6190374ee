/** The controller's command/data byte protocol, as the stream of bytes the
    driver sends. Each byte goes out either with the data/command line low
    (a command opcode) or high (a data byte); a command and the data bytes
    that follow it form one transaction. */
module Protocol {
  import opened Optional

  /** One byte on the wire: an opcode or a data byte. */
  datatype Event = Cmd(op: bv8) | Data(value: bv8)

  /** An opcode with the data bytes that follow it. */
  datatype Transaction = Transaction(op: bv8, payload: seq<bv8>)

  /** The data events carrying bytes, in order. */
  function DataEvents(bytes: seq<bv8>): seq<Event>
  {
    seq(|bytes|, i requires 0 <= i < |bytes| => Data(bytes[i]))
  }

  /** The byte stream that sends transactions one after another. */
  function Flatten(txs: seq<Transaction>): seq<Event>
  {
    if txs == [] then []
    else [Cmd(txs[0].op)] + DataEvents(txs[0].payload) + Flatten(txs[1..])
  }

  /** The number of data events at the front of es. */
  function DataRun(es: seq<Event>): (n: nat)
    ensures n <= |es|
    ensures forall i :: 0 <= i < n ==> es[i].Data?
    ensures n < |es| ==> es[n].Cmd?
  {
    if es == [] || es[0].Cmd? then 0 else 1 + DataRun(es[1..])
  }

  /** The bytes carried by a run of data events. */
  function DataValues(es: seq<Event>): seq<bv8>
    requires forall i :: 0 <= i < |es| ==> es[i].Data?
  {
    seq(|es|, i requires 0 <= i < |es| => es[i].value)
  }

  /** Groups a byte stream into transactions; a stream that starts with a
      data byte has no opcode to attach it to and is rejected. */
  function Parse(es: seq<Event>): Option<seq<Transaction>>
    decreases |es|
  {
    if es == [] then Some([])
    else if es[0].Data? then None
    else
      var n := DataRun(es[1..]);
      var tx := Transaction(es[0].op, DataValues(es[1..1 + n]));
      match Parse(es[1 + n..])
      case None => None
      case Some(rest) => Some([tx] + rest)
  }

  /** Sending two batches of transactions is sending their concatenation. */
  lemma {:induction false} FlattenAppend(a: seq<Transaction>, b: seq<Transaction>)
    ensures Flatten(a + b) == Flatten(a) + Flatten(b)
    decreases |a|
  {
    if a == [] {
      assert a + b == b;
    } else {
      FlattenAppend(a[1..], b);
      assert (a + b)[1..] == a[1..] + b;
    }
  }

  /** A non-empty stream of transactions starts with an opcode. */
  lemma FlattenStartsWithCmd(txs: seq<Transaction>)
    requires txs != []
    ensures Flatten(txs) != [] && Flatten(txs)[0] == Cmd(txs[0].op)
  {
  }

  /** The data run of a payload's events, followed by a stream that is empty
      or starts with an opcode, is the whole payload. */
  lemma {:induction false} DataRunOfPayload(bytes: seq<bv8>, tail: seq<Event>)
    requires tail == [] || tail[0].Cmd?
    ensures DataRun(DataEvents(bytes) + tail) == |bytes|
    decreases |bytes|
  {
    if bytes != [] {
      assert (DataEvents(bytes) + tail)[1..] == DataEvents(bytes[1..]) + tail;
      DataRunOfPayload(bytes[1..], tail);
    } else {
      assert DataEvents(bytes) + tail == tail;
    }
  }

  /** Round trip: the receiver recovers exactly the transactions that were sent. */
  lemma {:induction false} ParseFlatten(txs: seq<Transaction>)
    ensures Parse(Flatten(txs)) == Some(txs)
    decreases |txs|
  {
    if txs != [] {
      var es, tx, rest := Flatten(txs), txs[0], Flatten(txs[1..]);
      var p := tx.payload;
      assert es == [Cmd(tx.op)] + DataEvents(p) + rest;
      assert es[1..] == DataEvents(p) + rest;
      if txs[1..] != [] {
        FlattenStartsWithCmd(txs[1..]);
      }
      DataRunOfPayload(p, rest);
      assert es[1..1 + |p|] == DataEvents(p);
      assert DataValues(es[1..1 + |p|]) == p;
      assert es[1 + |p|..] == rest;
      ParseFlatten(txs[1..]);
      assert [tx] + txs[1..] == txs;
    }
  }

  /** Reading the bytes back out of a run of data events gives the run. */
  lemma DataEventsValues(es: seq<Event>)
    requires forall i :: 0 <= i < |es| ==> es[i].Data?
    ensures DataEvents(DataValues(es)) == es
  {
  }

  /** Unique decoding: a stream that parses is exactly the flattening of its parse. */
  lemma {:induction false} FlattenParse(es: seq<Event>, txs: seq<Transaction>)
    requires Parse(es) == Some(txs)
    ensures Flatten(txs) == es
    decreases |es|
  {
    if es != [] {
      var n := DataRun(es[1..]);
      var run := es[1..1 + n];
      var tx := Transaction(es[0].op, DataValues(run));
      var rest :| Parse(es[1 + n..]) == Some(rest) && txs == [tx] + rest;
      assert es[0] == Cmd(tx.op);
      assert Flatten(rest) == es[1 + n..] by { FlattenParse(es[1 + n..], rest); }
      assert DataEvents(tx.payload) == run by {
        assert forall i :: 0 <= i < |run| ==> run[i] == es[1..][i];
        DataEventsValues(run);
      }
      assert Flatten(txs) == [Cmd(tx.op)] + run + es[1 + n..] by { FlattenCons(tx, rest); }
      SplitAfterHead(es, n);
    }
  }

  /** A non-empty sequence is its head, the next n elements and the rest. */
  lemma SplitAfterHead<T>(s: seq<T>, n: nat)
    requires 1 + n <= |s|
    ensures s == [s[0]] + s[1..1 + n] + s[1 + n..]
  {
    var tail := s[1..];
    assert tail == tail[..n] + tail[n..];
    assert tail[..n] == s[1..1 + n] && tail[n..] == s[1 + n..];
    assert s == [s[0]] + tail;
  }

  /** The payload of tx if it has opcode op. */
  function Selected(tx: Transaction, op: bv8): seq<seq<bv8>>
  {
    if tx.op == op then [tx.payload] else []
  }

  /** The payloads of every transaction with opcode op, in order. */
  function Payloads(txs: seq<Transaction>, op: bv8): seq<seq<bv8>>
  {
    if txs == [] then [] else Selected(txs[0], op) + Payloads(txs[1..], op)
  }

  /** Filtering by opcode distributes over concatenation. */
  lemma {:induction false} PayloadsAppend(a: seq<Transaction>, b: seq<Transaction>, op: bv8)
    ensures Payloads(a + b, op) == Payloads(a, op) + Payloads(b, op)
    decreases |a|
  {
    if a == [] {
      assert a + b == b;
    } else {
      assert (a + b)[1..] == a[1..] + b;
      PayloadsAppend(a[1..], b, op);
    }
  }

  /** The opcodes of transactions, in order. */
  function Opcodes(txs: seq<Transaction>): seq<bv8>
  {
    if txs == [] then [] else [txs[0].op] + Opcodes(txs[1..])
  }

  /** Opcodes distribute over concatenation. */
  lemma {:induction false} OpcodesAppend(a: seq<Transaction>, b: seq<Transaction>)
    ensures Opcodes(a + b) == Opcodes(a) + Opcodes(b)
    decreases |a|
  {
    if a == [] {
      assert a + b == b;
    } else {
      assert (a + b)[1..] == a[1..] + b;
      OpcodesAppend(a[1..], b);
    }
  }

  /** Payloads and Opcodes of short literal batches, one transaction at a time. */
  lemma Literal1(a: Transaction, op: bv8)
    ensures Payloads([a], op) == Selected(a, op)
    ensures Opcodes([a]) == [a.op]
  {
    assert [a][1..] == [];
  }

  lemma Literal2(a: Transaction, b: Transaction, op: bv8)
    ensures Payloads([a, b], op) == Selected(a, op) + Selected(b, op)
    ensures Opcodes([a, b]) == [a.op, b.op]
  {
    assert [a, b][1..] == [b];
    Literal1(b, op);
  }

  lemma Literal3(a: Transaction, b: Transaction, c: Transaction, op: bv8)
    ensures Payloads([a, b, c], op) == Selected(a, op) + Selected(b, op) + Selected(c, op)
    ensures Opcodes([a, b, c]) == [a.op, b.op, c.op]
  {
    assert [a, b, c][1..] == [b, c];
    Literal2(b, c, op);
  }

  lemma Literal4(a: Transaction, b: Transaction, c: Transaction, d: Transaction, op: bv8)
    ensures Payloads([a, b, c, d], op) == Selected(a, op) + Selected(b, op) + Selected(c, op) + Selected(d, op)
    ensures Opcodes([a, b, c, d]) == [a.op, b.op, c.op, d.op]
  {
    assert [a, b, c, d][1..] == [b, c, d];
    Literal3(b, c, d, op);
  }

  /** Flattening a single transaction. */
  lemma FlattenOne(tx: Transaction)
    ensures Flatten([tx]) == [Cmd(tx.op)] + DataEvents(tx.payload)
  {
    assert [tx][1..] == [];
  }

  /** Flattening a transaction in front of others. */
  lemma FlattenCons(tx: Transaction, rest: seq<Transaction>)
    ensures Flatten([tx] + rest) == [Cmd(tx.op)] + DataEvents(tx.payload) + Flatten(rest)
  {
    assert ([tx] + rest)[1..] == rest;
  }

  /** Appending a batch after a stream, written with the stream in front. */
  lemma SendAfter(start: seq<Event>, a: seq<Transaction>, b: seq<Transaction>)
    ensures start + Flatten(a + b) == start + Flatten(a) + Flatten(b)
  {
    FlattenAppend(a, b);
  }

  /** A stream followed by two, three or four transactions, one at a time. */
  lemma SendTwo(start: seq<Event>, a: Transaction, b: Transaction)
    ensures start + Flatten([a, b]) == start + Flatten([a]) + Flatten([b])
  {
    assert [a, b] == [a] + [b];
    SendAfter(start, [a], [b]);
  }

  lemma SendThree(start: seq<Event>, a: Transaction, b: Transaction, c: Transaction)
    ensures start + Flatten([a, b, c]) == start + Flatten([a]) + Flatten([b]) + Flatten([c])
  {
    assert [a, b, c] == [a, b] + [c];
    SendAfter(start, [a, b], [c]);
    SendTwo(start, a, b);
  }

  lemma SendFour(start: seq<Event>, a: Transaction, b: Transaction, c: Transaction, d: Transaction)
    ensures start + Flatten([a, b, c, d]) == start + Flatten([a]) + Flatten([b]) + Flatten([c]) + Flatten([d])
  {
    assert [a, b, c, d] == [a, b, c] + [d];
    SendAfter(start, [a, b, c], [d]);
    SendThree(start, a, b, c);
  }

  /** An opcode followed by a run of data bytes is one transaction on the wire. */
  lemma Sent(op: bv8, bytes: seq<bv8>, mark: seq<Event>, now: seq<Event>)
    requires now == mark + [Cmd(op)] + DataEvents(bytes)
    ensures now == mark + Flatten([Transaction(op, bytes)])
  {
    FlattenOne(Transaction(op, bytes));
  }

  /** Sent for an opcode followed by a fixed number of data bytes sent one
      at a time, as a command() call and then data() calls leave them. */
  lemma Sent0(op: bv8, mark: seq<Event>, now: seq<Event>)
    requires now == mark + [Cmd(op)]
    ensures now == mark + Flatten([Transaction(op, [])])
  {
    Sent(op, [], mark, now);
  }

  lemma Sent1(op: bv8, a: bv8, mark: seq<Event>, now: seq<Event>)
    requires now == mark + [Cmd(op)] + [Data(a)]
    ensures now == mark + Flatten([Transaction(op, [a])])
  {
    Sent(op, [a], mark, now);
  }

  lemma Sent2(op: bv8, a: bv8, b: bv8, mark: seq<Event>, now: seq<Event>)
    requires now == mark + [Cmd(op)] + [Data(a)] + [Data(b)]
    ensures now == mark + Flatten([Transaction(op, [a, b])])
  {
    Sent(op, [a, b], mark, now);
  }

  lemma Sent3(op: bv8, a: bv8, b: bv8, c: bv8, mark: seq<Event>, now: seq<Event>)
    requires now == mark + [Cmd(op)] + [Data(a)] + [Data(b)] + [Data(c)]
    ensures now == mark + Flatten([Transaction(op, [a, b, c])])
  {
    Sent(op, [a, b, c], mark, now);
  }

  lemma Sent4(op: bv8, a: bv8, b: bv8, c: bv8, d: bv8, mark: seq<Event>, now: seq<Event>)
    requires now == mark + [Cmd(op)] + [Data(a)] + [Data(b)] + [Data(c)] + [Data(d)]
    ensures now == mark + Flatten([Transaction(op, [a, b, c, d])])
  {
    Sent(op, [a, b, c, d], mark, now);
  }

  lemma Sent7(op: bv8, a: bv8, b: bv8, c: bv8, d: bv8, e: bv8, f: bv8, g: bv8, mark: seq<Event>, now: seq<Event>)
    requires now == mark + [Cmd(op)] + [Data(a)] + [Data(b)] + [Data(c)] + [Data(d)] + [Data(e)] + [Data(f)] + [Data(g)]
    ensures now == mark + Flatten([Transaction(op, [a, b, c, d, e, f, g])])
  {
    Sent(op, [a, b, c, d, e, f, g], mark, now);
  }
}
