/**
 * What the registries of the sink must agree with after a sequence of
 * messages, and how each kind of message keeps that agreement: the schemas,
 * the headers, the truncated streams, and the account of rows between the
 * buffers and the uploads.
 */
module Replay {
  import opened Values
  import opened Policy
  import opened EffectLog
  import opened Messages

  /** The rows buffered for `stream`; a stream without a buffer has none. */
  function Buffered(data: map<string, seq<Row>>, stream: string): seq<Row>
  {
    if stream in data then data[stream] else []
  }

  lemma Associative<T>(a: seq<T>, b: seq<T>, c: seq<T>)
    ensures a + b + c == a + (b + c)
  {
  }

  /** What was uploaded since `start` grows by what the appended entries upload. */
  lemma UploadedSince(e: seq<Effect>, extra: seq<Effect>, start: nat, stream: string)
    requires start <= |e|
    ensures Uploaded((e + extra)[start..], stream) == Uploaded(e[start..], stream) + Uploaded(extra, stream)
  {
    assert (e + extra)[start..] == e[start..] + extra;
    UploadedAppend(e[start..], extra, stream);
  }

  lemma PrefixOfPrefix<T>(a: seq<T>, b: seq<T>, n: nat)
    requires n <= |a| <= |b| && b[..|a|] == a
    ensures b[..n] == a[..n]
  {
    assert b[..n] == b[..|a|][..n];
  }

  lemma UpdateTwice<K, V>(m: map<K, V>, k: K, a: V, b: V)
    ensures m[k := a][k := b] == m[k := b]
  {
  }

  /** No buffer has reached its stream's threshold. */
  ghost predicate BelowThresholds(data: map<string, seq<Row>>)
  {
    forall s :: s in data ==> |data[s]| < Threshold(s)
  }

  /** An empty buffer, or one still short of its threshold, keeps every buffer below its threshold. */
  lemma StillBelow(data: map<string, seq<Row>>, stream: string, rows: seq<Row>)
    requires BelowThresholds(data) && (rows == [] || |rows| < Threshold(stream))
    ensures BelowThresholds(data[stream := rows])
  {
  }

  /**
   * Every row of the messages `msgs` for every stream was uploaded by an
   * entry of `e` from `start` on or is still in its buffer in `d`, in order.
   */
  ghost predicate Accounts(msgs: seq<Message>, flatten: Flattener, start: nat, e: seq<Effect>, d: map<string, seq<Row>>)
  {
    start <= |e| && forall s :: Uploaded(e[start..], s) + Buffered(d, s) == RowsOf(msgs, s, flatten)
  }

  /**
   * The row account after one more message: when the entries it appends and
   * the new buffers hold exactly the old buffers plus the message's own row,
   * the account still balances.
   */
  lemma AccountStep(before: seq<Message>, m: Message, flatten: Flattener, start: nat,
                    e0: seq<Effect>, d0: map<string, seq<Row>>, extra: seq<Effect>, d1: map<string, seq<Row>>)
    requires Accounts(before, flatten, start, e0, d0)
    requires forall s :: Uploaded(extra, s) + Buffered(d1, s) == Buffered(d0, s) + Added(m, s, flatten)
    ensures Accounts(before + [m], flatten, start, e0 + extra, d1)
  {
    forall s ensures Uploaded((e0 + extra)[start..], s) + Buffered(d1, s) == RowsOf(before + [m], s, flatten) {
      var sent := Uploaded(e0[start..], s);
      UploadedSince(e0, extra, start, s);
      RowsOfSnoc(before, m, s, flatten);
      Associative(sent, Uploaded(extra, s), Buffered(d1, s));
      Associative(sent, Buffered(d0, s), Added(m, s, flatten));
    }
  }

  /** Exactly the streams that had a schema message have a schema. */
  ghost predicate SchemasOf(msgs: seq<Message>, schemas: map<string, Value>)
  {
    forall s :: s in schemas <==> s in Registered(msgs)
  }

  /** A schema message registers its stream; no other message touches the schemas. */
  lemma SchemasStep(before: seq<Message>, m: Message, s0: map<string, Value>, s1: map<string, Value>)
    requires SchemasOf(before, s0)
    requires s1 == if m.SchemaMessage? then s0[m.stream := m.schema] else s0
    ensures SchemasOf(before + [m], s1)
  {
    Snoc(before, m);
  }

  /**
   * A schema message that asks for truncation adds its stream to the
   * truncated streams unless it is there already; no other message changes them.
   */
  lemma TruncatedStep(c: Config, before: seq<Message>, m: Message, truncated0: set<string>, t0: set<string>, t1: set<string>)
    requires t0 == truncated0 + TruncatedBy(c, before)
    requires var wanted := m.SchemaMessage? && TruncationWanted(c, m.stream, m.schema);
      t1 == if wanted && m.stream !in t0 then t0 + {m.stream} else t0
    ensures t1 == truncated0 + TruncatedBy(c, before + [m])
  {
    Snoc(before, m);
  }

  /** Every stream's header is the flattened keys of its first record, and only streams with a record have one. */
  ghost predicate HeadersOf(msgs: seq<Message>, flatten: Flattener, headers: map<string, seq<string>>)
  {
    forall s :: FirstHeader(msgs, s, flatten) == if s in headers then Some(headers[s]) else None
  }

  /** A record sets the header of its stream if it has none; no other message touches the headers. */
  lemma HeaderStep(before: seq<Message>, m: Message, flatten: Flattener,
                   h0: map<string, seq<string>>, h1: map<string, seq<string>>)
    requires HeadersOf(before, flatten, h0)
    requires h1 == if m.RecordMessage? && m.stream !in h0 then h0[m.stream := Keys(flatten(m.record))] else h0
    ensures HeadersOf(before + [m], flatten, h1)
  {
    Snoc(before, m);
  }

  /**
   * Buffering `row` for `stream`, and flushing the buffer when it reaches the
   * threshold, moves rows between buffer and uploads without losing any.
   */
  lemma BufferDelta(c: Config, stream: string, header: seq<string>, clock: Clock, row: Row,
                    d0: map<string, seq<Row>>, extra: seq<Effect>, d1: map<string, seq<Row>>)
    requires var rows := Buffered(d0, stream) + [row];
      if |rows| >= Threshold(stream) then
        d1 == d0[stream := []] && extra == FlushEffects(c, stream, header, rows, clock)
      else
        d1 == d0[stream := rows] && extra == []
    ensures forall s :: Uploaded(extra, s) + Buffered(d1, s) == Buffered(d0, s) + (if s == stream then [row] else [])
  {
    var rows := Buffered(d0, stream) + [row];
    forall s ensures Uploaded(extra, s) + Buffered(d1, s) == Buffered(d0, s) + (if s == stream then [row] else []) {
      if |rows| >= Threshold(stream) {
        FlushUploads(c, stream, header, rows, clock, s);
      } else if s == stream {
        assert [] + rows == rows;
      }
    }
  }

  /** Flushing a buffer moves its rows to the uploads and nothing else. */
  lemma FlushDelta(c: Config, stream: string, header: seq<string>, clock: Clock,
                   d0: map<string, seq<Row>>, extra: seq<Effect>, d1: map<string, seq<Row>>)
    requires stream in d0 && d1 == d0[stream := []]
    requires extra == FlushEffects(c, stream, header, d0[stream], clock)
    ensures forall s :: Uploaded(extra, s) + Buffered(d1, s) == Buffered(d0, s)
  {
    forall s ensures Uploaded(extra, s) + Buffered(d1, s) == Buffered(d0, s) {
      FlushUploads(c, stream, header, d0[stream], clock, s);
    }
  }
}
