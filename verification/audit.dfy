/** The tamper-evident audit log: one hash chain per organisation.

    The hash is a parameter. Hashed fields are an event's content; the actor's label and address are stored
    beside it but are not hashed. */
module Audit {
  import opened Wrappers

  datatype Content = Content(
    org: int, user: Option<int>, action: string, entityType: Option<string>, entityId: Option<string>,
    detail: map<string, string>, occurredAt: int)

  datatype Row = Row(content: Content, actor: Option<string>, address: Option<string>, prev: string, hash: string)

  type Hash = (string, Content) -> string

  /** Sixty-four zeros. */
  const GENESIS_HASH := "0000000000000000000000000000000000000000000000000000000000000000"

  /** No content hashes to the genesis value, and different content after different rows hashes differently. */
  ghost predicate Collisionless(h: Hash)
  {
    && (forall p, c :: h(p, c) != GENESIS_HASH)
    && (forall p, c, q, d :: h(p, c) == h(q, d) ==> p == q && c == d)
  }

  // --- Appending ----------------------------------------------------------------------------------

  /** The hash of the organisation's last row. */
  function Tail(rows: seq<Row>, org: int): string
  {
    if rows == [] then GENESIS_HASH
    else if rows[|rows| - 1].content.org == org then rows[|rows| - 1].hash
    else Tail(rows[..|rows| - 1], org)
  }

  function Recorded(h: Hash, rows: seq<Row>, c: Content, actor: Option<string>, address: Option<string>): seq<Row>
  {
    rows + [Row(c, actor, address, Tail(rows, c.org), h(Tail(rows, c.org), c))]
  }

  class AuditLog {
    var rows: seq<Row>

    constructor ()
      ensures rows == []
    {
      rows := [];
    }

    /** Append one event to its organisation's chain. */
    method Record(h: Hash, c: Content, actor: Option<string>, address: Option<string>)
      modifies this
      ensures rows == Recorded(h, old(rows), c, actor, address)
    {
      var tail := GENESIS_HASH;
      var i := |rows|;
      assert rows[..|rows|] == rows;
      while i > 0
        invariant 0 <= i <= |rows| && rows == old(rows)
        invariant Tail(rows[..i], c.org) == Tail(rows, c.org) && tail == GENESIS_HASH
      {
        assert rows[..i][..i - 1] == rows[..i - 1];
        i := i - 1;
        if rows[i].content.org == c.org {
          tail := rows[i].hash;
          break;
        }
      }
      rows := rows + [Row(c, actor, address, tail, h(tail, c))];
    }

    /** Recompute an organisation's chain: the index of the first row that does not fit, if any. */
    method VerifyChain(h: Hash, org: int, limit: Option<nat>) returns (intact: bool, broken: Option<nat>)
      ensures intact <==> Accepts(h, Limited(ChainOf(rows, org), limit))
      ensures intact <==> broken.None?
      ensures broken.Some? ==> broken.value < |Limited(ChainOf(rows, org), limit)|
                               && Accepts(h, Limited(ChainOf(rows, org), limit)[..broken.value])
                               && !Accepts(h, Limited(ChainOf(rows, org), limit)[..broken.value + 1])
    {
      var chain := Limited(ChainOf(rows, org), limit);
      var expected := GENESIS_HASH;
      for i := 0 to |chain|
        invariant Accepts(h, chain[..i]) && expected == Last(chain[..i])
      {
        assert chain[..i + 1][..i] == chain[..i];
        if chain[i].prev != expected || h(chain[i].prev, chain[i].content) != chain[i].hash {
          PrefixAccepted(h, chain, i + 1);
          return false, Some(i);
        }
        expected := chain[i].hash;
      }
      assert chain[..|chain|] == chain;
      return true, None;
    }
  }

  // --- Chains ------------------------------------------------------------------------------------------

  /** An organisation's rows, in order. */
  function ChainOf(rows: seq<Row>, org: int): seq<Row>
  {
    if rows == [] then []
    else ChainOf(rows[..|rows| - 1], org) + if rows[|rows| - 1].content.org == org then [rows[|rows| - 1]] else []
  }

  /** The first rows only, when a limit is given. */
  function Limited(chain: seq<Row>, limit: Option<nat>): seq<Row>
  {
    if limit.Some? && 0 < limit.value < |chain| then chain[..limit.value] else chain
  }

  function Last(chain: seq<Row>): string
  {
    if chain == [] then GENESIS_HASH else chain[|chain| - 1].hash
  }

  /** Each row follows the one before it and carries the hash of its own content. */
  predicate Accepts(h: Hash, chain: seq<Row>)
  {
    chain == [] ||
    var r := chain[|chain| - 1];
    Accepts(h, chain[..|chain| - 1]) && r.prev == Last(chain[..|chain| - 1]) && r.hash == h(r.prev, r.content)
  }

  lemma {:induction false} TailIsLast(rows: seq<Row>, org: int)
    ensures Tail(rows, org) == Last(ChainOf(rows, org))
  {
    if rows != [] {
      TailIsLast(rows[..|rows| - 1], org);
    }
  }

  lemma {:induction false} PrefixAccepted(h: Hash, chain: seq<Row>, n: nat)
    requires n <= |chain|
    ensures Accepts(h, chain) ==> Accepts(h, chain[..n])
    decreases |chain|
  {
    if n < |chain| {
      assert chain[..|chain| - 1][..n] == chain[..n];
      PrefixAccepted(h, chain[..|chain| - 1], n);
    } else {
      assert chain[..n] == chain;
    }
  }

  /** Recording keeps every organisation's chain accepted, whatever organisations are interleaved. */
  lemma RecordKeepsChains(h: Hash, rows: seq<Row>, c: Content, actor: Option<string>, address: Option<string>, org: int)
    requires Accepts(h, ChainOf(rows, org))
    ensures Accepts(h, ChainOf(Recorded(h, rows, c, actor, address), org))
    ensures org != c.org ==> ChainOf(Recorded(h, rows, c, actor, address), org) == ChainOf(rows, org)
  {
    var after := Recorded(h, rows, c, actor, address);
    assert after[..|rows|] == rows;
    TailIsLast(rows, c.org);
    if org == c.org {
      var chain, last := ChainOf(after, org), after[|rows|];
      assert chain == ChainOf(rows, org) + [last];
      assert chain[..|chain| - 1] == ChainOf(rows, org);
    } else {
      assert ChainOf(after, org) == ChainOf(rows, org);
    }
  }

  datatype Entry = Entry(content: Content, actor: Option<string>, address: Option<string>)

  function RecordAll(h: Hash, rows: seq<Row>, es: seq<Entry>): seq<Row>
    decreases |es|
  {
    if es == [] then rows
    else RecordAll(h, Recorded(h, rows, es[0].content, es[0].actor, es[0].address), es[1..])
  }

  lemma {:induction false} EveryRunVerifies(h: Hash, rows: seq<Row>, es: seq<Entry>, org: int)
    requires Accepts(h, ChainOf(rows, org))
    ensures Accepts(h, ChainOf(RecordAll(h, rows, es), org))
    decreases |es|
  {
    if es != [] {
      RecordKeepsChains(h, rows, es[0].content, es[0].actor, es[0].address, org);
      EveryRunVerifies(h, Recorded(h, rows, es[0].content, es[0].actor, es[0].address), es[1..], org);
    }
  }

  // --- What the chain proves -----------------------------------------------------------------------------

  predicate SameContents(a: seq<Row>, b: seq<Row>)
  {
    |a| == |b| && forall i :: 0 <= i < |a| ==>
      a[i].content == b[i].content && a[i].prev == b[i].prev && a[i].hash == b[i].hash
  }

  lemma NonemptyIsNotGenesis(h: Hash, chain: seq<Row>)
    requires Collisionless(h) && Accepts(h, chain) && chain != []
    ensures Last(chain) != GENESIS_HASH
  {
    var r := chain[|chain| - 1];
    assert r.hash == h(r.prev, r.content);
  }

  /** Two accepted chains that end in the same hash agree on every hashed field of every row, and in length. */
  lemma {:induction false} LastHashFixesChain(h: Hash, a: seq<Row>, b: seq<Row>)
    requires Collisionless(h) && Accepts(h, a) && Accepts(h, b) && Last(a) == Last(b)
    ensures SameContents(a, b)
    decreases |a|
  {
    if a != [] {
      NonemptyIsNotGenesis(h, a);
    }
    if b != [] {
      NonemptyIsNotGenesis(h, b);
    }
    if a != [] && b != [] {
      var m, n := |a| - 1, |b| - 1;
      assert h(a[m].prev, a[m].content) == h(b[n].prev, b[n].content);
      LastHashFixesChain(h, a[..m], b[..n]);
      forall i | 0 <= i < |a| ensures a[i].content == b[i].content && a[i].prev == b[i].prev && a[i].hash == b[i].hash {
        if i < m {
          assert a[..m][i].content == b[..n][i].content;
        }
      }
    }
  }

  /** So any edit, deletion, insertion or reordering of hashed content before a kept last row is rejected. */
  lemma TamperingIsRejected(h: Hash, original: seq<Row>, altered: seq<Row>)
    requires Collisionless(h) && Accepts(h, original) && Last(altered) == Last(original) && !SameContents(original, altered)
    ensures !Accepts(h, altered)
  {
    if Accepts(h, altered) {
      LastHashFixesChain(h, original, altered);
    }
  }

  /** What the chain does not prove: dropping rows from the end leaves an accepted chain, */
  lemma TruncationIsAccepted(h: Hash, chain: seq<Row>, n: nat)
    requires Accepts(h, chain) && n <= |chain|
    ensures Accepts(h, chain[..n])
  {
    PrefixAccepted(h, chain, n);
  }

  /** and so does changing the fields that are not hashed. */
  lemma {:induction false} LabelsAreNotProtected(h: Hash, a: seq<Row>, b: seq<Row>)
    requires SameContents(a, b)
    ensures Accepts(h, a) <==> Accepts(h, b)
    decreases |a|
  {
    if a != [] {
      LabelsAreNotProtected(h, a[..|a| - 1], b[..|b| - 1]);
    }
  }
}
