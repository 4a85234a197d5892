/** Identifiers shared by the prefix-cache index, the prompt hasher and the scorer. */
module PrefixTypes {
  const TWO_64: nat := 0x1_0000_0000_0000_0000

  type BlockHash = h: nat | h < TWO_64
  type Byte = b: nat | b < 256

  datatype ServerId = ServerId(space: string, name: string)

  /** One fact held by the index: `server` is believed to cache the prefix hashed to `hash`. */
  datatype Key = Key(hash: BlockHash, server: ServerId)

  function KeysFor(hashes: seq<BlockHash>, server: ServerId): (ks: seq<Key>)
    ensures |ks| == |hashes|
    ensures forall i :: 0 <= i < |ks| ==> ks[i] == Key(hashes[i], server)
  {
    seq(|hashes|, i requires 0 <= i < |hashes| => Key(hashes[i], server))
  }
}

/** The LRU index of prefix hashes: a two-level map of list elements beside a recency list. */
module PrefixIndex {
  import opened PrefixTypes
  import opened Recency

  /** A list element. The table and the list share elements by reference. */
  class Element {
    const hash: BlockHash
    const server: ServerId

    constructor (hash: BlockHash, server: ServerId)
      ensures this.hash == hash && this.server == server
    {
      this.hash := hash;
      this.server := server;
    }
  }

  function KeyOf(e: Element): Key {
    Key(e.hash, e.server)
  }

  function KeysOf(es: seq<Element>): (ks: seq<Key>)
    ensures |ks| == |es|
    ensures forall i :: 0 <= i < |es| ==> ks[i] == KeyOf(es[i])
  {
    seq(|es|, i requires 0 <= i < |es| => KeyOf(es[i]))
  }

  type Table = map<BlockHash, map<ServerId, Element>>

  ghost predicate InTable(t: Table, e: Element) {
    e.hash in t && e.server in t[e.hash] && t[e.hash][e.server] == e
  }

  ghost predicate Stored(t: Table, h: BlockHash, s: ServerId) {
    h in t && s in t[h]
  }

  ghost predicate Listed(t: Table, es: seq<Element>, h: BlockHash, s: ServerId)
    requires Stored(t, h, s)
  {
    t[h][s] in es && KeyOf(t[h][s]) == Key(h, s)
  }

  /** Table and list are in bijection: every listed element is the one stored under its key,
      every stored element is listed (once) and sits under its own key, no inner map is empty. */
  ghost predicate Consistent(t: Table, es: seq<Element>) {
    && Distinct(es)
    && (forall e :: e in es ==> InTable(t, e))
    && (forall h :: h in t ==> t[h] != map[])
    && (forall h, s :: Stored(t, h, s) ==> Listed(t, es, h, s))
  }

  function Insert(t: Table, e: Element): Table {
    var servers: map<ServerId, Element> := if e.hash in t then t[e.hash] else map[];
    t[e.hash := servers[e.server := e]]
  }

  function Remove(t: Table, e: Element): Table
    requires e.hash in t
  {
    var servers := t[e.hash] - {e.server};
    if |servers| == 0 then t - {e.hash} else t[e.hash := servers]
  }

  function MovedBack(es: seq<Element>, i: int): seq<Element>
    requires 0 <= i < |es|
  {
    es[..i] + es[i + 1..] + [es[i]]
  }

  lemma Inserted(t: Table, es: seq<Element>, e: Element)
    requires Consistent(t, es) && !Stored(t, e.hash, e.server)
    ensures Consistent(Insert(t, e), es + [e])
    ensures KeysOf(es + [e]) == KeysOf(es) + [KeyOf(e)]
  {
    var t', es' := Insert(t, e), es + [e];
    forall x | x in es ensures x != e && InTable(t', x) {
      assert InTable(t, x);
    }
    assert e.server in t'[e.hash];
    assert es'[|es|] == e && forall i :: 0 <= i < |es| ==> es'[i] == es[i] && es[i] in es;
    forall h, s | Stored(t', h, s) ensures Listed(t', es', h, s) {
      if h != e.hash || s != e.server {
        assert Stored(t, h, s) && t'[h][s] == t[h][s];
        assert Listed(t, es, h, s);
      }
    }
  }

  lemma Removed(t: Table, es: seq<Element>)
    requires Consistent(t, es) && es != []
    ensures InTable(t, es[0])
    ensures Consistent(Remove(t, es[0]), es[1..])
    ensures KeysOf(es[1..]) == KeysOf(es)[1..]
  {
    var e := es[0];
    assert InTable(t, e);
    var t' := Remove(t, e);
    assert e !in es[1..];
    forall x | x in es[1..] ensures InTable(t', x) {
      assert InTable(t, x);
      assert x.hash == e.hash ==> x.server in t[e.hash] - {e.server};
    }
    forall h, s | Stored(t', h, s) ensures Listed(t', es[1..], h, s) {
      assert Stored(t, h, s) && t'[h][s] == t[h][s];
      assert Listed(t, es, h, s) && t[h][s] != e;
      assert es == [e] + es[1..];
    }
  }

  lemma Moved(t: Table, es: seq<Element>, i: int)
    requires Consistent(t, es) && 0 <= i < |es|
    ensures Consistent(t, MovedBack(es, i))
    ensures KeysOf(MovedBack(es, i)) == Without(KeysOf(es), KeyOf(es[i])) + [KeyOf(es[i])]
  {
    var es' := MovedBack(es, i);
    assert forall x :: x in es' <==> x in es by {
      assert es == es[..i] + [es[i]] + es[i + 1..];
    }
    forall h, s | Stored(t, h, s) ensures Listed(t, es', h, s) {
      assert Listed(t, es, h, s);
    }
    assert KeysOf(es') == KeysOf(es)[..i] + KeysOf(es)[i + 1..] + [KeyOf(es[i])];
    KeysDistinct(t, es);
    WithoutAt(KeysOf(es), i);
  }

  /** What the table answers is what the list holds. */
  lemma StoredIffListed(t: Table, es: seq<Element>, hash: BlockHash, server: ServerId)
    requires Consistent(t, es)
    ensures Stored(t, hash, server) <==> Key(hash, server) in KeysOf(es)
  {
    if Stored(t, hash, server) {
      assert Listed(t, es, hash, server);
      var i :| 0 <= i < |es| && es[i] == t[hash][server];
      assert KeysOf(es)[i] == Key(hash, server);
    }
    if Key(hash, server) in KeysOf(es) {
      var i :| 0 <= i < |es| && KeysOf(es)[i] == Key(hash, server);
      assert InTable(t, es[i]);
    }
  }

  lemma KeysDistinct(t: Table, es: seq<Element>)
    requires Consistent(t, es)
    ensures Distinct(KeysOf(es))
  {
    forall i, j | 0 <= i < j < |es| ensures KeyOf(es[i]) != KeyOf(es[j]) {
      assert InTable(t, es[i]) && InTable(t, es[j]);
    }
  }

  class Indexer {
    const maxCacheSize: nat
    var table: Table
    var ll: seq<Element>  // front is least recently used

    ghost predicate Valid()
      reads this
    {
      1 <= maxCacheSize && |ll| <= maxCacheSize && Consistent(table, ll)
    }

    /** The abstract value: the cached keys, least recently used first. */
    ghost function Entries(): seq<Key>
      reads this
    {
      KeysOf(ll)
    }

    constructor (maxCacheSize: nat)
      requires 1 <= maxCacheSize
      ensures Valid() && Entries() == [] && this.maxCacheSize == maxCacheSize
    {
      this.maxCacheSize := maxCacheSize;
      table := map[];
      ll := [];
    }

    /** The servers that hold the given prefix hash. */
    method Get(hash: BlockHash) returns (servers: set<ServerId>)
      requires Valid()
      ensures forall s :: s in servers <==> Key(hash, s) in Entries()
    {
      servers := if hash in table then table[hash].Keys else {};
      forall s ensures s in servers <==> Key(hash, s) in Entries() {
        StoredIffListed(table, ll, hash, s);
      }
    }

    /** Records that every hash of one request is cached on `server`. */
    method AddAll(hashes: seq<BlockHash>, server: ServerId)
      requires Valid()
      modifies this
      ensures Valid()
      ensures Entries() == TouchAll(old(Entries()), KeysFor(hashes, server), maxCacheSize)
    {
      ghost var before, keys := Entries(), KeysFor(hashes, server);
      assert keys[..0] == [];
      for n := 0 to |hashes|
        invariant Valid()
        invariant Entries() == TouchAll(before, keys[..n], maxCacheSize)
      {
        Add(hashes[n], server);
        assert keys[..n + 1] == keys[..n] + [keys[n]];
        TouchOneMore(before, keys[..n], keys[n], maxCacheSize);
      }
      assert keys[..|hashes|] == keys;
    }

    method Add(hash: BlockHash, server: ServerId)
      requires Valid()
      modifies this
      ensures Valid()
      ensures Entries() == Touch(old(Entries()), Key(hash, server), maxCacheSize)
    {
      StoredIffListed(table, ll, hash, server);
      if hash in table && server in table[hash] {
        assert Listed(table, ll, hash, server);
        MoveToBack(table[hash][server]);
      } else {
        Create(hash, server);
      }
    }

    method MoveToBack(e: Element)
      requires Valid() && e in ll
      modifies this`ll
      ensures Valid()
      ensures Entries() == Without(old(Entries()), KeyOf(e)) + [KeyOf(e)]
    {
      var i :| 0 <= i < |ll| && ll[i] == e;
      Moved(table, ll, i);
      ll := MovedBack(ll, i);
    }

    method Create(hash: BlockHash, server: ServerId)
      requires Valid() && Key(hash, server) !in Entries()
      modifies this
      ensures Valid()
      ensures Entries() == LastN(old(Entries()), maxCacheSize - 1) + [Key(hash, server)]
    {
      ghost var before := Entries();
      while |ll| >= maxCacheSize
        invariant Valid()
        invariant |ll| == |before| || |ll| == maxCacheSize - 1 < |before|
        invariant Entries() == LastN(before, |ll|)
        decreases |ll|
      {
        Evict();
      }
      assert Key(hash, server) !in Entries();
      StoredIffListed(table, ll, hash, server);
      var e := new Element(hash, server);
      Inserted(table, ll, e);
      table := Insert(table, e);
      ll := ll + [e];
    }

    /** Removes the least recently used entry, from the list and from the table. */
    method Evict()
      requires Valid()
      modifies this
      ensures Valid()
      ensures Entries() == if old(ll) == [] then [] else old(Entries())[1..]
    {
      if ll == [] {
        return;
      }
      var oldest := ll[0];
      Removed(table, ll);
      ll := ll[1..];
      table := Remove(table, oldest);
    }
  }
}
