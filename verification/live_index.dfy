/** The in-memory live index: contents stored under their hash, in the order
    their hashes were first stored (a Python dict keeps insertion order and
    overwrites an existing key in place). The content hash is a function
    parameter. */
module LiveIndex {
  import opened Wrappers
  import opened Text

  type Hasher = string -> string

  datatype Entry = Entry(key: string, content: string)

  /** The store, as its entries in insertion order. */
  datatype Index = Index(entries: seq<Entry>)

  /** A fresh, empty index. */
  const EmptyIndex := Index([])

  function Keys(ix: Index): (r: seq<string>)
    ensures |r| == |ix.entries|
    ensures forall i | 0 <= i < |r| :: r[i] == ix.entries[i].key
  {
    seq(|ix.entries|, i requires 0 <= i < |ix.entries| => ix.entries[i].key)
  }

  /** Every key is stored at most once, as in a dict. */
  predicate Valid(ix: Index) {
    Distinct(Keys(ix))
  }

  /** The first position of `key` in `keys`. */
  function Position(keys: seq<string>, key: string): (i: nat)
    requires key in keys
    ensures i < |keys| && keys[i] == key && key !in keys[..i]
  {
    if keys[0] == key then 0
    else
      assert key in keys[1..];
      var j := Position(keys[1..], key);
      assert keys[..j + 1] == [keys[0]] + keys[1..][..j];
      j + 1
  }

  /** The position depends only on the keys up to the first occurrence. */
  lemma PositionOfExtension(keys: seq<string>, more: seq<string>, key: string)
    requires key in keys
    ensures key in keys + more && Position(keys + more, key) == Position(keys, key)
  {
    var i := Position(keys, key);
    var j := Position(keys + more, key);
    assert (keys + more)[i] == key;
  }

  /** `store.get(key)`: the content stored under `key`, if any. */
  function Lookup(ix: Index, key: string): (r: Option<string>)
    ensures r.None? <==> key !in Keys(ix)
    ensures r.Some? ==> exists i | 0 <= i < |ix.entries| :: ix.entries[i] == Entry(key, r.value)
  {
    var keys := Keys(ix);
    if key in keys then
      var i := Position(keys, key);
      assert ix.entries[i] == Entry(key, ix.entries[i].content);
      Some(ix.entries[i].content)
    else None
  }

  /** `store[key] = content`: overwrite in place when the key is present,
      otherwise append. */
  function Put(ix: Index, key: string, content: string): (r: Index)
    ensures Keys(r) == if key in Keys(ix) then Keys(ix) else Keys(ix) + [key]
    ensures Lookup(r, key) == Some(content)
    ensures forall i | 0 <= i < |ix.entries| && ix.entries[i].key != key :: r.entries[i] == ix.entries[i]
  {
    var keys := Keys(ix);
    if key in keys then
      var i := Position(keys, key);
      var r := Index(ix.entries[i := Entry(key, content)]);
      assert Keys(r) == keys;
      r
    else
      var r := Index(ix.entries + [Entry(key, content)]);
      assert Keys(r) == keys + [key];
      PositionOfExtension(keys + [key], [], key);
      assert Position(keys + [key], key) == |keys|;
      r
  }

  /** Storing under one key leaves every other key's content as it was. */
  lemma PutFrameAll(ix: Index, key: string, content: string)
    ensures forall k | k != key :: Lookup(Put(ix, key, content), k) == Lookup(ix, k)
  {
    forall k | k != key
      ensures Lookup(Put(ix, key, content), k) == Lookup(ix, k)
    {
      PutFrame(ix, key, content, k);
    }
  }

  lemma PutFrame(ix: Index, key: string, content: string, k: string)
    requires k != key
    ensures Lookup(Put(ix, key, content), k) == Lookup(ix, k)
  {
    var keys := Keys(ix);
    var r := Put(ix, key, content);
    if k in keys {
      if key !in keys {
        PositionOfExtension(keys, [key], k);
      }
      var i := Position(keys, k);
      assert r.entries[i] == ix.entries[i];
    } else {
      assert k !in Keys(r);
    }
  }

  /** Storing keeps the keys distinct. */
  lemma PutKeepsValid(ix: Index, key: string, content: string)
    ensures Valid(ix) ==> Valid(Put(ix, key, content))
  {
    var keys := Keys(ix);
    if Valid(ix) && key !in keys {
      var ks := keys + [key];
      forall i, j | 0 <= i < j < |ks| ensures ks[i] != ks[j] {
        if j == |keys| { assert ks[i] in keys; }
      }
    }
  }

  /** `update(content)`: store the content under its hash. */
  function Update(ix: Index, content: string, hash: Hasher): (r: Index)
    ensures Lookup(r, hash(content)) == Some(content)
    ensures forall k | k != hash(content) :: Lookup(r, k) == Lookup(ix, k)
    ensures Valid(ix) ==> Valid(r)
  {
    PutFrameAll(ix, hash(content), content);
    PutKeepsValid(ix, hash(content), content);
    Put(ix, hash(content), content)
  }

  /** `all()`: the stored contents, in insertion order. */
  function All(ix: Index): (r: seq<string>)
    ensures |r| == |ix.entries|
    ensures forall i | 0 <= i < |r| :: r[i] == ix.entries[i].content
  {
    seq(|ix.entries|, i requires 0 <= i < |ix.entries| => ix.entries[i].content)
  }

  /** After an update the content is among the stored contents. */
  lemma UpdatedContentListed(ix: Index, content: string, hash: Hasher)
    ensures content in All(Update(ix, content, hash))
  {
    var r := Update(ix, content, hash);
    var i :| 0 <= i < |r.entries| && r.entries[i] == Entry(hash(content), content);
    assert All(r)[i] == content;
  }

  /** Updating twice with the same content stores the same index as once. */
  lemma UpdateIdempotent(ix: Index, content: string, hash: Hasher)
    ensures Update(Update(ix, content, hash), content, hash) == Update(ix, content, hash)
  {
    PutIdempotent(ix, hash(content), content);
  }

  lemma PutIdempotent(ix: Index, key: string, content: string)
    ensures Put(Put(ix, key, content), key, content) == Put(ix, key, content)
  {
    var once := Put(ix, key, content);
    var i := Position(Keys(once), key);
    assert once.entries[i] == Entry(key, content);
    assert once.entries[i := Entry(key, content)] == once.entries;
  }

  /** In a well-formed index `all()` holds one content per distinct key. */
  lemma OneContentPerKey(ix: Index)
    requires Valid(ix)
    ensures |All(ix)| == |Elems(Keys(ix))|
  {
    DistinctCard(Keys(ix));
  }

  /** A fresh index is well formed, and every sequence of updates keeps it so. */
  lemma {:induction false} UpdatesKeepValid(contents: seq<string>, hash: Hasher)
    ensures Valid(UpdateAll(EmptyIndex, contents, hash))
    decreases |contents|
  {
    if |contents| > 0 {
      UpdatesKeepValid(contents[..|contents| - 1], hash);
    }
  }

  /** The index after updating with each content in turn. */
  function UpdateAll(ix: Index, contents: seq<string>, hash: Hasher): Index
    decreases |contents|
  {
    if |contents| == 0 then ix
    else Update(UpdateAll(ix, contents[..|contents| - 1], hash), contents[|contents| - 1], hash)
  }
}
