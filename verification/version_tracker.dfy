/** The version tracker of the live pipeline: it remembers the hash of the
    latest content and reports whether new content changed it. The content
    hash (SHA-256 in the source) is a function parameter. */
module VersionTracker {
  import opened Wrappers

  /** The hash function applied to content. */
  type Hasher = string -> string

  /** The latest hash seen, absent before the first update. */
  datatype Tracker = Tracker(latestHash: Option<string>)

  /** A fresh tracker has seen no content. */
  const Initial := Tracker(None)

  /** `get_version()`: the hash of the latest content, if any. */
  function GetVersion(t: Tracker): (r: Option<string>)
    ensures t == Initial ==> r.None?
  {
    t.latestHash
  }

  /** `update(content)`: remember the content's hash and report whether it
      differs from the one remembered before. */
  function Update(t: Tracker, content: string, hash: Hasher): (r: (Tracker, bool))
    ensures GetVersion(r.0) == Some(hash(content))
    ensures r.1 <==> GetVersion(t) != Some(hash(content))
  {
    var h := hash(content);
    (Tracker(Some(h)), t.latestHash != Some(h))
  }

  /** The first update always reports a change. */
  lemma FirstUpdateChanges(content: string, hash: Hasher)
    ensures Update(Initial, content, hash).1
  {
  }

  /** Updating twice with the same content: the second reports no change and
      leaves the version as it was. */
  lemma RepeatedUpdateUnchanged(t: Tracker, content: string, hash: Hasher)
    ensures var t1 := Update(t, content, hash).0;
      !Update(t1, content, hash).1 && Update(t1, content, hash).0 == t1
  {
  }

  /** After content `a`, content `b` is reported as a change exactly when the
      two hash differently; with a collision-free hash, exactly when the
      contents differ. */
  lemma ChangeIffHashDiffers(t: Tracker, a: string, b: string, hash: Hasher)
    ensures Update(Update(t, a, hash).0, b, hash).1 <==> hash(a) != hash(b)
    ensures (forall x, y :: hash(x) == hash(y) ==> x == y) ==>
      (Update(Update(t, a, hash).0, b, hash).1 <==> a != b)
  {
  }
}
