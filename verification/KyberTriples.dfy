/**
 The cache keys of kyber triples. A key is the prekey id, the signed prekey id and the hex
 base key joined by colons, and prekey ids themselves contain colons; a removed prekey's
 triples are found by a string prefix. Numbers appear in their printed form.
 */
module KyberTriples {

  /** An ACI prints without a colon, a PNI with the tag in front. */
  datatype Owner = AciOwner(uuid: string) | PniOwner(uuid: string)

  predicate NoColon(s: string) {
    ':' !in s
  }

  predicate ValidOwner(o: Owner) {
    NoColon(o.uuid) && (o.AciOwner? ==> o.uuid != "PNI")
  }

  function OwnerText(o: Owner): string {
    match o
    case AciOwner(uuid) => uuid
    case PniOwner(uuid) => "PNI" + ":" + uuid
  }

  datatype PreKeyId = PreKeyId(owner: Owner, keyId: string)

  predicate ValidId(id: PreKeyId) {
    ValidOwner(id.owner) && NoColon(id.keyId)
  }

  function IdText(id: PreKeyId): string {
    OwnerText(id.owner) + ":" + id.keyId
  }

  datatype Triple = Triple(id: PreKeyId, signedPreKeyId: string, baseKey: string)

  predicate ValidTriple(t: Triple) {
    ValidId(t.id) && NoColon(t.signedPreKeyId) && NoColon(t.baseKey)
  }

  function TripleKey(t: Triple): string {
    IdText(t.id) + ":" + t.signedPreKeyId + ":" + t.baseKey
  }

  function Prefix(id: PreKeyId): string {
    IdText(id) + ":"
  }

  predicate StartsWith(s: string, prefix: string) {
    prefix <= s
  }

  // ---------------------------------------------------------------- splitting at colons

  lemma FirstColon(a: string, x: string)
    requires NoColon(a)
    ensures var l := a + ":" + x;
            l[|a|] == ':' && forall k :: 0 <= k < |a| ==> l[k] != ':'
  {
    var l := a + ":" + x;
    forall k | 0 <= k < |a| ensures l[k] != ':' {
      assert l[k] == a[k] && a[k] in a;
    }
  }

  lemma SplitAtColon(a: string, x: string, b: string, y: string)
    requires NoColon(a) && NoColon(b)
    requires a + ":" + x == b + ":" + y
    ensures a == b && x == y
  {
    var l, r := a + ":" + x, b + ":" + y;
    FirstColon(a, x);
    FirstColon(b, y);
    assert |a| == |b|;
    assert a == l[..|a|] == r[..|b|] == b;
    assert x == l[|a| + 1..] == r[|b| + 1..] == y;
  }

  lemma TaggedText(u: string, x: string)
    ensures OwnerText(PniOwner(u)) + ":" + x == "PNI" + ":" + (u + ":" + x)
  {
  }

  lemma TagDiffers(u: string, x: string, v: string, y: string)
    requires ValidOwner(AciOwner(u))
    ensures u + ":" + x != OwnerText(PniOwner(v)) + ":" + y
  {
    TaggedText(v, y);
    hide OwnerText;
    if u + ":" + x == "PNI" + ":" + (v + ":" + y) {
      SplitAtColon(u, x, "PNI", v + ":" + y);
    }
  }

  /** A printed owner followed by a colon determines the owner and the rest. */
  lemma OwnerSplits(o: Owner, x: string, p: Owner, y: string)
    requires ValidOwner(o) && ValidOwner(p)
    requires OwnerText(o) + ":" + x == OwnerText(p) + ":" + y
    ensures o == p && x == y
  {
    match (o, p)
    case (AciOwner(u), AciOwner(v)) => SplitAtColon(u, x, v, y);
    case (AciOwner(u), PniOwner(v)) => TagDiffers(u, x, v, y);
    case (PniOwner(u), AciOwner(v)) => TagDiffers(v, y, u, x);
    case (PniOwner(u), PniOwner(v)) =>
      TaggedText(u, x);
      TaggedText(v, y);
      hide OwnerText;
      SplitAtColon("PNI", u + ":" + x, "PNI", v + ":" + y);
      SplitAtColon(u, x, v, y);
  }

  lemma IdSplits(i: PreKeyId, x: string, j: PreKeyId, y: string)
    requires ValidId(i) && ValidId(j)
    requires IdText(i) + ":" + x == IdText(j) + ":" + y
    ensures i == j && x == y
  {
    assert IdText(i) + ":" + x == OwnerText(i.owner) + ":" + (i.keyId + ":" + x);
    assert IdText(j) + ":" + y == OwnerText(j.owner) + ":" + (j.keyId + ":" + y);
    OwnerSplits(i.owner, i.keyId + ":" + x, j.owner, j.keyId + ":" + y);
    SplitAtColon(i.keyId, x, j.keyId, y);
  }

  // ---------------------------------------------------------------- main results

  /** The prefix test matches a triple's key exactly when the triple belongs to that very prekey. */
  lemma PrefixMatchesOwnTriples(id: PreKeyId, t: Triple)
    requires ValidId(id) && ValidTriple(t)
    ensures StartsWith(TripleKey(t), Prefix(id)) <==> t.id == id
  {
    var rest := t.signedPreKeyId + ":" + t.baseKey;
    assert TripleKey(t) == IdText(t.id) + ":" + rest;
    if StartsWith(TripleKey(t), Prefix(id)) {
      var tail := TripleKey(t)[|Prefix(id)|..];
      assert TripleKey(t) == IdText(id) + ":" + tail;
      IdSplits(id, tail, t.id, rest);
    }
  }

  /** Different triples have different keys. */
  lemma KeysAreInjective(t: Triple, u: Triple)
    requires ValidTriple(t) && ValidTriple(u) && TripleKey(t) == TripleKey(u)
    ensures t == u
  {
    var x, y := t.signedPreKeyId + ":" + t.baseKey, u.signedPreKeyId + ":" + u.baseKey;
    assert TripleKey(t) == IdText(t.id) + ":" + x;
    assert TripleKey(u) == IdText(u.id) + ":" + y;
    IdSplits(t.id, x, u.id, y);
    SplitAtColon(t.signedPreKeyId, t.baseKey, u.signedPreKeyId, u.baseKey);
  }

  /** Without the colon that ends the prefix, removing prekey 1 would also match prekey 12. */
  lemma BarePrefixWouldMatchTooMuch(owner: Owner)
    requires ValidOwner(owner)
    ensures var one, twelve := PreKeyId(owner, "1"), Triple(PreKeyId(owner, "12"), "0", "00");
            StartsWith(TripleKey(twelve), IdText(one)) && !StartsWith(TripleKey(twelve), Prefix(one))
  {
    var one, twelve := PreKeyId(owner, "1"), Triple(PreKeyId(owner, "12"), "0", "00");
    assert TripleKey(twelve) == IdText(one) + ("2" + ":" + "0" + ":" + "00");
    assert "1" != "12";
    assert one != twelve.id;
    assert ValidTriple(twelve) && ValidId(one);
    PrefixMatchesOwnTriples(one, twelve);
  }
}
