/** Building a keyring from its configuration. */
module KeyringConfig {
  import opened Keyset
  import opened Envelope
  import opened Keyring
  import opened Reencryption

  /** A configured key; no key material stands for a missing cipher. */
  datatype CipherKey = CipherKey(id: Bytes, key: Option<Bytes>)

  /** Key i goes by this ID, blanks around it aside. */
  predicate Names(keys: seq<CipherKey>, i: int, id: Bytes) { 0 <= i < |keys| && TrimBytes(keys[i].id) == id }

  ghost predicate Known(keys: seq<CipherKey>, id: Bytes) { exists i :: Names(keys, i, id) }

  /** Every key has an ID of at most 65,535 bytes and a cipher, and no two share one. */
  ghost predicate WellFormedKeys(keys: seq<CipherKey>) {
    && (forall i :: 0 <= i < |keys| ==> 0 < |TrimBytes(keys[i].id)| <= 65535 && keys[i].key.Some?)
    && (forall i, j, id :: Names(keys, i, id) && Names(keys, j, id) ==> i == j)
  }

  /** The IDs asked for, each where it comes first. */
  function InOrder(ids: seq<Bytes>): seq<Bytes> {
    if ids == [] then []
    else
      var before, id := InOrder(ids[..|ids| - 1]), TrimBytes(ids[|ids| - 1]);
      if id in before then before else before + [id]
  }

  /** The keys by ID, if they are well-formed. */
  method Index(keys: seq<CipherKey>) returns (byID: Option<map<Bytes, Bytes>>)
    ensures byID.Some? <==> WellFormedKeys(keys)
    ensures byID.Some? ==> forall id :: id in byID.value <==> Known(keys, id)
    ensures byID.Some? ==> forall i, id :: Names(keys, i, id) ==> id in byID.value && keys[i].key == Some(byID.value[id])
  {
    hide TrimBytes;
    var found: map<Bytes, Bytes> := map[];
    for i := 0 to |keys|
      invariant forall k :: 0 <= k < i ==> 0 < |TrimBytes(keys[k].id)| <= 65535 && keys[k].key.Some?
      invariant forall id :: id in found <==> exists k :: k < i && Names(keys, k, id)
      invariant forall k, id :: k < i && Names(keys, k, id) ==> keys[k].key == Some(found[id])
      invariant forall k, l, id :: k < i && l < i && Names(keys, k, id) && Names(keys, l, id) ==> k == l
    {
      var id := TrimBytes(keys[i].id);
      assert Names(keys, i, id);
      if id == [] || keys[i].key.None? || |id| > 65535 { return None; }
      if id in found { return None; }
      found := found[id := keys[i].key.value];
    }
    assert forall k, id :: Names(keys, k, id) ==> k < |keys|;
    byID := Some(found);
  }

  /** The legacy keys, each once, if all of them are configured. */
  method Legacy(byID: map<Bytes, Bytes>, legacy: seq<Bytes>) returns (ids: Option<seq<Bytes>>)
    ensures ids.Some? <==> forall j :: 0 <= j < |legacy| ==> TrimBytes(legacy[j]) in byID
    ensures ids.Some? ==> ids.value == InOrder(legacy)
  {
    hide TrimBytes;
    var kept: seq<Bytes> := [];
    var seen: set<Bytes> := {};
    for j := 0 to |legacy|
      invariant forall k :: 0 <= k < j ==> TrimBytes(legacy[k]) in byID
      invariant forall id :: id in seen <==> id in kept
      invariant kept == InOrder(legacy[..j])
    {
      assert legacy[..j + 1][..j] == legacy[..j];
      var id := TrimBytes(legacy[j]);
      if id !in byID { return None; }
      if id in seen { continue; }
      seen, kept := seen + {id}, kept + [id];
    }
    assert legacy[..|legacy|] == legacy;
    ids := Some(kept);
  }

  /** Each ID asked for is kept once. */
  lemma {:induction false} InOrderKeepsEach(ids: seq<Bytes>)
    ensures forall id :: id in InOrder(ids) <==> exists j :: 0 <= j < |ids| && TrimBytes(ids[j]) == id
    ensures forall i, j :: 0 <= i < j < |InOrder(ids)| ==> InOrder(ids)[i] != InOrder(ids)[j]
  {
    hide TrimBytes;
    if ids != [] {
      var n := |ids| - 1;
      InOrderKeepsEach(ids[..n]);
      assert forall j :: 0 <= j < n ==> ids[..n][j] == ids[j];
      forall id ensures id in InOrder(ids) <==> id in InOrder(ids[..n]) || TrimBytes(ids[n]) == id { }
    }
  }

  /** The active key and every legacy key have to be configured; a legacy key named
      twice counts once, where it comes first. */
  method NewKeyring(active: Bytes, keys: seq<CipherKey>, legacy: seq<Bytes>) returns (ring: Option<Ring>)
    ensures ring.Some? <==>
              && TrimBytes(active) != [] && WellFormedKeys(keys) && Known(keys, TrimBytes(active))
              && forall j :: 0 <= j < |legacy| ==> Known(keys, TrimBytes(legacy[j]))
    ensures ring.Some? ==>
              && ring.value.Valid() && ring.value.active == TrimBytes(active) && ring.value.legacy == InOrder(legacy)
              && (forall id :: id in ring.value.keys <==> Known(keys, id))
              && (forall i, id :: Names(keys, i, id) ==> id in ring.value.keys && keys[i].key == Some(ring.value.keys[id]))
  {
    hide TrimBytes, InOrder, Names;
    var activeID := TrimBytes(active);
    if activeID == [] { return None; }
    var byID := Index(keys);
    if byID.None? { return None; }
    if activeID !in byID.value { return None; }
    var ids := Legacy(byID.value, legacy);
    if ids.None? { return None; }
    InOrderKeepsEach(legacy);
    LongEnough(keys, byID.value);
    assert forall i :: 0 <= i < |ids.value| ==> ids.value[i] in ids.value;
    ring := Some(Ring(activeID, byID.value, ids.value));
  }

  lemma LongEnough(keys: seq<CipherKey>, byID: map<Bytes, Bytes>)
    requires WellFormedKeys(keys) && forall id :: id in byID <==> Known(keys, id)
    ensures forall id :: id in byID ==> 0 < |id| <= MAX_UINT16
  {
    hide TrimBytes;
  }
}
