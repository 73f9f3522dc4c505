/**
 The boost catalogue of index.js: an object from key to `{ link, version }`,
 the copy-on-write `addBoost`, and the `reduce` in `saveChanges` that folds the
 session's accepted entries over the catalogue loaded at start-up.
 */
module Registry {
  import opened OrderedMap
  import opened ArcLink

  datatype Boost = Boost(link: string, version: string)

  /** One accepted entry, the `[key, link, version]` triple the program collects. */
  datatype Addition = Addition(key: string, link: string, version: string)

  /**
   `addBoost`: a spread copy of the catalogue with `key` set. The result is a new value: `key`
   holds the new boost, every other key keeps its boost, and the key order is kept, with a
   new key at the end.
   */
  function AddBoost(key: string, link: string, version: string, boostData: Entries<Boost>): (r: Entries<Boost>)
    ensures ToMap(r) == ToMap(boostData)[key := Boost(link, version)]
    ensures Keys(r) == if key in Keys(boostData) then Keys(boostData) else Keys(boostData) + [key]
  {
    Put(boostData, key, Boost(link, version))
  }

  /**
   The left fold of `saveChanges`: `addBoost` each entry, in list order, starting from the
   loaded catalogue. The loaded keys keep their places at the front; new keys follow them.
   */
  function ApplyBatch(boostData: Entries<Boost>, newBoosts: seq<Addition>): (r: Entries<Boost>)
    ensures |boostData| <= |r| && Keys(r)[..|boostData|] == Keys(boostData)
  {
    if newBoosts == [] then boostData
    else
      var last := newBoosts[|newBoosts| - 1];
      AddBoost(last.key, last.link, last.version, ApplyBatch(boostData, newBoosts[..|newBoosts| - 1]))
  }

  /** Folding two lists one after the other is folding their concatenation. */
  lemma {:induction false} ApplyBatchAppend(boostData: Entries<Boost>, xs: seq<Addition>, ys: seq<Addition>)
    ensures ApplyBatch(boostData, xs + ys) == ApplyBatch(ApplyBatch(boostData, xs), ys)
  {
    if ys == [] {
      assert xs + ys == xs;
    } else {
      assert (xs + ys)[..|xs + ys| - 1] == xs + ys[..|ys| - 1];
      ApplyBatchAppend(boostData, xs, ys[..|ys| - 1]);
    }
  }

  /** The fold keeps the keys distinct. */
  lemma {:induction false} ApplyBatchDistinct(boostData: Entries<Boost>, newBoosts: seq<Addition>)
    requires DistinctKeys(boostData)
    ensures DistinctKeys(ApplyBatch(boostData, newBoosts))
  {
    if newBoosts != [] {
      var last := newBoosts[|newBoosts| - 1];
      ApplyBatchDistinct(boostData, newBoosts[..|newBoosts| - 1]);
      PutDistinct(ApplyBatch(boostData, newBoosts[..|newBoosts| - 1]), last.key, Boost(last.link, last.version));
    }
  }

  /** The last entry for a key decides its boost. */
  lemma {:induction false} LastEntryWins(boostData: Entries<Boost>, newBoosts: seq<Addition>, i: nat)
    requires i < |newBoosts|
    requires forall j :: i < j < |newBoosts| ==> newBoosts[j].key != newBoosts[i].key
    ensures var m := ToMap(ApplyBatch(boostData, newBoosts));
      newBoosts[i].key in m && m[newBoosts[i].key] == Boost(newBoosts[i].link, newBoosts[i].version)
  {
    if i < |newBoosts| - 1 {
      LastEntryWins(boostData, newBoosts[..|newBoosts| - 1], i);
    }
  }

  /** A key no entry mentions keeps the boost it was loaded with, or stays absent. */
  lemma {:induction false} UntouchedKey(boostData: Entries<Boost>, newBoosts: seq<Addition>, k: string)
    requires forall j :: 0 <= j < |newBoosts| ==> newBoosts[j].key != k
    ensures var m := ToMap(ApplyBatch(boostData, newBoosts));
      (k in m <==> k in ToMap(boostData)) && (k in m ==> m[k] == ToMap(boostData)[k])
  {
    if newBoosts != [] {
      UntouchedKey(boostData, newBoosts[..|newBoosts| - 1], k);
    }
  }

  /** After the fold the keys are the loaded keys together with the keys of the entries. */
  lemma {:induction false} ApplyBatchKeys(boostData: Entries<Boost>, newBoosts: seq<Addition>)
    ensures ToMap(ApplyBatch(boostData, newBoosts)).Keys
      == ToMap(boostData).Keys + set j | 0 <= j < |newBoosts| :: newBoosts[j].key
  {
    if newBoosts != [] {
      var init := newBoosts[..|newBoosts| - 1];
      ApplyBatchKeys(boostData, init);
      assert (set j | 0 <= j < |newBoosts| :: newBoosts[j].key)
        == (set j | 0 <= j < |init| :: init[j].key) + {newBoosts[|newBoosts| - 1].key} by {
        forall j | 0 <= j < |newBoosts| - 1 ensures newBoosts[j].key == init[j].key { }
      }
    }
  }

  /** Every boost in the catalogue has a link the validator accepts. */
  ghost predicate AllLinksValid(boostData: Entries<Boost>)
  {
    forall k :: k in ToMap(boostData) ==> IsValidArcLink(ToMap(boostData)[k].link)
  }

  /** Entries whose links were validated keep a catalogue of valid links valid. */
  lemma {:induction false} ApplyBatchKeepsLinksValid(boostData: Entries<Boost>, newBoosts: seq<Addition>)
    requires AllLinksValid(boostData)
    requires forall j :: 0 <= j < |newBoosts| ==> IsValidArcLink(newBoosts[j].link)
    ensures AllLinksValid(ApplyBatch(boostData, newBoosts))
  {
    if newBoosts != [] {
      ApplyBatchKeepsLinksValid(boostData, newBoosts[..|newBoosts| - 1]);
    }
  }
}
