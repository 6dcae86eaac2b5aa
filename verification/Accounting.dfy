/** Space accounting: what the quota is compared with is the number of bytes actually stored. */
module Accounting {
  import opened SiteModel
  import opened Cluster
  import opened MeshPreservation
  import opened Durability

  /** The sum of `amount` over a set of hashes. */
  ghost function Sum(hs: set<Hash>, amount: map<Hash, int>): int
    requires hs <= amount.Keys
  {
    if hs == {} then 0
    else var h :| h in hs; amount[h] + Sum(hs - {h}, amount)
  }

  lemma {:induction false} SumsAgree(hs: set<Hash>, a: map<Hash, int>, b: map<Hash, int>)
    requires hs <= a.Keys && hs <= b.Keys && forall h :: h in hs ==> a[h] == b[h]
    ensures Sum(hs, a) == Sum(hs, b)
  {
    if hs != {} {
      var h :| h in hs && Sum(hs, a) == a[h] + Sum(hs - {h}, a) && Sum(hs, b) == b[h] + Sum(hs - {h}, b);
      SumsAgree(hs - {h}, a, b);
    }
  }

  /** The join of this site's location rows with the size rows, summed. */
  ghost function LocalBlockBytes(ix: BlockIndex, me: SiteId): int {
    var held := set h | h in Held(ix.locations, me) && h in ix.sizes;
    Sum(held, map h | h in held :: ix.sizes[h].value)
  }

  ghost function PhysicalBytes(ix: BlockIndex): int {
    Sum(ix.blobs.Keys, map h | h in ix.blobs :: |ix.blobs[h]|)
  }

  /** In every state of every run a size row exists exactly for the hashes with some holder, and the
      recorded usage counts each stored byte once. */
  lemma UsageIsPhysical(cfg: Config, states: seq<Mesh>, steps: seq<Step>, i: nat, s: SiteId)
    requires IsRun(cfg, states, steps) && i < |states| && s in states[i] && CollisionFree(cfg)
    ensures var ix := states[i][s].site.index;
            && (forall h :: h in ix.sizes <==> Holders(ix.locations, h) != map[])
            && LocalBlockBytes(ix, s) == PhysicalBytes(ix)
  {
    RunSound(cfg, states, steps, i);
    var ix := states[i][s].site.index;
    var held := set h | h in Held(ix.locations, s) && h in ix.sizes;
    assert held == ix.blobs.Keys;
    forall h | h in held ensures ix.sizes[h].value == |ix.blobs[h]| {
      SizesAreLengths(cfg, s, ix, h);
    }
    SumsAgree(held, map h | h in held :: ix.sizes[h].value, map h | h in ix.blobs :: |ix.blobs[h]|);
  }
}
