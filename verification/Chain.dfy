/** Blocks, the block store and ancestry (chain/core/database_util.go).

    A hash is modelled as an injective constructor over the hashed block, so different blocks have
    different hashes and a parent hash determines the parent, whether or not it is stored. */
module Chain {
  import opened Options

  type TxHash = nat

  datatype Hash = Zero | Of(block: Block)

  datatype Block = Block(parent: Hash, number: nat, difficulty: int, txs: seq<TxHash>, salt: nat)

  /** `GetHeader` / `GetBlock`: the store is keyed by number and hash together. */
  function Get(store: set<Block>, hash: Hash, number: nat): Option<Block> {
    if hash.Of? && hash.block in store && hash.block.number == number then Some(hash.block) else None
  }

  /** The stored parent; number 0 has none. */
  function Parent(store: set<Block>, b: Block): (r: Option<Block>)
    ensures r.Some? ==> r.value in store && r.value.number + 1 == b.number
  {
    if b.number == 0 then None else Get(store, b.parent, b.number - 1)
  }

  /** The block reached from `b` by following stored parents down to height `k`. */
  function AncestorAt(store: set<Block>, b: Block, k: nat): (r: Option<Block>)
    ensures r.Some? ==> r.value.number == k <= b.number
    ensures r.Some? && r.value != b ==> r.value in store
    ensures k == b.number ==> r == Some(b)
    decreases b.number
  {
    if k > b.number then None
    else if k == b.number then Some(b)
    else match Parent(store, b)
         case None => None
         case Some(p) => AncestorAt(store, p, k)
  }

  predicate IsAncestor(store: set<Block>, c: Block, b: Block) {
    AncestorAt(store, b, c.number) == Some(c)
  }

  /** Ancestors of an ancestor are ancestors, and conversely at every lower height. */
  lemma {:induction false} AncestorThrough(store: set<Block>, b: Block, m: Block, k: nat)
    requires IsAncestor(store, m, b) && k <= m.number
    ensures AncestorAt(store, b, k) == AncestorAt(store, m, k)
    decreases b.number
  {
    if m.number < b.number {
      AncestorThrough(store, Parent(store, b).value, m, k);
    }
  }

  lemma {:induction false} AncestorLower(store: set<Block>, b: Block, j: nat, k: nat)
    requires j <= k <= b.number && AncestorAt(store, b, j).Some?
    ensures AncestorAt(store, b, k).Some?
    decreases b.number
  {
    if k < b.number {
      AncestorLower(store, Parent(store, b).value, j, k);
    }
  }

  /** Adding a block changes no ancestry that was already complete. */
  lemma {:induction false} AncestorGrows(store: set<Block>, more: set<Block>, b: Block, k: nat)
    requires store <= more && AncestorAt(store, b, k).Some?
    ensures AncestorAt(more, b, k) == AncestorAt(store, b, k)
    decreases b.number
  {
    if k < b.number {
      AncestorGrows(store, more, Parent(store, b).value, k);
    }
  }

  /** The sum of difficulties from a block back to the first block of its chain. */
  function TotalDifficulty(b: Block): int {
    match b.parent
    case Zero => b.difficulty
    case Of(p) => b.difficulty + TotalDifficulty(p)
  }
}
