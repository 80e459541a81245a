/** Finding the changes trie root of an earlier block seen from an anchor block. */
module ChangesTrieRoots {
  import opened Wrappers
  import opened ForkTree
  import opened ChainIndex

  datatype Error = AfterAnchor | UnknownNumber(number: nat)

  /** Reads the canonical index when the block is finalized or the anchor canonical, and
      walks back from the anchor otherwise.  `source` is the block whose digest is read. */
  method Root(db: set<Block>, numbers: map<nat, Block>, best: Block, finalized: Block, anchor: Block, block: nat)
    returns (r: Result<Option<nat>, Error>, ghost source: Block)
    requires ValidTree(db) && best in db && numbers == Canon(best) && OnChain(finalized, best) && anchor in db
    ensures r.Ok? <==> block <= anchor.number && (block <= finalized.number || anchor.number <= best.number)
    ensures r.Ok? ==> source in db && source.number == block && r.value == source.content.changesTrieRoot
    ensures r.Ok? ==>
              (source == AncestorAt(anchor, block) <==> block > finalized.number || block <= Common(anchor, finalized).number)
    ensures r.Ok? && (OnChain(anchor, finalized) || OnChain(finalized, anchor)) ==> source == AncestorAt(anchor, block)
  {
    if block <= anchor.number && block <= finalized.number {
      AgreeIff(anchor, finalized, block);
      OneChainMeets(anchor, finalized);
    }
    source := anchor;
    if block > anchor.number {
      return Err(AfterAnchor), source;
    }
    if block <= finalized.number {
      AncestorOfAncestor(best, finalized.number, block);
      AncestorInTree(db, best, block);
      source := numbers[block];
      return Ok(numbers[block].content.changesTrieRoot), source;
    }
    if anchor.number !in numbers {
      return Err(UnknownNumber(anchor.number)), source;
    }
    if numbers[anchor.number] == anchor {
      AncestorOfAncestor(best, anchor.number, block);
      AncestorInTree(db, best, block);
      source := numbers[block];
      return Ok(numbers[block].content.changesTrieRoot), source;
    }
    var current := anchor;
    while current.number != block
      invariant current in db && block <= current.number && current == AncestorAt(anchor, current.number)
      decreases current.number
    {
      AncestorOfAncestor(anchor, current.number, current.number - 1);
      current := current.parent;
    }
    source := current;
    r := Ok(current.content.changesTrieRoot);
  }
}
