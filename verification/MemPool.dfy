/** The memory pool object (mempool.c): a free list threaded through the blocks, a counter and
    a list of threads.

    A block is known by its index; `word` is the word in front of every block, which is the
    link of a free block and the mark of the pool in one handed out.  The ghost field `s` is
    the state of the interleaving model, and every method is one action on it.
 */
module MemPools {
  import opened Chains
  import opened IpcList
  import opened MemPoolModel
  import opened Sequences

  const ALIGN := 8
  const MARK := 4      // sizeof(rt_uint8_t *) on a 32-bit machine
  const OWNER: int := -2  // the address of the pool itself

  class MemPool {
    const blockSize: nat
    const total: nat
    const suspended: ThreadList

    var word: Links
    var blockList: int
    var freeCount: nat

    ghost var s: State

    ghost predicate Linked()
      reads `word, `blockList, `freeCount, `s
    {
      && Chain(word, blockList, s.free) && freeCount == |s.free|
      && (forall n :: n in s.used ==> n in word && word[n] == OWNER)
    }

    ghost predicate Valid()
      reads this, suspended
    {
      Linked() && Inv(s) && s.total == total && suspended.list == s.wait.list
    }

    /** rt_mp_init, for an area with room for at least one block. */
    constructor (size: nat, blockSize: nat)
      requires 0 < blockSize
      requires (blockSize + ALIGN - 1) / ALIGN * ALIGN + MARK <= size / ALIGN * ALIGN
      ensures Valid() && fresh(suspended)
      ensures this.blockSize == (blockSize + ALIGN - 1) / ALIGN * ALIGN
      ensures total == (size / ALIGN * ALIGN) / (this.blockSize + MARK)
      ensures s == Init(total)
    {
      var aligned := (blockSize + ALIGN - 1) / ALIGN * ALIGN;
      this.blockSize := aligned;
      total := (size / ALIGN * ALIGN) / (aligned + MARK);
      suspended := new ThreadList();
      word, blockList, freeCount := map[], 0, 0;
      s := Init((size / ALIGN * ALIGN) / (aligned + MARK));
      new;
      AtLeastOne(size / ALIGN * ALIGN, aligned + MARK);
      InitInv(total);
      LinkPool();
    }

    /** The loop of rt_mp_init. */
    method LinkPool()
      requires 0 < total && s == Init(total) && s.used == {}
      modifies this`word, this`blockList, this`freeCount
      ensures Linked()
    {
      freeCount := total;
      word := map[];
      var offset := 0;
      while offset < total
        invariant offset <= total && freeCount == total
        invariant forall n: Node :: n in word <==> n < offset
        invariant forall n: Node :: n < offset ==> word[n] == n + 1
      {
        word := word[offset := offset + 1];
        offset := offset + 1;
      }
      word := word[offset - 1 := NULL];
      blockList := 0;
      CountingUp(word, total, 0);
      assert s.free[0..] == s.free && |s.free| == total;
    }

    /** One turn of the loop of rt_mp_alloc, and the code behind it. */
    method Alloc(t: Tid, giveUp: bool) returns (block: int)
      requires Valid() && (Enabled(s, AllocEnter(t, giveUp)) || Enabled(s, AllocRetry(t, giveUp)))
      modifies this`word, this`blockList, this`freeCount, this`s, suspended
      ensures Valid() && s == TryAlloc(old(s), t, giveUp)
      ensures block == if old(s).free == [] then NULL else old(s).free[0]
    {
      hide Inv, Enabled;
      AllocTurn(s, t, giveUp);
      if freeCount == 0 {
        block := NULL;
        if !giveUp {
          suspended.SuspendFirst(t);
        }
      } else {
        freeCount := freeCount - 1;
        block := blockList;
        FreeApart(s);
        ChainElsewhere(word, word[block], s.free[1..], block, OWNER);
        blockList := word[block];
        word := word[block := OWNER];
      }
      s := TryAlloc(s, t, giveUp);
    }

    /** rt_mp_free */
    method Free(block: Node)
      requires Valid() && Enabled(s, MemPoolModel.Action.Free(block))
      modifies this`word, this`blockList, this`freeCount, this`s, suspended
      ensures Valid() && IsStep(old(s), MemPoolModel.Action.Free(block), s)
    {
      hide Inv;
      ApplyKeeps(s, MemPoolModel.Action.Free(block));
      FreeApart(s);
      freeCount := freeCount + 1;
      ChainElsewhere(word, blockList, s.free, block, blockList);
      assert ([block] + s.free)[1..] == s.free;
      word := word[block := blockList];
      blockList := block;
      if suspended.list != [] {
        var resumed := suspended.Resume();
      }
      s := Release(s, block);
    }

    /** The timer of a waiting thread fires. */
    method TimeOut(t: Tid)
      requires Valid() && Enabled(s, Timeout(t))
      modifies this`s, suspended
      ensures Valid() && IsStep(old(s), Timeout(t), s)
    {
      hide Inv, Chain;
      ApplyKeeps(s, Timeout(t));
      suspended.Leave(t);
      s := Apply(s, Timeout(t));
    }
  }

  lemma AtLeastOne(size: nat, unit: nat)
    requires 0 < unit <= size
    ensures 0 < size / unit
  {
  }

  lemma AllocTurn(s: State, t: Tid, giveUp: bool)
    requires Inv(s) && (Enabled(s, AllocEnter(t, giveUp)) || Enabled(s, AllocRetry(t, giveUp)))
    ensures Inv(TryAlloc(s, t, giveUp))
  {
    MembersAre(s.wait);
    TryAllocKeeps(s, t, giveUp);
  }

  lemma FreeApart(s: State)
    requires Inv(s)
    ensures forall n :: n in s.free ==> n !in s.used
    ensures s.free != [] ==> s.free[0] !in s.free[1..]
  {
    if s.free != [] {
      TailDistinct(s.free);
    }
  }

  lemma {:induction false} CountingUp(word: Links, total: nat, k: nat)
    requires k < total
    requires forall n: Node :: n < total ==> n in word
    requires forall n: Node :: n < total ==> word[n] == if n + 1 == total then NULL else n + 1
    ensures Chain(word, k, Init(total).free[k..])
    decreases total - k
  {
    var rest := Init(total).free[k..];
    assert rest[0] == k && rest[1..] == Init(total).free[k + 1..];
    if k + 1 < total {
      CountingUp(word, total, k + 1);
    } else {
      assert rest[1..] == [];
    }
  }
}
