/** The waker pages: three 64-bit maps, one bit per task. */
module WakerPages {
  import opened Words

  class WakerPage {
    var notified: u64
    var completed: u64
    var dropped: u64

    constructor ()
      ensures notified == 0 && completed == 0 && dropped == 0
    {
      notified, completed, dropped := 0, 0, 0;
    }

    method Notify(ix: nat)
      requires ix < 64
      modifies `notified
      ensures forall j: nat :: Bit(notified, j) <==> old(Bit(notified, j)) || j == ix
    {
      forall j: nat
        ensures Bit(Or64(notified, One64(ix)), j) <==> Bit(notified, j) || j == ix
      {
        SetBit(notified, ix, j);
      }
      notified := Or64(notified, One64(ix));
    }

    /** Completed and dropped tasks are masked out; all notified flags are cleared. */
    method TakeNotified() returns (m: u64)
      modifies `notified
      ensures notified == 0
      ensures forall j: nat :: Bit(m, j) <==> old(Bit(notified, j)) && !Bit(completed, j) && !Bit(dropped, j)
    {
      m := notified;
      notified := 0;
      m := AndNot64(m, completed);
      m := AndNot64(m, dropped);
      forall j: nat
        ensures Bit(m, j) <==> old(Bit(notified, j)) && !Bit(completed, j) && !Bit(dropped, j)
      {
        AndNotBit(old(notified), completed, j);
        AndNotBit(AndNot64(old(notified), completed), dropped, j);
      }
    }

    method TakeDropped() returns (m: u64)
      modifies `dropped
      ensures dropped == 0 && m == old(dropped)
    {
      m := dropped;
      dropped := 0;
    }

    /** The completed bit, found by masking. */
    method HasCompleted(ix: nat) returns (b: bool)
      requires ix < 64
      ensures b <==> Bit(completed, ix)
    {
      MaskedBit(completed, ix);
      b := And(completed, One64(ix)) != 0;
    }

    /** The dropped bit, found by masking. */
    method WasDropped(ix: nat) returns (b: bool)
      requires ix < 64
      ensures b <==> Bit(dropped, ix)
    {
      MaskedBit(dropped, ix);
      b := And(dropped, One64(ix)) != 0;
    }

    method MarkCompleted(ix: nat)
      requires ix < 64
      modifies `completed
      ensures forall j: nat :: Bit(completed, j) <==> old(Bit(completed, j)) || j == ix
    {
      forall j: nat
        ensures Bit(Or64(completed, One64(ix)), j) <==> Bit(completed, j) || j == ix
      {
        SetBit(completed, ix, j);
      }
      completed := Or64(completed, One64(ix));
    }

    method MarkDropped(ix: nat)
      requires ix < 64
      modifies `dropped
      ensures forall j: nat :: Bit(dropped, j) <==> old(Bit(dropped, j)) || j == ix
    {
      forall j: nat
        ensures Bit(Or64(dropped, One64(ix)), j) <==> Bit(dropped, j) || j == ix
      {
        SetBit(dropped, ix, j);
      }
      dropped := Or64(dropped, One64(ix));
    }

    /** A new task: notified, neither completed nor dropped. */
    method Initialize(ix: nat)
      requires ix < 64
      modifies this
      ensures forall j: nat :: Bit(notified, j) <==> old(Bit(notified, j)) || j == ix
      ensures forall j: nat :: Bit(completed, j) <==> old(Bit(completed, j)) && j != ix
      ensures forall j: nat :: Bit(dropped, j) <==> old(Bit(dropped, j)) && j != ix
    {
      forall j: nat
        ensures Bit(Or64(notified, One64(ix)), j) <==> Bit(notified, j) || j == ix
        ensures Bit(AndNot64(completed, One64(ix)), j) <==> Bit(completed, j) && j != ix
        ensures Bit(AndNot64(dropped, One64(ix)), j) <==> Bit(dropped, j) && j != ix
      {
        SetBit(notified, ix, j);
        ClearBit(completed, ix, j);
        ClearBit(dropped, ix, j);
      }
      notified := Or64(notified, One64(ix));
      completed := AndNot64(completed, One64(ix));
      dropped := AndNot64(dropped, One64(ix));
    }

    /** Every flag of one task is cleared. */
    method Clear(ix: nat)
      requires ix < 64
      modifies this
      ensures forall j: nat :: Bit(notified, j) <==> old(Bit(notified, j)) && j != ix
      ensures forall j: nat :: Bit(completed, j) <==> old(Bit(completed, j)) && j != ix
      ensures forall j: nat :: Bit(dropped, j) <==> old(Bit(dropped, j)) && j != ix
    {
      forall j: nat
        ensures Bit(AndNot64(notified, One64(ix)), j) <==> Bit(notified, j) && j != ix
        ensures Bit(AndNot64(completed, One64(ix)), j) <==> Bit(completed, j) && j != ix
        ensures Bit(AndNot64(dropped, One64(ix)), j) <==> Bit(dropped, j) && j != ix
      {
        ClearBit(notified, ix, j);
        ClearBit(completed, ix, j);
        ClearBit(dropped, ix, j);
      }
      notified := AndNot64(notified, One64(ix));
      completed := AndNot64(completed, One64(ix));
      dropped := AndNot64(dropped, One64(ix));
    }
  }
}
