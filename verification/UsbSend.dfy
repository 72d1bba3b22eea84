/**
 usb_tx_flush_pending of main/main.c as the loop it is: the batch is offered to the
 driver again and again, the environment acting in between, until the driver says
 that it is done with. The loop has no bound of its own, so the number of offers is
 an argument; a flush that has not succeeded yet still holds its batch.
 */
module UsbSend {
  import opened Words
  import opened PcanMsg
  import opened PcanBatch
  import opened UsbIn

  class Sender {
    const batch: Batch
    const glue: GlueIn
    var world: World

    ghost predicate Valid()
      reads this, batch, batch.buf, glue, glue.buf
    {
      && batch.buf != glue.buf && batch.Valid() && glue.Valid()
      && glue.State() == world.n && Inv(world)
      && (Resting(world) || (batch.recs != [] && world.current == Wire(batch.recs)))
    }

    constructor ()
      ensures Valid() && fresh(batch) && fresh(batch.buf) && fresh(glue) && fresh(glue.buf)
      ensures batch.recs == [] && world.done == [] && world.host == []
    {
      batch := new Batch();
      glue := new GlueIn();
      world := Start([0]);
      new;
      assert Times([0 as byte], 0) == [];
    }

    /** One act of the bus, the host or the stack; what cannot happen now does not. */
    method Environment(e: Event)
      requires Valid()
      modifies this`world, glue
      ensures Valid() && world.done == old(world.done) && world.current == old(world.current)
    {
      if e.CallSend? || !Allowed(world, e) {
        return;
      }
      hide Inv, Step, Batch.Valid;
      StepKeeps(world, e);
      RestStays(world, e);
      Touch(e);
      world := Step(world, e);
    }

    /** What an act of the environment does to the driver. */
    method Touch(e: Event)
      requires glue.Valid() && glue.State() == world.n && !e.CallSend?
      modifies glue
      ensures glue.Valid() && glue.State() == Step(world, e).n
    {
      match e
      case CallDeferred(g, submitted) =>
        var _ := glue.RunDeferred(g, submitted, submitted);
      case HostReads =>
      case Finishes(ok) => glue.Done(ok);
      case OnInit => glue.Init();
      case OnDeinit => glue.Deinit();
      case OnReset => glue.Reset();
      case OnOpen => glue.Open();
    }

    method Acts(es: seq<Event>)
      requires Valid()
      modifies this`world, glue
      ensures Valid() && world.done == old(world.done) && world.current == old(world.current)
    {
      hide Sender.Valid;
      var k := 0;
      while k < |es|
        invariant 0 <= k <= |es| && Valid() && world.done == old(world.done) && world.current == old(world.current)
      {
        Environment(es[k]);
        k := k + 1;
      }
    }

    /** The next call of `usb_glue_send_msg_batch` with the open batch. */
    method Offer() returns (released: bool)
      requires Valid() && batch.recs != [] && world.current == Wire(batch.recs)
      modifies this`world, glue`state, glue`len, glue`boundTo, glue.buf
      ensures batch.Valid() && glue.Valid() && glue.State() == world.n && Inv(world)
      ensures world.current == old(world.current)
      ensures if released then
                exists r: Released :: world.done == old(world.done) + [r] && r.batch == Wire(batch.recs)
                                      && (r.copies >= 1 || r.dropped) && Resting(world)
              else world.done == old(world.done) && world.copies == old(world.copies)
    {
      ghost var w, b := world, Wire(batch.recs);
      OfferKeeps(w);
      var bytes := batch.buf[..batch.len];
      var n, deferred := glue.SendMsgBatch(bytes);
      world := Step(world, CallSend(bytes));
      released := n == batch.len;
    }

    /** Offers the batch until it is released or the offers are used up. */
    method FlushPending(tries: seq<seq<Event>>) returns (released: bool)
      requires Valid()
      modifies this`world, batch, batch.buf, glue, glue.buf
      ensures Valid()
      ensures old(batch.recs) == [] ==> released && world.done == old(world.done)
      ensures old(batch.recs) != [] && released ==>
                && batch.recs == [] && Resting(world)
                && exists r: Released :: world.done == old(world.done) + [r] && r.batch == Wire(old(batch.recs))
                                         && (r.copies >= 1 || r.dropped)
      ensures !released ==> batch.recs == old(batch.recs) && world.done == old(world.done)
    {
      if batch.recCnt == 0 {
        return true;
      }
      if Resting(world) {
        Present(world, Wire(batch.recs));
        world := world.(current := batch.buf[..batch.len]);
      }
      var k := 0;
      while k < |tries|
        invariant 0 <= k <= |tries| && Valid() && batch.recs == old(batch.recs) != []
        invariant world.current == Wire(batch.recs) && world.done == old(world.done)
      {
        released := Offer();
        if released {
          batch.Reset();
          return;
        }
        Acts(tries[k]);
        k := k + 1;
      }
      released := false;
    }
  }

  /** A batch at rest stays at rest. */
  lemma RestStays(w: World, e: Event)
    requires Inv(w) && !e.CallSend? && Allowed(w, e)
    ensures Resting(w) ==> Resting(Step(w, e))
    ensures Step(w, e).done == w.done && Step(w, e).current == w.current
  {}

  /** With nothing presented any batch may come next. */
  lemma Present(w: World, b: Bytes)
    requires Inv(w) && Resting(w) && WfBatch(b)
    ensures Inv(w.(current := b))
  {
    assert Times(b, 0) == [] && Times(w.current, 0) == [];
  }

  lemma OfferKeeps(w: World)
    requires Inv(w)
    ensures var k := Step(w, CallSend(w.current));
            && Inv(k) && k.current == w.current
            && (Send(w.n, w.current).released != 0 ==>
                  && k.done == w.done + [Released(w.current, w.copies, w.n.state.Dropped?)]
                  && (w.copies >= 1 || w.n.state.Dropped?) && Resting(k))
            && (Send(w.n, w.current).released == 0 ==> k.done == w.done && k.copies == w.copies)
  {
    StepKeeps(w, CallSend(w.current));
    hide Heard, Times;
  }
}
