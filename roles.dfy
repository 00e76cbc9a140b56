/**
 * One pass of the producer and consumer loops. Python's `Producer` and
 * `Consumer` subclass `Worker`; here each role owns its `Worker` state.
 * Threads and the enclosing `while True` are not modelled: each method is a
 * single iteration of the loop body.
 */
module Roles {
  import opened Wrappers
  import opened Disciplines
  import opened Buffers
  import opened Workers

  /** The catalogue of products producers choose from. */
  const Products: seq<string> := [
    ":balloon:", ":cookie:", ":crystal_ball:", ":diving_mask:", ":flashlight:",
    ":gem:", ":gift:", ":kite:", ":party_popper:", ":postal_horn:",
    ":ribbon:", ":rocket:", ":teddy_bear:", ":thread:", ":yo-yo:"
  ]

  /**
   * The catalogue holds fifteen distinct products, so `choice` over it
   * always has a product to return.
   */
  lemma CatalogueDistinct()
    ensures |Products| == 15
    ensures forall i, j :: 0 <= i < j < |Products| ==> Products[i] != Products[j]
  {
  }

  class Producer {
    const worker: Worker
    const products: seq<string>

    constructor (speed: int, buffer: Buffer, products: seq<string>)
      ensures fresh(worker) && worker.Valid()
      ensures worker.speed == speed && worker.buffer == buffer && this.products == products
      ensures worker.product == None && !worker.working && worker.progress == 0
    {
      worker := new Worker(speed, buffer);
      this.products := products;
    }

    /**
     * One iteration of `run`: take the product `pick` (the value of
     * `choice(products)`), work on it, put it into the buffer and go idle.
     * If the work phase raises, nothing is put and the worker is left
     * holding the product.
     */
    method RunOnce(pick: string, delay: int) returns (outcome: Outcome<WorkError>)
      requires worker.buffer.Valid()
      requires pick in products
      requires DelayUpper(worker.speed).Success? ==> DelayAllowed(worker.speed, delay)
      modifies worker, worker.buffer
      ensures worker.Valid() && worker.buffer.Valid()
      ensures outcome.Pass? <==> worker.speed >= 1
      ensures outcome.Pass? ==>
        && worker.buffer.items == old(worker.buffer.items) + [pick]
        && worker.buffer.items[|worker.buffer.items| - 1] in products
        && worker.buffer.unfinished == old(worker.buffer.unfinished) + 1
        && worker.buffer.log == old(worker.buffer.log) + [Added(pick)]
        && worker.product == None && !worker.working && worker.progress == 0
      ensures outcome.Fail? ==>
        && outcome.error == DelayUpper(worker.speed).error
        && worker.buffer.items == old(worker.buffer.items)
        && worker.buffer.unfinished == old(worker.buffer.unfinished)
        && worker.buffer.log == old(worker.buffer.log)
        && worker.product == Some(pick) && worker.working && worker.progress == 0
      ensures old(worker.buffer.Matched()) ==> worker.buffer.Matched()
    {
      worker.product := Some(pick);
      var work, _ := worker.SimulateWork(delay);
      if work.Fail? {
        return work;
      }
      worker.buffer.Put(pick);
      worker.SimulateIdle();
      outcome := Pass;
    }
  }

  class Consumer {
    const worker: Worker

    constructor (speed: int, buffer: Buffer)
      ensures fresh(worker) && worker.Valid()
      ensures worker.speed == speed && worker.buffer == buffer
      ensures worker.product == None && !worker.working && worker.progress == 0
    {
      worker := new Worker(speed, buffer);
    }

    /**
     * One iteration of `run`: take the item the discipline selects, work on
     * it, signal `task_done` once and go idle. `progressAtDone` is the
     * worker's progress when `task_done` is called, and `shownAtDone` its
     * `state` then, which shows the removed item as the product. If the work phase or
     * `task_done` raises, the item has still left the buffer.
     */
    method RunOnce(delay: int)
      returns (outcome: Outcome<WorkError>, ghost progressAtDone: nat, ghost shownAtDone: string)
      requires worker.buffer.Valid()
      requires |worker.buffer.items| > 0
      requires DelayUpper(worker.speed).Success? ==> DelayAllowed(worker.speed, delay)
      modifies worker, worker.buffer
      ensures worker.Valid() && worker.buffer.Valid()
      ensures
        var k := SelectIndex(worker.buffer.discipline, old(worker.buffer.items));
        var item := old(worker.buffer.items)[k];
        && worker.buffer.items == RemoveAt(old(worker.buffer.items), k)
        && (outcome.Pass? ==>
              && progressAtDone == 100
              && shownAtDone == Describe(Some(item), true, 100)
              && worker.buffer.unfinished == old(worker.buffer.unfinished) - 1
              && worker.buffer.log == old(worker.buffer.log) + [Removed(item), Completed]
              && worker.product == None && !worker.working && worker.progress == 0)
        && (outcome.Fail? ==>
              && worker.buffer.unfinished == old(worker.buffer.unfinished)
              && worker.buffer.log == old(worker.buffer.log) + [Removed(item)]
              && worker.product == Some(item) && worker.working)
      ensures outcome.Pass? <==> worker.speed >= 1 && old(worker.buffer.unfinished) > 0
      ensures outcome == Fail(ZeroDivision) <==> worker.speed == 0
      ensures outcome == Fail(EmptyDelayRange) <==> worker.speed < 0
      ensures outcome == Fail(TaskDoneTooManyTimes) ==> worker.progress == 100
      ensures outcome.Fail? && outcome.error != TaskDoneTooManyTimes ==> worker.progress == 0
      ensures old(worker.buffer.Matched()) ==> worker.buffer.Matched()
      ensures old(worker.buffer.Matched()) ==> (outcome.Pass? <==> worker.speed >= 1)
    {
      progressAtDone, shownAtDone := 0, "";
      var item := worker.buffer.Get();
      worker.product := Some(item);
      var work, _ := worker.SimulateWork(delay);
      DelayBounds(worker.speed);
      if work.Fail? {
        return work, progressAtDone, shownAtDone;
      }
      progressAtDone, shownAtDone := worker.progress, worker.State();
      var ok := worker.buffer.TaskDone();
      if !ok {
        return Fail(TaskDoneTooManyTimes), progressAtDone, shownAtDone;
      }
      worker.SimulateIdle();
      outcome := Pass;
    }
  }

  /** A put of "gift" then "kite" into a `fifo` buffer comes back out in that order. */
  method FifoScenario() {
    var buffer := new Buffer(Fifo);
    buffer.Put(":gift:");
    buffer.Put(":kite:");
    var first := buffer.Get();
    var second := buffer.Get();
    assert first == ":gift:" && second == ":kite:";
  }

  /** The same puts into a `lifo` buffer come back out reversed. */
  method LifoScenario() {
    var buffer := new Buffer(Lifo);
    buffer.Put(":gift:");
    buffer.Put(":kite:");
    var first := buffer.Get();
    var second := buffer.Get();
    assert first == ":kite:" && second == ":gift:";
  }

  /** One producer pass followed by one consumer pass moves the product across and settles the counter. */
  method HandOverScenario(pick: string) requires pick in Products {
    var buffer := new Buffer(Fifo);
    var producer := new Producer(1, buffer, Products);
    var consumer := new Consumer(1, buffer);
    DelayBounds(1);
    var made := producer.RunOnce(pick, 16);
    assert made == Pass && buffer.items == [pick];
    var used, _, _ := consumer.RunOnce(1);
    assert used == Pass && buffer.items == [] && buffer.unfinished == 0;
    assert consumer.worker.State() == IdleMarker;
  }
}
