/**
 * The shared buffer that producers and consumers hand products through:
 * a sequence of items under one of the three disciplines, plus the
 * unfinished-task counter that `put` raises and `task_done` lowers.
 * Blocking and locking are not modelled; a blocking `get` becomes the
 * precondition that the buffer holds an item.
 */
module Buffers {
  import opened Disciplines

  /** What has happened to the buffer so far, for stating its invariant. */
  datatype Event = Added(item: string) | Removed(item: string) | Completed

  /** The items ever put into the buffer. */
  ghost function Given(log: seq<Event>): multiset<string> {
    if log == [] then multiset{}
    else
      var e := log[|log| - 1];
      Given(log[..|log| - 1]) + if e.Added? then multiset{e.item} else multiset{}
  }

  /** The items ever removed by `get`. */
  ghost function Taken(log: seq<Event>): multiset<string> {
    if log == [] then multiset{}
    else
      var e := log[|log| - 1];
      Taken(log[..|log| - 1]) + if e.Removed? then multiset{e.item} else multiset{}
  }

  /** How many `task_done` calls succeeded. */
  ghost function Dones(log: seq<Event>): nat {
    if log == [] then 0
    else Dones(log[..|log| - 1]) + if log[|log| - 1].Completed? then 1 else 0
  }

  /** Appending one event adds that event's item or completion and nothing else. */
  lemma LogAppend(log: seq<Event>, e: Event)
    ensures Given(log + [e]) == Given(log) + if e.Added? then multiset{e.item} else multiset{}
    ensures Taken(log + [e]) == Taken(log) + if e.Removed? then multiset{e.item} else multiset{}
    ensures Dones(log + [e]) == Dones(log) + if e.Completed? then 1 else 0
  {
    assert (log + [e])[..|log|] == log;
  }

  class Buffer {
    const discipline: Discipline
    var items: seq<string>
    var unfinished: nat
    ghost var log: seq<Event>

    /**
     * No item is lost or duplicated: what is stored plus what was taken is
     * what was put. The counter is the number of puts not yet matched by a
     * `task_done`.
     */
    ghost predicate Valid()
      reads this
    {
      && multiset(items) + Taken(log) == Given(log)
      && unfinished + Dones(log) == |Given(log)|
    }

    /**
     * Every successful `task_done` follows a `get`. Only consumers call
     * `task_done`, each once after its own `get`, so the program keeps this.
     */
    ghost predicate Matched()
      reads this
    {
      Dones(log) <= |Taken(log)|
    }

    /**
     * While completions match removals, the counter is at least the number
     * of stored items, so a consumer that has just taken an item finds the
     * counter positive and its `task_done` cannot raise.
     */
    lemma PendingCoversStored()
      requires Valid() && Matched()
      ensures unfinished >= |items|
    {
      assert |multiset(items)| + |Taken(log)| == |Given(log)|;
    }

    /** `QUEUE_TYPES[key]()`: an empty buffer. */
    constructor (d: Discipline)
      ensures Valid() && Matched()
      ensures discipline == d && items == [] && unfinished == 0 && log == []
    {
      discipline := d;
      items := [];
      unfinished := 0;
      log := [];
    }

    /** `put(item)`: the buffer is unbounded, so it never blocks. */
    method Put(item: string)
      requires Valid()
      modifies this
      ensures Valid()
      ensures items == old(items) + [item]
      ensures unfinished == old(unfinished) + 1
      ensures log == old(log) + [Added(item)]
      ensures old(Matched()) ==> Matched()
    {
      ghost var before := log;
      LogAppend(log, Added(item));
      items := items + [item];
      unfinished := unfinished + 1;
      log := log + [Added(item)];
      assert log[..|log| - 1] == before;
    }

    /** `get()`: removes and returns the item the discipline selects. */
    method Get() returns (item: string)
      requires Valid()
      requires |items| > 0
      modifies this
      ensures Valid()
      ensures item == old(items)[SelectIndex(discipline, old(items))]
      ensures items == RemoveAt(old(items), SelectIndex(discipline, old(items)))
      ensures multiset(items) + multiset{item} == multiset(old(items))
      ensures unfinished == old(unfinished)
      ensures log == old(log) + [Removed(item)]
      ensures old(Matched()) ==> Dones(log) < |Taken(log)| && unfinished > 0
    {
      ghost var before := log;
      if Matched() {
        PendingCoversStored();
      }
      var k := SelectIndex(discipline, items);
      item := items[k];
      items := RemoveAt(items, k);
      log := log + [Removed(item)];
      LogAppend(before, Removed(item));
      assert log[..|log| - 1] == before;
    }

    /**
     * `task_done()`: lowers the counter; with the counter already at zero it
     * raises `ValueError` and changes nothing (`ok` is false).
     */
    method TaskDone() returns (ok: bool)
      requires Valid()
      modifies this
      ensures Valid()
      ensures ok <==> old(unfinished) > 0
      ensures items == old(items)
      ensures ok ==> unfinished == old(unfinished) - 1 && log == old(log) + [Completed]
      ensures !ok ==> unfinished == old(unfinished) && log == old(log)
      ensures old(Dones(log) < |Taken(log)|) ==> Matched()
    {
      ok := unfinished > 0;
      if ok {
        ghost var before := log;
        LogAppend(log, Completed);
        unfinished := unfinished - 1;
        log := log + [Completed];
        assert log[..|log| - 1] == before;
      }
    }
  }
}
