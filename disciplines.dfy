/**
 * The three retrieval disciplines of the shared buffer, selected by the keys
 * of the `QUEUE_TYPES` table, and which stored item each one hands out.
 *
 * The buffer's contents are modelled as a sequence in insertion order.
 * `fifo` (the standard `Queue`) removes the earliest item, `lifo`
 * (`LifoQueue`) the latest, and `heap` (`PriorityQueue`, a min-heap) the
 * least item under Python's string order.
 */
module Disciplines {
  import opened Wrappers
  import opened Ordering

  datatype Discipline = Fifo | Lifo | Heap

  /** The `QUEUE_TYPES` table: command-line key to queue class. */
  const QueueTypes: map<string, Discipline> := map["fifo" := Fifo, "lifo" := Lifo, "heap" := Heap]

  /** `QUEUE_TYPES[key]`; an unknown key raises `KeyError`, here `None`. */
  function Lookup(key: string): (r: Option<Discipline>)
    ensures r.Some? <==> key in {"fifo", "lifo", "heap"}
  {
    if key in QueueTypes then Some(QueueTypes[key]) else None
  }

  /** The key under which a discipline is registered. */
  function KeyOf(d: Discipline): (key: string) {
    match d
    case Fifo => "fifo"
    case Lifo => "lifo"
    case Heap => "heap"
  }

  /** Every discipline is reachable by exactly one key. */
  lemma LookupKeyOf(d: Discipline, key: string)
    ensures Lookup(KeyOf(d)) == Some(d)
    ensures Lookup(key) == Some(d) ==> key == KeyOf(d)
  {
  }

  /** The index of a least element, earliest first; what `heappop` returns. */
  function MinIndex(s: seq<string>): (k: nat)
    requires |s| > 0
    ensures k < |s|
    ensures forall j :: 0 <= j < |s| ==> StrLessEq(s[k], s[j])
  {
    if |s| == 1 then
      Reflexive(s[0]);
      0
    else
      var m := MinIndex(s[..|s| - 1]);
      var last := s[|s| - 1];
      if StrLessEq(s[m], last) then
        Reflexive(s[m]);
        m
      else
        Total(s[m], last);
        Reflexive(last);
        assert forall j :: 0 <= j < |s| - 1 ==> StrLessEq(s[m], s[j]) by {
          forall j | 0 <= j < |s| - 1 ensures StrLessEq(s[m], s[j]) {
            assert s[..|s| - 1][j] == s[j];
          }
        }
        assert forall j :: 0 <= j < |s| - 1 ==> StrLessEq(last, s[j]) by {
          forall j | 0 <= j < |s| - 1 ensures StrLessEq(last, s[j]) {
            Transitive(last, s[m], s[j]);
          }
        }
        |s| - 1
  }

  /** The position of the item that `get` removes under discipline `d`. */
  function SelectIndex(d: Discipline, s: seq<string>): (k: nat)
    requires |s| > 0
    ensures k < |s|
    ensures d == Fifo ==> k == 0
    ensures d == Lifo ==> k == |s| - 1
    ensures d == Heap ==> forall j :: 0 <= j < |s| ==> StrLessEq(s[k], s[j])
  {
    match d
    case Fifo => 0
    case Lifo => |s| - 1
    case Heap => MinIndex(s)
  }

  /** The sequence with the item at position `k` taken out. */
  function RemoveAt(s: seq<string>, k: nat): (r: seq<string>)
    requires k < |s|
    ensures |r| == |s| - 1
    ensures multiset(r) + multiset{s[k]} == multiset(s)
    ensures forall j :: 0 <= j < k ==> r[j] == s[j]
    ensures forall j :: k <= j < |r| ==> r[j] == s[j + 1]
  {
    assert s == s[..k] + [s[k]] + s[k + 1..];
    s[..k] + s[k + 1..]
  }

  /** The items in the order successive `get` calls return them, with no `put` in between. */
  function Drain(d: Discipline, s: seq<string>): (r: seq<string>)
    decreases |s|
  {
    if |s| == 0 then []
    else
      var k := SelectIndex(d, s);
      [s[k]] + Drain(d, RemoveAt(s, k))
  }

  /** Draining never loses or duplicates an item, whatever the discipline. */
  lemma {:induction false} DrainConserves(d: Discipline, s: seq<string>)
    ensures multiset(Drain(d, s)) == multiset(s)
    decreases |s|
  {
    if |s| > 0 {
      var k := SelectIndex(d, s);
      DrainConserves(d, RemoveAt(s, k));
    }
  }

  /** `fifo` hands items out in the order they were put. */
  lemma {:induction false} DrainFifo(s: seq<string>)
    ensures Drain(Fifo, s) == s
    decreases |s|
  {
    if |s| > 0 {
      assert RemoveAt(s, 0) == s[1..];
      DrainFifo(s[1..]);
    }
  }

  /** `lifo` hands items out in the reverse of the order they were put. */
  lemma {:induction false} DrainLifo(s: seq<string>)
    ensures |Drain(Lifo, s)| == |s|
    ensures forall i :: 0 <= i < |s| ==> Drain(Lifo, s)[i] == s[|s| - 1 - i]
    decreases |s|
  {
    if |s| > 0 {
      var rest := s[..|s| - 1];
      assert RemoveAt(s, |s| - 1) == rest;
      DrainLifo(rest);
    }
  }

  /** `heap` hands items out in ascending order. */
  lemma {:induction false} DrainHeapSorted(s: seq<string>)
    ensures forall i, j :: 0 <= i < j < |Drain(Heap, s)| ==> StrLessEq(Drain(Heap, s)[i], Drain(Heap, s)[j])
    decreases |s|
  {
    if |s| > 0 {
      var k := SelectIndex(Heap, s);
      var rest := RemoveAt(s, k);
      var r := Drain(Heap, s);
      DrainHeapSorted(rest);
      DrainConserves(Heap, rest);
      forall i, j | 0 <= i < j < |r| ensures StrLessEq(r[i], r[j]) {
        if i == 0 {
          assert r[j] in multiset(Drain(Heap, rest));
          assert r[j] in multiset(s);
        }
      }
    }
  }
}
