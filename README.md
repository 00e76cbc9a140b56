# Thread-safe queues: worker lifecycle and one producer/consumer pass

This project models the sequential core of `thread_safe_queues.py`. Producer
and consumer threads share one buffer. That buffer is a standard `Queue`,
`LifoQueue` or `PriorityQueue`, picked through the `QUEUE_TYPES` table by the
key `fifo`, `lifo` or `heap`.

- **Disciplines** (`disciplines.dfy`): the `QUEUE_TYPES` lookup, and which item
  `get` removes under each discipline. The buffer is a sequence in insertion
  order. `fifo` takes the first item, `lifo` the last, and `heap` the least
  under Python's string order (`ordering.dfy`). `Drain` is the order in which
  repeated `get` calls return items.
- **Buffers** (`buffers.dfy`): class `Buffer` holds the items and the
  unfinished-task counter. `Put` raises the counter and `TaskDone` lowers it.
  With the counter at 0, `TaskDone` reports the `ValueError` instead.
  A ghost event log states the buffer's invariant: stored items plus removed
  items equal put items, and the counter equals puts minus completed tasks.
- **Workers** (`workers.dfy`): class `Worker` holds the fields `speed`,
  `buffer`, `product`, `working` and `progress`. It has the `state` string and
  the methods `simulate_idle` and `simulate_work`. `ParseState` reads a state
  string back and is the partner of `state`. `FloorDiv` is Python's `//`, and
  `DelayUpper` is the upper end of `randint(1, 1 + 15 // speed)`.
- **Roles** (`roles.dfy`): one pass of `Producer.run` and of `Consumer.run`,
  each run against the shared `Buffer`. Python's `Producer` and `Consumer`
  subclass `Worker`; here each of them owns a `Worker` object.

Inputs that the source draws at random are parameters here. The chosen
product must be in `products`. The delay must lie in the range `randint`
draws from. `sleep` does nothing.

The source can raise an exception in five places. `choice` on an empty
catalogue raises `IndexError` (line 98); that case is listed under "## Left
out". The model handles the other four as follows:
- `QUEUE_TYPES[key]` with an unknown key raises `KeyError` (line 132). `Lookup`
  returns `None` for it. In the program `main` never reaches this, because the
  parser accepts only the keys of `QUEUE_TYPES` (line 154).
- `15 // speed` with speed 0 raises `ZeroDivisionError` (line 80).
  `SimulateWork` returns it as an `Outcome`.
- A negative speed leaves `randint` an empty range, which raises `ValueError`
  (line 80). `SimulateWork` also returns this as an `Outcome`.
- `task_done` with the counter at 0 raises `ValueError` (line 127).
  `TaskDone` reports it through its `ok` result, and `Consumer.RunOnce`
  returns it as an `Outcome`. The program as wired never
  reaches it. Only consumers call `task_done`, each after its own `get`, so
  completions never outnumber removals (`Buffer.Matched`). While that holds,
  the counter is at least the number of stored items
  (`Buffer.PendingCoversStored`), and a consumer pass fails only when its
  speed is below 1.

Every state-changing `Worker` method keeps the invariant `Worker.Valid`: progress lies in
[0, 100] and is 0 while the worker is idle. The constructor establishes it,
and `SimulateIdle`, `SimulateWork` and both `RunOnce` methods ensure it
afterwards without requiring it beforehand.

The code never checks the speed: the parser only requires an int, and the
model follows the code. The key for the priority queue is `heap`.

## Model

| member | source | states |
|---|---|---|
| Roles.CatalogueDistinct | thread_safe_queues.py:19-35 | the `PRODUCTS` catalogue holds fifteen distinct products, so `choice` over it always has one to return |
| Ordering.StrLessEq | thread_safe_queues.py:13-14 | Python's `str` order, which the min-heap uses: a prefix of a string never comes after it, and a string never comes before its own proper prefix |
| Disciplines.Lookup | thread_safe_queues.py:10-15 | a key selects a discipline exactly when it is `fifo`, `lifo` or `heap`; any other key is the `KeyError` case |
| Disciplines.LookupKeyOf | thread_safe_queues.py:10-15 | each discipline is registered under exactly one key, and looking that key up gives it back |
| Disciplines.MinIndex | thread_safe_queues.py:13-14 | the min-heap hands out an item that is less than or equal to every stored item |
| Disciplines.SelectIndex | thread_safe_queues.py:10-15 | `get` takes the first item under `fifo`, the last under `lifo`, and a least item under `heap` |
| Disciplines.RemoveAt | thread_safe_queues.py:119 | removal takes out exactly one occurrence of the chosen item and keeps the order of the other items |
| Disciplines.DrainConserves | thread_safe_queues.py:119 | repeated `get` calls return every stored item exactly once, whatever the discipline |
| Disciplines.DrainFifo | thread_safe_queues.py:11 | `fifo` returns items in the order they were put |
| Disciplines.DrainLifo | thread_safe_queues.py:12 | `lifo` returns items in the reverse of the put order |
| Disciplines.DrainHeapSorted | thread_safe_queues.py:13-14 | `heap` returns items in ascending order |
| Buffers.Buffer.constructor | thread_safe_queues.py:132 | a new buffer has the chosen discipline, no items, a zero counter, and satisfies the conservation invariant; no completion exceeds the removals |
| Buffers.Buffer.Put | thread_safe_queues.py:101 | `put` appends the item, raises the counter by one, and keeps the invariant and the matching of completions to removals |
| Buffers.Buffer.Get | thread_safe_queues.py:119 | `get` on a non-empty buffer removes and returns the item its discipline selects; the other items stay; the counter is unchanged, and while completions match removals it is positive afterwards |
| Buffers.Buffer.PendingCoversStored | thread_safe_queues.py:119-127 | while every `task_done` follows a `get`, the counter is at least the number of stored items, so a consumer's `task_done` after its `get` cannot raise |
| Buffers.Buffer.TaskDone | thread_safe_queues.py:127 | `task_done` succeeds exactly when the counter is positive and then lowers it by one; otherwise it raises and changes nothing; a completion after an unmatched removal keeps completions matched to removals |
| Workers.DelayUpper | thread_safe_queues.py:80 | the upper end of the delay range is at least 1 when it exists; it is `ZeroDivisionError` exactly when speed is 0 |
| Workers.FloorDiv | thread_safe_queues.py:80 | Python's `//` rounds the quotient towards minus infinity, for either sign of the divisor |
| Workers.DelayBounds | thread_safe_queues.py:80 | the delay range exists exactly when speed >= 1; speed 0 divides by zero and a negative speed leaves the range empty; the upper end lies in [1, 16] and is 1 from speed 16 on |
| Workers.DelayShrinksWithSpeed | thread_safe_queues.py:75-80 | a faster worker never gets a larger delay bound |
| Workers.Decimal | thread_safe_queues.py:62 | `str(progress)` is a non-empty run of digits with no leading zero, and exactly "0" for 0 |
| Workers.DecimalRoundTrip | thread_safe_queues.py:62 | the decimal text printed for the progress reads back as that same number |
| Workers.DescribeRoundTrip | thread_safe_queues.py:61-63 | a working state string reads back as its product text and progress; the idle marker reads back as nothing |
| Workers.Worker.constructor | thread_safe_queues.py:41-50 | a new worker keeps the speed and buffer it is given, holds no product, is not working and has progress 0 |
| Workers.Worker.State | thread_safe_queues.py:52-63 | the state is the idle marker exactly when the worker is not working; otherwise it shows the product and progress, which can be read back from it |
| Workers.Worker.SimulateIdle | thread_safe_queues.py:65-72 | afterwards there is no product, `working` is false and progress is 0, whatever the state before; so a second call changes nothing |
| Workers.Worker.SimulateWork | thread_safe_queues.py:74-83 | the worker is working with its product unchanged; progress goes 0, 1, ..., 100 one step at a time; with speed below 1 the exception leaves progress at 0 |
| Roles.Producer.constructor | thread_safe_queues.py:87-89 | a new producer keeps its catalogue, and its worker starts idle with the given speed and buffer |
| Roles.Producer.RunOnce | thread_safe_queues.py:97-102 | the picked product from the catalogue is appended to the buffer exactly once, the counter goes up by one, and the worker ends idle; if the work phase raises, the buffer is untouched; completions still match removals |
| Roles.Consumer.constructor | thread_safe_queues.py:105 | a new consumer's worker starts idle with the given speed and buffer |
| Roles.Consumer.RunOnce | thread_safe_queues.py:111-128 | exactly the item the discipline selects leaves the buffer and becomes the product; `task_done` is signalled once, at progress 100, while the state shows that item as the product, and the worker ends idle; each exception leaves the item taken and the task not done, and a work-phase exception leaves progress at 0; while completions match removals they still do afterwards, and the pass fails only for a speed below 1 |

## Left out

- Threads: the `threading.Thread` base class, `daemon=True`, `start()` and the endless `while True` loops. Each role's loop body is modelled as one call.
- Locks, condition variables, `maxsize`, and the blocking of `get` and `put` inside the standard queues. A blocking `get` becomes the precondition that the buffer is non-empty. `put` never blocks, because the buffer is unbounded.
- `join` and the wake-up of joining threads when the counter reaches 0: the source never calls `join`.
- The layout of `PriorityQueue`'s internal heap list: the model keeps items in insertion order and captures only which item `get` returns. Equal strings are equal values, so the tie-break among equal keys cannot be observed in the returned item.
- `sleep`, `randint` and `choice`: time passes instantly, and the random draws are parameters constrained to their ranges. The idle sleep `randint(1, 3)` has no effect on the state, so it has no parameter.
- What a thread does after an exception: the outcome reports the error, and the thread ending is not modelled.
- Subclassing: `Producer` and `Consumer` own a `Worker` object instead of inheriting from it.
- `main`, `parse_args` and the `KeyboardInterrupt` handling: process wiring and argument parsing.
- render_state.py: the terminal display, including its reading of the queues' internal lists.
- Roles.Producer.RunOnce: requires the pick to be in `products`, so the `IndexError` that `choice` raises on an empty catalogue is not modelled; the catalogue the program passes is non-empty (`Roles.CatalogueDistinct`).
- Workers.Worker.SimulateWork: the progress trace is a ghost out-parameter; the wall-clock time of each step is not modelled.
